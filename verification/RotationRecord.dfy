/** What the rotation remembers, told from the fields of the reports
    (scripts/release_cycle.py:184-277, 597-642). */
module RotationRecord {
  import opened Common
  import opened NameLists
  import opened ReleaseRotation
  import opened RotationPicks
  import opened ReleaseCycle

  /** This report's cycle picked it. */
  predicate PickedBy(e: Entry, name: string) { e.Record? && e.rotation.Picks? && name in e.rotation.names }

  /** This report has a run of it that exported, and whose manifest is certified. */
  predicate ExportedCertified(e: Entry, name: string) {
    e.Record? && name in e.runs && e.runs[name].status == "exported" && e.runs[name].certified
  }

  predicate Void(e: Entry, seed: Seed) { e.Record? && e.commit in seed.voided }

  // ---- one report ---------------------------------------------------------------------------------

  function Passing(e: Entry, picks: seq<string>): set<string> { set n | n in picks && ExportedCertified(e, n) }

  function NotPassing(e: Entry, picks: seq<string>): set<string> { set n | n in picks && !ExportedCertified(e, n) }

  lemma {:induction false} CertifiedSplit(e: Entry, picks: seq<string>)
    ensures CertifiedNames(e, picks) == Drop(picks, NotPassing(e, picks))
  {
    if picks != [] {
      var front, last := picks[..|picks| - 1], picks[|picks| - 1];
      assert picks == front + [last];
      CertifiedSplit(e, front);
      DropSame(front, NotPassing(e, front), NotPassing(e, picks));
    }
  }

  lemma {:induction false} FailedSplit(e: Entry, seed: Seed, picks: seq<string>)
    ensures FailedNames(e, seed, picks) == if Void(e, seed) then [] else Drop(picks, Passing(e, picks))
  {
    if picks != [] {
      var front, last := picks[..|picks| - 1], picks[|picks| - 1];
      assert picks == front + [last];
      FailedSplit(e, seed, front);
      DropSame(front, Passing(e, front), Passing(e, picks));
    }
  }

  lemma {:induction false} CountedAll(e: Entry, seed: Seed, picks: seq<string>)
    ensures CountedNames(e, seed, picks) == if Void(e, seed) then CertifiedNames(e, picks) else picks
  {
    if picks != [] {
      CountedAll(e, seed, picks[..|picks| - 1]);
    }
  }

  /** The picks that are certified, that failed and that count as tried, in pick order. */
  lemma ReportSplit(e: Entry, seed: Seed)
    ensures var picks := PicksOf(e);
            && Certs(e) == Drop(picks, set n | n in picks && !ExportedCertified(e, n))
            && Fails(e, seed)
               == (if Void(e, seed) then [] else Drop(picks, set n | n in picks && ExportedCertified(e, n)))
            && Counts(e, seed) == (if Void(e, seed) then Certs(e) else picks)
  {
    CertifiedSplit(e, PicksOf(e));
    FailedSplit(e, seed, PicksOf(e));
    CountedAll(e, seed, PicksOf(e));
  }

  lemma {:induction false} DropSame(s: seq<string>, a: set<string>, b: set<string>)
    requires forall x :: x in s ==> (x in a <==> x in b)
    ensures Drop(s, a) == Drop(s, b)
  {
    if s != [] {
      DropSame(s[..|s| - 1], a, b);
    }
  }

  lemma PicksAre(e: Entry, name: string)
    ensures name in PicksOf(e) <==> PickedBy(e, name)
  {
  }

  lemma {:induction false} ReportMembers(e: Entry, seed: Seed, name: string)
    ensures name in Certs(e) <==> PickedBy(e, name) && ExportedCertified(e, name)
    ensures name in Fails(e, seed) <==> PickedBy(e, name) && !ExportedCertified(e, name) && !Void(e, seed)
    ensures name in Counts(e, seed) <==> PickedBy(e, name) && (ExportedCertified(e, name) || !Void(e, seed))
  {
    var picks := PicksOf(e);
    CertifiedSplit(e, picks);
    FailedSplit(e, seed, picks);
    CountedAll(e, seed, picks);
    DropNames(picks, NotPassing(e, picks));
    DropNames(picks, Passing(e, picks));
    assert name in Certs(e) <==> name in Names(Certs(e));
    assert name in Fails(e, seed) <==> name in Names(Fails(e, seed));
    PicksAre(e, name);
  }

  // ---- the whole record ---------------------------------------------------------------------------------

  lemma {:induction false} SomeList(lists: seq<seq<string>>, name: string)
    ensures name in Flatten(lists) <==> exists i :: 0 <= i < |lists| && name in lists[i]
  {
    FlattenFrom(lists, name);
    if i :| 0 <= i < |lists| && name in lists[i] {
      FlattenMember(lists, i, name);
    }
  }

  lemma {:induction false} RecordMembers(es: seq<Entry>, seed: Seed, name: string)
    ensures name in AllCerts(es) <==> exists e :: e in es && PickedBy(e, name) && ExportedCertified(e, name)
    ensures name in AllFails(es, seed)
            <==> exists e :: e in es && PickedBy(e, name) && !ExportedCertified(e, name) && !Void(e, seed)
    ensures name in AllCounts(es, seed)
            <==> exists e :: e in es && PickedBy(e, name) && (ExportedCertified(e, name) || !Void(e, seed))
  {
    SomeList(CertLists(es), name);
    SomeList(FailLists(es, seed), name);
    SomeList(CountLists(es, seed), name);
    forall e | e in es
      ensures name in Certs(e) <==> PickedBy(e, name) && ExportedCertified(e, name)
      ensures name in Fails(e, seed) <==> PickedBy(e, name) && !ExportedCertified(e, name) && !Void(e, seed)
      ensures name in Counts(e, seed) <==> PickedBy(e, name) && (ExportedCertified(e, name) || !Void(e, seed))
    {
      ReportMembers(e, seed, name);
    }
    assert forall i :: 0 <= i < |es| ==> es[i] in es && CertLists(es)[i] == Certs(es[i])
                                         && FailLists(es, seed)[i] == Fails(es[i], seed)
                                         && CountLists(es, seed)[i] == Counts(es[i], seed);
  }

  /** A name is certified exactly when the seed lists it, or some report picked it and has a
      certified export of it, voided or not. */
  lemma {:induction false} CertifiedExactly(es: seq<Entry>, seed: Seed, name: string)
    ensures name in StateOf(es, seed).certified
            <==> name in seed.certified
                 || exists e :: e in es && PickedBy(e, name) && e.Record? && name in e.runs
                                && e.runs[name].status == "exported" && e.runs[name].certified
  {
    RecordMembers(es, seed, name);
  }

  /** It is tried exactly when the seed lists it, or some report picked it that is not voided
      or certified it. */
  lemma {:induction false} TriedExactly(es: seq<Entry>, seed: Seed, name: string)
    ensures name in StateOf(es, seed).tried
            <==> name in seed.tried
                 || exists e :: e in es && PickedBy(e, name) && (ExportedCertified(e, name) || !Void(e, seed))
  {
    var s := StateOf(es, seed);
    TriedNames(es, seed);
    RecordMembers(es, seed, name);
    assert name in s.tried <==> name in Names(s.tried);
    assert name in AllCounts(es, seed) <==> name in Names(AllCounts(es, seed));
  }

  /** It is failing exactly when it is not certified, and the seed lists it as tried or some
      report that is not voided picked it without a certified export. */
  lemma {:induction false} FailingExactly(es: seq<Entry>, seed: Seed, name: string)
    ensures name in StateOf(es, seed).failing
            <==> name !in StateOf(es, seed).certified
                 && (name in seed.tried
                     || exists e :: e in es && PickedBy(e, name) && !ExportedCertified(e, name) && !Void(e, seed))
  {
    var s := StateOf(es, seed);
    var all := AllFails(es, seed) + seed.tried;
    RecordMembers(es, seed, name);
    DedupNames(all);
    DropNames(Dedup(all), s.certified);
    assert name in s.failing <==> name in Names(s.failing);
    assert name in all <==> name in Names(all);
  }

  lemma {:induction false} LatestLast(latest: seq<string>, older: seq<string>, known: set<string>)
    ensures Drop(Reverse(Dedup(latest + older)), known)
            == Drop(Drop(Reverse(Dedup(older)), known), Names(latest)) + Drop(Reverse(Dedup(latest)), known)
  {
    var rest := Drop(Dedup(older), Names(latest));
    DedupConcat(latest, older);
    ReverseConcat(Dedup(latest), rest);
    DropConcat(Reverse(rest), Reverse(Dedup(latest)), known);
    DropReverse(Dedup(older), Names(latest));
    DropDrop(Reverse(Dedup(older)), Names(latest), known);
    DropDrop(Reverse(Dedup(older)), known, Names(latest));
    assert Names(latest) + known == known + Names(latest);
  }

  /** The order in which names were tried: the seed's, and then by when each was last picked; a
      newer report's names come last, its own last pick first. */
  lemma TriedInOrder(e: Entry, es: seq<Entry>, seed: Seed)
    ensures seed.tried <= StateOf(es, seed).tried
    ensures StateOf([e] + es, seed).tried
            == seed.tried + (Drop(StateOf(es, seed).tried[|seed.tried|..], Names(Counts(e, seed)))
                             + Drop(Reverse(Dedup(Counts(e, seed))), Names(seed.tried)))
  {
    Newer(e, es, seed);
    LatestLast(Counts(e, seed), AllCounts(es, seed), Names(seed.tried));
    AfterPrefix(seed.tried, Drop(Reverse(Dedup(AllCounts(es, seed))), Names(seed.tried)));
  }

  lemma AfterPrefix(a: seq<string>, b: seq<string>)
    ensures a <= a + b && (a + b)[|a|..] == b
  {
  }

  lemma {:induction false} ReverseConcat(a: seq<string>, b: seq<string>)
    ensures Reverse(a + b) == Reverse(b) + Reverse(a)
  {
    if b == [] {
      assert a + b == a;
    } else {
      var front, last := b[..|b| - 1], b[|b| - 1];
      assert a + b == (a + front) + [last];
      ReverseLast(a + front, last);
      ReverseConcat(a, front);
    }
  }

  lemma {:induction false} DropReverse(s: seq<string>, bad: set<string>)
    ensures Reverse(Drop(s, bad)) == Drop(Reverse(s), bad)
  {
    if s != [] {
      var front, last := s[..|s| - 1], s[|s| - 1];
      DropReverse(front, bad);
      assert [last][..0] == [] && Drop([last], bad) == if last in bad then [] else [last];
      DropConcat([last], Reverse(front), bad);
      if last !in bad {
        ReverseLast(Drop(front, bad), last);
      }
    }
  }

  ghost predicate NamesPicks(es: seq<Entry>, i: int) { 0 <= i < |es| && es[i].Record? && es[i].rotation.Picks? }

  ghost function PickIndices(es: seq<Entry>): set<int> { set i | 0 <= i < |es| && NamesPicks(es, i) }

  lemma OneMoreIndex(front: seq<Entry>, last: Entry)
    ensures |PickIndices(front + [last])|
            == |PickIndices(front)| + if last.Record? && last.rotation.Picks? then 1 else 0
  {
    var es := front + [last];
    assert forall i :: 0 <= i < |front| ==> es[i] == front[i];
    if last.Record? && last.rotation.Picks? {
      assert PickIndices(es) == PickIndices(front) + {|front|};
    } else {
      assert PickIndices(es) == PickIndices(front);
    }
  }

  /** The counter: the reports that name picks. */
  lemma {:induction false} CyclesExactly(es: seq<Entry>)
    ensures Cycles(es) == |PickIndices(es)|
  {
    if es != [] {
      var front, last := es[..|es| - 1], es[|es| - 1];
      CyclesExactly(front);
      assert es == front + [last];
      OneMoreIndex(front, last);
    }
  }

  // ---- what cannot be read --------------------------------------------------------------------------------

  /** A report can be read: none was uploaded, or it is a record with a verdict and, if it has a
      rotation, a list of picks. */
  predicate Readable(e: Entry) {
    e == NoReport || (e.Record? && (e.verdict == "pass" || e.verdict == "fail") && !e.rotation.BadPicks?)
  }

  function Fault(e: Entry): Error {
    if e.NotARecord? then NotRecord else if e.Record? && e.verdict !in {"pass", "fail"} then NoVerdict else NoPicks
  }

  lemma {:induction false} AllRead(es: seq<Entry>)
    requires forall i :: 0 <= i < |es| ==> Readable(es[i])
    ensures FirstError(es).Ok?
  {
    if es != [] {
      AllRead(es[..|es| - 1]);
    }
  }

  lemma {:induction false} FaultFound(es: seq<Entry>, i: nat)
    requires i < |es| && !Readable(es[i]) && forall j :: 0 <= j < i ==> Readable(es[j])
    ensures FirstError(es) == Err(Fault(es[i]))
  {
    var front := es[..|es| - 1];
    if i < |front| {
      FaultFound(front, i);
    } else {
      AllRead(front);
    }
  }

  /** The record is read when each report can be; else it fails for the newest that cannot. */
  lemma ReadExactly(es: seq<Entry>, seed: Seed)
    ensures (forall i :: 0 <= i < |es| ==> Readable(es[i])) ==> Rotation(es, seed) == Ok(StateOf(es, seed))
    ensures forall i :: 0 <= i < |es| && !Readable(es[i]) && (forall j :: 0 <= j < i ==> Readable(es[j]))
                        ==> Rotation(es, seed) == Err(Fault(es[i]))
  {
    if forall i :: 0 <= i < |es| ==> Readable(es[i]) {
      AllRead(es);
    }
    forall i | 0 <= i < |es| && !Readable(es[i]) && (forall j :: 0 <= j < i ==> Readable(es[j]))
      ensures Rotation(es, seed) == Err(Fault(es[i]))
    {
      FaultFound(es, i);
    }
  }

  /** Selection is refused exactly for a number of slots that is not between one and the pool's
      size, or for a certified or tried name that is not in the pool. */
  lemma {:induction false} RefusedExactly(pool: seq<string>, es: seq<Entry>, seed: Seed, picks: int)
    requires Distinct(pool)
    ensures var s := StateOf(es, seed);
            && (Select(pool, s, picks) == Err(PickCount) <==> picks < 1 || |pool| < picks)
            && (Select(pool, s, picks) == Err(OutsidePool)
                <==> 1 <= picks <= |pool| && exists x :: (x in s.certified || x in s.tried) && x !in pool)
            && (Select(pool, s, picks).Err? ==> Select(pool, s, picks).error in {PickCount, OutsidePool})
  {
    var s := StateOf(es, seed);
    RotationConsistent(es, seed);
    if 1 <= picks <= |pool| && s.certified + Names(s.tried) <= Names(pool) {
      PicksAreSound(pool, s, picks);
    }
    assert forall x :: x in s.certified + Names(s.tried) <==> x in s.certified || x in s.tried;
    assert forall x :: x in Names(pool) <==> x in pool;
  }

  // ---- a cycle's own report -----------------------------------------------------------------------------------

  /** The verdict, from the outcomes of the cycle's runs. */
  lemma VerdictExactly(smokeA: Run, repros: map<string, Run>, smokeB: Run, commit: string, liveSha: Option<string>,
                       rotation: PickList)
    ensures var e := BuildReport(smokeA, repros, smokeB, commit, liveSha, rotation);
            && e.Record? && e.verdict in {"pass", "fail"} && e.rotation == rotation && e.commit == commit
            && (e.verdict == "pass"
                <==> smokeA.status == "pass" && smokeB.status == "pass" && |repros| > 0
                     && (forall n :: n in repros ==> repros[n].status == "exported" && repros[n].certified)
                     && liveSha.Some? && liveSha.value == commit != "")
  {
    assert repros == map[] <==> |repros| == 0;
    if n :| n in repros && !(repros[n].status == "exported" && repros[n].certified) {
      assert n in Failing(repros);
    }
    if n :| n in Failing(repros) {
      assert n in repros && !(repros[n].status == "exported" && repros[n].certified);
    }
  }

  /** The runs it records: each repro's under its name, the smokes' under theirs. */
  lemma RunsExactly(smokeA: Run, repros: map<string, Run>, smokeB: Run, commit: string, liveSha: Option<string>,
                    rotation: PickList)
    ensures var runs := BuildReport(smokeA, repros, smokeB, commit, liveSha, rotation).runs;
            && runs.Keys == repros.Keys + {"smoke_a", "smoke_b"}
            && runs["smoke_b"] == smokeB && ("smoke_a" !in repros ==> runs["smoke_a"] == smokeA)
            && forall n :: n in repros && n != "smoke_b" ==> runs[n] == repros[n]
  {
  }
}
