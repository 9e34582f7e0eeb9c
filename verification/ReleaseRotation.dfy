/** Which blueprints a release cycle builds (scripts/release_cycle.py:159-277). */
module ReleaseRotation {
  import opened NameLists

  /** One build of a cycle, as far as its report is read. */
  datatype Run = Run(status: string, certified: bool)

  predicate ReproPassed(run: Run) { run.status == "exported" && run.certified }

  datatype PickList = NoRotation | BadPicks | Picks(names: seq<string>)

  /** A completed run of the workflow: no report, something unreadable, or a report. */
  datatype Entry = NoReport | NotARecord
                 | Record(verdict: string, rotation: PickList, runs: map<string, Run>, commit: string)

  datatype Seed = Seed(certified: seq<string>, tried: seq<string>, voided: seq<string>)

  datatype State = State(certified: set<string>, tried: seq<string>, failing: seq<string>, cycles: nat)

  datatype Error = NotRecord | NoVerdict | NoPicks | PickCount | OutsidePool | NoSuchBlueprint

  datatype Result<T> = Ok(value: T) | Err(error: Error)

  // ---- one report ---------------------------------------------------------

  /** Why a report cannot be read, if it cannot. */
  function Unreadable(e: Entry): Result<()> {
    match e
    case NoReport => Ok(())
    case NotARecord => Err(NotRecord)
    case Record(verdict, rotation, _, _) =>
      if verdict != "pass" && verdict != "fail" then Err(NoVerdict)
      else if rotation.BadPicks? then Err(NoPicks)
      else Ok(())
  }

  function PicksOf(e: Entry): seq<string> {
    if e.Record? && e.rotation.Picks? then e.rotation.names else []
  }

  predicate PassedIn(e: Entry, name: string) {
    e.Record? && name in e.runs && ReproPassed(e.runs[name])
  }

  predicate Voided(e: Entry, seed: Seed) { e.Record? && e.commit in seed.voided }

  function CertifiedNames(e: Entry, picks: seq<string>): seq<string> {
    if picks == [] then []
    else
      var front, last := CertifiedNames(e, picks[..|picks| - 1]), picks[|picks| - 1];
      if PassedIn(e, last) then front + [last] else front
  }

  /** Picks that were judged and did not export certified. */
  function FailedNames(e: Entry, seed: Seed, picks: seq<string>): seq<string> {
    if picks == [] then []
    else
      var front, last := FailedNames(e, seed, picks[..|picks| - 1]), picks[|picks| - 1];
      if PassedIn(e, last) || Voided(e, seed) then front else front + [last]
  }

  /** Picks that count as tried: all of them, or only the certified ones of a voided cycle. */
  function CountedNames(e: Entry, seed: Seed, picks: seq<string>): seq<string> {
    if picks == [] then []
    else
      var front, last := CountedNames(e, seed, picks[..|picks| - 1]), picks[|picks| - 1];
      if !PassedIn(e, last) && Voided(e, seed) then front else front + [last]
  }

  function Certs(e: Entry): seq<string> { CertifiedNames(e, PicksOf(e)) }
  function Fails(e: Entry, seed: Seed): seq<string> { FailedNames(e, seed, PicksOf(e)) }
  function Counts(e: Entry, seed: Seed): seq<string> { CountedNames(e, seed, PicksOf(e)) }

  // ---- the history, newest first --------------------------------------------

  function CertLists(es: seq<Entry>): seq<seq<string>> {
    seq(|es|, i requires 0 <= i < |es| => Certs(es[i]))
  }

  function FailLists(es: seq<Entry>, seed: Seed): seq<seq<string>> {
    seq(|es|, i requires 0 <= i < |es| => Fails(es[i], seed))
  }

  function CountLists(es: seq<Entry>, seed: Seed): seq<seq<string>> {
    seq(|es|, i requires 0 <= i < |es| => Counts(es[i], seed))
  }

  function AllCerts(es: seq<Entry>): seq<string> { Flatten(CertLists(es)) }
  function AllFails(es: seq<Entry>, seed: Seed): seq<string> { Flatten(FailLists(es, seed)) }
  function AllCounts(es: seq<Entry>, seed: Seed): seq<string> { Flatten(CountLists(es, seed)) }

  function Cycles(es: seq<Entry>): nat {
    if es == [] then 0
    else Cycles(es[..|es| - 1]) + if es[|es| - 1].Record? && es[|es| - 1].rotation.Picks? then 1 else 0
  }

  function FirstError(es: seq<Entry>): Result<()> {
    if es == [] then Ok(())
    else if FirstError(es[..|es| - 1]).Err? then FirstError(es[..|es| - 1])
    else Unreadable(es[|es| - 1])
  }

  /** The rotation's state said at once: everything certified; everything tried,
      oldest first; everything tried and not certified, the latest failure first. */
  function StateOf(es: seq<Entry>, seed: Seed): State {
    var certified := Names(seed.certified) + Names(AllCerts(es));
    State(certified,
          seed.tried + Drop(Reverse(Dedup(AllCounts(es, seed))), Names(seed.tried)),
          Drop(Dedup(AllFails(es, seed) + seed.tried), certified),
          Cycles(es))
  }

  function Rotation(es: seq<Entry>, seed: Seed): Result<State> {
    if FirstError(es).Err? then Err(FirstError(es).error) else Ok(StateOf(es, seed))
  }

  /** `rotation_state`: one pass over the reports, newest first. */
  method RotationState(es: seq<Entry>, seed: Seed) returns (r: Result<State>)
    ensures r == Rotation(es, seed)
  {
    var certified := Names(seed.certified);
    var triedNewestFirst, failing: seq<string>, cycles := [], [], 0;
    var i := 0;
    while i < |es|
      invariant 0 <= i <= |es|
      invariant FirstError(es[..i]).Ok?
      invariant certified == Names(seed.certified) + Names(AllCerts(es[..i]))
      invariant failing == Dedup(AllFails(es[..i], seed))
      invariant triedNewestFirst == Dedup(AllCounts(es[..i], seed))
      invariant cycles == Cycles(es[..i])
    {
      var e := es[i];
      assert es[..i + 1][..i] == es[..i];
      Older(es, i, seed);
      if Unreadable(e).Err? {
        ErrorStays(es, i + 1);
        return Err(Unreadable(e).error);
      }
      if !e.Record? || e.rotation.NoRotation? {
        QuietReport(es, i, seed);
        i := i + 1;
        continue;
      }
      cycles := cycles + 1;
      certified, failing, triedNewestFirst := ReadPicks(e, seed, certified, failing, triedNewestFirst,
                                                        AllFails(es[..i], seed), AllCounts(es[..i], seed));
      NamesConcat(AllCerts(es[..i]), Certs(e));
      i := i + 1;
    }
    assert es[..i] == es;
    FinalLists(es, seed);
    var tried := AppendNew(seed.tried, Reverse(triedNewestFirst));
    var all := AppendNew(failing, seed.tried);
    r := Ok(State(certified, tried, Drop(all, certified), cycles));
  }

  /** A report without picks changes none of the lists. */
  lemma QuietReport(es: seq<Entry>, i: nat, seed: Seed)
    requires i < |es| && PicksOf(es[i]) == []
    ensures AllCerts(es[..i + 1]) == AllCerts(es[..i])
    ensures AllFails(es[..i + 1], seed) == AllFails(es[..i], seed)
    ensures AllCounts(es[..i + 1], seed) == AllCounts(es[..i], seed)
  {
    Older(es, i, seed);
    assert AllFails(es[..i], seed) + [] == AllFails(es[..i], seed);
    assert AllCounts(es[..i], seed) + [] == AllCounts(es[..i], seed);
    assert AllCerts(es[..i]) + [] == AllCerts(es[..i]);
  }

  /** What the two appending loops after the pass come to. */
  lemma FinalLists(es: seq<Entry>, seed: Seed)
    ensures AppendNew(seed.tried, Reverse(Dedup(AllCounts(es, seed)))) == StateOf(es, seed).tried
    ensures AppendNew(Dedup(AllFails(es, seed)), seed.tried) == Dedup(AllFails(es, seed) + seed.tried)
  {
    DedupNames(AllCounts(es, seed));
    ReverseDistinct(Dedup(AllCounts(es, seed)));
    AppendNewDistinct(seed.tried, Reverse(Dedup(AllCounts(es, seed))));
    AppendNewDedup(AllFails(es, seed), seed.tried);
  }

  /** The loop over one report's picks. */
  method ReadPicks(e: Entry, seed: Seed, certified0: set<string>, failing0: seq<string>, tried0: seq<string>,
                   ghost fails: seq<string>, ghost counts: seq<string>)
    returns (certified: set<string>, failing: seq<string>, tried: seq<string>)
    requires e.Record? && e.rotation.Picks?
    requires failing0 == Dedup(fails) && tried0 == Dedup(counts)
    ensures certified == certified0 + Names(Certs(e))
    ensures failing == Dedup(fails + Fails(e, seed)) && tried == Dedup(counts + Counts(e, seed))
  {
    var picks := e.rotation.names;
    var voided := e.commit in seed.voided;
    certified, failing, tried := certified0, failing0, tried0;
    assert fails + [] == fails && counts + [] == counts;
    var k := 0;
    while k < |picks|
      invariant 0 <= k <= |picks|
      invariant certified == certified0 + Names(CertifiedNames(e, picks[..k]))
      invariant failing == Dedup(fails + FailedNames(e, seed, picks[..k]))
      invariant tried == Dedup(counts + CountedNames(e, seed, picks[..k]))
    {
      var name := picks[k];
      OneMorePick(e, seed, picks, k, fails, counts);
      k := k + 1;
      if name in e.runs && ReproPassed(e.runs[name]) {
        certified := certified + {name};
      } else if voided {
        continue;
      } else if name !in failing {
        failing := failing + [name];
      }
      if name !in tried {
        tried := tried + [name];
      }
    }
    assert picks[..k] == picks;
  }

  /** `for name in more: if name not in out: out.append(name)`. */
  function AppendNew(out: seq<string>, more: seq<string>): seq<string> {
    if more == [] then out
    else
      var front, last := AppendNew(out, more[..|more| - 1]), more[|more| - 1];
      if last in front then front else front + [last]
  }

  lemma {:induction false} DedupAppend(a: seq<string>, b: seq<string>, name: string)
    ensures Dedup(a + (b + [name])) == (if name in Dedup(a + b) then Dedup(a + b) else Dedup(a + b) + [name])
  {
    assert (a + (b + [name]))[..|a + b|] == a + b;
  }

  lemma {:induction false} NextPick(e: Entry, seed: Seed, picks: seq<string>, k: nat)
    requires k < |picks|
    ensures var name, passed, voided := picks[k], PassedIn(e, picks[k]), Voided(e, seed);
            && CertifiedNames(e, picks[..k + 1]) == CertifiedNames(e, picks[..k]) + (if passed then [name] else [])
            && FailedNames(e, seed, picks[..k + 1]) ==
               FailedNames(e, seed, picks[..k]) + (if passed || voided then [] else [name])
            && CountedNames(e, seed, picks[..k + 1]) ==
               CountedNames(e, seed, picks[..k]) + (if !passed && voided then [] else [name])
  {
    assert picks[..k + 1][..k] == picks[..k];
  }

  lemma {:induction false} DedupUnless(a: seq<string>, b: seq<string>, name: string, not: bool)
    ensures Dedup(a + (b + if not then [] else [name])) == AddUnless(Dedup(a + b), name, not)
  {
    if not {
      assert b + [] == b;
    } else {
      DedupAppend(a, b, name);
    }
  }

  /** What the next pick adds to the three lists. */
  lemma {:induction false} OneMorePick(e: Entry, seed: Seed, picks: seq<string>, k: nat, fails: seq<string>,
                                       counts: seq<string>)
    requires k < |picks|
    ensures var name, passed, voided := picks[k], PassedIn(e, picks[k]), Voided(e, seed);
            && Names(CertifiedNames(e, picks[..k + 1]))
               == Names(CertifiedNames(e, picks[..k])) + (if passed then {name} else {})
            && Dedup(fails + FailedNames(e, seed, picks[..k + 1])) ==
               AddUnless(Dedup(fails + FailedNames(e, seed, picks[..k])), name, passed || voided)
            && Dedup(counts + CountedNames(e, seed, picks[..k + 1])) ==
               AddUnless(Dedup(counts + CountedNames(e, seed, picks[..k])), name, !passed && voided)
  {
    var name, passed, voided := picks[k], PassedIn(e, picks[k]), Voided(e, seed);
    NextPick(e, seed, picks, k);
    NamesConcat(CertifiedNames(e, picks[..k]), if passed then [name] else []);
    DedupUnless(fails, FailedNames(e, seed, picks[..k]), name, passed || voided);
    DedupUnless(counts, CountedNames(e, seed, picks[..k]), name, !passed && voided);
  }

  function AddUnless(s: seq<string>, name: string, not: bool): seq<string> {
    if not || name in s then s else s + [name]
  }

  lemma {:induction false} ErrorStays(es: seq<Entry>, i: nat)
    requires i <= |es| && FirstError(es[..i]).Err?
    ensures FirstError(es) == FirstError(es[..i])
    decreases |es|
  {
    if i == |es| {
      assert es[..i] == es;
    } else {
      assert es[..|es| - 1][..i] == es[..i];
      ErrorStays(es[..|es| - 1], i);
    }
  }

  lemma {:induction false} AppendNewDedup(a: seq<string>, more: seq<string>)
    ensures AppendNew(Dedup(a), more) == Dedup(a + more)
  {
    if more == [] {
      assert a + more == a;
    } else {
      AppendNewDedup(a, more[..|more| - 1]);
      DedupAppend(a, more[..|more| - 1], more[|more| - 1]);
      assert more == more[..|more| - 1] + [more[|more| - 1]];
    }
  }

  lemma {:induction false} ReverseDistinct(s: seq<string>)
    requires Distinct(s)
    ensures Distinct(Reverse(s))
  {
    ReverseAt(s);
  }

  lemma {:induction false} AppendNewDistinct(out: seq<string>, more: seq<string>)
    requires Distinct(more)
    ensures AppendNew(out, more) == out + Drop(more, Names(out))
  {
    if more != [] {
      var front, last := more[..|more| - 1], more[|more| - 1];
      AppendNewDistinct(out, front);
      DropNames(front, Names(out));
      assert last !in Names(front);
      NamesConcat(out, Drop(front, Names(out)));
      assert last in AppendNew(out, front) <==> last in Names(out + Drop(front, Names(out)));
    }
  }

  // ---- one newer report -------------------------------------------------------

  lemma Newer(e: Entry, es: seq<Entry>, seed: Seed)
    ensures AllCerts([e] + es) == Certs(e) + AllCerts(es)
    ensures AllFails([e] + es, seed) == Fails(e, seed) + AllFails(es, seed)
    ensures AllCounts([e] + es, seed) == Counts(e, seed) + AllCounts(es, seed)
  {
    assert CertLists([e] + es) == [Certs(e)] + CertLists(es);
    assert FailLists([e] + es, seed) == [Fails(e, seed)] + FailLists(es, seed);
    assert CountLists([e] + es, seed) == [Counts(e, seed)] + CountLists(es, seed);
    FlattenPrepend(Certs(e), CertLists(es));
    FlattenPrepend(Fails(e, seed), FailLists(es, seed));
    FlattenPrepend(Counts(e, seed), CountLists(es, seed));
  }

  /** One more report at the old end of the history. */
  lemma Older(es: seq<Entry>, i: nat, seed: Seed)
    requires i < |es|
    ensures AllCerts(es[..i + 1]) == AllCerts(es[..i]) + Certs(es[i])
    ensures AllFails(es[..i + 1], seed) == AllFails(es[..i], seed) + Fails(es[i], seed)
    ensures AllCounts(es[..i + 1], seed) == AllCounts(es[..i], seed) + Counts(es[i], seed)
  {
    assert CertLists(es[..i + 1]) == CertLists(es[..i]) + [Certs(es[i])];
    assert FailLists(es[..i + 1], seed) == FailLists(es[..i], seed) + [Fails(es[i], seed)];
    assert CountLists(es[..i + 1], seed) == CountLists(es[..i], seed) + [Counts(es[i], seed)];
    FlattenAppend(CertLists(es[..i]), Certs(es[i]));
    FlattenAppend(FailLists(es[..i], seed), Fails(es[i], seed));
    FlattenAppend(CountLists(es[..i], seed), Counts(es[i], seed));
  }

  lemma NewerCertified(e: Entry, es: seq<Entry>, seed: Seed)
    ensures StateOf([e] + es, seed).certified == StateOf(es, seed).certified + Names(Certs(e))
  {
    Newer(e, es, seed);
    NamesConcat(Certs(e), AllCerts(es));
  }

  lemma NewerTried(e: Entry, es: seq<Entry>, seed: Seed)
    ensures Names(StateOf([e] + es, seed).tried) == Names(StateOf(es, seed).tried) + Names(Counts(e, seed))
  {
    TriedNames(es, seed);
    TriedNames([e] + es, seed);
    Newer(e, es, seed);
    NamesConcat(Counts(e, seed), AllCounts(es, seed));
  }

  lemma NewerFailures(e: Entry, es: seq<Entry>, seed: Seed)
    ensures StateOf([e] + es, seed).failing ==
            Drop(Dedup(Fails(e, seed)), StateOf([e] + es, seed).certified)
            + Drop(StateOf(es, seed).failing, Names(Fails(e, seed)) + StateOf([e] + es, seed).certified)
  {
    NewerCertified(e, es, seed);
    FailuresPrepend(e, es, seed);
    NewerFailing(Fails(e, seed), AllFails(es, seed) + seed.tried, StateOf(es, seed).certified,
        StateOf([e] + es, seed).certified);
  }

  lemma FailuresPrepend(e: Entry, es: seq<Entry>, seed: Seed)
    ensures AllFails([e] + es, seed) + seed.tried == Fails(e, seed) + (AllFails(es, seed) + seed.tried)
  {
    Newer(e, es, seed);
  }

  /** The fold is an incremental step: one newer report adds its certified picks to
      the certified and its counted picks to the tried, and puts its failures, in pick
      order, ahead of the older ones that are still uncertified. */
  lemma NewerReport(e: Entry, es: seq<Entry>, seed: Seed)
    ensures StateOf([e] + es, seed).certified == StateOf(es, seed).certified + Names(Certs(e))
    ensures Names(StateOf([e] + es, seed).tried) == Names(StateOf(es, seed).tried) + Names(Counts(e, seed))
    ensures StateOf([e] + es, seed).failing ==
            Drop(Dedup(Fails(e, seed)), StateOf([e] + es, seed).certified)
            + Drop(StateOf(es, seed).failing, Names(Fails(e, seed)) + StateOf([e] + es, seed).certified)
  {
    NewerCertified(e, es, seed);
    NewerTried(e, es, seed);
    NewerFailures(e, es, seed);
  }

  lemma {:induction false} NewerFailing(fails: seq<string>, older: seq<string>, was: set<string>, now: set<string>)
    requires was <= now
    ensures Drop(Dedup(fails + older), now)
            == Drop(Dedup(fails), now) + Drop(Drop(Dedup(older), was), Names(fails) + now)
  {
    DedupConcat(fails, older);
    DropConcat(Dedup(fails), Drop(Dedup(older), Names(fails)), now);
    DropDrop(Dedup(older), Names(fails), now);
    DropDrop(Dedup(older), was, Names(fails) + now);
    assert was + (Names(fails) + now) == Names(fails) + now;
  }

  lemma TriedNames(es: seq<Entry>, seed: Seed)
    ensures Names(StateOf(es, seed).tried) == Names(seed.tried) + Names(AllCounts(es, seed))
  {
    var counted := Dedup(AllCounts(es, seed));
    DedupNames(AllCounts(es, seed));
    ReverseNames(counted);
    DropNames(Reverse(counted), Names(seed.tried));
    NamesConcat(seed.tried, Drop(Reverse(counted), Names(seed.tried)));
  }

  lemma {:induction false} CountedSplit(e: Entry, seed: Seed, picks: seq<string>)
    ensures Names(CountedNames(e, seed, picks)) == Names(FailedNames(e, seed, picks)) + Names(CertifiedNames(e, picks))
  {
    if picks != [] {
      var front, last := picks[..|picks| - 1], picks[|picks| - 1];
      CountedSplit(e, seed, front);
      NamesAppend(CountedNames(e, seed, front), last);
      NamesAppend(FailedNames(e, seed, front), last);
      NamesAppend(CertifiedNames(e, front), last);
    }
  }

  /** A cycle that was not voided counts all its picks as tried. */
  lemma {:induction false} UnvoidedCountsAll(e: Entry, seed: Seed, picks: seq<string>)
    requires !Voided(e, seed)
    ensures CountedNames(e, seed, picks) == picks
  {
    if picks != [] {
      UnvoidedCountsAll(e, seed, picks[..|picks| - 1]);
    }
  }

  lemma {:induction false} CountedArePicks(e: Entry, seed: Seed, picks: seq<string>)
    ensures Names(CountedNames(e, seed, picks)) <= Names(picks)
  {
    if picks != [] {
      CountedArePicks(e, seed, picks[..|picks| - 1]);
      NamesFront(picks);
      NamesAppend(CountedNames(e, seed, picks[..|picks| - 1]), picks[|picks| - 1]);
    }
  }

  lemma {:induction false} AllCountedSplit(es: seq<Entry>, seed: Seed)
    ensures Names(AllCounts(es, seed)) == Names(AllFails(es, seed)) + Names(AllCerts(es))
  {
    if es != [] {
      var front, last := es[..|es| - 1], es[|es| - 1];
      AllCountedSplit(front, seed);
      CountedSplit(last, seed, PicksOf(last));
      Older(es, |es| - 1, seed);
      assert es[..|es|] == es;
      NamesConcat(AllCounts(front, seed), Counts(last, seed));
      NamesConcat(AllFails(front, seed), Fails(last, seed));
      NamesConcat(AllCerts(front), Certs(last));
    }
  }

  /** Failing is exactly what was tried and never certified, each name once. */
  lemma FailingIsTriedUncertified(es: seq<Entry>, seed: Seed)
    ensures Names(StateOf(es, seed).failing) == Names(StateOf(es, seed).tried) - StateOf(es, seed).certified
    ensures Distinct(StateOf(es, seed).failing)
  {
    var s := StateOf(es, seed);
    var all := AllFails(es, seed) + seed.tried;
    DedupNames(all);
    DropNames(Dedup(all), s.certified);
    NamesConcat(AllFails(es, seed), seed.tried);
    TriedNames(es, seed);
    AllCountedSplit(es, seed);
  }
}
