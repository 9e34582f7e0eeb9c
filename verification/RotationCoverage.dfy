/** For which pools every blueprint keeps being built, whatever the builds come to
    (scripts/release_cycle.py:99, 184-277, 321-353, 701-724). */
module RotationCoverage {
  import opened Common
  import opened NameLists
  import opened ReleaseRotation
  import opened RotationPicks
  import opened RotationRuns
  import opened RotationMemory

  /** What the committed seed says nothing of. */
  function NewTo(pool: seq<string>, seed: Seed): set<string> {
    Names(pool) - Names(seed.certified) - Names(seed.tried)
  }

  ghost predicate AllJudged(es: seq<Entry>, seed: Seed) { forall i :: 0 <= i < |es| ==> Judged(es[i], seed) }

  // ---- enough cycles pick everything ------------------------------------------------------------------

  /** A blueprint that the seed does not know and the window did not pick is still fresh. */
  lemma {:induction false} StillFresh(pool: seq<string>, seed: Seed, w: seq<Entry>, name: string)
    requires name in NewTo(pool, seed) && name !in PickedIn(w)
    ensures var s := StateOf(w, seed);
            name in Names(pool) - s.certified && name in FreshSet(pool, s) && Fresh(pool, s) != []
  {
    var s := StateOf(w, seed);
    StateFromPicks(w, seed);
    DropNames(pool, Names(s.tried) + s.certified);
    assert name in Names(Fresh(pool, s));
  }

  /** A judged cycle that passes it over has its slots full, one of them with a blueprint that
      no judged cycle of the window picked. */
  lemma {:induction false} FreshOnePicked(pool: seq<string>, seed: Seed, picks: nat, e: Entry, older: seq<Entry>,
                                          name: string) returns (x: string)
    requires Distinct(pool) && 2 <= picks && AsPlanned(PlannerOf(pool, seed, picks), e, older) && Judged(e, seed)
    requires name in NewTo(pool, seed) && name !in PickedIn(Window(older)) && name !in PicksOf(e)
    ensures |Names(PicksOf(e))| == picks && Names(PicksOf(e)) <= Names(pool) - Names(seed.certified) - {name}
    ensures x in Names(PicksOf(e)) && x !in Names(StateOf(Window(older), seed).tried)
  {
    var s := StateOf(Window(older), seed);
    PicksPlanned(pool, seed, picks, e, older);
    StillFresh(pool, seed, Window(older), name);
    PickedOrFull(pool, s, picks, name);
    DistinctSize(PicksOf(e));
    FreshPickedExactly(pool, s, picks);
    x :| x in PicksOf(e) && x in Fresh(pool, s);
    Candidates(pool, s);
    assert x in Names(Fresh(pool, s));
  }

  /** The picks of the newest cycles, all judged, are tried for the one after. */
  lemma {:induction false} JudgedArePicked(es: seq<Entry>, seed: Seed, m: nat)
    requires m <= |es| && m <= HISTORY_RUNS && AllJudged(es[..m], seed)
    ensures PickedIn(es[..m]) <= Names(StateOf(Window(es), seed).tried)
  {
    var w := Window(es);
    forall x | x in PickedIn(es[..m]) ensures x in Names(StateOf(w, seed).tried) {
      PickedSomewhere(es[..m], x);
      var i :| 0 <= i < m && x in PicksOf(es[..m][i]);
      assert w[i] == es[i] == es[..m][i];
      JudgedIsTried(w, seed, i);
      assert x in Names(PicksOf(w[i]));
    }
  }

  /** The newest of a stretch of judged cycles picks something new. */
  lemma {:induction false} OneMoreBuilt(pool: seq<string>, seed: Seed, picks: nat, es: seq<Entry>, m: nat, name: string)
    requires Distinct(pool) && 2 <= picks && m < |es| && m <= HISTORY_RUNS
    requires AsPlanned(PlannerOf(pool, seed, picks), es[0], es[1..]) && Judged(es[0], seed)
             && AllJudged(es[1..][..m], seed)
    requires name in NewTo(pool, seed) && name !in PickedIn(Window(es[1..])) && name !in PicksOf(es[0])
    ensures |Names(PicksOf(es[0]))| == picks && Names(PicksOf(es[0])) <= Names(pool) - Names(seed.certified) - {name}
    ensures !(Names(PicksOf(es[0])) <= PickedIn(es[1..][..m]))
  {
    var x := FreshOnePicked(pool, seed, picks, es[0], es[1..], name);
    JudgedArePicked(es[1..], seed, m);
  }

  lemma OneMoreElement(a: set<string>, b: set<string>)
    requires !(a <= b)
    ensures |a + b| >= |b| + 1
  {
    var x :| x in a && x !in b;
    Subset(b + {x}, a + b);
  }

  /** None of the newest `n` cycles picked it. */
  ghost predicate PassedOver(es: seq<Entry>, n: nat, name: string) {
    forall i :: 0 <= i < |es| && i < n ==> name !in PicksOf(es[i])
  }

  lemma {:induction false} NotPicked(es: seq<Entry>, name: string)
    requires PassedOver(es, |es|, name)
    ensures name !in PickedIn(es)
    decreases |es|
  {
    if es != [] {
      assert forall i :: 0 <= i < |es[1..]| ==> es[1..][i] == es[i + 1];
      NotPicked(es[1..], name);
      assert name !in PicksOf(es[0]);
    }
  }

  lemma PassedOverWindow(es: seq<Entry>, name: string)
    requires es != [] && PassedOver(es, HISTORY_RUNS + 1, name)
    ensures name !in PickedIn(Window(es[1..])) && name !in PicksOf(es[0])
  {
    var w := Window(es[1..]);
    assert forall i :: 0 <= i < |w| ==> w[i] == es[i + 1];
    NotPicked(w, name);
  }

  lemma {:induction false} PickedFirst(es: seq<Entry>, m: nat)
    requires 0 < m <= |es|
    ensures PickedIn(es[..m]) == Names(PicksOf(es[0])) + PickedIn(es[1..][..m - 1])
  {
    assert es[..m][1..] == es[1..][..m - 1];
  }

  lemma JudgedRest(es: seq<Entry>, seed: Seed, m: nat)
    requires 0 < m <= |es| && AllJudged(es[..m], seed)
    ensures Judged(es[0], seed) && AllJudged(es[1..][..m - 1], seed)
  {
    var rest := es[1..][..m - 1];
    assert es[..m][0] == es[0] && forall i :: 0 <= i < |rest| ==> rest[i] == es[..m][i + 1];
  }

  lemma PassedOverRest(es: seq<Entry>, n: nat, name: string)
    requires es != [] && PassedOver(es, n + 1, name)
    ensures PassedOver(es[1..], n, name)
  {
    assert forall i :: 0 <= i < |es[1..]| ==> es[1..][i] == es[i + 1];
  }

  /** While a blueprint is passed over, up to thirty-one judged cycles in a row pick one more
      than the slots of a cycle and one for each further cycle. */
  lemma {:induction false} PicksPileUp(pool: seq<string>, seed: Seed, picks: nat, es: seq<Entry>, m: nat, name: string)
    requires Distinct(pool) && 2 <= picks && 1 <= m <= |es| && m <= HISTORY_RUNS + 1
    requires Lived(PlannerOf(pool, seed, picks), es) && AllJudged(es[..m], seed)
    requires name in NewTo(pool, seed) && PassedOver(es, m + HISTORY_RUNS, name)
    ensures |PickedIn(es[..m])| >= picks + m - 1
    ensures PickedIn(es[..m]) <= Names(pool) - Names(seed.certified) - {name}
    decreases m
  {
    var k := m - 1;
    JudgedRest(es, seed, m);
    PickedFirst(es, m);
    PassedOverWindow(es, name);
    OneMoreBuilt(pool, seed, picks, es, k, name);
    if k > 0 {
      PassedOverRest(es, k + HISTORY_RUNS, name);
      PicksPileUp(pool, seed, picks, es[1..], k, name);
      OneMoreElement(Names(PicksOf(es[0])), PickedIn(es[1..][..k]));
    }
  }

  /** With two slots or more, and no more blueprints that the seed does not certify than a
      cycle has slots and a window has reports: after thirty-one judged cycles in a row every
      blueprint that the seed does not know is among the picks of the newest sixty-one. */
  lemma {:induction false} BuiltWithin(pool: seq<string>, seed: Seed, picks: nat, es: seq<Entry>, name: string)
    requires Distinct(pool) && 2 <= picks && |Names(pool) - Names(seed.certified)| <= picks + HISTORY_RUNS
    requires Lived(PlannerOf(pool, seed, picks), es)
    requires HISTORY_RUNS < |es| && AllJudged(es[..HISTORY_RUNS + 1], seed) && name in NewTo(pool, seed)
    ensures exists i :: 0 <= i < |es| && i <= 2 * HISTORY_RUNS && name in PicksOf(es[i])
  {
    var m, left := HISTORY_RUNS + 1, Names(pool) - Names(seed.certified);
    assert left == (left - {name}) + {name};
    if PassedOver(es, m + HISTORY_RUNS, name) {
      PicksPileUp(pool, seed, picks, es, m, name);
      Subset(PickedIn(es[..m]), left - {name});
    }
  }

  // ---- in a larger pool cycles that fail starve one ------------------------------------------------------

  /** A cycle none of whose picks exported certified. */
  function Failed(names: seq<string>, commit: string): Entry { Record("fail", Picks(names), map[], commit) }

  /** Some commit that the seed does not void. */
  lemma {:induction false} UnvoidedCommit(voided: seq<string>) returns (commit: string)
    ensures forall v :: v in voided ==> |v| < |commit|
  {
    if voided == [] {
      commit := "";
    } else {
      var front := UnvoidedCommit(voided[..|voided| - 1]);
      commit := front + voided[|voided| - 1] + "x";
    }
  }

  lemma {:induction false} NoneCertified(e: Entry, picks: seq<string>)
    requires e.Record? && e.runs == map[]
    ensures CertifiedNames(e, picks) == []
  {
    if picks != [] {
      NoneCertified(e, picks[..|picks| - 1]);
    }
  }

  lemma {:induction false} AllFailed(e: Entry, seed: Seed, picks: seq<string>)
    requires e.Record? && e.runs == map[] && !Voided(e, seed)
    ensures FailedNames(e, seed, picks) == picks
  {
    if picks != [] {
      AllFailed(e, seed, picks[..|picks| - 1]);
    }
  }

  const ROUND: nat := HISTORY_RUNS + 1

  /** The picks of the k-th such cycle: the same blueprints every time but for one slot, which
      goes round thirty-one others. */
  function Turn(u: seq<string>, picks: nat, k: nat): seq<string>
    requires 1 <= picks && picks + HISTORY_RUNS <= |u|
  {
    u[..picks - 1] + [u[picks - 1 + k % ROUND]]
  }

  /** The newest `m` of the first `n` such cycles. */
  function Stretch(u: seq<string>, picks: nat, commit: string, n: nat, m: nat): seq<Entry>
    requires 1 <= picks && picks + HISTORY_RUNS <= |u| && m <= n
  {
    seq(m, i requires 0 <= i < m => Failed(Turn(u, picks, n - 1 - i), commit))
  }

  /** The blueprints that the seed does not certify, more than a cycle has slots and a window
      has reports, and nothing left failing by the seed. */
  ghost predicate Spread(pool: seq<string>, seed: Seed, picks: nat, u: seq<string>, commit: string) {
    && Distinct(pool) && SeedInPool(pool, seed) && Settled(seed) && 2 <= picks <= |pool|
    && u == Drop(pool, Names(seed.certified)) && picks + ROUND <= |u| && commit !in seed.voided
  }

  lemma SpreadNames(pool: seq<string>, seed: Seed, picks: nat, u: seq<string>, commit: string)
    requires Spread(pool, seed, picks, u, commit)
    ensures Distinct(u) && Names(u) == Names(pool) - Names(seed.certified)
  {
    DropNames(pool, Names(seed.certified));
  }

  lemma TurnNames(u: seq<string>, picks: nat, k: nat)
    requires 1 <= picks && picks + ROUND <= |u| && Distinct(u)
    ensures Distinct(Turn(u, picks, k)) && Names(Turn(u, picks, k)) <= Names(u)
    ensures u[picks + HISTORY_RUNS] !in Turn(u, picks, k)
  {
    var t := Turn(u, picks, k);
    forall i | 0 <= i < |t| ensures t[i] in Names(u) && t[i] != u[picks + HISTORY_RUNS] {
      assert t[i] == u[if i < picks - 1 then i else picks - 1 + k % ROUND];
    }
  }

  lemma TurnIs(u: seq<string>, picks: nat, k: nat, x: nat)
    requires 1 <= picks && picks + ROUND <= |u| && Distinct(u) && x < ROUND
    ensures u[picks - 1 + x] in Turn(u, picks, k) <==> k % ROUND == x
  {
    var t := Turn(u, picks, k);
    assert t[picks - 1] == u[picks - 1 + k % ROUND];
    forall i | 0 <= i < picks - 1 ensures t[i] != u[picks - 1 + x] {
      assert t[i] == u[i];
    }
  }

  lemma StretchGrows(u: seq<string>, picks: nat, commit: string, n: nat, m: nat)
    requires 1 <= picks && picks + HISTORY_RUNS <= |u| && m < n
    ensures Stretch(u, picks, commit, n, m + 1)
            == [Failed(Turn(u, picks, n - 1), commit)] + Stretch(u, picks, commit, n - 1, m)
  {
  }

  /** The n-th turn's own name is the only one of the round that the thirty turns before it
      leave out. */
  lemma RoundTurns(n: nat, j: nat)
    requires j < n && j < HISTORY_RUNS
    ensures (n - 1 - j) % ROUND != n % ROUND
    ensures 1 + j <= n % ROUND ==> (n - 1 - j) % ROUND == n % ROUND - 1 - j
  {
  }

  predicate Leads(names: seq<string>, failing: seq<string>) { |names| <= |failing| && failing[..|names|] == names }

  lemma FailedReport(names: seq<string>, commit: string, seed: Seed)
    requires commit !in seed.voided
    ensures Certs(Failed(names, commit)) == [] && Fails(Failed(names, commit), seed) == names
  {
    NoneCertified(Failed(names, commit), names);
    AllFailed(Failed(names, commit), seed, names);
  }

  lemma {:induction false} LeadsWhole(names: seq<string>, certified: set<string>, rest: seq<string>,
                                      failing: seq<string>)
    requires Distinct(names) && Names(names) !! certified && failing == Drop(Dedup(names), certified) + rest
    ensures Leads(names, failing)
  {
    DedupDistinct(names);
    DropNothing(names, certified);
  }

  lemma NothingCertified(e: Entry, es: seq<Entry>, seed: Seed)
    requires Certs(e) == []
    ensures StateOf([e] + es, seed).certified == StateOf(es, seed).certified
  {
    NewerCertified(e, es, seed);
    AddsNothing(StateOf(es, seed).certified, Certs(e));
  }

  lemma AddsNothing(a: set<string>, names: seq<string>)
    requires names == []
    ensures a + Names(names) == a
  {
  }

  lemma FailedLead(e: Entry, names: seq<string>, es: seq<Entry>, seed: Seed)
    requires Certs(e) == [] && Fails(e, seed) == names && Distinct(names)
    requires Names(names) !! StateOf(es, seed).certified
    ensures Leads(names, StateOf([e] + es, seed).failing)
  {
    var certified := StateOf([e] + es, seed).certified;
    NothingCertified(e, es, seed);
    NewerFailures(e, es, seed);
    LeadsWhole(names, certified, Drop(StateOf(es, seed).failing, Names(names) + certified),
               StateOf([e] + es, seed).failing);
  }

  /** One more failing cycle, of picks that nothing certifies. */
  lemma FailedRun(names: seq<string>, commit: string, es: seq<Entry>, all: seq<Entry>, seed: Seed)
    requires all == [Failed(names, commit)] + es && commit !in seed.voided && Distinct(names)
    requires StateOf(es, seed).certified == Names(seed.certified) && Names(names) !! Names(seed.certified)
    ensures StateOf(all, seed).certified == Names(seed.certified) && Leads(names, StateOf(all, seed).failing)
  {
    FailedReport(names, commit, seed);
    NothingCertified(Failed(names, commit), es, seed);
    FailedLead(Failed(names, commit), names, es, seed);
  }

  lemma {:induction false} DedupDistinct(s: seq<string>)
    requires Distinct(s)
    ensures Dedup(s) == s
  {
    if s != [] {
      DedupDistinct(s[..|s| - 1]);
    }
  }

  lemma TurnFits(pool: seq<string>, seed: Seed, picks: nat, u: seq<string>, commit: string, k: nat)
    requires Spread(pool, seed, picks, u, commit)
    ensures Distinct(Turn(u, picks, k)) && Names(Turn(u, picks, k)) !! Names(seed.certified) && commit !in seed.voided
  {
    SpreadNames(pool, seed, picks, u, commit);
    TurnNames(u, picks, k);
  }

  /** Cycles that fail certify nothing, and the newest's picks lead the failures. */
  lemma {:induction false} StretchState(pool: seq<string>, seed: Seed, picks: nat, u: seq<string>, commit: string,
                                        n: nat, m: nat)
    requires Spread(pool, seed, picks, u, commit) && m <= n
    ensures StateOf(Stretch(u, picks, commit, n, m), seed).certified == Names(seed.certified)
    ensures m > 0 ==> Leads(Turn(u, picks, n - 1), StateOf(Stretch(u, picks, commit, n, m), seed).failing)
    decreases m
  {
    if m == 0 {
      assert AllCerts([]) == [];
    } else {
      StretchState(pool, seed, picks, u, commit, n - 1, m - 1);
      TurnFits(pool, seed, picks, u, commit, n - 1);
      StretchGrows(u, picks, commit, n, m - 1);
      FailedRun(Turn(u, picks, n - 1), commit, Stretch(u, picks, commit, n - 1, m - 1), Stretch(u, picks, commit, n, m),
                seed);
    }
  }

  lemma {:induction false} DropAll(s: seq<string>, bad: set<string>)
    requires Names(s) <= bad
    ensures Drop(s, bad) == []
  {
    if s != [] {
      NamesFront(s);
      DropAll(s[..|s| - 1], bad);
    }
  }

  lemma {:induction false} FirstKept(s: seq<string>, bad: set<string>, i: nat)
    requires i < |s| && Names(s[..i]) <= bad && s[i] !in bad
    ensures Drop(s, bad) != [] && Drop(s, bad)[0] == s[i]
  {
    DropAll(s[..i], bad);
    assert s[..i + 1][..i] == s[..i] && s == s[..i + 1] + s[i + 1..];
    assert Drop(s[..i + 1], bad) == [s[i]];
    DropConcat(s[..i + 1], s[i + 1..], bad);
  }

  lemma StretchPicks(u: seq<string>, picks: nat, commit: string, n: nat, m: nat, j: nat)
    requires 1 <= picks && picks + HISTORY_RUNS <= |u| && j < m <= n
    ensures PicksOf(Stretch(u, picks, commit, n, m)[j]) == Turn(u, picks, n - 1 - j)
    ensures Names(Turn(u, picks, n - 1 - j)) <= PickedIn(Stretch(u, picks, commit, n, m))
  {
    var w := Stretch(u, picks, commit, n, m);
    assert w[j] == Failed(Turn(u, picks, n - 1 - j), commit);
    PickedAt(w, j);
  }

  lemma {:induction false} StretchPicked(u: seq<string>, picks: nat, commit: string, n: nat, m: nat, x: string)
    requires 1 <= picks && picks + HISTORY_RUNS <= |u| && m <= n
    requires x in PickedIn(Stretch(u, picks, commit, n, m))
    ensures exists k :: n - m <= k < n && x in Turn(u, picks, k)
  {
    var w := Stretch(u, picks, commit, n, m);
    PickedSomewhere(w, x);
    var j :| 0 <= j < m && x in PicksOf(w[j]);
    StretchPicks(u, picks, commit, n, m, j);
    assert x in Turn(u, picks, n - 1 - j);
  }

  /** The next turn's name is not among what the newest thirty picked ... */
  lemma {:induction false} NextNotPicked(u: seq<string>, picks: nat, commit: string, n: nat, m: nat)
    requires 1 <= picks && picks + ROUND <= |u| && Distinct(u) && m <= n && m <= HISTORY_RUNS
    ensures u[picks - 1 + n % ROUND] !in PickedIn(Stretch(u, picks, commit, n, m))
    ensures PickedIn(Stretch(u, picks, commit, n, m)) <= Names(u)
  {
    var w, next := Stretch(u, picks, commit, n, m), u[picks - 1 + n % ROUND];
    forall x | x in PickedIn(w) ensures x in Names(u) && x != next {
      StretchPicked(u, picks, commit, n, m, x);
      var k :| n - m <= k < n && x in Turn(u, picks, k);
      NotItsTurn(u, picks, n, n - 1 - k);
      assert x in Names(Turn(u, picks, k));
    }
  }

  lemma NotItsTurn(u: seq<string>, picks: nat, n: nat, j: nat)
    requires 1 <= picks && picks + ROUND <= |u| && Distinct(u) && j < n && j < HISTORY_RUNS
    ensures u[picks - 1 + n % ROUND] !in Turn(u, picks, n - 1 - j)
    ensures Names(Turn(u, picks, n - 1 - j)) <= Names(u)
  {
    RoundTurns(n, j);
    TurnIs(u, picks, n - 1 - j, n % ROUND);
    TurnNames(u, picks, n - 1 - j);
  }

  /** Which of the newest turns took a name of the round before the next one's. */
  lemma RoundIndex(n: nat, m: nat, x: nat) returns (j: nat)
    requires m <= n && (m == n || m == HISTORY_RUNS) && x < n % ROUND
    ensures j < m && (n - 1 - j) % ROUND == x
  {
    j := n % ROUND - 1 - x;
    RoundTurns(n, j);
  }

  lemma TurnHas(u: seq<string>, picks: nat, k: nat, i: nat)
    requires 1 <= picks && picks + HISTORY_RUNS <= |u| && (i < picks - 1 || i == picks - 1 + k % ROUND)
    ensures u[i] in Names(Turn(u, picks, k))
  {
    assert Turn(u, picks, k)[if i < picks - 1 then i else picks - 1] == u[i];
  }

  /** ... and all before it is. */
  lemma EarlierPicked(u: seq<string>, picks: nat, commit: string, n: nat, m: nat, i: nat)
    requires 1 <= picks && picks + ROUND <= |u| && Distinct(u) && 0 < m <= n && (m == n || m == HISTORY_RUNS)
    requires i < picks - 1 + n % ROUND
    ensures u[i] in PickedIn(Stretch(u, picks, commit, n, m))
  {
    var j := 0;
    if i >= picks - 1 {
      j := RoundIndex(n, m, i - (picks - 1));
    }
    TurnHas(u, picks, n - 1 - j, i);
    StretchPicks(u, picks, commit, n, m, j);
  }

  /** With enough failures to repeat, all slots but one repeat them, and the last takes the
      first of the fresh. */
  lemma OneFreshSlot(pool: seq<string>, s: State, picks: nat)
    requires Distinct(pool) && Consistent(s) && InPool(pool, s) && 2 <= picks <= |pool|
    requires picks <= |s.failing| && Fresh(pool, s) != []
    ensures Select(pool, s, picks) == Ok(s.failing[..picks - 1] + [Fresh(pool, s)[0]])
  {
    PicksAreSound(pool, s, picks);
    Candidates(pool, s);
    ChosenForm(s.failing, Fresh(pool, s), picks);
    RepeatsLead(s.failing, picks);
    assert Repeats(s.failing, picks) == s.failing[..picks - 1];
    assert Fresh(pool, s)[..1] == [Fresh(pool, s)[0]] && s.failing[picks - 1..][..0] == [];
    assert Chosen(pool, s, picks) == s.failing[..picks - 1] + Fresh(pool, s)[..1] + [];
    assert Chosen(pool, s, picks) == s.failing[..picks - 1] + [Fresh(pool, s)[0]];
  }

  /** With nothing failing the first of the pool are picked. */
  lemma AllFreshSlots(pool: seq<string>, s: State, picks: nat)
    requires Distinct(pool) && Consistent(s) && InPool(pool, s) && 1 <= picks <= |pool|
    requires s.failing == [] && picks <= |Fresh(pool, s)|
    ensures Select(pool, s, picks) == Ok(Fresh(pool, s)[..picks])
  {
    PicksAreSound(pool, s, picks);
    Candidates(pool, s);
    ChosenForm([], Fresh(pool, s), picks);
    assert Repeats(StillFailing(s), picks) == [] && Fresh(pool, s) + [] == Fresh(pool, s);
    assert Chosen(pool, s, picks) == Fresh(pool, s)[..picks];
  }

  lemma WindowStretch(u: seq<string>, picks: nat, commit: string, n: nat)
    requires 1 <= picks && picks + HISTORY_RUNS <= |u|
    ensures Window(Stretch(u, picks, commit, n, n)) == Stretch(u, picks, commit, n, Min(n, HISTORY_RUNS))
  {
  }

  lemma {:induction false} StretchReadable(u: seq<string>, picks: nat, commit: string, n: nat, m: nat)
    requires 1 <= picks && picks + HISTORY_RUNS <= |u| && m <= n
    ensures FirstError(Stretch(u, picks, commit, n, m)).Ok?
  {
    var w := Stretch(u, picks, commit, n, m);
    forall i | 0 <= i < |w| ensures Unreadable(w[i]).Ok? {
      assert w[i] == Failed(Turn(u, picks, n - 1 - i), commit);
    }
    AllReadable(w);
  }

  lemma StretchEntry(u: seq<string>, picks: nat, commit: string, n: nat, m: nat, e: Entry)
    requires 1 <= picks && picks + ROUND <= |u| && m <= n && Distinct(u) && e in Stretch(u, picks, commit, n, m)
    ensures Names(PicksOf(e)) <= Names(u)
  {
    var i :| 0 <= i < m && Stretch(u, picks, commit, n, m)[i] == e;
    assert e == Failed(Turn(u, picks, n - 1 - i), commit);
    TurnNames(u, picks, n - 1 - i);
  }

  lemma {:induction false} StretchInPool(pool: seq<string>, seed: Seed, picks: nat, u: seq<string>, commit: string,
                                         n: nat, m: nat)
    requires Spread(pool, seed, picks, u, commit) && m <= n
    ensures InPool(pool, StateOf(Stretch(u, picks, commit, n, m), seed))
  {
    SpreadNames(pool, seed, picks, u, commit);
    forall e | e in Stretch(u, picks, commit, n, m) ensures Names(PicksOf(e)) <= Names(u) {
      StretchEntry(u, picks, commit, n, m, e);
    }
    PicksStayInPool(pool, seed, Stretch(u, picks, commit, n, m));
  }

  lemma StretchJudged(seed: Seed, u: seq<string>, picks: nat, commit: string, n: nat, m: nat)
    requires 1 <= picks && picks + HISTORY_RUNS <= |u| && m <= n && commit !in seed.voided
    ensures AllJudged(Stretch(u, picks, commit, n, m), seed)
  {
    var w := Stretch(u, picks, commit, n, m);
    forall i | 0 <= i < |w| ensures Judged(w[i], seed) {
      assert w[i] == Failed(Turn(u, picks, n - 1 - i), commit);
    }
  }

  /** What is tried after the newest of these cycles: their picks, and what the seed certifies. */
  lemma {:induction false} StretchTried(seed: Seed, u: seq<string>, picks: nat, commit: string, n: nat, m: nat)
    requires 1 <= picks && picks + HISTORY_RUNS <= |u| && m <= n && commit !in seed.voided
    requires m <= HISTORY_RUNS && Settled(seed)
    ensures var w := Stretch(u, picks, commit, n, m);
            PickedIn(w) <= Names(StateOf(w, seed).tried) <= Names(seed.certified) + PickedIn(w)
  {
    var w := Stretch(u, picks, commit, n, m);
    StretchJudged(seed, u, picks, commit, n, m);
    StateFromPicks(w, seed);
    assert w[..m] == w && Window(w) == w;
    JudgedArePicked(w, seed, m);
  }

  lemma {:induction false} NextInRound(u: seq<string>, picks: nat, commit: string, n: nat, m: nat, bad: set<string>)
    requires 1 <= picks && picks + ROUND <= |u| && Distinct(u) && 0 < m <= n && m == Min(n, HISTORY_RUNS)
    requires PickedIn(Stretch(u, picks, commit, n, m)) <= bad
             && bad * Names(u) <= PickedIn(Stretch(u, picks, commit, n, m))
    ensures Drop(u, bad) != [] && Drop(u, bad)[0] == u[picks - 1 + n % ROUND]
  {
    var next := picks - 1 + n % ROUND;
    NextNotPicked(u, picks, commit, n, m);
    assert u[next] in Names(u);
    forall x | x in Names(u[..next]) ensures x in bad {
      var i :| 0 <= i < next && u[i] == x;
      EarlierPicked(u, picks, commit, n, m, i);
    }
    FirstKept(u, bad, next);
  }

  /** Then the first of the fresh is the next turn's own. */
  lemma FreshNext(pool: seq<string>, seed: Seed, picks: nat, u: seq<string>, commit: string, n: nat, m: nat, s: State)
    requires Spread(pool, seed, picks, u, commit) && 0 < m <= n && m == Min(n, HISTORY_RUNS)
    requires s.certified == Names(seed.certified)
    requires var picked := PickedIn(Stretch(u, picks, commit, n, m));
             picked <= Names(s.tried) <= Names(seed.certified) + picked
    ensures Fresh(pool, s) != [] && Fresh(pool, s)[0] == u[picks - 1 + n % ROUND]
  {
    var bad := Names(s.tried) + s.certified;
    SpreadNames(pool, seed, picks, u, commit);
    NextInRound(u, picks, commit, n, m, bad);
    DropDrop(pool, Names(seed.certified), bad);
    assert Names(seed.certified) + bad == bad;
  }

  /** Before the first of these cycles: nothing is failing, and all of them are fresh. */
  lemma {:induction false} FirstState(pool: seq<string>, seed: Seed)
    requires Settled(seed) && SeedInPool(pool, seed)
    ensures var s := StateOf([], seed);
            && Consistent(s) && InPool(pool, s) && s.failing == []
            && Fresh(pool, s) == Drop(pool, Names(seed.certified))
  {
    var s := StateOf([], seed);
    SeedStateInPool(pool, seed);
    TriedNames([], seed);
    assert AllCounts([], seed) == [] && AllCerts([]) == [];
    NothingFailing([], seed);
    RotationConsistent([], seed);
    assert Names(s.tried) + s.certified == Names(seed.certified);
  }

  lemma FirstSlots(pool: seq<string>, s: State, picks: nat, u: seq<string>)
    requires Distinct(pool) && Consistent(s) && InPool(pool, s) && 1 <= picks <= |pool|
    requires s.failing == [] && Fresh(pool, s) == u && picks + HISTORY_RUNS <= |u|
    ensures Select(pool, s, picks) == Ok(Turn(u, picks, 0))
  {
    AllFreshSlots(pool, s, picks);
    assert u[..picks] == u[..picks - 1] + [u[picks - 1]];
  }

  lemma {:induction false} FirstTurn(pool: seq<string>, seed: Seed, picks: nat, u: seq<string>, commit: string)
    requires Spread(pool, seed, picks, u, commit)
    ensures Planned(pool, [], seed, picks) == Ok(Turn(u, picks, 0))
  {
    FirstState(pool, seed);
    assert FirstError([]).Ok? && Window([]) == [];
    PlannedFrom(pool, [], seed, picks, []);
    FirstSlots(pool, StateOf([], seed), picks, u);
  }

  /** From the state that such cycles lead to, the next turn is picked. */
  lemma NextTurn(pool: seq<string>, picks: nat, u: seq<string>, s: State, n: nat)
    requires Distinct(pool) && Consistent(s) && InPool(pool, s) && 2 <= picks <= |pool|
    requires 0 < n && picks + HISTORY_RUNS <= |u| && Leads(Turn(u, picks, n - 1), s.failing)
    requires Fresh(pool, s) != [] && Fresh(pool, s)[0] == u[picks - 1 + n % ROUND]
    ensures Select(pool, s, picks) == Ok(Turn(u, picks, n))
  {
    OneFreshSlot(pool, s, picks);
    assert s.failing[..picks][..picks - 1] == s.failing[..picks - 1];
    assert Turn(u, picks, n - 1)[..picks - 1] == u[..picks - 1];
  }

  /** After any number of these cycles the next turn is planned. */
  lemma {:induction false} TurnPlanned(pool: seq<string>, seed: Seed, picks: nat, u: seq<string>, commit: string,
                                       n: nat)
    requires Spread(pool, seed, picks, u, commit)
    ensures Planned(pool, Stretch(u, picks, commit, n, n), seed, picks) == Ok(Turn(u, picks, n))
  {
    if n == 0 {
      FirstTurn(pool, seed, picks, u, commit);
    } else {
      var m := Min(n, HISTORY_RUNS);
      var w := Stretch(u, picks, commit, n, m);
      WindowStretch(u, picks, commit, n);
      StretchReadable(u, picks, commit, n, m);
      PlannedFrom(pool, Stretch(u, picks, commit, n, n), seed, picks, w);
      RotationConsistent(w, seed);
      StretchInPool(pool, seed, picks, u, commit, n, m);
      StretchState(pool, seed, picks, u, commit, n, m);
      StretchTried(seed, u, picks, commit, n, m);
      FreshNext(pool, seed, picks, u, commit, n, m, StateOf(w, seed));
      NextTurn(pool, picks, u, StateOf(w, seed), n);
    }
  }

  lemma {:induction false} FailureLives(plan: Planner, names: seq<string>, commit: string, es: seq<Entry>,
                                        all: seq<Entry>)
    requires Lived(plan, es) && plan(es) == Ok(names) && all == [Failed(names, commit)] + es
    ensures Lived(plan, all)
  {
    LivedOn(plan, Failed(names, commit), es, all);
  }

  lemma StretchLives(plan: Planner, u: seq<string>, picks: nat, commit: string, n: nat)
    requires 1 <= picks && picks + HISTORY_RUNS <= |u|
    requires forall k :: 0 <= k < n ==> plan(Stretch(u, picks, commit, k, k)) == Ok(Turn(u, picks, k))
    ensures Lived(plan, Stretch(u, picks, commit, n, n))
  {
    if n > 0 {
      var k := n - 1;
      StretchLives(plan, u, picks, commit, k);
      StretchGrows(u, picks, commit, n, k);
      FailureLives(plan, Turn(u, picks, k), commit, Stretch(u, picks, commit, k, k), Stretch(u, picks, commit, n, n));
    }
  }

  lemma FailuresLive(pool: seq<string>, seed: Seed, picks: nat, u: seq<string>, commit: string, n: nat)
    requires Spread(pool, seed, picks, u, commit)
    ensures Lived(PlannerOf(pool, seed, picks), Stretch(u, picks, commit, n, n))
  {
    var plan := PlannerOf(pool, seed, picks);
    forall k | 0 <= k < n ensures plan(Stretch(u, picks, commit, k, k)) == Ok(Turn(u, picks, k)) {
      TurnPlanned(pool, seed, picks, u, commit, k);
    }
    StretchLives(plan, u, picks, commit, n);
  }

  /** Any number of cycles, all of them failing, that never pick one of the blueprints. */
  lemma {:induction false} Starves(pool: seq<string>, seed: Seed, picks: nat, n: nat)
    returns (es: seq<Entry>, name: string)
    requires Distinct(pool) && SeedInPool(pool, seed) && Settled(seed) && 2 <= picks <= |pool|
    requires picks + ROUND <= |Names(pool) - Names(seed.certified)|
    ensures |es| == n && Lived(PlannerOf(pool, seed, picks), es) && AllJudged(es, seed)
    ensures name in NewTo(pool, seed) && name !in PickedIn(es)
  {
    var u := Drop(pool, Names(seed.certified));
    DropNames(pool, Names(seed.certified));
    DistinctSize(u);
    var commit := UnvoidedCommit(seed.voided);
    es, name := Stretch(u, picks, commit, n, n), u[picks + HISTORY_RUNS];
    FailuresLive(pool, seed, picks, u, commit, n);
    StretchJudged(seed, u, picks, commit, n, n);
    assert name in Names(u);
    if name in PickedIn(es) {
      StretchPicked(u, picks, commit, n, n, name);
      var k :| 0 <= k < n && name in Turn(u, picks, k);
      TurnNames(u, picks, k);
    }
  }

  // ---- with a single slot -------------------------------------------------------------------------------

  /** The same failure, over and over. */
  function Again(name: string, commit: string, n: nat): seq<Entry> { seq(n, i => Failed([name], commit)) }

  lemma AgainGrows(name: string, commit: string, n: nat)
    ensures Again(name, commit, n + 1) == [Failed([name], commit)] + Again(name, commit, n)
  {
  }

  lemma {:induction false} AgainState(name: string, commit: string, seed: Seed, n: nat)
    requires name !in Names(seed.certified) && commit !in seed.voided
    ensures StateOf(Again(name, commit, n), seed).certified == Names(seed.certified)
    ensures n > 0 ==> Leads([name], StateOf(Again(name, commit, n), seed).failing)
  {
    if n == 0 {
      assert AllCerts([]) == [];
    } else {
      AgainState(name, commit, seed, n - 1);
      AgainGrows(name, commit, n - 1);
      assert Names([name]) == {name};
      FailedRun([name], commit, Again(name, commit, n - 1), Again(name, commit, n), seed);
    }
  }

  lemma {:induction false} AgainInPool(pool: seq<string>, name: string, commit: string, seed: Seed, n: nat)
    requires SeedInPool(pool, seed) && name in Names(pool)
    ensures FirstError(Again(name, commit, n)).Ok? && InPool(pool, StateOf(Again(name, commit, n), seed))
  {
    AllReadable(Again(name, commit, n));
    PicksStayInPool(pool, seed, Again(name, commit, n));
  }

  /** A single slot goes to the latest failure. */
  lemma OneRepeatSlot(pool: seq<string>, s: State, name: string)
    requires Distinct(pool) && Consistent(s) && InPool(pool, s) && pool != [] && Leads([name], s.failing)
    ensures Select(pool, s, 1) == Ok([name])
  {
    PicksAreSound(pool, s, 1);
    Candidates(pool, s);
    ChosenForm(s.failing, Fresh(pool, s), 1);
    assert Repeats(s.failing, 1) == s.failing[..1] == [name];
    assert Chosen(pool, s, 1) == [name] + Fresh(pool, s)[..0] + s.failing[1..][..0];
  }

  lemma {:induction false} AgainPlanned(pool: seq<string>, seed: Seed, name: string, commit: string, n: nat)
    requires Distinct(pool) && SeedInPool(pool, seed) && Settled(seed) && commit !in seed.voided
    requires Drop(pool, Names(seed.certified)) != [] && name == Drop(pool, Names(seed.certified))[0]
    ensures Planned(pool, Again(name, commit, n), seed, 1) == Ok([name])
  {
    DropNames(pool, Names(seed.certified));
    assert name in Names(Drop(pool, Names(seed.certified)));
    var w := Again(name, commit, Min(n, HISTORY_RUNS));
    assert Window(Again(name, commit, n)) == w;
    AgainInPool(pool, name, commit, seed, |w|);
    PlannedFrom(pool, Again(name, commit, n), seed, 1, w);
    if n == 0 {
      FirstState(pool, seed);
      AllFreshSlots(pool, StateOf([], seed), 1);
      assert w == [] && Fresh(pool, StateOf([], seed))[..1] == [name];
    } else {
      RotationConsistent(w, seed);
      AgainState(name, commit, seed, |w|);
      OneRepeatSlot(pool, StateOf(w, seed), name);
    }
  }

  lemma {:induction false} AgainLives(plan: Planner, name: string, commit: string, n: nat)
    requires forall k :: 0 <= k < n ==> plan(Again(name, commit, k)) == Ok([name])
    ensures Lived(plan, Again(name, commit, n))
  {
    if n > 0 {
      AgainLives(plan, name, commit, n - 1);
      AgainGrows(name, commit, n - 1);
      FailureLives(plan, [name], commit, Again(name, commit, n - 1), Again(name, commit, n));
    }
  }

  /** The first failure holds the slot for good. */
  lemma {:induction false} StarvesAlone(pool: seq<string>, seed: Seed, n: nat) returns (es: seq<Entry>, name: string)
    requires Distinct(pool) && SeedInPool(pool, seed) && Settled(seed)
    requires 2 <= |Names(pool) - Names(seed.certified)|
    ensures |es| == n && Lived(PlannerOf(pool, seed, 1), es) && AllJudged(es, seed)
    ensures name in NewTo(pool, seed) && name !in PickedIn(es)
  {
    var u := Drop(pool, Names(seed.certified));
    DropNames(pool, Names(seed.certified));
    DistinctSize(u);
    var commit := UnvoidedCommit(seed.voided);
    es, name := Again(u[0], commit, n), u[1];
    forall k | 0 <= k < n ensures PlannerOf(pool, seed, 1)(Again(u[0], commit, k)) == Ok([u[0]]) {
      AgainPlanned(pool, seed, u[0], commit, k);
    }
    AgainLives(PlannerOf(pool, seed, 1), u[0], commit, n);
    NotPicked(es, name);
    assert name in Names(u);
  }

  /** With one blueprint to build, every cycle that does not certify it picks it. */
  lemma {:induction false} OneIsBuilt(pool: seq<string>, seed: Seed, picks: nat, es: seq<Entry>, name: string)
    requires Distinct(pool) && 1 <= picks && |Names(pool) - Names(seed.certified)| <= 1
    requires Lived(PlannerOf(pool, seed, picks), es) && es != [] && Judged(es[0], seed) && name in NewTo(pool, seed)
    ensures !PassedOver(es, HISTORY_RUNS + 1, name)
  {
    if PassedOver(es, HISTORY_RUNS + 1, name) {
      var s := StateOf(Window(es[1..]), seed);
      PassedOverWindow(es, name);
      PicksPlanned(pool, seed, picks, es[0], es[1..]);
      StillFresh(pool, seed, Window(es[1..]), name);
      PickedOrFull(pool, s, picks, name);
      DistinctSize(PicksOf(es[0]));
      Subset(Names(PicksOf(es[0])) + {name}, Names(pool) - Names(seed.certified));
    }
  }

  // ---- exactly which pools ------------------------------------------------------------------------------------

  /** However a history of planned cycles went, its newest `n`, if all were judged, picked every
      blueprint that the seed does not know. */
  ghost predicate Covers(plan: Planner, pool: seq<string>, seed: Seed, n: nat) {
    forall es :: n <= |es| && Lived(plan, es) && AllJudged(es[..n], seed) ==> NewTo(pool, seed) <= PickedIn(es[..n])
  }

  /** How many blueprints the rotation can keep building. */
  function Coverable(picks: nat): nat { if picks == 1 then 1 else picks + HISTORY_RUNS }

  lemma {:induction false} NewestCover(pool: seq<string>, seed: Seed, picks: nat, n: nat, es: seq<Entry>, name: string)
    requires Distinct(pool) && 1 <= picks && |Names(pool) - Names(seed.certified)| <= Coverable(picks)
    requires 2 * HISTORY_RUNS < n <= |es| && Lived(PlannerOf(pool, seed, picks), es) && AllJudged(es[..n], seed)
    requires name in NewTo(pool, seed)
    ensures name in PickedIn(es[..n])
  {
    assert forall i :: 0 <= i < n ==> es[..n][i] == es[i];
    if picks == 1 {
      OneIsBuilt(pool, seed, picks, es, name);
    } else {
      assert forall i :: 0 <= i < ROUND ==> es[..ROUND][i] == es[..n][i];
      BuiltWithin(pool, seed, picks, es, name);
    }
    var i :| 0 <= i < |es| && i <= 2 * HISTORY_RUNS && name in PicksOf(es[i]);
    PickedAt(es[..n], i);
    assert name in Names(PicksOf(es[..n][i]));
  }

  /** With a seed that leaves no failure of its own: whatever the builds come to, sixty-one judged
      cycles in a row, or any larger number, pick every blueprint that the seed does not certify,
      exactly when there are no more of these than a cycle has slots and a window has reports,
      or, with a single slot, no more than one. In a larger pool, however many cycles there are,
      one may never be built. */
  lemma {:induction false} CoversExactly(pool: seq<string>, seed: Seed, picks: nat, n: nat)
    requires Distinct(pool) && SeedInPool(pool, seed) && Settled(seed) && 1 <= picks <= |pool|
    requires 2 * HISTORY_RUNS < n
    ensures |Names(pool) - Names(seed.certified)| <= Coverable(picks)
            <==> Covers(PlannerOf(pool, seed, picks), pool, seed, n)
  {
    if |Names(pool) - Names(seed.certified)| <= Coverable(picks) {
      forall es | n <= |es| && Lived(PlannerOf(pool, seed, picks), es) && AllJudged(es[..n], seed)
        ensures NewTo(pool, seed) <= PickedIn(es[..n])
      {
        forall name | name in NewTo(pool, seed) ensures name in PickedIn(es[..n]) {
          NewestCover(pool, seed, picks, n, es, name);
        }
      }
    } else {
      var es, name := Misses(pool, seed, picks, n);
      assert es[..n] == es;
    }
  }

  lemma {:induction false} Misses(pool: seq<string>, seed: Seed, picks: nat, n: nat)
    returns (es: seq<Entry>, name: string)
    requires Distinct(pool) && SeedInPool(pool, seed) && Settled(seed) && 1 <= picks <= |pool|
    requires Coverable(picks) < |Names(pool) - Names(seed.certified)|
    ensures |es| == n && Lived(PlannerOf(pool, seed, picks), es) && AllJudged(es, seed)
    ensures name in NewTo(pool, seed) && name !in PickedIn(es)
  {
    if picks == 1 {
      es, name := StarvesAlone(pool, seed, n);
    } else {
      es, name := Starves(pool, seed, picks, n);
    }
  }
}
