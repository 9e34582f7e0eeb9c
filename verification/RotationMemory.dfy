/** How long a certification is remembered, and which blueprints the rotation can come to again
    (scripts/release_cycle.py:99, 184-277, 321-353, 701-724). */
module RotationMemory {
  import opened Common
  import opened NameLists
  import opened ReleaseRotation
  import opened RotationPicks
  import opened RotationRuns

  /** Completed runs that uploaded no report. */
  function Silent(n: nat): seq<Entry> { seq(n, i => NoReport) }

  /** A cycle all of whose picks exported certified. */
  function Passed(names: seq<string>): Entry {
    Record("pass", Picks(names), map n | n in Names(names) :: Run("exported", true), "")
  }

  lemma {:induction false} AllPassed(names: seq<string>, picks: seq<string>)
    requires Names(picks) <= Names(names)
    ensures CertifiedNames(Passed(names), picks) == picks
  {
    if picks != [] {
      NamesFront(picks);
      AllPassed(names, picks[..|picks| - 1]);
      assert picks == picks[..|picks| - 1] + [picks[|picks| - 1]];
    }
  }

  lemma SilentLast(es: seq<Entry>)
    ensures AllCerts(es + [NoReport]) == AllCerts(es)
  {
    var all := es + [NoReport];
    Older(all, |es|, Seed([], [], []));
    assert all[..|es|] == es && all[..|es| + 1] == all;
    assert AllCerts(es) + [] == AllCerts(es);
  }

  lemma {:induction false} SilentTail(es: seq<Entry>, n: nat)
    ensures AllCerts(es + Silent(n)) == AllCerts(es)
  {
    if n == 0 {
      assert es + Silent(0) == es;
    } else {
      var m := n - 1;
      SilentTail(es, m);
      SilentLast(es + Silent(m));
      assert es + Silent(n) == (es + Silent(m)) + [NoReport];
    }
  }

  /** What is certified, when the window holds these cycles and else only silent runs. */
  function Known(seed: Seed, recent: seq<Entry>): set<string> { Names(seed.certified) + Names(AllCerts(recent)) }

  ghost predicate AllPass(pool: seq<string>, recent: seq<Entry>) {
    forall i :: 0 <= i < |recent| ==> PassAt(pool, recent[i])
  }

  ghost predicate PassAt(pool: seq<string>, e: Entry) { e == Passed(PicksOf(e)) && Names(PicksOf(e)) <= Names(pool) }

  /** The seed's certifications and earlier tries are of blueprints in the pool. */
  ghost predicate SeedInPool(pool: seq<string>, seed: Seed) { Names(seed.certified) + Names(seed.tried) <= Names(pool) }

  lemma OneMoreInPool(pool: seq<string>, e: Entry, older: seq<Entry>, seed: Seed)
    requires InPool(pool, StateOf(older, seed)) && Names(PicksOf(e)) <= Names(pool)
    ensures InPool(pool, StateOf([e] + older, seed))
  {
    OneMoreRun(e, older, seed);
  }

  lemma SeedStateInPool(pool: seq<string>, seed: Seed)
    requires SeedInPool(pool, seed)
    ensures InPool(pool, StateOf([], seed))
  {
    TriedNames([], seed);
    assert AllCounts([], seed) == [] && AllCerts([]) == [];
  }

  /** Picks from the pool lead to no state outside it. */
  lemma {:induction false} PicksStayInPool(pool: seq<string>, seed: Seed, es: seq<Entry>)
    requires SeedInPool(pool, seed) && forall e :: e in es ==> Names(PicksOf(e)) <= Names(pool)
    ensures InPool(pool, StateOf(es, seed))
    decreases |es|
  {
    if es == [] {
      SeedStateInPool(pool, seed);
    } else {
      var e, older := es[0], es[1..];
      assert es == [e] + older && e in es;
      PicksStayInPool(pool, seed, older);
      OneMoreInPool(pool, e, older, seed);
    }
  }

  lemma PassStateInPool(pool: seq<string>, seed: Seed, recent: seq<Entry>, n: nat)
    requires SeedInPool(pool, seed) && AllPass(pool, recent)
    ensures InPool(pool, StateOf(recent + Silent(n), seed))
  {
    forall e | e in recent + Silent(n) ensures Names(PicksOf(e)) <= Names(pool) {
      if e in recent {
        var i :| 0 <= i < |recent| && recent[i] == e;
        assert PassAt(pool, recent[i]);
      } else {
        assert e in Silent(n) && e == NoReport;
      }
    }
    PicksStayInPool(pool, seed, recent + Silent(n));
  }

  /** The history so far: these passing cycles, then silent runs, then what was before. */
  function SoFar(recent: seq<Entry>, es: seq<Entry>): seq<Entry> { recent + (Silent(HISTORY_RUNS) + es) }

  /** After enough silent runs only these cycles are read. */
  lemma WindowOf(recent: seq<Entry>, es: seq<Entry>)
    requires |recent| <= HISTORY_RUNS
    ensures Window(SoFar(recent, es)) == recent + Silent(HISTORY_RUNS - |recent|)
  {
  }

  lemma {:induction false} PassesReadable(pool: seq<string>, recent: seq<Entry>, n: nat)
    requires AllPass(pool, recent)
    ensures FirstError(recent + Silent(n)).Ok?
  {
    var w := recent + Silent(n);
    forall i | 0 <= i < |w| ensures Unreadable(w[i]).Ok? {
      assert i < |recent| ==> PassAt(pool, recent[i]);
    }
    AllReadable(w);
  }

  lemma PassesCertify(seed: Seed, recent: seq<Entry>, n: nat)
    ensures StateOf(recent + Silent(n), seed).certified == Known(seed, recent)
  {
    SilentTail(recent, n);
  }

  // ---- cycles that all pass ------------------------------------------------------------------------

  /** The seed leaves no failure of its own to repeat. */
  ghost predicate Settled(seed: Seed) { Names(seed.tried) <= Names(seed.certified) }

  lemma CertifyingRun(e: Entry, es: seq<Entry>, seed: Seed)
    requires Names(PicksOf(e)) <= Names(Certs(e)) && Names(StateOf(es, seed).tried) <= StateOf(es, seed).certified
    ensures Names(StateOf([e] + es, seed).tried) <= StateOf([e] + es, seed).certified
  {
    OneMoreRun(e, es, seed);
    NewerCertified(e, es, seed);
  }

  /** Cycles that certify all they pick leave nothing failing. */
  lemma {:induction false} AllTriedCertified(es: seq<Entry>, seed: Seed)
    requires Settled(seed) && forall i :: 0 <= i < |es| ==> Names(PicksOf(es[i])) <= Names(Certs(es[i]))
    ensures Names(StateOf(es, seed).tried) <= StateOf(es, seed).certified
    decreases |es|
  {
    if es == [] {
      TriedNames([], seed);
      assert AllCounts([], seed) == [];
    } else {
      var e, older := es[0], es[1..];
      assert es == [e] + older && forall i :: 0 <= i < |older| ==> older[i] == es[i + 1];
      AllTriedCertified(older, seed);
      CertifyingRun(e, older, seed);
    }
  }

  lemma NothingFailing(es: seq<Entry>, seed: Seed)
    requires Names(StateOf(es, seed).tried) <= StateOf(es, seed).certified
    ensures StateOf(es, seed).failing == []
  {
    RotationConsistent(es, seed);
    NoNames(StateOf(es, seed).failing);
  }

  lemma PassesLeaveNoFailure(pool: seq<string>, seed: Seed, recent: seq<Entry>, n: nat)
    requires Settled(seed) && AllPass(pool, recent)
    ensures var s := StateOf(recent + Silent(n), seed); Names(s.tried) <= s.certified && s.failing == []
  {
    var es := recent + Silent(n);
    forall i | 0 <= i < |es| ensures Names(PicksOf(es[i])) <= Names(Certs(es[i])) {
      if i < |recent| {
        assert PassAt(pool, recent[i]);
        AllPassed(PicksOf(es[i]), PicksOf(es[i]));
      }
    }
    AllTriedCertified(es, seed);
    NothingFailing(es, seed);
  }

  /** Planned from these passing cycles and silent runs alone. */
  lemma PassesPlanned(pool: seq<string>, seed: Seed, picks: nat, recent: seq<Entry>, es: seq<Entry>)
    returns (s: State)
    requires SeedInPool(pool, seed) && |recent| <= HISTORY_RUNS && AllPass(pool, recent)
    ensures Planned(pool, SoFar(recent, es), seed, picks) == Select(pool, s, picks)
    ensures s.certified == Known(seed, recent) && Consistent(s) && InPool(pool, s)
    ensures Settled(seed) ==> Names(s.tried) <= s.certified && s.failing == []
  {
    var n := HISTORY_RUNS - |recent|;
    s := StateOf(recent + Silent(n), seed);
    WindowOf(recent, es);
    PassesReadable(pool, recent, n);
    PlannedFrom(pool, SoFar(recent, es), seed, picks, recent + Silent(n));
    PassesCertify(seed, recent, n);
    PassStateInPool(pool, seed, recent, n);
    RotationConsistent(recent + Silent(n), seed);
    if Settled(seed) {
      PassesLeaveNoFailure(pool, seed, recent, n);
    }
  }

  lemma OnePassKnown(seed: Seed, recent: seq<Entry>, names: seq<string>)
    ensures Known(seed, [Passed(names)] + recent) == Known(seed, recent) + Names(names)
  {
    AllPassed(names, names);
    Newer(Passed(names), recent, seed);
    NamesConcat(names, AllCerts(recent));
  }

  lemma OnePassInPool(pool: seq<string>, recent: seq<Entry>, names: seq<string>)
    requires AllPass(pool, recent) && Names(names) <= Names(pool)
    ensures AllPass(pool, [Passed(names)] + recent)
  {
    var next := [Passed(names)] + recent;
    forall i | 0 <= i < |next| ensures PassAt(pool, next[i]) {
      assert i > 0 ==> PassAt(pool, recent[i - 1]) && next[i] == recent[i - 1];
    }
  }

  /** The cycle picks the name, or else its every slot takes something from the queue. */
  ghost predicate Serves(r: Result<seq<string>>, pool: seq<string>, queue: set<string>, picks: nat, name: string) {
    && r.Ok? && Names(r.value) <= Names(pool)
    && (name in r.value || (Distinct(r.value) && |r.value| == picks && Names(r.value) <= queue))
  }

  /** While the name is not certified, passing cycles serve what is left of the queue. */
  ghost predicate ServesQueue(plan: Planner, pool: seq<string>, seed: Seed, picks: nat, queue: set<string>,
                              name: string, es: seq<Entry>) {
    forall recent :: |recent| <= HISTORY_RUNS && AllPass(pool, recent) && name !in Known(seed, recent)
                     ==> Serves(plan(SoFar(recent, es)), pool, queue - Known(seed, recent), picks, name)
  }

  lemma PassLives(plan: Planner, names: seq<string>, recent: seq<Entry>, es: seq<Entry>)
    requires Lived(plan, SoFar(recent, es)) && plan(SoFar(recent, es)) == Ok(names)
    ensures Lived(plan, SoFar([Passed(names)] + recent, es))
  {
    var next := [Passed(names)] + recent;
    assert SoFar(next, es) == [Passed(names)] + SoFar(recent, es);
    LivedOn(plan, Passed(names), SoFar(recent, es), SoFar(next, es));
  }

  /** A full load from the queue leaves so much less of it. */
  lemma OneLoadLess(seed: Seed, queue: set<string>, recent: seq<Entry>, names: seq<string>, picks: nat)
    requires Distinct(names) && |names| == picks && Names(names) <= queue - Known(seed, recent)
    ensures |queue - Known(seed, [Passed(names)] + recent)| == |queue - Known(seed, recent)| - picks
  {
    OnePassKnown(seed, recent, names);
    DistinctSize(names);
    var left := queue - Known(seed, recent);
    assert queue - Known(seed, [Passed(names)] + recent) == left - Names(names);
    assert left == (left - Names(names)) + Names(names);
  }

  /** One more passing cycle: it picks the name, or takes a full load off the queue. */
  lemma OnePassOn(plan: Planner, pool: seq<string>, seed: Seed, picks: nat, queue: set<string>, recent: seq<Entry>,
                  es: seq<Entry>, name: string) returns (next: seq<Entry>)
    requires ServesQueue(plan, pool, seed, picks, queue, name, es) && |recent| <= HISTORY_RUNS
    requires AllPass(pool, recent) && Lived(plan, SoFar(recent, es)) && name in queue - Known(seed, recent)
    ensures |next| == |recent| + 1 && Lived(plan, SoFar(next, es)) && AllPass(pool, next)
    ensures name in PicksOf(next[0])
            || (name in queue - Known(seed, next)
                && 0 < |queue - Known(seed, next)| == |queue - Known(seed, recent)| - picks)
  {
    assert Serves(plan(SoFar(recent, es)), pool, queue - Known(seed, recent), picks, name);
    var names := plan(SoFar(recent, es)).value;
    next := [Passed(names)] + recent;
    PassLives(plan, names, recent, es);
    OnePassInPool(pool, recent, names);
    OnePassKnown(seed, recent, names);
    if name !in names {
      OneLoadLess(seed, queue, recent, names, picks);
      Subset({name}, queue - Known(seed, next));
    }
  }

  /** What so many cycles can pick. */
  function Loads(runs: nat, picks: nat): nat { if runs == 0 then 0 else Loads(runs - 1, picks) + picks }

  lemma {:induction false} LoadsProduct(runs: nat, picks: nat)
    ensures Loads(runs, picks) == runs * picks
  {
    if runs > 0 {
      LoadsProduct(runs - 1, picks);
      assert runs * picks == (runs - 1) * picks + picks;
    }
  }

  /** Cycles that all pass go on until one of them picks the name. */
  lemma {:induction false} PassUntilPicked(plan: Planner, pool: seq<string>, seed: Seed, picks: nat,
                                           queue: set<string>, recent: seq<Entry>, es: seq<Entry>, name: string,
                                           runs: nat) returns (last: seq<Entry>)
    requires ServesQueue(plan, pool, seed, picks, queue, name, es) && |recent| + runs == HISTORY_RUNS + 1
    requires AllPass(pool, recent) && Lived(plan, SoFar(recent, es)) && name in queue - Known(seed, recent)
    requires |queue - Known(seed, recent)| <= Loads(runs, picks)
    ensures last != [] && name in PicksOf(last[0]) && Lived(plan, SoFar(last, es))
    decreases runs
  {
    last := OnePassOn(plan, pool, seed, picks, queue, recent, es, name);
    if name !in PicksOf(last[0]) {
      last := PassUntilPicked(plan, pool, seed, picks, queue, last, es, name, runs - 1);
    }
  }

  lemma {:induction false} SilentRunsLive(plan: Planner, n: nat, es: seq<Entry>)
    requires Lived(plan, es)
    ensures Lived(plan, Silent(n) + es)
  {
    if n == 0 {
      assert Silent(0) + es == es;
    } else {
      SilentRunsLive(plan, n - 1, es);
      assert Silent(n) + es == [NoReport] + (Silent(n - 1) + es);
      LivedOn(plan, NoReport, Silent(n - 1) + es, Silent(n) + es);
    }
  }

  /** No later cycle, however the history goes on, picks the name. */
  ghost predicate NeverPickedAgain(plan: Planner, es: seq<Entry>, name: string) {
    forall future: seq<Entry> :: Lived(plan, future + es) && future != [] ==> name !in PicksOf(future[0])
  }

  lemma {:induction false} NothingPassedYet(plan: Planner, seed: Seed, es: seq<Entry>)
    requires Lived(plan, es)
    ensures Lived(plan, SoFar([], es)) && Known(seed, []) == Names(seed.certified)
  {
    assert AllCerts([]) == [];
    SilentRunsLive(plan, HISTORY_RUNS, es);
    assert SoFar([], es) == Silent(HISTORY_RUNS) + es;
  }

  lemma PickedInTheEnd(plan: Planner, last: seq<Entry>, es: seq<Entry>, name: string)
    requires last != [] && name in PicksOf(last[0]) && Lived(plan, SoFar(last, es))
    ensures !NeverPickedAgain(plan, es, name)
  {
    var future := last + Silent(HISTORY_RUNS);
    assert future + es == SoFar(last, es) && future[0] == last[0];
  }

  /** A queue that thirty-one loads empty is worked off within a window. */
  lemma {:induction false} QueueIsServed(plan: Planner, pool: seq<string>, seed: Seed, picks: nat,
                                         queue: set<string>, es: seq<Entry>, name: string)
    requires ServesQueue(plan, pool, seed, picks, queue, name, es) && Lived(plan, es)
    requires name in queue - Names(seed.certified)
    requires |queue - Names(seed.certified)| <= (HISTORY_RUNS + 1) * picks
    ensures !NeverPickedAgain(plan, es, name)
  {
    NothingPassedYet(plan, seed, es);
    LoadsProduct(HISTORY_RUNS + 1, picks);
    var last := PassUntilPicked(plan, pool, seed, picks, queue, [], es, name, HISTORY_RUNS + 1);
    PickedInTheEnd(plan, last, es, name);
  }

  lemma SeededIsNeverPicked(pool: seq<string>, seed: Seed, picks: int, e: Entry, es: seq<Entry>, name: string)
    requires Distinct(pool) && AsPlanned(PlannerOf(pool, seed, picks), e, es) && name in Names(seed.certified)
    ensures name !in PicksOf(e)
  {
    if PicksOf(e) != [] {
      CertifiedNeverPicked(pool, seed, picks, es, PicksOf(e), name);
    }
  }

  lemma {:induction false} SeededNeverAgain(pool: seq<string>, seed: Seed, picks: int, es: seq<Entry>, name: string)
    requires Distinct(pool) && name in Names(seed.certified)
    ensures NeverPickedAgain(PlannerOf(pool, seed, picks), es, name)
  {
    var plan := PlannerOf(pool, seed, picks);
    forall future: seq<Entry> | Lived(plan, future + es) && future != []
      ensures name !in PicksOf(future[0])
    {
      assert (future + es)[0] == future[0];
      SeededIsNeverPicked(pool, seed, picks, future[0], (future + es)[1..], name);
    }
  }

  // ---- the whole pool as the queue -----------------------------------------------------------------

  lemma PoolIsServed(pool: seq<string>, seed: Seed, picks: nat, es: seq<Entry>, name: string)
    requires Distinct(pool) && SeedInPool(pool, seed) && 1 <= picks <= |pool| && name in Names(pool)
    ensures ServesQueue(PlannerOf(pool, seed, picks), pool, seed, picks, Names(pool), name, es)
  {
    forall recent | |recent| <= HISTORY_RUNS && AllPass(pool, recent) && name !in Known(seed, recent)
      ensures Serves(PlannerOf(pool, seed, picks)(SoFar(recent, es)), pool, Names(pool) - Known(seed, recent), picks,
              name)
    {
      var s := PassesPlanned(pool, seed, picks, recent, es);
      PickedOrFull(pool, s, picks, name);
    }
  }

  /** What a cycle certified stays unpicked for good exactly when the committed seed says so
      too: any report leaves the window in the end, and while no more blueprints are left to
      certify than thirty-one cycles can pick, they come to this one again. */
  lemma {:induction false} CertificationLastsExactly(pool: seq<string>, seed: Seed, picks: nat, es: seq<Entry>,
                                                     name: string)
    requires Distinct(pool) && SeedInPool(pool, seed) && 1 <= picks <= |pool|
    requires |Names(pool) - Names(seed.certified)| <= (HISTORY_RUNS + 1) * picks
    requires Lived(PlannerOf(pool, seed, picks), es) && name in Names(pool)
    ensures NeverPickedAgain(PlannerOf(pool, seed, picks), es, name) <==> name in Names(seed.certified)
  {
    if name in Names(seed.certified) {
      SeededNeverAgain(pool, seed, picks, es, name);
    } else {
      PoolIsServed(pool, seed, picks, es, name);
      QueueIsServed(PlannerOf(pool, seed, picks), pool, seed, picks, Names(pool), es, name);
    }
  }

  // ---- the pool's order as the queue ---------------------------------------------------------------

  /** The blueprints of the pool up to the p-th that the seed does not certify. */
  function UpTo(pool: seq<string>, p: nat): set<string>
    requires p < |pool|
  {
    Names(pool[..p]) + {pool[p]}
  }

  /** Where a never-built blueprint stands among the fresh. */
  lemma FreshPlace(pool: seq<string>, s: State, p: nat)
    requires p < |pool| && pool[p] !in Names(s.tried) + s.certified
    ensures var before := Drop(pool[..p], Names(s.tried) + s.certified);
            |before| < |Fresh(pool, s)| && Fresh(pool, s)[..|before|] == before && Fresh(pool, s)[|before|] == pool[p]
  {
    var bad := Names(s.tried) + s.certified;
    var before, after := Drop(pool[..p], bad), Drop(pool[p + 1..], bad);
    assert pool[..p + 1][..p] == pool[..p];
    assert Drop(pool[..p + 1], bad) == before + [pool[p]];
    DropConcat(pool[..p + 1], pool[p + 1..], bad);
    assert pool == pool[..p + 1] + pool[p + 1..];
  }

  /** It is picked only if fewer fresh ones come before it than there are slots. */
  lemma PickedPlace(pool: seq<string>, s: State, picks: nat, p: nat)
    requires Distinct(pool) && Consistent(s) && InPool(pool, s) && 1 <= picks <= |pool|
    requires p < |pool| && pool[p] !in Names(s.tried) + s.certified
    requires Select(pool, s, picks).Ok? && pool[p] in Select(pool, s, picks).value
    ensures |Drop(pool[..p], Names(s.tried) + s.certified)| < picks
  {
    var failing, untried := s.failing, Fresh(pool, s);
    FreshPlace(pool, s, p);
    Candidates(pool, s);
    ChosenForm(failing, untried, picks);
    var d := |Drop(pool[..p], Names(s.tried) + s.certified)|;
    assert pool[p] !in failing by {
      assert pool[p] !in Names(failing);
    }
    NotBefore(untried, d, Min(|untried|, picks - |Repeats(failing, picks)|));
  }

  /** In a list without repetition a name is only where it is. */
  lemma NotBefore(s: seq<string>, d: nat, f: nat)
    requires Distinct(s) && d < |s| && f <= |s|
    ensures s[d] in s[..f] <==> d < f
  {
    if d < f {
      assert s[..f][d] == s[d];
    }
  }

  /** With nothing failing the picks are the first of the fresh. */
  lemma FreshInOrder(pool: seq<string>, s: State, picks: nat, p: nat)
    requires Distinct(pool) && Consistent(s) && InPool(pool, s) && 1 <= picks <= |pool| && s.failing == []
    requires p < |pool| && pool[p] !in Names(s.tried) + s.certified
    ensures Serves(Select(pool, s, picks), pool, UpTo(pool, p) - s.certified, picks, pool[p])
  {
    var untried, before := Fresh(pool, s), Drop(pool[..p], Names(s.tried) + s.certified);
    PicksAreSound(pool, s, picks);
    FreshPlace(pool, s, p);
    Candidates(pool, s);
    ChosenForm([], untried, picks);
    var f := Min(|untried|, picks);
    assert Select(pool, s, picks).value == untried[..f];
    NotBefore(untried, |before|, f);
    if |before| >= f {
      DropNames(pool[..p], Names(s.tried) + s.certified);
      assert untried[..f] == before[..f];
      forall x | x in untried[..f] ensures x in UpTo(pool, p) - s.certified {
        assert x in Names(before);
      }
    }
  }

  lemma OrderServed(pool: seq<string>, seed: Seed, picks: nat, recent: seq<Entry>, es: seq<Entry>, p: nat)
    requires Distinct(pool) && SeedInPool(pool, seed) && Settled(seed) && 1 <= picks <= |pool| && p < |pool|
    requires |recent| <= HISTORY_RUNS && AllPass(pool, recent) && pool[p] !in Known(seed, recent)
    ensures Serves(Planned(pool, SoFar(recent, es), seed, picks), pool, UpTo(pool, p) - Known(seed, recent),
                   picks, pool[p])
  {
    var s := PassesPlanned(pool, seed, picks, recent, es);
    FreshInOrder(pool, s, picks, p);
  }

  lemma OrderIsServed(pool: seq<string>, seed: Seed, picks: nat, es: seq<Entry>, p: nat)
    requires Distinct(pool) && SeedInPool(pool, seed) && Settled(seed) && 1 <= picks <= |pool| && p < |pool|
    ensures ServesQueue(PlannerOf(pool, seed, picks), pool, seed, picks, UpTo(pool, p), pool[p], es)
  {
    forall recent | |recent| <= HISTORY_RUNS && AllPass(pool, recent) && pool[p] !in Known(seed, recent)
      ensures Serves(PlannerOf(pool, seed, picks)(SoFar(recent, es)), pool, UpTo(pool, p) - Known(seed, recent),
                     picks, pool[p])
    {
      OrderServed(pool, seed, picks, recent, es, p);
    }
  }

  /** What stands before the p-th blueprint, in a window that never picked it: either fresh,
      or picked by one of the reports. */
  lemma {:induction false} AheadOf(pool: seq<string>, seed: Seed, w: seq<Entry>, p: nat)
    requires p < |pool| && Settled(seed)
    ensures var bad := Names(StateOf(w, seed).tried) + StateOf(w, seed).certified;
            |Names(pool[..p]) - Names(seed.certified)| <= |Drop(pool[..p], bad)| + |PickedIn(w)|
  {
    var bad := Names(StateOf(w, seed).tried) + StateOf(w, seed).certified;
    var before := Drop(pool[..p], bad);
    StateFromPicks(w, seed);
    DropNames(pool[..p], bad);
    NamesSize(before);
    UnionSize(Names(before), PickedIn(w));
    Subset(Names(pool[..p]) - Names(seed.certified), Names(before) + PickedIn(w));
  }

  lemma {:induction false} PartPicked(part: seq<Entry>, es: seq<Entry>)
    requires |part| <= |es| && part == es[..|part|]
    ensures PickedIn(part) <= PickedIn(es)
  {
    forall x | x in PickedIn(part) ensures x in PickedIn(es) {
      PickedSomewhere(part, x);
      var i :| 0 <= i < |part| && x in PicksOf(part[i]);
      PickedAt(es, i);
      assert x in Names(PicksOf(es[i]));
    }
  }

  lemma {:induction false} FewPicksIn(pool: seq<string>, seed: Seed, picks: nat, es: seq<Entry>, w: seq<Entry>)
    requires Distinct(pool) && Lived(PlannerOf(pool, seed, picks), es) && |w| <= |es| && w == es[..|w|]
    ensures |PickedIn(w)| <= |w| * picks
  {
    forall i | 0 <= i < |w| ensures |PicksOf(w[i])| <= picks {
      FewPicks(pool, seed, picks, es, i);
    }
    PickedSize(w, picks);
  }

  lemma Times(a: nat, b: nat, k: nat)
    requires a <= b
    ensures a * k <= b * k
  {
  }

  lemma {:induction false} WindowPicked(pool: seq<string>, seed: Seed, picks: nat, es: seq<Entry>)
    requires Distinct(pool) && Lived(PlannerOf(pool, seed, picks), es)
    ensures |PickedIn(Window(es))| <= HISTORY_RUNS * picks && PickedIn(Window(es)) <= PickedIn(es)
  {
    var w := Window(es);
    FewPicksIn(pool, seed, picks, es, w);
    Times(|w|, HISTORY_RUNS, picks);
    PartPicked(w, es);
  }

  /** The next cycle does not get so far. */
  lemma {:induction false} NotReached(pool: seq<string>, seed: Seed, picks: nat, e: Entry, es: seq<Entry>, p: nat)
    requires Distinct(pool) && Settled(seed) && p < |pool| && pool[p] !in Names(seed.certified)
    requires |Names(pool[..p]) - Names(seed.certified)| >= (HISTORY_RUNS + 1) * picks
    requires Lived(PlannerOf(pool, seed, picks), es) && AsPlanned(PlannerOf(pool, seed, picks), e, es)
    requires pool[p] !in PickedIn(es)
    ensures pool[p] !in PicksOf(e)
  {
    var w := Window(es);
    WindowPicked(pool, seed, picks, es);
    assert (HISTORY_RUNS + 1) * picks == HISTORY_RUNS * picks + picks;
    if pool[p] in PicksOf(e) {
      PicksPlanned(pool, seed, picks, e, es);
      StateFromPicks(w, seed);
      PickedPlace(pool, StateOf(w, seed), picks, p);
      AheadOf(pool, seed, w, p);
    }
  }

  /** A blueprint with so many ahead of it is never picked at all. */
  lemma {:induction false} NeverReached(pool: seq<string>, seed: Seed, picks: nat, es: seq<Entry>, p: nat)
    requires Distinct(pool) && Settled(seed) && p < |pool| && pool[p] !in Names(seed.certified)
    requires |Names(pool[..p]) - Names(seed.certified)| >= (HISTORY_RUNS + 1) * picks
    requires Lived(PlannerOf(pool, seed, picks), es)
    ensures pool[p] !in PickedIn(es)
    decreases |es|
  {
    if es != [] {
      NeverReached(pool, seed, picks, es[1..], p);
      NotReached(pool, seed, picks, es[0], es[1..], p);
      assert pool[p] !in Names(PicksOf(es[0]));
    }
  }

  lemma {:induction false} NeverReachedAgain(pool: seq<string>, seed: Seed, picks: nat, es: seq<Entry>, p: nat)
    requires Distinct(pool) && Settled(seed) && p < |pool| && pool[p] !in Names(seed.certified)
    requires |Names(pool[..p]) - Names(seed.certified)| >= (HISTORY_RUNS + 1) * picks
    ensures NeverPickedAgain(PlannerOf(pool, seed, picks), es, pool[p])
  {
    forall future: seq<Entry> | Lived(PlannerOf(pool, seed, picks), future + es) && future != []
      ensures pool[p] !in PicksOf(future[0])
    {
      NeverReached(pool, seed, picks, future + es, p);
      PickedAt(future + es, 0);
      assert pool[p] !in Names(PicksOf(future[0]));
    }
  }

  lemma QueueSize(pool: seq<string>, seed: Seed, p: nat)
    requires Distinct(pool) && p < |pool| && pool[p] !in Names(seed.certified)
    ensures |UpTo(pool, p) - Names(seed.certified)| == |Names(pool[..p]) - Names(seed.certified)| + 1
  {
    assert pool[p] !in Names(pool[..p]);
    assert UpTo(pool, p) - Names(seed.certified) == (Names(pool[..p]) - Names(seed.certified)) + {pool[p]};
  }

  /** In a pool of any size, with a seed that leaves no failure of its own: a blueprint is out
      of the rotation for good exactly when the seed certifies it, or when as many blueprints
      that the seed does not certify stand before it in the pool as thirty-one cycles pick. */
  lemma {:induction false} ReachedExactly(pool: seq<string>, seed: Seed, picks: nat, es: seq<Entry>, p: nat)
    requires Distinct(pool) && SeedInPool(pool, seed) && Settled(seed) && 1 <= picks <= |pool| && p < |pool|
    requires Lived(PlannerOf(pool, seed, picks), es)
    ensures NeverPickedAgain(PlannerOf(pool, seed, picks), es, pool[p])
            <==> pool[p] in Names(seed.certified)
                 || |Names(pool[..p]) - Names(seed.certified)| >= (HISTORY_RUNS + 1) * picks
  {
    if pool[p] in Names(seed.certified) {
      SeededNeverAgain(pool, seed, picks, es, pool[p]);
    } else if |Names(pool[..p]) - Names(seed.certified)| >= (HISTORY_RUNS + 1) * picks {
      NeverReachedAgain(pool, seed, picks, es, p);
    } else {
      QueueSize(pool, seed, p);
      OrderIsServed(pool, seed, picks, es, p);
      QueueIsServed(PlannerOf(pool, seed, picks), pool, seed, picks, UpTo(pool, p), es, pool[p]);
    }
  }

  // ---- an ordinary input -----------------------------------------------------------------------------

  const NO_SEED := Seed([], [], [])

  /** One cycle that certified the name, and `n` after it that had nothing to pick. */
  function Idle(name: string, n: nat): seq<Entry> { seq(n, i => Passed([])) + [Passed([name])] }

  /** A pool of one blueprint: it certifies, thirty cycles find nothing left to pick, and
      then the next cycle builds it again. */
  lemma PickedAgain(name: string)
    ensures Lived(PlannerOf([name], NO_SEED, 1), Idle(name, HISTORY_RUNS))
    ensures name in StateOf(Idle(name, HISTORY_RUNS), NO_SEED).certified
    ensures Planned([name], Idle(name, HISTORY_RUNS), NO_SEED, 1) == Ok([name])
  {
    IdlePlans(name);
    IdleLives(PlannerOf([name], NO_SEED, 1), name, HISTORY_RUNS);
    IdleState(name, HISTORY_RUNS);
    LastIdle(name);
  }

  lemma LastIdle(name: string)
    ensures Planned([name], Idle(name, HISTORY_RUNS), NO_SEED, 1) == Ok([name])
  {
    var es := Idle(name, HISTORY_RUNS);
    var w := Window(es);
    EmptyState(w);
    PlannedFrom([name], es, NO_SEED, 1, w);
    RotationConsistent(w, NO_SEED);
    OnlyOne(name, StateOf(w, NO_SEED));
  }

  lemma IdlePlans(name: string)
    ensures PlannerOf([name], NO_SEED, 1)([]) == Ok([name])
    ensures forall n :: 0 <= n < HISTORY_RUNS ==> PlannerOf([name], NO_SEED, 1)(Idle(name, n)) == Ok([])
  {
    FirstIdle(name);
    forall n | 0 <= n < HISTORY_RUNS ensures PlannerOf([name], NO_SEED, 1)(Idle(name, n)) == Ok([]) {
      NextIdle(name, n);
    }
  }

  lemma {:induction false} IdleLives(plan: Planner, name: string, n: nat)
    requires plan([]) == Ok([name]) && forall k :: 0 <= k < n ==> plan(Idle(name, k)) == Ok([])
    ensures Lived(plan, Idle(name, n))
  {
    if n == 0 {
      LivedOn(plan, Passed([name]), [], Idle(name, 0));
    } else {
      IdleLives(plan, name, n - 1);
      assert Idle(name, n) == [Passed([])] + Idle(name, n - 1);
      LivedOn(plan, Passed([]), Idle(name, n - 1), Idle(name, n));
    }
  }

  lemma FirstIdle(name: string)
    ensures Planned([name], [], NO_SEED, 1) == Ok([name])
  {
    EmptyState([]);
    RotationConsistent([], NO_SEED);
    OnlyOne(name, StateOf([], NO_SEED));
  }

  lemma NextIdle(name: string, n: nat)
    requires n < HISTORY_RUNS
    ensures Planned([name], Idle(name, n), NO_SEED, 1) == Ok([])
  {
    AllReadable(Idle(name, n));
    PlannedFrom([name], Idle(name, n), NO_SEED, 1, Idle(name, n));
    IdleState(name, n);
    RotationConsistent(Idle(name, n), NO_SEED);
    NothingLeft(name, StateOf(Idle(name, n), NO_SEED));
  }

  lemma PassedParts(names: seq<string>)
    ensures PicksOf(Passed(names)) == names && Certs(Passed(names)) == names
  {
    AllPassed(names, names);
  }

  /** A cycle that certifies all its picks tries nothing else. */
  lemma OnePassState(e: Entry, names: seq<string>, es: seq<Entry>, seed: Seed)
    requires PicksOf(e) == names == Certs(e)
    ensures StateOf([e] + es, seed).certified == StateOf(es, seed).certified + Names(names)
    ensures Names(StateOf([e] + es, seed).tried) <= Names(StateOf(es, seed).tried) + Names(names)
  {
    NewerCertified(e, es, seed);
    OneMoreRun(e, es, seed);
  }

  /** A cycle with nothing to pick changes neither what was certified nor what was tried. */
  lemma EmptyCycle(es: seq<Entry>)
    ensures StateOf([Passed([])] + es, NO_SEED).certified == StateOf(es, NO_SEED).certified
    ensures Names(StateOf([Passed([])] + es, NO_SEED).tried) == Names(StateOf(es, NO_SEED).tried)
  {
    PassedParts([]);
    OnePassState(Passed([]), [], es, NO_SEED);
    OneMoreKeeps(Passed([]), es, NO_SEED);
  }

  lemma NothingYet()
    ensures StateOf([], NO_SEED).certified == {} && Names(StateOf([], NO_SEED).tried) == {}
  {
    TriedNames([], NO_SEED);
    assert AllCounts([], NO_SEED) == [] && AllCerts([]) == [];
  }

  /** Cycles with nothing to pick leave nothing in the state. */
  lemma {:induction false} EmptyState(es: seq<Entry>)
    requires forall i :: 0 <= i < |es| ==> es[i] == Passed([])
    ensures FirstError(es).Ok?
    ensures StateOf(es, NO_SEED).certified == {} && Names(StateOf(es, NO_SEED).tried) == {}
    decreases |es|
  {
    AllReadable(es);
    if es == [] {
      NothingYet();
    } else {
      EmptyState(es[1..]);
      assert es == [Passed([])] + es[1..];
      EmptyCycle(es[1..]);
    }
  }

  lemma FirstPass(name: string)
    ensures StateOf([Passed([name])], NO_SEED).certified == {name}
    ensures Names(StateOf([Passed([name])], NO_SEED).tried) <= {name}
  {
    NothingYet();
    PassedParts([name]);
    OnePassState(Passed([name]), [name], [], NO_SEED);
    assert [Passed([name])] + [] == [Passed([name])] && Names([name]) == {name};
  }

  lemma {:induction false} IdleState(name: string, n: nat)
    ensures StateOf(Idle(name, n), NO_SEED).certified == {name}
    ensures Names(StateOf(Idle(name, n), NO_SEED).tried) <= {name}
  {
    if n == 0 {
      FirstPass(name);
      assert Idle(name, 0) == [Passed([name])];
    } else {
      var m := n - 1;
      IdleState(name, m);
      assert Idle(name, n) == [Passed([])] + Idle(name, m);
      EmptyCycle(Idle(name, m));
    }
  }

  /** In a pool of one, an uncertified blueprint is the pick. */
  lemma OnlyOne(name: string, s: State)
    requires Consistent(s) && InPool([name], s) && s.certified == {}
    ensures Select([name], s, 1) == Ok([name])
  {
    var pool := [name];
    assert Names(pool) == {name} && name == pool[0];
    PickedOrFull(pool, s, 1, name);
    var chosen := Select(pool, s, 1).value;
    AtMostOne(pool, s);
    assert chosen[0] in Names(chosen);
    assert chosen == [chosen[0]];
  }

  lemma AtMostOne(pool: seq<string>, s: State)
    requires Distinct(pool) && Consistent(s) && InPool(pool, s) && pool != []
    ensures Select(pool, s, 1).Ok? && |Select(pool, s, 1).value| <= 1
    ensures Names(Select(pool, s, 1).value) <= Names(pool) - s.certified
  {
    PicksAreSound(pool, s, 1);
  }

  lemma NothingLeft(name: string, s: State)
    requires Consistent(s) && s.certified == {name} && Names(s.tried) <= {name}
    ensures Select([name], s, 1) == Ok([])
  {
    var pool := [name];
    assert Names(pool) == {name} && name == pool[0];
    AtMostOne(pool, s);
    NoNames(Select(pool, s, 1).value);
  }

  lemma NoNames(s: seq<string>)
    ensures s != [] ==> s[0] in Names(s)
  {
  }
}
