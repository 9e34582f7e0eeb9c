/** What the rotation comes to over many cycles, each planned from the newest completed
    runs alone (scripts/release_cycle.py:99, 184-277, 321-353, 701-724). */
module RotationRuns {
  import opened Common
  import opened NameLists
  import opened ReleaseRotation
  import opened RotationPicks

  const HISTORY_RUNS: nat := 30

  /** The completed runs that are read, newest first; one without a report counts too. */
  function Window(es: seq<Entry>): seq<Entry> { if |es| <= HISTORY_RUNS then es else es[..HISTORY_RUNS] }

  /** The picks of `plan_cycle` after these completed runs. */
  function Planned(pool: seq<string>, es: seq<Entry>, seed: Seed, picks: int): Result<seq<string>> {
    match Rotation(Window(es), seed)
    case Err(e) => Err(e)
    case Ok(s) => Select(pool, s, picks)
  }

  lemma {:induction false} PlannedFrom(pool: seq<string>, es: seq<Entry>, seed: Seed, picks: int, w: seq<Entry>)
    requires w == Window(es) && FirstError(w).Ok?
    ensures Planned(pool, es, seed, picks) == Select(pool, StateOf(w, seed), picks)
  {
  }

  method PlanCycle(pool: seq<string>, es: seq<Entry>, seed: Seed, picks: int) returns (r: Result<seq<string>>)
    ensures r == Planned(pool, es, seed, picks)
  {
    var state := RotationState(Window(es), seed);
    if state.Err? {
      return Err(state.error);
    }
    r := SelectRotation(pool, state.value, picks);
  }

  /** How picks follow from the completed runs. */
  type Planner = seq<Entry> -> Result<seq<string>>

  function PlannerOf(pool: seq<string>, seed: Seed, picks: int): Planner { es => Planned(pool, es, seed, picks) }

  /** A cycle after these runs reports the picks that were planned from them. */
  ghost predicate AsPlanned(plan: Planner, e: Entry, before: seq<Entry>) {
    e.Record? && e.rotation.Picks? ==> plan(before) == Ok(PicksOf(e))
  }

  /** Every report of the history, newest first, names the picks that were planned from the
      runs before it. Runs without a report, voided cycles and what each build came to are
      left open. */
  ghost predicate Lived(plan: Planner, es: seq<Entry>)
    decreases |es|
  {
    es != [] ==> AsPlanned(plan, es[0], es[1..]) && Lived(plan, es[1..])
  }

  lemma {:induction false} LivedSuffix(plan: Planner, es: seq<Entry>, k: nat)
    requires k <= |es| && Lived(plan, es)
    ensures Lived(plan, es[k..])
    decreases k
  {
    if k == 0 {
      assert es[0..] == es;
    } else {
      LivedSuffix(plan, es[1..], k - 1);
      assert es[1..][k - 1..] == es[k..];
    }
  }

  lemma {:induction false} LivedOn(plan: Planner, e: Entry, es: seq<Entry>, all: seq<Entry>)
    requires all == [e] + es && Lived(plan, es) && AsPlanned(plan, e, es)
    ensures Lived(plan, all)
  {
    assert all[1..] == es;
  }

  lemma {:induction false} AllReadable(es: seq<Entry>)
    requires forall i :: 0 <= i < |es| ==> Unreadable(es[i]).Ok?
    ensures FirstError(es).Ok?
  {
    if es != [] {
      AllReadable(es[..|es| - 1]);
    }
  }

  // ---- one step -------------------------------------------------------------------------

  ghost predicate InPool(pool: seq<string>, s: State) { s.certified + Names(s.tried) <= Names(pool) }

  function FreshSet(pool: seq<string>, s: State): set<string> { Names(pool) - Names(s.tried) - s.certified }

  /** A cycle with picks that its report leaves standing. */
  predicate Judged(e: Entry, seed: Seed) { e.Record? && e.rotation.Picks? && !Voided(e, seed) }

  /** A cycle with these picks leads from one state to the next. */
  ghost predicate Follows(s: State, names: seq<string>, s': State) {
    && Names(s.tried) <= Names(s'.tried) <= Names(s.tried) + Names(names)
    && s.certified <= s'.certified <= s.certified + Names(names)
  }

  lemma OneMoreRun(e: Entry, es: seq<Entry>, seed: Seed)
    ensures Follows(StateOf(es, seed), PicksOf(e), StateOf([e] + es, seed))
    ensures Judged(e, seed) ==> Names(PicksOf(e)) <= Names(StateOf([e] + es, seed).tried)
  {
    NewerCertified(e, es, seed);
    NewerTried(e, es, seed);
    CountedArePicks(e, seed, PicksOf(e));
    CountedSplit(e, seed, PicksOf(e));
    if !Voided(e, seed) {
      UnvoidedCountsAll(e, seed, PicksOf(e));
    }
  }

  ghost predicate AtMost(s: State, s': State) {
    Names(s.tried) <= Names(s'.tried) && s.certified <= s'.certified
  }

  lemma OneMoreKeeps(e: Entry, es: seq<Entry>, seed: Seed)
    ensures AtMost(StateOf(es, seed), StateOf([e] + es, seed))
  {
    OneMoreRun(e, es, seed);
  }

  /** Newer runs only ever add to what was tried and certified. */
  lemma {:induction false} NewerKeeps(es: seq<Entry>, seed: Seed, k: nat)
    requires k <= |es|
    ensures AtMost(StateOf(es[k..], seed), StateOf(es, seed))
  {
    if k == 0 {
      assert es[0..] == es;
    } else {
      NewerKeeps(es[1..], seed, k - 1);
      assert es[1..][k - 1..] == es[k..] && [es[0]] + es[1..] == es;
      OneMoreKeeps(es[0], es[1..], seed);
    }
  }

  lemma SelectedFromPool(pool: seq<string>, s: State, picks: int, names: seq<string>)
    requires Select(pool, s, picks) == Ok(names)
    ensures InPool(pool, s) && 1 <= picks <= |pool| && Names(names) <= Names(pool)
  {
  }

  /** One judged cycle with two slots or more shrinks what was never built, while there is
      any; no cycle adds to it. */
  lemma CycleProgress(pool: seq<string>, picks: nat, s: State, names: seq<string>, s': State, judged: bool)
    requires Distinct(pool) && 2 <= picks && Follows(s, names, s')
    requires judged ==> Consistent(s) && Select(pool, s, picks) == Ok(names) && Names(names) <= Names(s'.tried)
    ensures FreshSet(pool, s') <= FreshSet(pool, s)
    ensures judged && FreshSet(pool, s) != {} ==> |FreshSet(pool, s')| < |FreshSet(pool, s)|
  {
    if judged && FreshSet(pool, s) != {} {
      SelectedFromPool(pool, s, picks, names);
      Candidates(pool, s);
      FreshPickedExactly(pool, s, picks);
      assert Fresh(pool, s) != [] by {
        var x :| x in FreshSet(pool, s);
        assert x in Names(Fresh(pool, s));
      }
      var x :| x in names && x in Fresh(pool, s);
      assert x in Names(Fresh(pool, s)) && x in Names(names);
      Subset(FreshSet(pool, s'), FreshSet(pool, s) - {x});
    }
  }

  // ---- progress ---------------------------------------------------------------------------

  function JudgedCycles(es: seq<Entry>, seed: Seed): nat {
    if es == [] then 0 else JudgedCycles(es[1..], seed) + if Judged(es[0], seed) then 1 else 0
  }

  function NeverBuilt(pool: seq<string>, es: seq<Entry>, seed: Seed): set<string> { FreshSet(pool, StateOf(es, seed)) }

  /** The newest of a history that is still read in full. */
  lemma NewestRun(pool: seq<string>, seed: Seed, picks: nat, es: seq<Entry>)
    requires Distinct(pool) && 2 <= picks && 0 < |es| <= HISTORY_RUNS
    requires AsPlanned(PlannerOf(pool, seed, picks), es[0], es[1..])
    ensures NeverBuilt(pool, es, seed) <= NeverBuilt(pool, es[1..], seed)
    ensures Judged(es[0], seed) && NeverBuilt(pool, es[1..], seed) != {}
            ==> |NeverBuilt(pool, es, seed)| < |NeverBuilt(pool, es[1..], seed)|
  {
    var e, older := es[0], es[1..];
    assert es == [e] + older;
    OneMoreRun(e, older, seed);
    RotationConsistent(older, seed);
    CycleProgress(pool, picks, StateOf(older, seed), PicksOf(e), StateOf(es, seed), Judged(e, seed));
  }

  /** Progress over whole runs: with two slots or more, and while all runs so far are still
      read, every judged cycle took at least one blueprint off the never-built ones. */
  lemma {:induction false} RotationProgress(pool: seq<string>, seed: Seed, picks: nat, es: seq<Entry>)
    requires Distinct(pool) && 2 <= picks && Lived(PlannerOf(pool, seed, picks), es) && |es| <= HISTORY_RUNS
    ensures NeverBuilt(pool, es, seed) == {} || |NeverBuilt(pool, es, seed)| + JudgedCycles(es, seed) <= |pool|
    decreases |es|
  {
    if es == [] {
      DistinctSize(pool);
      Subset(NeverBuilt(pool, es, seed), Names(pool));
    } else {
      NewestRun(pool, seed, picks, es);
      RotationProgress(pool, seed, picks, es[1..]);
      Subset(NeverBuilt(pool, es, seed), NeverBuilt(pool, es[1..], seed));
    }
  }

  /** Once, among the oldest runs that one window can hold, there were as many judged cycles
      as the pool has blueprints, every one has been built. */
  lemma {:induction false} AllTriedInTime(pool: seq<string>, seed: Seed, picks: nat, es: seq<Entry>, n: nat)
    requires Distinct(pool) && 2 <= picks && n <= |es| && n <= HISTORY_RUNS
    requires Lived(PlannerOf(pool, seed, picks), es) && JudgedCycles(es[|es| - n..], seed) >= |pool|
    ensures Names(pool) <= Names(StateOf(es, seed).tried) + StateOf(es, seed).certified
  {
    LivedSuffix(PlannerOf(pool, seed, picks), es, |es| - n);
    NewerKeeps(es, seed, |es| - n);
    AllTriedSince(pool, seed, picks, es[|es| - n..], StateOf(es, seed));
  }

  lemma {:induction false} AllTriedSince(pool: seq<string>, seed: Seed, picks: nat, oldest: seq<Entry>, s: State)
    requires Distinct(pool) && 2 <= picks && |oldest| <= HISTORY_RUNS
    requires Lived(PlannerOf(pool, seed, picks), oldest) && JudgedCycles(oldest, seed) >= |pool|
    requires AtMost(StateOf(oldest, seed), s)
    ensures Names(pool) <= Names(s.tried) + s.certified
  {
    RotationProgress(pool, seed, picks, oldest);
    NoneFresh(pool, StateOf(oldest, seed), s, JudgedCycles(oldest, seed));
  }

  lemma NoneFresh(pool: seq<string>, s: State, s': State, n: nat)
    requires n >= |pool| && (FreshSet(pool, s) == {} || |FreshSet(pool, s)| + n <= |pool|)
    requires Names(s.tried) <= Names(s'.tried) && s.certified <= s'.certified
    ensures Names(pool) <= Names(s'.tried) + s'.certified
  {
    forall x | x in Names(pool) ensures x in Names(s.tried) + s.certified {
      if x in FreshSet(pool, s) {
        Subset({x}, FreshSet(pool, s));
      }
    }
  }

  // ---- certifications, while they are remembered ----------------------------------------------

  /** The seed certifies the name, or a report that is still read does. */
  predicate Remembered(es: seq<Entry>, seed: Seed, name: string) {
    name in Names(seed.certified) || exists k :: 0 <= k < |Window(es)| && name in Certs(Window(es)[k])
  }

  lemma RememberedIsCertified(es: seq<Entry>, seed: Seed, name: string)
    ensures Remembered(es, seed, name) <==> name in StateOf(Window(es), seed).certified
  {
    var lists := CertLists(Window(es));
    FlattenFrom(lists, name);
    if k :| 0 <= k < |Window(es)| && name in Certs(Window(es)[k]) {
      FlattenMember(lists, k, name);
    }
    if name in Names(AllCerts(Window(es))) {
      var k :| 0 <= k < |lists| && name in lists[k];
      assert name in Certs(Window(es)[k]);
    }
  }

  /** A certification stands, a voided cycle's too, and the name is not picked while the
      seed or a report in the window remembers it. */
  lemma CertifiedNeverPicked(pool: seq<string>, seed: Seed, picks: int, es: seq<Entry>, names: seq<string>,
                             name: string)
    requires Distinct(pool) && Planned(pool, es, seed, picks) == Ok(names) && Remembered(es, seed, name)
    ensures name !in names
  {
    var s := StateOf(Window(es), seed);
    RememberedIsCertified(es, seed, name);
    RotationConsistent(Window(es), seed);
    SelectedFromPool(pool, s, picks, names);
    PicksAreSound(pool, s, picks);
    assert name in names ==> name in Names(names);
  }

  lemma BothSizes(a: seq<string>, b: seq<string>)
    requires Distinct(a) && Distinct(b) && Names(a) !! Names(b)
    ensures |Names(a) + Names(b)| == |a| + |b|
  {
    DistinctSize(a);
    DistinctSize(b);
  }

  /** Failing and fresh together are what is not certified, each name once. */
  lemma UncertifiedSize(pool: seq<string>, s: State)
    requires Consistent(s) && Distinct(pool) && InPool(pool, s)
    ensures |Names(pool) - s.certified| == |s.failing| + |Fresh(pool, s)| <= |pool|
  {
    Candidates(pool, s);
    BothSizes(s.failing, Fresh(pool, s));
    assert Names(s.failing) + Names(Fresh(pool, s)) == Names(pool) - s.certified;
    DistinctSize(pool);
    Subset(Names(pool) - s.certified, Names(pool));
  }

  /** With a slot for each, everything in the pool that is not certified is picked. */
  lemma AllSlotsPickAll(pool: seq<string>, s: State, name: string)
    requires Consistent(s) && Distinct(pool) && pool != [] && InPool(pool, s)
    requires name in Names(pool) && name !in s.certified
    ensures Select(pool, s, |pool|).Ok? && name in Select(pool, s, |pool|).value
  {
    PicksAreSound(pool, s, |pool|);
    UncertifiedSize(pool, s);
    var chosen := Select(pool, s, |pool|).value;
    DistinctSize(chosen);
    SameSize(Names(chosen), Names(pool) - s.certified);
    assert name in Names(chosen);
  }

  /** Whether the next cycle may pick a name, in some pool and with some number of slots:
      exactly when neither the seed nor a report in the window certifies it. */
  lemma NextPickExactly(es: seq<Entry>, seed: Seed, name: string)
    requires FirstError(Window(es)).Ok?
    ensures !Remembered(es, seed, name) <==>
            exists pool, picks, names ::
              Distinct(pool) && Planned(pool, es, seed, picks) == Ok(names) && name in names
  {
    if pool, picks, names :| Distinct(pool) && Planned(pool, es, seed, picks) == Ok(names) && name in names {
      if Remembered(es, seed, name) {
        CertifiedNeverPicked(pool, seed, picks, es, names, name);
      }
    }
    if !Remembered(es, seed, name) {
      var s := StateOf(Window(es), seed);
      var certified := seed.certified + AllCerts(Window(es));
      var all := certified + (s.tried + [name]);
      var pool := Dedup(all);
      DedupNames(all);
      NamesConcat(seed.certified, AllCerts(Window(es)));
      NamesConcat(certified, s.tried + [name]);
      NamesAppend(s.tried, name);
      assert name in Names(pool);
      RotationConsistent(Window(es), seed);
      RememberedIsCertified(es, seed, name);
      AllSlotsPickAll(pool, s, name);
      var names := Select(pool, s, |pool|).value;
      assert Planned(pool, es, seed, |pool|) == Ok(names) && name in names;
    }
  }

  // ---- what a stretch of cycles picked ---------------------------------------------------------

  /** Everything that these cycles picked. */
  function PickedIn(es: seq<Entry>): set<string> {
    if es == [] then {} else Names(PicksOf(es[0])) + PickedIn(es[1..])
  }

  lemma {:induction false} PickedAt(es: seq<Entry>, i: nat)
    requires i < |es|
    ensures Names(PicksOf(es[i])) <= PickedIn(es)
    decreases i
  {
    if i > 0 {
      PickedAt(es[1..], i - 1);
    }
  }

  lemma {:induction false} PickedSomewhere(es: seq<Entry>, x: string)
    requires x in PickedIn(es)
    ensures exists i :: 0 <= i < |es| && x in PicksOf(es[i])
    decreases |es|
  {
    if x !in Names(PicksOf(es[0])) {
      PickedSomewhere(es[1..], x);
      var i :| 0 <= i < |es[1..]| && x in PicksOf(es[1..][i]);
      assert es[i + 1] == es[1..][i];
    }
  }

  lemma {:induction false} NamesSize(s: seq<string>)
    ensures |Names(s)| <= |s|
  {
    if s != [] {
      NamesSize(s[..|s| - 1]);
      NamesFront(s);
    }
  }

  lemma UnionSize<T>(a: set<T>, b: set<T>)
    ensures |a + b| <= |a| + |b|
  {
    Subset(b - a, b);
    assert a + b == a + (b - a);
  }

  lemma OneMoreLoad(a: set<string>, b: set<string>, n: nat, picks: nat)
    requires |a| <= picks && |b| <= n * picks
    ensures |a + b| <= (n + 1) * picks
  {
    UnionSize(a, b);
    assert (n + 1) * picks == n * picks + picks;
  }

  lemma {:induction false} PickedSize(es: seq<Entry>, picks: nat)
    requires forall i :: 0 <= i < |es| ==> |PicksOf(es[i])| <= picks
    ensures |PickedIn(es)| <= |es| * picks
    decreases |es|
  {
    if es != [] {
      PickedSize(es[1..], picks);
      NamesSize(PicksOf(es[0]));
      OneMoreLoad(Names(PicksOf(es[0])), PickedIn(es[1..]), |es| - 1, picks);
    }
  }

  /** Only the seed and the picks make up a state. */
  lemma {:induction false} StateFromPicks(es: seq<Entry>, seed: Seed)
    ensures Names(StateOf(es, seed).tried) <= Names(seed.tried) + PickedIn(es)
    ensures StateOf(es, seed).certified <= Names(seed.certified) + PickedIn(es)
    decreases |es|
  {
    if es == [] {
      TriedNames([], seed);
      assert AllCounts([], seed) == [] && AllCerts([]) == [];
    } else {
      assert es == [es[0]] + es[1..];
      StateFromPicks(es[1..], seed);
      OneMoreRun(es[0], es[1..], seed);
    }
  }

  /** What a judged cycle picked counts as tried. */
  lemma {:induction false} JudgedIsTried(es: seq<Entry>, seed: Seed, i: nat)
    requires i < |es| && Judged(es[i], seed)
    ensures Names(PicksOf(es[i])) <= Names(StateOf(es, seed).tried)
  {
    NewerKeeps(es, seed, i);
    assert es[i..] == [es[i]] + es[i + 1..];
    OneMoreRun(es[i], es[i + 1..], seed);
  }

  /** The picks of a reported cycle, as they were planned. */
  lemma {:induction false} PicksPlanned(pool: seq<string>, seed: Seed, picks: int, e: Entry, es: seq<Entry>)
    requires Distinct(pool) && AsPlanned(PlannerOf(pool, seed, picks), e, es) && e.Record? && e.rotation.Picks?
    ensures var s := StateOf(Window(es), seed);
            && Consistent(s) && InPool(pool, s) && 1 <= picks <= |pool| && Select(pool, s, picks) == Ok(PicksOf(e))
            && Distinct(PicksOf(e)) && |PicksOf(e)| <= picks && Names(PicksOf(e)) <= Names(pool) - s.certified
  {
    var s := StateOf(Window(es), seed);
    RotationConsistent(Window(es), seed);
    SelectedFromPool(pool, s, picks, PicksOf(e));
    PicksAreSound(pool, s, picks);
  }

  lemma {:induction false} FewPicks(pool: seq<string>, seed: Seed, picks: nat, es: seq<Entry>, i: nat)
    requires Distinct(pool) && Lived(PlannerOf(pool, seed, picks), es) && i < |es|
    ensures |PicksOf(es[i])| <= picks
  {
    LivedSuffix(PlannerOf(pool, seed, picks), es, i);
    if es[i].Record? && es[i].rotation.Picks? {
      assert es[i..][1..] == es[i + 1..];
      PicksPlanned(pool, seed, picks, es[i], es[i + 1..]);
    }
  }

  /** A name of the pool that is not certified is picked, or else every slot is taken. */
  lemma PickedOrFull(pool: seq<string>, s: State, picks: nat, name: string)
    requires Distinct(pool) && Consistent(s) && InPool(pool, s) && 1 <= picks <= |pool|
    requires name in Names(pool) - s.certified
    ensures Select(pool, s, picks).Ok? && Names(Select(pool, s, picks).value) <= Names(pool) - s.certified
    ensures var names := Select(pool, s, picks).value; name in names || (Distinct(names) && |names| == picks)
  {
    PicksAreSound(pool, s, picks);
    UncertifiedSize(pool, s);
    var names := Select(pool, s, picks).value;
    if |names| != picks {
      DistinctSize(names);
      SameSize(Names(names), Names(pool) - s.certified);
      assert name in Names(names);
    }
  }
}
