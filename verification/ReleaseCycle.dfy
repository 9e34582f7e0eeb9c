/** From picks to a reported cycle: planned runs, one account each, one report
    (scripts/release_cycle.py:369-387, 433-451, 597-642, 701-724). */
module ReleaseCycle {
  import opened Common
  import opened NameLists
  import opened ReleaseRotation
  import opened RotationPicks
  import opened RotationRuns

  datatype Role = Anchor | RotationPick
  datatype PlannedRun = PlannedRun(name: string, role: Role)
  datatype CycleError = NamesNotDistinct | RosterShort
  datatype Prepared<T> = Good(value: T) | Refused(why: CycleError)

  function RunNames(runs: seq<PlannedRun>): seq<string> { seq(|runs|, i requires 0 <= i < |runs| => runs[i].name) }

  function RunsOf(names: seq<string>, role: Role): seq<PlannedRun> {
    seq(|names|, i requires 0 <= i < |names| => PlannedRun(names[i], role))
  }

  predicate AllDistinct(s: seq<string>) { |Names(s)| == |s| }

  lemma DistinctAppend(front: seq<string>, last: string)
    ensures Distinct(front + [last]) <==> Distinct(front) && last !in front
  {
    var s := front + [last];
    assert forall i :: 0 <= i < |front| ==> s[i] == front[i];
    assert s[|front|] == last;
  }

  lemma NamesGrow(front: seq<string>, last: string)
    ensures |Names(front + [last])| == |Names(front)| + (if last in front then 0 else 1)
  {
    NamesAppend(front, last);
    if last in front {
      assert Names(front) + {last} == Names(front);
    }
  }

  /** Python's `len(names) == len(set(names))` says that the names are distinct. */
  lemma {:induction false} AllDistinctExactly(s: seq<string>)
    ensures |Names(s)| <= |s|
    ensures AllDistinct(s) <==> Distinct(s)
  {
    if s != [] {
      var front, last := s[..|s| - 1], s[|s| - 1];
      assert s == front + [last];
      AllDistinctExactly(front);
      DistinctAppend(front, last);
      NamesGrow(front, last);
    }
  }

  /** `plan_runs`: the anchors, then the picks, each a run of its own. */
  method PlanRuns(anchors: seq<string>, picked: seq<string>) returns (r: Prepared<seq<PlannedRun>>)
    ensures r.Good? <==> Distinct(anchors + picked)
    ensures r.Good? ==> r.value == RunsOf(anchors, Anchor) + RunsOf(picked, RotationPick)
    ensures r.Refused? ==> r.why == NamesNotDistinct
  {
    var runs := RunsOf(anchors, Anchor);
    var i := 0;
    while i < |picked|
      invariant 0 <= i <= |picked|
      invariant runs == RunsOf(anchors, Anchor) + RunsOf(picked[..i], RotationPick)
    {
      runs := runs + [PlannedRun(picked[i], RotationPick)];
      i := i + 1;
    }
    assert picked[..i] == picked;
    assert RunNames(runs) == anchors + picked;
    AllDistinctExactly(anchors + picked);
    if !AllDistinct(RunNames(runs)) {
      return Refused(NamesNotDistinct);
    }
    r := Good(runs);
  }

  const SMOKE_ACCOUNT_INDEX := 0

  /** `assign_accounts`: fails closed unless there is an account for every run and
      one for the smoke; then no two runs share one and none has the smoke's. */
  method AssignAccounts(names: seq<string>, available: int) returns (r: Prepared<map<string, int>>)
    ensures r.Good? <==> Distinct(names) && available > |names|
    ensures r.Good? ==> r.value.Keys == Names(names)
    ensures r.Good? ==> forall n :: n in r.value ==> SMOKE_ACCOUNT_INDEX < r.value[n] < available
    ensures r.Good? ==> forall j :: 0 <= j < |names| ==> names[j] in r.value && r.value[names[j]] == 1 + j
    ensures r.Refused? ==> r.why == if Distinct(names) then RosterShort else NamesNotDistinct
    ensures r.Good? ==> forall m, n :: m in r.value && n in r.value && m != n ==> r.value[m] != r.value[n]
  {
    AllDistinctExactly(names);
    if !AllDistinct(names) {
      return Refused(NamesNotDistinct);
    }
    var needed := |names| + 1;
    if available < needed {
      return Refused(RosterShort);
    }
    var repros: map<string, int> := map[];
    var i := 0;
    while i < |names|
      invariant 0 <= i <= |names|
      invariant Assigned(names, i, repros)
    {
      AssignedNext(names, i, repros);
      repros := repros[names[i] := SMOKE_ACCOUNT_INDEX + 1 + i];
      i := i + 1;
    }
    assert names[..i] == names;
    r := Good(repros);
  }

  /** The first n names have the accounts after the smoke's, in order. */
  ghost predicate Assigned(names: seq<string>, n: nat, repros: map<string, int>)
    requires n <= |names|
  {
    && repros.Keys == Names(names[..n])
    && forall j :: 0 <= j < n ==> names[j] in repros && repros[names[j]] == SMOKE_ACCOUNT_INDEX + 1 + j
  }

  lemma AssignedNext(names: seq<string>, n: nat, repros: map<string, int>)
    requires n < |names| && Distinct(names) && Assigned(names, n, repros)
    ensures Assigned(names, n + 1, repros[names[n] := SMOKE_ACCOUNT_INDEX + 1 + n])
  {
    NamesAppend(names[..n], names[n]);
    assert names[..n + 1] == names[..n] + [names[n]];
  }

  // ---- the report -------------------------------------------------------------

  function Failing(repros: map<string, Run>): set<string> { set n | n in repros && !ReproPassed(repros[n]) }

  /** Whether any reason against a pass was found. */
  predicate HasReasons(smokeA: Run, repros: map<string, Run>, smokeB: Run, commit: string, liveSha: Option<string>) {
    || smokeA.status != "pass" || smokeB.status != "pass" || repros == map[] || Failing(repros) != {}
    || commit == "" || liveSha != Some(commit)
  }

  /** `build_report`, as the next cycles' rotation reads it. */
  function BuildReport(smokeA: Run, repros: map<string, Run>, smokeB: Run, commit: string,
                       liveSha: Option<string>, rotation: PickList): Entry {
    Record(if HasReasons(smokeA, repros, smokeB, commit, liveSha) then "fail" else "pass", rotation,
           (map["smoke_a" := smokeA] + repros)["smoke_b" := smokeB], commit)
  }

  /** What `build_report` gives for some outcomes, or a run that uploaded no report. */
  ghost predicate OwnEntry(e: Entry) {
    || e == NoReport
    || exists smokeA, repros, smokeB, commit, liveSha, names ::
         e == BuildReport(smokeA, repros, smokeB, commit, liveSha, Picks(names))
  }

  /** The rotation can always read its own reports: a plan is refused only for its number of
      slots, or for a name outside the pool. */
  lemma OwnReportsAreRead(pool: seq<string>, es: seq<Entry>, seed: Seed, picks: int)
    requires forall i :: 0 <= i < |es| ==> OwnEntry(es[i])
    ensures Planned(pool, es, seed, picks) == Select(pool, StateOf(Window(es), seed), picks)
  {
    var w := Window(es);
    forall i | 0 <= i < |w| ensures Unreadable(w[i]).Ok? {
      assert OwnEntry(es[i]);
    }
    AllReadable(w);
    PlannedFrom(pool, es, seed, picks, w);
  }

  /** A passing report certifies every pick it ran, for as long as it is in the window, but
      for a blueprint called "smoke_b", whose entry smoke B's replaces. */
  lemma PassingReportCertifies(smokeA: Run, repros: map<string, Run>, smokeB: Run, commit: string,
                               liveSha: Option<string>, names: seq<string>, newer: seq<Entry>, older: seq<Entry>,
                               seed: Seed)
    requires Names(names) <= repros.Keys && |newer| < HISTORY_RUNS
    requires BuildReport(smokeA, repros, smokeB, commit, liveSha, Picks(names)).verdict == "pass"
    ensures var e := BuildReport(smokeA, repros, smokeB, commit, liveSha, Picks(names));
            && (forall n :: n in names ==> (PassedIn(e, n) <==> n != "smoke_b"))
            && Names(names) - {"smoke_b"} <= StateOf(Window(newer + [e] + older), seed).certified
  {
    var e := BuildReport(smokeA, repros, smokeB, commit, liveSha, Picks(names));
    forall n | n in names ensures PassedIn(e, n) <==> n != "smoke_b" {
      assert n in Names(names);
      assert n !in Failing(repros);
    }
    CertifiedAre(e, names);
    var es := newer + [e] + older;
    forall n | n in Names(names) - {"smoke_b"} ensures n in StateOf(Window(es), seed).certified {
      assert Window(es)[|newer|] == e && n in Certs(e);
      RememberedIsCertified(es, seed, n);
    }
  }

  lemma {:induction false} CertifiedAre(e: Entry, picks: seq<string>)
    ensures forall n :: n in CertifiedNames(e, picks) <==> n in picks && PassedIn(e, n)
  {
    if picks != [] {
      CertifiedAre(e, picks[..|picks| - 1]);
      assert picks == picks[..|picks| - 1] + [picks[|picks| - 1]];
    }
  }

  /** The plan's split of its picks is honest, as far as the window goes: what it calls fresh
      was never built, what it calls repeats was tried and failed. */
  lemma PlanSplitsPicks(pool: seq<string>, es: seq<Entry>, seed: Seed, picks: int, names: seq<string>, name: string)
    requires Distinct(pool) && Planned(pool, es, seed, picks) == Ok(names) && name in names
    ensures var s := StateOf(Window(es), seed); name !in s.failing <==> name in FreshSet(pool, s)
  {
    var s := StateOf(Window(es), seed);
    RotationConsistent(Window(es), seed);
    SelectedFromPool(pool, s, picks, names);
    PicksAreSound(pool, s, picks);
    SplitOne(pool, s, names, name);
  }

  lemma SplitOne(pool: seq<string>, s: State, chosen: seq<string>, name: string)
    requires Consistent(s) && Names(chosen) <= Names(pool) - s.certified && name in chosen
    ensures name !in s.failing <==> name in FreshSet(pool, s)
  {
    assert name in Names(chosen);
    assert name in s.failing <==> name in Names(s.failing);
  }
}
