/** The gate audit: reachability from the roster over a call graph that may have
    cycles, and the findings drawn from it (scripts/audit_gates.py:171-181, 227-305). */
module GateAudit {
  import opened NameLists

  /** Gate name -> the gates it calls. */
  type Calls = map<string, seq<string>>

  function CalledBy(calls: Calls, name: string): seq<string> { if name in calls then calls[name] else [] }

  /** A chain of direct calls. */
  ghost predicate CallPath(calls: Calls, path: seq<string>) {
    path != [] && forall i :: 0 <= i < |path| - 1 ==> path[i + 1] in CalledBy(calls, path[i])
  }

  /** Some chain of calls leads from a starting name to this one. */
  ghost predicate Reachable(start: set<string>, calls: Calls, name: string) {
    exists path :: CallPath(calls, path) && path[0] in start && path[|path| - 1] == name
  }

  lemma StartReachable(start: set<string>, calls: Calls, name: string)
    requires name in start
    ensures Reachable(start, calls, name)
  {
    assert CallPath(calls, [name]);
  }

  lemma CallExtends(start: set<string>, calls: Calls, name: string, callee: string)
    requires Reachable(start, calls, name) && callee in CalledBy(calls, name)
    ensures Reachable(start, calls, callee)
  {
    var path :| CallPath(calls, path) && path[0] in start && path[|path| - 1] == name;
    var longer := path + [callee];
    assert CallPath(calls, longer) && longer[0] in start && longer[|longer| - 1] == callee;
  }

  /** A set that holds the start and is closed under calls holds all a path leads to. */
  lemma {:induction false} PathStaysIn(start: set<string>, calls: Calls, seen: set<string>, path: seq<string>)
    requires start <= seen && forall n :: n in seen ==> forall c :: c in CalledBy(calls, n) ==> c in seen
    requires CallPath(calls, path) && path[0] in start
    ensures path[|path| - 1] in seen
  {
    if |path| > 1 {
      var front := path[..|path| - 1];
      assert front[0] == path[0];
      forall i | 0 <= i < |front| - 1 ensures front[i + 1] in CalledBy(calls, front[i]) {
        assert path[i + 1] in CalledBy(calls, path[i]);
      }
      PathStaysIn(start, calls, seen, front);
      assert path[|path| - 1] in CalledBy(calls, path[|path| - 2]);
    }
  }

  ghost function Universe(start: set<string>, calls: Calls): set<string> {
    start + set n, c | n in calls && c in calls[n] :: c
  }

  /** The worklist's state: everything met is reachable, and what is not yet closed
      under calls is still queued. */
  ghost predicate Exploring(start: set<string>, calls: Calls, seen: set<string>, queue: seq<string>) {
    && (forall n :: n in queue || n in seen ==> Reachable(start, calls, n) && n in Universe(start, calls))
    && (forall n :: n in start ==> n in seen || n in queue)
    && (forall n, c :: n in seen && c in CalledBy(calls, n) ==> c in seen || c in queue)
  }

  lemma Revisit(start: set<string>, calls: Calls, seen: set<string>, rest: seq<string>, name: string)
    requires Exploring(start, calls, seen, rest + [name]) && name in seen
    ensures Exploring(start, calls, seen, rest)
  {
    assert forall n :: n in rest + [name] <==> n in rest || n == name;
  }

  lemma Visit(start: set<string>, calls: Calls, seen: set<string>, rest: seq<string>, name: string)
    requires Exploring(start, calls, seen, rest + [name])
    ensures Exploring(start, calls, seen + {name}, rest + CalledBy(calls, name))
    ensures name in Universe(start, calls)
  {
    var queue, next := rest + [name], rest + CalledBy(calls, name);
    assert name in queue;
    assert forall n :: n in queue <==> n in rest || n == name;
    assert forall n :: n in next <==> n in rest || n in CalledBy(calls, name);
    forall c | c in CalledBy(calls, name) ensures Reachable(start, calls, c) && c in Universe(start, calls) {
      CallExtends(start, calls, name, c);
    }
  }

  lemma Explored(start: set<string>, calls: Calls, seen: set<string>, n: string)
    requires Exploring(start, calls, seen, [])
    ensures n in seen <==> Reachable(start, calls, n)
  {
    if Reachable(start, calls, n) {
      var path :| CallPath(calls, path) && path[0] in start && path[|path| - 1] == n;
      PathStaysIn(start, calls, seen, path);
    }
  }

  /** `reachable_from`: ends on cyclic graphs too, and returns exactly what call paths
      lead to from the starting names. */
  method ReachableFrom(roster: seq<string>, calls: Calls) returns (seen: set<string>)
    ensures forall n :: n in seen <==> Reachable(Names(roster), calls, n)
  {
    ghost var start := Names(roster);
    seen := {};
    var queue := roster;
    forall n | n in queue ensures Reachable(start, calls, n) { StartReachable(start, calls, n); }
    while queue != []
      invariant Exploring(start, calls, seen, queue)
      decreases Universe(start, calls) - seen, |queue|
    {
      var name := queue[|queue| - 1];
      var rest := queue[..|queue| - 1];
      assert queue == rest + [name];
      queue := rest;
      if name in seen {
        Revisit(start, calls, seen, rest, name);
        continue;
      }
      Visit(start, calls, seen, rest, name);
      seen := seen + {name};
      queue := queue + CalledBy(calls, name);
    }
    forall n ensures n in seen <==> Reachable(start, calls, n) {
      Explored(start, calls, seen, n);
    }
  }

  // ---- the findings ------------------------------------------------------------

  datatype Finding = RosterUnconsumed | Unreachable(gate: string) | NoRefusalTest(gate: string)

  datatype Verdict = NoGates | NoRoster | Findings(all: seq<Finding>, unregistered: seq<Finding>) {
    /** The exit status. */
    predicate Clean() { Findings? && unregistered == [] }
  }

  /** What the audit is meant to report. */
  ghost predicate Deserved(f: Finding, gates: seq<string>, roster: seq<string>, calls: Calls,
                           tested: seq<string>, consumed: bool) {
    match f
    case RosterUnconsumed => !consumed
    case Unreachable(g) => g in gates && !Reachable(Names(roster), calls, g)
    case NoRefusalTest(g) => g in gates && !Reachable(Names(tested), calls, g)
  }

  /** `main`, past the reading of files: the gates in sorted order, the roster, the
      call graph, the gates some test sees refuse, and the registered findings. The
      findings are exactly the deserved ones. */
  method Audit(gates: seq<string>, roster: seq<string>, calls: Calls, tested: seq<string>, consumed: bool,
               known: set<Finding>) returns (v: Verdict)
    ensures v.NoGates? <==> gates == []
    ensures v.NoRoster? <==> gates != [] && roster == []
    ensures v.Findings? ==> forall f :: f in v.all <==> Deserved(f, gates, roster, calls, tested, consumed)
    ensures v.Findings? ==> forall f :: f in v.unregistered <==> f in v.all && f !in known
  {
    if gates == [] {
      return NoGates;
    }
    if roster == [] {
      return NoRoster;
    }
    var live := ReachableFrom(roster, calls);
    var covered := ReachableFrom(tested, calls);
    var findings: seq<Finding> := [];
    if !consumed {
      findings := [RosterUnconsumed];
    }
    var i := 0;
    while i < |gates|
      invariant 0 <= i <= |gates|
      invariant forall f :: f in findings <==> Deserved(f, gates[..i], roster, calls, tested, consumed)
    {
      OneMoreGate(gates[..i], gates[i], roster, calls, tested, consumed);
      assert gates[..i + 1] == gates[..i] + [gates[i]];
      findings := findings + FindingsFor(gates[i], live, covered);
      i := i + 1;
    }
    assert gates[..i] == gates;
    var unregistered := Unregistered(findings, known);
    v := Findings(findings, unregistered);
  }

  function FindingsFor(g: string, live: set<string>, covered: set<string>): seq<Finding> {
    (if g !in live then [Unreachable(g)] else []) + (if g !in covered then [NoRefusalTest(g)] else [])
  }

  lemma OneMoreGate(gates: seq<string>, g: string, roster: seq<string>, calls: Calls, tested: seq<string>,
                    consumed: bool)
    ensures forall f :: Deserved(f, gates + [g], roster, calls, tested, consumed) <==>
                        || Deserved(f, gates, roster, calls, tested, consumed)
                        || (f == Unreachable(g) && !Reachable(Names(roster), calls, g))
                        || (f == NoRefusalTest(g) && !Reachable(Names(tested), calls, g))
  {
    assert forall x :: x in gates + [g] <==> x in gates || x == g;
  }

  function Unregistered(all: seq<Finding>, known: set<Finding>): (u: seq<Finding>)
    ensures forall f :: f in u <==> f in all && f !in known
  {
    if all == [] then []
    else if all[0] in known then Unregistered(all[1..], known)
    else [all[0]] + Unregistered(all[1..], known)
  }

  /** With nothing registered an audit is clean exactly when the roster is read, and every gate can
      be called from it and from a gate some test sees refuse. */
  lemma CleanMeansWired(v: Verdict, gates: seq<string>, roster: seq<string>, calls: Calls, tested: seq<string>,
                        consumed: bool)
    requires v.Findings?
    requires forall f :: f in v.all <==> Deserved(f, gates, roster, calls, tested, consumed)
    requires forall f :: f in v.unregistered <==> f in v.all
    ensures v.Clean()
            <==> consumed
                 && forall g :: g in gates ==> Reachable(Names(roster), calls, g) && Reachable(Names(tested), calls, g)
  {
    if v.Clean() {
      assert !Deserved(RosterUnconsumed, gates, roster, calls, tested, consumed);
      forall g | g in gates
        ensures Reachable(Names(roster), calls, g) && Reachable(Names(tested), calls, g)
      {
        assert !Deserved(Unreachable(g), gates, roster, calls, tested, consumed);
        assert !Deserved(NoRefusalTest(g), gates, roster, calls, tested, consumed);
      }
    } else {
      assert v.unregistered[0] in v.all;
    }
  }

  /** Coverage runs down the call graph: a refusal test of a gate covers whatever it calls. */
  lemma CoverageRunsDown(tested: set<string>, calls: Calls, path: seq<string>)
    requires CallPath(calls, path) && Reachable(tested, calls, path[0])
    ensures Reachable(tested, calls, path[|path| - 1])
    decreases |path|
  {
    if |path| > 1 {
      CallExtends(tested, calls, path[0], path[1]);
      forall i | 0 <= i < |path[1..]| - 1 ensures path[1..][i + 1] in CalledBy(calls, path[1..][i]) {
        assert path[i + 1 + 1] in CalledBy(calls, path[i + 1]);
      }
      CoverageRunsDown(tested, calls, path[1..]);
    }
  }
}
