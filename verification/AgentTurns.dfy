/** What the actions, the turns and the phases of an agent run come to, told by the replies and
    the return codes alone (runtime/runtime.py:13, 44-103, 108-125). */
module AgentTurns {
  import opened Common
  import opened AgentEnvelope
  import opened AgentRun

  // ---- one action ------------------------------------------------------------------------------

  /** The commands an agent may start. */
  predicate OnList(argv: seq<string>) {
    || (|argv| >= 1 && argv[0] == "pytest")
    || (|argv| >= 3 && argv[0] == "python" && argv[1] == "-m" && argv[2] == "pytest")
    || (|argv| >= 2 && argv[0] == "npm" && (argv[1] == "test" || argv[1] == "run"))
    || (|argv| >= 2 && argv[0] == "git"
        && (argv[1] == "status" || argv[1] == "diff" || argv[1] == "add" || argv[1] == "commit"))
    || (|argv| >= 3 && argv[0] == "git" && argv[1] == "checkout" && argv[2] == "-b")
  }

  lemma PrefixOfTwo(a: string, b: string, argv: seq<string>)
    ensures [a, b] <= argv <==> |argv| >= 2 && argv[0] == a && argv[1] == b
  {
    if |argv| >= 2 {
      assert argv[..2] == [argv[0], argv[1]];
    }
  }

  lemma PrefixOfThree(a: string, b: string, c: string, argv: seq<string>)
    ensures [a, b, c] <= argv <==> |argv| >= 3 && argv[0] == a && argv[1] == b && argv[2] == c
  {
    if |argv| >= 3 {
      assert argv[..3] == [argv[0], argv[1], argv[2]];
    }
  }

  /** A command is allowed exactly when it begins like one of the list. */
  lemma AllowedExactly(argv: seq<string>)
    ensures Allowed(argv) <==> OnList(argv)
  {
    assert ["pytest"] <= argv <==> |argv| >= 1 && argv[0] == "pytest";
    PrefixOfThree("python", "-m", "pytest", argv);
    PrefixOfTwo("npm", "test", argv);
    PrefixOfTwo("npm", "run", argv);
    PrefixOfTwo("git", "status", argv);
    PrefixOfTwo("git", "diff", argv);
    PrefixOfTwo("git", "add", argv);
    PrefixOfTwo("git", "commit", argv);
    PrefixOfThree("git", "checkout", "-b", argv);
  }

  predicate Below(root: Path, a: Action)
    requires a.ReadFile? || a.WriteFile?
  {
    Resolve(root, a.path).Some?
  }

  /** The action lets the run go on: what it reads is below the root and what it writes is declared
      as well, and the disk does its part. */
  predicate Passes(root: Path, declared: set<Path>, a: Action) {
    && (a.ReadFile? ==> Below(root, a) && !a.io.Breaks?)
    && (a.WriteFile? ==> Below(root, a) && Resolve(root, a.path).value in declared && a.io.Works?)
  }

  /** Why an action stops the run. */
  function StopOf(root: Path, declared: set<Path>, a: Action): Outcome
    requires !Passes(root, declared, a)
  {
    if !Below(root, a) then Halted("path_escape")
    else if a.WriteFile? && Resolve(root, a.path).value !in declared then Halted("envelope_violation")
    else Crashed
  }

  // ---- one reply ----------------------------------------------------------------------------------

  /** The files that the actions write, in order. */
  function WrittenBy(root: Path, actions: seq<Action>): seq<Path> {
    if actions == [] then []
    else
      var a := actions[|actions| - 1];
      WrittenBy(root, actions[..|actions| - 1])
      + if a.WriteFile? && Below(root, a) then [Resolve(root, a.path).value] else []
  }

  /** The commands that the actions start, in order. */
  function StartedBy(actions: seq<Action>): seq<seq<string>> {
    if actions == [] then []
    else
      var a := actions[|actions| - 1];
      StartedBy(actions[..|actions| - 1]) + if a.Command? && OnList(a.argv) then [a.argv] else []
  }

  /** The trace once all of these actions are done. */
  function Having(root: Path, t: Trace, actions: seq<Action>): Trace {
    t.(writes := t.writes + WrittenBy(root, actions), touched := t.touched + WrittenBy(root, actions),
       executed := t.executed + StartedBy(actions))
  }

  predicate AllPass(root: Path, declared: set<Path>, actions: seq<Action>) {
    forall a :: a in actions ==> Passes(root, declared, a)
  }

  lemma OnePasses(root: Path, t: Trace, before: seq<Action>, a: Action)
    requires Passes(root, t.declared, a)
    ensures Act(root, Having(root, t, before), a) == (Having(root, t, before + [a]), Fine)
  {
    assert (before + [a])[..|before|] == before;
    assert WrittenBy(root, before) + [] == WrittenBy(root, before) && StartedBy(before) + [] == StartedBy(before);
    if a.WriteFile? {
      var p := Resolve(root, a.path).value;
      Appended(t.writes, WrittenBy(root, before), p);
      Appended(t.touched, WrittenBy(root, before), p);
    } else if a.Command? {
      AllowedExactly(a.argv);
      Appended(t.executed, StartedBy(before), a.argv);
    }
  }

  lemma Appended<T>(a: seq<T>, b: seq<T>, x: T)
    ensures a + (b + [x]) == a + b + [x]
  {
  }

  lemma {:induction false} ActionsPass(root: Path, t: Trace, actions: seq<Action>)
    requires AllPass(root, t.declared, actions)
    ensures ActAll(root, t, actions) == (Having(root, t, actions), Fine)
  {
    if actions == [] {
      assert t.writes + [] == t.writes && t.touched + [] == t.touched && t.executed + [] == t.executed;
    } else {
      var before, a := actions[..|actions| - 1], actions[|actions| - 1];
      assert before + [a] == actions;
      ActionsPass(root, t, before);
      OnePasses(root, t, before, a);
    }
  }

  lemma OneStops(root: Path, t: Trace, a: Action)
    requires !Passes(root, t.declared, a)
    ensures var o := StopOf(root, t.declared, a);
            Act(root, t, a)
            == (if o.Crashed? && a.WriteFile? then t.(touched := t.touched + [Resolve(root, a.path).value]) else t, o)
  {
  }

  /** The first action that does not pass stops the run: what came before it is done, nothing after
      it, and of the action itself only a declared file that the disk failed on was touched. */
  lemma {:induction false} ActionsStop(root: Path, t: Trace, actions: seq<Action>, k: nat)
    requires k < |actions| && AllPass(root, t.declared, actions[..k]) && !Passes(root, t.declared, actions[k])
    ensures var (n, o) := ActAll(root, t, actions);
            var before := Having(root, t, actions[..k]);
            && o == StopOf(root, t.declared, actions[k])
            && n == if o.Crashed? && actions[k].WriteFile?
                    then before.(touched := before.touched + [Resolve(root, actions[k].path).value]) else before
  {
    ActionsPass(root, t, actions[..k]);
    OneStops(root, Having(root, t, actions[..k]), actions[k]);
    ActAllNext(root, t, actions, k);
  }

  lemma {:induction false} FirstToStop(root: Path, declared: set<Path>, actions: seq<Action>) returns (k: nat)
    requires !AllPass(root, declared, actions)
    ensures k < |actions| && AllPass(root, declared, actions[..k]) && !Passes(root, declared, actions[k])
  {
    var before := actions[..|actions| - 1];
    if AllPass(root, declared, before) {
      k := |before|;
      assert actions == before + [actions[k]];
    } else {
      k := FirstToStop(root, declared, before);
      assert before[..k] == actions[..k];
    }
  }

  // ---- one phase -----------------------------------------------------------------------------------

  /** The reply has actions, they all pass, and none of them says that the work is done. */
  predicate Continues(w: World, declared: set<Path>, call: nat) {
    var c := w.engine(call);
    c.Reply? && c.actions.Some? && AllPass(w.root, declared, c.actions.value) && Done !in c.actions.value
  }

  /** The reply has actions, they all pass, and one of them says that the work is done. */
  predicate Finishes(w: World, declared: set<Path>, call: nat) {
    var c := w.engine(call);
    c.Reply? && c.actions.Some? && AllPass(w.root, declared, c.actions.value) && Done in c.actions.value
  }

  predicate FinishesAfter(w: World, declared: set<Path>, call: nat, k: nat) {
    (forall i :: call <= i < call + k ==> Continues(w, declared, i)) && Finishes(w, declared, call + k)
  }

  lemma GoodTurn(w: World, t: Trace)
    requires Continues(w, t.declared, t.calls) || Finishes(w, t.declared, t.calls)
    ensures var actions := w.engine(t.calls).actions.value;
            Turn(w, t)
            == (Having(w.root, t.(calls := t.calls + 1), actions), if Done in actions then Finished else More)
  {
    ActionsPass(w.root, t.(calls := t.calls + 1), w.engine(t.calls).actions.value);
  }

  /** How a turn that neither goes on nor finishes ends its phase. */
  ghost predicate StopsWith(w: World, declared: set<Path>, c: Completion, o: Outcome) {
    match c
    case GivesUp => o == Halted("engine_failed_twice")
    case NotJson => o == Halted("model_not_json")
    case Garbled => o == Crashed
    case Reply(_, None) => o == Halted("model_not_json")
    case Reply(_, Some(actions)) =>
      exists k :: 0 <= k < |actions| && AllPass(w.root, declared, actions[..k]) && !Passes(w.root, declared, actions[k])
                  && o == StopOf(w.root, declared, actions[k])
  }

  lemma BadTurn(w: World, t: Trace)
    requires !Continues(w, t.declared, t.calls) && !Finishes(w, t.declared, t.calls)
    ensures Turn(w, t).1.Stopped? && StopsWith(w, t.declared, w.engine(t.calls), Turn(w, t).1.outcome)
    ensures !Turn(w, t).1.outcome.Fine? && Turn(w, t).1.outcome != Halted("max_turns_exceeded")
    ensures Turn(w, t).0.calls == t.calls + 1
  {
    assert "engine_failed_twice"[0] != "max_turns_exceeded"[0] && "model_not_json"[1] != "max_turns_exceeded"[1];
    assert "path_escape"[0] != "max_turns_exceeded"[0] && "envelope_violation"[0] != "max_turns_exceeded"[0];
    var c := w.engine(t.calls);
    if c.Reply? && c.actions.Some? {
      var k := FirstToStop(w.root, t.declared, c.actions.value);
      ActionsStop(w.root, t.(calls := t.calls + 1), c.actions.value, k);
    }
  }

  /** A phase goes on through the replies that continue, for as many turns as it has: then it is cut
      off, or it ends with the first reply that does not continue. */
  lemma {:induction false} PhaseExactly(w: World, t: Trace, turns: nat) returns (k: nat)
    ensures k <= turns && forall i :: t.calls <= i < t.calls + k ==> Continues(w, t.declared, i)
    ensures var (n, o) := Turns(w, t, turns);
            if k == turns then o == Halted("max_turns_exceeded") && n.calls == t.calls + k
            else
              && !Continues(w, t.declared, t.calls + k) && n.calls == t.calls + k + 1
              && o != Halted("max_turns_exceeded") && (o.Fine? <==> Finishes(w, t.declared, t.calls + k))
              && (!o.Fine? ==> StopsWith(w, t.declared, w.engine(t.calls + k), o))
    ensures Turns(w, t, turns).0.declared == t.declared && Turns(w, t, turns).0.rounds == t.rounds
    decreases turns
  {
    k := 0;
    if turns > 0 {
      if Continues(w, t.declared, t.calls) {
        GoodTurn(w, t);
        var next := Turn(w, t).0;
        var l := PhaseExactly(w, next, turns - 1);
        k := l + 1;
      } else if Finishes(w, t.declared, t.calls) {
        GoodTurn(w, t);
      } else {
        BadTurn(w, t);
        TurnKeeps(w, t);
      }
    }
  }

  lemma TurnKeeps(w: World, t: Trace)
    ensures Turn(w, t).0.declared == t.declared && Turn(w, t).0.rounds == t.rounds
  {
    var c := w.engine(t.calls);
    if c.Reply? && c.actions.Some? {
      ActAllKeeps(w.root, t.(calls := t.calls + 1), c.actions.value);
    }
  }

  lemma {:induction false} ActAllKeeps(root: Path, t: Trace, actions: seq<Action>)
    ensures ActAll(root, t, actions).0.declared == t.declared && ActAll(root, t, actions).0.rounds == t.rounds
  {
    if actions != [] {
      ActAllKeeps(root, t, actions[..|actions| - 1]);
    }
  }

  /** The actions of so many replies. */
  function ActionsOf(w: World, call: nat, k: nat): seq<Action>
    decreases k
  {
    if k == 0 then []
    else
      var c := w.engine(call);
      (if c.Reply? && c.actions.Some? then c.actions.value else []) + ActionsOf(w, call + 1, k - 1)
  }

  lemma {:induction false} HavingBoth(root: Path, t: Trace, a: seq<Action>, b: seq<Action>)
    ensures Having(root, Having(root, t, a), b) == Having(root, t, a + b)
  {
    WrittenBoth(root, a, b);
    StartedBoth(a, b);
    var x, y := WrittenBy(root, a), WrittenBy(root, b);
    assert t.writes + x + y == t.writes + (x + y) && t.touched + x + y == t.touched + (x + y);
    assert t.executed + StartedBy(a) + StartedBy(b) == t.executed + (StartedBy(a) + StartedBy(b));
  }

  lemma {:induction false} WrittenBoth(root: Path, a: seq<Action>, b: seq<Action>)
    ensures WrittenBy(root, a + b) == WrittenBy(root, a) + WrittenBy(root, b)
  {
    if b == [] {
      assert a + b == a;
    } else {
      assert (a + b)[..|a + b| - 1] == a + b[..|b| - 1];
      WrittenBoth(root, a, b[..|b| - 1]);
    }
  }

  lemma {:induction false} StartedBoth(a: seq<Action>, b: seq<Action>)
    ensures StartedBy(a + b) == StartedBy(a) + StartedBy(b)
  {
    if b == [] {
      assert a + b == a;
    } else {
      assert (a + b)[..|a + b| - 1] == a + b[..|b| - 1];
      StartedBoth(a, b[..|b| - 1]);
    }
  }

  lemma {:induction false} FinishingTurn(w: World, t: Trace, turns: nat)
    requires turns > 0 && Finishes(w, t.declared, t.calls)
    ensures Turns(w, t, turns) == (Having(w.root, t.(calls := t.calls + 1), ActionsOf(w, t.calls, 1)), Fine)
  {
    GoodTurn(w, t);
    var actions := w.engine(t.calls).actions.value;
    assert actions + ActionsOf(w, t.calls + 1, 0) == actions;
  }

  lemma ContinuingTurn(w: World, t: Trace, turns: nat)
    requires turns > 0 && Continues(w, t.declared, t.calls)
    ensures Turns(w, t, turns)
            == Turns(w, Having(w.root, t.(calls := t.calls + 1), w.engine(t.calls).actions.value), turns - 1)
  {
    GoodTurn(w, t);
  }

  lemma FinishesLater(w: World, declared: set<Path>, call: nat, k: nat)
    requires FinishesAfter(w, declared, call, k)
    ensures k == 0 ==> Finishes(w, declared, call)
    ensures k > 0 ==> Continues(w, declared, call) && FinishesAfter(w, declared, call + 1, k - 1)
  {
  }

  /** A phase that finishes has written and started what the actions of its replies say, in order. */
  lemma {:induction false} FinishedPhase(w: World, t: Trace, turns: nat, k: nat)
    requires k < turns && FinishesAfter(w, t.declared, t.calls, k)
    ensures Turns(w, t, turns)
            == (Having(w.root, t.(calls := t.calls + k + 1), ActionsOf(w, t.calls, k + 1)), Fine)
    decreases k
  {
    FinishesLater(w, t.declared, t.calls, k);
    if k == 0 {
      FinishingTurn(w, t, turns);
    } else {
      ContinuingTurn(w, t, turns);
      FinishedPhase(w, Having(w.root, t.(calls := t.calls + 1), w.engine(t.calls).actions.value), turns - 1, k - 1);
      OneTurnMore(w, t, k);
    }
  }

  lemma OneTurnMore(w: World, t: Trace, k: nat)
    requires Continues(w, t.declared, t.calls)
    ensures var actions := w.engine(t.calls).actions.value;
            var next := Having(w.root, t.(calls := t.calls + 1), actions);
            Having(w.root, next.(calls := t.calls + k + 1), ActionsOf(w, t.calls + 1, k))
            == Having(w.root, t.(calls := t.calls + k + 1), ActionsOf(w, t.calls, k + 1))
  {
    HavingBoth(w.root, t.(calls := t.calls + k + 1), w.engine(t.calls).actions.value, ActionsOf(w, t.calls + 1, k));
  }

  // ---- the run ------------------------------------------------------------------------------------------

  predicate AllZero(codes: seq<int>) { forall code :: code in codes ==> code == 0 }

  lemma FailedExactly(codes: seq<int>)
    ensures RoundFailed(codes) <==> !AllZero(codes)
  {
    if i :| 0 <= i < |codes| && codes[i] != 0 {
      assert codes[i] in codes;
    }
  }

  /** The first gate round succeeds, or a second phase finishes and the second round does. */
  ghost predicate GatesPass(w: World, declared: set<Path>, call: nat, turns: int) {
    || AllZero(w.gates(0))
    || exists l :: 0 <= l < turns && FinishesAfter(w, declared, call, l) && AllZero(w.gates(1))
  }

  /** A run gets to its end exactly when it declares a valid set of files, finishes its phase in the
      turns it has, and the gates pass, at once or after one more phase that finishes in time. */
  ghost predicate Succeeds(w: World) {
    var c := w.engine(0);
    && c.Reply? && GuardOf(w.root, c.files).Fine? && w.maxTurns.Some?
    && exists k :: 0 <= k < w.maxTurns.value && FinishesAfter(w, DeclaredBy(w.root, c.files), 1, k)
                   && GatesPass(w, DeclaredBy(w.root, c.files), k + 2, w.maxTurns.value)
  }

  lemma {:induction false} PhaseFinishes(w: World, t: Trace)
    requires w.maxTurns.Some?
    ensures Implement(w, t).1.Fine?
            <==> exists k :: 0 <= k < w.maxTurns.value && FinishesAfter(w, t.declared, t.calls, k)
    ensures forall k :: 0 <= k < w.maxTurns.value && FinishesAfter(w, t.declared, t.calls, k)
              ==> Implement(w, t).0.calls == t.calls + k + 1
    ensures Implement(w, t).0.declared == t.declared && Implement(w, t).0.rounds == t.rounds
  {
    if w.maxTurns.value > 0 {
      var turns: nat := w.maxTurns.value;
      var k := PhaseExactly(w, t, turns);
      if Implement(w, t).1.Fine? {
        assert FinishesAfter(w, t.declared, t.calls, k);
      }
      forall l | 0 <= l < turns && FinishesAfter(w, t.declared, t.calls, l)
        ensures Implement(w, t).1.Fine? && Implement(w, t).0.calls == t.calls + l + 1
      {
        FinishedPhase(w, t, turns, l);
      }
    }
  }

  lemma SecondPhase(w: World, t: Trace)
    requires w.maxTurns.Some? && |t.rounds| == 1
    ensures var (n, o) := Implement(w, t);
            o.Fine? && !GatesFailed(RunGates(w, n).rounds)
            <==> exists l :: 0 <= l < w.maxTurns.value
                             && FinishesAfter(w, t.declared, t.calls, l) && AllZero(w.gates(1))
  {
    PhaseFinishes(w, t);
    FailedExactly(w.gates(1));
  }

  lemma CompletedExactly(w: World)
    ensures Work(w).1.Fine? <==> Succeeds(w)
  {
    var c := w.engine(0);
    var (t, o) := Declare(w, NOTHING);
    if c.Reply? && o.Fine? && w.maxTurns.Some? {
      assert t == NOTHING.(calls := 1, declared := DeclaredBy(w.root, c.files));
      PhaseFinishes(w, t);
      var (first, o1) := Implement(w, t);
      var gated := RunGates(w, first);
      FailedExactly(w.gates(0));
      if o1.Fine? {
        var k :| 0 <= k < w.maxTurns.value && FinishesAfter(w, t.declared, 1, k);
        assert first.calls == k + 2;
        SecondPhase(w, gated);
      }
    }
  }

  /** The gates end a run: it completes exactly when the last round's return codes are all zero, and
      has failed twice exactly when neither round's are; a second round only follows a failed first. */
  lemma GatesExactly(w: World)
    ensures var (t, o) := Work(w);
            && |t.rounds| <= 2
            && (o.Fine? <==> t.rounds != [] && AllZero(t.rounds[|t.rounds| - 1]))
            && (o == Halted("gate_failed_twice") <==>
                  |t.rounds| == 2 && !AllZero(t.rounds[0]) && !AllZero(t.rounds[1]))
            && (|t.rounds| == 2 ==> !AllZero(t.rounds[0]))
  {
    GatesDecide(w);
    RunsAreBounded(w);
    var rounds := Work(w).0.rounds;
    if rounds != [] {
      FailedExactly(rounds[0]);
      FailedExactly(rounds[|rounds| - 1]);
    }
  }

  /** How a run ends that does not get as far as its first phase: nothing was written or started. */
  lemma UndeclaredExactly(w: World)
    ensures var (t, o) := Work(w);
            var c := w.engine(0);
            && (c.GivesUp? ==> o == Halted("engine_failed_twice"))
            && (c.NotJson? ==> o == Halted("model_not_json"))
            && (c.Garbled? ==> o == Crashed)
            && (c.Reply? && !GuardOf(w.root, c.files).Fine? ==> o == GuardOf(w.root, c.files))
            && (!c.Reply? || !GuardOf(w.root, c.files).Fine? ==> t == Trace({}, [], [], [], 1, []))
            && (c.Reply? && GuardOf(w.root, c.files).Fine? ==> t.declared == DeclaredBy(w.root, c.files))
  {
    var (declared, o) := Declare(w, NOTHING);
    if o.Fine? && w.maxTurns.Some? {
      PhaseFinishes(w, declared);
      PhaseFinishes(w, RunGates(w, Implement(w, declared).0));
    }
  }

  /** What a caller of `run` gets: the report of a completed run, one that only names the condition of
      a halt, or what stopped the preliminaries; a crash on the way raises, with an incomplete report
      once there was one to emit. */
  lemma EndingExactly(w: World, ready: Outcome)
    ensures var t := Performed(w, ready);
            var e := EndingOf(ready, t, Work(w).1);
            match ready
            case Crashed => e == Raised(None) && t == NOTHING
            case Halted(c) => e == Returned(Report(RunHalted(c), {}, [], {}, {})) && t == NOTHING
            case Fine =>
              t == Work(w).0
              && match Work(w).1
                 case Fine =>
                   && e.Returned? && e.report.verdict == Completed && e.report.gateResults == t.rounds
                   && (forall p :: p in e.report.written <==> p in t.writes)
                   && (forall p :: p in e.report.notWritten <==> p in t.declared && p !in t.writes)
                   && e.report.filesChanged == e.report.written
                 case Halted(c) => e == Returned(Report(RunHalted(c), {}, [], {}, {}))
                 case Crashed => e == Raised(Some(Report(Incomplete, {}, [], {}, {})))
  {
  }

  /** However a run ends, it has started none but the commands of the list. */
  lemma CommandsStayOnList(w: World)
    ensures forall argv :: argv in Work(w).0.executed ==> OnList(argv)
  {
    WorkContained(w);
    forall argv | argv in Work(w).0.executed ensures OnList(argv) {
      AllowedExactly(argv);
    }
  }
}
