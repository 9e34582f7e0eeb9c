/** One agent run: declare, implement, gates, at most one repair, report
    (runtime/runtime.py:61-135, runtime/gates.py:15-47). What the engine, the disk and the
    gate commands answer is arbitrary. */
module AgentRun {
  import opened Common
  import opened AgentEnvelope

  /** How a file operation goes: done, refused by the system, or any other exception. */
  datatype Io = Works | OsError | Breaks

  datatype Action =
    | NotADict
    | Done
    | ReadFile(path: string, io: Io)
    | WriteFile(path: string, content: string, io: Io)
    | Command(argv: seq<string>)
    | OtherTool

  /** One completion: the engine gives up, the text is no JSON object, reading it raises,
      or an object with its "files" and, if "actions" is a list, its actions. */
  datatype Completion = GivesUp | NotJson | Garbled | Reply(files: Files, actions: Option<seq<Action>>)

  /** The outside of a run. `maxTurns` is none when AGENT_MAX_TURNS is no number. */
  datatype World = World(root: Path, engine: nat -> Completion, gates: nat -> seq<int>, maxTurns: Option<int>)

  /** What a run has done: its declaration, recorded writes, files handed to the disk,
      commands started, completions asked for, and the return codes of each gate round. */
  datatype Trace = Trace(declared: set<Path>, writes: seq<Path>, touched: seq<Path>, executed: seq<seq<string>>,
                         calls: nat, rounds: seq<seq<int>>)

  const NOTHING := Trace({}, [], [], [], 0, [])

  // ---- tools --------------------------------------------------------------------------------

  predicate Allowed(argv: seq<string>) {
    || ["pytest"] <= argv || ["python", "-m", "pytest"] <= argv || ["npm", "test"] <= argv || ["npm", "run"] <= argv
    || ["git", "status"] <= argv || ["git", "diff"] <= argv || ["git", "add"] <= argv || ["git", "commit"] <= argv
    || ["git", "checkout", "-b"] <= argv
  }

  /** `_tool_result`. A write is checked, handed to the disk and then recorded. */
  function Act(root: Path, t: Trace, a: Action): (Trace, Outcome) {
    match a
    case ReadFile(path, io) =>
      (t, if Resolve(root, path).None? then Halted("path_escape") else if io.Breaks? then Crashed else Fine)
    case WriteFile(path, _, io) =>
      var check := CheckOf(root, t.declared, path);
      if !check.Fine? then (t, check)
      else
        var p := Resolve(root, path).value;
        if io.Works? then (t.(touched := t.touched + [p], writes := t.writes + [p]), Fine)
        else (t.(touched := t.touched + [p]), Crashed)
    case Command(argv) => (if Allowed(argv) then t.(executed := t.executed + [argv]) else t, Fine)
    case _ => (t, Fine)
  }

  /** The actions of one reply, in order, up to the first that stops the run. */
  function ActAll(root: Path, t: Trace, actions: seq<Action>): (Trace, Outcome) {
    if actions == [] then (t, Fine)
    else
      var before := ActAll(root, t, actions[..|actions| - 1]);
      if before.1.Fine? then Act(root, before.0, actions[|actions| - 1]) else before
  }

  datatype TurnEnd = More | Finished | Stopped(outcome: Outcome)

  /** One turn: ask, then act. A "done" among the actions ends the phase after all of them. */
  function Turn(w: World, t: Trace): (Trace, TurnEnd) {
    var asked := t.(calls := t.calls + 1);
    match w.engine(t.calls)
    case GivesUp => (asked, Stopped(Halted("engine_failed_twice")))
    case NotJson => (asked, Stopped(Halted("model_not_json")))
    case Garbled => (asked, Stopped(Crashed))
    case Reply(_, actions) =>
      if actions.None? then (asked, Stopped(Halted("model_not_json")))
      else
        var acted := ActAll(w.root, asked, actions.value);
        (acted.0, if !acted.1.Fine? then Stopped(acted.1) else if Done in actions.value then Finished else More)
  }

  function Turns(w: World, t: Trace, left: int): (Trace, Outcome)
    decreases left
  {
    if left <= 0 then (t, Halted("max_turns_exceeded"))
    else
      var (next, end) := Turn(w, t);
      match end
      case More => Turns(w, next, left - 1)
      case Finished => (next, Fine)
      case Stopped(o) => (next, o)
  }

  /** `_implement`. */
  function Implement(w: World, t: Trace): (Trace, Outcome) {
    if w.maxTurns.None? then (t, Crashed) else Turns(w, t, w.maxTurns.value)
  }

  // ---- gates --------------------------------------------------------------------------------------

  predicate RoundFailed(round: seq<int>) { exists i :: 0 <= i < |round| && round[i] != 0 }

  /** `GateResults.failed`. */
  predicate GatesFailed(rounds: seq<seq<int>>) { rounds != [] && RoundFailed(rounds[|rounds| - 1]) }

  /** `GateResults.failed_twice`. */
  predicate GatesFailedTwice(rounds: seq<seq<int>>) {
    |rounds| >= 2 && RoundFailed(rounds[|rounds| - 1]) && RoundFailed(rounds[|rounds| - 2])
  }

  function RunGates(w: World, t: Trace): Trace { t.(rounds := t.rounds + [w.gates(|t.rounds|)]) }

  // ---- the run --------------------------------------------------------------------------------------

  /** `_declare`, then `guard`. */
  function Declare(w: World, t: Trace): (Trace, Outcome) {
    var asked := t.(calls := t.calls + 1);
    match w.engine(t.calls)
    case GivesUp => (asked, Halted("engine_failed_twice"))
    case NotJson => (asked, Halted("model_not_json"))
    case Garbled => (asked, Crashed)
    case Reply(files, _) =>
      var o := GuardOf(w.root, files);
      (if o.Fine? then asked.(declared := DeclaredBy(w.root, files)) else asked, o)
  }

  /** Steps 3 to 5 of `run`. */
  function Work(w: World): (Trace, Outcome) {
    var (declared, o) := Declare(w, NOTHING);
    if !o.Fine? then (declared, o)
    else
      var (first, o1) := Implement(w, declared);
      if !o1.Fine? then (first, o1)
      else
        var gated := RunGates(w, first);
        if !GatesFailed(gated.rounds) then (gated, Fine)
        else
          var (second, o2) := Implement(w, gated);
          if !o2.Fine? then (second, o2)
          else
            var again := RunGates(w, second);
            (again, if GatesFailed(again.rounds) then Halted("gate_failed_twice") else Fine)
  }

  datatype Verdict = Completed | RunHalted(condition: string) | Incomplete

  datatype Report = Report(verdict: Verdict, filesChanged: set<Path>, gateResults: seq<seq<int>>,
                           notWritten: set<Path>, written: set<Path>)

  /** `run` returns a report, or raises with the report emitted on the way out, if any. */
  datatype Ending = Returned(report: Report) | Raised(emitted: Option<Report>)

  /** `ready` is how reading the request, the bundle, the law and the engine profile went. */
  function EndingOf(ready: Outcome, t: Trace, o: Outcome): Ending {
    var outcome := if ready.Fine? then o else ready;
    match outcome
    case Fine =>
      Returned(Report(Completed, Paths(t.writes), t.rounds, t.declared - Paths(t.writes), Paths(t.writes)))
    case Halted(c) => Returned(Report(RunHalted(c), {}, [], {}, {}))
    case Crashed => Raised(if ready.Fine? then Some(Report(Incomplete, {}, [], {}, {})) else None)
  }

  // ---- what every step keeps --------------------------------------------------------------------------

  /** Nothing was handed to the disk or recorded outside the declared set, and nothing ran
      that is not on the allowlist. */
  predicate Contained(t: Trace) {
    && (forall p :: p in t.touched ==> p in t.declared)
    && (forall p :: p in t.writes ==> p in t.touched)
    && (forall c :: c in t.executed ==> Allowed(c))
  }

  lemma ActContained(root: Path, t: Trace, a: Action)
    requires Contained(t)
    ensures Contained(Act(root, t, a).0)
    ensures var n := Act(root, t, a).0; n.declared == t.declared && n.calls == t.calls && n.rounds == t.rounds
  {
  }

  lemma {:induction false} ActAllContained(root: Path, t: Trace, actions: seq<Action>)
    requires Contained(t)
    ensures Contained(ActAll(root, t, actions).0)
    ensures var n := ActAll(root, t, actions).0; n.declared == t.declared && n.calls == t.calls && n.rounds == t.rounds
  {
    if actions == [] {
    } else {
      ActAllContained(root, t, actions[..|actions| - 1]);
      ActContained(root, ActAll(root, t, actions[..|actions| - 1]).0, actions[|actions| - 1]);
    }
  }

  lemma TurnContained(w: World, t: Trace)
    requires Contained(t)
    ensures Contained(Turn(w, t).0)
    ensures var n := Turn(w, t).0; n.declared == t.declared && n.calls == t.calls + 1 && n.rounds == t.rounds
  {
    match w.engine(t.calls)
    case Reply(_, actions) =>
      if actions.Some? {
        ActAllContained(w.root, t.(calls := t.calls + 1), actions.value);
      }
    case _ =>
  }

  lemma {:induction false} TurnsContained(w: World, t: Trace, left: int)
    requires Contained(t)
    ensures Contained(Turns(w, t, left).0)
    ensures var n := Turns(w, t, left).0;
            && n.declared == t.declared && n.rounds == t.rounds
            && t.calls <= n.calls <= t.calls + (if left > 0 then left else 0)
    decreases left
  {
    if left > 0 {
      TurnContained(w, t);
      if Turn(w, t).1.More? {
        TurnsContained(w, Turn(w, t).0, left - 1);
      }
    }
  }

  function TurnBound(w: World): nat {
    if w.maxTurns.Some? && w.maxTurns.value > 0 then w.maxTurns.value else 0
  }

  lemma ImplementContained(w: World, t: Trace)
    requires Contained(t)
    ensures Contained(Implement(w, t).0)
    ensures var n := Implement(w, t).0;
            n.declared == t.declared && n.rounds == t.rounds && n.calls <= t.calls + TurnBound(w)
  {
    if w.maxTurns.Some? {
      TurnsContained(w, t, w.maxTurns.value);
    }
  }

  // ---- whole runs ----------------------------------------------------------------------------------------

  /** Both implement phases only write declared files inside the root, however the run
      ends, and only start allowed commands. */
  lemma RunsStayInside(w: World)
    requires Canonical(w.root)
    ensures var t := Work(w).0;
            && (forall p :: p in t.touched ==> p in t.declared && Canonical(p))
            && (forall p :: p in t.writes ==> p in t.touched)
            && (forall c :: c in t.executed ==> Allowed(c))
  {
    var declared := Declare(w, NOTHING);
    DeclaredCanonical(w);
    if declared.1.Fine? {
      ImplementContained(w, declared.0);
      var first := Implement(w, declared.0);
      if first.1.Fine? {
        ImplementContained(w, RunGates(w, first.0));
      }
    }
  }

  lemma DeclaredCanonical(w: World)
    requires Canonical(w.root)
    ensures forall p :: p in Declare(w, NOTHING).0.declared ==> Canonical(p)
  {
    var c := w.engine(0);
    if c.Reply? && GuardOf(w.root, c.files).Fine? {
      forall p | p in DeclaredBy(w.root, c.files) ensures Canonical(p) {
        var i :| 0 <= i < |c.files.items| && p == Resolve(w.root, c.files.items[i].value).value;
        ResolvedInside(w.root, c.files.items[i].value);
      }
    }
  }

  lemma {:induction false} ActAllRecords(root: Path, t: Trace, actions: seq<Action>)
    requires t.touched == t.writes
    ensures !ActAll(root, t, actions).1.Crashed?
            ==> ActAll(root, t, actions).0.touched == ActAll(root, t, actions).0.writes
  {
    if actions != [] {
      ActAllRecords(root, t, actions[..|actions| - 1]);
    }
  }

  lemma {:induction false} TurnsRecord(w: World, t: Trace, left: int)
    requires t.touched == t.writes
    ensures !Turns(w, t, left).1.Crashed? ==> Turns(w, t, left).0.touched == Turns(w, t, left).0.writes
    decreases left
  {
    if left > 0 {
      var asked := t.(calls := t.calls + 1);
      match w.engine(t.calls)
      case Reply(_, actions) =>
        if actions.Some? {
          ActAllRecords(w.root, asked, actions.value);
          if Turn(w, t).1.More? {
            TurnsRecord(w, Turn(w, t).0, left - 1);
          }
        }
      case _ =>
    }
  }

  /** Unless the run crashes, what was handed to the disk is what was recorded, in order. */
  lemma WritesAreRecorded(w: World)
    ensures !Work(w).1.Crashed? ==> Work(w).0.touched == Work(w).0.writes
  {
    var declared := Declare(w, NOTHING);
    if declared.1.Fine? && w.maxTurns.Some? {
      TurnsRecord(w, declared.0, w.maxTurns.value);
      var first := Implement(w, declared.0);
      if first.1.Fine? {
        TurnsRecord(w, RunGates(w, first.0), w.maxTurns.value);
      }
    }
  }

  /** At most two gate rounds, and one completion beyond two phases of turns. */
  lemma RunsAreBounded(w: World)
    ensures var t := Work(w).0; |t.rounds| <= 2 && t.calls <= 1 + 2 * TurnBound(w)
  {
    var declared := Declare(w, NOTHING);
    if declared.1.Fine? {
      ImplementContained(w, declared.0);
      var first := Implement(w, declared.0);
      if first.1.Fine? {
        ImplementContained(w, RunGates(w, first.0));
      }
    }
  }

  /** What the phases say by failing: an implement phase never reports the gates. */
  lemma {:induction false} TurnsConditions(w: World, t: Trace, left: int)
    ensures Turns(w, t, left).1 != Halted("gate_failed_twice")
    decreases left
  {
    if left > 0 {
      TurnConditions(w, t);
      if Turn(w, t).1.More? {
        TurnsConditions(w, Turn(w, t).0, left - 1);
      }
    }
  }

  lemma {:induction false} ActAllConditions(root: Path, t: Trace, actions: seq<Action>)
    ensures ActAll(root, t, actions).1 != Halted("gate_failed_twice")
  {
    if actions != [] {
      ActAllConditions(root, t, actions[..|actions| - 1]);
      ActConditions(root, ActAll(root, t, actions[..|actions| - 1]).0, actions[|actions| - 1]);
    }
  }

  lemma ActConditions(root: Path, t: Trace, a: Action)
    ensures Act(root, t, a).1 != Halted("gate_failed_twice")
  {
    assert "path_escape"[0] != "gate_failed_twice"[0] && "envelope_violation"[0] != "gate_failed_twice"[0];
  }

  lemma TurnConditions(w: World, t: Trace)
    ensures Turn(w, t).1 != Stopped(Halted("gate_failed_twice"))
  {
    assert "model_not_json"[0] != "gate_failed_twice"[0] && "engine_failed_twice"[0] != "gate_failed_twice"[0];
    match w.engine(t.calls)
    case Reply(_, actions) =>
      if actions.Some? {
        ActAllConditions(w.root, t.(calls := t.calls + 1), actions.value);
      }
    case _ =>
  }

  /** How a run that got past its preliminaries ends, told by its gate rounds: completed
      exactly when the last round has no failure, `gate_failed_twice` exactly when two
      rounds failed; and a second round only follows a failed first. */
  lemma GatesDecide(w: World)
    ensures var (t, o) := Work(w);
            && (o.Fine? <==> t.rounds != [] && !GatesFailed(t.rounds))
            && (o == Halted("gate_failed_twice") <==> GatesFailedTwice(t.rounds))
            && (|t.rounds| == 2 ==> RoundFailed(t.rounds[0]))
  {
    var declared := Declare(w, NOTHING);
    DeclareConditions(w);
    if declared.1.Fine? {
      ImplementContained(w, declared.0);
      var first := Implement(w, declared.0);
      if w.maxTurns.Some? {
        TurnsConditions(w, declared.0, w.maxTurns.value);
      }
      if first.1.Fine? {
        var gated := RunGates(w, first.0);
        ImplementContained(w, gated);
        TurnsConditions(w, gated, w.maxTurns.value);
      }
    }
  }

  lemma DeclareConditions(w: World)
    ensures Declare(w, NOTHING).1 != Halted("gate_failed_twice")
    ensures Contained(Declare(w, NOTHING).0) && Declare(w, NOTHING).0.rounds == []
  {
    assert "model_not_json"[0] != "gate_failed_twice"[0] && "engine_failed_twice"[0] != "gate_failed_twice"[0];
    assert "declaration_invalid"[0] != "gate_failed_twice"[0] && "path_escape"[0] != "gate_failed_twice"[0];
  }

  /** What a run has done when its preliminaries went like that. */
  function Performed(w: World, ready: Outcome): Trace { if ready.Fine? then Work(w).0 else NOTHING }

  lemma WorkContained(w: World)
    ensures Contained(Work(w).0)
  {
    var declared := Declare(w, NOTHING);
    DeclareConditions(w);
    if declared.1.Fine? {
      ImplementContained(w, declared.0);
      var first := Implement(w, declared.0);
      if first.1.Fine? {
        ImplementContained(w, RunGates(w, first.0));
      }
    }
  }

  lemma NoPaths(s: seq<Path>)
    ensures Paths(s) == {} <==> s == []
  {
    if s != [] {
      assert s[0] in Paths(s);
    }
  }

  /** A completed run's report splits the declaration into what was written and what was
      not. The report of any other run names no file: a report tells what was written
      exactly when the run completed or has written nothing. */
  lemma ReportsSplitTheDeclaration(w: World, ready: Outcome)
    ensures var t := Performed(w, ready);
            match EndingOf(ready, t, Work(w).1)
            case Returned(r) =>
              && (r.verdict.Completed? <==> ready.Fine? && Work(w).1.Fine?)
              && (r.verdict.Completed? ==> r.written !! r.notWritten && r.written + r.notWritten == t.declared)
              && (r.verdict.Completed? ==> r.filesChanged == Paths(t.writes) && r.gateResults == t.rounds)
              && (r.filesChanged == Paths(t.writes) <==> r.verdict.Completed? || t.writes == [])
            case Raised(e) =>
              e.Some? ==>
                && e.value.verdict.Incomplete?
                && (e.value.filesChanged == Paths(t.writes) <==> t.writes == [])
  {
    WorkContained(w);
    NoPaths(Performed(w, ready).writes);
    assert Paths(Work(w).0.writes) <= Work(w).0.declared;
  }

  /** An agent that declares one file, writes it and is then cut off. */
  function CutOff(name: string): World {
    World([],
          n => if n == 0 then Reply(Listed([Some(name)]), None)
               else if n == 1 then Reply(NotAList, Some([WriteFile(name, "", Works)]))
               else GivesUp,
          n => [], Some(2))
  }

  lemma CutOffDeclares(name: string)
    requires Component(name) && !Blank(name)
    ensures Resolve([], name) == Some([name])
    ensures Declare(CutOff(name), NOTHING) == (Trace({[name]}, [], [], [], 1, []), Fine)
  {
    PosixResolvesBack([], [name]);
    assert Posix([name]) == name;
    var f := Listed([Some(name)]);
    assert f.items[0].value == name && GuardOf([], f).Fine?;
    assert Resolve([], f.items[0].value).value in DeclaredBy([], f);
    assert DeclaredBy([], f) == {[name]};
  }

  lemma CutOffWrites(name: string, t: Trace)
    requires Component(name) && !Blank(name) && t == Trace({[name]}, [], [], [], 1, [])
    ensures Turn(CutOff(name), t) == (Trace({[name]}, [[name]], [[name]], [], 2, []), More)
  {
    CutOffDeclares(name);
    var a := WriteFile(name, "", Works);
    assert [a][..|[a]| - 1] == [];
    assert ActAll([], t.(calls := 2), []) == (t.(calls := 2), Fine);
    assert t.writes + [[name]] == [[name]] && t.touched + [[name]] == [[name]];
    assert Act([], t.(calls := 2), a) == (Trace({[name]}, [[name]], [[name]], [], 2, []), Fine);
    assert Done !in [a];
  }

  /** It has written the file, and its report names none. */
  lemma UnreportedWrite(name: string)
    requires Component(name) && !Blank(name)
    ensures Work(CutOff(name)).0.writes == [[name]]
    ensures EndingOf(Fine, Performed(CutOff(name), Fine), Work(CutOff(name)).1)
            == Returned(Report(RunHalted("engine_failed_twice"), {}, [], {}, {}))
  {
    var w, t := CutOff(name), Trace({[name]}, [], [], [], 1, []);
    CutOffDeclares(name);
    CutOffWrites(name, t);
    assert Turns(w, t, 2) == Turns(w, Turn(w, t).0, 1);
    assert Turn(w, Turn(w, t).0).1 == Stopped(Halted("engine_failed_twice"));
  }

  // ---- the runtime as the program has it ---------------------------------------------------------------

  class Runtime {
    const world: World
    const env: Envelope
    var touched: seq<Path>
    var executed: seq<seq<string>>
    var calls: nat
    var rounds: seq<seq<int>>

    ghost function Now(): Trace
      reads this, env
    {
      Trace(env.declared, env.writes, touched, executed, calls, rounds)
    }

    constructor (world: World)
      ensures this.world == world && env.root == world.root && fresh(env) && Now() == NOTHING
    {
      this.world := world;
      env := new Envelope(world.root);
      touched, executed, calls, rounds := [], [], 0, [];
    }

    method Complete() returns (c: Completion)
      modifies this`calls
      ensures c == world.engine(old(calls)) && calls == old(calls) + 1
    {
      c := world.engine(calls);
      calls := calls + 1;
    }

    method ToolResult(a: Action) returns (o: Outcome)
      requires env.root == world.root
      modifies this, env
      ensures calls == old(calls) && rounds == old(rounds)
      ensures (Now(), o) == Act(world.root, old(Now()), a)
    {
      match a {
        case ReadFile(path, io) =>
          if Resolve(env.root, path).None? {
            return Halted("path_escape");
          }
          o := if io.Breaks? then Crashed else Fine;
        case WriteFile(path, _, io) =>
          o := env.CheckWrite(path);
          if o.Fine? {
            touched := touched + [Resolve(env.root, path).value];
            if !io.Works? {
              return Crashed;
            }
            env.RecordWrite(path);
          }
        case Command(argv) =>
          if Allowed(argv) {
            executed := executed + [argv];
          }
          o := Fine;
        case _ => o := Fine;
      }
    }

    method TakeActions(actions: seq<Action>) returns (o: Outcome, done: bool)
      requires env.root == world.root
      modifies this, env
      ensures (Now(), o) == ActAll(world.root, old(Now()), actions)
      ensures o.Fine? ==> done == (Done in actions)
    {
      ghost var start := Now();
      o, done := Fine, false;
      assert actions[..0] == [];
      for i := 0 to |actions|
        invariant o == Fine && (Now(), o) == ActAll(world.root, start, actions[..i])
        invariant done == (Done in actions[..i])
      {
        ActAllNext(world.root, start, actions, i);
        if actions[i].Done? {
          done := true;
        } else {
          o := ToolResult(actions[i]);
          if !o.Fine? {
            return;
          }
        }
      }
      assert actions[..|actions|] == actions;
    }

    method ImplementPhase() returns (o: Outcome)
      requires env.root == world.root
      modifies this, env
      ensures (Now(), o) == Implement(world, old(Now()))
    {
      if world.maxTurns.None? {
        return Crashed;
      }
      ghost var start := Now();
      var turn := 0;
      while turn < world.maxTurns.value
        invariant Turns(world, start, world.maxTurns.value) == Turns(world, Now(), world.maxTurns.value - turn)
        decreases world.maxTurns.value - turn
      {
        var reply := Complete();
        match reply {
          case GivesUp => return Halted("engine_failed_twice");
          case NotJson => return Halted("model_not_json");
          case Garbled => return Crashed;
          case Reply(_, actions) =>
            if actions.None? {
              return Halted("model_not_json");
            }
            var done;
            o, done := TakeActions(actions.value);
            if !o.Fine? {
              return;
            }
            if done {
              return Fine;
            }
        }
        turn := turn + 1;
      }
      o := Halted("max_turns_exceeded");
    }

    method RunAllGates()
      modifies this`rounds
      ensures rounds == old(rounds) + [world.gates(|old(rounds)|)]
    {
      rounds := rounds + [world.gates(|rounds|)];
    }

    /** `run`, once the request, bundle, law and engine have been read. */
    method Steps() returns (o: Outcome)
      requires env.root == world.root && Now() == NOTHING
      modifies this, env
      ensures (Now(), o) == Work(world)
    {
      var c := Complete();
      match c {
        case GivesUp => return Halted("engine_failed_twice");
        case NotJson => return Halted("model_not_json");
        case Garbled => return Crashed;
        case Reply(files, _) =>
          o := env.Guard(files);
          if !o.Fine? {
            return;
          }
      }
      assert (Now(), Fine) == Declare(world, NOTHING);
      o := ImplementPhase();
      if !o.Fine? {
        return;
      }
      RunAllGates();
      if GatesFailed(rounds) {
        o := ImplementPhase();
        if !o.Fine? {
          return;
        }
        RunAllGates();
      }
      if GatesFailed(rounds) {
        return Halted("gate_failed_twice");
      }
      o := Fine;
    }

    method Run(ready: Outcome) returns (e: Ending)
      requires env.root == world.root && Now() == NOTHING
      modifies this, env
      ensures Now() == Performed(world, ready)
      ensures e == EndingOf(ready, Now(), Work(world).1)
    {
      if ready.Crashed? {
        return Raised(None);
      }
      if ready.Halted? {
        return Returned(Report(RunHalted(ready.condition), {}, [], {}, {}));
      }
      var o := Steps();
      match o {
        case Fine =>
          var notWritten, written := env.Deviations();
          e := Returned(Report(Completed, written, rounds, notWritten, written));
        case Halted(c) => e := Returned(Report(RunHalted(c), {}, [], {}, {}));
        case Crashed => e := Raised(Some(Report(Incomplete, {}, [], {}, {})));
      }
    }
  }

  lemma {:induction false} ActAllNext(root: Path, t: Trace, actions: seq<Action>, i: nat)
    requires i < |actions|
    ensures ActAll(root, t, actions[..i + 1])
            == (var before := ActAll(root, t, actions[..i]);
                if before.1.Fine? then Act(root, before.0, actions[i]) else before)
    ensures !ActAll(root, t, actions[..i + 1]).1.Fine? ==> ActAll(root, t, actions) == ActAll(root, t, actions[..i + 1])
  {
    assert actions[..i + 1][..i] == actions[..i];
    if !ActAll(root, t, actions[..i + 1]).1.Fine? {
      StopsThere(root, t, actions, i + 1);
    }
  }

  lemma {:induction false} StopsThere(root: Path, t: Trace, actions: seq<Action>, i: nat)
    requires i <= |actions| && !ActAll(root, t, actions[..i]).1.Fine?
    ensures ActAll(root, t, actions) == ActAll(root, t, actions[..i])
  {
    if i == |actions| {
      assert actions[..i] == actions;
    } else {
      assert actions[..|actions| - 1][..i] == actions[..i];
      StopsThere(root, t, actions[..|actions| - 1], i);
    }
  }
}
