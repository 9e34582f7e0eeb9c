/** The forked child and its one-message pipe, step by step, with the child dying at any
    moment (backend/app/cerebrum_product_kernel/isolation.py:74-266). */
module Isolation {
  import opened Common

  type Value = string

  /** How the isolated function ends, if it ends. */
  datatype Fate = Returns(result: Value) | OutOfMemory | Raises(text: string)

  datatype Message = Ok(result: Value) | Memory | Error(text: string)

  function MessageOf(f: Fate): Message {
    match f
    case Returns(v) => Ok(v)
    case OutOfMemory => Memory
    case Raises(text) => Error(text)
  }

  /** What the host answers: is there a `resource` module, how big is the parent, the
      hard limit if finite, and whether setting the limit is refused (ValueError or
      OSError) or fails some other way. */
  datatype Host = Host(hasResource: bool, vmSize: Option<nat>, hard: Option<nat>, refuses: bool, breaks: bool)

  datatype Budgeting = Capped(limit: int) | Uncapped | Broke

  datatype Job = Job(fallback: Value, title: string, budget: int, budgetText: string, waitText: string)

  // ---- the address-space budget -------------------------------------------------------------

  /** `apply_child_address_space_budget`. */
  method ApplyBudget(host: Host, budget: int) returns (r: Budgeting)
    ensures r == BudgetOf(host, budget)
    ensures r.Capped? ==> host.vmSize.Some? && r.limit <= host.vmSize.value + budget
                          && (host.hard.Some? ==> r.limit <= host.hard.value)
                          && (r.limit == host.vmSize.value + budget || host.hard == Some(r.limit))
    ensures r.Capped? <==> host.hasResource && host.vmSize.Some? && !host.refuses && !host.breaks
    ensures host.refuses ==> r == Uncapped
  {
    if !host.hasResource {
      return Uncapped;
    }
    if host.vmSize.None? {
      return Uncapped;
    }
    var limit := host.vmSize.value + budget;
    if host.refuses {
      return Uncapped;
    }
    if host.hard.Some? && host.hard.value < limit {
      limit := host.hard.value;
    }
    if host.breaks {
      return Broke;
    }
    r := Capped(limit);
  }

  function BudgetOf(host: Host, budget: int): Budgeting {
    if !host.hasResource || host.vmSize.None? || host.refuses then Uncapped
    else if host.breaks then Broke
    else
      var want := host.vmSize.value + budget;
      Capped(if host.hard.Some? && host.hard.value < want then host.hard.value else want)
  }

  /** `isolation_available`. */
  predicate Available(enabled: bool, nested: bool, posix: bool, modules: bool, fork: bool) {
    enabled && !nested && posix && modules && fork
  }

  // ---- the two processes -----------------------------------------------------------------------

  datatype ChildAt = Forked | Capping | Working | Finished | Replied | HungUp | Dead

  datatype ParentAt = Waiting | Decided | Closed | Reaped | Returned

  datatype Status = Crash | Timeout | Got(message: Message)

  datatype Diagnosis = Empty | Failed(status: Status, detail: string)

  /** The child, with what it did so far: how the function ended, and whether it was killed
      or a send was lost. */
  datatype Child = Child(at: ChildAt, budgeting: Option<Budgeting>, nested: bool, fate: Option<Fate>,
                         killed: bool, lost: bool)

  /** The pipe: what is in it, every message ever put in it, and which ends are open. */
  datatype Pipe = Pipe(held: seq<Message>, sent: seq<Message>, childEnd: bool, parentEnd: bool)

  datatype Parent = Parent(at: ParentAt, status: Status, answer: Option<(Value, Diagnosis)>)

  datatype State = State(child: Child, pipe: Pipe, parent: Parent)

  const START := State(Child(Forked, None, false, None, false, false), Pipe([], [], true, true),
                       Parent(Waiting, Crash, None))

  datatype Step =
    | SetBudget | MarkNested | Finish(fate: Fate) | Send(works: bool) | HangUp | Exit | Kill
    | Receive | SeeEof | Expire | CloseEnd | Reap(obeys: bool) | Return(exitcode: string)

  function Reason(job: Job, status: Status, exitcode: string): string {
    match status
    case Got(Memory) => job.title + " exceeded the " + job.budgetText + " MB child budget"
    case Timeout => job.title + " exceeded " + job.waitText + "s"
    case Crash => job.title + " child died (exitcode=" + exitcode + ")"
    case Got(Ok(v)) => job.title + " failed: " + v
    case Got(Error(text)) => job.title + " failed: " + text
  }

  function AnswerOf(job: Job, status: Status, exitcode: string): (Value, Diagnosis) {
    if status.Got? && status.message.Ok? then (status.message.result, Empty)
    else (job.fallback, Failed(status, Reason(job, status, exitcode)))
  }

  function ChildNext(host: Host, job: Job, s: State, step: Step): Option<State> {
    match step
    case SetBudget =>
      if s.child.at != Forked then None
      else
        var b := BudgetOf(host, job.budget);
        Some(s.(child := s.child.(at := if b.Broke? then Replied else Capping, budgeting := Some(b))))
    case MarkNested =>
      if s.child.at != Capping then None else Some(s.(child := s.child.(at := Working, nested := true)))
    case Finish(f) =>
      if s.child.at != Working then None else Some(s.(child := s.child.(at := Finished, fate := Some(f))))
    case Send(works) =>
      if s.child.at != Finished || s.child.fate.None? then None
      else if works && s.pipe.parentEnd then
        Some(s.(child := s.child.(at := Replied), pipe := Put(s.pipe, MessageOf(s.child.fate.value))))
      else Some(s.(child := s.child.(at := Replied, lost := true)))
    case HangUp =>
      if s.child.at != Replied then None
      else Some(s.(child := s.child.(at := HungUp), pipe := s.pipe.(childEnd := false)))
    case Exit => if s.child.at != HungUp then None else Some(s.(child := s.child.(at := Dead)))
    case Kill =>
      if s.child.at == Dead then None
      else Some(s.(child := s.child.(at := Dead, killed := true), pipe := s.pipe.(childEnd := false)))
    case _ => None
  }

  function Put(pipe: Pipe, m: Message): Pipe { pipe.(held := pipe.held + [m], sent := pipe.sent + [m]) }

  function ParentNext(job: Job, s: State, step: Step): Option<State> {
    match step
    case Receive =>
      if s.parent.at != Waiting || s.pipe.held == [] then None
      else
        Some(s.(parent := s.parent.(at := Decided, status := Got(s.pipe.held[0])),
                pipe := s.pipe.(held := s.pipe.held[1..])))
    case SeeEof =>
      if s.parent.at != Waiting || s.pipe.held != [] || s.pipe.childEnd then None
      else Some(s.(parent := s.parent.(at := Decided, status := Crash)))
    case Expire =>
      if s.parent.at != Waiting || s.pipe.held != [] || !s.pipe.childEnd then None
      else Some(s.(parent := s.parent.(at := Decided, status := Timeout)))
    case CloseEnd =>
      if s.parent.at != Decided then None
      else Some(s.(parent := s.parent.(at := Closed), pipe := s.pipe.(parentEnd := false)))
    case Reap(obeys) =>
      if s.parent.at != Closed then None
      else if s.child.at == Dead || !obeys then Some(s.(parent := s.parent.(at := Reaped)))
      else
        Some(s.(parent := s.parent.(at := Reaped), child := s.child.(at := Dead, killed := true),
                pipe := s.pipe.(childEnd := false)))
    case Return(exitcode) =>
      if s.parent.at != Reaped then None
      else Some(s.(parent := s.parent.(at := Returned, answer := Some(AnswerOf(job, s.parent.status, exitcode)))))
    case _ => None
  }

  predicate ParentStep(step: Step) {
    step.Receive? || step.SeeEof? || step.Expire? || step.CloseEnd? || step.Reap? || step.Return?
  }

  function Next(host: Host, job: Job, s: State, step: Step): Option<State> {
    if ParentStep(step) then ParentNext(job, s, step) else ChildNext(host, job, s, step)
  }

  /** The state after an interleaving, when each of its steps can be taken. */
  function Follow(host: Host, job: Job, steps: seq<Step>): Option<State> {
    if steps == [] then Some(START)
    else
      var before := Follow(host, job, steps[..|steps| - 1]);
      if before.None? then None else Next(host, job, before.value, steps[|steps| - 1])
  }

  // ---- what every interleaving keeps --------------------------------------------------------------

  predicate Early(c: ChildAt) { c == Forked || c == Capping || c == Working }

  predicate Over(c: ChildAt) { c == Replied || c == HungUp || c == Dead }

  predicate ChildSane(s: State) {
    && (Early(s.child.at) ==> s.child.fate.None? && !s.child.killed)
    && (s.child.at == Finished ==> s.child.fate.Some?)
    && (!Over(s.child.at) ==> s.pipe.sent == [] && s.pipe.childEnd && !s.child.lost)
    && (s.child.at == Working || s.child.fate.Some? ==> s.child.nested)
    && (s.child.at == HungUp || s.child.at == Dead ==> !s.pipe.childEnd)
    && (Over(s.child.at) && s.pipe.sent == [] ==> s.child.killed || s.child.lost || s.child.budgeting == Some(Broke))
    && (s.pipe.sent != [] ==> s.child.fate.Some? && s.pipe.sent == [MessageOf(s.child.fate.value)])
  }

  ghost predicate ParentSane(job: Job, s: State) {
    && (s.parent.at == Waiting ==> s.pipe.held == s.pipe.sent && s.parent.status == Crash)
    && (s.parent.at != Waiting && s.parent.status.Got? ==> s.pipe.sent == [s.parent.status.message])
    && (s.parent.at != Waiting && s.parent.status == Crash ==> s.pipe.sent == [] && !s.pipe.childEnd)
    && (s.parent.answer.Some? <==> s.parent.at == Returned)
    && (s.parent.answer.Some? ==> exists e :: s.parent.answer.value == AnswerOf(job, s.parent.status, e))
  }

  lemma ChildKeepsChild(host: Host, job: Job, s: State, step: Step)
    requires ChildSane(s) && ChildNext(host, job, s, step).Some?
    ensures ChildSane(ChildNext(host, job, s, step).value)
  {
  }

  /** The child only writes the pipe while its end is open. */
  lemma ChildFrame(host: Host, job: Job, s: State, step: Step)
    requires ChildSane(s) && ChildNext(host, job, s, step).Some?
    ensures var t := ChildNext(host, job, s, step).value;
            && t.parent.at == s.parent.at && t.parent.status == s.parent.status && t.parent.answer == s.parent.answer
            && ((t.pipe.sent == s.pipe.sent && t.pipe.held == s.pipe.held)
                || (s.pipe.sent == [] && s.pipe.childEnd && exists m :: t.pipe.sent == [m]
                                                              && t.pipe.held == s.pipe.held + [m]))
            && (t.pipe.childEnd ==> s.pipe.childEnd)
  {
    if step.Send? && s.child.at == Finished && s.child.fate.Some? {
      assert s.pipe.sent + [MessageOf(s.child.fate.value)] == [MessageOf(s.child.fate.value)];
    }
  }

  lemma ChildKeepsParent(host: Host, job: Job, s: State, step: Step)
    requires ChildSane(s) && ParentSane(job, s) && ChildNext(host, job, s, step).Some?
    ensures ParentSane(job, ChildNext(host, job, s, step).value)
  {
    ChildFrame(host, job, s, step);
  }

  lemma ParentKeepsSane(job: Job, s: State, step: Step)
    requires ChildSane(s) && ParentSane(job, s) && ParentNext(job, s, step).Some?
    ensures ChildSane(ParentNext(job, s, step).value)
    ensures ParentSane(job, ParentNext(job, s, step).value)
  {
    var t := ParentNext(job, s, step).value;
    match step
    case Return(exitcode) => assert t.parent.answer.value == AnswerOf(job, t.parent.status, exitcode);
    case _ =>
  }

  lemma {:induction false} RunsAreSane(host: Host, job: Job, steps: seq<Step>)
    requires Follow(host, job, steps).Some?
    ensures ChildSane(Follow(host, job, steps).value) && ParentSane(job, Follow(host, job, steps).value)
  {
    if steps == [] {
    } else {
      var before := steps[..|steps| - 1];
      RunsAreSane(host, job, before);
      var s, step := Follow(host, job, before).value, steps[|steps| - 1];
      if ParentStep(step) {
        ParentKeepsSane(job, s, step);
      } else {
        ChildKeepsChild(host, job, s, step);
        ChildKeepsParent(host, job, s, step);
      }
    }
  }

  /** Whatever the interleaving, at most one message enters the pipe: how the function ended. */
  lemma {:induction false} AtMostOneMessage(host: Host, job: Job, steps: seq<Step>)
    requires Follow(host, job, steps).Some?
    ensures var s := Follow(host, job, steps).value;
            s.pipe.sent == [] || (s.child.fate.Some? && s.pipe.sent == [MessageOf(s.child.fate.value)])
  {
    RunsAreSane(host, job, steps);
  }

  /** While the function runs, a nested isolated call does not fork again; the parent's own does
      whenever isolation is enabled and the platform has what it takes. */
  lemma {:induction false} NestedRunsInline(host: Host, job: Job, steps: seq<Step>, enabled: bool, posix: bool,
                                            modules: bool, fork: bool)
    requires Follow(host, job, steps).Some? && Follow(host, job, steps).value.child.at == Working
    ensures !Available(enabled, Follow(host, job, steps).value.child.nested, posix, modules, fork)
    ensures Available(enabled, START.child.nested, posix, modules, fork) <==> enabled && posix && modules && fork
  {
    RunsAreSane(host, job, steps);
  }

  /** The caller gets `(v, {})` exactly when the parent read the function's own `v`; in
      every other run it gets the fallback with a non-empty diagnosis. */
  lemma {:induction false} AnswersAreExact(host: Host, job: Job, steps: seq<Step>, v: Value)
    requires Follow(host, job, steps).Some? && Follow(host, job, steps).value.parent.at == Returned
    ensures var s := Follow(host, job, steps).value;
            && s.parent.answer.Some?
            && (s.parent.answer == Some((v, Empty)) <==> s.parent.status == Got(Ok(v)))
            && (s.parent.answer == Some((v, Empty)) ==> s.child.fate == Some(Returns(v)))
            && (s.parent.answer.value.1 != Empty
                ==> s.parent.answer.value.0 == job.fallback && s.parent.answer.value.1.status == s.parent.status)
            && (s.parent.answer.value.1 != Empty ==> s.parent.answer.value.1.detail != "")
  {
    RunsAreSane(host, job, steps);
  }

  /** What each diagnosis means. A result that was sent is lost only to the timeout. */
  lemma {:induction false} DiagnosesAreTrue(host: Host, job: Job, steps: seq<Step>)
    requires Follow(host, job, steps).Some? && Follow(host, job, steps).value.parent.at == Returned
    ensures var s := Follow(host, job, steps).value;
            && (s.parent.status == Got(Memory) ==> s.child.fate == Some(OutOfMemory))
            && (s.parent.status.Got? && s.parent.status.message.Error?
                ==> s.child.fate == Some(Raises(s.parent.status.message.text)))
            && (s.parent.status == Crash <==> s.pipe.sent == [] && s.parent.status != Timeout)
            && (s.parent.status == Crash ==> s.child.killed || s.child.lost || s.child.budgeting == Some(Broke))
            && (s.pipe.sent != [] && s.parent.status != Timeout ==> s.parent.status == Got(s.pipe.sent[0]))
  {
    RunsAreSane(host, job, steps);
  }

  /** The detail of a diagnosis, word by word. */
  lemma {:induction false} DetailsExactly(host: Host, job: Job, steps: seq<Step>)
    requires Follow(host, job, steps).Some? && Follow(host, job, steps).value.parent.at == Returned
    ensures var s := Follow(host, job, steps).value;
            s.parent.answer.Some? && match s.parent.answer.value.1
            case Empty => s.parent.status.Got? && s.parent.status.message.Ok?
            case Failed(status, detail) =>
              match status
              case Timeout => detail == job.title + " exceeded " + job.waitText + "s"
              case Crash => exists exitcode :: detail == job.title + " child died (exitcode=" + exitcode + ")"
              case Got(Memory) => detail == job.title + " exceeded the " + job.budgetText + " MB child budget"
              case Got(Error(text)) => detail == job.title + " failed: " + text
              case Got(Ok(_)) => false
  {
    RunsAreSane(host, job, steps);
    var s := Follow(host, job, steps).value;
    var exitcode :| s.parent.answer.value == AnswerOf(job, s.parent.status, exitcode);
    if s.parent.status == Crash {
      assert s.parent.answer.value.1.detail == job.title + " child died (exitcode=" + exitcode + ")";
    }
  }

  /** The parent's deadline passes while nothing was sent and the child still holds its end. */
  predicate PassedInVain(host: Host, job: Job, steps: seq<Step>, i: nat)
    requires i < |steps|
  {
    && steps[i].Expire? && Follow(host, job, steps[..i]).Some?
    && var before := Follow(host, job, steps[..i]).value; before.pipe.sent == [] && before.pipe.childEnd
  }

  /** A timeout is diagnosed only for a child that has neither sent nor hung up by the deadline: a
      result is lost only when it is sent later. */
  lemma {:induction false} TimeoutsAreTrue(host: Host, job: Job, steps: seq<Step>)
    requires Follow(host, job, steps).Some?
    requires var s := Follow(host, job, steps).value; s.parent.at != Waiting && s.parent.status == Timeout
    ensures exists i :: 0 <= i < |steps| && PassedInVain(host, job, steps, i)
  {
    var n := |steps| - 1;
    var before, step := steps[..n], steps[n];
    var s := Follow(host, job, before).value;
    RunsAreSane(host, job, before);
    if s.parent.at == Waiting {
      assert PassedInVain(host, job, steps, n);
    } else {
      TimeoutsAreTrue(host, job, before);
      var i :| 0 <= i < n && PassedInVain(host, job, before, i);
      assert before[..i] == steps[..i] && PassedInVain(host, job, steps, i);
    }
  }

  // ---- a refused limit --------------------------------------------------------------------------

  /** The same state, but for how the budget went. */
  predicate SameButBudget(a: State, b: State) {
    b == a.(child := a.child.(budgeting := b.child.budgeting))
  }

  lemma RefusedChildStep(one: Host, two: Host, job: Job, a: State, b: State, step: Step)
    requires SameButBudget(a, b)
    requires !BudgetOf(one, job.budget).Broke? && !BudgetOf(two, job.budget).Broke?
    ensures ChildNext(one, job, a, step).Some? <==> ChildNext(two, job, b, step).Some?
    ensures ChildNext(one, job, a, step).Some?
            ==> SameButBudget(ChildNext(one, job, a, step).value, ChildNext(two, job, b, step).value)
  {
  }

  lemma RefusedParentStep(job: Job, a: State, b: State, step: Step)
    requires SameButBudget(a, b)
    ensures ParentNext(job, a, step).Some? <==> ParentNext(job, b, step).Some?
    ensures ParentNext(job, a, step).Some?
            ==> SameButBudget(ParentNext(job, a, step).value, ParentNext(job, b, step).value)
  {
  }

  /** A host that refuses the limit and one that grants it see the same run: the refusal
      sends nothing and changes no answer. */
  lemma {:induction false} RefusalIsSilent(one: Host, two: Host, job: Job, steps: seq<Step>)
    requires !BudgetOf(one, job.budget).Broke? && !BudgetOf(two, job.budget).Broke?
    ensures Follow(one, job, steps).Some? <==> Follow(two, job, steps).Some?
    ensures Follow(one, job, steps).Some?
            ==> SameButBudget(Follow(one, job, steps).value, Follow(two, job, steps).value)
  {
    if steps == [] {
    } else {
      var before := steps[..|steps| - 1];
      RefusalIsSilent(one, two, job, before);
      if Follow(one, job, before).Some? {
        var a, b, step := Follow(one, job, before).value, Follow(two, job, before).value, steps[|steps| - 1];
        RefusedChildStep(one, two, job, a, b, step);
        RefusedParentStep(job, a, b, step);
      }
    }
  }

  // ---- runs end, and the parent is never stuck --------------------------------------------------------

  function ChildLeft(c: ChildAt): nat {
    match c
    case Forked => 6 case Capping => 5 case Working => 4 case Finished => 3
    case Replied => 2 case HungUp => 1 case Dead => 0
  }

  function ParentLeft(p: ParentAt): nat {
    match p
    case Waiting => 4 case Decided => 3 case Closed => 2 case Reaped => 1 case Returned => 0
  }

  lemma ChildShrinks(host: Host, job: Job, s: State, step: Step)
    requires ChildNext(host, job, s, step).Some?
    ensures var t := ChildNext(host, job, s, step).value;
            ChildLeft(t.child.at) < ChildLeft(s.child.at) && t.parent.at == s.parent.at
  {
  }

  lemma ParentShrinks(job: Job, s: State, step: Step)
    requires ParentNext(job, s, step).Some?
    ensures var t := ParentNext(job, s, step).value;
            ParentLeft(t.parent.at) < ParentLeft(s.parent.at) && ChildLeft(t.child.at) <= ChildLeft(s.child.at)
  {
  }

  /** No interleaving has more than ten steps. */
  lemma {:induction false} RunsAreShort(host: Host, job: Job, steps: seq<Step>)
    requires Follow(host, job, steps).Some?
    ensures var s := Follow(host, job, steps).value;
            |steps| + ChildLeft(s.child.at) + ParentLeft(s.parent.at) <= 10
  {
    if steps == [] {
    } else {
      var before := steps[..|steps| - 1];
      RunsAreShort(host, job, before);
      var s, step := Follow(host, job, before).value, steps[|steps| - 1];
      if ParentStep(step) {
        ParentShrinks(job, s, step);
      } else {
        ChildShrinks(host, job, s, step);
      }
    }
  }

  /** Until it returns, the parent always has a step it can take, whatever the child does. */
  lemma ParentNeverStuck(host: Host, job: Job, steps: seq<Step>) returns (step: Step)
    requires Follow(host, job, steps).Some? && Follow(host, job, steps).value.parent.at != Returned
    ensures ParentStep(step) && Follow(host, job, steps + [step]).Some?
  {
    var s := Follow(host, job, steps).value;
    step := match s.parent.at
      case Waiting => if s.pipe.held != [] then Receive else if s.pipe.childEnd then Expire else SeeEof
      case Decided => CloseEnd
      case Closed => Reap(true)
      case _ => Return("");
    assert (steps + [step])[..|steps|] == steps;
  }

  /** Until it is gone, the child always has a step of its own, whatever the parent does. */
  lemma ChildNeverStuck(host: Host, job: Job, steps: seq<Step>) returns (step: Step)
    requires Follow(host, job, steps).Some? && Follow(host, job, steps).value.child.at != Dead
    ensures !ParentStep(step) && step != Kill && Follow(host, job, steps + [step]).Some?
  {
    RunsAreSane(host, job, steps);
    step := match Follow(host, job, steps).value.child.at
      case Forked => SetBudget
      case Capping => MarkNested
      case Working => Finish(OutOfMemory)
      case Finished => Send(true)
      case Replied => HangUp
      case _ => Exit;
    assert (steps + [step])[..|steps|] == steps;
  }

  // ---- the processes as the program has them -----------------------------------------------------------

  /** The function has ended and its one message was put in the pipe, or lost. */
  function Sent(s: State, ended: Fate, works: bool): State {
    State(s.child.(at := Replied, fate := Some(ended), lost := s.child.lost || !(works && s.pipe.parentEnd)),
          if works && s.pipe.parentEnd then Put(s.pipe, MessageOf(ended)) else s.pipe, s.parent)
  }

  lemma FinishThenSend(host: Host, job: Job, s: State, ended: Fate, works: bool)
    requires s.child.at == Working
    ensures Next(host, job, s, Finish(ended)).Some?
    ensures Next(host, job, Next(host, job, s, Finish(ended)).value, Send(works)) == Some(Sent(s, ended, works))
  {
  }

  /** The parent has closed its end and waited for the child, or ended it. */
  function Cleaned(s: State, obeys: bool): State {
    if s.child.at == Dead || !obeys then State(s.child, s.pipe.(parentEnd := false), s.parent.(at := Reaped))
    else
      State(s.child.(at := Dead, killed := true), s.pipe.(childEnd := false, parentEnd := false),
          s.parent.(at := Reaped))
  }

  lemma CloseThenReap(host: Host, job: Job, s: State, obeys: bool)
    requires s.parent.at == Decided
    ensures Next(host, job, s, CloseEnd).Some?
    ensures Next(host, job, Next(host, job, s, CloseEnd).value, Reap(obeys)) == Some(Cleaned(s, obeys))
  {
  }

  class Processes {
    const host: Host
    const job: Job
    var child: ChildAt
    var budgeting: Option<Budgeting>
    var nested: bool
    var fate: Option<Fate>
    var pipe: seq<Message>
    var childEnd: bool
    var parentEnd: bool
    var parent: ParentAt
    var status: Status
    var answer: Option<(Value, Diagnosis)>
    ghost var sent: seq<Message>
    ghost var killed: bool
    ghost var lost: bool

    ghost function Now(): State
      reads this
    {
      State(Child(child, budgeting, nested, fate, killed, lost), Pipe(pipe, sent, childEnd, parentEnd),
            Parent(parent, status, answer))
    }

    constructor (host: Host, job: Job)
      ensures this.host == host && this.job == job && Now() == START
    {
      this.host, this.job := host, job;
      child, budgeting, nested, fate, pipe := Forked, None, false, None, [];
      childEnd, parentEnd, parent, status, answer := true, true, Waiting, Crash, None;
      sent, killed, lost := [], false, false;
    }

    /** `_child_work` up to the call of the function: a refused limit is not a result. */
    method StartWork()
      requires child == Forked
      modifies this
      ensures var budgeted := Next(host, job, old(Now()), SetBudget).value;
              Now() == if budgeted.child.at == Replied then budgeted else Next(host, job, budgeted, MarkNested).value
    {
      var b := ApplyBudget(host, job.budget);
      budgeting := Some(b);
      if b.Broke? {
        child := Replied;
        return;
      }
      child := Capping;
      nested := true;
      child := Working;
    }

    /** The rest of `_child_work`: one `_safe_send`, whichever way the function ended. */
    method SendResult(ended: Fate, works: bool)
      requires child == Working
      modifies this
      ensures Now() == Next(host, job, Next(host, job, old(Now()), Finish(ended)).value, Send(works)).value
    {
      FinishThenSend(host, job, Now(), ended, works);
      fate := Some(ended);
      child := Replied;
      if works && parentEnd {
        var m := match ended
          case Returns(v) => Ok(v)
          case OutOfMemory => Memory
          case Raises(text) => Error(text);
        pipe := pipe + [m];
        sent := sent + [m];
      } else {
        lost := true;
      }
    }

    /** The parent's wait: the first message, the end of the pipe, or the deadline. */
    method Await()
      requires parent == Waiting
      modifies this
      ensures var step := if old(pipe) != [] then Receive else if old(childEnd) then Expire else SeeEof;
              Next(host, job, old(Now()), step) == Some(Now())
    {
      status := Crash;
      if pipe != [] {
        status := Got(pipe[0]);
        pipe := pipe[1..];
      } else if childEnd {
        status := Timeout;
      }
      parent := Decided;
    }

    /** Closing the pipe, then waiting for the child or ending it. */
    method Clean(obeys: bool)
      requires parent == Decided
      modifies this
      ensures Some(Now()) == Next(host, job, Next(host, job, old(Now()), CloseEnd).value, Reap(obeys))
    {
      CloseThenReap(host, job, Now(), obeys);
      parentEnd := false;
      if child != Dead && obeys {
        child, childEnd, killed := Dead, false, true;
      }
      parent := Reaped;
    }

    method Conclude(exitcode: string) returns (result: Value, diag: Diagnosis)
      requires parent == Reaped
      modifies this
      ensures Some(Now()) == Next(host, job, old(Now()), Return(exitcode))
      ensures answer == Some((result, diag))
    {
      parent := Returned;
      if status.Got? && status.message.Ok? {
        result, diag := status.message.result, Empty;
      } else {
        result, diag := job.fallback, Failed(status, Reason(job, status, exitcode));
      }
      answer := Some((result, diag));
    }
  }
}
