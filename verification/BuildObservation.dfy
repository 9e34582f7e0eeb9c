/** The observation stamp across polls, and the stall it decides
    (frontend/src/buildProgress.ts:13-21, 268-374, 813-850). Times are milliseconds, ages seconds. */
module BuildObservation {
  import opened Common
  import opened BuildRecord

  const STALE_AFTER := 180.0
  const STALL_AFTER := 1800.0
  const MODEL_CALL_DEADLINE := 2400.0

  predicate SameEvent(next: Build, prev: Build) {
    && prev.state == next.state
    && prev.live.seen.eventAt == next.live.seen.eventAt
    && prev.live.seen.event == next.live.seen.event
    && prev.live.seen.activity == next.live.seen.activity
  }

  predicate WaveReset(next: Option<Progress>, prev: Option<Progress>) {
    && prev.Some? && next.Some?
    && prev.value.stage == next.value.stage && prev.value.total == next.value.total && next.value.done < prev.value.done
  }

  function Restamped(next: Build, observed: Option<real>, base: Option<real>, wave: bool): Build {
    next.(live := next.live.(seen := next.live.seen.(observedMs := observed, baseAge := base, waveReset := wave)))
  }

  function FirstOf(a: Option<real>, b: Option<real>, c: Option<real>): Option<real> {
    if a.Some? then a else if b.Some? then b else c
  }

  /** `stampBuildObservation`. */
  function Stamp(next: Build, prev: Option<Build>, nowMs: real): Build {
    if prev.Some? && SameEvent(next, prev.value) && prev.value.live.seen.observedMs.Some? then
      var was := prev.value.live.seen;
      Restamped(next, was.observedMs, FirstOf(was.baseAge, was.eventAge, next.live.seen.eventAge), was.waveReset)
    else
      Restamped(next, Some(nowMs), next.live.seen.eventAge,
                WaveReset(next.live.seen.progress, if prev.Some? then prev.value.live.seen.progress else None))
  }

  function Since(fromMs: real, nowMs: real): real { Max(0.0, (nowMs - fromMs) / 1000.0) }

  /** `eventAgeSeconds`. */
  function EventAge(seen: Observation, nowMs: real): Option<real> {
    var byClock := if seen.eventAt.Some? && seen.eventAt.value.text != "" && seen.eventAt.value.parsedMs.Some?
                   then Some(Since(seen.eventAt.value.parsedMs.value, nowMs)) else None;
    var byStamp := if seen.baseAge.Some? && seen.observedMs.Some?
                   then Some(seen.baseAge.value + Since(seen.observedMs.value, nowMs)) else seen.eventAge;
    if byClock.None? then byStamp
    else if byStamp.None? then byClock
    else Some(Max(byClock.value, byStamp.value))
  }

  /** No age counts as younger than any. */
  predicate NoYounger(later: Option<real>, earlier: Option<real>) {
    earlier.None? || (later.Some? && later.value >= earlier.value)
  }

  lemma SinceGrows(fromMs: real, t: real, u: real)
    requires t <= u
    ensures Since(fromMs, t) <= Since(fromMs, u)
  {
  }

  /** A record the page has stamped: an age, if it has one, was stamped too. */
  predicate Stamped(b: Build) {
    b.live.seen.observedMs.Some? && (b.live.seen.baseAge.None? ==> b.live.seen.eventAge.None?)
  }

  lemma StampIsStamped(next: Build, prev: Option<Build>, nowMs: real)
    ensures Stamped(Stamp(next, prev, nowMs))
  {
  }

  lemma AgeGrows(seen: Observation, t: real, u: real)
    requires t <= u
    ensures NoYounger(EventAge(seen, u), EventAge(seen, t))
  {
    if seen.eventAt.Some? && seen.eventAt.value.parsedMs.Some? {
      SinceGrows(seen.eventAt.value.parsedMs.value, t, u);
    }
    if seen.observedMs.Some? {
      SinceGrows(seen.observedMs.value, t, u);
    }
  }

  /** A later poll of the same event shows it no younger, whatever age the server now gives. */
  lemma PollNoYounger(next: Build, prev: Build, polledMs: real, t: real)
    requires Stamped(prev) && SameEvent(next, prev)
    ensures NoYounger(EventAge(Stamp(next, Some(prev), polledMs).live.seen, t), EventAge(prev.live.seen, t))
  {
  }

  // ---- any number of polls -------------------------------------------------------------------

  datatype Poll = Poll(build: Build, atMs: real)

  /** What the page holds after these polls, the first on top of `prev`. */
  function Shown(prev: Option<Build>, polls: seq<Poll>): Option<Build> {
    if polls == [] then prev
    else
      var last := polls[|polls| - 1];
      Some(Stamp(last.build, Shown(prev, polls[..|polls| - 1]), last.atMs))
  }

  predicate OneEvent(polls: seq<Poll>) {
    forall i :: 0 < i < |polls| ==> SameEvent(polls[i].build, polls[0].build)
  }

  /** Across any polls of one event the age shown never falls. */
  lemma {:induction false} AgeNeverFalls(prev: Option<Build>, polls: seq<Poll>, i: nat, t: real, u: real)
    requires 0 < i <= |polls| && OneEvent(polls) && t <= u
    ensures Shown(prev, polls[..i]).Some? && Shown(prev, polls).Some?
    ensures Stamped(Shown(prev, polls).value) && SameEvent(Shown(prev, polls).value, polls[0].build)
    ensures NoYounger(EventAge(Shown(prev, polls).value.live.seen, u),
                      EventAge(Shown(prev, polls[..i]).value.live.seen, t))
    decreases |polls|
  {
    var front, last := polls[..|polls| - 1], polls[|polls| - 1];
    StampIsStamped(last.build, Shown(prev, front), last.atMs);
    if i == |polls| {
      assert polls[..i] == polls;
      AgeGrows(Shown(prev, polls).value.live.seen, t, u);
    } else {
      assert front[..i] == polls[..i];
      AgeNeverFalls(prev, front, i, t, u);
      PollNoYounger(last.build, Shown(prev, front).value, last.atMs, u);
    }
  }

  // ---- stalling ---------------------------------------------------------------------------------

  function Deadline(b: Build): Option<real> {
    if b.live.deadline.Some? then b.live.deadline else if b.live.modelCall then Some(MODEL_CALL_DEADLINE) else None
  }

  /** `withClientStall`, as far as the state it shows. */
  function WithClientStall(raw: Build, nowMs: real): State {
    var b := WithExportHonesty(WithLedgerHonesty(raw));
    if b.state != Building then b.state else StallOf(b, EventAge(b.live.seen, nowMs))
  }

  function StallOf(b: Build, age: Option<real>): State {
    var deadline := Deadline(b);
    if b.live.modelCall && deadline.Some? && age.Some? && age.value >= deadline.value then Failed
    else if b.live.modelCall && deadline.Some? && age.Some? && age.value < deadline.value then Building
    else if age.None? || age.value < STALL_AFTER then Building
    else Stalled
  }

  /** How old the last event may get: the model call's deadline while one is under way,
      half an hour otherwise. */
  function Patience(b: Build): real {
    if b.live.modelCall then Deadline(b).value else STALL_AFTER
  }

  lemma HonestyLeavesBuilding(b: Build)
    requires b.state == Building
    ensures WithExportHonesty(WithLedgerHonesty(b)) == b
  {
    assert WithLedgerHonesty(b) == b && Reevaluate(b) == b;
  }

  /** A building record is shown as dead exactly when its last event is older than that;
      as timed out when a model call is under way, as stalled when none is. */
  lemma StallExactly(b: Build, nowMs: real)
    requires b.state == Building
    ensures var age := EventAge(b.live.seen, nowMs);
            WithClientStall(b, nowMs)
            == if age.None? || age.value < Patience(b) then Building else if b.live.modelCall then Failed else Stalled
  {
    HonestyLeavesBuilding(b);
  }

  /** A fixed snapshot once shown as stalled or timed out stays so. */
  lemma StallStays(b: Build, t: real, u: real)
    requires b.state == Building && t <= u && WithClientStall(b, t) != Building
    ensures WithClientStall(b, u) == WithClientStall(b, t)
  {
    StallExactly(b, t);
    StallExactly(b, u);
    AgeGrows(b.live.seen, t, u);
  }

  lemma OlderStaysStalled(early: Build, late: Build, t: real, u: real)
    requires early.state == Building && late.state == Building
    requires late.live.modelCall == early.live.modelCall && late.live.deadline == early.live.deadline
    requires NoYounger(EventAge(late.live.seen, u), EventAge(early.live.seen, t))
    requires WithClientStall(early, t) != Building
    ensures WithClientStall(late, u) == WithClientStall(early, t)
  {
    StallExactly(early, t);
    StallExactly(late, u);
  }

  lemma {:induction false} ShownKeeps(prev: Option<Build>, polls: seq<Poll>)
    requires polls != []
    ensures Shown(prev, polls).Some?
    ensures var b, last := Shown(prev, polls).value, polls[|polls| - 1].build;
            b.state == last.state && b.live.modelCall == last.live.modelCall && b.live.deadline == last.live.deadline
  {
  }

  /** ... and so across polls of one event, whatever ages the server gives, as long as the
      model call's fields stay. */
  lemma {:induction false} StallStaysAcrossPolls(prev: Option<Build>, polls: seq<Poll>, i: nat, t: real, u: real)
    requires 0 < i <= |polls| && OneEvent(polls) && t <= u
    requires polls[0].build.state == Building
    requires polls[|polls| - 1].build.live.modelCall == polls[i - 1].build.live.modelCall
    requires polls[|polls| - 1].build.live.deadline == polls[i - 1].build.live.deadline
    requires Shown(prev, polls[..i]).Some? && Shown(prev, polls).Some?
    requires WithClientStall(Shown(prev, polls[..i]).value, t) != Building
    ensures WithClientStall(Shown(prev, polls).value, u) == WithClientStall(Shown(prev, polls[..i]).value, t)
  {
    AgeNeverFalls(prev, polls, i, t, u);
    ShownKeeps(prev, polls[..i]);
    ShownKeeps(prev, polls);
    OlderStaysStalled(Shown(prev, polls[..i]).value, Shown(prev, polls).value, t, u);
  }

  // ---- the heartbeat line ---------------------------------------------------------------------------

  datatype Heartbeat = TimedOut | QuietInCall | Quiet | WaitingOnModel | StillWorking

  /** `formatHeartbeat` of a building record. */
  function HeartbeatOf(b: Build, nowMs: real): Heartbeat {
    var age, deadline := EventAge(b.live.seen, nowMs), Deadline(b);
    var stale := b.live.stale || (age.Some? && age.value >= STALE_AFTER);
    if b.live.modelCall && deadline.Some? && age.Some? && age.value >= deadline.value then TimedOut
    else if b.live.modelCall && stale && (deadline.None? || age.None? || age.value < deadline.value) then QuietInCall
    else if stale then Quiet
    else if b.live.modelCall then WaitingOnModel
    else StillWorking
  }

  /** The heartbeat line and the state agree: timed out on both or neither, and a stalled
      build's line has said quiet since the event was three minutes old. */
  lemma HeartbeatAgrees(b: Build, nowMs: real)
    requires b.state == Building
    ensures HeartbeatOf(b, nowMs) == TimedOut <==> WithClientStall(b, nowMs) == Failed
    ensures WithClientStall(b, nowMs) == Stalled ==> HeartbeatOf(b, nowMs) == Quiet
    ensures HeartbeatOf(b, nowMs) == Quiet && !b.live.stale
            ==> EventAge(b.live.seen, nowMs).Some? && EventAge(b.live.seen, nowMs).value >= STALE_AFTER
  {
    StallExactly(b, nowMs);
  }
}
