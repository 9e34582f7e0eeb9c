/** The stamp of a poll, the age of an event and the heartbeat line, told by the fields alone
    (frontend/src/buildProgress.ts:13-21, 268-374, 813-850). */
module ObservationCases {
  import opened BuildCases
  import opened BuildObservation
  import opened BuildRecord
  import opened Common

  /** The record still shows the event that the page stamped before. */
  predicate StillTheSame(next: Build, prev: Option<Build>) {
    && prev.Some? && prev.value.live.seen.observedMs.Some? && prev.value.state == next.state
    && var was, now := prev.value.live.seen, next.live.seen;
       was.eventAt == now.eventAt && was.event == now.event && was.activity == now.activity
  }

  /** A wave of the same stage and size has fewer parts done than before. */
  predicate WaveBegan(next: Build, prev: Option<Build>) {
    && prev.Some? && prev.value.live.seen.progress.Some? && next.live.seen.progress.Some?
    && var was, now := prev.value.live.seen.progress.value, next.live.seen.progress.value;
       now.stage == was.stage && now.total == was.total && now.done < was.done
  }

  /** A poll that shows the same event keeps when it was first seen and how old it was then; any
      other is stamped now, with the age it comes with. Nothing else of the record changes. */
  lemma StampExactly(next: Build, prev: Option<Build>, nowMs: real)
    ensures var s := Stamp(next, prev, nowMs).live.seen;
            if StillTheSame(next, prev) then
              var was := prev.value.live.seen;
              && s.observedMs == was.observedMs && s.waveReset == was.waveReset
              && (was.baseAge.Some? ==> s.baseAge == was.baseAge)
              && (was.baseAge.None? && was.eventAge.Some? ==> s.baseAge == was.eventAge)
              && (was.baseAge.None? && was.eventAge.None? ==> s.baseAge == next.live.seen.eventAge)
            else
              && s.observedMs == Some(nowMs) && s.baseAge == next.live.seen.eventAge
              && (s.waveReset <==> WaveBegan(next, prev))
    ensures var s := Stamp(next, prev, nowMs);
            next == s.(live := s.live.(seen := s.live.seen.(observedMs := next.live.seen.observedMs,
                                                            baseAge := next.live.seen.baseAge,
                                                            waveReset := next.live.seen.waveReset)))
  {
  }

  /** Seconds from one time to another, none when it has not come. */
  function Ago(fromMs: real, nowMs: real): real { if nowMs <= fromMs then 0.0 else (nowMs - fromMs) / 1000.0 }

  /** The ages an event can be read to have: by its own time, and by the page's stamp or else as the
      server says. */
  function Readings(seen: Observation, nowMs: real): set<real> {
    (if seen.eventAt.Some? && seen.eventAt.value.text != "" && seen.eventAt.value.parsedMs.Some?
     then {Ago(seen.eventAt.value.parsedMs.value, nowMs)} else {})
    + if seen.baseAge.Some? && seen.observedMs.Some? then {seen.baseAge.value + Ago(seen.observedMs.value, nowMs)}
      else if seen.eventAge.Some? then {seen.eventAge.value} else {}
  }

  /** The age shown is the largest of them. */
  lemma AgeExactly(seen: Observation, nowMs: real, age: real)
    ensures EventAge(seen, nowMs) == Some(age) <==> Largest(age, Readings(seen, nowMs))
  {
    if seen.eventAt.Some? && seen.eventAt.value.parsedMs.Some? {
      SinceIsAgo(seen.eventAt.value.parsedMs.value, nowMs);
    }
    if seen.observedMs.Some? {
      SinceIsAgo(seen.observedMs.value, nowMs);
    }
  }

  lemma SinceIsAgo(fromMs: real, nowMs: real)
    ensures Since(fromMs, nowMs) == Ago(fromMs, nowMs)
  {
  }

  /** How long a build is waited for: as long as the model call was given, forty minutes when that is
      not known, half an hour when there is no call. */
  function WaitedFor(b: Build): real {
    if !b.live.modelCall then 1800.0 else if b.live.deadline.Some? then b.live.deadline.value else 2400.0
  }

  predicate Older(b: Build, nowMs: real, seconds: real) {
    exists age :: age in Readings(b.live.seen, nowMs) && age >= seconds
  }

  lemma OlderExactly(b: Build, nowMs: real, seconds: real)
    ensures var age := EventAge(b.live.seen, nowMs);
            Older(b, nowMs, seconds) <==> age.Some? && age.value >= seconds
  {
    var age := EventAge(b.live.seen, nowMs);
    if age.Some? {
      AgeExactly(b.live.seen, nowMs, age.value);
    } else {
      assert Readings(b.live.seen, nowMs) == {};
    }
  }

  /** A building record is shown as dead exactly when its last event is as old as it is waited for:
      as failed when a model call is under way, and as stalled when there is none. */
  lemma DeadExactly(b: Build, nowMs: real)
    requires b.state == Building
    ensures WithClientStall(b, nowMs)
            == if !Older(b, nowMs, WaitedFor(b)) then Building else if b.live.modelCall then Failed else Stalled
  {
    StallExactly(b, nowMs);
    OlderExactly(b, nowMs, WaitedFor(b));
  }

  /** The heartbeat line, one by one. */
  lemma HeartbeatExactly(b: Build, nowMs: real)
    ensures var line, dead := HeartbeatOf(b, nowMs), Older(b, nowMs, WaitedFor(b));
            var quiet := b.live.stale || Older(b, nowMs, 180.0);
            && (line == TimedOut <==> b.live.modelCall && dead)
            && (line == QuietInCall <==> b.live.modelCall && !dead && quiet)
            && (line == WaitingOnModel <==> b.live.modelCall && !dead && !quiet)
            && (line == Quiet <==> !b.live.modelCall && quiet)
            && (line == StillWorking <==> !b.live.modelCall && !quiet)
  {
    OlderExactly(b, nowMs, WaitedFor(b));
    OlderExactly(b, nowMs, 180.0);
  }
}
