/** The nightly backup's timetable (backend/app/core/backup_scheduler.py:57-90, 249-267).
    An instant is a count of microseconds, UTC; a run may last, and a sleep may overshoot,
    by any amount. */
module BackupSchedule {
  import opened Common

  const HOUR: int := 3_600_000_000
  const DAY: int := 86_400_000_000
  const DEFAULT_HOUR := 3

  /** `scheduled_hour`. */
  function ScheduledHour(raw: Setting): (hour: int)
    ensures 0 <= hour <= 23
    ensures raw == Number(hour) || (hour == 3 && forall h :: 0 <= h <= 23 ==> raw != Number(h))
  {
    if raw.Number? && 0 <= raw.value <= 23 then raw.value else DEFAULT_HOUR
  }

  /** `seconds_until_next_run`, in microseconds. */
  function UntilNextRun(hour: int, now: int): int {
    var target := now - now % DAY + hour * HOUR;
    (if target <= now then target + DAY else target) - now
  }

  predicate OnTheHour(hour: int, at: int) { at % DAY == hour * HOUR }

  lemma DayOf(days: int, rest: int)
    requires 0 <= rest < DAY
    ensures (days * DAY + rest) % DAY == rest && (days * DAY + rest) / DAY == days
  {
  }

  /** Each delay is in (0, 24h], lands on the hour, and passes over no earlier one. */
  lemma NextRunIsNext(hour: int, now: int)
    requires 0 <= hour <= 23
    ensures 0 < UntilNextRun(hour, now) <= DAY
    ensures OnTheHour(hour, now + UntilNextRun(hour, now))
    ensures (now + UntilNextRun(hour, now)) % (24 * 3600 * 1_000_000) == hour * 3600 * 1_000_000
    ensures forall at :: now < at < now + UntilNextRun(hour, now) ==> !OnTheHour(hour, at)
  {
    var days, rest := now / DAY, now % DAY;
    assert now == days * DAY + rest;
    var d := if hour * HOUR <= rest then days + 1 else days;
    DayOf(d, hour * HOUR);
    var next := now + UntilNextRun(hour, now);
    assert next == d * DAY + hour * HOUR;
    forall at | now < at < next ensures !OnTheHour(hour, at) {
      if OnTheHour(hour, at) {
        HoursAreADayApart(d, at / DAY, hour * HOUR, at, next);
      }
    }
  }

  lemma HoursAreADayApart(d: int, e: int, rest: int, at: int, next: int)
    requires next == d * DAY + rest && at == e * DAY + rest && at < next
    ensures at <= next - DAY
  {
    assert at - next == (e - d) * DAY;
  }

  /** From a start on the hour, with `elapsed` gone by when the loop looks at the clock
      again, the next start is that many whole days later, and one more. */
  lemma NextStart(hour: int, start: int, elapsed: int)
    requires 0 <= hour <= 23 && OnTheHour(hour, start)
    ensures start + elapsed + UntilNextRun(hour, start + elapsed) == start + (elapsed / DAY + 1) * DAY
  {
    var now := start + elapsed;
    var q, r := elapsed / DAY, elapsed % DAY;
    var s := start / DAY;
    NextRunIsNext(hour, now);
    var next := now + UntilNextRun(hour, now);
    var n := next / DAY;
    assert start == s * DAY + hour * HOUR && next == n * DAY + hour * HOUR && elapsed == q * DAY + r;
    assert (n - s - q) * DAY == UntilNextRun(hour, now) + r;
    OneDay(n - s - q, UntilNextRun(hour, now) + r);
    assert n == s + q + 1;
  }

  lemma OneDay(k: int, sum: int)
    requires k * DAY == sum && 0 < sum < 2 * DAY
    ensures k == 1
  {
  }

  // ---- the loop --------------------------------------------------------------------------

  /** The first starts of the loop entered at `now`, when its i-th round is over, and the
      clock looked at again, `elapsed[i]` after its start. */
  function Starts(hour: int, now: int, elapsed: seq<int>): (starts: seq<int>)
    ensures |starts| == |elapsed| + 1
    decreases |elapsed|
  {
    var first := now + UntilNextRun(hour, now);
    if elapsed == [] then [first] else [first] + Starts(hour, first + elapsed[0], elapsed[1..])
  }

  /** One more start behind those so far; `all` are the starts of the whole loop. */
  lemma {:induction false} StartsNext(starts: seq<int>, hour: int, clock: int, elapsed: seq<int>, i: nat, all: seq<int>)
    requires i < |elapsed| && starts + Starts(hour, clock, elapsed[i..]) == all
    ensures var next := clock + UntilNextRun(hour, clock);
            (starts + [next]) + Starts(hour, next + elapsed[i], elapsed[i + 1..]) == all
  {
    var next := clock + UntilNextRun(hour, clock);
    var later := Starts(hour, next + elapsed[i], elapsed[i + 1..]);
    assert elapsed[i..][1..] == elapsed[i + 1..];
    assert starts + ([next] + later) == (starts + [next]) + later;
  }

  lemma {:induction false} StartsLast(starts: seq<int>, hour: int, clock: int, elapsed: seq<int>, i: nat, all: seq<int>)
    requires i == |elapsed| && starts + Starts(hour, clock, elapsed[i..]) == all
    ensures starts + [clock + UntilNextRun(hour, clock)] == all
  {
    assert elapsed[i..] == [];
  }

  /** `scheduler_loop` for as many rounds as there are. */
  method SchedulerLoop(raw: Setting, now: int, elapsed: seq<int>) returns (starts: seq<int>)
    ensures starts == Starts(ScheduledHour(raw), now, elapsed)
  {
    ghost var all := Starts(ScheduledHour(raw), now, elapsed);
    var clock := now;
    starts := [];
    var i := 0;
    while i < |elapsed|
      invariant 0 <= i <= |elapsed| && |starts| == i
      invariant starts + Starts(ScheduledHour(raw), clock, elapsed[i..]) == all
    {
      StartsNext(starts, ScheduledHour(raw), clock, elapsed, i, all);
      var start := clock + UntilNextRun(ScheduledHour(raw), clock);
      starts := starts + [start];
      clock := start + elapsed[i];
      i := i + 1;
    }
    StartsLast(starts, ScheduledHour(raw), clock, elapsed, i, all);
    starts := starts + [clock + UntilNextRun(ScheduledHour(raw), clock)];
  }

  /** Over the whole loop every start is on the hour and follows the one before by the
      whole days its round used up, and one more. */
  lemma {:induction false} LoopKeepsTheHour(hour: int, now: int, elapsed: seq<int>, i: nat)
    requires 0 <= hour <= 23 && i <= |elapsed|
    ensures OnTheHour(hour, Starts(hour, now, elapsed)[i])
    ensures i < |elapsed|
            ==> Starts(hour, now, elapsed)[i + 1] == Starts(hour, now, elapsed)[i] + (elapsed[i] / DAY + 1) * DAY
    decreases i
  {
    var first := now + UntilNextRun(hour, now);
    NextRunIsNext(hour, now);
    if elapsed != [] {
      var rest := Starts(hour, first + elapsed[0], elapsed[1..]);
      assert rest[0] == first + elapsed[0] + UntilNextRun(hour, first + elapsed[0]);
      if i == 0 {
        NextStart(hour, first, elapsed[0]);
      } else {
        LoopKeepsTheHour(hour, first + elapsed[0], elapsed[1..], i - 1);
      }
    }
  }

  /** No scheduled hour is passed over unless the round before was still going. */
  lemma {:induction false} NoHourIsMissed(hour: int, now: int, elapsed: seq<int>, i: nat, at: int)
    requires 0 <= hour <= 23 && i < |elapsed| && OnTheHour(hour, at)
    requires Starts(hour, now, elapsed)[i] < at < Starts(hour, now, elapsed)[i + 1]
    ensures at <= Starts(hour, now, elapsed)[i] + elapsed[i]
    decreases i
  {
    var first := now + UntilNextRun(hour, now);
    var rest := Starts(hour, first + elapsed[0], elapsed[1..]);
    if i == 0 {
      NextRunIsNext(hour, first + elapsed[0]);
    } else {
      NoHourIsMissed(hour, first + elapsed[0], elapsed[1..], i - 1, at);
    }
  }

  /** Rounds that end within a day, and never before they began, start every day exactly once. */
  lemma {:induction false} ShortRoundsRunDaily(hour: int, now: int, elapsed: seq<int>, i: nat)
    requires 0 <= hour <= 23 && i < |elapsed|
    requires 0 <= elapsed[i] < DAY
    ensures Starts(hour, now, elapsed)[i + 1] == Starts(hour, now, elapsed)[i] + DAY
  {
    LoopKeepsTheHour(hour, now, elapsed, i);
  }
}
