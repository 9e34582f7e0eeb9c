/** How long a repro may take when builds queue for slots (scripts/release_cycle.py:390-395). */
module WaveBudget {
  import opened Common

  /** Python's `max(1, math.ceil(builds / max(1, user_slots)))` on whole numbers. */
  function Waves(builds: nat, userSlots: int): nat {
    var slots := if userSlots > 1 then userSlots else 1;
    var waves := (builds + slots - 1) / slots;
    if waves > 1 then waves else 1
  }

  function ReproWait(builds: nat, userSlots: int, buildWait: real): real {
    buildWait * Waves(builds, userSlots) as real
  }

  /** A run of the queue: when each build starts, and how long it holds its slot. All
      builds are handed in at time 0. */
  datatype Schedule = Schedule(start: seq<real>, length: seq<real>)

  ghost predicate Busy(s: Schedule, i: nat, t: real)
    requires i < |s.start| == |s.length|
  {
    s.start[i] <= t < s.start[i] + s.length[i]
  }

  ghost function Running(s: Schedule, t: real): set<nat>
    requires |s.start| == |s.length|
  {
    set i: nat | i < |s.start| && Busy(s, i, t)
  }

  /** No build takes longer than its ceiling, and while a build waits, every slot is taken. */
  ghost predicate WorkConserving(s: Schedule, slots: nat, buildWait: real) {
    && |s.start| == |s.length|
    && (forall i :: 0 <= i < |s.start| ==> 0.0 <= s.start[i] && 0.0 <= s.length[i] <= buildWait)
    && (forall i, t :: 0 <= i < |s.start| && 0.0 <= t < s.start[i] ==> |Running(s, t)| >= slots)
  }

  // ---- the marks 0, w, 2w, .. ----------------------------------------------------

  function Mark(k: nat, w: real): real { if k == 0 then 0.0 else Mark(k - 1, w) + w }

  lemma {:induction false} MarkIs(k: nat, w: real)
    ensures Mark(k, w) == w * k as real
  {
    if k > 0 {
      MarkIs(k - 1, w);
      assert w * k as real == w * (k - 1) as real + w;
    }
  }

  lemma {:induction false} MarkMonotone(j: nat, k: nat, w: real)
    requires j <= k && w >= 0.0
    ensures Mark(j, w) <= Mark(k, w)
  {
    if j < k {
      MarkMonotone(j, k - 1, w);
    }
  }

  /** The first build of a wave. */
  function WaveStart(q: nat, slots: nat): nat { if q == 0 then 0 else WaveStart(q - 1, slots) + slots }

  lemma {:induction false} WaveStartIs(q: nat, slots: nat)
    ensures WaveStart(q, slots) == q * slots
  {
    if q > 0 {
      WaveStartIs(q - 1, slots);
      assert q * slots == (q - 1) * slots + slots;
    }
  }

  /** Builds running at one of the first k marks. */
  ghost function RunningAtMarks(s: Schedule, w: real, k: nat): set<nat>
    requires |s.start| == |s.length|
  {
    if k == 0 then {} else RunningAtMarks(s, w, k - 1) + Running(s, Mark(k - 1, w))
  }

  /** A build that holds a slot at one mark has released it by any later one. */
  lemma {:induction false} GoneByMark(s: Schedule, w: real, i: nat, k: nat)
    requires |s.start| == |s.length| && w > 0.0
    requires forall i :: 0 <= i < |s.start| ==> s.length[i] <= w
    requires i in RunningAtMarks(s, w, k)
    ensures i < |s.start| && !Busy(s, i, Mark(k, w))
  {
    if i in Running(s, Mark(k - 1, w)) {
    } else {
      GoneByMark(s, w, i, k - 1);
      StartedBefore(s, w, i, k - 1);
    }
  }

  lemma {:induction false} StartedBefore(s: Schedule, w: real, i: nat, k: nat)
    requires |s.start| == |s.length| && w > 0.0 && i in RunningAtMarks(s, w, k)
    ensures i < |s.start| && s.start[i] <= Mark(k, w)
  {
    if i !in Running(s, Mark(k - 1, w)) {
      StartedBefore(s, w, i, k - 1);
    }
  }

  lemma DisjointSizes(a: set<nat>, b: set<nat>)
    requires a !! b
    ensures |a + b| == |a| + |b|
  {
  }

  /** Who runs at the next mark is new. */
  lemma {:induction false} NewAtMark(s: Schedule, w: real, k: nat)
    requires |s.start| == |s.length| && w > 0.0
    requires forall i :: 0 <= i < |s.start| ==> s.length[i] <= w
    ensures RunningAtMarks(s, w, k) !! Running(s, Mark(k, w))
  {
    forall i | i in RunningAtMarks(s, w, k) ensures i !in Running(s, Mark(k, w)) {
      GoneByMark(s, w, i, k);
    }
  }

  /** While a build waits, the slots are taken, and not by it. */
  lemma TakenByOthers(s: Schedule, slots: nat, w: real, late: nat, t: real)
    requires WorkConserving(s, slots, w) && late < |s.start| && 0.0 <= t < s.start[late]
    ensures |Running(s, t)| >= slots && late !in Running(s, t)
  {
  }

  /** At the first k marks all slots were taken, by different builds each time. */
  ghost predicate Filled(s: Schedule, slots: nat, w: real, k: nat, late: nat)
    requires |s.start| == |s.length|
  {
    && |RunningAtMarks(s, w, k)| >= WaveStart(k, slots)
    && late !in RunningAtMarks(s, w, k)
    && forall i :: i in RunningAtMarks(s, w, k) ==> i < |s.start|
  }

  lemma FilledNext(s: Schedule, slots: nat, w: real, k: nat, late: nat)
    requires |s.start| == |s.length| && w > 0.0 && Filled(s, slots, w, k, late)
    requires forall i :: 0 <= i < |s.start| ==> s.length[i] <= w
    requires |Running(s, Mark(k, w))| >= slots && late !in Running(s, Mark(k, w))
    ensures Filled(s, slots, w, k + 1, late)
  {
    NewAtMark(s, w, k);
    DisjointSizes(RunningAtMarks(s, w, k), Running(s, Mark(k, w)));
  }

  lemma {:induction false} MarksFill(s: Schedule, slots: nat, w: real, k: nat, late: nat)
    requires WorkConserving(s, slots, w) && w > 0.0 && late < |s.start|
    requires k > 0 ==> Mark(k - 1, w) < s.start[late]
    ensures Filled(s, slots, w, k, late)
  {
    if k > 0 {
      var m := k - 1;
      MarkMonotone(0, m, w);
      if m > 0 {
        MarkMonotone(m - 1, m, w);
      }
      MarksFill(s, slots, w, m, late);
      TakenByOthers(s, slots, w, late, Mark(m, w));
      FilledNext(s, slots, w, m, late);
    }
  }

  lemma {:induction false} BoundedSize(a: set<nat>, n: nat)
    requires forall i :: i in a ==> i < n
    ensures |a| <= n
  {
    if n > 0 {
      BoundedSize(a - {n - 1}, n - 1);
      assert a <= (a - {n - 1}) + {n - 1};
      if n - 1 in a {
        assert |a - {n - 1}| == |a| - 1;
      } else {
        assert a - {n - 1} == a;
      }
    } else {
      assert a == {};
    }
  }

  lemma {:induction false} WavesSuffice(builds: nat, slots: nat)
    requires slots >= 1
    ensures WaveStart(Waves(builds, slots), slots) >= builds
  {
    WaveStartIs(Waves(builds, slots), slots);
    var q := (builds + slots - 1) / slots;
    assert builds + slots - 1 == slots * q + (builds + slots - 1) % slots;
    assert slots * Waves(builds, slots) >= slots * q;
  }

  /** No build is still waiting once every mark but the last has passed. */
  lemma {:induction false} StartsInTime(s: Schedule, userSlots: int, w: real, late: nat)
    requires userSlots >= 1 && w > 0.0 && WorkConserving(s, userSlots, w) && late < |s.start|
    ensures s.start[late] <= Mark(Waves(|s.start|, userSlots) - 1, w)
  {
    var n, waves := |s.start|, Waves(|s.start|, userSlots);
    if s.start[late] > Mark(waves - 1, w) {
      MarksFill(s, userSlots, w, waves, late);
      WavesSuffice(n, userSlots);
      BoundedSize(RunningAtMarks(s, w, waves) + {late}, n);
    }
  }

  /** The budget is sufficient: in every work-conserving schedule every build,
      however late it starts, is done within `repro_wait_s`. */
  lemma BudgetSuffices(s: Schedule, userSlots: int, buildWait: real, late: nat)
    requires userSlots >= 1 && buildWait >= 0.0
    requires WorkConserving(s, userSlots, buildWait) && late < |s.start|
    ensures s.start[late] + s.length[late] <= ReproWait(|s.start|, userSlots, buildWait)
  {
    MarkIs(Waves(|s.start|, userSlots), buildWait);
    if buildWait > 0.0 {
      StartsInTime(s, userSlots, buildWait, late);
    } else {
      assert forall i: nat | i < |s.start| :: !Busy(s, i, 0.0);
      assert Running(s, 0.0) == {};
      assert |Running(s, 0.0)| < userSlots;
    }
  }

  // ---- the worst schedule -----------------------------------------------------------

  /** Which wave the i-th build is in when waves of `slots` builds follow each other. */
  function WaveOf(i: nat, slots: nat): nat
    requires slots >= 1
  {
    if i < slots then 0 else 1 + WaveOf(i - slots, slots)
  }

  /** Every build takes its full ceiling. */
  function FullWaves(builds: nat, slots: nat, w: real): Schedule
    requires slots >= 1
  {
    Schedule(seq(builds, i requires 0 <= i < builds => Mark(WaveOf(i, slots), w)),
             seq(builds, i requires 0 <= i < builds => w))
  }

  function Range(lo: nat, n: nat): set<nat> { if n == 0 then {} else Range(lo, n - 1) + {lo + n - 1} }

  lemma {:induction false} RangeSize(lo: nat, n: nat)
    ensures |Range(lo, n)| == n
    ensures forall i :: i in Range(lo, n) <==> lo <= i < lo + n
  {
    if n > 0 {
      RangeSize(lo, n - 1);
    }
  }

  lemma {:induction false} WaveMembers(q: nat, slots: nat, i: nat)
    requires slots >= 1
    ensures WaveOf(i, slots) == q <==> WaveStart(q, slots) <= i < WaveStart(q, slots) + slots
    ensures WaveOf(i, slots) > q ==> i >= WaveStart(q, slots) + slots
  {
    if q > 0 && i >= slots {
      WaveMembers(q - 1, slots, i - slots);
    }
  }

  /** The mark at or before a time. */
  lemma {:induction false} MarkBefore(k: nat, w: real, t: real) returns (q: nat)
    requires w > 0.0 && 0.0 <= t < Mark(k, w)
    ensures q < k && Mark(q, w) <= t < Mark(q + 1, w)
  {
    if t < Mark(k - 1, w) {
      q := MarkBefore(k - 1, w, t);
    } else {
      q := k - 1;
    }
  }

  lemma {:induction false} FullWaveRuns(builds: nat, slots: nat, w: real, i: nat, t: real)
    requires slots >= 1 && w > 0.0 && i < builds && 0.0 <= t < Mark(WaveOf(i, slots), w)
    ensures |Running(FullWaves(builds, slots, w), t)| >= slots
  {
    var s := FullWaves(builds, slots, w);
    var q := MarkBefore(WaveOf(i, slots), w, t);
    var wave := Range(WaveStart(q, slots), slots);
    RangeSize(WaveStart(q, slots), slots);
    WaveMembers(q, slots, i);
    forall k | k in wave ensures k in Running(s, t) {
      WaveMembers(q, slots, k);
    }
    assert Running(s, t) == wave + (Running(s, t) - wave);
  }

  lemma {:induction false} WaveStartsApart(p: nat, q: nat, slots: nat)
    requires p < q
    ensures WaveStart(p, slots) + slots <= WaveStart(q, slots)
  {
    if p < q - 1 {
      WaveStartsApart(p, q - 1, slots);
    }
  }

  lemma {:induction false} DivIs(k: nat, slots: nat, q: nat)
    requires slots >= 1 && WaveStart(q, slots) <= k < WaveStart(q, slots) + slots
    ensures k / slots == q
  {
    var d := k / slots;
    assert k == d * slots + k % slots;
    WaveStartIs(d, slots);
    if d < q {
      WaveStartsApart(d, q, slots);
    } else if d > q {
      WaveStartsApart(q, d, slots);
    }
  }

  lemma {:induction false} LastWave(builds: nat, slots: nat)
    requires builds >= 1 && slots >= 1
    ensures WaveOf(builds - 1, slots) == Waves(builds, slots) - 1
  {
    var q := WaveOf(builds - 1, slots);
    WaveMembers(q, slots, builds - 1);
    DivIs(builds + slots - 1, slots, q + 1);
  }

  lemma FullWavesConserve(builds: nat, slots: nat, w: real)
    requires slots >= 1 && w > 0.0
    ensures WorkConserving(FullWaves(builds, slots, w), slots, w)
  {
    var s := FullWaves(builds, slots, w);
    forall i, t | 0 <= i < |s.start| && 0.0 <= t < s.start[i] ensures |Running(s, t)| >= slots {
      FullWaveRuns(builds, slots, w, i, t);
    }
    forall i | 0 <= i < |s.start| ensures 0.0 <= s.start[i] {
      MarkMonotone(0, WaveOf(i, slots), w);
    }
  }

  /** A build of an earlier wave is done when one of a later wave starts. */
  lemma {:induction false} SameWave(builds: nat, slots: nat, w: real, i: nat, k: nat, t: real)
    requires slots >= 1 && w > 0.0
    requires i in Running(FullWaves(builds, slots, w), t) && k in Running(FullWaves(builds, slots, w), t)
    ensures WaveOf(i, slots) == WaveOf(k, slots)
  {
    var p, q := WaveOf(i, slots), WaveOf(k, slots);
    if p < q {
      MarkMonotone(p + 1, q, w);
    } else if q < p {
      MarkMonotone(q + 1, p, w);
    }
  }

  /** Its waves never overlap, so it never runs more builds than there are slots. */
  lemma OneWaveAtATime(builds: nat, slots: nat, w: real, t: real)
    requires slots >= 1 && w > 0.0
    ensures |Running(FullWaves(builds, slots, w), t)| <= slots
  {
    var running := Running(FullWaves(builds, slots, w), t);
    if running != {} {
      var i :| i in running;
      var q := WaveOf(i, slots);
      RangeSize(WaveStart(q, slots), slots);
      forall k | k in running ensures k in Range(WaveStart(q, slots), slots) {
        SameWave(builds, slots, w, i, k, t);
        WaveMembers(q, slots, k);
      }
      Subset(running, Range(WaveStart(q, slots), slots));
    }
  }

  lemma {:induction false} ReproWaitIsMark(builds: nat, slots: nat, w: real)
    ensures ReproWait(builds, slots, w) == Mark(Waves(builds, slots), w)
  {
    MarkIs(Waves(builds, slots), w);
  }

  lemma {:induction false} EndsAtMark(builds: nat, slots: nat, w: real, i: nat)
    requires i < builds && slots >= 1
    ensures var s := FullWaves(builds, slots, w); s.start[i] + s.length[i] == Mark(WaveOf(i, slots) + 1, w)
  {
  }

  lemma LastBuildEnds(builds: nat, slots: nat, w: real)
    requires builds >= 1 && slots >= 1
    ensures var s := FullWaves(builds, slots, w);
            s.start[builds - 1] + s.length[builds - 1] == ReproWait(builds, slots, w)
  {
    LastWave(builds, slots);
    EndsAtMark(builds, slots, w, builds - 1);
    ReproWaitIsMark(builds, slots, w);
  }

  /** At no time are more builds running than there are slots. */
  ghost predicate InSlots(s: Schedule, slots: nat)
    requires |s.start| == |s.length|
  {
    forall t :: |Running(s, t)| <= slots
  }

  /** And it is tight: in some work-conserving schedule that keeps to the slots a build
      needs all of the budget, so no smaller one would do. */
  lemma BudgetIsTight(builds: nat, userSlots: int, buildWait: real)
    requires builds >= 1 && userSlots >= 1 && buildWait > 0.0
    ensures exists s: Schedule, late: nat ::
              && WorkConserving(s, userSlots, buildWait) && InSlots(s, userSlots) && late < |s.start| == builds
              && s.start[late] + s.length[late] == ReproWait(builds, userSlots, buildWait)
  {
    var s := FullWaves(builds, userSlots, buildWait);
    FullWavesConserve(builds, userSlots, buildWait);
    forall t ensures |Running(s, t)| <= userSlots {
      OneWaveAtATime(builds, userSlots, buildWait, t);
    }
    LastBuildEnds(builds, userSlots, buildWait);
    assert |s.start| == builds;
  }
}
