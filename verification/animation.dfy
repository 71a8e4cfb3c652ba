/*
 * The animation combinators: a frame-rate limiter, a time limiter, a chain
 * (A then B) and a bounded repeat, each wrapping inner animations.
 *
 * Time is an explicit clock reading (a nat) passed to every call that reads
 * the wall clock.  Inner animations are abstract: an `Inner` is a machine
 * that counts the advances since its last reset and, when it is terminating,
 * reports `ended` once that count reaches its length.
 *
 * Each wrapper has a state value (a datatype) with pure functions that specify
 * next_frame, reset, ended and maybe_ended, and a class whose fields the
 * methods update in place, proved against those functions.
 */
module Animation {
  import opened Frames
  import opened Signals

  /** Instant::duration_since: time from `since` to `now`, saturating at zero. */
  function Elapsed(now: nat, since: nat): nat
  {
    if now >= since then now - since else 0
  }

  /**
   * An inner animation seen only through its contract.  `steps` counts the
   * next_frame calls since the last reset.  `terminating` says whether its
   * type implements TerminatingAnimation (then it has ended once `steps`
   * reaches `length`); `soft` says whether its maybe_ended forwards to ended
   * (the types covered by `impl_maybe_term!`) rather than the default `false`.
   */
  datatype Inner = Inner(steps: nat, length: nat, terminating: bool, soft: bool)
  {
    /** TerminatingAnimation::ended. */
    predicate Ended()
      requires terminating
    {
      steps >= length
    }

    /** MaybeTerminatingAnimation::maybe_ended. */
    predicate MaybeEnded()
    {
      soft && terminating && steps >= length
    }

    function Advanced(): Inner
    {
      this.(steps := steps + 1)
    }

    function Reset(): Inner
    {
      this.(steps := 0)
    }
  }

  /**
   * next_frame of an inner animation: it advances and draws into the frame.
   * What it draws is abstract; callers learn nothing about the new voxels.
   */
  method AdvanceInner(inner: Inner, frame: Frame) returns (next: Inner)
    requires frame.Valid()
    modifies frame.cells
    ensures next == inner.Advanced()
  {
    frame.Set(0, 0, 0, inner.steps % 256);
    next := inner.Advanced();
  }

  // ---------------------------------------------------------------------------
  // FixedFPSAnimation

  datatype FixedFps = FixedFps(inner: Inner, interval: nat, lastFrame: nat)

  /** A call at `now` advances the inner animation: strictly more than `interval` since the last advance. */
  predicate FpsDue(s: FixedFps, now: nat)
  {
    Elapsed(now, s.lastFrame) > s.interval
  }

  function FpsNext(s: FixedFps, now: nat): FixedFps
  {
    if FpsDue(s, now) then s.(inner := s.inner.Advanced(), lastFrame := now) else s
  }

  /** reset forwards to the inner animation only; last_frame is kept. */
  function FpsReset(s: FixedFps): FixedFps
  {
    s.(inner := s.inner.Reset())
  }

  /** ended forwards to the inner animation (only for a terminating inner). */
  function FpsEnded(s: FixedFps): (r: bool)
    requires s.inner.terminating
    ensures r <==> s.inner.steps >= s.inner.length
  {
    s.inner.Ended()
  }

  /** maybe_ended is ended for a terminating inner, the default `false` otherwise. */
  function FpsMaybeEnded(s: FixedFps): (r: bool)
    ensures r <==> s.inner.terminating && FpsEnded(s)
  {
    if s.inner.terminating then FpsEnded(s) else false
  }

  /** Runs next_frame at each clock reading in turn. */
  function FpsRun(s: FixedFps, times: seq<nat>): FixedFps
    decreases |times|
  {
    if times == [] then s else FpsRun(FpsNext(s, times[0]), times[1..])
  }

  /** The clock readings at which a run advanced the inner animation. */
  function FpsAdvances(s: FixedFps, times: seq<nat>): seq<nat>
    decreases |times|
  {
    if times == [] then []
    else (if FpsDue(s, times[0]) then [times[0]] else []) + FpsAdvances(FpsNext(s, times[0]), times[1..])
  }

  /**
   * In any run (whatever the clock readings), the first inner advance comes
   * strictly more than `interval` after the starting last_frame, and each
   * later advance strictly more than `interval` after the previous one.
   */
  lemma {:induction false} FpsAdvancesSpaced(s: FixedFps, times: seq<nat>)
    decreases |times|
    ensures var adv := FpsAdvances(s, times);
            (|adv| > 0 ==> adv[0] > s.lastFrame + s.interval) &&
            forall j :: 0 < j < |adv| ==> adv[j] > adv[j - 1] + s.interval
  {
    if times != [] {
      var s' := FpsNext(s, times[0]);
      FpsAdvancesSpaced(s', times[1..]);
      var rest := FpsAdvances(s', times[1..]);
      if FpsDue(s, times[0]) {
        assert FpsAdvances(s, times) == [times[0]] + rest;
      } else {
        assert FpsAdvances(s, times) == rest;
      }
    }
  }

  /**
   * A run's inner animation gains exactly one step per advance, and its
   * last_frame is the reading of the last advance (unchanged if none).
   */
  lemma {:induction false} FpsRunAdvances(s: FixedFps, times: seq<nat>)
    decreases |times|
    ensures var adv := FpsAdvances(s, times);
            var r := FpsRun(s, times);
            r.interval == s.interval &&
            r.inner == s.inner.(steps := s.inner.steps + |adv|) &&
            (|adv| > 0 ==> r.lastFrame == adv[|adv| - 1]) &&
            (|adv| == 0 ==> r.lastFrame == s.lastFrame)
  {
    if times != [] {
      var s' := FpsNext(s, times[0]);
      FpsRunAdvances(s', times[1..]);
      var rest := FpsAdvances(s', times[1..]);
      if FpsDue(s, times[0]) {
        assert FpsAdvances(s, times) == [times[0]] + rest;
      } else {
        assert FpsAdvances(s, times) == rest;
      }
    }
  }

  /**
   * Rate bound: if every clock reading of a run is at most `t`, the run
   * advanced the inner animation k times with k * (interval + 1) <= t - last_frame.
   */
  lemma FpsRateBound(s: FixedFps, times: seq<nat>, t: nat)
    requires forall j :: 0 <= j < |times| ==> times[j] <= t
    ensures var k := FpsRun(s, times).inner.steps - s.inner.steps;
            k >= 0 && s.lastFrame + k * (s.interval + 1) <= if k == 0 then s.lastFrame else t
  {
    var adv := FpsAdvances(s, times);
    FpsRunAdvances(s, times);
    var k := |adv|;
    assert FpsRun(s, times).inner.steps - s.inner.steps == k;
    if k == 0 {
      assert k * (s.interval + 1) == 0;
    } else {
      FpsAdvancesSpaced(s, times);
      SpacedChain(adv, s.lastFrame, s.interval);
      AdvancesAreReadings(s, times);
      var last := adv[k - 1];
      assert last in times;
      var j :| 0 <= j < |times| && times[j] == last;
      assert s.lastFrame + k * (s.interval + 1) <= last <= t;
    }
  }

  /**
   * ended and maybe_ended after a run: the inner animation's own steps plus
   * one per advance have reached its length (maybe_ended only over a
   * terminating inner).  After reset, ended holds only for an empty inner.
   */
  lemma FpsEndedRun(s: FixedFps, times: seq<nat>)
    ensures FpsRun(s, times).inner.terminating == s.inner.terminating
    ensures FpsMaybeEnded(FpsRun(s, times)) <==>
              s.inner.terminating && s.inner.steps + |FpsAdvances(s, times)| >= s.inner.length
    ensures s.inner.terminating ==>
              (FpsEnded(FpsRun(s, times)) <==> s.inner.steps + |FpsAdvances(s, times)| >= s.inner.length)
    ensures s.inner.terminating ==> (FpsEnded(FpsReset(s)) <==> s.inner.length == 0)
  {
    FpsRunAdvances(s, times);
  }

  lemma {:induction false} AdvancesAreReadings(s: FixedFps, times: seq<nat>)
    ensures forall j :: 0 <= j < |FpsAdvances(s, times)| ==> FpsAdvances(s, times)[j] in times
    decreases |times|
  {
    if times != [] {
      AdvancesAreReadings(FpsNext(s, times[0]), times[1..]);
    }
  }

  /** A chain of readings each more than `gap` after the previous, starting after `base`. */
  lemma {:induction false} SpacedChain(adv: seq<nat>, base: nat, gap: nat)
    requires |adv| > 0 && adv[0] > base + gap
    requires forall j :: 0 < j < |adv| ==> adv[j] > adv[j - 1] + gap
    ensures adv[|adv| - 1] >= base + |adv| * (gap + 1)
  {
    if |adv| > 1 {
      SpacedChain(adv[..|adv| - 1], base, gap);
      assert adv[|adv| - 2] >= base + (|adv| - 1) * (gap + 1);
    }
  }

  class FixedFPSAnimation {
    var inner: Inner
    const interval: nat
    var lastFrame: nat

    function State(): FixedFps
      reads this
    {
      FixedFps(inner, interval, lastFrame)
    }

    /** Animation::with_fps, called at clock reading `now`; `interval` is 1/fps in clock ticks. */
    constructor (inner: Inner, interval: nat, now: nat)
      ensures State() == FixedFps(inner, interval, now)
    {
      this.inner := inner;
      this.interval := interval;
      this.lastFrame := now;
    }

    /** next_frame at clock reading `now`: the frame is touched only when the inner animation advances. */
    method NextFrame(now: nat, frame: Frame)
      requires frame.Valid()
      modifies this, frame.cells
      ensures State() == FpsNext(old(State()), now)
      ensures !FpsDue(old(State()), now) ==> unchanged(frame.cells)
    {
      if Elapsed(now, lastFrame) > interval {
        inner := AdvanceInner(inner, frame);
        lastFrame := now;
      }
    }

    method Reset()
      modifies this
      ensures State() == FpsReset(old(State()))
    {
      inner := inner.Reset();
    }
  }

  // ---------------------------------------------------------------------------
  // TimeLimitedAnimation

  datatype TimeLimited = TimeLimited(inner: Inner, duration: nat, started: nat)

  /** next_frame always forwards to the inner animation. */
  function TimedNext(s: TimeLimited): TimeLimited
  {
    s.(inner := s.inner.Advanced())
  }

  /** reset resets the inner animation and restarts the clock at `now`. */
  function TimedReset(s: TimeLimited, now: nat): TimeLimited
  {
    s.(inner := s.inner.Reset(), started := now)
  }

  /** ended: more than `duration` since the start, or the inner animation's maybe_ended. */
  function TimedEnded(s: TimeLimited, now: nat): bool
  {
    Elapsed(now, s.started) > s.duration || s.inner.MaybeEnded()
  }

  /**
   * maybe_ended keeps the default `false`: TimeLimitedAnimation is not among
   * the types `impl_maybe_term!` covers, although it is terminating.
   */
  function TimedMaybeEnded(s: TimeLimited): bool
  {
    false
  }

  /**
   * A time limiter whose limit has run out is ended, yet its maybe_ended
   * stays false: a time limiter wrapped around it sees only its own limit.
   */
  lemma TimedEndedNotSoft(s: TimeLimited, now: nat)
    requires now > s.started + s.duration
    ensures TimedEnded(s, now) && !TimedMaybeEnded(s)
  {
  }

  /**
   * When the inner animation never signals a soft end, the time limit alone
   * decides: not ended up to and including started + duration, ended after it.
   */
  lemma TimedEndedWindow(s: TimeLimited, now: nat)
    requires !s.inner.MaybeEnded()
    ensures TimedEnded(s, now) <==> now > s.started + s.duration
  {
  }

  /** Once ended, a time-limited animation stays ended as the clock moves on. */
  lemma TimedEndedStays(s: TimeLimited, now: nat, later: nat)
    requires now <= later && TimedEnded(s, now)
    ensures TimedEnded(s, later)
  {
  }

  /** After reset at `now` the time limit has not yet expired at `now`. */
  lemma TimedResetRestarts(s: TimeLimited, now: nat)
    ensures TimedEnded(TimedReset(s, now), now) <==> TimedReset(s, now).inner.MaybeEnded()
    ensures TimedReset(s, now).inner.steps == 0
  {
  }

  class TimeLimitedAnimation {
    var inner: Inner
    const duration: nat
    var started: nat

    function State(): TimeLimited
      reads this
    {
      TimeLimited(inner, duration, started)
    }

    /** Animation::with_duration, called at clock reading `now`. */
    constructor (inner: Inner, duration: nat, now: nat)
      ensures State() == TimeLimited(inner, duration, now)
    {
      this.inner := inner;
      this.duration := duration;
      this.started := now;
    }

    method NextFrame(frame: Frame)
      requires frame.Valid()
      modifies this, frame.cells
      ensures State() == TimedNext(old(State()))
    {
      inner := AdvanceInner(inner, frame);
    }

    method Reset(now: nat)
      modifies this
      ensures State() == TimedReset(old(State()), now)
    {
      inner := inner.Reset();
      started := now;
    }
  }

  // ---------------------------------------------------------------------------
  // ChainedAnimation

  datatype Chained = Chained(a: Inner, b: Inner, current: bool)

  /**
   * next_frame.  While A is active and not ended, A advances.  When A has
   * ended, B becomes active, is reset, and advances in the same call.  While
   * B is active, B advances.
   */
  function ChainNext(s: Chained): Chained
    requires s.a.terminating
  {
    if s.current then s.(b := s.b.Advanced())
    else if s.a.Ended() then Chained(s.a, s.b.Reset().Advanced(), true)
    else s.(a := s.a.Advanced())
  }

  /** reset resets A only and makes A active again; B is left as it is. */
  function ChainReset(s: Chained): Chained
  {
    s.(a := s.a.Reset(), current := false)
  }

  /** ended: B is active and B has ended. */
  function ChainEnded(s: Chained): bool
    requires s.b.terminating
  {
    s.current && s.b.Ended()
  }

  /** maybe_ended is ended when both parts are terminating, the default `false` otherwise. */
  function ChainMaybeEnded(s: Chained): bool
  {
    if s.a.terminating && s.b.terminating then ChainEnded(s) else false
  }

  /** Each next_frame advances exactly one of A and B and never deactivates B. */
  lemma ChainAdvancesOne(s: Chained)
    requires s.a.terminating
    ensures var r := ChainNext(s);
            (r.a == s.a.Advanced() && r.b == s.b && !r.current) ||
            (r.a == s.a && r.current && (r.b == s.b.Advanced() || r.b == s.b.Reset().Advanced()))
    ensures s.current ==> ChainNext(s).current
    ensures ChainNext(s).current && !s.current ==> s.a.Ended() && ChainNext(s).b.steps == 1
  {
  }

  /** A chain is never ended while A is active. */
  lemma ChainNotEndedWhileA(s: Chained)
    requires s.b.terminating && !s.current
    ensures !ChainEnded(s) && !ChainMaybeEnded(s)
  {
  }

  function ChainRun(s: Chained, n: nat): (r: Chained)
    requires s.a.terminating
    ensures r.a.terminating && r.a.length == s.a.length
    ensures r.b.terminating == s.b.terminating && r.b.length == s.b.length
    decreases n
  {
    if n == 0 then s else ChainRun(ChainNext(s), n - 1)
  }

  /**
   * From a fresh start (A active, A with no steps), n calls advance A
   * min(n, A.length) times, and every call after that advances B, which was
   * reset at the switch.  In particular, if A ends after 3 advances, A is
   * advanced exactly 3 times before B's first advance.
   */
  lemma {:induction false} ChainRunsAThenB(a: Inner, b: Inner, n: nat)
    requires a.terminating && a.steps == 0
    ensures n <= a.length ==> ChainRun(Chained(a, b, false), n) == Chained(a.(steps := n), b, false)
    ensures n > a.length ==>
              ChainRun(Chained(a, b, false), n) == Chained(a.(steps := a.length), b.(steps := n - a.length), true)
  {
    if n > 0 {
      ChainRunsAThenB(a, b, n - 1);
      ChainRunLast(Chained(a, b, false), n - 1);
    }
  }

  /**
   * From a fresh start the chain has ended exactly when A has run its length
   * and B, reset at the switch, has run its own: more than A.length calls, at
   * least B.length of them on B.  maybe_ended agrees with ended.
   */
  lemma ChainEndsAfter(a: Inner, b: Inner, n: nat)
    requires a.terminating && a.steps == 0 && b.terminating
    ensures ChainEnded(ChainRun(Chained(a, b, false), n)) <==> n > a.length && n - a.length >= b.length
    ensures ChainMaybeEnded(ChainRun(Chained(a, b, false), n)) == ChainEnded(ChainRun(Chained(a, b, false), n))
  {
    ChainRunsAThenB(a, b, n);
  }

  lemma {:induction false} ChainRunLast(s: Chained, n: nat)
    requires s.a.terminating
    decreases n
    ensures ChainRun(s, n + 1) == ChainNext(ChainRun(s, n))
  {
    if n > 0 {
      ChainRunLast(ChainNext(s), n - 1);
    }
  }

  class ChainedAnimation {
    var a: Inner
    var b: Inner
    var current: bool

    function State(): Chained
      reads this
    {
      Chained(a, b, current)
    }

    /** Animation::chain: A active. */
    constructor (a: Inner, b: Inner)
      ensures State() == Chained(a, b, false)
    {
      this.a := a;
      this.b := b;
      this.current := false;
    }

    method NextFrame(frame: Frame)
      requires a.terminating && frame.Valid()
      modifies this, frame.cells
      ensures State() == ChainNext(old(State()))
    {
      if !current {
        if a.Ended() {
          current := !current;
          b := b.Reset();
        } else {
          a := AdvanceInner(a, frame);
        }
      }

      if current {
        b := AdvanceInner(b, frame);
      }
    }

    method Reset()
      modifies this
      ensures State() == ChainReset(old(State()))
    {
      a := a.Reset();
      current := false;
    }
  }

  // ---------------------------------------------------------------------------
  // RepeatedAnimation

  datatype Repeated = Repeated(inner: Inner, loops: nat, count: nat)

  /**
   * next_frame: when the inner animation has ended and fewer than `loops`
   * repeats were made, reset it and count a repeat; then always advance it.
   */
  function RepeatNext(s: Repeated): Repeated
    requires s.inner.terminating
  {
    if s.inner.Ended() && s.count < s.loops then
      s.(inner := s.inner.Reset().Advanced(), count := s.count + 1)
    else
      s.(inner := s.inner.Advanced())
  }

  /** reset resets the inner animation and the repeat count. */
  function RepeatReset(s: Repeated): Repeated
  {
    s.(inner := s.inner.Reset(), count := 0)
  }

  /** ended: all repeats made and the last run of the inner animation has ended. */
  function RepeatEnded(s: Repeated): bool
    requires s.inner.terminating
  {
    s.count >= s.loops && s.inner.Ended()
  }

  /** maybe_ended forwards to ended (`impl_maybe_term!`). */
  function RepeatMaybeEnded(s: Repeated): (r: bool)
    requires s.inner.terminating
    ensures r <==> s.count >= s.loops && s.inner.steps >= s.inner.length
  {
    RepeatEnded(s)
  }

  /** count <= loops holds from construction (count 0) and is kept by next_frame and reset. */
  lemma RepeatCountBounded(s: Repeated)
    requires s.inner.terminating && s.count <= s.loops
    ensures RepeatNext(s).count <= RepeatNext(s).loops == s.loops
    ensures RepeatReset(s).count == 0
    ensures RepeatNext(s).count == s.count || RepeatNext(s).count == s.count + 1
  {
  }

  function RepeatRun(s: Repeated, n: nat): (r: Repeated)
    requires s.inner.terminating
    ensures r.inner.terminating && r.loops == s.loops && r.inner.length == s.inner.length
    decreases n
  {
    if n == 0 then s else RepeatRun(RepeatNext(s), n - 1)
  }

  lemma {:induction false} RepeatRunLast(s: Repeated, n: nat)
    requires s.inner.terminating
    decreases n
    ensures RepeatRun(s, n + 1) == RepeatNext(RepeatRun(s, n))
  {
    if n > 0 {
      RepeatRunLast(RepeatNext(s), n - 1);
    }
  }

  /**
   * From construction, over an inner animation that ends after `length >= 1`
   * advances: after n calls (1 <= n <= (loops + 1) * length), the calls so far
   * are count full runs plus `steps` of the current one.
   */
  lemma {:induction false} RepeatRunProgress(inner: Inner, loops: nat, n: nat)
    requires inner.terminating && inner.steps == 0 && inner.length >= 1
    requires 1 <= n <= (loops + 1) * inner.length
    ensures var r := RepeatRun(Repeated(inner, loops, 0), n);
            r.count * inner.length + r.inner.steps == n &&
            1 <= r.inner.steps <= inner.length && r.count <= loops
  {
    var s0 := Repeated(inner, loops, 0);
    RepeatRunLast(s0, n - 1);
    if n > 1 {
      RepeatRunProgress(inner, loops, n - 1);
      var p := RepeatRun(s0, n - 1);
      if p.inner.steps >= inner.length {
        assert p.count * inner.length + inner.length == n - 1;
        if p.count >= loops {
          MulMono(loops, p.count, inner.length);
          assert false;
        }
      }
    }
  }

  /**
   * Repeat(loops) over an inner animation that ends after `length >= 1`
   * advances ends after exactly (loops + 1) * length calls: not before, and
   * at that call.
   */
  lemma RepeatEndsAfter(inner: Inner, loops: nat, n: nat)
    requires inner.terminating && inner.steps == 0 && inner.length >= 1
    requires n <= (loops + 1) * inner.length
    ensures RepeatEnded(RepeatRun(Repeated(inner, loops, 0), n)) <==> n == (loops + 1) * inner.length
    ensures RepeatMaybeEnded(RepeatRun(Repeated(inner, loops, 0), n)) <==> n == (loops + 1) * inner.length
  {
    RepeatRunLast(Repeated(inner, loops, 0), n);
    if n >= 1 {
      RepeatRunProgress(inner, loops, n);
      var r := RepeatRun(Repeated(inner, loops, 0), n);
      if r.count >= loops && r.inner.steps >= inner.length {
        assert r.count == loops;
      } else if n == (loops + 1) * inner.length {
        if r.count < loops {
          MulMono(r.count + 1, loops, inner.length);
        }
        assert false;
      }
    }
  }

  /** Once ended, a repeat stays ended (and maybe-ended) on every later call. */
  lemma {:induction false} RepeatStaysEnded(inner: Inner, loops: nat, n: nat)
    requires inner.terminating && inner.steps == 0 && inner.length >= 1
    requires n >= (loops + 1) * inner.length
    decreases n
    ensures RepeatEnded(RepeatRun(Repeated(inner, loops, 0), n))
    ensures RepeatMaybeEnded(RepeatRun(Repeated(inner, loops, 0), n))
  {
    if n == (loops + 1) * inner.length {
      RepeatEndsAfter(inner, loops, n);
    } else {
      RepeatStaysEnded(inner, loops, n - 1);
      RepeatRunLast(Repeated(inner, loops, 0), n - 1);
    }
  }

  /** The example: two repeats of a one-step animation end at the third advance. */
  lemma RepeatTwiceOfOneStep(inner: Inner)
    requires inner.terminating && inner.steps == 0 && inner.length == 1
    ensures !RepeatEnded(RepeatRun(Repeated(inner, 2, 0), 2))
    ensures RepeatEnded(RepeatRun(Repeated(inner, 2, 0), 3))
  {
    RepeatEndsAfter(inner, 2, 2);
    RepeatEndsAfter(inner, 2, 3);
  }

  class RepeatedAnimation {
    var inner: Inner
    const loops: nat
    var count: nat

    function State(): Repeated
      reads this
    {
      Repeated(inner, loops, count)
    }

    /** Animation::repeat(times). */
    constructor (inner: Inner, times: nat)
      ensures State() == Repeated(inner, times, 0)
    {
      this.inner := inner;
      this.loops := times;
      this.count := 0;
    }

    method NextFrame(frame: Frame)
      requires inner.terminating && frame.Valid()
      modifies this, frame.cells
      ensures State() == RepeatNext(old(State()))
    {
      if inner.Ended() && count < loops {
        inner := inner.Reset();
        count := count + 1;
      }

      inner := AdvanceInner(inner, frame);
    }

    method Reset()
      modifies this
      ensures State() == RepeatReset(old(State()))
    {
      inner := inner.Reset();
      count := 0;
    }
  }
}
