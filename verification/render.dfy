/*
 * The older all-in-one renderer: a 32-step lookup-table PWM ticker, the pin
 * driver that shifts a frame out layer by layer, its own variant of the
 * animation contract (every animation has `ended`, defaulting to false) with
 * a slightly different chain, and the driver that sequences one step.
 *
 * Its frame type duplicates the one of the frame buffer and is modelled by
 * Frames.Frame; its FixedFPSAnimation and TimeLimitedAnimation advance and
 * reset exactly as the newer ones in module Animation and differ only in
 * `ended`, given here.
 */
module Render {
  import opened Frames
  import opened Signals
  import opened Animation

  /** BRIGHTNESS_PATS: sub-frame on/off patterns, bit f (Lsb0) for PWM frame f. */
  const Patterns: seq<nat> := [
    0x00000000, 0x00000001, 0x00020001, 0x01000401,
    0x02010101, 0x08080821, 0x20820821, 0x21082111,
    0x84422221, 0x88888889, 0x91122249, 0x92492492,
    0x94949292, 0x94A5294A, 0x94A5294B, 0x952A54A9,
    0x952AD4A9, 0xB52AD4A9, 0xB52AD5A9, 0xB56AD5A9,
    0xB56AD5AD, 0xB56ED5AD, 0xB76ED5AD, 0xB76EDDAD,
    0xB76EDDED, 0xB7EEDDED, 0xB7EEDDFD, 0xF7EEDDFD,
    0xF7EEFDFD, 0xF7FEFFFD, 0xFFFEFFFF, 0xFFFFFFFF
  ]

  /** Number of PWM sub-frames in a cycle. */
  const Cycle: nat := 32

  /** compute_pwm: bit `tick` (Lsb0) of the pattern for brightness / 8. */
  function Pwm(brightness: u8, tick: nat): bool
    requires tick < Cycle
  {
    Bits(Patterns[brightness / 8], 32)[tick]
  }

  /**
   * compute_pwm reads bit `tick` of BRIGHTNESS_PATS[brightness / 8], counted
   * from the least-significant end; the index is always inside the table.
   */
  lemma PwmIsPatternBit(brightness: u8, tick: nat)
    requires tick < Cycle
    ensures brightness / 8 < |Patterns|
    ensures Pwm(brightness, tick) <==> Patterns[brightness / 8] / Pow2(tick) % 2 == 1
  {
    BitsAt(Patterns[brightness / 8], 32, tick);
  }

  lemma {:induction false} AllOnesBits(width: nat, k: nat)
    requires k < width
    ensures Bits(Pow2(width) - 1, width)[k]
  {
    var half := Pow2(width - 1);
    assert Pow2(width) - 1 == (half - 1) * 2 + 1;
    DivUnique(Pow2(width) - 1, 2, half - 1, 1);
    if k > 0 {
      AllOnesBits(width - 1, k - 1);
    }
  }

  /**
   * Brightness below 8 is off in every sub-frame; brightness 248 or more is
   * on in every sub-frame.
   */
  lemma PwmExtremes(brightness: u8, tick: nat)
    requires tick < Cycle
    ensures brightness < 8 ==> !Pwm(brightness, tick)
    ensures brightness >= 248 ==> Pwm(brightness, tick)
  {
    if brightness < 8 {
      ZeroBits(32, tick);
    } else if brightness >= 248 {
      assert Pow2(32) - 1 == 0xFFFFFFFF by { Pow2Value(); }
      AllOnesBits(32, tick);
    }
  }

  /** PWMTicker: the current sub-frame of the 32-step cycle. */
  class PwmTicker {
    var frame: nat

    ghost predicate Valid()
      reads this
    {
      frame < Cycle
    }

    /** PWMTicker::new. */
    constructor ()
      ensures Valid() && frame == 0
    {
      frame := 0;
    }

    /** compute_pwm: bit `frame` of the brightness pattern; reads the ticker, changes nothing. */
    function ComputePwm(brightness: u8): (on: bool)
      reads this
      requires Valid()
      ensures on <==> Patterns[brightness / 8] / Pow2(frame) % 2 == 1
    {
      PwmIsPatternBit(brightness, frame);
      Pwm(brightness, frame)
    }

    /** next_frame: advance by one sub-frame, modulo 32. */
    method NextFrame()
      requires Valid()
      modifies this
      ensures Valid() && frame == (old(frame) + 1) % Cycle
    {
      frame := frame + 1;
      frame := frame % Cycle;
    }
  }

  /** compute_pwm at a fixed sub-frame, as a function of the brightness byte. */
  function PwmAt(tick: nat): u8 -> bool
    requires tick < Cycle
  {
    (b: u8) => Pwm(b, tick)
  }

  /** The data bits of one row, one per brightness byte, in column order. */
  function RowBits(row: seq<u8>, pwm: u8 -> bool): (bits: seq<bool>)
    requires |row| == Size
    ensures |bits| == Size
    ensures forall c :: 0 <= c < Size ==> bits[c] == pwm(row[c])
  {
    seq(Size, c requires 0 <= c < Size => pwm(row[c]))
  }

  /** The data bits of each row of a layer. */
  function LayerRows(layer: Layer, pwm: u8 -> bool): (rows: seq<seq<bool>>)
    requires IsLayer(layer)
    ensures |rows| == Size
    ensures forall r :: 0 <= r < Size ==> rows[r] == RowBits(layer[r], pwm)
  {
    seq(Size, r requires 0 <= r < Size => RowBits(layer[r], pwm))
  }

  /** The 64 data bits of one storage layer, rows in order. */
  function LayerBits(layer: Layer, pwm: u8 -> bool): (bits: seq<bool>)
    requires IsLayer(layer)
    ensures |bits| == 64
  {
    FlattenLength(LayerRows(layer, pwm), Size);
    Flatten(LayerRows(layer, pwm))
  }

  /** Data bit r * 8 + c of a layer is the bit of row r, column c: row-major order. */
  lemma LayerBitsAt(layer: Layer, pwm: u8 -> bool, r: nat, c: nat)
    requires IsLayer(layer) && r < Size && c < Size
    ensures LayerBits(layer, pwm)[r * 8 + c] == pwm(layer[r][c])
  {
    FlattenAt(LayerRows(layer, pwm), Size, r, c);
  }

  /** The events of each layer of a pass, in enumeration order. */
  function PassLayers(v: Voxels, pwm: u8 -> bool): (layers: seq<seq<Signal>>)
    requires IsCube(v)
    ensures |layers| == 8
    ensures forall idx :: 0 <= idx < 8 ==> layers[idx] == LayerSignals(SelectByte(idx), LayerBits(v[7 - idx], pwm))
  {
    seq(8, idx requires 0 <= idx < 8 => LayerSignals(SelectByte(idx), LayerBits(v[7 - idx], pwm)))
  }

  /**
   * The pin events of Pins::display_frame: layers in reverse storage order,
   * enumeration index idx showing storage layer 7 - idx under select byte 1 << idx.
   */
  function RenderPass(v: Voxels, pwm: u8 -> bool): seq<Signal>
    requires IsCube(v)
  {
    Flatten(PassLayers(v, pwm))
  }

  /**
   * A pass is 8 segments of 74 events; segment idx is the framing of storage
   * layer 7 - idx under the select byte of idx.
   */
  lemma RenderPassSegment(v: Voxels, pwm: u8 -> bool, idx: nat)
    requires IsCube(v) && idx < 8
    ensures |RenderPass(v, pwm)| == 8 * 74
    ensures RenderPass(v, pwm)[idx * 74 .. idx * 74 + 74] == LayerSignals(SelectByte(idx), LayerBits(v[7 - idx], pwm))
  {
    var chunk := LayerSignals(SelectByte(idx), LayerBits(v[7 - idx], pwm));
    FlattenLength(PassLayers(v, pwm), 74);
    forall k | 0 <= k < 74 ensures RenderPass(v, pwm)[idx * 74 .. idx * 74 + 74][k] == chunk[k] {
      FlattenAt(PassLayers(v, pwm), 74, idx, k);
    }
  }

  /** The first idx + 1 segments of a pass are the first idx followed by segment idx. */
  lemma RenderPassSnoc(v: Voxels, pwm: u8 -> bool, idx: nat)
    requires IsCube(v) && idx < 8
    ensures Flatten(PassLayers(v, pwm)[..idx + 1])
            == Flatten(PassLayers(v, pwm)[..idx]) + LayerSignals(SelectByte(idx), LayerBits(v[7 - idx], pwm))
  {
    FlattenSnoc(PassLayers(v, pwm), idx);
  }

  /**
   * Segment idx of a pass: latch low, the select bits of 1 << idx with only
   * bit idx set, the 64 brightness bits of storage layer 7 - idx row-major,
   * latch high.
   */
  lemma RenderPassLayer(v: Voxels, pwm: u8 -> bool, idx: nat)
    requires IsCube(v) && idx < 8
    ensures |RenderPass(v, pwm)| == 592
    ensures var seg := RenderPass(v, pwm)[idx * 74 .. idx * 74 + 74];
      && seg[0] == LatchLow
      && seg[73] == LatchHigh
      && (forall k :: 1 <= k < 9 ==> seg[k] == Shift(k - 1 == idx))
      && (forall k :: 9 <= k < 73 ==> seg[k] == Shift(pwm(v[7 - idx][(k - 9) / 8][(k - 9) % 8])))
  {
    RenderPassSegment(v, pwm, idx);
    var select, data := SelectByte(idx), LayerBits(v[7 - idx], pwm);
    var seg := RenderPass(v, pwm)[idx * 74 .. idx * 74 + 74];
    assert seg == LayerSignals(select, data);
    LayerSignalsShape(select, data);
    forall k | 1 <= k < 9 ensures seg[k] == Shift(k - 1 == idx) {
      assert seg[k] == Shift(Bits(select, 8)[k - 1]);
      SelectByteOneHot(idx, k - 1);
    }
    forall k | 9 <= k < 73 ensures seg[k] == Shift(pwm(v[7 - idx][(k - 9) / 8][(k - 9) % 8])) {
      var j := k - 9;
      assert seg[k] == Shift(data[j]);
      LayerBitsAt(v[7 - idx], pwm, j / 8, j % 8);
      assert j / 8 * 8 + j % 8 == j;
    }
  }

  /** Pins: only the sequence of pin events is modelled. */
  class Pins {
    ghost var trace: seq<Signal>

    constructor ()
      ensures trace == []
    {
      trace := [];
    }

    /** push_pin: one bit on the data line, clocked in. */
    method PushPin(bit: bool)
      modifies this
      ensures trace == old(trace) + [Shift(bit)]
    {
      trace := trace + [Shift(bit)];
    }

    /** out_byte: the eight bits of `byte`, least-significant first. */
    method OutByte(byte: u8)
      modifies this
      ensures trace == old(trace) + Shifts(Bits(byte, 8))
    {
      var bits := Bits(byte, 8);
      var k := 0;
      while k < 8
        invariant 0 <= k <= 8
        invariant trace == old(trace) + Shifts(bits[..k])
      {
        PushPin(bits[k]);
        assert bits[..k + 1] == bits[..k] + [bits[k]];
        ShiftsSnoc(bits[..k], bits[k]);
        k := k + 1;
      }
      assert bits[..8] == bits;
    }

    /** One row of display_frame's inner loops: eight brightness bits, in column order. */
    method OutRow(frame: Frame, pwm: u8 -> bool, layer: nat, row: nat, ghost v: Voxels)
      requires frame.Valid() && v == frame.Layers() && layer < Size && row < Size
      modifies this
      ensures trace == old(trace) + Shifts(RowBits(v[layer][row], pwm))
    {
      ghost var bits := RowBits(v[layer][row], pwm);
      var col := 0;
      while col < Size
        invariant 0 <= col <= Size
        invariant trace == old(trace) + Shifts(bits[..col])
      {
        var bit := pwm(frame.Get(row, layer, col));
        assert bits[..col + 1] == bits[..col] + [bit];
        ShiftsSnoc(bits[..col], bit);
        PushPin(bit);
        col := col + 1;
      }
      assert bits[..Size] == bits;
    }

    /** The brightness bits of one storage layer, row by row. */
    method OutLayer(frame: Frame, pwm: u8 -> bool, layer: nat, ghost v: Voxels)
      requires frame.Valid() && v == frame.Layers() && layer < Size
      modifies this
      ensures trace == old(trace) + Shifts(LayerBits(v[layer], pwm))
    {
      ghost var rows := LayerRows(v[layer], pwm);
      var row := 0;
      while row < Size
        invariant 0 <= row <= Size
        invariant trace == old(trace) + Shifts(Flatten(rows[..row]))
      {
        ghost var done := Flatten(rows[..row]);
        OutRow(frame, pwm, layer, row, v);
        assert trace == old(trace) + Shifts(done) + Shifts(rows[row]);
        FlattenSnoc(rows, row);
        ShiftsAppend(done, rows[row]);
        AppendAssoc(old(trace), Shifts(done), Shifts(rows[row]));
        row := row + 1;
      }
      assert rows[..Size] == rows;
    }

    /** One iteration of display_frame: latch low, select byte, layer data, latch high. */
    method OutFramedLayer(frame: Frame, pwm: u8 -> bool, idx: nat, ghost v: Voxels)
      requires frame.Valid() && v == frame.Layers() && idx < 8
      modifies this
      ensures trace == old(trace) + LayerSignals(SelectByte(idx), LayerBits(v[7 - idx], pwm))
    {
      var layer := 7 - idx;
      trace := trace + [LatchLow];
      var height := SelectByte(idx);
      OutByte(height);
      OutLayer(frame, pwm, layer, v);
      trace := trace + [LatchHigh];
      ghost var select, data := Shifts(Bits(height, 8)), Shifts(LayerBits(v[layer], pwm));
      assert trace == old(trace) + [LatchLow] + select + data + [LatchHigh];
      AppendAssoc(old(trace), [LatchLow], select);
      AppendAssoc(old(trace), [LatchLow] + select, data);
      AppendAssoc(old(trace), [LatchLow] + select + data, [LatchHigh]);
    }

    /**
     * display_frame: shift the whole frame out, each brightness through the
     * ticker's compute_pwm at its current sub-frame.
     */
    method DisplayFrame(frame: Frame, ticker: PwmTicker)
      requires frame.Valid() && ticker.Valid()
      modifies this
      ensures trace == old(trace) + RenderPass(frame.Layers(), PwmAt(ticker.frame))
    {
      var pwm := PwmAt(ticker.frame);
      ghost var v := frame.Layers();
      ghost var chunks := PassLayers(v, pwm);
      var idx := 0;
      while idx < 8
        invariant 0 <= idx <= 8
        invariant trace == old(trace) + Flatten(chunks[..idx])
      {
        ghost var done := Flatten(chunks[..idx]);
        OutFramedLayer(frame, pwm, idx, v);
        RenderPassSnoc(v, pwm, idx);
        AppendAssoc(old(trace), done, LayerSignals(SelectByte(idx), LayerBits(v[7 - idx], pwm)));
        idx := idx + 1;
      }
      assert chunks[..8] == chunks;
    }
  }

  // ---------------------------------------------------------------------------
  // The render-side Animation trait: `ended` exists on every animation.

  /** Animation::ended with its default: false unless the animation terminates. */
  predicate EndedOrDefault(a: Inner)
  {
    a.terminating && a.Ended()
  }

  /** FixedFPSAnimation::ended forwards to the inner animation. */
  function FpsEndedOrDefault(s: FixedFps): (r: bool)
    ensures r <==> s.inner.terminating && s.inner.steps >= s.inner.length
  {
    EndedOrDefault(s.inner)
  }

  /** TimeLimitedAnimation::ended: time limit exceeded, or the inner animation's own (hard) end. */
  function TimedEndedHard(s: TimeLimited, now: nat): bool
  {
    Elapsed(now, s.started) > s.duration || EndedOrDefault(s.inner)
  }

  /**
   * Here the time limiter listens to the inner animation's ended, where the
   * newer one listens only to maybe_ended: for a terminating inner whose
   * maybe_ended keeps the default, the two disagree once the inner ends.
   */
  lemma TimedEndedVariants(s: TimeLimited, now: nat)
    requires s.inner.terminating && !s.inner.soft && s.inner.Ended()
    ensures TimedEndedHard(s, now)
    ensures TimedEnded(s, now) <==> now > s.started + s.duration
  {
  }

  /**
   * The render chain's next_frame: as the newer chain, except that B is
   * advanced only while B has not ended, and A's `ended` may be the default.
   */
  function RenderChainNext(s: Chained): Chained
  {
    if !s.current && !EndedOrDefault(s.a) then s.(a := s.a.Advanced())
    else
      var b := if s.current then s.b else s.b.Reset();
      Chained(s.a, if EndedOrDefault(b) then b else b.Advanced(), true)
  }

  /** ended: B is active and B has ended. */
  function RenderChainEnded(s: Chained): bool
  {
    s.current && EndedOrDefault(s.b)
  }

  /** Once B has ended, the render chain advances nothing; the newer chain keeps advancing B. */
  lemma RenderChainFreezes(s: Chained)
    requires s.current && s.b.terminating && s.b.Ended() && s.a.terminating
    ensures RenderChainNext(s) == s
    ensures RenderChainEnded(s)
    ensures ChainNext(s) == s.(b := s.b.Advanced()) != s
  {
  }

  /** While B has not ended (and after a switch would not be ended at once), both chains step alike. */
  lemma RenderChainAgrees(s: Chained)
    requires s.a.terminating
    requires s.current ==> !EndedOrDefault(s.b)
    requires !s.current ==> !EndedOrDefault(s.b.Reset())
    ensures RenderChainNext(s) == ChainNext(s)
  {
  }

  /** A chain whose first part never terminates stays on it forever. */
  lemma RenderChainStaysOnEndlessA(s: Chained)
    requires !s.a.terminating && !s.current
    ensures RenderChainNext(s) == s.(a := s.a.Advanced())
    ensures !RenderChainEnded(RenderChainNext(s))
  {
  }

  /** n calls of the render chain's next_frame. */
  function RenderChainRun(s: Chained, n: nat): (r: Chained)
    ensures r.a.terminating == s.a.terminating && r.a.length == s.a.length
    ensures r.b.terminating == s.b.terminating && r.b.length == s.b.length
    decreases n
  {
    if n == 0 then s else RenderChainRun(RenderChainNext(s), n - 1)
  }

  lemma {:induction false} RenderChainRunLast(s: Chained, n: nat)
    decreases n
    ensures RenderChainRun(s, n + 1) == RenderChainNext(RenderChainRun(s, n))
  {
    if n > 0 {
      RenderChainRunLast(RenderChainNext(s), n - 1);
    }
  }

  /**
   * From a fresh start the render chain runs A for A.length calls, then B,
   * whose steps stop at B.length.
   */
  lemma {:induction false} RenderChainRunsAThenB(a: Inner, b: Inner, n: nat)
    requires a.terminating && a.steps == 0 && b.terminating
    ensures n <= a.length ==> RenderChainRun(Chained(a, b, false), n) == Chained(a.(steps := n), b, false)
    ensures n > a.length ==>
              RenderChainRun(Chained(a, b, false), n)
              == Chained(a.(steps := a.length), b.(steps := if n - a.length <= b.length then n - a.length else b.length), true)
  {
    if n > 0 {
      RenderChainRunsAThenB(a, b, n - 1);
      RenderChainRunLast(Chained(a, b, false), n - 1);
    }
  }

  /**
   * Although the render chain stops advancing B once it has ended, it reports
   * ended after exactly as many calls as the newer chain: more than A.length
   * calls, at least B.length of them on B.
   */
  lemma RenderChainEndsAfter(a: Inner, b: Inner, n: nat)
    requires a.terminating && a.steps == 0 && b.terminating
    ensures RenderChainEnded(RenderChainRun(Chained(a, b, false), n)) <==> n > a.length && n - a.length >= b.length
    ensures RenderChainEnded(RenderChainRun(Chained(a, b, false), n)) == ChainEnded(ChainRun(Chained(a, b, false), n))
  {
    RenderChainRunsAThenB(a, b, n);
    ChainEndsAfter(a, b, n);
  }

  /**
   * ended after a run of the rate limiter: false for a non-terminating inner,
   * otherwise the inner's steps plus one per advance have reached its length.
   */
  lemma FpsEndedOrDefaultRun(s: FixedFps, times: seq<nat>)
    ensures FpsEndedOrDefault(FpsRun(s, times)) <==>
              s.inner.terminating && s.inner.steps + |FpsAdvances(s, times)| >= s.inner.length
    ensures FpsEndedOrDefault(FpsReset(s)) <==> s.inner.terminating && s.inner.length == 0
  {
    FpsRunAdvances(s, times);
  }

  class ChainedAnimation {
    var a: Inner
    var b: Inner
    var current: bool

    function State(): Chained
      reads this
    {
      Chained(a, b, current)
    }

    constructor (a: Inner, b: Inner)
      ensures State() == Chained(a, b, false)
    {
      this.a := a;
      this.b := b;
      this.current := false;
    }

    method NextFrame(frame: Frame)
      requires frame.Valid()
      modifies this, frame.cells
      ensures State() == RenderChainNext(old(State()))
    {
      if !current {
        if EndedOrDefault(a) {
          current := !current;
          b := b.Reset();
        } else {
          a := AdvanceInner(a, frame);
        }
      }

      if current && !EndedOrDefault(b) {
        b := AdvanceInner(b, frame);
      }
    }

    method Reset()
      modifies this
      ensures State() == ChainReset(old(State()))
    {
      a := a.Reset();
      current := false;
    }
  }

  // ---------------------------------------------------------------------------
  // Driver

  /** What one Driver::step does to the animation: reset it if it has ended, then advance it once. */
  function DriverAdvance(a: Inner): (r: Inner)
    ensures EndedOrDefault(a) ==> r.steps == 1
    ensures !EndedOrDefault(a) ==> r.steps == a.steps + 1
    ensures r.length == a.length && r.terminating == a.terminating
  {
    (if EndedOrDefault(a) then a.Reset() else a).Advanced()
  }

  /**
   * The driver keeps a terminating animation of length >= 1 looping:
   * its step count stays within 1..length after every step.
   */
  lemma DriverLoops(a: Inner)
    requires a.terminating && a.length >= 1 && a.steps <= a.length
    ensures 1 <= DriverAdvance(a).steps <= a.length
  {
  }

  class Driver {
    var animation: Inner
    const ticker: PwmTicker
    const frame: Frame
    const pins: Pins

    ghost predicate Valid()
      reads this, ticker, frame
    {
      ticker.Valid() && frame.Valid()
    }

    /** Driver::new: an all-zero frame and the ticker at sub-frame 0. */
    constructor (animation: Inner)
      ensures Valid() && fresh(ticker) && fresh(frame) && fresh(frame.cells) && fresh(pins)
      ensures this.animation == animation
      ensures frame.Layers() == Blank() && ticker.frame == 0 && pins.trace == []
    {
      this.animation := animation;
      ticker := new PwmTicker();
      frame := new Frame();
      pins := new Pins();
    }

    /** Driver::reset. */
    method Reset()
      modifies this
      ensures animation == old(animation).Reset()
    {
      animation := animation.Reset();
    }

    /**
     * Driver::step: reset the animation if it has ended, advance it once,
     * shift out the frame it drew at the current sub-frame, then tick once.
     */
    method Step()
      requires Valid()
      modifies this, frame.cells, pins, ticker
      ensures Valid()
      ensures animation == DriverAdvance(old(animation))
      ensures pins.trace == old(pins.trace) + RenderPass(frame.Layers(), PwmAt(old(ticker.frame)))
      ensures ticker.frame == (old(ticker.frame) + 1) % Cycle
    {
      ghost var tick, before := ticker.frame, pins.trace;
      if EndedOrDefault(animation) {
        animation := animation.Reset();
      }

      animation := AdvanceInner(animation, frame);
      assert ticker.frame == tick && pins.trace == before;

      pins.DisplayFrame(frame, ticker);
      ticker.NextFrame();
      assert pins.trace == before + RenderPass(frame.Layers(), PwmAt(tick));
    }
  }
}
