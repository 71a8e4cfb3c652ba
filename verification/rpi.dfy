/*
 * The Raspberry Pi backend: error-diffusion dithering against a 16-bit
 * Galois LFSR noise source, one signed 8-bit error accumulator per voxel,
 * and the same serial framing as the older renderer (per layer: latch low,
 * select byte least-significant bit first, 64 data bits, latch high).
 *
 * i16 values are kept as their two's-complement bit pattern (bv16), so the
 * bitwise operators of the noise update act on exactly the bits Rust sees;
 * Signed reads such a pattern back as a number.
 */
module Rpi {
  import opened Frames
  import opened Signals

  type i8 = v: int | -0x80 <= v < 0x80
  type i16 = v: int | -0x8000 <= v < 0x8000

  /** The number a two's-complement 16-bit pattern stands for. */
  function Signed(b: bv16): i16
  {
    if b as int >= 0x8000 then b as int - 0x1_0000 else b as int
  }

  /** Rust's `x / 2` on i16: truncating toward zero. */
  function Half(x: bv16): bv16
  {
    if x < 0x8000 then x >> 1 else 0 - ((0 - x) >> 1)
  }

  /** Rust's `x % 2` on i16: the remainder of the truncating division. */
  function Rem2(x: bv16): bv16
  {
    x - 2 * Half(x)
  }

  /** The noise update: `(noise / 2) ^ (-(noise % 2) & 0x428e)` (`&` binds tighter than `^`). */
  function NoiseNext(noise: bv16): bv16
  {
    Half(noise) ^ ((0 - Rem2(noise)) & 0x428e)
  }

  /** `((noise & 0x1) << 1) - 1` read as i16. */
  function NoiseTerm(noise: bv16): i16
  {
    Signed(((noise & 1) << 1) - 1)
  }

  /** `as i8`: keep the low byte, two's complement. */
  function WrapI8(v: int): i8
  {
    (v + 0x80) % 0x100 - 0x80
  }

  /** `as i8` keeps a value already in i8 range and otherwise moves it by a multiple of 256. */
  lemma WrapI8Congruent(v: int)
    ensures (WrapI8(v) - v) % 0x100 == 0
    ensures -0x80 <= v < 0x80 ==> WrapI8(v) == v
  {
    var q := (v + 0x80) / 0x100;
    assert WrapI8(v) - v == -q * 0x100;
  }

  /** The noise after k calls of compute_pwm. */
  function NoiseIter(noise: bv16, k: nat): bv16
  {
    if k == 0 then noise else NoiseNext(NoiseIter(noise, k - 1))
  }

  /** One compute_pwm: the bit shifted out, the new error cell and the new noise. */
  datatype PwmOut = PwmOut(on: bool, err: i8, noise: bv16)

  /**
   * compute_pwm(brightness, err) against noise `noise`: update the noise first,
   * then threshold brightness + error + noise term at 127 and keep the
   * difference to the output level, cast to i8.
   */
  function PwmStep(brightness: u8, err: i8, noise: bv16): PwmOut
  {
    var next := NoiseNext(noise);
    var c: i16 := brightness + err + NoiseTerm(next);
    var output: i16 := if c > 127 then 255 else 0;
    PwmOut(output != 0, WrapI8(c - output), next)
  }

  /** The dithering input brightness + err + noise term of a compute_pwm call. */
  function DitherInput(brightness: u8, err: i8, noise: bv16): int
  {
    brightness + err + NoiseTerm(NoiseNext(noise))
  }

  // ---------------------------------------------------------------------------
  // Properties of the noise source and of one dithering step

  /** The noise term is always -1 or +1. */
  lemma NoiseTermUnit(noise: bv16)
    ensures NoiseTerm(noise) == 1 || NoiseTerm(noise) == -1
  {
    if noise & 1 == 1 {
      assert ((noise & 1) << 1) - 1 == 1;
    } else {
      assert ((noise & 1) << 1) - 1 == 0xFFFF;
    }
  }

  /** The noise update keeps a positive i16 positive: never 0, never negative. */
  lemma NoiseNextPositive(noise: bv16)
    requires 0 < noise < 0x8000
    ensures 0 < NoiseNext(noise) < 0x8000
  {
  }

  /** A positive 16-bit pattern below 0x8000 is an i16 in [1, 32767], and back. */
  lemma PositivePattern(noise: bv16)
    ensures 0 < noise < 0x8000 <==> 1 <= Signed(noise) <= 32767
  {
  }

  /** From a positive seed (the constructor's 1), every later noise value is positive. */
  lemma {:induction false} NoiseIterPositive(noise: bv16, k: nat)
    requires 0 < noise < 0x8000
    ensures 0 < NoiseIter(noise, k) < 0x8000
    ensures 1 <= Signed(NoiseIter(noise, k)) <= 32767
  {
    if k > 0 {
      NoiseIterPositive(noise, k - 1);
      NoiseNextPositive(NoiseIter(noise, k - 1));
    }
    PositivePattern(NoiseIter(noise, k));
  }

  /** Running a calls and then b calls is running a + b calls. */
  lemma {:induction false} NoiseIterAdd(noise: bv16, a: nat, b: nat)
    ensures NoiseIter(NoiseIter(noise, a), b) == NoiseIter(noise, a + b)
  {
    if b > 0 {
      NoiseIterAdd(noise, a, b - 1);
    }
  }

  /** `c` lies in [-129, 383]: the i16 sum never overflows. */
  lemma DitherInputRange(brightness: u8, err: i8, noise: bv16)
    ensures -129 <= DitherInput(brightness, err, noise) <= 383
  {
    NoiseTermUnit(NoiseNext(noise));
  }

  /**
   * The output is on iff the input exceeds 127, and the error cell keeps the
   * input minus the output level exactly, except at the two extreme inputs,
   * -129 and 383, where the i8 cast wraps to 127 and -128.
   */
  lemma DitherCarry(brightness: u8, err: i8, noise: bv16)
    ensures var c, out := DitherInput(brightness, err, noise), PwmStep(brightness, err, noise);
      && (out.on <==> c > 127)
      && out.noise == NoiseNext(noise)
      && (out.err == c - (if out.on then 255 else 0) <==> c != -129 && c != 383)
      && (c == -129 ==> out.err == 127)
      && (c == 383 ==> out.err == -128)
  {
    DitherInputRange(brightness, err, noise);
  }

  /** The two wrapping inputs need saturated error and the matching noise sign. */
  lemma DitherWrapInputs(brightness: u8, err: i8, noise: bv16)
    ensures var c, t := DitherInput(brightness, err, noise), NoiseTerm(NoiseNext(noise));
      && (c == -129 <==> brightness == 0 && err == -128 && t == -1)
      && (c == 383 <==> brightness == 255 && err == 127 && t == 1)
  {
    NoiseTermUnit(NoiseNext(noise));
  }

  /**
   * The wraps happen: from the seed noise 1 the first term is -1, so a dark
   * voxel with error -128 flips to error +127; with noise 2 the term is +1,
   * so a full voxel with error +127 flips to -128.
   */
  lemma DitherWrapExamples()
    ensures PwmStep(0, -128, 1) == PwmOut(false, 127, 0x428e)
    ensures PwmStep(255, 127, 2) == PwmOut(true, -128, 1)
  {
    assert NoiseNext(1) == 0x428e;
    assert NoiseTerm(0x428e) == -1 by {
      assert ((0x428e as bv16 & 1) << 1) - 1 == 0xFFFF;
    }
    assert NoiseNext(2) == 1;
    assert NoiseTerm(1) == 1 by {
      assert ((1 as bv16 & 1) << 1) - 1 == 1;
    }
  }

  // ---------------------------------------------------------------------------
  // The PWM ticker of this backend

  /** The cube of error accumulators, indexed [layer_idx][row_idx][led_idx]. */
  type ErrCube = seq<seq<seq<i8>>>

  ghost predicate IsErrCube(e: ErrCube)
  {
    |e| == Size && forall l :: 0 <= l < Size ==> |e[l]| == Size && forall r :: 0 <= r < Size ==> |e[l][r]| == Size
  }

  class PwmTicker {
    var noise: bv16

    /** PWMTicker::new: the LFSR is seeded with 1. */
    constructor ()
      ensures noise == 1
    {
      noise := 1;
    }

    /**
     * compute_pwm(brightness, &mut errs[l][r][c]): one dithering step; only the
     * noise and that one error cell change.
     */
    method ComputePwm(brightness: u8, errs: array3<i8>, l: nat, r: nat, c: nat) returns (on: bool)
      requires l < errs.Length0 && r < errs.Length1 && c < errs.Length2
      modifies this, errs
      ensures PwmOut(on, errs[l, r, c], noise) == PwmStep(brightness, old(errs[l, r, c]), old(noise))
      ensures forall l', r', c' ::
                0 <= l' < errs.Length0 && 0 <= r' < errs.Length1 && 0 <= c' < errs.Length2 && (l', r', c') != (l, r, c)
                ==> errs[l', r', c'] == old(errs[l', r', c'])
    {
      noise := Half(noise) ^ ((0 - Rem2(noise)) & 0x428e);
      var value: i16 := brightness + errs[l, r, c] + Signed(((noise & 1) << 1) - 1);
      var output: i16 := if value > 127 then 255 else 0;
      errs[l, r, c] := WrapI8(value - output);
      on := output != 0;
    }
  }

  // ---------------------------------------------------------------------------
  // One pass of display_inner, in closed form

  /**
   * The step for cell (li, r, c) of a pass started with errors `e` and noise
   * `noise`: it sees GAMMA of storage layer 7 - li, its own old error, and the
   * noise after the li * 64 + r * 8 + c cells before it.
   */
  function CellStep(v: Voxels, gamma: seq<u8>, e: ErrCube, noise: bv16, li: nat, r: nat, c: nat): PwmOut
    requires IsCube(v) && |gamma| == 256 && IsErrCube(e) && InRange(c, li, r)
  {
    PwmStep(gamma[v[7 - li][r][c]], e[li][r][c], NoiseIter(noise, li * 64 + r * 8 + c))
  }

  /** The error cube after one pass. */
  function PassErrs(v: Voxels, gamma: seq<u8>, e: ErrCube, noise: bv16): (e': ErrCube)
    requires IsCube(v) && |gamma| == 256 && IsErrCube(e)
    ensures IsErrCube(e')
  {
    seq(Size, li requires 0 <= li < Size =>
      seq(Size, r requires 0 <= r < Size =>
        seq(Size, c requires 0 <= c < Size => CellStep(v, gamma, e, noise, li, r, c).err)))
  }

  /** The data bits of row r of layer li. */
  function PassRowBits(v: Voxels, gamma: seq<u8>, e: ErrCube, noise: bv16, li: nat, r: nat): (bits: seq<bool>)
    requires IsCube(v) && |gamma| == 256 && IsErrCube(e) && li < Size && r < Size
    ensures |bits| == Size
    ensures forall c :: 0 <= c < Size ==> bits[c] == CellStep(v, gamma, e, noise, li, r, c).on
  {
    seq(Size, c requires 0 <= c < Size => CellStep(v, gamma, e, noise, li, r, c).on)
  }

  function PassRows(v: Voxels, gamma: seq<u8>, e: ErrCube, noise: bv16, li: nat): (rows: seq<seq<bool>>)
    requires IsCube(v) && |gamma| == 256 && IsErrCube(e) && li < Size
    ensures |rows| == Size
    ensures forall r :: 0 <= r < Size ==> rows[r] == PassRowBits(v, gamma, e, noise, li, r)
  {
    seq(Size, r requires 0 <= r < Size => PassRowBits(v, gamma, e, noise, li, r))
  }

  /** The 64 data bits of layer li, rows in order. */
  function PassLayerBits(v: Voxels, gamma: seq<u8>, e: ErrCube, noise: bv16, li: nat): (bits: seq<bool>)
    requires IsCube(v) && |gamma| == 256 && IsErrCube(e) && li < Size
    ensures |bits| == 64
  {
    FlattenLength(PassRows(v, gamma, e, noise, li), Size);
    Flatten(PassRows(v, gamma, e, noise, li))
  }

  function PassSegments(v: Voxels, gamma: seq<u8>, e: ErrCube, noise: bv16): (segs: seq<seq<Signal>>)
    requires IsCube(v) && |gamma| == 256 && IsErrCube(e)
    ensures |segs| == Size
    ensures forall li :: 0 <= li < Size ==> segs[li] == LayerSignals(SelectByte(li), PassLayerBits(v, gamma, e, noise, li))
  {
    seq(Size, li requires 0 <= li < Size => LayerSignals(SelectByte(li), PassLayerBits(v, gamma, e, noise, li)))
  }

  /** The shifted data of rows 0..r of layer li extends that of rows 0..r-1 by row r. */
  lemma PassRowsSnoc(v: Voxels, gamma: seq<u8>, e: ErrCube, noise: bv16, li: nat, r: nat)
    requires IsCube(v) && |gamma| == 256 && IsErrCube(e) && li < Size && r < Size
    ensures Shifts(Flatten(PassRows(v, gamma, e, noise, li)[..r + 1]))
            == Shifts(Flatten(PassRows(v, gamma, e, noise, li)[..r])) + Shifts(PassRowBits(v, gamma, e, noise, li, r))
  {
    var rows := PassRows(v, gamma, e, noise, li);
    FlattenSnoc(rows, r);
    ShiftsAppend(Flatten(rows[..r]), rows[r]);
  }

  /** The segments of layers 0..li extend those of layers 0..li-1 by layer li's. */
  lemma PassSegmentsSnoc(v: Voxels, gamma: seq<u8>, e: ErrCube, noise: bv16, li: nat)
    requires IsCube(v) && |gamma| == 256 && IsErrCube(e) && li < Size
    ensures Flatten(PassSegments(v, gamma, e, noise)[..li + 1])
            == Flatten(PassSegments(v, gamma, e, noise)[..li]) + LayerSignals(SelectByte(li), PassLayerBits(v, gamma, e, noise, li))
  {
    FlattenSnoc(PassSegments(v, gamma, e, noise), li);
  }

  /** The pin events of one display_inner. */
  function PassTrace(v: Voxels, gamma: seq<u8>, e: ErrCube, noise: bv16): seq<Signal>
    requires IsCube(v) && |gamma| == 256 && IsErrCube(e)
  {
    Flatten(PassSegments(v, gamma, e, noise))
  }

  /**
   * Data bit r * 8 + c of layer li is the output of the step for cell
   * (li, r, c), and that cell's error is updated by that same step.
   */
  lemma PassCell(v: Voxels, gamma: seq<u8>, e: ErrCube, noise: bv16, li: nat, r: nat, c: nat)
    requires IsCube(v) && |gamma| == 256 && IsErrCube(e) && InRange(c, li, r)
    ensures var out := PwmStep(gamma[v[7 - li][r][c]], e[li][r][c], NoiseIter(noise, li * 64 + r * 8 + c));
      && PassLayerBits(v, gamma, e, noise, li)[r * 8 + c] == out.on
      && PassErrs(v, gamma, e, noise)[li][r][c] == out.err
  {
    FlattenAt(PassRows(v, gamma, e, noise, li), Size, r, c);
  }

  /**
   * A pass is 8 segments of 74 events; segment li is storage layer 7 - li
   * under select byte 1 << li; on the shift register that is 72 bits per
   * layer, 576 in all.
   */
  lemma PassShape(v: Voxels, gamma: seq<u8>, e: ErrCube, noise: bv16, li: nat)
    requires IsCube(v) && |gamma| == 256 && IsErrCube(e) && li < Size
    ensures |PassTrace(v, gamma, e, noise)| == 8 * 74
    ensures PassTrace(v, gamma, e, noise)[li * 74 .. li * 74 + 74]
              == LayerSignals(SelectByte(li), PassLayerBits(v, gamma, e, noise, li))
    ensures |ShiftedBits(PassTrace(v, gamma, e, noise))| == 8 * 72
  {
    var segs := PassSegments(v, gamma, e, noise);
    FlattenLength(segs, 74);
    forall k | 0 <= k < 74 ensures PassTrace(v, gamma, e, noise)[li * 74 .. li * 74 + 74][k] == segs[li][k] {
      FlattenAt(segs, 74, li, k);
    }
    forall j | 0 <= j < |segs| ensures |ShiftedBits(segs[j])| == 72 {
      LayerSignalsBits(SelectByte(j), PassLayerBits(v, gamma, e, noise, j));
    }
    FramedBitCount(segs);
  }

  /** The state display_frame threads through its passes. */
  datatype Dither = Dither(errs: ErrCube, noise: bv16)

  /** The state after k passes over the same frame. */
  function Passes(v: Voxels, gamma: seq<u8>, s: Dither, k: nat): (t: Dither)
    requires IsCube(v) && |gamma| == 256 && IsErrCube(s.errs)
    ensures IsErrCube(t.errs)
  {
    if k == 0 then s
    else
      var p := Passes(v, gamma, s, k - 1);
      Dither(PassErrs(v, gamma, p.errs, p.noise), NoiseIter(p.noise, 512))
  }

  /** The pin events of k passes. */
  function PassesTrace(v: Voxels, gamma: seq<u8>, s: Dither, k: nat): seq<Signal>
    requires IsCube(v) && |gamma| == 256 && IsErrCube(s.errs)
  {
    if k == 0 then []
    else
      var p := Passes(v, gamma, s, k - 1);
      PassesTrace(v, gamma, s, k - 1) + PassTrace(v, gamma, p.errs, p.noise)
  }

  /** k passes draw 512 * k noise values and emit 592 * k pin events. */
  lemma {:induction false} PassesCount(v: Voxels, gamma: seq<u8>, s: Dither, k: nat)
    requires IsCube(v) && |gamma| == 256 && IsErrCube(s.errs)
    ensures Passes(v, gamma, s, k).noise == NoiseIter(s.noise, 512 * k)
    ensures |PassesTrace(v, gamma, s, k)| == 592 * k
  {
    if k > 0 {
      PassesCount(v, gamma, s, k - 1);
      var p := Passes(v, gamma, s, k - 1);
      NoiseIterAdd(s.noise, 512 * (k - 1), 512);
      PassShape(v, gamma, p.errs, p.noise, 0);
    }
  }

  /** Error cubes equal cell by cell are equal. */
  lemma ErrCubeExt(e: ErrCube, f: ErrCube)
    requires IsErrCube(e) && IsErrCube(f)
    requires forall l, r, c :: InRange(c, l, r) ==> e[l][r][c] == f[l][r][c]
    ensures e == f
  {
    forall l | 0 <= l < Size ensures e[l] == f[l] {
      forall r | 0 <= r < Size ensures e[l][r] == f[l][r] {
        assert forall c :: 0 <= c < Size ==> e[l][r][c] == f[l][r][c];
      }
    }
  }

  // ---------------------------------------------------------------------------
  // The backend

  class RpiBackend {
    const ticker: PwmTicker
    const pwmErr: array3<i8>
    /** GAMMA: a fixed 256-entry table; its values are not modelled. */
    const gamma: seq<u8>
    ghost var trace: seq<Signal>

    ghost predicate Valid()
      reads this
    {
      pwmErr.Length0 == Size && pwmErr.Length1 == Size && pwmErr.Length2 == Size && |gamma| == 256
    }

    /** The error accumulators as a value. */
    function Errs(): (e: ErrCube)
      reads this, pwmErr
      requires Valid()
      ensures IsErrCube(e)
      ensures forall l, r, c :: InRange(c, l, r) ==> e[l][r][c] == pwmErr[l, r, c]
    {
      seq(Size, l requires 0 <= l < Size reads this, pwmErr =>
        seq(Size, r requires 0 <= r < Size reads this, pwmErr =>
          seq(Size, c requires 0 <= c < Size reads this, pwmErr => pwmErr[l, r, c])))
    }

    /** RpiBackend::new: every error accumulator 0, noise seeded with 1, no pin events yet. */
    constructor (gamma: seq<u8>)
      requires |gamma| == 256
      ensures Valid() && fresh(ticker) && fresh(pwmErr)
      ensures this.gamma == gamma
      ensures forall l, r, c :: InRange(c, l, r) ==> Errs()[l][r][c] == 0
      ensures ticker.noise == 1 && trace == []
    {
      this.gamma := gamma;
      ticker := new PwmTicker();
      pwmErr := new i8[Size, Size, Size]((l, r, c) => 0);
      trace := [];
    }

    /** push_pin. */
    method PushPin(bit: bool)
      modifies this
      ensures trace == old(trace) + [Shift(bit)]
    {
      trace := trace + [Shift(bit)];
    }

    /** out_byte: the eight bits of `byte`, least-significant first. */
    method OutByte(byte: u8)
      modifies this
      ensures trace == old(trace) + Shifts(Bits(byte, 8))
    {
      var bits := Bits(byte, 8);
      var k := 0;
      while k < 8
        invariant 0 <= k <= 8
        invariant trace == old(trace) + Shifts(bits[..k])
      {
        PushPin(bits[k]);
        assert bits[..k + 1] == bits[..k] + [bits[k]];
        assert Shifts(bits[..k + 1]) == Shifts(bits[..k]) + [Shift(bits[k])];
        k := k + 1;
      }
      assert bits[..8] == bits;
    }

    /** Rows below n of layer li hold the errors their cells' steps left. */
    ghost predicate RowsStepped(v: Voxels, e: ErrCube, noise: bv16, li: nat, n: nat)
      reads this, pwmErr
      requires Valid() && IsCube(v) && IsErrCube(e) && li < Size
    {
      forall r, c :: 0 <= r < n && r < Size && 0 <= c < Size ==> pwmErr[li, r, c] == CellStep(v, gamma, e, noise, li, r, c).err
    }

    /** Rows from n on of layer li still hold the errors `e`. */
    ghost predicate RowsKept(e: ErrCube, li: nat, n: nat)
      reads this, pwmErr
      requires Valid() && IsErrCube(e) && li < Size
    {
      forall r, c :: n <= r < Size && 0 <= c < Size ==> pwmErr[li, r, c] == e[li][r][c]
    }

    /**
     * The body of display_inner's innermost loop for cell (li, r, c) of a pass
     * that started with errors `e` and noise `noise`: the cell still holds its
     * value in `e` and the ticker has made li * 64 + r * 8 + c calls.
     */
    method DitherCell(frame: Frame, li: nat, r: nat, c: nat, ghost v: Voxels, ghost e: ErrCube, ghost noise: bv16)
      requires Valid() && frame.Valid() && v == frame.Layers() && InRange(c, li, r) && IsErrCube(e)
      requires ticker.noise == NoiseIter(noise, li * 64 + r * 8 + c)
      requires pwmErr[li, r, c] == e[li][r][c]
      modifies this, ticker, pwmErr
      ensures ticker.noise == NoiseIter(noise, li * 64 + r * 8 + c + 1)
      ensures pwmErr[li, r, c] == CellStep(v, gamma, e, noise, li, r, c).err
      ensures forall l', r', c' :: InRange(c', l', r') && (l' != li || r' != r || c' != c) ==> pwmErr[l', r', c'] == old(pwmErr[l', r', c'])
      ensures trace == old(trace) + [Shift(CellStep(v, gamma, e, noise, li, r, c).on)]
    {
      var bit := ticker.ComputePwm(gamma[frame.Get(r, 7 - li, c)], pwmErr, li, r, c);
      PushPin(bit);
    }

    /**
     * Row r of layer li within a pass that started with errors `e` and noise
     * `noise`: the row's cells are still those of `e` and the ticker has made
     * li * 64 + r * 8 calls.
     */
    method DitherRow(frame: Frame, li: nat, r: nat, ghost v: Voxels, ghost e: ErrCube, ghost noise: bv16)
      requires Valid() && frame.Valid() && v == frame.Layers() && li < Size && r < Size && IsErrCube(e)
      requires ticker.noise == NoiseIter(noise, li * 64 + r * 8)
      requires forall c :: 0 <= c < Size ==> pwmErr[li, r, c] == e[li][r][c]
      modifies this, ticker, pwmErr
      ensures ticker.noise == NoiseIter(noise, li * 64 + r * 8 + 8)
      ensures forall c :: 0 <= c < Size ==> pwmErr[li, r, c] == CellStep(v, gamma, e, noise, li, r, c).err
      ensures forall l', r', c' :: InRange(c', l', r') && (l' != li || r' != r) ==> pwmErr[l', r', c'] == old(pwmErr[l', r', c'])
      ensures trace == old(trace) + Shifts(PassRowBits(v, gamma, e, noise, li, r))
    {
      ghost var bits := PassRowBits(v, gamma, e, noise, li, r);
      ghost var k := li * 64 + r * 8;
      var c := 0;
      while c < Size
        invariant 0 <= c <= Size
        invariant k == li * 64 + r * 8 + c && ticker.noise == NoiseIter(noise, k)
        invariant forall c' :: 0 <= c' < c ==> pwmErr[li, r, c'] == CellStep(v, gamma, e, noise, li, r, c').err
        invariant forall c' :: c <= c' < Size ==> pwmErr[li, r, c'] == e[li][r][c']
        invariant forall l', r', c' :: InRange(c', l', r') && (l' != li || r' != r) ==> pwmErr[l', r', c'] == old(pwmErr[l', r', c'])
        invariant trace == old(trace) + Shifts(bits[..c])
      {
        DitherCell(frame, li, r, c, v, e, noise);
        ShiftsPrefixSnoc(bits, c);
        AppendAssoc(old(trace), Shifts(bits[..c]), [Shift(bits[c])]);
        c, k := c + 1, k + 1;
      }
      assert bits[..Size] == bits;
    }

    /** The 64 data bits of layer li within a pass. */
    method DitherLayer(frame: Frame, li: nat, ghost v: Voxels, ghost e: ErrCube, ghost noise: bv16)
      requires Valid() && frame.Valid() && v == frame.Layers() && li < Size && IsErrCube(e)
      requires ticker.noise == NoiseIter(noise, li * 64)
      requires forall r, c :: 0 <= r < Size && 0 <= c < Size ==> pwmErr[li, r, c] == e[li][r][c]
      modifies this, ticker, pwmErr
      ensures ticker.noise == NoiseIter(noise, li * 64 + 64)
      ensures forall r, c :: 0 <= r < Size && 0 <= c < Size ==> pwmErr[li, r, c] == CellStep(v, gamma, e, noise, li, r, c).err
      ensures forall l', r', c' :: InRange(c', l', r') && l' != li ==> pwmErr[l', r', c'] == old(pwmErr[l', r', c'])
      ensures trace == old(trace) + Shifts(PassLayerBits(v, gamma, e, noise, li))
    {
      ghost var rows := PassRows(v, gamma, e, noise, li);
      var r := 0;
      while r < Size
        invariant 0 <= r <= Size
        invariant ticker.noise == NoiseIter(noise, li * 64 + r * 8)
        invariant RowsStepped(v, e, noise, li, r) && RowsKept(e, li, r)
        invariant forall l', r', c' :: InRange(c', l', r') && l' != li ==> pwmErr[l', r', c'] == old(pwmErr[l', r', c'])
        invariant trace == old(trace) + Shifts(Flatten(rows[..r]))
      {
        ghost var done := Flatten(rows[..r]);
        DitherRow(frame, li, r, v, e, noise);
        assert li * 64 + r * 8 + 8 == li * 64 + (r + 1) * 8;
        PassRowsSnoc(v, gamma, e, noise, li, r);
        AppendAssoc(old(trace), Shifts(done), Shifts(PassRowBits(v, gamma, e, noise, li, r)));
        r := r + 1;
      }
      assert rows[..Size] == rows;
    }

    /** One layer of display_inner: latch low, select byte, data, latch high. */
    method DisplayLayer(frame: Frame, li: nat, ghost v: Voxels, ghost e: ErrCube, ghost noise: bv16)
      requires Valid() && frame.Valid() && v == frame.Layers() && li < Size && IsErrCube(e)
      requires ticker.noise == NoiseIter(noise, li * 64)
      requires forall r, c :: 0 <= r < Size && 0 <= c < Size ==> pwmErr[li, r, c] == e[li][r][c]
      modifies this, ticker, pwmErr
      ensures ticker.noise == NoiseIter(noise, li * 64 + 64)
      ensures forall r, c :: 0 <= r < Size && 0 <= c < Size ==> pwmErr[li, r, c] == CellStep(v, gamma, e, noise, li, r, c).err
      ensures forall l', r', c' :: InRange(c', l', r') && l' != li ==> pwmErr[l', r', c'] == old(pwmErr[l', r', c'])
      ensures trace == old(trace) + LayerSignals(SelectByte(li), PassLayerBits(v, gamma, e, noise, li))
    {
      trace := trace + [LatchLow];
      var height := SelectByte(li);
      OutByte(height);
      DitherLayer(frame, li, v, e, noise);
      trace := trace + [LatchHigh];
      ghost var select, data := Shifts(Bits(height, 8)), Shifts(PassLayerBits(v, gamma, e, noise, li));
      assert trace == old(trace) + [LatchLow] + select + data + [LatchHigh];
      AppendAssoc(old(trace), [LatchLow], select);
      AppendAssoc(old(trace), [LatchLow] + select, data);
      AppendAssoc(old(trace), [LatchLow] + select + data, [LatchHigh]);
    }

    /** Layers below n hold the errors their cells' steps left. */
    ghost predicate LayersStepped(v: Voxels, e: ErrCube, noise: bv16, n: nat)
      reads this, pwmErr
      requires Valid() && IsCube(v) && IsErrCube(e)
    {
      forall l, r, c :: InRange(c, l, r) && l < n ==> pwmErr[l, r, c] == CellStep(v, gamma, e, noise, l, r, c).err
    }

    /** Layers from n on still hold the errors `e`. */
    ghost predicate LayersKept(e: ErrCube, n: nat)
      reads this, pwmErr
      requires Valid() && IsErrCube(e)
    {
      forall l, r, c :: InRange(c, l, r) && n <= l ==> pwmErr[l, r, c] == e[l][r][c]
    }

    /** The layer loop of display_inner, stated cell by cell. */
    method DisplayLayers(frame: Frame, ghost v: Voxels, ghost e: ErrCube, ghost noise: bv16)
      requires Valid() && frame.Valid() && v == frame.Layers() && IsErrCube(e)
      requires ticker.noise == noise
      requires forall l, r, c :: InRange(c, l, r) ==> pwmErr[l, r, c] == e[l][r][c]
      modifies this, ticker, pwmErr
      ensures ticker.noise == NoiseIter(noise, 512)
      ensures forall l, r, c :: InRange(c, l, r) ==> pwmErr[l, r, c] == CellStep(v, gamma, e, noise, l, r, c).err
      ensures trace == old(trace) + PassTrace(v, gamma, e, noise)
    {
      ghost var segs := PassSegments(v, gamma, e, noise);
      var li := 0;
      while li < Size
        invariant 0 <= li <= Size
        invariant ticker.noise == NoiseIter(noise, li * 64)
        invariant LayersStepped(v, e, noise, li) && LayersKept(e, li)
        invariant trace == old(trace) + Flatten(segs[..li])
      {
        ghost var done := Flatten(segs[..li]);
        DisplayLayer(frame, li, v, e, noise);
        assert li * 64 + 64 == (li + 1) * 64;
        PassSegmentsSnoc(v, gamma, e, noise, li);
        AppendAssoc(old(trace), done, LayerSignals(SelectByte(li), PassLayerBits(v, gamma, e, noise, li)));
        li := li + 1;
      }
      assert segs[..Size] == segs;
    }

    /**
     * display_inner: one pass over the layers in reverse storage order; each
     * of the 512 error cells is updated exactly once, by the step of its own
     * position, and the noise advances 512 times.
     */
    method DisplayInner(frame: Frame)
      requires Valid() && frame.Valid()
      modifies this, ticker, pwmErr
      ensures Errs() == PassErrs(frame.Layers(), gamma, old(Errs()), old(ticker.noise))
      ensures ticker.noise == NoiseIter(old(ticker.noise), 512)
      ensures trace == old(trace) + PassTrace(frame.Layers(), gamma, old(Errs()), old(ticker.noise))
    {
      ghost var v, e, noise := frame.Layers(), Errs(), ticker.noise;
      DisplayLayers(frame, v, e, noise);
      ErrCubeExt(Errs(), PassErrs(v, gamma, e, noise));
    }

    /** Backend::display_frame: eight passes of display_inner over the same frame. */
    method DisplayFrame(frame: Frame)
      requires Valid() && frame.Valid()
      modifies this, ticker, pwmErr
      ensures Dither(Errs(), ticker.noise) == Passes(frame.Layers(), gamma, Dither(old(Errs()), old(ticker.noise)), 8)
      ensures trace == old(trace) + PassesTrace(frame.Layers(), gamma, Dither(old(Errs()), old(ticker.noise)), 8)
    {
      ghost var v := frame.Layers();
      ghost var s := Dither(Errs(), ticker.noise);
      var k := 0;
      while k < 8
        invariant 0 <= k <= 8
        invariant Dither(Errs(), ticker.noise) == Passes(v, gamma, s, k)
        invariant trace == old(trace) + PassesTrace(v, gamma, s, k)
      {
        ghost var p := Passes(v, gamma, s, k);
        ghost var done := PassesTrace(v, gamma, s, k);
        DisplayInner(frame);
        assert Dither(Errs(), ticker.noise) == Passes(v, gamma, s, k + 1);
        assert trace == old(trace) + done + PassTrace(v, gamma, p.errs, p.noise);
        AppendAssoc(old(trace), done, PassTrace(v, gamma, p.errs, p.noise));
        k := k + 1;
      }
      assert frame.Layers() == v;
    }
  }
}
