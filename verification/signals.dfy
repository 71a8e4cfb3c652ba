/*
 * The serial protocol shared by the shift-register drivers: per layer a latch
 * low edge, eight select bits (least-significant first), sixty-four data bits,
 * and a latch high edge.  Only the abstract sequence of pin events is kept.
 */
module Signals {
  import opened Frames

  /** One observable event on the output pins. */
  datatype Signal =
    | LatchLow          // rclk.set_low()
    | LatchHigh         // rclk.set_high()
    | Shift(bit: bool)  // push_pin(bit): data line set, shift clock pulsed

  /** 2^k. */
  function Pow2(k: nat): (p: nat)
    ensures p >= 1
  {
    if k == 0 then 1 else 2 * Pow2(k - 1)
  }

  /** 2^32, the modulus of a `u32`. */
  lemma Pow2Value()
    ensures Pow2(32) == 0x1_0000_0000
  {
    assert Pow2(8) == 256;
    assert Pow2(16) == 65536 by { Pow2Add(8, 8); }
    Pow2Add(16, 16);
  }

  lemma {:induction false} Pow2Add(a: nat, b: nat)
    ensures Pow2(a + b) == Pow2(a) * Pow2(b)
  {
    if a > 0 {
      Pow2Add(a - 1, b);
    }
  }

  /** The lowest `width` bits of n, least-significant first (bitvec's Lsb0 view). */
  function Bits(n: nat, width: nat): (bits: seq<bool>)
    ensures |bits| == width
  {
    if width == 0 then [] else [n % 2 == 1] + Bits(n / 2, width - 1)
  }

  /** The number whose least-significant-first binary digits are `bits`. */
  function FromBits(bits: seq<bool>): nat
  {
    if bits == [] then 0 else (if bits[0] then 1 else 0) + 2 * FromBits(bits[1..])
  }

  /** Shifting a value out least-significant bit first loses nothing below 2^width. */
  lemma {:induction false} BitsRoundTrip(n: nat, width: nat)
    requires n < Pow2(width)
    ensures FromBits(Bits(n, width)) == n
  {
    if width > 0 {
      BitsRoundTrip(n / 2, width - 1);
    }
  }

  /** Bit k of the Lsb0 view is the k-th binary digit of n. */
  lemma {:induction false} BitsAt(n: nat, width: nat, k: nat)
    requires k < width
    ensures Bits(n, width)[k] == (n / Pow2(k) % 2 == 1)
  {
    if k > 0 {
      BitsAt(n / 2, width - 1, k - 1);
      DivDiv(n, Pow2(k - 1));
    }
  }

  lemma DivDiv(n: nat, p: nat)
    requires p >= 1
    ensures n / 2 / p == n / (2 * p)
  {
    var q := n / 2 / p;
    var r := n / 2 % p;
    assert n / 2 == q * p + r;
    assert n == 2 * (q * p + r) + n % 2;
    assert n == q * (2 * p) + (2 * r + n % 2);
    assert 0 <= 2 * r + n % 2 < 2 * p;
    DivUnique(n, 2 * p, q, 2 * r + n % 2);
  }

  lemma DivUnique(n: nat, m: nat, q: nat, r: nat)
    requires m >= 1 && r < m && n == q * m + r
    ensures n / m == q && n % m == r
  {
    var q', r' := n / m, n % m;
    assert n == q' * m + r';
    if q' < q {
      MulMono(q' + 1, q, m);
    } else {
      MulMono(q, q', m);
      if q' > q {
        MulMono(q + 1, q', m);
      }
    }
  }

  lemma MulMono(a: nat, b: nat, m: nat)
    requires a <= b
    ensures a * m <= b * m
  {
  }

  /** The shift sequence for a run of bits. */
  function Shifts(bits: seq<bool>): (s: seq<Signal>)
    ensures |s| == |bits|
    ensures forall k :: 0 <= k < |bits| ==> s[k] == Shift(bits[k])
  {
    seq(|bits|, k requires 0 <= k < |bits| => Shift(bits[k]))
  }

  lemma ShiftsSnoc(bits: seq<bool>, bit: bool)
    ensures Shifts(bits + [bit]) == Shifts(bits) + [Shift(bit)]
  {
  }

  /** Shifting out one more bit of a run appends its shift event. */
  lemma ShiftsPrefixSnoc(bits: seq<bool>, n: nat)
    requires n < |bits|
    ensures Shifts(bits[..n + 1]) == Shifts(bits[..n]) + [Shift(bits[n])]
  {
    assert bits[..n + 1] == bits[..n] + [bits[n]];
    ShiftsSnoc(bits[..n], bits[n]);
  }

  lemma ShiftsAppend(s: seq<bool>, t: seq<bool>)
    ensures Shifts(s + t) == Shifts(s) + Shifts(t)
  {
  }

  /** The data bits of a trace: the values shifted, in order, ignoring latch edges. */
  function ShiftedBits(trace: seq<Signal>): seq<bool>
  {
    if trace == [] then []
    else (if trace[0].Shift? then [trace[0].bit] else []) + ShiftedBits(trace[1..])
  }

  lemma {:induction false} ShiftedBitsAppend(s: seq<Signal>, t: seq<Signal>)
    ensures ShiftedBits(s + t) == ShiftedBits(s) + ShiftedBits(t)
  {
    if s != [] {
      var head := if s[0].Shift? then [s[0].bit] else [];
      assert (s + t)[0] == s[0];
      assert (s + t)[1..] == s[1..] + t;
      assert ShiftedBits(s + t) == head + ShiftedBits(s[1..] + t);
      ShiftedBitsAppend(s[1..], t);
    } else {
      assert s + t == t;
    }
  }

  lemma {:induction false} ShiftedBitsOfShifts(bits: seq<bool>)
    ensures ShiftedBits(Shifts(bits)) == bits
  {
    if bits != [] {
      assert Shifts(bits)[1..] == Shifts(bits[1..]);
      ShiftedBitsOfShifts(bits[1..]);
    }
  }

  /** `1u8 << idx`: the select byte for enumeration index idx. */
  function SelectByte(idx: nat): (b: u8)
    requires idx < 8
  {
    Pow2Below(idx, 8);
    Pow2(idx)
  }

  lemma {:induction false} Pow2Below(k: nat, width: nat)
    requires k < width
    ensures Pow2(k) < Pow2(width)
  {
    if k + 1 < width {
      Pow2Below(k, width - 1);
    }
  }

  /** The select byte is one-hot: shifted out Lsb0, only bit idx is set. */
  lemma {:induction false} SelectByteOneHot(idx: nat, k: nat)
    requires idx < 8 && k < 8
    ensures Bits(SelectByte(idx), 8)[k] <==> k == idx
  {
    OneHotBits(idx, 8, k);
  }

  lemma {:induction false} OneHotBits(idx: nat, width: nat, k: nat)
    requires k < width
    ensures Bits(Pow2(idx), width)[k] <==> k == idx
  {
    if k > 0 {
      if idx == 0 {
        ZeroBits(width - 1, k - 1);
      } else {
        assert Pow2(idx) / 2 == Pow2(idx - 1);
        OneHotBits(idx - 1, width - 1, k - 1);
      }
    }
  }

  lemma {:induction false} ZeroBits(width: nat, k: nat)
    requires k < width
    ensures !Bits(0, width)[k]
  {
    if k > 0 {
      ZeroBits(width - 1, k - 1);
    }
  }

  /** The pin events for one layer: latch low, select byte Lsb0, data, latch high. */
  function LayerSignals(select: u8, data: seq<bool>): seq<Signal>
  {
    [LatchLow] + Shifts(Bits(select, 8)) + Shifts(data) + [LatchHigh]
  }

  /**
   * The layer framing: 74 events for 64 data bits, bracketed by the latch edges,
   * the select bits at positions 1..8 and the data bits at positions 9..72.
   */
  lemma LayerSignalsShape(select: u8, data: seq<bool>)
    requires |data| == 64
    ensures |LayerSignals(select, data)| == 74
    ensures LayerSignals(select, data)[0] == LatchLow
    ensures LayerSignals(select, data)[73] == LatchHigh
    ensures forall k :: 0 <= k < 8 ==> LayerSignals(select, data)[1 + k] == Shift(Bits(select, 8)[k])
    ensures forall k :: 0 <= k < 64 ==> LayerSignals(select, data)[9 + k] == Shift(data[k])
  {
  }

  /** What the shift register receives for one layer: the select bits, then the data bits. */
  lemma LayerSignalsBits(select: u8, data: seq<bool>)
    ensures ShiftedBits(LayerSignals(select, data)) == Bits(select, 8) + data
  {
    var sel := Bits(select, 8);
    ShiftedBitsAppend([LatchLow] + Shifts(sel) + Shifts(data), [LatchHigh]);
    ShiftedBitsAppend([LatchLow] + Shifts(sel), Shifts(data));
    ShiftedBitsAppend([LatchLow], Shifts(sel));
    ShiftedBitsOfShifts(sel);
    ShiftedBitsOfShifts(data);
    assert ShiftedBits([LatchHigh]) == [];
    assert ShiftedBits([LatchLow]) == [];
  }

  /** Segments of 72 shifted bits each give 72 shifted bits per segment in all. */
  lemma {:induction false} FramedBitCount(segs: seq<seq<Signal>>)
    requires forall k :: 0 <= k < |segs| ==> |ShiftedBits(segs[k])| == 72
    ensures |ShiftedBits(Flatten(segs))| == 72 * |segs|
  {
    if segs != [] {
      FramedBitCount(segs[1..]);
      ShiftedBitsAppend(segs[0], Flatten(segs[1..]));
    }
  }
}
