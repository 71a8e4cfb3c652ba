/*
 * The offline generator of 32-bit dither patterns: for each spacing i from 16
 * down to 0, a run of "1" followed by i zeros is repeated, padded and cut to
 * 32 characters, and read as a binary number.  Python's string operators are
 * modelled as functions on `string`; generate() keeps its counted loop.
 */
module Brightnesses {
  import opened Signals

  // ---------------------------------------------------------------------------
  // Python string operations

  /** `s * n`: n copies of s, one after another. */
  function Repeat(s: string, n: nat): (r: string)
    ensures |r| == |s| * n
  {
    if n == 0 then "" else s + Repeat(s, n - 1)
  }

  /** Character k of `s * n` is character k % |s| of s. */
  lemma {:induction false} RepeatAt(s: string, n: nat, k: nat)
    requires |s| > 0 && k < |s| * n
    ensures Repeat(s, n)[k] == s[k % |s|]
  {
    if k < |s| {
      DivUnique(k, |s|, 0, k);
    } else {
      RepeatAt(s, n - 1, k - |s|);
      DivUnique(k, |s|, (k - |s|) / |s| + 1, (k - |s|) % |s|);
    }
  }

  /** `s.ljust(width, fill)`: s, padded on the right with `fill` up to `width` characters. */
  function LJust(s: string, width: nat, fill: char): (r: string)
    ensures |r| == if |s| >= width then |s| else width
    ensures r[..|s|] == s
    ensures forall k :: |s| <= k < |r| ==> r[k] == fill
  {
    if |s| >= width then s else s + seq(width - |s|, _ => fill)
  }

  /** `s[:n]`: the first n characters, or all of s when it is shorter. */
  function Take(s: string, n: nat): (r: string)
    ensures |r| == if |s| <= n then |s| else n
    ensures r == s[..|r|]
  {
    if |s| <= n then s else s[..n]
  }

  predicate IsBinary(s: string)
  {
    forall k :: 0 <= k < |s| ==> s[k] == '0' || s[k] == '1'
  }

  function Digit(ch: char): nat
  {
    if ch == '1' then 1 else 0
  }

  /** The value of a string of binary digits, most significant first. */
  function BinaryValue(s: string): nat
  {
    if s == [] then 0 else 2 * BinaryValue(s[..|s| - 1]) + Digit(s[|s| - 1])
  }

  /** `int(s, base=2)`: defined for a non-empty string of binary digits. */
  function ParseBinary(s: string): (n: nat)
    requires |s| > 0 && IsBinary(s)
    ensures n < Pow2(|s|)
    ensures s[0] == '1' ==> n >= Pow2(|s| - 1)
  {
    BinaryValueBelow(s);
    BinaryValueLead(s);
    BinaryValue(s)
  }

  /** n binary digits denote a number below 2^n. */
  lemma {:induction false} BinaryValueBelow(s: string)
    requires IsBinary(s)
    ensures BinaryValue(s) < Pow2(|s|)
  {
    if s != [] {
      BinaryValueBelow(s[..|s| - 1]);
    }
  }

  /** A leading '1' among n binary digits makes the number at least 2^(n-1). */
  lemma {:induction false} BinaryValueLead(s: string)
    requires |s| > 0 && IsBinary(s)
    ensures s[0] == '1' ==> BinaryValue(s) >= Pow2(|s| - 1)
  {
    if |s| > 1 {
      BinaryValueLead(s[..|s| - 1]);
    } else {
      assert s[..0] == [];
    }
  }

  /** n ones denote 2^n - 1. */
  lemma {:induction false} BinaryValueOnes(s: string)
    requires forall k :: 0 <= k < |s| ==> s[k] == '1'
    ensures BinaryValue(s) == Pow2(|s|) - 1
  {
    if s != [] {
      BinaryValueOnes(s[..|s| - 1]);
    }
  }

  /** A '1' followed by n - 1 zeros denotes 2^(n-1). */
  lemma {:induction false} BinaryValueLeadOnly(s: string)
    requires |s| > 0 && s[0] == '1'
    requires forall k :: 0 < k < |s| ==> s[k] == '0'
    ensures BinaryValue(s) == Pow2(|s| - 1)
  {
    if |s| > 1 {
      BinaryValueLeadOnly(s[..|s| - 1]);
    } else {
      assert s[..0] == [];
    }
  }

  // ---------------------------------------------------------------------------
  // The patterns

  /** `"1" + "0" * i`: one lit sub-frame followed by i dark ones. */
  function Unit(i: nat): (u: string)
    ensures |u| == i + 1
  {
    "1" + Repeat("0", i)
  }

  lemma UnitAt(i: nat, j: nat)
    requires j <= i
    ensures Unit(i)[j] == if j == 0 then '1' else '0'
  {
    if j > 0 {
      RepeatAt("0", i, j - 1);
    }
  }

  /** The unit repeated `33 // (i + 1)` times, before padding. */
  function Unpadded(i: nat): string
  {
    Repeat(Unit(i), 33 / (i + 1))
  }

  /** The 32-character string generated for spacing i. */
  function Pattern(i: nat): string
  {
    Take(LJust(Unpadded(i), 32, '0'), 32)
  }

  /** The number generated for spacing i. */
  function PatternValue(i: nat): nat
  {
    PatternShape(i);
    ParseBinary(Pattern(i))
  }

  /** The repeated unit is the largest whole number of units that fits in 33 characters. */
  lemma UnpaddedLength(i: nat)
    ensures |Unpadded(i)| == (i + 1) * (33 / (i + 1))
    ensures 33 - i <= |Unpadded(i)| <= 33
  {
    var m, q := i + 1, 33 / (i + 1);
    DivUnique(33, m, q, 33 % m);
    assert 33 == q * m + 33 % m;
  }

  /** k lies inside q whole blocks of m exactly when its block number is below q. */
  lemma BlockBelow(k: nat, m: nat, q: nat)
    requires m >= 1
    ensures k < m * q <==> k / m < q
  {
    var a, b := k / m, k % m;
    assert k == a * m + b;
    if a < q {
      MulMono(a + 1, q, m);
    } else {
      MulMono(q, a, m);
    }
  }

  /**
   * Every generated string is 32 binary digits; it starts with '1' whenever
   * at least one unit fits in 33 characters, that is for spacings up to 32.
   */
  lemma PatternShape(i: nat)
    ensures |Pattern(i)| == 32 && IsBinary(Pattern(i))
    ensures i <= 32 ==> Pattern(i)[0] == '1'
  {
    forall k | 0 <= k < 32 ensures Pattern(i)[k] == '0' || Pattern(i)[k] == '1' {
      PatternAt(i, k);
    }
    if i <= 32 {
      PatternAt(i, 0);
      LeadingUnitFits(i);
    }
  }

  /** Position 0 is the start of the first unit, which fits when i <= 32. */
  lemma LeadingUnitFits(i: nat)
    requires i <= 32
    ensures 0 % (i + 1) == 0 && 0 / (i + 1) < 33 / (i + 1)
  {
    var q := 33 / (i + 1);
    DivUnique(0, i + 1, 0, 0);
    DivUnique(33, i + 1, q, 33 % (i + 1));
  }

  /**
   * Character k of the pattern for spacing i is '1' exactly when k is a
   * multiple of i + 1 that falls inside the repeated units.
   */
  lemma PatternOnes(i: nat, k: nat)
    requires k < 32
    ensures Pattern(i)[k] == '1' <==> k % (i + 1) == 0 && k / (i + 1) < 33 / (i + 1)
  {
    PatternAt(i, k);
  }

  lemma PatternAt(i: nat, k: nat)
    requires k < 32
    ensures |Pattern(i)| == 32
    ensures Pattern(i)[k] == (if k % (i + 1) == 0 && k / (i + 1) < 33 / (i + 1) then '1' else '0')
  {
    var u := Unpadded(i);
    var p := LJust(u, 32, '0');
    UnpaddedLength(i);
    BlockBelow(k, i + 1, 33 / (i + 1));
    assert Pattern(i)[k] == p[k];
    if k < |u| {
      assert p[k] == p[..|u|][k] == u[k];
      RepeatAt(Unit(i), 33 / (i + 1), k);
      UnitAt(i, k % (i + 1));
    }
  }

  /** The lit sub-frames are spaced i + 1 apart. */
  lemma PatternOnesSpaced(i: nat, k: nat)
    requires k < 32 && Pattern(i)[k] == '1'
    ensures k % (i + 1) == 0
  {
    PatternOnes(i, k);
  }

  /** Every generated value is a 32-bit number with its top bit set. */
  lemma PatternValueRange(i: nat)
    requires i <= 32
    ensures 0x8000_0000 <= PatternValue(i) < 0x1_0000_0000
  {
    PatternShape(i);
    Pow2Value();
    assert Pow2(32) == 2 * Pow2(31);
  }

  /** Spacing 0: 33 copies of "1" cut to 32, all ones. */
  lemma PatternValueDense(i: nat)
    requires i == 0
    ensures PatternValue(i) == 0xFFFF_FFFF
  {
    PatternShape(i);
    forall k | 0 <= k < 32 ensures Pattern(i)[k] == '1' {
      PatternOnes(i, k);
      DivUnique(k, 1, k, 0);
    }
    BinaryValueOnes(Pattern(i));
    Pow2Value();
  }

  /** Spacings 16 to 32: one unit fits, so only the leading one is set. */
  lemma PatternValueSparse(i: nat)
    requires 16 <= i <= 32
    ensures PatternValue(i) == 0x8000_0000
  {
    PatternShape(i);
    DivUnique(33, i + 1, 1, 32 - i);
    forall k | 0 < k < 32 ensures Pattern(i)[k] == '0' {
      PatternAt(i, k);
    }
    BinaryValueLeadOnly(Pattern(i));
    Pow2Value();
    assert Pow2(32) == 2 * Pow2(31);
  }

  /** The string built by one iteration of generate's loop body. */
  method BuildPattern(i: nat) returns (s: string)
    ensures s == Pattern(i)
    ensures |s| == 32 && IsBinary(s)
  {
    s := "1" + Repeat("0", i);
    s := Repeat(s, 33 / (i + 1));
    s := LJust(s, 32, '0');
    s := Take(s, 32);
    PatternShape(i);
  }

  /**
   * generate(): one value per spacing, from 16 down to 0, in that order; the
   * first is 0x80000000 and the last 0xFFFFFFFF.
   */
  method Generate() returns (res: seq<nat>)
    ensures |res| == 17
    ensures forall j :: 0 <= j < 17 ==> res[j] == PatternValue(16 - j)
    ensures forall j :: 0 <= j < 17 ==> 0x8000_0000 <= res[j] < 0x1_0000_0000
    ensures res[0] == 0x8000_0000 && res[16] == 0xFFFF_FFFF
  {
    res := [];
    var i: int := 16;
    while i >= 0
      invariant -1 <= i <= 16
      invariant |res| == 16 - i
      invariant forall j :: 0 <= j < |res| ==> res[j] == PatternValue(16 - j)
    {
      var s := BuildPattern(i);
      res := res + [ParseBinary(s)];
      i := i - 1;
    }
    GeneratedValues(res);
  }

  /** The values for spacings 16 down to 0 are 32-bit, top bit set, from 0x80000000 to 0xFFFFFFFF. */
  lemma GeneratedValues(res: seq<nat>)
    requires |res| == 17
    requires forall j :: 0 <= j < 17 ==> res[j] == PatternValue(16 - j)
    ensures forall j :: 0 <= j < 17 ==> 0x8000_0000 <= res[j] < 0x1_0000_0000
    ensures res[0] == 0x8000_0000 && res[16] == 0xFFFF_FFFF
  {
    forall j | 0 <= j < 17
      ensures 0x8000_0000 <= res[j] < 0x1_0000_0000
      ensures j == 0 ==> res[j] == 0x8000_0000
      ensures j == 16 ==> res[j] == 0xFFFF_FFFF
    {
      PatternValueRange(16 - j);
      if j == 0 {
        PatternValueSparse(16 - j);
      } else if j == 16 {
        PatternValueDense(16 - j);
      }
    }
  }
}
