/** 32-bit integers as .NET holds them, their `ToString("X4")` form and
    `Int32.TryParse(line, NumberStyles.HexNumber, ...)`. */
module Hex {
  import opened Wrappers

  type Int32 = x: int | -0x8000_0000 <= x < 0x8000_0000

  const TwoTo32: int := 0x1_0000_0000
  const MaxInt32: Int32 := 0x7FFF_FFFF
  const MinInt32: Int32 := -0x8000_0000

  /** `x++` on an `int` in unchecked C#: `Int32.MaxValue` wraps to `Int32.MinValue`. */
  function Inc32(x: Int32): (r: Int32)
    ensures (r - x) % TwoTo32 == 1
    ensures x < MaxInt32 ==> r == x + 1
  {
    if x == MaxInt32 then MinInt32 else x + 1
  }

  /** Value of a digit sequence in base 16, most significant digit first. */
  function ValueOf(ds: seq<nat>): nat
  {
    if ds == [] then 0 else ValueOf(ds[..|ds| - 1]) * 16 + ds[|ds| - 1]
  }

  predicate IsHexDigits(ds: seq<nat>)
  {
    forall i :: 0 <= i < |ds| ==> ds[i] < 16
  }

  /** The base-16 digits of `n` without leading zeros (a single 0 for zero). */
  function DigitsOf(n: nat): (ds: seq<nat>)
    ensures 1 <= |ds| && IsHexDigits(ds)
    ensures ValueOf(ds) == n
    ensures |ds| > 1 ==> ds[0] != 0
  {
    if n < 16 then [n] else
      var ds := DigitsOf(n / 16) + [n % 16];
      assert ds[..|ds| - 1] == DigitsOf(n / 16);
      ds
  }

  /** Left-pads with zero digits to at least `width` digits: the precision of "X4". */
  function PadLeft(ds: seq<nat>, width: nat): seq<nat>
  {
    if |ds| < width then seq(width - |ds|, _ => 0) + ds else ds
  }

  lemma {:induction false} ZerosAddNothing(k: nat, ds: seq<nat>)
    ensures ValueOf(seq(k, _ => 0) + ds) == ValueOf(ds)
    decreases |ds|
  {
    var zs: seq<nat> := seq(k, _ => 0);
    if ds == [] {
      assert zs + ds == zs;
      ZerosValue(k);
    } else {
      var front := ds[..|ds| - 1];
      assert (zs + ds)[..|zs + ds| - 1] == zs + front;
      ZerosAddNothing(k, front);
    }
  }

  lemma {:induction false} ZerosValue(k: nat)
    ensures ValueOf(seq(k, _ => 0)) == 0
  {
    if k > 0 {
      var zs: seq<nat> := seq(k, _ => 0);
      assert zs[..k - 1] == seq(k - 1, _ => 0);
      ZerosValue(k - 1);
    }
  }

  /** Upper-case hexadecimal character of a digit, as "X" formats it. */
  function UpperDigit(d: nat): char
    requires d < 16
  {
    if d < 10 then ('0' as int + d) as char else ('A' as int + d - 10) as char
  }

  predicate IsHexChar(ch: char)
  {
    '0' <= ch <= '9' || 'A' <= ch <= 'F' || 'a' <= ch <= 'f'
  }

  /** Value of a hexadecimal character; either case is accepted when parsing. */
  function DigitValue(ch: char): (d: nat)
    requires IsHexChar(ch)
    ensures d < 16
  {
    if ch <= '9' then ch as int - '0' as int
    else if ch <= 'F' then ch as int - 'A' as int + 10
    else ch as int - 'a' as int + 10
  }

  lemma UpperDigitRoundTrip(d: nat)
    requires d < 16
    ensures IsHexChar(UpperDigit(d)) && DigitValue(UpperDigit(d)) == d
  {
  }

  function UpperChars(ds: seq<nat>): (s: string)
    requires IsHexDigits(ds)
    ensures |s| == |ds|
  {
    seq(|ds|, i requires 0 <= i < |ds| => UpperDigit(ds[i]))
  }

  /** `n.ToString("X4")`: at least four upper-case hex digits; a negative value
      is written as its 32-bit two's complement, which takes eight. */
  function X4(n: Int32): (s: string)
    ensures 4 <= |s| && forall i :: 0 <= i < |s| ==> '0' <= s[i] <= '9' || 'A' <= s[i] <= 'F'
  {
    var v := if n >= 0 then n else n + TwoTo32;
    var ds := PadLeft(DigitsOf(v), 4);
    var s := UpperChars(ds);
    assert forall i :: 0 <= i < |s| ==> s[i] == UpperDigit(ds[i]);
    s
  }

  /** Characters .NET number parsing skips before and after the digits. */
  predicate IsWhite(ch: char)
  {
    ch == ' ' || '\t' <= ch <= '\r'
  }

  function TrimWhite(s: string): (r: string)
    decreases |s|
  {
    if |s| > 0 && IsWhite(s[0]) then TrimWhite(s[1..])
    else if |s| > 0 && IsWhite(s[|s| - 1]) then TrimWhite(s[..|s| - 1])
    else s
  }

  /** An unsigned 32-bit pattern read back as a signed `int`. */
  function FromBits(v: nat): Int32
    requires v < TwoTo32
  {
    if v <= MaxInt32 then v else v - TwoTo32
  }

  predicate AllHexChars(t: string)
  {
    forall i :: 0 <= i < |t| ==> IsHexChar(t[i])
  }

  function DigitValues(t: string): (ds: seq<nat>)
    requires AllHexChars(t)
    ensures |ds| == |t|
  {
    seq(|t|, i requires 0 <= i < |t| => DigitValue(t[i]))
  }

  /** `Int32.TryParse(line, NumberStyles.HexNumber, ...)`: a missing line (`null`)
      fails; otherwise surrounding white space is skipped, at least one hex digit
      of either case is needed and nothing else, and the digits must fit in 32 bits,
      which are then read as a two's-complement `int`. */
  function ParseHex(line: Option<string>): (r: Option<Int32>)
    ensures line.None? ==> r.None?
    ensures line.Some? ==>
      var t := TrimWhite(line.value);
      (r.Some? <==> |t| > 0 && AllHexChars(t) && ValueOf(DigitValues(t)) < TwoTo32) &&
      (r.Some? ==> (r.value - ValueOf(DigitValues(t))) % TwoTo32 == 0)
  {
    match line
    case None => None
    case Some(s) =>
      var t := TrimWhite(s);
      if |t| == 0 || !AllHexChars(t) then None
      else
        var v := ValueOf(DigitValues(t));
        if v < TwoTo32 then Some(FromBits(v)) else None
  }

  lemma {:induction false} PowerBound(n: nat, k: nat)
    requires n < Pow16(k)
    ensures |DigitsOf(n)| <= if k == 0 then 1 else k
  {
    if n >= 16 {
      assert k >= 2;
      PowerBound(n / 16, k - 1);
    }
  }

  function Pow16(k: nat): (p: nat)
    ensures p >= 1
  {
    if k == 0 then 1 else 16 * Pow16(k - 1)
  }

  /** Reading the characters of a digit sequence back gives the digits. */
  lemma UpperCharsRoundTrip(ds: seq<nat>)
    requires IsHexDigits(ds)
    ensures AllHexChars(UpperChars(ds)) && DigitValues(UpperChars(ds)) == ds
  {
    var s := UpperChars(ds);
    forall i | 0 <= i < |s|
      ensures IsHexChar(s[i]) && DigitValue(s[i]) == ds[i]
    {
      UpperDigitRoundTrip(ds[i]);
    }
  }

  /** The digits "X4" writes, zero padding included, have the value written. */
  lemma X4Digits(n: Int32)
    ensures var v := if n >= 0 then n else n + TwoTo32;
      IsHexDigits(PadLeft(DigitsOf(v), 4)) && X4(n) == UpperChars(PadLeft(DigitsOf(v), 4)) &&
      ValueOf(PadLeft(DigitsOf(v), 4)) == v
  {
    var v: nat := if n >= 0 then n else n + TwoTo32;
    var digits := DigitsOf(v);
    if |digits| < 4 {
      ZerosAddNothing(4 - |digits|, digits);
    }
  }

  /** A clean run of hex digits parses to the 32-bit reading of its value. */
  lemma ParseHexDigits(s: string)
    requires |s| > 0 && AllHexChars(s)
    requires ValueOf(DigitValues(s)) < TwoTo32
    ensures ParseHex(Some(s)) == Some(FromBits(ValueOf(DigitValues(s))))
  {
    assert IsHexChar(s[0]) && IsHexChar(s[|s| - 1]);
    assert TrimWhite(s) == s;
  }

  /** Every `Int32` survives formatting with "X4" and parsing back as hex. */
  lemma X4RoundTrip(n: Int32)
    ensures ParseHex(Some(X4(n))) == Some(n)
  {
    var v: nat := if n >= 0 then n else n + TwoTo32;
    var ds := PadLeft(DigitsOf(v), 4);
    var s := X4(n);
    X4Digits(n);
    UpperCharsRoundTrip(ds);
    assert DigitValues(s) == ds;
    ParseHexDigits(s);
    assert FromBits(v) == n;
  }

  /** Distinct values have distinct "X4" forms. */
  lemma X4Injective(a: Int32, b: Int32)
    ensures X4(a) == X4(b) ==> a == b
  {
    X4RoundTrip(a);
    X4RoundTrip(b);
  }

  /** Values in 0..0xFFFF take exactly four characters. */
  lemma X4Width(n: Int32)
    requires 0 <= n <= 0xFFFF
    ensures |X4(n)| == 4
  {
    assert Pow16(4) == 0x1_0000;
    PowerBound(n, 4);
  }

  /** "X4" of zero. */
  lemma X4Zero()
    ensures X4(0) == "0000"
  {
    assert DigitsOf(0) == [0];
    assert PadLeft([0], 4) == [0, 0, 0, 0];
  }

  /** "X4" of one. */
  lemma X4One()
    ensures X4(1) == "0001"
  {
    assert DigitsOf(1) == [1];
    assert PadLeft([1], 4) == [0, 0, 0, 1];
  }

  /** "X4" of 318, the id the store's test expects for its 318th call. */
  lemma X4Of318()
    ensures X4(318) == "013E"
  {
    assert DigitsOf(318) == [1, 3, 14] by {
      assert DigitsOf(1) == [1];
      assert DigitsOf(19) == [1, 3];
    }
    assert PadLeft([1, 3, 14], 4) == [0, 1, 3, 14];
  }

  /** "X4" of 500, the exclusive bound of the random store draw. */
  lemma X4Of500()
    ensures X4(500) == "01F4"
  {
    assert DigitsOf(500) == [1, 15, 4] by {
      assert DigitsOf(1) == [1];
      assert DigitsOf(31) == [1, 15];
    }
    assert PadLeft([1, 15, 4], 4) == [0, 1, 15, 4];
  }
}
