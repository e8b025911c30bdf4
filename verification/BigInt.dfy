/** Byte strings, the big-endian magnitudes that `big.Int` writes and reads, and the decimal
    and hexadecimal text forms that arguments may take. */
module BigInt {
  import opened Wrappers

  type Byte = b: int | 0 <= b < 256

  function Abs(n: int): nat {
    if n < 0 then -n else n
  }

  // `big.Int.SetBytes`: the unsigned number whose big-endian digits are s.
  function SetBytes(s: seq<Byte>): nat {
    if s == [] then 0 else 256 * SetBytes(s[..|s| - 1]) + s[|s| - 1]
  }

  // `big.Int.Bytes` of a number of magnitude n: no leading zero, and nothing at all for zero.
  function Bytes(n: nat): (s: seq<Byte>)
    ensures SetBytes(s) == n
    ensures s == [] || s[0] != 0
  {
    if n == 0 then []
    else
      var high := Bytes(n / 256);
      assert (high + [n % 256])[..|high|] == high;
      high + [n % 256]
  }

  // A byte string survives a read followed by a write exactly when it has no leading zero.
  lemma {:induction false} BytesOfSetBytes(s: seq<Byte>)
    ensures Bytes(SetBytes(s)) == s <==> (s == [] || s[0] != 0)
  {
    if s != [] && s[0] != 0 {
      MinimalBytes(s);
    }
  }

  lemma {:induction false} MinimalBytes(s: seq<Byte>)
    requires s != [] && s[0] != 0
    ensures SetBytes(s) > 0 && Bytes(SetBytes(s)) == s
  {
    var high := s[..|s| - 1];
    if high == [] {
      assert s == [s[0]];
      assert SetBytes(high) == 0;
    } else {
      MinimalBytes(high);
      assert s == high + [s[|s| - 1]];
    }
    assert SetBytes(s) / 256 == SetBytes(high) && SetBytes(s) % 256 == s[|s| - 1];
  }

  predicate IsDigit(b: Byte) {
    48 <= b <= 57
  }

  function DigitsValue(s: seq<Byte>): nat
    requires forall i :: 0 <= i < |s| ==> IsDigit(s[i])
  {
    if s == [] then 0
    else
      assert IsDigit(s[|s| - 1]);
      10 * DigitsValue(s[..|s| - 1]) + s[|s| - 1] as int - 48
  }

  predicate AllDigits(s: seq<Byte>) {
    s != [] && forall i :: 0 <= i < |s| ==> IsDigit(s[i])
  }

  // `big.Int.SetString(s, 10)`: an optional sign followed by at least one decimal digit.
  function ParseDecimal(s: seq<Byte>): Option<int> {
    var digits := if s != [] && (s[0] == 43 || s[0] == 45) then s[1..] else s;
    if !AllDigits(digits) then None
    else if s[0] == 45 then Some(-(DigitsValue(digits) as int))
    else Some(DigitsValue(digits) as int)
  }

  // ---------- what the text forms mean ----------

  // A number written in decimal, without leading zeros.
  function DecimalText(n: nat): (s: seq<Byte>)
    ensures AllDigits(s)
  {
    if n < 10 then [48 + n] else DecimalText(n / 10) + [48 + n % 10]
  }

  lemma {:induction false} DigitsOfText(n: nat)
    ensures DigitsValue(DecimalText(n)) == n
  {
    if n < 10 {
      assert [48 + n][..0] == [];
    } else {
      var high := DecimalText(n / 10);
      DigitsOfText(n / 10);
      assert (high + [48 + n % 10])[..|high|] == high;
    }
  }

  // A number written in decimal, with or without a sign, is read back.
  lemma DecimalRoundTrip(n: nat)
    ensures ParseDecimal(DecimalText(n)) == Some(n as int)
    ensures ParseDecimal([43] + DecimalText(n)) == Some(n as int)
    ensures ParseDecimal([45] + DecimalText(n)) == Some(-(n as int))
  {
    var s := DecimalText(n);
    DigitsOfText(n);
    assert IsDigit(s[0]);
    assert ([43] + s)[1..] == s && ([45] + s)[1..] == s;
    hide DecimalText, DigitsValue;
  }

  function WithoutZeros(s: seq<Byte>): seq<Byte> {
    if |s| > 1 && s[0] == 48 then WithoutZeros(s[1..]) else s
  }

  // Nothing else is read: digits are the decimal form of the number they are read as, up to leading zeros.
  lemma {:induction false} DigitsExactly(s: seq<Byte>)
    requires AllDigits(s)
    ensures WithoutZeros(s) == DecimalText(DigitsValue(s))
  {
    var high, last := s[..|s| - 1], s[|s| - 1];
    assert s == high + [last] && IsDigit(last);
    if high == [] {
      assert DigitsValue(high) == 0;
      assert s == [last];
    } else {
      DigitsExactly(high);
      WithoutZerosGrows(high, last);
      assert DigitsValue(s) / 10 == DigitsValue(high) && DigitsValue(s) % 10 == last as int - 48;
      if DigitsValue(high) == 0 {
        assert WithoutZeros(high) == [48];
      } else {
        assert WithoutZeros(high) != [48] by {
          DigitsOfText(DigitsValue(high));
          assert [48][..0] == [];
          assert DigitsValue([48]) == 0;
        }
      }
    }
  }

  lemma {:induction false} WithoutZerosGrows(high: seq<Byte>, last: Byte)
    requires high != []
    ensures WithoutZeros(high + [last]) ==
            if WithoutZeros(high) == [48] then [last] else WithoutZeros(high) + [last]
  {
    var s := high + [last];
    if |high| == 1 {
      assert s[1..] == [last];
      assert high == [high[0]];
    } else if high[0] == 48 {
      assert s[1..] == high[1..] + [last];
      WithoutZerosGrows(high[1..], last);
    }
  }

  // s is the digits with the sign of n before them, which a positive number may lack.
  predicate Signs(s: seq<Byte>, digits: seq<Byte>, n: int) {
    (n <= 0 && s == [45] + digits) || (n >= 0 && (s == digits || s == [43] + digits))
  }

  // Text is a number exactly when it is digits with at most one sign before them.
  lemma DecimalExactly(s: seq<Byte>, n: int)
    ensures ParseDecimal(s) == Some(n) <==>
            exists digits :: IsDecimal(digits, Abs(n)) && Signs(s, digits, n)
  {
    hide *;
    if ParseDecimal(s) == Some(n) {
      var digits := ParsedIsDecimal(s, n);
    }
    forall d | IsDecimal(d, Abs(n)) && Signs(s, d, n)
      ensures ParseDecimal(s) == Some(n)
    {
      DecimalIsParsed(s, d, n);
    }
  }

  lemma ParsedIsDecimal(s: seq<Byte>, n: int) returns (digits: seq<Byte>)
    requires ParseDecimal(s) == Some(n)
    ensures IsDecimal(digits, Abs(n)) && Signs(s, digits, n)
  {
    hide DigitsValue, WithoutZeros, DecimalText;
    var signed := s != [] && (s[0] == 43 || s[0] == 45);
    digits := if signed then s[1..] else s;
    DigitsExactly(digits);
    assert signed ==> s == [s[0]] + digits;
  }

  lemma DecimalIsParsed(s: seq<Byte>, digits: seq<Byte>, n: int)
    requires IsDecimal(digits, Abs(n)) && Signs(s, digits, n)
    ensures ParseDecimal(s) == Some(n)
  {
    hide DigitsValue, WithoutZeros, DecimalText;
    DecimalIsRead(digits, Abs(n));
    assert IsDigit(digits[0]);
    assert s != digits ==> s[1..] == digits;
  }

  predicate IsDecimal(digits: seq<Byte>, n: nat) {
    AllDigits(digits) && WithoutZeros(digits) == DecimalText(n)
  }

  lemma DecimalIsRead(digits: seq<Byte>, n: nat)
    requires IsDecimal(digits, n)
    ensures DigitsValue(digits) == n
  {
    DigitsExactly(digits);
    DigitsOfText(n);
    DigitsOfText(DigitsValue(digits));
  }

  // `int64(f)` for a float64 argument: truncation toward zero, and the least int64 when the
  // number does not fit, which is what the conversion instruction yields on amd64.
  function Int64OfFloat(x: real): int {
    var n := if x >= 0.0 then x.Floor else -((-x).Floor);
    if -0x8000_0000_0000_0000 <= n < 0x8000_0000_0000_0000 then n else -0x8000_0000_0000_0000
  }

  // Truncation drops the fraction and keeps the sign, and what does not fit becomes the least int64.
  lemma Int64Truncates(x: real)
    ensures var n := Int64OfFloat(x);
            if -9223372036854775809.0 < x < 9223372036854775808.0
            then (if x >= 0.0 then n as real <= x < n as real + 1.0 else n as real - 1.0 < x <= n as real)
            else n == -9223372036854775808
  {
  }

  function HexDigit(d: int): Byte
    requires 0 <= d < 16
  {
    if d < 10 then 48 + d else 87 + d
  }

  function HexValue(b: Byte): Option<int> {
    if 48 <= b <= 57 then Some(b - 48)
    else if 97 <= b <= 102 then Some(b - 87)
    else if 65 <= b <= 70 then Some(b - 55)
    else None
  }

  // `hex.EncodeToString`.
  function EncodeHex(s: seq<Byte>): (h: seq<Byte>)
    ensures |h| == 2 * |s|
  {
    if s == [] then [] else [HexDigit(s[0] / 16), HexDigit(s[0] % 16)] + EncodeHex(s[1..])
  }

  // `hex.DecodeString`: either letter case, and an error on odd length or any other character.
  function DecodeHex(h: seq<Byte>): (r: Option<seq<Byte>>)
    ensures r.Some? ==> 2 * |r.value| == |h|
  {
    if h == [] then Some([])
    else if |h| == 1 then None
    else
      match (HexValue(h[0]), HexValue(h[1]), DecodeHex(h[2..]))
      case (Some(a), Some(b), Some(rest)) => Some([16 * a + b] + rest)
      case _ => None
  }

  lemma {:induction false} HexRoundTrip(s: seq<Byte>)
    ensures DecodeHex(EncodeHex(s)) == Some(s)
  {
    if s != [] {
      HexRoundTrip(s[1..]);
      assert EncodeHex(s)[2..] == EncodeHex(s[1..]);
      assert s == [s[0]] + s[1..];
    }
  }

  function LowerCase(h: seq<Byte>): (l: seq<Byte>)
    ensures |l| == |h|
  {
    seq(|h|, i requires 0 <= i < |h| => if 65 <= h[i] <= 70 then h[i] + 32 else h[i])
  }

  // Text decodes to a byte string exactly when, in lower case, it is that string's encoding.
  lemma {:induction false} DecodeHexExactly(h: seq<Byte>, s: seq<Byte>)
    ensures DecodeHex(h) == Some(s) <==> LowerCase(h) == EncodeHex(s)
  {
    if |h| >= 2 && s != [] {
      DecodeHexExactly(h[2..], s[1..]);
      var l, e := LowerCase(h), EncodeHex(s);
      assert l == [l[0], l[1]] + LowerCase(h[2..]);
      assert e == [e[0], e[1]] + EncodeHex(s[1..]);
      assert l[2..] == LowerCase(h[2..]) && e[2..] == EncodeHex(s[1..]);
      OnePair(h[0], h[1], s[0]);
      assert s == [s[0]] + s[1..];
    }
  }

  lemma OnePair(x: Byte, y: Byte, b: Byte)
    ensures HexValue(x).Some? && HexValue(y).Some? && 16 * HexValue(x).value + HexValue(y).value == b <==>
            LowerCase([x, y]) == [HexDigit(b / 16), HexDigit(b % 16)]
  {
    assert LowerCase([x, y]) == [LowerCase([x])[0], LowerCase([y])[0]];
  }
}
