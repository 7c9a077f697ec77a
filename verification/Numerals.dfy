/** Number formatting and parsing as Rust's `format!` and `from_str_radix` do it. */
module Numerals {
  import opened Wrappers

  const U64: nat := 0x1_0000_0000_0000_0000
  const U32: nat := 0x1_0000_0000

  function DigitChar(d: nat): char
    requires d < 16
  {
    if d < 10 then (d + 48) as char else (d + 87) as char
  }

  /** `char::to_digit`: both letter cases are digits above nine. */
  function DigitValue(ch: char, radix: nat): Option<nat> {
    var v :=
      if '0' <= ch <= '9' then ch as int - 48
      else if 'a' <= ch <= 'f' then ch as int - 87
      else if 'A' <= ch <= 'F' then ch as int - 55
      else 16;
    if v < radix && v < 16 then Some(v) else None
  }

  /** Shortest lower-case rendering of `n`, as `{}` and `{:x}` print it. */
  function Format(n: nat, radix: nat): (s: string)
    requires 2 <= radix <= 16
    ensures |s| >= 1
  {
    if n < radix then [DigitChar(n)] else Format(High(n, radix), radix) + [DigitChar(Low(n, radix))]
  }

  function High(n: nat, radix: nat): (q: nat)
    requires radix >= 2
    ensures n >= radix ==> 0 < q < n
  {
    HighBelow(n, radix);
    n / radix
  }

  function Low(n: nat, radix: nat): (r: nat)
    requires radix >= 2
    ensures r < radix
  {
    n % radix
  }

  lemma HighBelow(n: nat, radix: nat)
    requires radix >= 2
    ensures n >= radix ==> 0 < n / radix < n
  {
  }

  function Zeros(k: nat): (s: string)
    ensures |s| == k
  {
    seq(k, _ => '0')
  }

  /** `{:0width$x}`: never truncates. */
  function Padded(n: nat, radix: nat, width: nat): string
    requires 2 <= radix <= 16
  {
    var s := Format(n, radix);
    if |s| < width then Zeros(width - |s|) + s else s
  }

  function Value(s: string, radix: nat): Option<nat> {
    if s == "" then Some(0)
    else
      match (Value(s[..|s| - 1], radix), DigitValue(s[|s| - 1], radix))
      case (Some(high), Some(low)) => Some(high * radix + low)
      case _ => None
  }

  /** Unsigned `from_str_radix`: one leading `+` is allowed, and a value of `bound` or more is an error. */
  function Parse(s: string, radix: nat, bound: nat): Option<nat> {
    var digits := if |s| > 1 && s[0] == '+' then s[1..] else s;
    if digits == "" then None
    else
      match Value(digits, radix)
      case Some(v) => if v < bound then Some(v) else None
      case None => None
  }

  function Power(b: nat, e: nat): nat {
    if e == 0 then 1 else b * Power(b, e - 1)
  }

  lemma DigitOfChar(d: nat, radix: nat)
    requires d < radix <= 16
    ensures DigitValue(DigitChar(d), radix) == Some(d) && DigitChar(d) != '+' && DigitChar(d) != '.'
  {
  }

  lemma DivMod(n: nat, d: nat)
    requires d > 0
    ensures (n / d) * d + n % d == n && n % d < d
  {
  }

  lemma {:induction false} FormatValue(n: nat, radix: nat)
    requires 2 <= radix <= 16
    ensures Value(Format(n, radix), radix) == Some(n)
    ensures forall ch :: ch in Format(n, radix) ==> DigitValue(ch, radix).Some? && ch != '+' && ch != '.'
  {
    var s := Format(n, radix);
    if n < radix {
      DigitOfChar(n, radix);
      assert s[..0] == "";
    } else {
      var high, low := High(n, radix), Low(n, radix);
      DivMod(n, radix);
      FormatValue(high, radix);
      DigitOfChar(low, radix);
      assert s[..|s| - 1] == Format(high, radix);
    }
  }

  lemma {:induction false} AllZeros(k: nat, radix: nat)
    requires 2 <= radix <= 16
    ensures Value(Zeros(k), radix) == Some(0)
  {
    if k > 0 {
      assert Zeros(k)[..k - 1] == Zeros(k - 1);
      AllZeros(k - 1, radix);
      assert 0 * radix == 0;
    }
  }

  lemma {:induction false} LeadingZeros(k: nat, s: string, radix: nat)
    requires 2 <= radix <= 16
    ensures Value(Zeros(k) + s, radix) == Value(s, radix)
  {
    hide DigitValue;
    if s != "" {
      var t := Zeros(k) + s;
      assert t[..|t| - 1] == Zeros(k) + s[..|s| - 1];
      LeadingZeros(k, s[..|s| - 1], radix);
    } else {
      assert Zeros(k) + "" == Zeros(k);
      AllZeros(k, radix);
    }
  }

  /** Whatever is printed, padded or not, is read back. */
  lemma ParseFormat(n: nat, radix: nat, width: nat, bound: nat)
    requires 2 <= radix <= 16 && n < bound
    ensures Parse(Padded(n, radix, width), radix, bound) == Some(n)
    ensures Parse(Format(n, radix), radix, bound) == Some(n)
  {
    FormatValue(n, radix);
    var s := Format(n, radix);
    assert s[0] in s;
    if |s| < width {
      LeadingZeros(width - |s|, s, radix);
    }
  }

  lemma {:induction false} FormatLength(n: nat, radix: nat, k: nat)
    requires 2 <= radix <= 16 && k > 0 && n < Power(radix, k)
    ensures |Format(n, radix)| <= k
  {
    if n >= radix {
      var high := High(n, radix);
      assert k > 1 by {
        assert Power(radix, 1) == radix * Power(radix, 0) == radix;
      }
      DivideBelow(n, radix, Power(radix, k - 1));
      FormatLength(high, radix, k - 1);
      assert |Format(n, radix)| == |Format(high, radix)| + 1;
    }
  }

  lemma DivideBelow(n: nat, d: nat, m: nat)
    requires d > 0 && n < d * m
    ensures n / d < m
  {
    DivMod(n, d);
    LessByProduct(d, n / d, m);
  }

  lemma LessByProduct(d: nat, a: nat, b: nat)
    requires d > 0 && a * d < d * b
    ensures a < b
  {
  }

  lemma SixHexDigits(n: nat)
    requires n < 0x100_0000
    ensures |Padded(n, 16, 6)| == 6
    ensures forall ch :: ch in Padded(n, 16, 6) ==> DigitValue(ch, 16).Some?
  {
    assert Power(16, 6) == 0x100_0000 by {
      assert Power(16, 1) == 16 && Power(16, 2) == 256 && Power(16, 3) == 0x1000;
      assert Power(16, 4) == 0x1_0000 && Power(16, 5) == 0x10_0000;
    }
    FormatLength(n, 16, 6);
    FormatValue(n, 16);
  }

  lemma ThirtyTwoHexDigits(n: nat)
    requires n < U64
    ensures |Padded(n, 16, 32)| == 32
    ensures forall ch :: ch in Padded(n, 16, 32) ==> DigitValue(ch, 16).Some? && ch != '.'
  {
    assert Power(16, 16) == U64 by {
      assert Power(16, 1) == 16 && Power(16, 2) == 256 && Power(16, 3) == 0x1000;
      assert Power(16, 4) == 0x1_0000 && Power(16, 5) == 0x10_0000 && Power(16, 6) == 0x100_0000;
      assert Power(16, 7) == 0x1000_0000 && Power(16, 8) == U32 && Power(16, 9) == 16 * U32;
      assert Power(16, 10) == 256 * U32 && Power(16, 11) == 0x1000 * U32;
      assert Power(16, 12) == 0x1_0000 * U32 && Power(16, 13) == 0x10_0000 * U32;
      assert Power(16, 14) == 0x100_0000 * U32 && Power(16, 15) == 0x1000_0000 * U32;
    }
    FormatLength(n, 16, 16);
    FormatValue(n, 16);
  }
}
