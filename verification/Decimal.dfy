/** Decimal printing and parsing, shared by capabilities, timestamps and
    configuration units, and Go's 64-bit integer arithmetic. */
module Decimal {
  import opened Wrappers

  const MAX_INT64: int := 0x7FFF_FFFF_FFFF_FFFF
  const MIN_INT64: int := -0x8000_0000_0000_0000
  const TWO_64: int := 0x1_0000_0000_0000_0000

  predicate IsInt64(x: int) { MIN_INT64 <= x <= MAX_INT64 }

  // The value Go's int64 addition and multiplication leave after overflow.
  function Wrap64(x: int): (r: int)
    ensures IsInt64(r)
    ensures IsInt64(x) ==> r == x
    ensures x > MAX_INT64 && x <= 2 * MAX_INT64 ==> r == x - TWO_64 < 0
  {
    (x - MIN_INT64) % TWO_64 + MIN_INT64
  }

  predicate IsDigit(c: char) { '0' <= c <= '9' }

  function DigitChar(d: nat): (c: char)
    requires d < 10
    ensures IsDigit(c) && DigitValue(c) == d
  {
    ('0' as int + d) as char
  }

  function DigitValue(c: char): (d: nat)
    requires IsDigit(c)
    ensures d < 10
  {
    c as int - '0' as int
  }

  predicate AllDigits(s: string) { forall i :: 0 <= i < |s| ==> IsDigit(s[i]) }

  // "%d" of a non-negative number.
  function Digits(n: nat): (s: string)
    ensures |s| >= 1 && AllDigits(s)
  {
    if n < 10 then [DigitChar(n)] else Digits(n / 10) + [DigitChar(n % 10)]
  }

  // "%d" and strconv.FormatInt(n, 10).
  function Format(n: int): (s: string)
    ensures |s| >= 1
    ensures forall c :: c in s ==> IsDigit(c) || c == '-'
  {
    if n < 0 then "-" + Digits(-n) else Digits(n)
  }

  function ValueOf(s: string): nat
    requires AllDigits(s)
  {
    if s == "" then 0 else 10 * ValueOf(s[..|s| - 1]) + DigitValue(s[|s| - 1])
  }

  // strconv.ParseInt(s, 10, 64) and strconv.Atoi: an optional sign, at least
  // one digit, and a value that fits.
  function ParseInt64(s: string): (r: Option<int>)
    ensures r.Some? ==> IsInt64(r.value)
  {
    var signed := |s| > 0 && (s[0] == '-' || s[0] == '+');
    var body := if signed then s[1..] else s;
    if body == "" || !AllDigits(body) then None
    else
      var magnitude: int := ValueOf(body);
      var v: int := if signed && s[0] == '-' then -magnitude else magnitude;
      if IsInt64(v) then Some(v) else None
  }

  lemma {:induction false} ValueOfDigits(n: nat)
    ensures ValueOf(Digits(n)) == n
  {
    if n >= 10 {
      ValueOfDigits(n / 10);
      var s := Digits(n);
      assert s[..|s| - 1] == Digits(n / 10);
    } else {
      assert Digits(n)[..0] == "";
      assert ValueOf("") == 0;
    }
  }

  // The one print/parse lemma: printing then parsing is the identity on int64.
  lemma ParseFormat(n: int)
    requires IsInt64(n)
    ensures ParseInt64(Format(n)) == Some(n)
  {
    hide Digits;
    if n < 0 {
      ValueOfDigits(-n);
      assert Format(n)[1..] == Digits(-n);
    } else {
      ValueOfDigits(n);
      assert IsDigit(Format(n)[0]);
    }
  }

  // Every way to write a number: an optional sign, any leading zeros, digits.
  lemma ParseInt64Exactly(zeros: nat, n: int)
    requires n >= 0
    ensures var digits := seq(zeros, _ => '0') + Digits(n);
            && ParseInt64(digits) == ParseInt64("+" + digits)
                 == (if n <= 9_223_372_036_854_775_807 then Some(n) else None)
            && ParseInt64("-" + digits) == if n <= 9_223_372_036_854_775_808 then Some(-n) else None
  {
    var digits := seq(zeros, _ => '0') + Digits(n);
    LeadingZeros(zeros, Digits(n));
    ValueOfDigits(n);
    Signed(digits);
    hide Digits, ValueOf, ParseInt64;
  }

  lemma Signed(digits: string)
    requires digits != "" && AllDigits(digits)
    ensures ParseInt64(digits) == ParseInt64("+" + digits)
    ensures ParseInt64(digits) == if ValueOf(digits) <= MAX_INT64 then Some(ValueOf(digits)) else None
    ensures ParseInt64("-" + digits) == if ValueOf(digits) <= MAX_INT64 + 1 then Some(0 - ValueOf(digits)) else None
  {
    hide ValueOf;
    assert IsDigit(digits[0]) && !IsDigit('+') && !IsDigit('-');
    assert ("+" + digits)[1..] == digits && ("-" + digits)[1..] == digits;
  }

  lemma {:induction false} LeadingZeros(zeros: nat, s: string)
    requires AllDigits(s)
    ensures AllDigits(seq(zeros, _ => '0') + s) && ValueOf(seq(zeros, _ => '0') + s) == ValueOf(s)
    decreases |s|
  {
    var all := seq(zeros, _ => '0') + s;
    if s == "" {
      assert all == seq(zeros, _ => '0');
      ZerosAreZero(zeros);
    } else {
      assert all[..|all| - 1] == seq(zeros, _ => '0') + s[..|s| - 1];
      LeadingZeros(zeros, s[..|s| - 1]);
    }
  }

  lemma {:induction false} ZerosAreZero(zeros: nat)
    ensures AllDigits(seq(zeros, _ => '0')) && ValueOf(seq(zeros, _ => '0')) == 0
  {
    if zeros > 0 {
      assert seq(zeros, _ => '0')[..zeros - 1] == seq(zeros - 1, _ => '0');
      ZerosAreZero(zeros - 1);
    }
  }

  // Everything else is refused: no digits, or something that is none behind the
  // sign.
  lemma ParseInt64Refuses(s: string)
    requires s == "" || s == "+" || s == "-" || (exists i :: 0 < i < |s| && !('0' <= s[i] <= '9'))
             || !('0' <= s[0] <= '9' || s[0] == '+' || s[0] == '-')
    ensures ParseInt64(s).None?
  {
    if s != "" {
      var signed := s[0] == '-' || s[0] == '+';
      var body := if signed then s[1..] else s;
      if i :| 0 < i < |s| && !('0' <= s[i] <= '9') {
        assert body[if signed then i - 1 else i] == s[i];
      }
    }
  }

  lemma FormatSign(n: int)
    ensures Format(n)[0] == '-' <==> n < 0
  {
    if n >= 0 { assert IsDigit(Digits(n)[0]) && !IsDigit('-'); }
  }

  lemma FormatInjective(a: int, b: int)
    requires Format(a) == Format(b)
    ensures a == b
  {
    hide Digits;
    FormatSign(a);
    FormatSign(b);
    if a < 0 {
      assert Format(a)[1..] == Digits(-a) && Format(b)[1..] == Digits(-b);
      ValueOfDigits(-a);
      ValueOfDigits(-b);
    } else {
      ValueOfDigits(a);
      ValueOfDigits(b);
    }
  }

  // Zero-padded to at least `width` characters, as time.Format pads its fields.
  function Pad(n: nat, width: nat): (s: string)
    ensures |s| >= width
    ensures |s| >= 1 || n == 0
    ensures AllDigits(s)
    decreases n, width
  {
    if n == 0 && width == 0 then ""
    else if width == 0 then Digits(n)
    else Pad(n / 10, width - 1) + [DigitChar(n % 10)]
  }

  function Pow10(w: nat): (r: nat)
    ensures r >= 1
  {
    if w == 0 then 1 else 10 * Pow10(w - 1)
  }

  lemma {:induction false} PadWidth(n: nat, width: nat)
    requires n < Pow10(width)
    ensures |Pad(n, width)| == width
  {
    if width > 0 {
      PadWidth(n / 10, width - 1);
    }
  }

  // Byte-wise order of strings, as Go's < on strings.
  predicate LexLess(a: string, b: string)
  {
    if a == "" then b != ""
    else b != "" && (a[0] < b[0] || (a[0] == b[0] && LexLess(a[1..], b[1..])))
  }

  lemma {:induction false} LexPrefix(p: string, a: string, b: string)
    ensures LexLess(p + a, p + b) == LexLess(a, b)
  {
    if p == "" {
      assert p + a == a && p + b == b;
    } else {
      assert (p + a)[1..] == p[1..] + a && (p + b)[1..] == p[1..] + b;
      LexPrefix(p[1..], a, b);
    }
  }

  lemma {:induction false} LexExtend(a: string, b: string, x: string, y: string)
    requires |a| == |b| && LexLess(a, b)
    ensures LexLess(a + x, b + y)
  {
    assert a != "" && b != "";
    assert (a + x)[1..] == a[1..] + x && (b + y)[1..] == b[1..] + y;
    if a[0] == b[0] {
      LexExtend(a[1..], b[1..], x, y);
    }
  }

  // Equal widths: numeric order is lexicographic order.
  lemma {:induction false} PadOrder(m: nat, n: nat, width: nat)
    requires m < n < Pow10(width)
    ensures LexLess(Pad(m, width), Pad(n, width))
  {
    PadWidth(m / 10, width - 1);
    PadWidth(n / 10, width - 1);
    if m / 10 < n / 10 {
      PadOrder(m / 10, n / 10, width - 1);
      LexExtend(Pad(m / 10, width - 1), Pad(n / 10, width - 1), [DigitChar(m % 10)], [DigitChar(n % 10)]);
    } else {
      LexPrefix(Pad(m / 10, width - 1), [DigitChar(m % 10)], [DigitChar(n % 10)]);
    }
  }

  lemma {:induction false} PadInjective(m: nat, n: nat, width: nat)
    requires Pad(m, width) == Pad(n, width)
    ensures m == n
    decreases width
  {
    var s := Pad(m, width);
    if width == 0 {
      if m > 0 { ValueOfDigits(m); }
      if n > 0 { ValueOfDigits(n); }
    } else {
      assert s[..|s| - 1] == Pad(m / 10, width - 1) == Pad(n / 10, width - 1);
      assert DigitValue(s[|s| - 1]) == m % 10 == n % 10;
      PadInjective(m / 10, n / 10, width - 1);
    }
  }

  // Lower-case hexadecimal, two characters per byte (encoding/hex).
  type Byte = b: int | 0 <= b < 256

  predicate IsHexChar(c: char) { IsDigit(c) || 'a' <= c <= 'f' }

  function HexChar(d: nat): (c: char)
    requires d < 16
    ensures IsHexChar(c)
  {
    if d < 10 then DigitChar(d) else ('a' as int + d - 10) as char
  }

  function Hex(bytes: seq<Byte>): (s: string)
    ensures |s| == 2 * |bytes|
    ensures forall c :: c in s ==> IsHexChar(c)
  {
    if bytes == [] then ""
    else [HexChar(bytes[0] / 16), HexChar(bytes[0] % 16)] + Hex(bytes[1..])
  }

  // High digit first, in lower case.
  lemma {:induction false} HexDigits(bytes: seq<Byte>, i: nat)
    requires i < |bytes|
    ensures Hex(bytes)[2 * i] == "0123456789abcdef"[bytes[i] / 16]
    ensures Hex(bytes)[2 * i + 1] == "0123456789abcdef"[bytes[i] % 16]
  {
    HexCharIs(bytes[i] / 16);
    HexCharIs(bytes[i] % 16);
    hide HexChar;
    if i > 0 {
      assert Hex(bytes)[2 * i] == Hex(bytes[1..])[2 * (i - 1)];
      HexDigits(bytes[1..], i - 1);
    }
  }

  lemma HexCharIs(d: nat)
    requires d < 16
    ensures HexChar(d) == "0123456789abcdef"[d]
  {
    assert "0123456789abcdef"[..10] == "0123456789" && "0123456789abcdef"[10..] == "abcdef";
    assert d < 10 ==> DigitChar(d) as int == '0' as int + d;
  }

  lemma {:induction false} HexInjective(a: seq<Byte>, b: seq<Byte>)
    requires Hex(a) == Hex(b)
    ensures a == b
  {
    assert |a| == |b|;
    if a != [] {
      assert Hex(a)[0] == Hex(b)[0] && Hex(a)[1] == Hex(b)[1];
      assert HexChar(a[0] / 16) == HexChar(b[0] / 16) && HexChar(a[0] % 16) == HexChar(b[0] % 16);
      assert Hex(a)[2..] == Hex(a[1..]) && Hex(b)[2..] == Hex(b[1..]);
      HexInjective(a[1..], b[1..]);
    }
  }
}
