/** Configuration units: byte sizes and rates, printed and parsed. */
module Units {
  import opened Wrappers
  import opened Decimal
  import opened RateLimits

  const KB: int := 1024
  const MB: int := 1024 * KB
  const GB: int := 1024 * MB
  const TB: int := 1024 * GB

  datatype UnitError = EmptySize | InvalidSize | InvalidRate | UnknownUnit

  // unicode.IsSpace
  predicate IsSpace(c: char)
  {
    c == ' ' || '\U{9}' <= c <= '\U{D}' || c == '\U{85}' || c == '\U{A0}' || c == '\U{1680}'
    || '\U{2000}' <= c <= '\U{200A}' || c == '\U{2028}' || c == '\U{2029}' || c == '\U{202F}' || c == '\U{205F}'
        || c == '\U{3000}'
  }

  function TrimSpace(s: string): string
  {
    if s == "" then ""
    else if IsSpace(s[0]) then TrimSpace(s[1..])
    else if IsSpace(s[|s| - 1]) then TrimSpace(s[..|s| - 1])
    else s
  }

  function Upper(c: char): char { if 'a' <= c <= 'z' then (c as int - 32) as char else c }

  // strings.ToLower(s) == word, for a word of lower-case letters.
  predicate LowersTo(s: string, word: string)
  {
    && |s| == |word|
    && forall i :: 0 <= i < |s| ==>
         s[i] == word[i] || ('A' <= s[i] <= 'Z' && s[i] as int + 32 == word[i] as int)
  }

  predicate EndsWith2(s: string, a: char) { |s| >= 2 && Upper(s[|s| - 2]) == a && Upper(s[|s| - 1]) == 'B' }

  // ------------------------------------------------------------- byte sizes

  function Halvings(n: nat): nat { if n < 0x20_0000_0000_0000 then 0 else 1 + Halvings(n / 2) }

  function Pow2(e: nat): (p: nat)
    ensures p >= 1
  {
    if e == 0 then 1 else 2 * Pow2(e - 1)
  }

  // The float64 nearest to an integer, ties to even: 53 significant bits.
  function Float64(n: nat): nat
  {
    var ulp := Pow2(Halvings(n));
    var q, r := n / ulp, n % ulp;
    if 2 * r < ulp || (2 * r == ulp && q % 2 == 0) then q * ulp else (q + 1) * ulp
  }

  // It is within half a unit in the last place, counts up to 53 bits fit, and a
  // number is its own float64 exactly when that place divides it.
  lemma Float64Nearest(n: nat)
    ensures var ulp := Pow2(Halvings(n));
            && n < 0x20_0000_0000_0000 * ulp && (ulp > 1 ==> n >= 0x10_0000_0000_0000 * ulp)
            && Float64(n) % ulp == 0 && 2 * Float64(n) - ulp <= 2 * n <= 2 * Float64(n) + ulp
            && (Float64(n) == n <==> n % ulp == 0)
            && (2 * (n % ulp) == ulp ==> (Float64(n) / ulp) % 2 == 0)
  {
    HalvingsBound(n);
    var ulp := Pow2(Halvings(n));
    Parts(n, ulp);
    hide Pow2, Halvings;
    Rounded(n / ulp, n % ulp, ulp, n, Float64(n));
  }

  lemma Parts(n: nat, u: nat)
    requires u >= 1
    ensures n == (n / u) * u + n % u && 0 <= n % u < u && n / u >= 0
  {
  }

  lemma Rounded(q: nat, r: nat, ulp: nat, n: nat, f: nat)
    requires r < ulp && n == q * ulp + r
    requires f == if 2 * r < ulp || (2 * r == ulp && q % 2 == 0) then q * ulp else (q + 1) * ulp
    ensures f % ulp == 0 && 2 * f - ulp <= 2 * n <= 2 * f + ulp
    ensures f == n <==> r == 0
    ensures 2 * r == ulp ==> (f / ulp) % 2 == 0
  {
    OneMoreUnit(q, ulp);
    MultipleOf(q, ulp);
    MultipleOf(q + 1, ulp);
  }

  lemma OneMoreUnit(q: nat, u: nat)
    ensures (q + 1) * u == q * u + u
  {
  }

  lemma MultipleOf(q: nat, u: nat)
    requires u >= 1
    ensures (q * u) % u == 0 && (q * u) / u == q
  {
    var x := q * u;
    assert x == (x / u) * u + x % u;
    if x / u >= q + 1 { MulMonotone(q + 1, x / u, u); }
    if x / u <= q - 1 { MulMonotone(x / u, q - 1, u); }
  }

  lemma {:induction false} HalvingsBound(n: nat)
    ensures n < 0x20_0000_0000_0000 * Pow2(Halvings(n))
    ensures Pow2(Halvings(n)) > 1 ==> n >= 0x10_0000_0000_0000 * Pow2(Halvings(n))
  {
    if n >= 0x20_0000_0000_0000 {
      HalvingsBound(n / 2);
      assert Pow2(Halvings(n)) == 2 * Pow2(Halvings(n / 2));
    }
  }

  // A suffix and its multiplier, and the text before it.
  function Suffix(s: string): (int, string)
  {
    if EndsWith2(s, 'T') then (TB, s[..|s| - 2])
    else if EndsWith2(s, 'G') then (GB, s[..|s| - 2])
    else if EndsWith2(s, 'M') then (MB, s[..|s| - 2])
    else if EndsWith2(s, 'K') then (KB, s[..|s| - 2])
    else if s != "" && Upper(s[|s| - 1]) == 'B' then (1, s[..|s| - 1])
    else (1, s)
  }

  // ByteSize.UnmarshalText on whole numbers: the count passes through float64;
  // a power-of-two multiple of a float64 is exact.
  function ParseSize(text: string): Result<int, UnitError>
  {
    var s := TrimSpace(text);
    if s == "" then Err(EmptySize)
    else
      var (mult, count) := Suffix(s);
      var digits := TrimSpace(count);
      if digits == "" || !AllDigits(digits) then Err(InvalidSize)
      else Ok(Float64(ValueOf(digits)) * mult)
  }

  // The unit String picks.
  function Unit(b: int): (u: int)
    ensures u >= 1
  {
    if b >= TB && b % TB == 0 then TB
    else if b >= GB && b % GB == 0 then GB
    else if b >= MB && b % MB == 0 then MB
    else if b >= KB && b % KB == 0 then KB
    else 1
  }

  function PrintSize(b: int): string
  {
    if b >= TB && b % TB == 0 then Format(b / TB) + "TB"
    else if b >= GB && b % GB == 0 then Format(b / GB) + "GB"
    else if b >= MB && b % MB == 0 then Format(b / MB) + "MB"
    else if b >= KB && b % KB == 0 then Format(b / KB) + "KB"
    else Format(b) + "B"
  }

  lemma TrimKeeps(s: string)
    requires s != "" && !IsSpace(s[0]) && !IsSpace(s[|s| - 1])
    ensures TrimSpace(s) == s
  {
  }

  lemma DigitsNotSpace(n: nat)
    ensures !IsSpace(Digits(n)[0]) && !IsSpace(Digits(n)[|Digits(n)| - 1])
  {
    assert IsDigit(Digits(n)[0]) && IsDigit(Digits(n)[|Digits(n)| - 1]);
  }

  // A suffix in any mix of cases, and what it stands for; a bare count is bytes.
  predicate SizeUnit(suffix: string, mult: int)
  {
    || (LowersTo(suffix, "tb") && mult == 1_099_511_627_776)
    || (LowersTo(suffix, "gb") && mult == 1_073_741_824)
    || (LowersTo(suffix, "mb") && mult == 1_048_576)
    || (LowersTo(suffix, "kb") && mult == 1024)
    || ((LowersTo(suffix, "b") || suffix == "") && mult == 1)
  }

  lemma UpperOf(c: char, low: char)
    requires 'a' <= low <= 'z' && (c == low || ('A' <= c <= 'Z' && c as int + 32 == low as int))
    ensures Upper(c) as int + 32 == low as int && !IsSpace(c)
  {
  }

  // A whole count with a unit is that many of the unit, the count rounded to the
  // nearest float64.
  lemma ParseSizeMeans(n: nat, suffix: string, mult: int)
    requires SizeUnit(suffix, mult)
    ensures ParseSize(Digits(n) + suffix) == Ok(Float64(n) * mult)
  {
    hide Digits, ValueOf, Float64;
    var d := Digits(n);
    var s := d + suffix;
    DigitsNotSpace(n);
    assert IsDigit(d[|d| - 1]) && s[..|d|] == d;
    assert s[0] == d[0] && s[|s| - 1] == if suffix == "" then d[|d| - 1] else suffix[|suffix| - 1];
    if suffix != "" { UpperOf(suffix[|suffix| - 1], 'b'); }
    TrimKeeps(s);
    TrimKeeps(d);
    ValueOfDigits(n);
    SuffixOf(d, suffix, mult);
  }

  lemma SuffixOf(d: string, suffix: string, mult: int)
    requires d != "" && AllDigits(d) && SizeUnit(suffix, mult)
    ensures Suffix(d + suffix) == (mult, d)
  {
    var s := d + suffix;
    assert s[..|d|] == d && IsDigit(d[|d| - 1]);
    assert suffix != "" ==> s[|s| - 1] == suffix[|suffix| - 1];
    assert |suffix| == 2 ==> s[|s| - 2] == suffix[0];
    assert |suffix| == 1 ==> s[|s| - 2] == d[|d| - 1];
    if suffix == "" {
      assert s == d;
    } else {
      UpperOf(suffix[|suffix| - 1], 'b');
    }
    if |suffix| == 2 {
      UpperOf(suffix[0], if mult == 1024 then 'k' else if mult == 1_048_576 then 'm'
                         else if mult == 1_073_741_824 then 'g' else 't');
    }
  }

  // Space around a size does not matter.
  lemma {:induction false} SpaceAround(s: string, space: char)
    requires IsSpace(space)
    ensures ParseSize([space] + s) == ParseSize(s) == ParseSize(s + [space])
  {
    LeadingSpace(s, space);
    TrailingSpace(s, space);
    hide TrimSpace;
  }

  lemma LeadingSpace(s: string, space: char)
    requires IsSpace(space)
    ensures TrimSpace([space] + s) == TrimSpace(s)
  {
    assert ([space] + s)[1..] == s;
  }

  lemma {:induction false} TrailingSpace(s: string, space: char)
    requires IsSpace(space)
    ensures TrimSpace(s + [space]) == TrimSpace(s)
    decreases |s|
  {
    if s == "" {
      assert s + [space] == [space];
      assert [space][1..] == "";
    } else if IsSpace(s[0]) {
      assert (s + [space])[1..] == s[1..] + [space];
      TrailingSpace(s[1..], space);
    } else {
      assert (s + [space])[..|s|] == s;
    }
  }

  function UnitName(u: int): string
  {
    if u == TB then "TB" else if u == GB then "GB" else if u == MB then "MB" else if u == KB then "KB" else "B"
  }

  lemma DivExact(b: int, u: int)
    requires u >= 1 && b >= 0 && b % u == 0
    ensures b == (b / u) * u && Format(b / u) == Digits(b / u)
  {
    hide Digits;
  }

  lemma PrintedAs(b: int)
    requires b >= 0
    ensures b == (b / Unit(b)) * Unit(b) && Unit(b) in {TB, GB, MB, KB, 1}
    ensures PrintSize(b) == Digits(b / Unit(b)) + UnitName(Unit(b))
  {
    assert b % 1 == 0;
    DivExact(b, Unit(b));
    hide Digits, Format;
  }

  lemma {:induction false} TrimDropsSpace(s: string, c: char)
    requires c in s
    ensures c in TrimSpace(s) || IsSpace(c)
    decreases |s|
  {
    if IsSpace(s[0]) {
      if c in s[1..] { TrimDropsSpace(s[1..], c); }
    } else if IsSpace(s[|s| - 1]) {
      if c in s[..|s| - 1] { TrimDropsSpace(s[..|s| - 1], c); }
    }
  }

  // What a size is made of: nothing but digits, the letters of a suffix, and the
  // white space of Unicode.
  lemma SizeAlphabet(text: string, c: char)
    requires ParseSize(text).Ok? && c in text
    ensures '0' <= c <= '9' || c in {'b', 'B', 'k', 'K', 'm', 'M', 'g', 'G', 't', 'T'}
            || c as int in {9, 10, 11, 12, 13, 32, 0x85, 0xA0, 0x1680, 0x2028, 0x2029, 0x202F, 0x205F, 0x3000}
            || 0x2000 <= c as int <= 0x200A
  {
    var s := TrimSpace(text);
    var count := Suffix(s).1;
    TrimDropsSpace(text, c);
    if c in s {
      if c in count {
        TrimDropsSpace(count, c);
      } else {
        SuffixLetters(s, c);
      }
    }
    hide TrimSpace, Suffix;
  }

  lemma SuffixLetters(s: string, c: char)
    requires c in s && c !in Suffix(s).1
    ensures c in {'b', 'B', 'k', 'K', 'm', 'M', 'g', 'G', 't', 'T'}
  {
    var i :| 0 <= i < |s| && s[i] == c;
    assert |Suffix(s).1| <= |s| && Suffix(s).1 == s[..|Suffix(s).1|];
    assert i >= |Suffix(s).1|;
  }

  // A size is printed in the largest unit that divides it.
  lemma PrintsLargestUnit(b: int)
    requires 0 < b <= MAX_INT64
    ensures var (u, name) :=
              if b % 1_099_511_627_776 == 0 then (1_099_511_627_776, "TB")
              else if b % 1_073_741_824 == 0 then (1_073_741_824, "GB")
              else if b % 1_048_576 == 0 then (1_048_576, "MB")
              else if b % 1024 == 0 then (1024, "KB")
              else (1, "B");
            PrintSize(b) == Digits(b / u) + name
  {
    hide Digits;
  }

  // Printing then parsing a size gives it back exactly when the printed count
  // has at most 53 significant bits.
  lemma SizeRoundTripExactly(b: int)
    requires 0 <= b <= MAX_INT64
    ensures ParseSize(PrintSize(b)) == Ok(b) <==> Float64(b / Unit(b)) == b / Unit(b)
  {
    PrintedAs(b);
    var n, u := b / Unit(b), Unit(b);
    ParseSizeMeans(n, UnitName(u), u);
    hide Float64, ParseSize, PrintSize, Unit;
    if Float64(n) * u == n * u { SameFactor(Float64(n), n, u); }
  }

  lemma SameFactor(a: int, b: int, u: int)
    requires u >= 1 && a * u == b * u
    ensures a == b
  {
    assert (a - b) * u == 0 && (b - a) * u == 0;
    if a - b >= 1 { MulMonotone(1, a - b, u); }
    if b - a >= 1 { MulMonotone(1, b - a, u); }
  }

  lemma SmallExact(n: nat)
    requires n < 0x20_0000_0000_0000
    ensures Float64(n) == n
  {
    assert Halvings(n) == 0 && Pow2(0) == 1;
  }

  lemma OddInexact()
    ensures Float64(0x20_0000_0000_0001) == 0x20_0000_0000_0000
  {
    assert Halvings(0x10_0000_0000_0000) == 0 && Halvings(0x20_0000_0000_0001) == 1;
    assert Pow2(0) == 1 && Pow2(1) == 2;
  }

  // Every size up to 2^53 round-trips; the next one does not.
  lemma SizesUpTo53Bits(b: int)
    requires 0 <= b <= 0x20_0000_0000_0000
    ensures ParseSize(PrintSize(b)) == Ok(b)
    ensures ParseSize(PrintSize(0x20_0000_0000_0001)) != Ok(0x20_0000_0000_0001)
  {
    hide ParseSize, PrintSize, Float64;
    SizeRoundTripExactly(b);
    SizeRoundTripExactly(0x20_0000_0000_0001);
    OddInexact();
    if b == 0x20_0000_0000_0000 { assert Unit(b) == TB; }
    SmallExact(b / Unit(b));
  }

  // ------------------------------------------------------------------ rates

  const SEC: int := 1_000_000_000

  // strings.Cut at the first '/'.
  function Cut(s: string): Option<(string, string)>
  {
    if s == "" then None
    else if s[0] == '/' then Some(("", s[1..]))
    else
      var r := Cut(s[1..]);
      if r.None? then None else Some(([s[0]] + r.value.0, r.value.1))
  }

  function ParseWindow(unit: string): Option<int>
  {
    var u := TrimSpace(unit);
    if LowersTo(u, "s") || LowersTo(u, "sec") || LowersTo(u, "second") then Some(SEC)
    else if LowersTo(u, "m") || LowersTo(u, "min") || LowersTo(u, "minute") then Some(MINUTE)
    else if LowersTo(u, "h") || LowersTo(u, "hour") then Some(HOUR)
    else None
  }

  // Rate.UnmarshalText
  function ParseRate(text: string): Result<Rate, UnitError>
  {
    var parts := Cut(TrimSpace(text));
    if parts.None? then Err(InvalidRate)
    else
      var n := ParseInt64(TrimSpace(parts.value.0));
      if n.None? || n.value <= 0 then Err(InvalidRate)
      else
        var w := ParseWindow(parts.value.1);
        if w.None? then Err(UnknownUnit) else Ok(Rate(n.value, w.value))
  }

  // Rate.String for the windows a configuration can name.
  function PrintRate(r: Rate): string
    requires r.window == SEC || r.window == MINUTE || r.window == HOUR
  {
    Format(r.limit) + "/" + if r.window == SEC then "sec" else if r.window == MINUTE then "min" else "hour"
  }

  lemma {:induction false} CutAt(a: string, b: string)
    requires '/' !in a
    ensures Cut(a + "/" + b) == Some((a, b))
  {
    if a == "" {
      assert ("/" + b)[1..] == b;
      assert a + "/" + b == "/" + b;
    } else {
      assert a[0] in a;
      assert (a + "/" + b)[1..] == a[1..] + "/" + b && (a + "/" + b)[0] == a[0];
      assert [a[0]] + a[1..] == a;
      CutAt(a[1..], b);
    }
  }

  lemma UnitWords()
    ensures ParseWindow("sec") == Some(SEC) && ParseWindow("min") == Some(MINUTE) && ParseWindow("hour") == Some(HOUR)
  {
    TrimKeeps("sec");
    TrimKeeps("min");
    TrimKeeps("hour");
    assert "min"[0] == 'm' && "hour"[0] == 'h';
  }

  // What a rate says: a positive count of events in the window that its unit word,
  // in any mix of cases, stands for.
  lemma ParseRateMeans(n: nat, unit: string, word: string, window: int)
    requires 0 < n <= MAX_INT64 && LowersTo(unit, word)
    requires (word, window) in {("s", 1_000_000_000), ("sec", 1_000_000_000), ("second", 1_000_000_000),
                                ("m", 60_000_000_000), ("min", 60_000_000_000), ("minute", 60_000_000_000),
                                ("h", 3_600_000_000_000), ("hour", 3_600_000_000_000)}
    ensures ParseRate(Digits(n) + "/" + unit) == Ok(Rate(n, window))
  {
    hide Cut;
    var a := Digits(n);
    var s := a + "/" + unit;
    FormatEnds(n);
    assert a == Format(n);
    UnitWord(unit, word, window);
    assert s[0] == a[0] && s[|s| - 1] == unit[|unit| - 1];
    hide Digits, Format, ParseWindow, LowersTo;
    TrimKeeps(s);
    TrimKeeps(a);
    CutAt(a, unit);
    ParseFormat(n);
  }

  lemma UnitWord(unit: string, word: string, window: int)
    requires LowersTo(unit, word)
    requires (word, window) in {("s", 1_000_000_000), ("sec", 1_000_000_000), ("second", 1_000_000_000),
                                ("m", 60_000_000_000), ("min", 60_000_000_000), ("minute", 60_000_000_000),
                                ("h", 3_600_000_000_000), ("hour", 3_600_000_000_000)}
    ensures ParseWindow(unit) == Some(window) && unit != "" && !IsSpace(unit[|unit| - 1])
  {
    UpperOf(unit[0], word[0]);
    UpperOf(unit[|unit| - 1], word[|word| - 1]);
    TrimKeeps(unit);
    assert unit[0] == word[0] || unit[0] as int + 32 == word[0] as int;
  }

  // A rate with a second, minute or hour window round-trips exactly when its
  // count is positive; otherwise it is refused.
  lemma RateRoundTripExactly(r: Rate)
    requires IsInt64(r.limit) && (r.window == SEC || r.window == MINUTE || r.window == HOUR)
    ensures ParseRate(PrintRate(r)) == Ok(r) <==> r.limit > 0
  {
    hide Cut;
    var a, b := Format(r.limit), if r.window == SEC then "sec" else if r.window == MINUTE then "min" else "hour";
    var s := a + "/" + b;
    FormatEnds(r.limit);
    TrimKeeps(s);
    TrimKeeps(a);
    CutAt(a, b);
    ParseFormat(r.limit);
    UnitWords();
  }

  lemma FormatEnds(n: int)
    ensures '/' !in Format(n)
    ensures !IsSpace(Format(n)[0]) && !IsSpace(Format(n)[|Format(n)| - 1])
  {
    assert !IsDigit('/');
    var s := Format(n);
    assert s[0] in s && s[|s| - 1] in s;
  }
}
