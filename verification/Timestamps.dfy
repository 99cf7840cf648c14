/** The sortable UTC timestamp of a dump key's unique segment. */
module Timestamps {
  import opened Decimal

  // A UTC civil time, truncated to milliseconds as the layout ".000" does.
  datatype Stamp = Stamp(year: nat, month: nat, day: nat, hour: nat, minute: nat, second: nat, milli: nat)

  predicate Leap(y: nat) { y % 4 == 0 && (y % 100 != 0 || y % 400 == 0) }

  function DaysInMonth(y: nat, m: nat): nat
  {
    if m == 2 then (if Leap(y) then 29 else 28)
    else if m == 4 || m == 6 || m == 9 || m == 11 then 30
    else 31
  }

  function DaysBeforeMonth(y: nat, m: nat): nat
  {
    if m <= 1 then 0 else DaysBeforeMonth(y, m - 1) + DaysInMonth(y, m - 1)
  }

  function DaysBeforeYear(y: nat): nat
  {
    if y == 0 then 0 else DaysBeforeYear(y - 1) + DaysBeforeMonth(y - 1, 13)
  }

  predicate ValidStamp(t: Stamp)
  {
    && 1 <= t.month <= 12
    && 1 <= t.day <= DaysInMonth(t.year, t.month)
    && t.hour < 24 && t.minute < 60 && t.second < 60 && t.milli < 1000
  }

  function DayNumber(t: Stamp): nat
    requires t.day >= 1
  {
    DaysBeforeYear(t.year) + DaysBeforeMonth(t.year, t.month) + t.day - 1
  }

  function MilliOfDay(t: Stamp): nat
  {
    ((t.hour * 60 + t.minute) * 60 + t.second) * 1000 + t.milli
  }

  // Milliseconds since the start of year 0.
  function Instant(t: Stamp): nat
    requires t.day >= 1
  {
    DayNumber(t) * 86_400_000 + MilliOfDay(t)
  }

  // time.Format("20060102T150405.000")
  function FormatStamp(t: Stamp): string
  {
    Pad(t.year, 4) + (Pad(t.month, 2) + (Pad(t.day, 2) + ("T" +
    (Pad(t.hour, 2) + (Pad(t.minute, 2) + (Pad(t.second, 2) + ("." + Pad(t.milli, 3))))))))
  }

  function UniqueSegment(t: Stamp, random: seq<Byte>): string
  {
    FormatStamp(t) + "-" + Hex(random)
  }

  // The layout, by example.
  lemma SegmentExample()
    ensures UniqueSegment(Stamp(2026, 1, 2, 3, 4, 5, 6), [10, 159, 240]) == "20260102T030405.006-0a9ff0"
  {
    StampExample();
    HexExample();
    hide FormatStamp, Hex;
  }

  lemma StampExample()
    ensures FormatStamp(Stamp(2026, 1, 2, 3, 4, 5, 6)) == "20260102T030405.006"
  {
    PadExamples();
    hide Pad;
    assert "04" + ("05" + ("." + "006")) == "0405.006";
    assert "02" + ("T" + ("03" + "0405.006")) == "02T030405.006";
    assert "2026" + ("01" + "02T030405.006") == "20260102T030405.006";
  }

  lemma HexExample()
    ensures Hex([10, 159, 240]) == "0a9ff0"
  {
    var bytes: seq<Byte> := [10, 159, 240];
    HexDigits(bytes, 0);
    HexDigits(bytes, 1);
    HexDigits(bytes, 2);
    hide Hex;
  }

  lemma PadExamples()
    ensures Pad(2026, 4) == "2026" && Pad(1, 2) == "01" && Pad(2, 2) == "02" && Pad(3, 2) == "03"
    ensures Pad(4, 2) == "04" && Pad(5, 2) == "05" && Pad(6, 3) == "006"
  {
    assert Pad(0, 0) == "" && Pad(0, 1) == "0" && Pad(0, 2) == "00";
    assert Pad(2, 1) == "2" && Pad(20, 2) == "20" && Pad(202, 3) == "202";
  }

  // The leap years before a year: every fourth, but of the hundreds only every
  // fourth.
  function LeapYears(y: nat): int { (y + 3) / 4 - (y + 99) / 100 + (y + 399) / 400 }

  lemma LeapYearCounts(y: nat)
    ensures LeapYears(y + 1) == LeapYears(y) + if Leap(y) then 1 else 0
    ensures LeapYears(0) == 0
  {
    assert (y + 4) / 4 - (y + 3) / 4 == if y % 4 == 0 then 1 else 0;
    assert (y + 100) / 100 - (y + 99) / 100 == if y % 100 == 0 then 1 else 0;
    assert (y + 400) / 400 - (y + 399) / 400 == if y % 400 == 0 then 1 else 0;
  }

  lemma {:induction false} DaysGregorian(y: nat)
    ensures DaysBeforeYear(y) == 365 * y + LeapYears(y)
  {
    hide DaysBeforeMonth, LeapYears, Leap;
    LeapYearCounts(0);
    if y > 0 {
      YearLength(y - 1);
      LeapYearCounts(y - 1);
      DaysGregorian(y - 1);
    }
  }

  lemma YearLength(y: nat)
    ensures DaysBeforeMonth(y, 13) == if Leap(y) then 366 else 365
  {
    assert DaysBeforeMonth(y, 1) == 0;
    assert DaysBeforeMonth(y, 2) == 31;
    assert DaysBeforeMonth(y, 3) == 31 + DaysInMonth(y, 2);
    assert DaysBeforeMonth(y, 4) == DaysBeforeMonth(y, 3) + 31;
    assert DaysBeforeMonth(y, 5) == DaysBeforeMonth(y, 3) + 61;
    assert DaysBeforeMonth(y, 6) == DaysBeforeMonth(y, 3) + 92;
    assert DaysBeforeMonth(y, 7) == DaysBeforeMonth(y, 6) + 30;
    assert DaysBeforeMonth(y, 8) == DaysBeforeMonth(y, 6) + 61;
    assert DaysBeforeMonth(y, 9) == DaysBeforeMonth(y, 6) + 92;
    assert DaysBeforeMonth(y, 10) == DaysBeforeMonth(y, 9) + 30;
    assert DaysBeforeMonth(y, 11) == DaysBeforeMonth(y, 9) + 61;
    assert DaysBeforeMonth(y, 12) == DaysBeforeMonth(y, 9) + 91;
  }

  // Calendar order, field by field.
  predicate Earlier(a: Stamp, b: Stamp)
  {
    a.year < b.year || (a.year == b.year &&
    (a.month < b.month || (a.month == b.month &&
    (a.day < b.day || (a.day == b.day &&
    (a.hour < b.hour || (a.hour == b.hour &&
    (a.minute < b.minute || (a.minute == b.minute &&
    (a.second < b.second || (a.second == b.second && a.milli < b.milli)))))))))))
  }

  lemma {:induction false} MonthsAscend(y: nat, m: nat, n: nat)
    requires 1 <= m < n
    ensures DaysBeforeMonth(y, m) + DaysInMonth(y, m) <= DaysBeforeMonth(y, n)
    decreases n
  {
    if m < n - 1 { MonthsAscend(y, m, n - 1); }
  }

  lemma {:induction false} YearsAscend(y: nat, z: nat)
    requires y < z
    ensures DaysBeforeYear(y) + DaysBeforeMonth(y, 13) <= DaysBeforeYear(z)
    decreases z
  {
    if y < z - 1 { YearsAscend(y, z - 1); }
  }

  lemma EarlierInstant(a: Stamp, b: Stamp)
    requires ValidStamp(a) && ValidStamp(b) && Earlier(a, b)
    ensures Instant(a) < Instant(b)
  {
    if a.year < b.year {
      MonthsAscend(a.year, a.month, 13);
      YearsAscend(a.year, b.year);
      assert DayNumber(a) < DayNumber(b);
    } else if a.month < b.month {
      MonthsAscend(a.year, a.month, b.month);
      assert DayNumber(a) < DayNumber(b);
    }
  }

  lemma FieldOrder(x: nat, y: nat, width: nat, restX: string, restY: string)
    requires x < y < Pow10(width)
    ensures LexLess(Pad(x, width) + restX, Pad(y, width) + restY)
  {
    PadOrder(x, y, width);
    PadWidth(x, width);
    PadWidth(y, width);
    LexExtend(Pad(x, width), Pad(y, width), restX, restY);
  }

  lemma Widths()
    ensures Pow10(2) == 100 && Pow10(3) == 1000 && Pow10(4) == 10000
  {
    assert Pow10(1) == 10 && Pow10(2) == 100 && Pow10(3) == 1000;
  }

  lemma StampWidth(t: Stamp)
    requires ValidStamp(t)
    ensures |FormatStamp(t)| == |Pad(t.year, 4)| + 15
  {
    Widths();
    PadWidth(t.month, 2);
    PadWidth(t.day, 2);
    PadWidth(t.hour, 2);
    PadWidth(t.minute, 2);
    PadWidth(t.second, 2);
    PadWidth(t.milli, 3);
  }

  lemma FormatOrder(a: Stamp, b: Stamp)
    requires ValidStamp(a) && ValidStamp(b) && b.year <= 9999 && Earlier(a, b)
    ensures LexLess(FormatStamp(a), FormatStamp(b))
  {
    Widths();
    var sA, sB := "." + Pad(a.milli, 3), "." + Pad(b.milli, 3);
    var miA, miB := Pad(a.second, 2) + sA, Pad(b.second, 2) + sB;
    var hA, hB := Pad(a.minute, 2) + miA, Pad(b.minute, 2) + miB;
    var tA, tB := Pad(a.hour, 2) + hA, Pad(b.hour, 2) + hB;
    var dA, dB := "T" + tA, "T" + tB;
    var moA, moB := Pad(a.day, 2) + dA, Pad(b.day, 2) + dB;
    var yA, yB := Pad(a.month, 2) + moA, Pad(b.month, 2) + moB;
    assert FormatStamp(a) == Pad(a.year, 4) + yA && FormatStamp(b) == Pad(b.year, 4) + yB;
    if a.year < b.year {
      FieldOrder(a.year, b.year, 4, yA, yB);
    } else {
      LexPrefix(Pad(a.year, 4), yA, yB);
      if a.month < b.month {
        FieldOrder(a.month, b.month, 2, moA, moB);
      } else {
        LexPrefix(Pad(a.month, 2), moA, moB);
        if a.day < b.day {
          FieldOrder(a.day, b.day, 2, dA, dB);
        } else {
          LexPrefix(Pad(a.day, 2), dA, dB);
          LexPrefix("T", tA, tB);
          TimeOrder(a, b);
        }
      }
    }
  }

  lemma TimeOrder(a: Stamp, b: Stamp)
    requires ValidStamp(a) && ValidStamp(b) && Earlier(a, b)
    requires a.year == b.year && a.month == b.month && a.day == b.day
    ensures LexLess(Pad(a.hour, 2) + (Pad(a.minute, 2) + (Pad(a.second, 2) + ("." + Pad(a.milli, 3)))),
                    Pad(b.hour, 2) + (Pad(b.minute, 2) + (Pad(b.second, 2) + ("." + Pad(b.milli, 3)))))
  {
    Widths();
    var sA, sB := "." + Pad(a.milli, 3), "." + Pad(b.milli, 3);
    var miA, miB := Pad(a.second, 2) + sA, Pad(b.second, 2) + sB;
    var hA, hB := Pad(a.minute, 2) + miA, Pad(b.minute, 2) + miB;
    if a.hour < b.hour {
      FieldOrder(a.hour, b.hour, 2, hA, hB);
    } else {
      LexPrefix(Pad(a.hour, 2), hA, hB);
      if a.minute < b.minute {
        FieldOrder(a.minute, b.minute, 2, miA, miB);
      } else {
        LexPrefix(Pad(a.minute, 2), miA, miB);
        if a.second < b.second {
          FieldOrder(a.second, b.second, 2, sA, sB);
        } else {
          LexPrefix(Pad(a.second, 2), sA, sB);
          LexPrefix(".", Pad(a.milli, 3), Pad(b.milli, 3));
          PadOrder(a.milli, b.milli, 3);
        }
      }
    }
  }

  lemma Trichotomy(a: Stamp, b: Stamp)
    ensures Earlier(a, b) || a == b || Earlier(b, a)
  {
  }

  // Keys sort by time: an earlier millisecond gives a smaller segment, whatever
  // the random suffixes.
  lemma {:induction false} SegmentsSortByTime(a: Stamp, b: Stamp, ra: seq<Byte>, rb: seq<Byte>)
    requires ValidStamp(a) && ValidStamp(b) && a.year <= 9999 && b.year <= 9999
    requires Instant(a) < Instant(b)
    ensures LexLess(UniqueSegment(a, ra), UniqueSegment(b, rb))
  {
    hide FormatStamp, Hex, LexLess, Instant;
    Trichotomy(a, b);
    hide Earlier, ValidStamp, Pad;
    if Earlier(b, a) {
      EarlierInstant(b, a);
    }
    FormatOrder(a, b);
    Widths();
    PadWidth(a.year, 4);
    PadWidth(b.year, 4);
    StampWidth(a);
    StampWidth(b);
    LexExtend(FormatStamp(a), FormatStamp(b), "-" + Hex(ra), "-" + Hex(rb));
    assert FormatStamp(a) + ("-" + Hex(ra)) == UniqueSegment(a, ra);
    assert FormatStamp(b) + ("-" + Hex(rb)) == UniqueSegment(b, rb);
  }

  // A unique segment never looks like an owner segment: it is longer than any.
  lemma SegmentShape(t: Stamp, random: seq<Byte>)
    ensures |UniqueSegment(t, random)| >= 20 + 2 * |random|
    ensures '/' !in UniqueSegment(t, random) && '\n' !in UniqueSegment(t, random)
  {
    forall c | c in UniqueSegment(t, random)
      ensures IsHexChar(c) || c == 'T' || c == '.' || c == '-'
    {
    }
  }
}
