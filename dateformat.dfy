/** get_formatted_date: the display timestamp of every simulated reading,
    written with the engine's own Spanish month table so that it does
    not depend on the host's locale. */
module DateFormat {
  import opened Text
  import opened Calendar

  const MONTH_NAMES: map<int, string> := map[
    1 := "enero", 2 := "febrero", 3 := "marzo", 4 := "abril",
    5 := "mayo", 6 := "junio", 7 := "julio", 8 := "agosto",
    9 := "septiembre", 10 := "octubre", 11 := "noviembre", 12 := "diciembre"]

  const ZONE_LABEL := " UTC-6"

  /** MESES[month]. */
  function MonthName(m: int): string
    requires 1 <= m <= 12
  {
    MONTH_NAMES[m]
  }

  /** The hour as strftime's %I counts it: 12, 1, ..., 11 for each half day. */
  function Hour12(h: int): (r: int)
    requires 0 <= h < 24
    ensures 1 <= r <= 12 && r % 12 == h % 12
    ensures r == 12 <==> (h == 0 || h == 12)
  {
    if h % 12 == 0 then 12 else h % 12
  }

  function Meridiem(h: int): string {
    if h < 12 then "a.m." else "p.m."
  }

  /** strftime("%I:%M:%S") for the given %I hour, minute and second. */
  function PaddedClock(h: nat, m: nat, s: nat): string
    requires h < 100 && m < 100 && s < 100
  {
    assert Pow10(2) == 100;
    Fixed(h, 2) + (":" + (Fixed(m, 2) + (":" + Fixed(s, 2))))
  }

  /** dt.strftime("%I:%M:%S").lstrip("0"). */
  function ClockText(d: Timestamp): string {
    StripLeadingZeros(PaddedClock(Hour12(d.hour), d.minute, d.second))
  }

  /** The part of the display string after the clock. */
  function ClockSuffix(h: int): string {
    " " + (Meridiem(h) + ZONE_LABEL)
  }

  /** "<day> de <month> de ". */
  function DateHead(d: Timestamp): string {
    Decimal(d.day) + " de " + MonthName(d.month) + " de "
  }

  /** "<day> de <month> de <year>". */
  function DatePart(d: Timestamp): string {
    DateHead(d) + Decimal(d.year)
  }

  /** Everything up to and including the clock. */
  function DateAndClock(d: Timestamp): string {
    DatePart(d) + (" a las " + ClockText(d))
  }

  /** get_formatted_date. */
  function FormatDate(d: Timestamp): string {
    DateAndClock(d) + ClockSuffix(d.hour)
  }

  lemma StartsWithConcat(a: string, b: string)
    ensures StartsWith(a + b, a)
  {
    assert (a + b)[..|a|] == a;
  }

  lemma StripPaddedClock(h: nat, m: nat, s: nat)
    requires 1 <= h < 100 && m < 100 && s < 100
    ensures Pow10(2) == 100
    ensures StripLeadingZeros(PaddedClock(h, m, s)) == Decimal(h) + (":" + (Fixed(m, 2) + (":" + Fixed(s, 2))))
  {
    assert Pow10(2) == 100;
    StripTwoDigits(h, ":" + (Fixed(m, 2) + (":" + Fixed(s, 2))));
  }

  /** Stripping the zeros of %I leaves the hour without a leading zero and
      the minutes and seconds with two digits each. */
  lemma ClockTextShape(d: Timestamp)
    ensures Pow10(2) == 100
    ensures ClockText(d) == Decimal(Hour12(d.hour)) + (":" + (Fixed(d.minute, 2) + (":" + Fixed(d.second, 2))))
  {
    StripPaddedClock(Hour12(d.hour), d.minute, d.second);
  }

  /** The string opens with the day, the month's name from the table and the year. */
  lemma FormatDateOpensWithDate(d: Timestamp)
    ensures StartsWith(FormatDate(d), DatePart(d) + " a las ")
    ensures StartsWith(DatePart(d), Decimal(d.day) + " de " + MonthName(d.month) + " de ")
  {
    OpensWith(DatePart(d), " a las ", ClockText(d), ClockSuffix(d.hour));
    StartsWithConcat(DateHead(d), Decimal(d.year));
  }

  lemma OpensWith(a: string, b: string, c: string, e: string)
    ensures StartsWith(a + (b + c) + e, a + b)
  {
    assert a + (b + c) + e == (a + b) + (c + e);
    StartsWithConcat(a + b, c + e);
  }

  /** The suffix after any prefix: the zone label, after the marker. */
  lemma SuffixMarker(a: string, h: int)
    ensures EndsWith(a + ClockSuffix(h), " UTC-6")
    ensures EndsWith(a + ClockSuffix(h), " a.m. UTC-6") <==> h < 12
    ensures EndsWith(a + ClockSuffix(h), " p.m. UTC-6") <==> h >= 12
  {
    var t := ClockSuffix(h);
    var f := a + t;
    assert t == (if h < 12 then " a.m. UTC-6" else " p.m. UTC-6");
    assert f[|a|..] == t;
    assert f[|f| - 6..] == t[5..];
    assert " a.m. UTC-6"[1] != " p.m. UTC-6"[1];
  }

  /** The marker says a.m. exactly for the hours before noon, and the
      string always ends with the zone label. */
  lemma MeridiemMarker(d: Timestamp)
    ensures EndsWith(FormatDate(d), " UTC-6")
    ensures EndsWith(FormatDate(d), " a.m. UTC-6") <==> d.hour < 12
    ensures EndsWith(FormatDate(d), " p.m. UTC-6") <==> d.hour >= 12
  {
    SuffixMarker(DateAndClock(d), d.hour);
  }

  /** Midnight and noon both show the hour as 12, told apart by the marker. */
  lemma MidnightAndNoon(d: Timestamp)
    requires d.hour == 0 || d.hour == 12
    ensures StartsWith(ClockText(d), "12:")
    ensures EndsWith(FormatDate(d), " a.m. UTC-6") <==> d.hour == 0
  {
    ClockTextShape(d);
    var rest := Fixed(d.minute, 2) + (":" + Fixed(d.second, 2));
    assert Decimal(12) == "12" by {
      assert Decimal(1) == "1";
    }
    assert ClockText(d) == "12:" + rest;
    StartsWithConcat("12:", rest);
    MeridiemMarker(d);
  }

  /** The pieces of "h:mm:ss" are recovered from the ends of the string. */
  lemma ClockPieces(h1: string, m1: string, s1: string, h2: string, m2: string, s2: string)
    requires |m1| == 2 && |s1| == 2 && |m2| == 2 && |s2| == 2
    requires h1 + (":" + (m1 + (":" + s1))) == h2 + (":" + (m2 + (":" + s2)))
    ensures h1 == h2 && m1 == m2 && s1 == s2
  {
    var c1 := h1 + (":" + (m1 + (":" + s1)));
    var c2 := h2 + (":" + (m2 + (":" + s2)));
    assert c1 == h1 + [':'] + m1 + [':'] + s1;
    assert c2 == h2 + [':'] + m2 + [':'] + s2;
    assert c1[|c1| - 2..] == s1 && c2[|c2| - 2..] == s2;
    assert c1[|c1| - 5..|c1| - 3] == m1 && c2[|c2| - 5..|c2| - 3] == m2;
    assert c1[..|c1| - 6] == h1 && c2[..|c2| - 6] == h2;
  }

  /** The hour is recovered from its %I form and its half of the day. */
  lemma Hour12Inverse(h: int)
    requires 0 <= h < 24
    ensures h == (if h < 12 then 0 else 12) + Hour12(h) % 12
  {
    if h < 12 {
      assert h % 12 == h;
    } else {
      assert h % 12 == h - 12;
    }
  }

  /** The clock text and the marker together identify the time of day:
      two timestamps shown with the same clock and marker have the same
      hour, minute and second. */
  lemma ClockIdentifiesTime(d1: Timestamp, d2: Timestamp)
    requires ClockText(d1) == ClockText(d2) && Meridiem(d1.hour) == Meridiem(d2.hour)
    ensures d1.hour == d2.hour && d1.minute == d2.minute && d1.second == d2.second
  {
    ClockFields(d1, d2);
    assert "a.m." != "p.m." by { assert "a.m."[0] != "p.m."[0]; }
    assert d1.hour < 12 <==> d2.hour < 12;
    Hour12Inverse(d1.hour);
    Hour12Inverse(d2.hour);
  }

  /** Equal clock texts have equal %I hours, minutes and seconds. */
  lemma ClockFields(d1: Timestamp, d2: Timestamp)
    requires ClockText(d1) == ClockText(d2)
    ensures Hour12(d1.hour) == Hour12(d2.hour) && d1.minute == d2.minute && d1.second == d2.second
  {
    ClockTextShape(d1);
    ClockTextShape(d2);
    var h1, m1, s1 := Decimal(Hour12(d1.hour)), Fixed(d1.minute, 2), Fixed(d1.second, 2);
    var h2, m2, s2 := Decimal(Hour12(d2.hour)), Fixed(d2.minute, 2), Fixed(d2.second, 2);
    ClockPieces(h1, m1, s1, h2, m2, s2);
    FixedRoundTrip(d1.second, 2);
    FixedRoundTrip(d2.second, 2);
    FixedRoundTrip(d1.minute, 2);
    FixedRoundTrip(d2.minute, 2);
    DecimalInjective(Hour12(d1.hour), Hour12(d2.hour));
  }
}
