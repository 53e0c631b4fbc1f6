/**
 * Dates as the bot reads and prints them: the layout "02.01.2006 15:04" of Go's time package,
 * in UTC (internal/bot/service.go).
 */
module Calendar {
  import opened Prelude

  datatype DateTime = DateTime(year: nat, month: nat, day: nat, hour: nat, minute: nat, second: nat, nano: nat)

  /** The zero time.Time: the first instant of year 1. */
  const ZERO_TIME := DateTime(1, 1, 1, 0, 0, 0, 0)

  predicate IsLeap(year: nat) {
    year % 4 == 0 && (year % 100 != 0 || year % 400 == 0)
  }

  function DaysIn(month: nat, year: nat): nat {
    if month == 2 then (if IsLeap(year) then 29 else 28)
    else if month in {4, 6, 9, 11} then 30
    else 31
  }

  predicate ValidDate(t: DateTime) {
    && 1 <= t.month <= 12
    && 1 <= t.day <= DaysIn(t.month, t.year)
    && t.hour < 24 && t.minute < 60 && t.second < 60 && t.nano < 1_000_000_000
  }

  function ToMinute(t: DateTime): DateTime {
    t.(second := 0, nano := 0)
  }

  /** The months of a year have the lengths of the calendar. */
  lemma MonthLengths(year: nat)
    ensures var february := if IsLeap(year) then 29 else 28;
            seq(12, m requires 0 <= m => DaysIn(m + 1, year)) == [31, february, 31, 30, 31, 30, 31, 31, 30, 31, 30, 31]
  {
    hide IsLeap;
  }

  /** The leap years among the first n. */
  function Leaps(n: nat): nat {
    if n == 0 then 0 else Leaps(n - 1) + if IsLeap(n) then 1 else 0
  }

  lemma QuotientsStep(n: nat)
    requires n > 0
    ensures n / 4 == (n - 1) / 4 + if n % 4 == 0 then 1 else 0
    ensures n / 100 == (n - 1) / 100 + if n % 100 == 0 then 1 else 0
    ensures n / 400 == (n - 1) / 400 + if n % 400 == 0 then 1 else 0
  {
  }

  lemma CenturiesAreFourths(n: nat)
    ensures n % 400 == 0 ==> n % 100 == 0
    ensures n % 100 == 0 ==> n % 4 == 0
  {
    assert n % 400 == 0 ==> n == 100 * (4 * (n / 400));
    assert n % 100 == 0 ==> n == 4 * (25 * (n / 100));
  }

  /** Every fourth year is one, but of a hundred years the last is not, unless it ends four of them. */
  lemma {:induction false} LeapsAre(n: nat)
    ensures Leaps(n) == n / 4 - n / 100 + n / 400
  {
    if n > 0 {
      LeapsAre(n - 1);
      QuotientsStep(n);
      CenturiesAreFourths(n);
    }
  }

  // ---------- Printing ----------

  predicate IsDigit(c: char) {
    '0' <= c <= '9'
  }

  function DigitOf(c: char): (d: nat)
    requires IsDigit(c)
    ensures d < 10
  {
    c as int - '0' as int
  }

  function DigitChar(d: nat): (c: char)
    requires d < 10
    ensures IsDigit(c) && DigitOf(c) == d
  {
    ('0' as int + d) as char
  }

  function Two(n: nat): (text: string)
    requires n < 100
    ensures |text| == 2
  {
    [DigitChar(n / 10), DigitChar(n % 10)]
  }

  function Spaces(k: nat): (text: string)
    ensures |text| == k && forall i :: 0 <= i < k ==> text[i] == ' '
  {
    seq(k, _ => ' ')
  }

  function HourText(hour: nat, short: bool): string
    requires hour < 100 && (short ==> hour < 10)
  {
    if short then [DigitChar(hour)] else Two(hour)
  }

  function TimeText(hour: nat, minute: nat, short: bool): string
    requires hour < 100 && minute < 100 && (short ==> hour < 10)
  {
    HourText(hour, short) + ":" + Two(minute)
  }

  function DateText(day: nat, month: nat, year: nat): string
    requires day < 100 && month < 100 && year < 10000
  {
    Two(day) + "." + Two(month) + "." + Two(year / 100) + Two(year % 100)
  }

  /** The spellings of a date: k more spaces than one before the time, and an hour below ten with one digit or two. */
  function Spelling(t: DateTime, k: nat, short: bool): string
    requires ValidDate(t) && t.year < 10000 && (short ==> t.hour < 10)
  {
    DateText(t.day, t.month, t.year) + Spaces(k + 1) + TimeText(t.hour, t.minute, short)
  }

  /** Format("02.01.2006 15:04"); years above 9999 do not occur in a protobuf timestamp. */
  function Format(t: DateTime): string
    requires ValidDate(t) && t.year < 10000
  {
    Spelling(t, 0, false)
  }

  // ---------- Parsing ----------

  /** A number of exactly two digits, and the text after it. */
  function ReadTwo(text: string): (r: Option<(nat, string)>)
    ensures r.Some? ==> r.value.0 < 100
  {
    if |text| >= 2 && IsDigit(text[0]) && IsDigit(text[1])
    then Some((DigitOf(text[0]) * 10 + DigitOf(text[1]), text[2..]))
    else None
  }

  /** The hour field "15", which takes one digit when no second one follows. */
  function ReadHour(text: string): Option<(nat, string)> {
    if |text| >= 1 && IsDigit(text[0]) then
      if |text| >= 2 && IsDigit(text[1]) then ReadTwo(text) else Some((DigitOf(text[0]), text[1..]))
    else None
  }

  function Skip(c: char, text: string): Option<string> {
    if |text| >= 1 && text[0] == c then Some(text[1..]) else None
  }

  function CutSpace(text: string): string {
    if |text| >= 1 && text[0] == ' ' then CutSpace(text[1..]) else text
  }

  /** The space of the layout matches one or more spaces. */
  function SkipSpace(text: string): Option<string> {
    if |text| >= 1 && text[0] == ' ' then Some(CutSpace(text)) else None
  }

  function ReadDate(text: string): Option<((nat, nat, nat), string)> {
    match ReadTwo(text)
    case None => None
    case Some((day, s1)) =>
      match Skip('.', s1)
      case None => None
      case Some(s2) =>
        match ReadTwo(s2)
        case None => None
        case Some((month, s3)) =>
          match Skip('.', s3)
          case None => None
          case Some(s4) =>
            match ReadTwo(s4)
            case None => None
            case Some((century, s5)) =>
              match ReadTwo(s5)
              case None => None
              case Some((year, s6)) => Some(((day, month, century * 100 + year), s6))
  }

  function ReadTime(text: string): Option<((nat, nat), string)> {
    match ReadHour(text)
    case None => None
    case Some((hour, s1)) =>
      match Skip(':', s1)
      case None => None
      case Some(s2) =>
        match ReadTwo(s2)
        case None => None
        case Some((minute, s3)) => Some(((hour, minute), s3))
  }

  /** time.Parse with the layout "02.01.2006 15:04". */
  function Parse(text: string): (r: Option<DateTime>)
    ensures r.Some? ==> ValidDate(r.value) && r.value.year < 10000 && ToMinute(r.value) == r.value
  {
    match ReadDate(text)
    case None => None
    case Some(((day, month, year), s1)) =>
      match SkipSpace(s1)
      case None => None
      case Some(s2) =>
        match ReadTime(s2)
        case None => None
        case Some(((hour, minute), s3)) =>
          var t := DateTime(year, month, day, hour, minute, 0, 0);
          if s3 == [] && year < 10000 && ValidDate(t) then Some(t) else None
  }

  // ---------- Reading back what was printed ----------

  lemma TwoRoundTrip(n: nat, rest: string)
    requires n < 100
    ensures ReadTwo(Two(n) + rest) == Some((n, rest))
    ensures ReadHour(Two(n) + rest) == Some((n, rest))
  {
    var text := Two(n) + rest;
    assert text[0] == DigitChar(n / 10) && text[1] == DigitChar(n % 10);
    assert text[2..] == rest;
  }

  lemma DateRoundTrip(day: nat, month: nat, year: nat, rest: string)
    requires day < 100 && month < 100 && year < 10000
    ensures ReadDate(DateText(day, month, year) + rest) == Some(((day, month, year), rest))
  {
    var s6 := rest;
    var s5 := Two(year % 100) + s6;
    var s4 := Two(year / 100) + s5;
    var s3 := "." + s4;
    var s2 := Two(month) + s3;
    var s1 := "." + s2;
    assert DateText(day, month, year) + rest == Two(day) + s1;
    TwoRoundTrip(day, s1);
    assert s1[1..] == s2;
    TwoRoundTrip(month, s3);
    assert s3[1..] == s4;
    TwoRoundTrip(year / 100, s5);
    TwoRoundTrip(year % 100, s6);
  }

  lemma TimeRoundTrip(hour: nat, minute: nat)
    requires hour < 100 && minute < 100
    ensures ReadTime(Two(hour) + ":" + Two(minute)) == Some(((hour, minute), ""))
  {
    var s2 := Two(minute) + "";
    var s1 := ":" + s2;
    assert Two(hour) + ":" + Two(minute) == Two(hour) + s1;
    TwoRoundTrip(hour, s1);
    assert s1[1..] == s2;
    TwoRoundTrip(minute, "");
  }

  // ---------- Which texts are read ----------

  lemma ReadTwoIs(text: string)
    ensures ReadTwo(text).Some? ==> text == Two(ReadTwo(text).value.0) + ReadTwo(text).value.1
  {
    if ReadTwo(text).Some? {
      assert text == [text[0], text[1]] + text[2..];
    }
  }

  lemma SkipIs(c: char, text: string)
    ensures Skip(c, text).Some? ==> text == [c] + Skip(c, text).value
  {
  }

  lemma ReadDateIs(text: string)
    ensures ReadDate(text).Some? ==>
              var ((day, month, year), rest) := ReadDate(text).value;
              day < 100 && month < 100 && year < 10000 && text == DateText(day, month, year) + rest
  {
    hide Two, ReadTwo, Skip;
    if ReadDate(text).Some? {
      var (day, s1) := ReadTwo(text).value;
      ReadTwoIs(text);
      var s2 := Skip('.', s1).value;
      SkipIs('.', s1);
      var (month, s3) := ReadTwo(s2).value;
      ReadTwoIs(s2);
      var s4 := Skip('.', s3).value;
      SkipIs('.', s3);
      var (century, s5) := ReadTwo(s4).value;
      ReadTwoIs(s4);
      var (year, s6) := ReadTwo(s5).value;
      ReadTwoIs(s5);
      assert (century * 100 + year) / 100 == century && (century * 100 + year) % 100 == year;
      assert text == Two(day) + ("." + (Two(month) + ("." + (Two(century) + (Two(year) + s6)))));
    }
  }

  lemma {:induction false} CutSpaceIs(text: string) returns (k: nat)
    ensures text == Spaces(k) + CutSpace(text)
  {
    if |text| >= 1 && text[0] == ' ' {
      var n := CutSpaceIs(text[1..]);
      k := n + 1;
      assert Spaces(k) == [' '] + Spaces(n);
      assert text == [' '] + text[1..];
    } else {
      k := 0;
    }
  }

  lemma {:induction false} CutSpaceCuts(k: nat, text: string)
    requires text != "" && text[0] != ' '
    ensures CutSpace(Spaces(k) + text) == text
  {
    var all := Spaces(k) + text;
    if k == 0 {
      assert all == text;
    } else {
      CutSpaceCuts(k - 1, text);
      assert all[1..] == Spaces(k - 1) + text;
    }
  }

  lemma ReadTimeIs(text: string) returns (short: bool)
    ensures ReadTime(text).Some? ==>
              var ((hour, minute), rest) := ReadTime(text).value;
              hour < 100 && minute < 100 && (short ==> hour < 10) && text == TimeText(hour, minute, short) + rest
  {
    short := |text| < 2 || !IsDigit(text[1]);
    if ReadTime(text).Some? {
      var (hour, s1) := ReadHour(text).value;
      ReadTwoIs(text);
      assert text == HourText(hour, short) + s1;
      var s2 := Skip(':', s1).value;
      SkipIs(':', s1);
      ReadTwoIs(s2);
    }
  }

  lemma ReadTimeReads(hour: nat, minute: nat, short: bool)
    requires hour < 100 && minute < 100 && (short ==> hour < 10)
    ensures ReadTime(TimeText(hour, minute, short)) == Some(((hour, minute), ""))
  {
    if short {
      var text := TimeText(hour, minute, short);
      assert text[1] == ':';
      assert text[1..] == ":" + Two(minute);
      assert text[1..][1..] == Two(minute) + "";
      TwoRoundTrip(minute, "");
    } else {
      TimeRoundTrip(hour, minute);
    }
  }

  lemma TimeStartsWithDigit(hour: nat, minute: nat, short: bool)
    requires hour < 100 && minute < 100 && (short ==> hour < 10)
    ensures TimeText(hour, minute, short) != "" && IsDigit(TimeText(hour, minute, short)[0])
  {
  }

  lemma ReadTimeStart(text: string)
    ensures ReadTime(text).Some? ==> text != "" && IsDigit(text[0])
  {
  }

  lemma SpellingParses(t: DateTime, k: nat, short: bool)
    requires ValidDate(t) && t.year < 10000 && ToMinute(t) == t && (short ==> t.hour < 10)
    ensures Parse(Spelling(t, k, short)) == Some(t)
  {
    hide ReadTime, ReadDate, Two, CutSpace;
    var time := TimeText(t.hour, t.minute, short);
    var rest := Spaces(k + 1) + time;
    assert Spelling(t, k, short) == DateText(t.day, t.month, t.year) + rest;
    DateRoundTrip(t.day, t.month, t.year, rest);
    assert time[0] != ' ' by {
      TimeStartsWithDigit(t.hour, t.minute, short);
    }
    CutSpaceCuts(k + 1, time);
    ReadTimeReads(t.hour, t.minute, short);
  }

  lemma ParsedIsSpelled(text: string)
    requires Parse(text).Some?
    ensures exists k: nat, short: bool ::
        (short ==> Parse(text).value.hour < 10) && text == Spelling(Parse(text).value, k, short)
  {
    hide ReadTime, ReadDate, Two, CutSpace, TimeText, DateText;
    var t := Parse(text).value;
    var (_, s1) := ReadDate(text).value;
    ReadDateIs(text);
    var k := CutSpaceIs(s1);
    var s2 := CutSpace(s1);
    var short := ReadTimeIs(s2);
    assert k > 0 by {
      assert s1[0] == ' ';
      if k == 0 {
        assert s1 == s2;
        ReadTimeStart(s2);
      }
    }
    assert s2 == TimeText(t.hour, t.minute, short);
    assert text == Spelling(t, k - 1, short);
  }

  /**
   * A text reads as a date exactly when it spells it: two digits each for day, month and minute, four
   * for the year, one or more spaces, and an hour of two digits or, below ten, one.
   */
  lemma ParseIff(text: string, t: DateTime)
    ensures Parse(text) == Some(t)
            <==> && ValidDate(t) && t.year < 10000 && ToMinute(t) == t
                 && exists k: nat, short: bool :: (short ==> t.hour < 10) && text == Spelling(t, k, short)
  {
    hide Spelling, ValidDate;
    if Parse(text) == Some(t) {
      ParsedIsSpelled(text);
    }
    if ValidDate(t) && t.year < 10000 && ToMinute(t) == t
       && exists k: nat, short: bool :: (short ==> t.hour < 10) && text == Spelling(t, k, short) {
      var k: nat, short: bool :| (short ==> t.hour < 10) && text == Spelling(t, k, short);
      SpellingParses(t, k, short);
    }
  }

  lemma TwoIs(n: nat, tens: char, ones: char)
    requires n < 100 && tens as int == '0' as int + n / 10 && ones as int == '0' as int + n % 10
    ensures Two(n) == [tens, ones]
  {
  }

  lemma ExampleText()
    ensures DateText(25, 9, 2026) + Spaces(1) + TimeText(14, 30, false) == "25.09.2026 14:30"
  {
    hide Two;
    TwoIs(25, '2', '5');
    TwoIs(9, '0', '9');
    TwoIs(20, '2', '0');
    TwoIs(26, '2', '6');
    TwoIs(14, '1', '4');
    TwoIs(30, '3', '0');
  }

  /** The example the bot itself gives: the day comes first. */
  lemma ExampleIsRead()
    ensures Parse("25.09.2026 14:30") == Some(DateTime(2026, 9, 25, 14, 30, 0, 0))
  {
    hide Parse, ReadDate, ReadTime;
    var t := DateTime(2026, 9, 25, 14, 30, 0, 0);
    SpellingParses(t, 0, false);
    hide IsLeap, DaysIn;
    assert DateText(25, 9, 2026) + Spaces(1) + TimeText(14, 30, false) == "25.09.2026 14:30" by {
      ExampleText();
    }
  }

  /** A printed date reads back as the same instant cut to the minute. */
  lemma ParseFormat(t: DateTime)
    requires ValidDate(t) && t.year < 10000
    ensures Parse(Format(t)) == Some(ToMinute(t))
  {
    hide Parse;
    SpellingParses(ToMinute(t), 0, false);
    assert Spelling(t, 0, false) == Spelling(ToMinute(t), 0, false);
  }
}

