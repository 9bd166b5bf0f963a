/** Names of the daily history partitions: printed from a UTC day and parsed back by a pattern. */
module PartitionNames {
  import opened Wrappers
  import opened Calendar
  import Decimal

  const PARENT := "vessel_positions_history"
  const STEM := PARENT + "_y"

  /** `utcDayStart`: an instant's calendar fields, put through `Date.UTC` again. */
  function UtcDay(instant: int): int {
    var day := DayOf(instant);
    DateUTC(YearOf(day), MonthOf(day), DateOf(day))
  }

  function PartitionName(day: int): string {
    STEM + DayLabel(day)
  }

  function DayLabel(day: int): string {
    Decimal.PrintInt(YearOf(day)) + "m" + Decimal.Pad2(MonthOf(day) + 1) + "d" + Decimal.Pad2(DateOf(day))
  }

  /** The pattern `^vessel_positions_history_y(\d{4})m(\d{2})d(\d{2})$`. */
  predicate MatchesPattern(name: string) {
    STEM <= name && LabelMatches(name[|STEM|..])
  }

  predicate LabelMatches(text: string) {
    && |text| == 10
    && Decimal.AllDigits(text[..4])
    && text[4] == 'm'
    && Decimal.AllDigits(text[5..7])
    && text[7] == 'd'
    && Decimal.AllDigits(text[8..])
  }

  /** The three captured numbers. */
  datatype Captured = Captured(year: nat, month: nat, date: nat)

  function Capture(text: string): Captured
    requires LabelMatches(text)
  {
    Captured(Decimal.Parse(text[..4]), Decimal.Parse(text[5..7]), Decimal.Parse(text[8..]))
  }

  /** Make the day and insist that its fields are the captured numbers. */
  function DayOfCaptured(c: Captured): Option<int> {
    var day := DateUTC(c.year, c.month - 1, c.date);
    if YearOf(day) != c.year || MonthOf(day) != c.month - 1 || DateOf(day) != c.date then None
    else Some(day)
  }

  /** `parseHistoryPartitionDay`. */
  function ParsePartitionDay(name: string): Option<int> {
    if MatchesPattern(name) then DayOfCaptured(Capture(name[|STEM|..])) else None
  }

  /** `utcDayStart` is the day of the instant except in the years 0 to 99, which it moves to 1900-1999. */
  lemma UtcDayIsDayOf(instant: int)
    ensures UtcDay(instant) == DayOf(instant) <==> !(0 <= YearOf(DayOf(instant)) <= 99)
    ensures 0 <= YearOf(DayOf(instant)) <= 99 ==> YearOf(UtcDay(instant)) == 1900 + YearOf(DayOf(instant))
  {
    hide MakeDay, YearOf, MonthOf, DateOf, DayOf;
    var day := DayOf(instant);
    MakeDayOfFields(day);
    if 0 <= YearOf(day) <= 99 {
      YearOfMovedDate(YearOf(day), MonthOf(day), DateOf(day), 1900 + YearOf(day));
    }
  }

  /** The captured numbers name a day exactly when the date exists and the year has three digits or more. */
  lemma CapturedDayExists(c: Captured)
    ensures DayOfCaptured(c).Some? <==> c.year >= 100 && ExistingDate(c.year, c.month - 1, c.date)
    ensures DayOfCaptured(c).Some? ==>
      var day := DayOfCaptured(c).value;
      YearOf(day) == c.year && MonthOf(day) == c.month - 1 && DateOf(day) == c.date
  {
    hide MakeDay, YearOf, MonthOf, DateOf, ExistingDate;
    var day := DateUTC(c.year, c.month - 1, c.date);
    if c.year >= 100 {
      FieldsAgreeExactlyOnExistingDates(c.year, c.month - 1, c.date);
    } else if YearOf(day) == c.year && MonthOf(day) == c.month - 1 && DateOf(day) == c.date {
      MakeDayOfFields(day);
      YearOfMovedDate(c.year, c.month - 1, c.date, 1900 + c.year);
      assert false;
    }
  }

  lemma LabelParts(y: string, m: string, d: string)
    requires |m| == 2 && |d| == 2
    requires Decimal.AllDigits(m) && Decimal.AllDigits(d)
    ensures
      var text := y + "m" + m + "d" + d;
      && (LabelMatches(text) <==> |y| == 4 && Decimal.AllDigits(y))
      && (|y| == 4 ==> text[..4] == y && text[5..7] == m && text[8..] == d)
  {
    var text := y + "m" + m + "d" + d;
    assert |text| == |y| + 6;
    if |y| == 4 {
      assert text[..4] == y && text[5..7] == m && text[8..] == d;
    }
  }

  /** A printed text is accepted exactly for the years of four digits, and captures the day's fields. */
  lemma PrintedLabel(day: int)
    ensures LabelMatches(DayLabel(day)) <==> 1000 <= YearOf(day) <= 9999
    ensures LabelMatches(DayLabel(day)) ==>
      Capture(DayLabel(day)) == Captured(YearOf(day), MonthOf(day) + 1, DateOf(day))
  {
    var year := YearOf(day);
    var y := Decimal.PrintInt(year);
    MakeDayOfFields(day);
    DateFits(year, MonthOf(day), DateOf(day), year);
    Decimal.ParsePad2(MonthOf(day) + 1);
    Decimal.ParsePad2(DateOf(day));
    LabelParts(y, Decimal.Pad2(MonthOf(day) + 1), Decimal.Pad2(DateOf(day)));
    if year < 0 {
      assert y[0] == '-';
    } else {
      Decimal.PrintLength(year);
      Decimal.ParsePrint(year);
    }
  }

  lemma StemSplits(text: string)
    ensures STEM <= STEM + text && (STEM + text)[|STEM|..] == text
  {
  }

  /** The calendar round trip holds for exactly the days of the years 1000 to 9999. */
  lemma ParseInvertsPrint(day: int)
    ensures ParsePartitionDay(PartitionName(day)) == if 1000 <= YearOf(day) <= 9999 then Some(day) else None
  {
    hide MakeDay, YearOf, MonthOf, DateOf, ExistingDate, DayLabel, LabelMatches, Capture;
    StemSplits(DayLabel(day));
    PrintedLabel(day);
    if 1000 <= YearOf(day) <= 9999 {
      MakeDayOfFields(day);
      CapturedDayExists(Captured(YearOf(day), MonthOf(day) + 1, DateOf(day)));
    }
  }

  /** Accepted names are exactly the matching ones whose date exists in a year from 100 on. */
  lemma ParseAcceptsExistingDates(name: string)
    ensures ParsePartitionDay(name).Some? <==>
      && MatchesPattern(name)
      && var c := Capture(name[|STEM|..]); c.year >= 100 && ExistingDate(c.year, c.month - 1, c.date)
  {
    if MatchesPattern(name) { CapturedDayExists(Capture(name[|STEM|..])); }
  }

  /** Day or month 00, month 13 and rollovers such as February 30 are all rejected. */
  lemma RolloversRejected(c: Captured)
    ensures c.month == 0 || c.month > 12 || c.date == 0 || c.date > 31 ==> DayOfCaptured(c) == None
    ensures c.month == 2 && c.date > (if LeapYear(c.year) then 29 else 28) ==> DayOfCaptured(c) == None
  {
    hide *;
    CapturedDayExists(c);
    FieldsOutOfRange(c);
  }

  lemma FieldsOutOfRange(c: Captured)
    ensures c.month == 0 || c.month > 12 || c.date == 0 || c.date > 31 ==> !ExistingDate(c.year, c.month - 1, c.date)
    ensures c.month == 2 && c.date > (if LeapYear(c.year) then 29 else 28) ==> !ExistingDate(c.year, c.month - 1, c.date)
  {
    hide LeapYear;
  }

  /** An accepted name reprints to itself exactly when its year is at least 1000. */
  lemma PrintInvertsParse(name: string)
    requires ParsePartitionDay(name).Some?
    ensures
      var day := ParsePartitionDay(name).value;
      && 100 <= YearOf(day) <= 9999
      && (PartitionName(day) == name <==> YearOf(day) >= 1000)
  {
    hide MakeDay, YearOf, MonthOf, DateOf, ExistingDate, DateUTC;
    var text := name[|STEM|..];
    var day := ParsePartitionDay(name).value;
    CapturedDayExists(Capture(text));
    assert name == STEM + text;
    LabelReprints(text, day);
    StemSplits(DayLabel(day));
    assert PartitionName(day) == STEM + DayLabel(day);
  }

  lemma LabelReprints(text: string, day: int)
    requires LabelMatches(text)
    requires Capture(text).year == YearOf(day) && Capture(text).month == MonthOf(day) + 1 && Capture(text).date == DateOf(day)
    ensures YearOf(day) <= 9999
    ensures DayLabel(day) == text <==> YearOf(day) >= 1000
  {
    hide YearOf, MonthOf, DateOf;
    Decimal.Parse4(text[..4]);
    Decimal.Pad2Parse(text[5..7]);
    Decimal.Pad2Parse(text[8..]);
    assert text == text[..4] + "m" + text[5..7] + "d" + text[8..];
    if YearOf(day) < 1000 { PrintedLabel(day); }
  }

  /** Distinct days of the years 1000 to 9999 have distinct names, also from every other day's name. */
  lemma NamesAreInjective(a: int, b: int)
    requires PartitionName(a) == PartitionName(b)
    requires 1000 <= YearOf(a) <= 9999
    ensures a == b
  {
    ParseInvertsPrint(a);
    ParseInvertsPrint(b);
  }

  /** The first day's name, character by character. */
  lemma EpochName()
    ensures PartitionName(0) == "vessel_positions_history_y1970m01d01"
  {
    EpochDate();
    hide YearOf, MonthOf, DateOf, Decimal.Print;
    FirstNumbers();
  }

  lemma FirstNumbers()
    ensures Decimal.Print(1970) == "1970" && Decimal.Print(1) == "1"
  {
    assert Decimal.Print(1) == "1" && Decimal.Print(19) == "19";
    assert Decimal.Print(197) == Decimal.Print(19) + "7";
    assert Decimal.Print(1970) == Decimal.Print(197) + "0";
  }
}
