/** The calendar helpers shared by both revisions of the coordination book:
    pad, ymd, the Monday-first month grid and the month navigation buttons.
    Dates follow JavaScript's Date: the proleptic Gregorian calendar, with a
    two-digit year 0..99 given to the Date constructor read as 1900..1999. */
module Calendar {
  import opened Common

  /** A day as the grid holds it: new Date(year, month - 1, day). */
  datatype CalDate = CalDate(year: int, month: int, day: int)

  /** String(n).padStart(2, "0") */
  function Pad(n: int): (s: string)
    ensures |s| >= 2
    ensures 0 <= n < 10 ==> s == ['0', DigitChar(n)]
    ensures n >= 10 || n <= -10 ==> s == IntToString(n)
    ensures 0 <= n < 100 ==> |s| == 2
  {
    var t := IntToString(n);
    if 10 <= n < 100 then
      assert Power10(1) == 10 && Power10(2) == 100;
      NatToStringLength(n, 2);
      t
    else if |t| >= 2 then t else "0" + t
  }

  /** Reading a padded non-negative number back gives the number. */
  lemma PadRoundTrip(n: nat)
    ensures DigitsValue(Pad(n)) == n
  {
    NatToStringRoundTrip(n);
    if n < 10 {
      var s := Pad(n);
      assert s[..|s| - 1] == "0";
      assert DigitsValue("0") == DigitsValue("0"[..0]) * 10 + 0;
    }
  }

  /** The year the Date constructor uses: two-digit years mean 1900..1999. */
  function JsYear(year: int): (y: int)
    ensures 0 <= year <= 99 ==> y == 1900 + year
    ensures !(0 <= year <= 99) ==> y == year
  {
    if 0 <= year <= 99 then 1900 + year else year
  }

  predicate IsLeap(y: int)
  {
    (y % 4 == 0 && y % 100 != 0) || y % 400 == 0
  }

  /** new Date(year, month, 0).getDate(): the last day of the month. */
  function DaysInMonth(y: int, m: int): (d: int)
    requires 1 <= m <= 12
    ensures 28 <= d <= 31
  {
    if m == 2 then (if IsLeap(y) then 29 else 28)
    else if m == 4 || m == 6 || m == 9 || m == 11 then 30
    else 31
  }

  /** Days in the months of year y before month m (m == 13: the whole year). */
  function DaysBeforeMonth(y: int, m: int): int
    requires 1 <= m <= 13
  {
    [0, 31, 59, 90, 120, 151, 181, 212, 243, 273, 304, 334, 365][m - 1] + (if m > 2 && IsLeap(y) then 1 else 0)
  }

  lemma MonthStep(y: int, m: int)
    requires 1 <= m <= 12
    ensures DaysBeforeMonth(y, m + 1) == DaysBeforeMonth(y, m) + DaysInMonth(y, m)
  {
  }

  /** Days from 0001-01-01 to January 1st of year y (negative before year 1). */
  function DaysBeforeYear(y: int): int
  {
    365 * (y - 1) + (y - 1) / 4 - (y - 1) / 100 + (y - 1) / 400
  }

  /** Days in year y, 365 or 366. */
  lemma YearLength(y: int)
    ensures DaysBeforeYear(y + 1) - DaysBeforeYear(y) == if IsLeap(y) then 366 else 365
  {
    DivSucc4(y);
    DivSucc100(y);
    DivSucc400(y);
    ModChain(y);
    var d4, d100, d400 := y / 4 - (y - 1) / 4, y / 100 - (y - 1) / 100, y / 400 - (y - 1) / 400;
    assert DaysBeforeYear(y + 1) - DaysBeforeYear(y) == 365 + d4 - d100 + d400;
  }

  /** A multiple of 400 is one of 100, and a multiple of 100 one of 4. */
  lemma ModChain(y: int)
    ensures y % 400 == 0 ==> y % 100 == 0
    ensures y % 100 == 0 ==> y % 4 == 0
  {
  }

  // The quotient by 4, 100 or 400 goes up by one exactly at a multiple.
  lemma DivSucc4(y: int) ensures y / 4 - (y - 1) / 4 == if y % 4 == 0 then 1 else 0 { }
  lemma DivSucc100(y: int) ensures y / 100 - (y - 1) / 100 == if y % 100 == 0 then 1 else 0 { }
  lemma DivSucc400(y: int) ensures y / 400 - (y - 1) / 400 == if y % 400 == 0 then 1 else 0 { }

  /** The day number of a date, 0001-01-01 being day 1. */
  function DayNumber(y: int, m: int, d: int): int
    requires 1 <= m <= 12
  {
    DaysBeforeYear(y) + DaysBeforeMonth(y, m) + d
  }

  /** Date.prototype.getDay: 0 for Sunday through 6 for Saturday. */
  function Weekday(y: int, m: int, d: int): (w: int)
    requires 1 <= m <= 12
    ensures 0 <= w < 7
  {
    DayNumber(y, m, d) % 7
  }

  /** 0001-01-01 was a Monday and 1970-01-01 a Thursday. */
  lemma WeekdayAnchors()
    ensures Weekday(1, 1, 1) == 1
    ensures Weekday(1970, 1, 1) == 4
  {
  }

  /** (first.getDay() + 6) % 7: the number of blank cells before day 1 in a Monday-first week. */
  function Lead(year: int, month: int): (n: int)
    requires 1 <= month <= 12
    ensures 0 <= n < 7
  {
    (Weekday(JsYear(year), month, 1) + 6) % 7
  }

  /** monthGrid(year, month): leading nulls, the days of the month, and nulls up to a whole week. */
  method MonthGrid(year: int, month: int) returns (cells: seq<Option<CalDate>>)
    requires 1 <= month <= 12
    ensures var lead, days := Lead(year, month), DaysInMonth(JsYear(year), month);
      && |cells| % 7 == 0
      && lead + days <= |cells| < lead + days + 7
      && (forall i :: 0 <= i < lead ==> cells[i] == None)
      && (forall i :: lead <= i < lead + days ==> cells[i] == Some(CalDate(JsYear(year), month, i - lead + 1)))
      && (forall i :: lead + days <= i < |cells| ==> cells[i] == None)
  {
    var start := Lead(year, month);
    var days := DaysInMonth(JsYear(year), month);
    cells := [];
    var i := 0;
    while i < start
      invariant 0 <= i <= start && |cells| == i
      invariant forall j :: 0 <= j < i ==> cells[j] == None
    {
      cells := cells + [None];
      i := i + 1;
    }
    i := 0;
    while i < days
      invariant 0 <= i <= days && |cells| == start + i
      invariant forall j :: 0 <= j < start ==> cells[j] == None
      invariant forall j :: start <= j < start + i ==> cells[j] == Some(CalDate(JsYear(year), month, j - start + 1))
    {
      cells := cells + [Some(CalDate(JsYear(year), month, i + 1))];
      i := i + 1;
    }
    ghost var filled := cells;
    cells := PadToWeek(cells);
    forall j | 0 <= j < |filled| ensures cells[j] == filled[j] {
      assert cells[..|filled|][j] == filled[j];
    }
  }

  /** The trailing loop of monthGrid: nulls until the length is a multiple of seven. */
  method PadToWeek(cells0: seq<Option<CalDate>>) returns (cells: seq<Option<CalDate>>)
    ensures |cells| % 7 == 0 && |cells0| <= |cells| < |cells0| + 7
    ensures cells[..|cells0|] == cells0
    ensures forall j :: |cells0| <= j < |cells| ==> cells[j] == None
  {
    cells := cells0;
    var need := (7 - |cells0| % 7) % 7;
    PadTarget(|cells0|);
    while |cells| % 7 != 0
      invariant |cells0| <= |cells| <= |cells0| + need
      invariant cells[..|cells0|] == cells0
      invariant forall j :: |cells0| <= j < |cells| ==> cells[j] == None
      decreases |cells0| + need - |cells|
    {
      PadStep(|cells0|, |cells|);
      cells := cells + [None];
    }
  }

  /** Fewer than seven cells make a length a multiple of seven. */
  lemma PadTarget(total: nat)
    ensures (7 - total % 7) % 7 < 7 && (total + (7 - total % 7) % 7) % 7 == 0
  {
  }

  /** Short of a multiple of seven, the padding is not complete yet. */
  lemma PadStep(total: nat, len: nat)
    requires total <= len <= total + (7 - total % 7) % 7 && len % 7 != 0
    ensures len + 1 <= total + (7 - total % 7) % 7
  {
    PadTarget(total);
  }

  /** The "next month" button: December rolls over to January of the next year. */
  function NextMonth(year: int, month: int): (r: (int, int))
    requires 1 <= month <= 12
    ensures 1 <= r.1 <= 12
  {
    if month == 12 then (year + 1, 1) else (year, month + 1)
  }

  /** The "previous month" button: January rolls back to December of the year before. */
  function PrevMonth(year: int, month: int): (r: (int, int))
    requires 1 <= month <= 12
    ensures 1 <= r.1 <= 12
  {
    if month == 1 then (year - 1, 12) else (year, month - 1)
  }

  /** The two buttons undo each other. */
  lemma NavigationInverse(year: int, month: int)
    requires 1 <= month <= 12
    ensures var n := NextMonth(year, month); PrevMonth(n.0, n.1) == (year, month)
    ensures var p := PrevMonth(year, month); NextMonth(p.0, p.1) == (year, month)
  {
  }

  /** Day 1 of the following month comes right after the last day of this one. */
  lemma NextMonthStart(y: int, m: int)
    requires 1 <= m <= 12
    ensures m < 12 ==> DayNumber(y, m + 1, 1) == DayNumber(y, m, 1) + DaysInMonth(y, m)
    ensures m == 12 ==> DayNumber(y + 1, 1, 1) == DayNumber(y, m, 1) + DaysInMonth(y, m)
  {
    MonthStep(y, m);
    if m == 12 {
      YearLength(y);
    }
  }

  /** Consecutive grids line up: the next month's leading blanks continue this month's last week. */
  lemma GridsContinue(year: int, month: int)
    requires 1 <= month <= 12
    requires year != 99 && year != -1
    ensures var n := NextMonth(year, month);
            Lead(n.0, n.1) == (Lead(year, month) + DaysInMonth(JsYear(year), month)) % 7
  {
    var n := NextMonth(year, month);
    var y := JsYear(year);
    var days := DaysInMonth(y, month);
    NextMonthStart(y, month);
    if month == 12 {
      assert JsYear(n.0) == y + 1;
    }
    var dn := DayNumber(y, month, 1);
    assert Weekday(JsYear(n.0), n.1, 1) == (dn + days) % 7;
    LeadShift(dn, days);
  }

  lemma LeadShift(dn: int, days: int)
    ensures ((dn + days) % 7 + 6) % 7 == ((dn % 7 + 6) % 7 + days) % 7
  {
    var q := dn / 7;
    assert dn == 7 * q + dn % 7;
    assert (dn + days) % 7 == (dn % 7 + days) % 7;
  }

  /** ymd(d): the year's decimal text, then "-MM-DD" for a month and day below 100. */
  function Ymd(d: CalDate): (s: string)
    ensures 0 <= d.month < 100 && 0 <= d.day < 100 ==>
      && |s| == |IntToString(d.year)| + 6
      && s[..|s| - 6] == IntToString(d.year)
      && s[|s| - 6] == '-' && s[|s| - 3] == '-'
  {
    IntToString(d.year) + "-" + Pad(d.month) + "-" + Pad(d.day)
  }

  lemma {:induction false} NatToStringLength(n: nat, k: nat)
    requires k >= 1
    requires Power10(k - 1) <= n < Power10(k)
    ensures |NatToString(n)| == k
    decreases k
  {
    if k == 1 {
      assert Power10(1) == 10;
    } else {
      PowerStep(k - 1);
      PowerStep(k - 2);
      PowerAtLeast(k - 2);
      NatToStringLength(n / 10, k - 1);
    }
  }

  function Power10(k: nat): nat
  {
    if k == 0 then 1 else 10 * Power10(k - 1)
  }

  lemma PowerStep(k: nat)
    ensures Power10(k + 1) == 10 * Power10(k)
  {
  }

  lemma {:induction false} PowerAtLeast(k: nat)
    ensures Power10(k) >= 1
  {
    if k > 0 { PowerAtLeast(k - 1); }
  }

  /** For a four-digit year, ymd is "YYYY-MM-DD" and each field reads back. */
  lemma YmdRoundTrip(d: CalDate)
    requires 1000 <= d.year <= 9999 && 1 <= d.month <= 12 && 1 <= d.day <= 31
    ensures var s := Ymd(d);
      && |s| == 10 && s[4] == '-' && s[7] == '-'
      && DigitsValue(s[..4]) == d.year
      && DigitsValue(s[5..7]) == d.month
      && DigitsValue(s[8..]) == d.day
  {
    var s := Ymd(d);
    assert Power10(3) == 1000 && Power10(4) == 10000;
    NatToStringLength(d.year, 4);
    NatToStringRoundTrip(d.year);
    PadRoundTrip(d.month);
    PadRoundTrip(d.day);
    var y, m, dd := IntToString(d.year), Pad(d.month), Pad(d.day);
    assert |m| == 2 by { if d.month >= 10 { NatToStringLength(d.month, 2); } }
    assert |dd| == 2 by { if d.day >= 10 { NatToStringLength(d.day, 2); } }
    assert s == y + "-" + m + "-" + dd;
    assert s[..4] == y;
    assert s[5..7] == m;
    assert s[8..] == dd;
  }

  /** Distinct dates with four-digit years get distinct keys in the book. */
  lemma YmdInjective(d1: CalDate, d2: CalDate)
    requires 1000 <= d1.year <= 9999 && 1 <= d1.month <= 12 && 1 <= d1.day <= 31
    requires 1000 <= d2.year <= 9999 && 1 <= d2.month <= 12 && 1 <= d2.day <= 31
    requires Ymd(d1) == Ymd(d2)
    ensures d1 == d2
  {
    YmdRoundTrip(d1);
    YmdRoundTrip(d2);
  }
}
