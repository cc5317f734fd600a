/**
 * src/components/booking/DatePicker.tsx: the ISO date helpers, the month
 * arithmetic behind the calendar panel, the Monday-first grid of day cells,
 * and the picker's own state (panel open, month shown).
 */
module DatePicker {
  import opened Wrappers
  import opened JsText
  import opened Calendar

  /** `pad2`: `String(n).padStart(2, "0")`. */
  function Pad2(n: int): (r: string)
    ensures |r| >= 2 && (n >= 0 ==> AllDigits(r))
  {
    PadStart2(IntToDecimal(n))
  }

  /** `toISODate`: `YYYY-MM-DD` from the year, `getMonth() + 1` and the day. */
  function ToISODate(d: Date): string {
    IntToDecimal(d.year) + "-" + Pad2(d.month) + "-" + Pad2(d.day)
  }

  /** The pattern `^(\d{4})-(\d{2})-(\d{2})$`. */
  predicate IsIsoShape(s: string) {
    && |s| == 10
    && AllDigits(s[..4]) && s[4] == '-'
    && AllDigits(s[5..7]) && s[7] == '-'
    && AllDigits(s[8..])
  }

  /**
   * `parseISODate`: null unless the whole string has the ISO shape; otherwise
   * `new Date(y, m - 1, d)`, which rolls an out-of-range month or day over
   * into the neighbouring months and never yields an invalid date here.
   */
  function ParseISODate(s: string): (r: Option<Date>)
    ensures r.None? <==> !IsIsoShape(s)
    ensures r.Some? ==> ValidDate(r.value)
    ensures r.Some? ==> r.value == NewDate(DecimalValue(s[..4]), DecimalValue(s[5..7]) - 1, DecimalValue(s[8..]))
  {
    if IsIsoShape(s) then Some(NewDate(DecimalValue(s[..4]), DecimalValue(s[5..7]) - 1, DecimalValue(s[8..])))
    else None
  }

  /** A year from 1000 to 9999 is spelled with exactly four digits. */
  lemma FourDigitYear(y: int)
    requires 1000 <= y <= 9999
    ensures |IntToDecimal(y)| == 4
  {
    var a := y / 10;
    var b := a / 10;
    var c := b / 10;
    assert 100 <= a <= 999 && 10 <= b <= 99 && 1 <= c <= 9;
    assert |NatToDecimal(b)| == |NatToDecimal(c)| + 1 == 2;
    assert |NatToDecimal(a)| == |NatToDecimal(b)| + 1;
    assert |NatToDecimal(y)| == |NatToDecimal(a)| + 1;
  }

  /** `pad2` of a day or month spells it back in two digits. */
  lemma Pad2Value(n: int)
    requires 0 <= n <= 99
    ensures |Pad2(n)| == 2 && AllDigits(Pad2(n)) && DecimalValue(Pad2(n)) == n
  {
    TwoDigits(n);
    var p := Pad2(n);
    assert IsDigit(p[0]) && IsDigit(p[1]);
    TwoDigitValue(p);
  }

  /** Where the three fields sit in `YYYY-MM-DD`. */
  lemma ISOLayout(ys: string, ms: string, ds: string)
    requires |ys| == 4 && |ms| == 2 && |ds| == 2
    ensures var s := ys + "-" + ms + "-" + ds;
            |s| == 10 && s[..4] == ys && s[4] == '-' && s[5..7] == ms && s[7] == '-' && s[8..] == ds
  {
  }

  /** `toISODate` of a date with a four-digit year has the ISO shape, and its fields read back. */
  lemma ISODateFields(d: Date)
    requires 1000 <= d.year <= 9999 && 0 <= d.month <= 99 && 0 <= d.day <= 99
    ensures IsIsoShape(ToISODate(d))
    ensures DecimalValue(ToISODate(d)[..4]) == d.year
    ensures DecimalValue(ToISODate(d)[5..7]) == d.month
    ensures DecimalValue(ToISODate(d)[8..]) == d.day
  {
    var ys, ms, ds := IntToDecimal(d.year), Pad2(d.month), Pad2(d.day);
    FourDigitYear(d.year);
    NatToDecimalValue(d.year);
    Pad2Value(d.month);
    Pad2Value(d.day);
    ISOLayout(ys, ms, ds);
  }

  /** For a calendar date with a four-digit year, reading back what `toISODate` wrote gives the same day. */
  lemma ISODateRoundTrip(d: Date)
    requires ValidDate(d) && 1000 <= d.year <= 9999
    ensures ParseISODate(ToISODate(d)) == Some(d)
  {
    ISODateFields(d);
    assert NewDate(d.year, d.month - 1, d.day) == MakeDay(d.year, d.month - 1, d.day);
    MakeDayInMonth(d.year, d.month, d.day);
  }

  /** A string without the ISO shape parses to null, however close it comes. */
  lemma ParseRejectsLooseShapes()
    ensures ParseISODate("2024-5-01") == None
    ensures ParseISODate("2024-05-01 ") == None
    ensures ParseISODate("") == None
  {
  }

  /** `startOfMonth`. */
  function StartOfMonth(d: Date): (r: Date)
    ensures ValidDate(r) && r.day == 1
  {
    NewDate(d.year, d.month - 1, 1)
  }

  /** `endOfMonth`: day 0 of the following month. */
  function EndOfMonth(d: Date): (r: Date)
    ensures ValidDate(r)
  {
    NewDate(d.year, d.month, 0)
  }

  /** `addMonths`: the first of the month `n` months on (back, for negative `n`). */
  function AddMonths(d: Date, n: int): (r: Date)
    ensures ValidDate(r) && r.day == 1
  {
    NewDate(d.year, d.month - 1 + n, 1)
  }

  /** Months since the start of year 0, to state month arithmetic. */
  function MonthCount(d: Date): int {
    12 * d.year + d.month - 1
  }

  /** `startOfMonth` is the first of the same month, in the year as the `Date` constructor reads it. */
  lemma StartOfMonthIsFirst(d: Date)
    requires ValidDate(d)
    ensures StartOfMonth(d) == Date(FullYear(d.year), d.month, 1)
  {
    MakeDayInMonth(FullYear(d.year), d.month, 1);
  }

  /** `endOfMonth` is the last day of the same month. */
  lemma EndOfMonthIsLast(d: Date)
    requires ValidDate(d)
    ensures EndOfMonth(d) == Date(FullYear(d.year), d.month, DaysInMonth(FullYear(d.year), d.month))
  {
    var y, m := FullYear(d.year), d.month;
    var first := if m == 12 then Date(y + 1, 1, 1) else Date(y, m + 1, 1);
    assert m == 12 ==> m / 12 == 1 && m % 12 == 0;
    assert m < 12 ==> m / 12 == 0 && m % 12 == m;
    assert EndOfMonth(d) == MakeDay(y, m, 0);
    assert MakeDay(y, m, 0) == AddDays(first, -1);
    assert AddDays(first, -1) == AddDays(PrevDay(first), 0);
  }

  /** `addMonths` lands on the first of the month exactly `n` months away, rolling the year over. */
  lemma AddMonthsMoves(d: Date, n: int)
    requires ValidDate(d)
    ensures AddMonths(d, n).day == 1
    ensures MonthCount(AddMonths(d, n)) == 12 * FullYear(d.year) + d.month - 1 + n
  {
    var mi := d.month - 1 + n;
    assert mi == 12 * (mi / 12) + mi % 12;
  }

  /** Two firsts of the month with the same month count are the same date. */
  lemma MonthCountInjective(a: Date, b: Date)
    requires 1 <= a.month <= 12 && 1 <= b.month <= 12 && a.day == b.day
    requires MonthCount(a) == MonthCount(b)
    ensures a == b
  {
  }

  /**
   * Away from the years the constructor reads as 19xx, going forward a month
   * and back again returns to the first of the month.
   */
  lemma AddMonthsInverse(d: Date)
    requires ValidDate(d) && !(-1 <= d.year <= 99)
    ensures AddMonths(AddMonths(d, 1), -1) == StartOfMonth(d)
  {
    var e := AddMonths(d, 1);
    AddMonthsMoves(d, 1);
    assert 12 * e.year + e.month - 1 == 12 * d.year + d.month;
    assert e.year == d.year || e.year == d.year + 1;
    AddMonthsMoves(e, -1);
    StartOfMonthIsFirst(d);
    MonthCountInjective(AddMonths(e, -1), StartOfMonth(d));
  }

  /**
   * The constructor's two-digit-year rule shows through month navigation:
   * one month back from January 100 is December 99, and one month back from
   * there jumps to November 1999.
   */
  lemma AddMonthsTwoDigitYear()
    ensures AddMonths(Date(100, 1, 1), -1) == Date(99, 12, 1)
    ensures AddMonths(Date(99, 12, 1), -1) == Date(1999, 11, 1)
  {
  }

  /** `isSameDay`. */
  predicate IsSameDay(a: Date, b: Date)
    ensures IsSameDay(a, b) <==> a == b
  {
    a.year == b.year && a.month == b.month && a.day == b.day
  }

  /** `(d.getDay() + 6) % 7`: the column of `d` in a week that starts on Monday. */
  function MondayIndex(d: Date): (c: int)
    requires ValidDate(d)
    ensures 0 <= c < 7
    ensures c == DayNumber(d) % 7
  {
    ModBack(DayNumber(d));
    (Weekday(d) + 6) % 7
  }

  lemma ModBack(x: int)
    ensures ((x + 1) % 7 + 6) % 7 == x % 7
  {
    var q, r := x / 7, x % 7;
    assert x == 7 * q + r;
    if r == 6 {
      assert x + 1 == 7 * (q + 1);
      assert (x + 1) % 7 == 0;
    } else {
      assert x + 1 == 7 * q + (r + 1);
      assert (x + 1) % 7 == r + 1;
    }
  }

  /** One button of the calendar grid. */
  datatype Cell = Cell(date: Date, inMonth: bool)

  /** How many days of the previous month open the grid for `viewMonth`. */
  function LeadingCells(viewMonth: Date): (k: int)
    requires ValidDate(viewMonth)
    ensures 0 <= k <= 6
  {
    MondayIndex(StartOfMonth(viewMonth))
  }

  /** `endOfMonth(viewMonth).getDate()`: how many days the month shown has. */
  function MonthLength(viewMonth: Date): (n: int)
    requires ValidDate(viewMonth)
    ensures n == DaysInMonth(FullYear(viewMonth.year), viewMonth.month)
  {
    EndOfMonthIsLast(viewMonth);
    EndOfMonth(viewMonth).day
  }

  /** The year and month before month `m` of year `y`. */
  function MonthBefore(y: int, m: int): (r: (int, int))
    requires 1 <= m <= 12
    ensures 1 <= r.1 <= 12
  {
    if m == 1 then (y - 1, 12) else (y, m - 1)
  }

  /** The year and month after month `m` of year `y`. */
  function MonthAfter(y: int, m: int): (r: (int, int))
    requires 1 <= m <= 12
    ensures 1 <= r.1 <= 12
  {
    if m == 12 then (y + 1, 1) else (y, m + 1)
  }

  /**
   * What the grid for a month depends on: the year (as the `Date`
   * constructor reads it), the month, and how many leading days of the
   * previous month open its first row.
   */
  datatype Shape = Shape(year: int, month: int, lead: int)

  predicate ValidShape(g: Shape) {
    1 <= g.month <= 12 && 0 <= g.lead <= 6
  }

  /** The shape of the grid for `viewMonth`. */
  function ShapeOf(viewMonth: Date): (g: Shape)
    requires ValidDate(viewMonth)
    ensures ValidShape(g)
  {
    Shape(FullYear(viewMonth.year), viewMonth.month, LeadingCells(viewMonth))
  }

  /** The number of cells up to the end of the month shown. */
  function MonthEnd(g: Shape): int
    requires ValidShape(g)
  {
    g.lead + DaysInMonth(g.year, g.month)
  }

  /**
   * Cell `k` of the six-week grid of shape `g`, spelled out: the last days
   * of the previous month, the days of the month shown, then the first days
   * of the next month.
   */
  function GridCell(g: Shape, k: int): (c: Cell)
    requires ValidShape(g) && 0 <= k < 42
    ensures ValidDate(c.date)
  {
    if k < g.lead then
      var (py, pm) := MonthBefore(g.year, g.month);
      Cell(Date(py, pm, DaysInMonth(py, pm) - (g.lead - k) + 1), false)
    else if k < MonthEnd(g) then
      Cell(Date(g.year, g.month, k - g.lead + 1), true)
    else
      var (ny, nm) := MonthAfter(g.year, g.month);
      Cell(Date(ny, nm, k - MonthEnd(g) + 1), false)
  }

  /** Neighbouring cells hold neighbouring days. */
  lemma GridConsecutive(g: Shape, k: int)
    requires ValidShape(g) && 0 <= k < 41
    ensures GridCell(g, k + 1).date == NextDay(GridCell(g, k).date)
  {
  }

  /** The cell after the leading days is the first of the month. */
  lemma GridStartsMonth(viewMonth: Date)
    requires ValidDate(viewMonth)
    ensures GridCell(ShapeOf(viewMonth), LeadingCells(viewMonth)).date == StartOfMonth(viewMonth)
  {
    StartOfMonthIsFirst(viewMonth);
  }

  /** Cell `k` lies `k - lead` days after the first of the month. */
  lemma {:induction false} GridDayNumber(viewMonth: Date, k: int)
    requires ValidDate(viewMonth) && 0 <= k < 42
    ensures DayNumber(GridCell(ShapeOf(viewMonth), k).date) == DayNumber(StartOfMonth(viewMonth)) - LeadingCells(viewMonth) + k
    decreases if k < LeadingCells(viewMonth) then LeadingCells(viewMonth) - k else k - LeadingCells(viewMonth)
  {
    var g := ShapeOf(viewMonth);
    var lead := LeadingCells(viewMonth);
    if k == lead {
      GridStartsMonth(viewMonth);
    } else if k < lead {
      GridDayNumber(viewMonth, k + 1);
      GridConsecutive(g, k);
      NextDayNumber(GridCell(g, k).date);
    } else {
      GridDayNumber(viewMonth, k - 1);
      GridConsecutive(g, k - 1);
      NextDayNumber(GridCell(g, k - 1).date);
    }
  }

  lemma ShiftMod7(base: int, i: int)
    requires base % 7 == 0
    ensures (base + i) % 7 == i % 7
  {
    assert base == 7 * (base / 7);
  }

  lemma ColumnShift(dn: int, lead: int, k: int, x: int)
    requires dn % 7 == lead && x == dn - lead + k
    ensures x % 7 == k % 7
  {
    assert dn - lead == 7 * (dn / 7);
    ShiftMod7(dn - lead, k);
  }

  /** Cell `k` sits in column `k % 7` of a Monday-first week. */
  lemma GridColumn(viewMonth: Date, k: int)
    requires ValidDate(viewMonth) && 0 <= k < 42
    ensures MondayIndex(GridCell(ShapeOf(viewMonth), k).date) == k % 7
  {
    GridDayNumber(viewMonth, k);
    ColumnShift(DayNumber(StartOfMonth(viewMonth)), LeadingCells(viewMonth), k, DayNumber(GridCell(ShapeOf(viewMonth), k).date));
  }

  /**
   * A cell is marked as in the month exactly when its date falls in the month
   * shown, which is exactly the cells after the leading ones up to the month's
   * length; those hold the days 1, 2, … in order.
   */
  lemma GridInMonth(g: Shape, k: int)
    requires ValidShape(g) && 0 <= k < 42
    ensures GridCell(g, k).inMonth <==> GridCell(g, k).date.year == g.year && GridCell(g, k).date.month == g.month
    ensures GridCell(g, k).inMonth <==> g.lead <= k < MonthEnd(g)
    ensures GridCell(g, k).inMonth ==> GridCell(g, k).date.day == k - g.lead + 1
  {
  }

  /** Stepping back within a month. */
  lemma {:induction false} BackWithinMonth(y: int, m: int, e: int, t: int)
    requires ValidDate(Date(y, m, e)) && 0 <= t < e
    ensures AddDays(Date(y, m, e), -t) == Date(y, m, e - t)
  {
    if t > 0 {
      BackWithinMonth(y, m, e - 1, t - 1);
    }
  }

  /** `d.setDate(d.getDate() + 1)` on a copy is the next day. */
  lemma SetDateNext(d: Date)
    requires ValidDate(d)
    ensures SetDate(d, d.day + 1) == NextDay(d)
  {
    AddDaysWithinMonth(d.year, d.month, d.day - 1);
    NextDayOfAddDays(Date(d.year, d.month, 1), d.day - 1);
  }

  /** `setDate` on the first of a month counts days from it. */
  lemma SetDateFromFirst(first: Date, date: int)
    requires ValidDate(first) && first.day == 1
    ensures SetDate(first, date) == AddDays(first, date - 1)
  {
    var mi := first.month - 1;
    assert mi / 12 == 0 && mi % 12 == mi;
  }

  /** The first `len` cells of the grid. */
  function Grid(g: Shape, len: nat): (cells: seq<Cell>)
    requires ValidShape(g) && len <= 42
    ensures |cells| == len
  {
    if len == 0 then [] else Grid(g, len - 1) + [GridCell(g, len - 1)]
  }

  lemma GridSnoc(g: Shape, cells: seq<Cell>, len: nat, c: Cell)
    requires ValidShape(g) && len < 42 && cells == Grid(g, len) && c == GridCell(g, len)
    ensures cells + [c] == Grid(g, len + 1)
  {
  }

  /** Cell `k` of any longer prefix of the grid. */
  lemma {:induction false} GridAt(g: Shape, len: nat, k: nat)
    requires ValidShape(g) && k < len <= 42
    ensures Grid(g, len)[k] == GridCell(g, k)
  {
    if k < len - 1 {
      GridAt(g, len - 1, k);
    }
  }

  /** A step of the first loop: `setDate(1 - (firstDow - i))` on the first of the month. */
  lemma LeadingStep(viewMonth: Date, i: int)
    requires ValidDate(viewMonth) && 0 <= i < LeadingCells(viewMonth)
    ensures var start := StartOfMonth(viewMonth);
            Cell(SetDate(start, start.day - (LeadingCells(viewMonth) - i)), false) == GridCell(ShapeOf(viewMonth), i)
  {
    var start := StartOfMonth(viewMonth);
    StartOfMonthIsFirst(viewMonth);
    var j := LeadingCells(viewMonth) - i;
    SetDateFromFirst(start, 1 - j);
    var prev := PrevDay(start);
    assert AddDays(start, -j) == AddDays(prev, -(j - 1));
    BackWithinMonth(prev.year, prev.month, prev.day, j - 1);
  }

  /** A step of the second loop: `new Date(year, month, d)`. */
  lemma MonthStep(viewMonth: Date, d: int)
    requires ValidDate(viewMonth) && 1 <= d <= MonthLength(viewMonth)
    ensures Cell(NewDate(viewMonth.year, viewMonth.month - 1, d), true) == GridCell(ShapeOf(viewMonth), LeadingCells(viewMonth) + d - 1)
  {
    MakeDayInMonth(FullYear(viewMonth.year), viewMonth.month, d);
  }

  /** A step of the third loop: the day after the last cell extends the grid by one. */
  lemma TrailingStep(g: Shape, cells: seq<Cell>, k: int)
    requires ValidShape(g) && MonthEnd(g) <= k < 42
    requires cells == Grid(g, k)
    ensures var last := cells[k - 1].date;
            ValidDate(last) && cells + [Cell(SetDate(last, last.day + 1), false)] == Grid(g, k + 1)
  {
    GridAt(g, k, k - 1);
    SetDateNext(GridCell(g, k - 1).date);
    GridConsecutive(g, k - 1);
  }

  /** The smallest multiple of 7 that is at least `x`. */
  function RoundUp7(x: nat): (r: nat)
    ensures r % 7 == 0 && x <= r < x + 7
  {
    x + (7 - x % 7) % 7
  }

  /** Between `x` and the next multiple of 7, only that multiple is one. */
  lemma RoundUp7Between(x: nat, len: nat)
    requires x <= len <= RoundUp7(x)
    ensures len % 7 != 0 ==> len < RoundUp7(x)
    ensures len % 7 == 0 ==> len == RoundUp7(x)
  {
  }

  lemma RoundUp7Bound(x: nat)
    requires x <= 37
    ensures RoundUp7(x) <= 42
  {
  }

  /**
   * The `days` memo: leading days of the previous month, every day of the
   * month shown, then days of the next month until the last week is full.
   */
  method BuildDays(viewMonth: Date) returns (cells: seq<Cell>)
    requires ValidDate(viewMonth)
    ensures |cells| == RoundUp7(LeadingCells(viewMonth) + MonthLength(viewMonth)) && |cells| <= 42
    ensures cells == Grid(ShapeOf(viewMonth), |cells|)
  {
    var start := StartOfMonth(viewMonth);
    var end := EndOfMonth(viewMonth);
    var firstDow := (Weekday(start) + 6) % 7;
    var n := end.day;
    assert firstDow == LeadingCells(viewMonth) && n == MonthLength(viewMonth);
    cells := LeadingDays(viewMonth, start, firstDow);
    cells := MonthDays(viewMonth, n, cells);
    cells := TrailingDays(ShapeOf(viewMonth), cells);
  }

  /** The first loop of `days`: the tail of the previous month. */
  method LeadingDays(viewMonth: Date, start: Date, firstDow: int) returns (cells: seq<Cell>)
    requires ValidDate(viewMonth) && start == StartOfMonth(viewMonth) && firstDow == LeadingCells(viewMonth)
    ensures cells == Grid(ShapeOf(viewMonth), firstDow)
  {
    cells := [];
    for i := 0 to firstDow
      invariant cells == Grid(ShapeOf(viewMonth), i)
    {
      LeadingStep(viewMonth, i);
      var d := SetDate(start, start.day - (firstDow - i));
      GridSnoc(ShapeOf(viewMonth), cells, i, Cell(d, false));
      cells := cells + [Cell(d, false)];
    }
  }

  /** The second loop of `days`: each day of the month shown. */
  method MonthDays(viewMonth: Date, n: int, cells0: seq<Cell>) returns (cells: seq<Cell>)
    requires ValidDate(viewMonth) && n == MonthLength(viewMonth)
    requires cells0 == Grid(ShapeOf(viewMonth), LeadingCells(viewMonth))
    ensures cells == Grid(ShapeOf(viewMonth), LeadingCells(viewMonth) + n)
  {
    cells := cells0;
    for d := 1 to n + 1
      invariant cells == Grid(ShapeOf(viewMonth), LeadingCells(viewMonth) + d - 1)
    {
      MonthStep(viewMonth, d);
      var date := NewDate(viewMonth.year, viewMonth.month - 1, d);
      GridSnoc(ShapeOf(viewMonth), cells, LeadingCells(viewMonth) + d - 1, Cell(date, true));
      cells := cells + [Cell(date, true)];
    }
  }

  /** The third loop of `days`: days of the next month until the last row is full. */
  method TrailingDays(g: Shape, cells0: seq<Cell>) returns (cells: seq<Cell>)
    requires ValidShape(g) && cells0 == Grid(g, MonthEnd(g))
    ensures |cells| == RoundUp7(MonthEnd(g)) && |cells| <= 42
    ensures cells == Grid(g, |cells|)
  {
    var target := RoundUp7(MonthEnd(g));
    RoundUp7Bound(MonthEnd(g));
    cells := cells0;
    while |cells| % 7 != 0
      invariant MonthEnd(g) <= |cells| <= target
      invariant cells == Grid(g, |cells|)
      decreases target - |cells|
    {
      RoundUp7Between(MonthEnd(g), |cells|);
      TrailingStep(g, cells, |cells|);
      var last := cells[|cells| - 1].date;
      var d := SetDate(last, last.day + 1);
      cells := cells + [Cell(d, false)];
    }
    RoundUp7Between(MonthEnd(g), |cells|);
  }

  /**
   * The picker's state: the controlled `value`, whether the panel is open, the
   * month on show, the `today` it was created with (local midnight, read from
   * the clock), and the values it has handed to `onChange`, in order.
   */
  class Picker {
    var value: string
    var open: bool
    var viewMonth: Date
    const today: Date
    var changes: seq<string>

    ghost predicate Valid()
      reads this
    {
      ValidDate(viewMonth) && ValidDate(today)
    }

    /** Mounting: the panel is closed and shows the selected month, or this month. */
    constructor(value: string, today: Date)
      requires ValidDate(today)
      ensures Valid()
      ensures this.value == value && this.today == today && !open && changes == []
      ensures viewMonth == StartOfMonth(ParseISODate(value).GetOr(today))
    {
      this.value := value;
      this.today := today;
      open := false;
      changes := [];
      viewMonth := StartOfMonth(ParseISODate(value).GetOr(today));
    }

    /** The day the value names, if it parses. */
    function Selected(): Option<Date>
      reads this
    {
      ParseISODate(value)
    }

    /** `date < today`: days before today cannot be picked. */
    predicate IsDisabled(date: Date)
      reads this
      requires Valid() && ValidDate(date)
      ensures IsDisabled(date) <==> Before(date, today)
    {
      DayNumberOrder(date, today);
      DayNumber(date) < DayNumber(today)
    }

    /** The highlighted cell. */
    predicate IsActive(date: Date)
      reads this
    {
      Selected().Some? && IsSameDay(date, Selected().value)
    }

    /** A click on the field, or Enter / Space on it, opens or closes the panel. */
    method Toggle()
      modifies this
      ensures open == !old(open)
      ensures value == old(value) && viewMonth == old(viewMonth) && changes == old(changes)
    {
      open := !open;
    }

    method KeyDown(key: string)
      modifies this
      ensures open == if key == "Enter" || key == " " then !old(open) else old(open)
      ensures value == old(value) && viewMonth == old(viewMonth) && changes == old(changes)
    {
      if key == "Enter" || key == " " {
        open := !open;
      }
    }

    /** The ‹ and › buttons. */
    method ShowMonth(delta: int)
      requires Valid() && (delta == -1 || delta == 1)
      modifies this
      ensures Valid()
      ensures viewMonth == AddMonths(old(viewMonth), delta)
      ensures open == old(open) && value == old(value) && changes == old(changes)
    {
      viewMonth := AddMonths(viewMonth, delta);
    }

    /** The effect on a new `value`: show its month when it parses. */
    method ValueChanged(v: string)
      requires Valid()
      modifies this
      ensures Valid() && value == v
      ensures viewMonth == if ParseISODate(v).Some? then StartOfMonth(ParseISODate(v).value) else old(viewMonth)
      ensures open == old(open) && changes == old(changes)
    {
      value := v;
      var d := ParseISODate(v);
      if d.Some? {
        viewMonth := StartOfMonth(d.value);
      }
    }

    /** A click on a day: ignored when disabled, otherwise hands its ISO date to `onChange` and closes. */
    method ClickDay(date: Date)
      requires Valid() && ValidDate(date) && open
      modifies this
      ensures Valid() && value == old(value) && viewMonth == old(viewMonth)
      ensures IsDisabled(date) ==> open && changes == old(changes)
      ensures !IsDisabled(date) ==> !open && changes == old(changes) + [ToISODate(date)]
    {
      var disabled := DayNumber(date) < DayNumber(today);
      if !disabled {
        var iso := ToISODate(date);
        changes := changes + [iso];
        open := false;
      }
    }

    /** A mouse-down on the window: while the panel is open, one outside the picker closes it. */
    method MouseDown(insidePicker: bool)
      modifies this
      ensures open == (old(open) && insidePicker)
      ensures value == old(value) && viewMonth == old(viewMonth) && changes == old(changes)
    {
      if open && !insidePicker {
        open := false;
      }
    }

    /** The Close button. */
    method ClickClose()
      modifies this
      ensures !open
      ensures value == old(value) && viewMonth == old(viewMonth) && changes == old(changes)
    {
      open := false;
    }
  }
}
