/** `spending_by_category` of src/reports.py: the signed total of one
    category per calendar month over a trailing window, and the two decorators
    that hand a report's result back after saving it. */
module Reports {
  import opened Wrappers
  import opened Dates
  import opened Operations

  // =====================================================================
  // The timestamp column

  /** The texts pandas reads as a missing timestamp (NaT) instead of raising:
      the empty text and the spellings of "NaT" and "nan" it recognises. */
  predicate IsMissingStamp(s: string) {
    s == "" || s == "NaT" || s == "nat" || s == "NAT" || s == "nan" || s == "NaN" || s == "NAN"
  }

  /** A row with its converted timestamp; `None` is NaT. */
  datatype Stamped = Stamped(op: Operation, at: Option<DateTime>)

  /** One cell of `pd.to_datetime(..., format="%d.%m.%Y %H:%M:%S")`: NaT for
      a missing value, the parsed timestamp otherwise, and an error for any
      other text. */
  function ConvertStamp(s: string): (r: Result<Option<DateTime>>)
    ensures r == Success(None) <==> IsMissingStamp(s)
    ensures r.Failure? <==> !IsMissingStamp(s) && ParseDateTime(s).None?
    ensures r.Success? && !IsMissingStamp(s) ==> r.value == ParseDateTime(s)
    ensures r.Failure? ==> r.error == Unparseable
  {
    if IsMissingStamp(s) then Success(None)
    else
      match ParseDateTime(s)
      case None => Failure(Unparseable)
      case Some(t) => Success(Some(t))
  }

  /** The whole column converted: one cell that is neither missing nor a
      timestamp in the export's format fails the whole conversion. */
  function ConvertColumn(ops: seq<Operation>): (r: Result<seq<Stamped>>)
    ensures r.Success? ==> |r.value| == |ops|
    ensures r.Failure? ==> r.error == Unparseable
    decreases |ops|
  {
    if ops == [] then Success([])
    else
      var init := ConvertColumn(ops[..|ops| - 1]);
      var last := ops[|ops| - 1];
      match ConvertStamp(last.date)
      case Failure(e) => Failure(e)
      case Success(at) =>
        if init.Failure? then init else Success(init.value + [Stamped(last, at)])
  }

  /** Every cell converts, to a timestamp or to NaT. */
  predicate Convertible(ops: seq<Operation>) {
    forall i :: 0 <= i < |ops| ==> ConvertStamp(ops[i].date).Success?
  }

  /** The conversion succeeds exactly when every cell converts, and then
      pairs each row, in order, with its own converted cell. */
  lemma {:induction false} ConvertColumnSpec(ops: seq<Operation>)
    ensures ConvertColumn(ops).Success? <==> Convertible(ops)
    ensures ConvertColumn(ops).Success? ==>
              forall i :: 0 <= i < |ops| ==>
                ConvertColumn(ops).value[i] == Stamped(ops[i], ConvertStamp(ops[i].date).value)
    decreases |ops|
  {
    if ops != [] {
      var init, last := ops[..|ops| - 1], ops[|ops| - 1];
      ConvertColumnSpec(init);
      assert forall i :: 0 <= i < |init| ==> init[i] == ops[i];
      if ConvertColumn(ops).Success? {
        var ss := ConvertColumn(init).value;
        assert ConvertColumn(ops).value == ss + [Stamped(last, ConvertStamp(last.date).value)];
      }
    }
  }

  // =====================================================================
  // The window

  /** `date - timedelta(days=date.day - 1) - timedelta(days=3 * 30)`: back to
      the first of the reference month, then a fixed 90 days further, keeping
      the time of day; `Failure` where Python raises OverflowError. */
  function WindowStart(ref: DateTime): (r: Result<DateTime>)
    requires Valid(ref)
    ensures r.Success? ==> Valid(r.value)
    ensures r.Failure? ==> r.error == Overflow
  {
    match SubtractDays(ref, ref.day - 1)
    case None => Failure(Overflow)
    case Some(first) =>
      match SubtractDays(first, 3 * 30)
      case None => Failure(Overflow)
      case Some(start) => Success(start)
  }

  /** The window starts exactly 90 days of seconds before the first of the
      reference month, at the reference time of day, and never after the
      reference; only a reference within 90 days of 0001-01-01 overflows. */
  lemma WindowStartSpec(ref: DateTime)
    requires Valid(ref)
    ensures WindowStart(ref).Success? <==> DayNumber(ref.(day := 1)) > 90
    ensures WindowStart(ref).Success? ==>
              && TimeOfDay(WindowStart(ref).value) == TimeOfDay(ref)
              && Instant(WindowStart(ref).value) == Instant(ref.(day := 1)) - 90 * SecondsPerDay
              && LessEq(WindowStart(ref).value, ref)
  {
    var first := ref.(day := 1);
    WindowStartFromFirst(ref);
    SubtractDaysInstant(first, 90);
    if WindowStart(ref).Success? {
      assert DayNumber(first) <= DayNumber(ref);
      LessEqIsInstantOrder(WindowStart(ref).value, ref);
    }
  }

  /** The first step lands on the 1st of the month, so the window start is
      90 days back from there. */
  lemma WindowStartFromFirst(ref: DateTime)
    requires Valid(ref)
    ensures Valid(ref.(day := 1))
    ensures WindowStart(ref) == match SubtractDays(ref.(day := 1), 90)
                                case None => Failure(Overflow)
                                case Some(start) => Success(start)
  {
    SubtractDaysWithinMonth(ref, ref.day - 1);
    assert SubtractDays(ref, ref.day - 1) == Some(ref.(day := 1));
  }

  /** The reference moment: now, or the given text read as `%Y.%m.%d`. */
  function ReferenceDate(date: Option<string>, now: DateTime): (r: Result<DateTime>)
    requires Valid(now)
    ensures r.Success? ==> Valid(r.value)
    ensures date.None? ==> r == Success(now)
    ensures date.Some? ==> (r.Success? <==> ParseYearMonthDay(date.value).Some?)
    ensures date.Some? && r.Success? ==> r.value == ParseYearMonthDay(date.value).value
    ensures date.Some? && r.Success? ==> TimeOfDay(r.value) == 0
  {
    match date
    case None => Success(now)
    case Some(s) =>
      match ParseYearMonthDay(s)
      case None => Failure(Unparseable)
      case Some(t) => Success(t)
  }

  /** A reference date written year first is midnight of the day it names. */
  lemma ReferenceDateOfDay(t: DateTime, now: DateTime)
    requires Valid(t) && Valid(now)
    ensures ReferenceDate(Some(FormatYearMonthDay(t)), now) == Success(t.(hour := 0, minute := 0, second := 0))
  {
    ParseFormatYearMonthDay(t);
  }

  /** A reference date must be written year first: the day-first text
      "20.05.2020" is refused. */
  lemma DayFirstReferenceFails(now: DateTime)
    requires Valid(now)
    ensures ReferenceDate(Some("20.05.2020"), now) == Failure(Unparseable)
  {
    YearFirstReferenceDate();
  }

  // =====================================================================
  // The filter

  /** The boolean mask of the filter: inside the window, ends included, and
      exactly the requested category. */
  predicate KeptFor(d: Dated, category: string, start: DateTime, ref: DateTime) {
    LessEq(start, d.at) && LessEq(d.at, ref) && d.op.category == category
  }

  /** The filtered rows with their timestamps. A NaT cell compares false
      with both bounds, so its row is never kept. */
  function Kept(ss: seq<Stamped>, category: string, start: DateTime, ref: DateTime): (r: seq<Dated>)
    ensures |r| <= |ss|
    decreases |ss|
  {
    if ss == [] then []
    else
      var rest := Kept(ss[..|ss| - 1], category, start, ref);
      var s := ss[|ss| - 1];
      match s.at
      case None => rest
      case Some(t) => if KeptFor(Dated(s.op, t), category, start, ref) then rest + [Dated(s.op, t)] else rest
  }

  /** The rows kept are exactly those with a timestamp that the mask
      selects, each as often as it occurs; no NaT row is kept. */
  lemma {:induction false} KeptSpec(ss: seq<Stamped>, category: string, start: DateTime, ref: DateTime)
    ensures forall d :: multiset(Kept(ss, category, start, ref))[d]
                        == if KeptFor(d, category, start, ref) then multiset(ss)[Stamped(d.op, Some(d.at))] else 0
    decreases |ss|
  {
    if ss != [] {
      var init, last := ss[..|ss| - 1], ss[|ss| - 1];
      KeptSpec(init, category, start, ref);
      assert ss == init + [last];
    }
  }

  /** A reference given as text is midnight at the start of its day, so a
      record later on that same day is left out. */
  lemma ReferenceDayExcluded(d: Dated, category: string, start: DateTime, ref: DateTime)
    requires Valid(d.at) && Valid(ref) && TimeOfDay(ref) == 0
    requires (d.at.year, d.at.month, d.at.day) == (ref.year, ref.month, ref.day)
    requires TimeOfDay(d.at) > 0
    ensures !KeptFor(d, category, start, ref)
  {
  }

  // =====================================================================
  // Monthly grouping

  /** One row of the report: a calendar month and the signed sum of the kept
      amounts dated in it. */
  datatype MonthTotal = MonthTotal(year: int, month: int, total: real)

  /** Months counted from January of year 0. */
  function MonthIndex(t: DateTime): int {
    t.year * 12 + (t.month - 1)
  }

  function MonthYear(index: int): int {
    index / 12
  }

  function MonthNumber(index: int): (m: int)
    ensures 1 <= m <= 12
  {
    index % 12 + 1
  }

  /** The month index names the timestamp's own year and month. */
  lemma MonthIndexNames(t: DateTime)
    requires Valid(t)
    ensures MonthYear(MonthIndex(t)) == t.year && MonthNumber(MonthIndex(t)) == t.month
  {
  }

  /** The signed sum of the amounts dated in the month `index`. */
  function MonthSum(ds: seq<Dated>, index: int): real
    decreases |ds|
  {
    if ds == [] then 0.0
    else
      var d := ds[|ds| - 1];
      MonthSum(ds[..|ds| - 1], index) + (if MonthIndex(d.at) == index then d.op.amount else 0.0)
  }

  /** The signed sum of all the amounts: income and spend net out. */
  function SignedTotal(ds: seq<Dated>): real
    decreases |ds|
  {
    if ds == [] then 0.0 else SignedTotal(ds[..|ds| - 1]) + ds[|ds| - 1].op.amount
  }

  function FirstMonth(ds: seq<Dated>): (lo: int)
    requires ds != []
    ensures forall i :: 0 <= i < |ds| ==> lo <= MonthIndex(ds[i].at)
    ensures exists i :: 0 <= i < |ds| && lo == MonthIndex(ds[i].at)
    decreases |ds|
  {
    var m := MonthIndex(ds[|ds| - 1].at);
    if |ds| == 1 then m
    else
      var lo := FirstMonth(ds[..|ds| - 1]);
      if m < lo then m else lo
  }

  function LastMonth(ds: seq<Dated>): (hi: int)
    requires ds != []
    ensures forall i :: 0 <= i < |ds| ==> MonthIndex(ds[i].at) <= hi
    ensures exists i :: 0 <= i < |ds| && hi == MonthIndex(ds[i].at)
    decreases |ds|
  {
    var m := MonthIndex(ds[|ds| - 1].at);
    if |ds| == 1 then m
    else
      var hi := LastMonth(ds[..|ds| - 1]);
      if m > hi then m else hi
  }

  /** The row of the month `index`. */
  function MonthRow(ds: seq<Dated>, index: int): MonthTotal {
    MonthTotal(MonthYear(index), MonthNumber(index), MonthSum(ds, index))
  }

  /** The rows for the `n` months starting at `first`. */
  function MonthRows(ds: seq<Dated>, first: int, n: nat): (rows: seq<MonthTotal>)
    ensures |rows| == n
    decreases n
  {
    if n == 0 then []
    else
      var index := first + n - 1;
      MonthRows(ds, first, n - 1) + [MonthRow(ds, index)]
  }

  /** `groupby(pd.Grouper(key=..., freq="ME")).sum()`: one row per calendar
      month from the earliest to the latest month of the rows, in date order,
      months without a row included with a zero sum; no rows, no months. */
  function Buckets(ds: seq<Dated>): (rows: seq<MonthTotal>)
    ensures ds == [] <==> rows == []
    ensures ds != [] ==> |rows| == LastMonth(ds) - FirstMonth(ds) + 1
  {
    if ds == [] then [] else MonthRows(ds, FirstMonth(ds), LastMonth(ds) - FirstMonth(ds) + 1)
  }

  lemma {:induction false} MonthRowsSpec(ds: seq<Dated>, first: int, n: nat)
    ensures forall i :: 0 <= i < n ==>
              MonthRows(ds, first, n)[i]
              == MonthRow(ds, first + i)
    decreases n
  {
    if n > 0 {
      MonthRowsSpec(ds, first, n - 1);
    }
  }

  /** The rows are consecutive months, the first and the last holding a
      record, every record falling in one of them, each with the signed sum
      of its month. */
  lemma {:induction false} BucketsSpec(ds: seq<Dated>)
    ensures ds == [] ==> Buckets(ds) == []
    ensures ds != [] ==>
              && |Buckets(ds)| == LastMonth(ds) - FirstMonth(ds) + 1
              && forall i :: 0 <= i < |Buckets(ds)| ==> Buckets(ds)[i] == MonthRow(ds, FirstMonth(ds) + i)
  {
    if ds != [] {
      var first, last := FirstMonth(ds), LastMonth(ds);
      MonthRowsSpec(ds, first, last - first + 1);
    }
  }

  /** The totals of a list of rows, added up. */
  function RowsTotal(rows: seq<MonthTotal>): real
    decreases |rows|
  {
    if rows == [] then 0.0 else RowsTotal(rows[..|rows| - 1]) + rows[|rows| - 1].total
  }

  /** The signed sum of the amounts dated in the months `first` .. `first + n - 1`. */
  function RangeSum(ds: seq<Dated>, first: int, n: nat): real
    decreases |ds|
  {
    if ds == [] then 0.0
    else
      var d := ds[|ds| - 1];
      RangeSum(ds[..|ds| - 1], first, n) + (if first <= MonthIndex(d.at) < first + n then d.op.amount else 0.0)
  }

  lemma {:induction false} RangeSumStep(ds: seq<Dated>, first: int, n: nat)
    ensures RangeSum(ds, first, n + 1) == RangeSum(ds, first, n) + MonthSum(ds, first + n)
    decreases |ds|
  {
    if ds != [] {
      RangeSumStep(ds[..|ds| - 1], first, n);
    }
  }

  lemma {:induction false} MonthRowsTotal(ds: seq<Dated>, first: int, n: nat)
    ensures RowsTotal(MonthRows(ds, first, n)) == RangeSum(ds, first, n)
    decreases n
  {
    if n == 0 {
      RangeSumEmpty(ds, first);
    } else {
      var rows := MonthRows(ds, first, n);
      MonthRowsTotal(ds, first, n - 1);
      RangeSumStep(ds, first, n - 1);
      assert rows[..|rows| - 1] == MonthRows(ds, first, n - 1);
    }
  }

  lemma {:induction false} RangeSumEmpty(ds: seq<Dated>, first: int)
    ensures RangeSum(ds, first, 0) == 0.0
    decreases |ds|
  {
    if ds != [] {
      RangeSumEmpty(ds[..|ds| - 1], first);
    }
  }

  /** A range holding every record's month sums to the signed total. */
  lemma {:induction false} RangeSumAll(ds: seq<Dated>, first: int, n: nat)
    requires forall i :: 0 <= i < |ds| ==> first <= MonthIndex(ds[i].at) < first + n
    ensures RangeSum(ds, first, n) == SignedTotal(ds)
    decreases |ds|
  {
    if ds != [] {
      var init := ds[..|ds| - 1];
      forall i | 0 <= i < |init| ensures first <= MonthIndex(init[i].at) < first + n {
        assert init[i] == ds[i];
      }
      RangeSumAll(init, first, n);
    }
  }

  /** The month rows add up to the signed sum of all the rows grouped:
      nothing is lost or counted twice, and spends are not made absolute. */
  lemma {:induction false} BucketsAddUp(ds: seq<Dated>)
    ensures RowsTotal(Buckets(ds)) == SignedTotal(ds)
  {
    if ds == [] {
      assert Buckets(ds) == [];
    } else {
      var lo, hi := FirstMonth(ds), LastMonth(ds);
      assert lo <= MonthIndex(ds[0].at) <= hi;
      var n: nat := hi - lo + 1;
      var rows := MonthRows(ds, lo, n);
      assert Buckets(ds) == rows;
      MonthRowsTotal(ds, lo, n);
      RangeSumAll(ds, lo, n);
      assert RowsTotal(rows) == SignedTotal(ds);
    }
  }

  // =====================================================================
  // The report

  /** `spending_by_category`. Any failure inside the `try` (a timestamp the
      column conversion refuses, a reference date that does not parse, a
      window start before 0001-01-01) makes it return the empty text; that
      outcome is `Failure`. */
  function SpendingByCategory(ops: seq<Operation>, category: string, date: Option<string>, now: DateTime)
    : (r: Result<seq<MonthTotal>>)
    requires Valid(now)
    ensures r.Failure? ==> r.error == Unparseable || r.error == Overflow
    ensures ops == [] && r.Success? ==> r.value == []
  {
    match ConvertColumn(ops)
    case Failure(e) => Failure(e)
    case Success(ss) =>
      match ReferenceDate(date, now)
      case Failure(e) => Failure(e)
      case Success(ref) =>
        match WindowStart(ref)
        case Failure(e) => Failure(e)
        case Success(start) => Success(Buckets(Kept(ss, category, start, ref)))
  }

  /** The report succeeds exactly when every timestamp cell converts (to a
      timestamp or to NaT), the reference date (if given) parses, and the
      window start exists; it then groups the rows the mask keeps. */
  lemma {:induction false} SpendingByCategorySpec(ops: seq<Operation>, category: string, date: Option<string>, now: DateTime)
    requires Valid(now)
    ensures SpendingByCategory(ops, category, date, now).Success?
            <==> Convertible(ops) && ReferenceDate(date, now).Success?
                 && WindowStart(ReferenceDate(date, now).value).Success?
    ensures SpendingByCategory(ops, category, date, now).Success? ==>
              var ref := ReferenceDate(date, now).value;
              SpendingByCategory(ops, category, date, now).value
              == Buckets(Kept(ConvertColumn(ops).value, category, WindowStart(ref).value, ref))
  {
    ConvertColumnSpec(ops);
  }

  /** A row whose timestamp pandas reads as NaT changes nothing: the report
      with it is the report without it. */
  lemma {:induction false} MissingStampIgnored(ops: seq<Operation>, op: Operation, category: string, date: Option<string>, now: DateTime)
    requires Valid(now) && IsMissingStamp(op.date)
    ensures SpendingByCategory(ops + [op], category, date, now) == SpendingByCategory(ops, category, date, now)
  {
    var all := ops + [op];
    assert all[..|all| - 1] == ops && all[|all| - 1] == op;
    assert ConvertStamp(op.date) == Success(None);
    match ConvertColumn(ops)
    case Failure(e) =>
      assert ConvertColumn(all) == Failure(e);
    case Success(ss) =>
      var ss' := ss + [Stamped(op, None)];
      assert ConvertColumn(all) == Success(ss');
      assert ss'[..|ss'| - 1] == ss;
      forall start: DateTime, ref: DateTime ensures Kept(ss', category, start, ref) == Kept(ss, category, start, ref) {
      }
  }

  /** A single row with an empty timestamp gives an empty report, not an
      error, whenever the reference date and the window start exist. */
  lemma EmptyStampRowDropped(category: string, date: Option<string>, now: DateTime)
    requires Valid(now) && ReferenceDate(date, now).Success?
    requires WindowStart(ReferenceDate(date, now).value).Success?
    ensures SpendingByCategory([Operation("", -100.0, category, None, None, "")], category, date, now) == Success([])
  {
    MissingStampIgnored([], Operation("", -100.0, category, None, None, ""), category, date, now);
    assert [] + [Operation("", -100.0, category, None, None, "")] == [Operation("", -100.0, category, None, None, "")];
  }

  // =====================================================================
  // The decorators

  /** `report_to_file_default`: the wrapper saves the result to
      "function_operation_report.txt" and returns it unchanged. */
  function ReportToFileDefault<A(!new), R>(func: A --> R): (wrapper: A --> R)
    ensures forall a :: func.requires(a) ==> wrapper.requires(a) && wrapper(a) == func(a)
  {
    a requires func.requires(a) => func(a)
  }

  /** `report_to_file(filename)` applied to `func`: the same, saving to
      `filename` instead. */
  function ReportToFile<A(!new), R>(filename: string, func: A --> R): (wrapper: A --> R)
    ensures forall a :: func.requires(a) ==> wrapper.requires(a) && wrapper(a) == func(a)
  {
    a requires func.requires(a) => func(a)
  }

  /** The arguments of a report call. */
  datatype ReportCall = ReportCall(ops: seq<Operation>, category: string, date: Option<string>, now: DateTime)

  /** The decorated `spending_by_category` returns what the undecorated one computes. */
  lemma DecoratedSpendingByCategory(call: ReportCall)
    requires Valid(call.now)
    ensures ReportToFileDefault((c: ReportCall) requires Valid(c.now) => SpendingByCategory(c.ops, c.category, c.date, c.now))(call)
            == SpendingByCategory(call.ops, call.category, call.date, call.now)
  {
  }
}
