/** `analyze_cashback` of src/services.py: the cashback earned in one calendar
    month, per spending category. */
module Services {
  import opened Wrappers
  import opened Text
  import opened Dates
  import opened Money
  import opened Operations
  import opened Grouping
  import Utils

  /** A record takes part in the analysis of `year`/`month` when its
      timestamp falls in that month and it is a spend. */
  predicate Contributes(d: Dated, year: int, month: int) {
    d.at.year == year && d.at.month == month && d.op.amount < 0.0
  }

  /** The cashback one spend earns: the reported value when the bank reported
      one that is not negative, otherwise one per cent of the spend rounded
      to five decimals. */
  function RecordCashback(d: Dated): (c: real)
    ensures d.op.amount < 0.0 ==> c >= 0.0
    ensures ReportsCashback(d.op) ==> c == d.op.cashback.value
    ensures !ReportsCashback(d.op) ==>
              c * Scale(5) == RoundedUnits(-d.op.amount / 100.0, 5) as real
              && -0.5 <= (c + d.op.amount / 100.0) * Scale(5) <= 0.5
  {
    if d.op.cashback.Some? && d.op.cashback.value >= 0.0 then d.op.cashback.value
    else Round(d.op.amount * -0.01, 5)
  }

  /** The category a record is counted under in the analysis of
      `year`/`month`; every category may earn, transfers and cash included. */
  function CashbackKey(year: int, month: int): Dated -> Option<string> {
    d => if Contributes(d, year, month) then Some(d.op.category) else None
  }

  /** The categories of the analysis, in the order they are first met. */
  function CashbackCategories(ds: seq<Dated>, year: int, month: int): seq<string> {
    GroupKeys(ds, CashbackKey(year, month))
  }

  /** The cashback the analysis reports for `category`. */
  function CashbackIn(ds: seq<Dated>, year: int, month: int, category: string): real {
    GroupSum(ds, CashbackKey(year, month), RecordCashback, category)
  }

  /** The dict `cashback_analysis`: its keys in insertion order and its values. */
  datatype CashbackAnalysis = CashbackAnalysis(categories: seq<string>, totals: map<string, real>)

  /** The body of the loop of `analyze_cashback` for one record whose
      timestamp parsed: a spend of the month adds its cashback to its
      category, inserting the category last when it is new. */
  method AddRecord(ghost dated: seq<Dated>, d: Dated, year: int, month: int,
                   analysis: map<string, real>, order: seq<string>)
    returns (analysis': map<string, real>, order': seq<string>)
    requires Tally(dated, CashbackKey(year, month), RecordCashback, order, analysis)
    ensures Tally(dated + [d], CashbackKey(year, month), RecordCashback, order', analysis')
  {
    ghost var key := CashbackKey(year, month);
    TallyAppend(dated, d, key, RecordCashback, order, analysis);
    analysis', order' := analysis, order;
    if d.at.year == year && d.at.month == month {
      var category := d.op.category;
      var amount := d.op.amount;
      if amount < 0.0 {
        var cashback: real;
        if d.op.cashback.Some? && d.op.cashback.value >= 0.0 {
          cashback := d.op.cashback.value;
        } else {
          cashback := Round(amount * -0.01, 5);
        }
        assert key(d) == Some(category) && RecordCashback(d) == cashback;
        if category in analysis' {
          analysis' := analysis'[category := analysis'[category] + cashback];
        } else {
          analysis' := analysis'[category := cashback];
          order' := order' + [category];
        }
      } else {
        assert key(d).None?;
      }
    } else {
      assert key(d).None?;
    }
  }

  /** The loop of `analyze_cashback`. A timestamp that does not parse raises
      inside the `try`, whatever its month, and the function then returns the
      empty text; that outcome is `Failure`. */
  method AnalyzeCashback(ops: seq<Operation>, year: int, month: int) returns (r: Result<CashbackAnalysis>)
    ensures r.Failure? <==> !AllDated(ops)
    ensures r.Failure? ==> r.error == Unparseable
    ensures r.Success? ==> ParseDates(ops).Success?
    ensures r.Success? ==> r.value.categories == CashbackCategories(ParseDates(ops).value, year, month)
    ensures r.Success? ==> r.value.totals.Keys == set c | c in r.value.categories
    ensures r.Success? ==> forall c :: c in r.value.totals ==>
              r.value.totals[c] == CashbackIn(ParseDates(ops).value, year, month, c)
  {
    var analysis: map<string, real> := map[];
    var order: seq<string> := [];  // the insertion order of `analysis`
    ghost var dated: seq<Dated> := [];
    for i := 0 to |ops|
      invariant ParseDates(ops[..i]) == Success(dated)
      invariant Tally(dated, CashbackKey(year, month), RecordCashback, order, analysis)
    {
      var operationDate := ParseDateTime(ops[i].date);
      if operationDate.None? {
        return Failure(Unparseable);
      }
      var d := Dated(ops[i], operationDate.value);
      ParseDatesStep(ops, i, operationDate.value);
      analysis, order := AddRecord(dated, d, year, month, analysis, order);
      dated := dated + [d];
    }
    assert ops[..|ops|] == ops;
    ParseDatesSpec(ops);
    r := Success(CashbackAnalysis(order, analysis));
  }

  /** The categories are exactly those of the month's spends, each listed
      once, with no category left out: unlike the card report, transfers and
      cash withdrawals earn here too. */
  lemma {:induction false} CashbackCategoriesSpec(ds: seq<Dated>, year: int, month: int)
    ensures Distinct(CashbackCategories(ds, year, month))
    ensures forall c :: c in CashbackCategories(ds, year, month) <==>
              exists i :: 0 <= i < |ds| && Contributes(ds[i], year, month) && ds[i].op.category == c
    ensures forall n :: 0 <= n <= |ds| ==> CashbackCategories(ds[..n], year, month) <= CashbackCategories(ds, year, month)
  {
    GroupKeysMembers(ds, CashbackKey(year, month));
    forall n | 0 <= n <= |ds| ensures CashbackCategories(ds[..n], year, month) <= CashbackCategories(ds, year, month) {
      GroupKeysGrow(ds, CashbackKey(year, month), n);
    }
  }

  /** No category's cashback is negative. */
  lemma {:induction false} CashbackNonNegative(ds: seq<Dated>, year: int, month: int, category: string)
    ensures CashbackIn(ds, year, month, category) >= 0.0
  {
    GroupSumNonNegative(ds, CashbackKey(year, month), RecordCashback, category);
  }

  /** The cashback of every spend of the month, added up. */
  function MonthCashback(ds: seq<Dated>, year: int, month: int): (total: real)
    ensures total >= 0.0
    decreases |ds|
  {
    if ds == [] then 0.0
    else
      var d := ds[|ds| - 1];
      MonthCashback(ds[..|ds| - 1], year, month) + (if Contributes(d, year, month) then RecordCashback(d) else 0.0)
  }

  /** The per-category totals add up to the cashback of all the month's spends. */
  lemma {:induction false} CategoriesAddUp(ds: seq<Dated>, year: int, month: int)
    ensures SumOverKeys(ds, CashbackKey(year, month), RecordCashback, CashbackCategories(ds, year, month))
            == MonthCashback(ds, year, month)
  {
    SumOverAllKeys(ds, CashbackKey(year, month), RecordCashback);
    KeyedTotalIsMonthCashback(ds, year, month);
  }

  lemma {:induction false} KeyedTotalIsMonthCashback(ds: seq<Dated>, year: int, month: int)
    ensures KeyedTotal(ds, CashbackKey(year, month), RecordCashback) == MonthCashback(ds, year, month)
    decreases |ds|
  {
    if ds != [] {
      KeyedTotalIsMonthCashback(ds[..|ds| - 1], year, month);
    }
  }

  /** The month's spends, in their order. */
  function SpendsOfMonth(ds: seq<Dated>, year: int, month: int): (r: seq<Dated>)
    ensures forall d :: d in r ==> d in ds && Contributes(d, year, month)
  {
    Keyed(ds, CashbackKey(year, month))
  }

  /** Records of other months and income change nothing: the month's spends
      alone give the same categories, in the same order, with the same totals. */
  lemma {:induction false} OnlyMonthSpendsCount(ds: seq<Dated>, year: int, month: int)
    ensures CashbackCategories(SpendsOfMonth(ds, year, month), year, month) == CashbackCategories(ds, year, month)
    ensures forall c :: CashbackIn(SpendsOfMonth(ds, year, month), year, month, c) == CashbackIn(ds, year, month, c)
  {
    KeyedGroupAlike(ds, CashbackKey(year, month), RecordCashback);
  }

  /** The fields of the example's timestamp. */
  lemma MidMayFields(s: string)
    requires s == "15.05.2020 10:00:00"
    ensures s[0..2] == "15" && s[3..5] == "05" && s[6..10] == "2020"
    ensures s[11..13] == "10" && s[14..16] == "00" && s[17..19] == "00"
  {
  }

  /** The values of those fields. */
  lemma MidMayNumbers()
    ensures ParseNat("15") == Some(15) && ParseNat("05") == Some(5) && ParseNat("2020") == Some(2020)
    ensures ParseNat("10") == Some(10) && ParseNat("00") == Some(0)
  {
    ParseTwoDigits("15");
    ParseTwoDigits("05");
    ParseFourDigits("2020");
    ParseTwoDigits("10");
    ParseTwoDigits("00");
  }

  /** The timestamp of the example parses to 15 May 2020, 10:00:00. */
  lemma MidMayTimestamp()
    ensures ParseDateTime("15.05.2020 10:00:00") == Some(DateTime(2020, 5, 15, 10, 0, 0))
  {
    MidMayFields("15.05.2020 10:00:00");
    MidMayNumbers();
  }

  const MidMay := DateTime(2020, 5, 15, 10, 0, 0)
  const Food := Dated(Operation("15.05.2020 10:00:00", -1000.0, "Food", None, None, ""), MidMay)
  const Transfer := Dated(Operation("15.05.2020 10:00:00", -500.0, Utils.Transfers, None, None, ""), MidMay)
  const Salary := Dated(Operation("15.05.2020 10:00:00", 3000.0, "Salary", None, None, ""), MidMay)

  /** One per cent of a 1000 spend is 10.0 and of a 500 spend 5.0, already
      exact at five decimals. */
  lemma MayCashbacks()
    ensures RecordCashback(Food) == 10.0 && RecordCashback(Transfer) == 5.0
  {
    RoundExact(10.0, 5, 1000000);
    RoundExact(5.0, 5, 500000);
  }

  /** In May 2020 a 1000 spend on food with no reported cashback earns 10.0;
      a 500 transfer earns 5.0, because no category is excluded here; income
      earns nothing and adds no category. */
  lemma MayExample()
    ensures CashbackCategories([Food, Transfer, Salary], 2020, 5) == ["Food", Utils.Transfers]
    ensures CashbackIn([Food, Transfer, Salary], 2020, 5, "Food") == 10.0
    ensures CashbackIn([Food, Transfer, Salary], 2020, 5, Utils.Transfers) == 5.0
  {
    var key := CashbackKey(2020, 5);
    MayCashbacks();
    assert key(Food) == Some("Food");
    assert key(Transfer) == Some(Utils.Transfers);
    assert key(Salary) == None;
    assert "Food" != Utils.Transfers;
    GroupAppend([], Food, key, RecordCashback);
    GroupAppend([Food], Transfer, key, RecordCashback);
    GroupAppend([Food, Transfer], Salary, key, RecordCashback);
    assert [] + [Food] == [Food] && [Food] + [Transfer] == [Food, Transfer];
    assert [Food, Transfer] + [Salary] == [Food, Transfer, Salary];
  }
}
