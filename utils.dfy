/** The home-page helpers: the date filter, the greeting, the per-card
    roll-up and the five largest operations. */
module Utils {
  import opened Wrappers
  import opened Dates
  import opened Money
  import opened Operations
  import opened Grouping

  // =====================================================================
  // filter_operations_by_date

  /** The inclusive bounds the filter compares each timestamp against. */
  datatype Window = Window(start: DateTime, end: DateTime)

  /** From the day text `inputDate` ("DD.MM.YYYY"): `end` is midnight of the
      following day and `start` is midnight on the first of END's month. */
  function DateWindow(inputDate: string): (r: Result<Window>)
    ensures r.Success? ==> Valid(r.value.start) && Valid(r.value.end) && LessEq(r.value.start, r.value.end)
  {
    match ParseDayMonthYear(inputDate)
    case None => Failure(Unparseable)
    case Some(day) => WindowAfter(day)
  }

  /** The window of the text of any day is the window after that day's
      midnight. */
  lemma DateWindowOfDay(t: DateTime)
    requires Valid(t)
    ensures DateWindow(FormatDayMonthYear(t)) == WindowAfter(t.(hour := 0, minute := 0, second := 0))
  {
    ParseFormatDayMonthYear(t);
  }

  /** The window for a parsed input day; fails only past 31 December 9999. */
  function WindowAfter(day: DateTime): (r: Result<Window>)
    requires Valid(day)
    ensures r.Success? ==> Valid(r.value.start) && Valid(r.value.end) && LessEq(r.value.start, r.value.end)
    ensures r.Failure? <==> (day.year, day.month, day.day) == (MaxYear, 12, 31)
    ensures r.Failure? ==> r.error == Overflow
    ensures r.Success? ==> r.value.end == AddOneDay(day).value && r.value.start == MonthStart(r.value.end)
  {
    match AddOneDay(day)
    case None => Failure(Overflow)
    case Some(end) => Success(Window(MonthStart(end), end))
  }

  predicate InWindow(w: Window, t: DateTime) {
    LessEq(w.start, t) && LessEq(t, w.end)
  }

  predicate KeptBy(w: Window, op: Operation) {
    ParseDateTime(op.date).Some? && InWindow(w, ParseDateTime(op.date).value)
  }

  /** The list comprehension: every timestamp is parsed, and one that does not
      parse aborts the whole filter. */
  function KeepInWindow(ops: seq<Operation>, w: Window): (r: Result<seq<Operation>>)
    ensures r.Success? ==> |r.value| <= |ops|
    ensures r.Failure? ==> r.error == Unparseable
    decreases |ops|
  {
    if ops == [] then Success([])
    else match ParseDateTime(ops[0].date)
      case None => Failure(Unparseable)
      case Some(t) =>
        match KeepInWindow(ops[1..], w)
        case Failure(e) => Failure(e)
        case Success(rest) => Success(if InWindow(w, t) then [ops[0]] + rest else rest)
  }

  function FilterOperationsByDate(ops: seq<Operation>, inputDate: string): (r: Result<seq<Operation>>)
    ensures ParseDayMonthYear(inputDate).None? ==> r == Failure(Unparseable)
    ensures r.Success? ==> |r.value| <= |ops|
    ensures r.Failure? ==> r.error == Unparseable || r.error == Overflow
  {
    match DateWindow(inputDate)
    case Failure(e) => Failure(e)
    case Success(w) => KeepInWindow(ops, w)
  }

  /** `s` is `t` with some items left out, the rest in their original order. */
  predicate IsSubsequence<T(==)>(s: seq<T>, t: seq<T>)
    decreases |t|
  {
    if s == [] then true
    else if t == [] then false
    else if s[0] == t[0] then IsSubsequence(s[1..], t[1..])
    else IsSubsequence(s, t[1..])
  }

  lemma {:induction false} SubsequenceOfTail<T>(s: seq<T>, t: seq<T>)
    requires t != [] && IsSubsequence(s, t[1..])
    ensures IsSubsequence(s, t)
    decreases |t|, 0
  {
    if s != [] && s[0] == t[0] {
      SubsequenceDropFirst(s, t[1..]);
    }
  }

  lemma {:induction false} SubsequenceDropFirst<T>(s: seq<T>, t: seq<T>)
    requires s != [] && IsSubsequence(s, t)
    ensures IsSubsequence(s[1..], t)
    decreases |t|, 1
  {
    if s[0] != t[0] {
      SubsequenceDropFirst(s, t[1..]);
      SubsequenceOfTail(s[1..], t);
    } else {
      SubsequenceOfTail(s[1..], t);
    }
  }

  /** The filter fails exactly when some timestamp text does not parse, and
      otherwise keeps, in their original order, precisely the operations
      whose timestamp lies in the window, every copy of each. */
  lemma {:induction false} KeepInWindowSpec(ops: seq<Operation>, w: Window)
    ensures KeepInWindow(ops, w).Success? <==> AllDated(ops)
    ensures KeepInWindow(ops, w).Success? ==>
              && IsSubsequence(KeepInWindow(ops, w).value, ops)
              && forall op :: multiset(KeepInWindow(ops, w).value)[op]
                                == if KeptBy(w, op) then multiset(ops)[op] else 0
    decreases |ops|
  {
    if ops != [] {
      KeepInWindowSpec(ops[1..], w);
      assert ops == [ops[0]] + ops[1..];
      if ParseDateTime(ops[0].date).None? {
        assert !AllDated(ops);
      } else {
        assert AllDated(ops) <==> AllDated(ops[1..]) by {
          if AllDated(ops[1..]) {
            forall i | 0 <= i < |ops| ensures ParseDateTime(ops[i].date).Some? {
              if i > 0 { assert ops[i] == ops[1..][i - 1]; }
            }
          }
          if AllDated(ops) {
            forall i | 0 <= i < |ops| - 1 ensures ParseDateTime(ops[1..][i].date).Some? {
              assert ops[1..][i] == ops[i + 1];
            }
          }
        }
        var r := KeepInWindow(ops, w);
        if r.Success? {
          var rest := KeepInWindow(ops[1..], w).value;
          if KeptBy(w, ops[0]) {
            assert r.value == [ops[0]] + rest;
            assert r.value[1..] == rest;
          } else {
            assert r.value == rest;
            SubsequenceOfTail(rest, ops);
          }
        }
      }
    }
  }

  /** How the window sits around the input day: `end` is exactly one day after
      the day's midnight; on any day but the last of its month `start` is the
      first of the same month, while on the last day of a month the window
      collapses to the single instant of midnight on the 1st of the next
      month. */
  lemma FilterWindowShape(inputDate: string)
    requires DateWindow(inputDate).Success?
    ensures var d := ParseDayMonthYear(inputDate).value;
            var w := DateWindow(inputDate).value;
            && Instant(w.end) == Instant(d) + SecondsPerDay
            && (d.day < DaysInMonth(d.year, d.month) ==> w.start == MonthStart(d))
            && (d.day == DaysInMonth(d.year, d.month) ==> w.start == w.end)
  {
    AddOneDayInstant(ParseDayMonthYear(inputDate).value);
  }

  /** The filter succeeds exactly when the input day parses and is not the
      last day of year 9999 and every timestamp parses; it then keeps, in
      order, exactly the operations whose timestamp is in the window. */
  lemma {:induction false} FilterOperationsByDateSpec(ops: seq<Operation>, inputDate: string)
    ensures FilterOperationsByDate(ops, inputDate).Success? <==> DateWindow(inputDate).Success? && AllDated(ops)
    ensures FilterOperationsByDate(ops, inputDate).Success? ==>
              var w := DateWindow(inputDate).value;
              var kept := FilterOperationsByDate(ops, inputDate).value;
              && IsSubsequence(kept, ops)
              && forall op :: multiset(kept)[op] == if KeptBy(w, op) then multiset(ops)[op] else 0
  {
    if DateWindow(inputDate).Success? {
      KeepInWindowSpec(ops, DateWindow(inputDate).value);
    }
  }

  /** The window for 20 March 2020 runs from midnight on 1 March to
      midnight on 21 March; the window for 31 March 2020, the last day of its
      month, is the single instant 1 April 2020 00:00:00, so nothing of March
      is kept. */
  lemma FilterWindowMidMonth()
    ensures WindowAfter(DateTime(2020, 3, 20, 0, 0, 0))
            == Success(Window(DateTime(2020, 3, 1, 0, 0, 0), DateTime(2020, 3, 21, 0, 0, 0)))
  {
  }

  lemma FilterWindowMonthEnd()
    ensures WindowAfter(DateTime(2020, 3, 31, 0, 0, 0))
            == Success(Window(DateTime(2020, 4, 1, 0, 0, 0), DateTime(2020, 4, 1, 0, 0, 0)))
  {
  }

  /** On the last day of a month the window misses that month altogether: a
      purchase at 10:00 on 31 March 2020 is not kept for the input day
      "31.03.2020". */
  lemma MonthEndWindowMissesMonth()
    ensures WindowAfter(DateTime(2020, 3, 31, 0, 0, 0)).Success?
    ensures !InWindow(WindowAfter(DateTime(2020, 3, 31, 0, 0, 0)).value, DateTime(2020, 3, 31, 10, 0, 0))
  {
    FilterWindowMonthEnd();
  }

  /** The source receives the day as text: "31.03.2020" gives that window. */
  lemma MonthEndTextWindow()
    ensures DateWindow("31.03.2020") == WindowAfter(DateTime(2020, 3, 31, 0, 0, 0))
  {
    MarchDay("31.03.2020", 31);
  }

  /** The window the function's own description promises: from the first of
      the input day's month through the input day, with the same inclusive
      end at the following midnight. */
  function IntendedWindow(day: DateTime): (r: Result<Window>)
    requires Valid(day)
    ensures r.Failure? <==> (day.year, day.month, day.day) == (MaxYear, 12, 31)
    ensures r.Success? ==> r.value.start == MonthStart(day)
    ensures day.day < DaysInMonth(day.year, day.month) ==> r == WindowAfter(day)
  {
    match AddOneDay(day)
    case None => Failure(Overflow)
    case Some(end) => Success(Window(MonthStart(day), end))
  }

  /** The intended window holds exactly the moments of the input day's month
      up to the end of the input day, whatever day of the month it is, plus
      the following midnight. */
  lemma IntendedWindowCoversMonth(day: DateTime, t: DateTime)
    requires Valid(day) && TimeOfDay(day) == 0 && Valid(t) && IntendedWindow(day).Success?
    ensures InWindow(IntendedWindow(day).value, t)
            <==> ((t.year, t.month) == (day.year, day.month) && t.day <= day.day)
                 || Instant(t) == Instant(day) + SecondsPerDay
  {
    var w := IntendedWindow(day).value;
    AddOneDayInstant(day);
    LessEqIsInstantOrder(t, w.end);
    LessEqIsInstantOrder(w.start, t);
    LessEqIsInstantOrder(w.start, day);
    if (t.year, t.month) == (day.year, day.month) && t.day <= day.day {
      if t.day < day.day {
        DayNumberOrder(t, day);
      }
    } else if Instant(t) != Instant(day) + SecondsPerDay && InWindow(w, t) {
      assert DayNumber(t) <= DayNumber(day);
      DayNumberOrder(day, t);
      assert false;
    }
  }

  /** The fields of the input texts of those two examples. */
  lemma MarchDayFields(s: string)
    requires s == "20.03.2020" || s == "31.03.2020"
    ensures |s| == 10 && s[2] == '.' && s[5] == '.' && s[3..5] == "03" && s[6..10] == "2020"
    ensures s[0..2] == if s == "20.03.2020" then "20" else "31"
  {
  }

  /** The values of those fields. */
  lemma MarchDayNumbers()
    ensures Text.ParseNat("20") == Some(20) && Text.ParseNat("31") == Some(31)
    ensures Text.ParseNat("03") == Some(3) && Text.ParseNat("2020") == Some(2020)
  {
    Text.ParseTwoDigits("20");
    Text.ParseTwoDigits("31");
    Text.ParseTwoDigits("03");
    Text.ParseFourDigits("2020");
  }

  /** The input texts of those two examples parse to their days. */
  lemma MarchDay(s: string, day: int)
    requires (s == "20.03.2020" && day == 20) || (s == "31.03.2020" && day == 31)
    ensures ParseDayMonthYear(s) == Some(DateTime(2020, 3, day, 0, 0, 0))
  {
    MarchDayFields(s);
    MarchDayNumbers();
  }

  // =====================================================================
  // greeting

  const Morning := "Доброе утро"
  const Afternoon := "Добрый день"
  const Evening := "Добрый вечер"
  const Night := "Доброй ночи"

  /** The greeting for the hour of the local clock: exactly one of four. */
  function Greeting(hour: int): (g: string)
    ensures g == Morning <==> 6 <= hour < 12
    ensures g == Afternoon <==> 12 <= hour < 18
    ensures g == Evening <==> 18 <= hour < 23
    ensures g == Night <==> hour < 6 || 23 <= hour
  {
    if 6 <= hour < 12 then Morning
    else if 12 <= hour < 18 then Afternoon
    else if 18 <= hour < 23 then Evening
    else Night
  }

  // =====================================================================
  // get_cards_data

  const Transfers := "Переводы"
  const Cash := "Наличные"

  /** Transfers and cash withdrawals never earn cashback. */
  predicate EarnsCashback(category: string) {
    category != Transfers && category != Cash
  }

  /** The card a record is attributed to; `None` skips the record entirely. */
  function CardKey(op: Operation): Option<string> {
    if HasCard(op) then Some(op.card.value) else None
  }

  /** What one record adds to its card's `total_spent`: the size of a spend. */
  function SpendOf(op: Operation): (s: real)
    ensures s >= 0.0
    ensures s > 0.0 <==> op.amount < 0.0
    ensures op.amount < 0.0 ==> s == -op.amount
  {
    if op.amount < 0.0 then Abs(op.amount) else 0.0
  }

  /** What one record adds to its card's `cashback`: nothing for income and
      for the excluded categories; otherwise the reported cashback when it is
      there and not negative, else one per cent of the spend. */
  function CardCashbackOf(op: Operation): (c: real)
    ensures c >= 0.0
    ensures op.amount >= 0.0 || !EarnsCashback(op.category) ==> c == 0.0
    ensures op.amount < 0.0 && EarnsCashback(op.category) && ReportsCashback(op) ==> c == op.cashback.value
    ensures op.amount < 0.0 && EarnsCashback(op.category) && !ReportsCashback(op) ==> c * 100.0 == -op.amount
  {
    if op.amount < 0.0 && EarnsCashback(op.category) then
      if op.cashback.Some? then
        if op.cashback.value >= 0.0 then op.cashback.value else op.amount * -0.01
      else op.amount * -0.01
    else 0.0
  }

  function CardKeys(ops: seq<Operation>): seq<string> {
    GroupKeys(ops, CardKey)
  }

  function SpentOn(ops: seq<Operation>, card: string): real {
    GroupSum(ops, CardKey, SpendOf, card)
  }

  function CashbackOn(ops: seq<Operation>, card: string): real {
    GroupSum(ops, CardKey, CardCashbackOf, card)
  }

  /** One entry of the card report. */
  datatype CardSummary = CardSummary(lastDigits: string, totalSpent: real, cashback: real)

  /** A running total of the dict `card_data`. */
  datatype Totals = Totals(spent: real, cashback: real)

  /** `cardData` with its insertion order `seen` is the dict the loop of
      `get_cards_data` has built from `done`: one entry per usable card, in
      the order first met, holding that card's running totals. */
  predicate CardTally(done: seq<Operation>, seen: seq<string>, cardData: map<string, Totals>) {
    && seen == CardKeys(done)
    && cardData.Keys == set c | c in seen
    && forall c :: c in cardData ==> cardData[c] == Totals(SpentOn(done, c), CashbackOn(done, c))
  }

  /** The loop step: a record without a usable card changes nothing; a
      record with one adds its spend and its cashback to the card's totals,
      inserting the card last, with zero totals, when it is new. */
  lemma {:induction false} CardTallyAppend(done: seq<Operation>, op: Operation, seen: seq<string>, cardData: map<string, Totals>)
    requires CardTally(done, seen, cardData)
    ensures !HasCard(op) ==> CardTally(done + [op], seen, cardData)
    ensures HasCard(op) ==>
              var card := op.card.value;
              var base := if card in cardData then cardData[card] else Totals(0.0, 0.0);
              CardTally(done + [op], if card in cardData then seen else seen + [card],
                        cardData[card := Totals(base.spent + SpendOf(op), base.cashback + CardCashbackOf(op))])
  {
    if HasCard(op) {
      CardTallyAdd(done, op, seen, cardData);
    } else {
      GroupAppend(done, op, CardKey, SpendOf);
      GroupAppend(done, op, CardKey, CardCashbackOf);
    }
  }

  /** The step for a record with a usable card. */
  lemma {:induction false} CardTallyAdd(done: seq<Operation>, op: Operation, seen: seq<string>, cardData: map<string, Totals>)
    requires CardTally(done, seen, cardData) && HasCard(op)
    ensures var card := op.card.value;
            var base := if card in cardData then cardData[card] else Totals(0.0, 0.0);
            CardTally(done + [op], if card in cardData then seen else seen + [card],
                      cardData[card := Totals(base.spent + SpendOf(op), base.cashback + CardCashbackOf(op))])
  {
    if op.card.value in cardData {
      CardTallyAddSeen(done, op, op.card.value, seen, cardData);
    } else {
      CardTallyAddNew(done, op, op.card.value, seen, cardData);
    }
  }

  /** A record of a card already listed adds to its totals. */
  lemma {:induction false} CardTallyAddSeen(done: seq<Operation>, op: Operation, card: string, seen: seq<string>, cardData: map<string, Totals>)
    requires CardTally(done, seen, cardData) && CardKey(op) == Some(card) && card in cardData
    ensures CardTally(done + [op], seen,
                      cardData[card := Totals(cardData[card].spent + SpendOf(op), cardData[card].cashback + CardCashbackOf(op))])
  {
    GroupAppend(done, op, CardKey, SpendOf);
    GroupAppend(done, op, CardKey, CardCashbackOf);
  }

  /** A record of a new card lists it last, with the record's own totals. */
  lemma {:induction false} CardTallyAddNew(done: seq<Operation>, op: Operation, card: string, seen: seq<string>, cardData: map<string, Totals>)
    requires CardTally(done, seen, cardData) && CardKey(op) == Some(card) && card !in cardData
    ensures CardTally(done + [op], seen + [card], cardData[card := Totals(SpendOf(op), CardCashbackOf(op))])
  {
    GroupAppend(done, op, CardKey, SpendOf);
    GroupAppend(done, op, CardKey, CardCashbackOf);
    UnseenKeySum(done, CardKey, SpendOf, card);
    UnseenKeySum(done, CardKey, CardCashbackOf, card);
  }

  /** The body of the first loop of `get_cards_data` for one record. */
  method AddCardRecord(ghost done: seq<Operation>, op: Operation, cardData: map<string, Totals>, seen: seq<string>)
    returns (cardData': map<string, Totals>, seen': seq<string>)
    requires CardTally(done, seen, cardData)
    ensures CardTally(done + [op], seen', cardData')
  {
    CardTallyAppend(done, op, seen, cardData);
    cardData', seen' := cardData, seen;
    if HasCard(op) {
      var card := op.card.value;
      ghost var base := if card in cardData then cardData[card] else Totals(0.0, 0.0);
      ghost var updated := cardData[card := Totals(base.spent + SpendOf(op), base.cashback + CardCashbackOf(op))];
      if card !in cardData' {
        cardData' := cardData'[card := Totals(0.0, 0.0)];
        seen' := seen' + [card];
      }
      if op.amount < 0.0 {
        var spent := cardData'[card].spent + Abs(op.amount);
        var cashback := cardData'[card].cashback;
        if op.category != Transfers && op.category != Cash {
          if op.cashback.Some? {
            var cashbackAmount := op.cashback.value;
            if cashbackAmount >= 0.0 {
              cashback := cashback + cashbackAmount;
            } else {
              cashback := cashback + op.amount * -0.01;
            }
          } else {
            cashback := cashback + op.amount * -0.01;
          }
        }
        assert Totals(spent, cashback) == updated[card];
        cardData' := cardData'[card := Totals(spent, cashback)];
      } else {
        assert cardData'[card] == updated[card];
      }
      assert cardData' == updated;
    }
  }

  method GetCardsData(ops: seq<Operation>) returns (cards: seq<CardSummary>)
    ensures |cards| == |CardKeys(ops)|
    ensures forall i :: 0 <= i < |cards| ==>
              var c := CardKeys(ops)[i];
              cards[i] == CardSummary(c, Round(SpentOn(ops, c), 2), Round(CashbackOn(ops, c), 2))
    ensures forall i :: 0 <= i < |cards| ==> cards[i].totalSpent >= 0.0 && cards[i].cashback >= 0.0
  {
    var cardData: map<string, Totals> := map[];
    var seen: seq<string> := [];  // the insertion order of `cardData`
    for i := 0 to |ops|
      invariant CardTally(ops[..i], seen, cardData)
    {
      cardData, seen := AddCardRecord(ops[..i], ops[i], cardData, seen);
      assert ops[..i + 1] == ops[..i] + [ops[i]];
    }
    assert ops[..|ops|] == ops;
    forall c | c in cardData ensures cardData[c].spent >= 0.0 && cardData[c].cashback >= 0.0 {
      GroupSumNonNegative(ops, CardKey, SpendOf, c);
      GroupSumNonNegative(ops, CardKey, CardCashbackOf, c);
    }
    cards := Summaries(seen, cardData);
  }

  /** The second loop of `get_cards_data`: one entry per card, in the dict's
      order, with both totals rounded to cents. */
  method Summaries(seen: seq<string>, cardData: map<string, Totals>) returns (cards: seq<CardSummary>)
    requires forall c :: c in seen ==> c in cardData
    ensures |cards| == |seen|
    ensures forall i :: 0 <= i < |seen| ==>
              cards[i] == CardSummary(seen[i], Round(cardData[seen[i]].spent, 2), Round(cardData[seen[i]].cashback, 2))
  {
    cards := [];
    for j := 0 to |seen|
      invariant |cards| == j
      invariant forall i :: 0 <= i < j ==>
                  cards[i] == CardSummary(seen[i], Round(cardData[seen[i]].spent, 2), Round(cardData[seen[i]].cashback, 2))
    {
      var data := cardData[seen[j]];
      cards := cards + [CardSummary(seen[j], Round(data.spent, 2), Round(data.cashback, 2))];
    }
  }

  /** The report lists exactly the usable card numbers that occur, each once,
      in the order they first occur (the keys of a prefix of the operations
      are a prefix of the keys); a record without a usable card is never
      reported, even when its card cell holds text. */
  lemma {:induction false} CardKeysSpec(ops: seq<Operation>)
    ensures Distinct(CardKeys(ops))
    ensures forall c :: c in CardKeys(ops) <==> exists i :: 0 <= i < |ops| && HasCard(ops[i]) && ops[i].card.value == c
    ensures forall c :: c in CardKeys(ops) ==> UsableCardNumber(c)
    ensures forall n :: 0 <= n <= |ops| ==> CardKeys(ops[..n]) <= CardKeys(ops)
  {
    GroupKeysMembers(ops, CardKey);
    forall c ensures (exists i :: 0 <= i < |ops| && CardKey(ops[i]) == Some(c))
                     <==> (exists i :: 0 <= i < |ops| && HasCard(ops[i]) && ops[i].card.value == c)
    {
    }
    forall n | 0 <= n <= |ops| ensures CardKeys(ops[..n]) <= CardKeys(ops) {
      GroupKeysGrow(ops, CardKey, n);
    }
  }

  /** Card records in the excluded categories count towards `total_spent`
      but never towards `cashback`: dropping them leaves the cashback as it is. */
  function WithoutExcluded(ops: seq<Operation>): (r: seq<Operation>)
    ensures forall op :: op in r ==> op in ops && EarnsCashback(op.category)
    decreases |ops|
  {
    if ops == [] then []
    else
      var rest := WithoutExcluded(ops[..|ops| - 1]);
      var op := ops[|ops| - 1];
      if EarnsCashback(op.category) then rest + [op] else rest
  }

  lemma {:induction false} ExcludedEarnNoCashback(ops: seq<Operation>, card: string)
    ensures CashbackOn(WithoutExcluded(ops), card) == CashbackOn(ops, card)
    decreases |ops|
  {
    if ops != [] {
      var rest := WithoutExcluded(ops[..|ops| - 1]);
      ExcludedEarnNoCashback(ops[..|ops| - 1], card);
      var op := ops[|ops| - 1];
      if EarnsCashback(op.category) {
        assert (rest + [op])[..|rest|] == rest;
      }
    }
  }

  /** A card whose records are all income still gets an entry, with both totals zero. */
  lemma {:induction false} IncomeOnlyCard(ops: seq<Operation>, card: string)
    requires forall i :: 0 <= i < |ops| && CardKey(ops[i]) == Some(card) ==> ops[i].amount >= 0.0
    ensures SpentOn(ops, card) == 0.0 && CashbackOn(ops, card) == 0.0
    ensures (exists i :: 0 <= i < |ops| && CardKey(ops[i]) == Some(card)) ==> card in CardKeys(ops)
    decreases |ops|
  {
    CardKeysSpec(ops);
    if ops != [] {
      IncomeOnlyCard(ops[..|ops| - 1], card);
    }
  }

  /** The two-record example: a 500 transfer and a 200 purchase with 5 of
      reported cashback on one card give 700 spent and 5 of cashback. */
  lemma CardExample()
    ensures var ops := [
              Operation("01.05.2020 10:00:00", -500.0, Transfers, None, Some("*1234"), ""),
              Operation("02.05.2020 10:00:00", -200.0, "Food", Some(5.0), Some("*1234"), "")];
            && CardKeys(ops) == ["*1234"]
            && SpentOn(ops, "*1234") == 700.0 && CashbackOn(ops, "*1234") == 5.0
            && Round(700.0, 2) == 700.0 && Round(5.0, 2) == 5.0
  {
    var ops := [
      Operation("01.05.2020 10:00:00", -500.0, Transfers, None, Some("*1234"), ""),
      Operation("02.05.2020 10:00:00", -200.0, "Food", Some(5.0), Some("*1234"), "")];
    assert Text.Strip("*1234") == "*1234";
    assert Text.Lower("*1234")[0] == '*';
    assert CardKey(ops[0]) == Some("*1234") && CardKey(ops[1]) == Some("*1234");
    assert EarnsCashback("Food") && !EarnsCashback(Transfers);
    assert CardCashbackOf(ops[0]) == 0.0 && CardCashbackOf(ops[1]) == 5.0;
    assert SpendOf(ops[0]) == 500.0 && SpendOf(ops[1]) == 200.0;
    var first := ops[..1];
    assert first == [ops[0]] && first[..0] == [] && ops[..|ops| - 1] == first;
    assert GroupKeys(first, CardKey) == ["*1234"];
    assert GroupSum(first, CardKey, SpendOf, "*1234") == 500.0;
    assert GroupSum(first, CardKey, CardCashbackOf, "*1234") == 0.0;
    RoundExact(700.0, 2, 70000);
    RoundExact(5.0, 2, 500);
  }

  // =====================================================================
  // get_top_5_operations

  function AbsAmount(op: Operation): real {
    Abs(op.amount)
  }

  predicate NonIncreasingAbs(s: seq<Operation>) {
    forall i, j :: 0 <= i < j < |s| ==> AbsAmount(s[i]) >= AbsAmount(s[j])
  }

  /** Places `op` after every record of `s` whose absolute amount is at least
      as large, so records with equal amounts keep their order. */
  function InsertByAbs(op: Operation, s: seq<Operation>): (r: seq<Operation>)
    ensures |r| == |s| + 1
    decreases |s|
  {
    if s == [] then [op]
    else if AbsAmount(s[0]) >= AbsAmount(op) then [s[0]] + InsertByAbs(op, s[1..])
    else [op] + s
  }

  /** `sorted(ops, key=abs amount, reverse=True)`: Python's sort is stable,
      also in reverse. */
  function SortByAbs(ops: seq<Operation>): (r: seq<Operation>)
    ensures |r| == |ops|
    decreases |ops|
  {
    if ops == [] then [] else InsertByAbs(ops[|ops| - 1], SortByAbs(ops[..|ops| - 1]))
  }

  /** The records of `s` whose absolute amount is `k`, in order. */
  function WithAbs(s: seq<Operation>, k: real): seq<Operation>
    decreases |s|
  {
    if s == [] then []
    else (if AbsAmount(s[0]) == k then [s[0]] else []) + WithAbs(s[1..], k)
  }

  lemma {:induction false} InsertByAbsSorted(op: Operation, s: seq<Operation>)
    requires NonIncreasingAbs(s)
    ensures NonIncreasingAbs(InsertByAbs(op, s))
    decreases |s|
  {
    if s != [] && AbsAmount(s[0]) >= AbsAmount(op) {
      InsertByAbsSorted(op, s[1..]);
      InsertByAbsPermutes(op, s[1..]);
      var r := InsertByAbs(op, s);
      var tail := InsertByAbs(op, s[1..]);
      assert r == [s[0]] + tail;
      forall j | 0 < j < |r| ensures AbsAmount(r[0]) >= AbsAmount(r[j]) {
        assert r[j] == tail[j - 1];
        assert r[j] in multiset(tail);
        if r[j] != op {
          assert r[j] in multiset(s[1..]);
          var m :| 0 <= m < |s[1..]| && s[1..][m] == r[j];
          assert s[m + 1] == r[j];
        }
      }
    }
  }

  lemma {:induction false} InsertByAbsPermutes(op: Operation, s: seq<Operation>)
    ensures |InsertByAbs(op, s)| == |s| + 1
    ensures multiset(InsertByAbs(op, s)) == multiset(s) + multiset{op}
    decreases |s|
  {
    if s != [] && AbsAmount(s[0]) >= AbsAmount(op) {
      InsertByAbsPermutes(op, s[1..]);
      assert s == [s[0]] + s[1..];
    }
  }

  lemma {:induction false} InsertByAbsStable(op: Operation, s: seq<Operation>, k: real)
    requires NonIncreasingAbs(s)
    ensures WithAbs(InsertByAbs(op, s), k) == WithAbs(s, k) + (if AbsAmount(op) == k then [op] else [])
    decreases |s|, 1
  {
    var r := InsertByAbs(op, s);
    if s == [] {
      assert r == [op] && r[1..] == [];
    } else if AbsAmount(s[0]) >= AbsAmount(op) {
      InsertBehindHead(op, s, k);
    } else {
      assert r[0] == op && r[1..] == s;
      if AbsAmount(op) == k {
        NoneAbove(s, k);
      }
    }
  }

  /** The case where `op` goes behind the head of `s`. */
  lemma {:induction false} InsertBehindHead(op: Operation, s: seq<Operation>, k: real)
    requires NonIncreasingAbs(s) && s != [] && AbsAmount(s[0]) >= AbsAmount(op)
    ensures WithAbs(InsertByAbs(op, s), k) == WithAbs(s, k) + (if AbsAmount(op) == k then [op] else [])
    decreases |s|, 0
  {
    var mine := if AbsAmount(op) == k then [op] else [];
    var head := if AbsAmount(s[0]) == k then [s[0]] else [];
    var r := InsertByAbs(op, s);
    NonIncreasingTail(s);
    InsertByAbsStable(op, s[1..], k);
    assert r[0] == s[0] && r[1..] == InsertByAbs(op, s[1..]);
    calc {
      WithAbs(r, k);
      head + WithAbs(InsertByAbs(op, s[1..]), k);
      head + (WithAbs(s[1..], k) + mine);
      (head + WithAbs(s[1..], k)) + mine;
    }
  }

  lemma {:induction false} NonIncreasingTail(s: seq<Operation>)
    requires NonIncreasingAbs(s) && s != []
    ensures NonIncreasingAbs(s[1..])
  {
    forall i, j | 0 <= i < j < |s| - 1 ensures AbsAmount(s[1..][i]) >= AbsAmount(s[1..][j]) {
      assert s[1..][i] == s[i + 1] && s[1..][j] == s[j + 1];
    }
  }

  /** In a non-increasing list whose head is below `k`, nothing has amount `k`. */
  lemma {:induction false} NoneAbove(s: seq<Operation>, k: real)
    requires NonIncreasingAbs(s) && s != [] && AbsAmount(s[0]) < k
    ensures WithAbs(s, k) == []
    decreases |s|
  {
    if |s| > 1 {
      NoneAbove(s[1..], k);
    }
  }

  /** The sort orders by non-increasing absolute amount, is a permutation of
      its input, and is stable: for every amount, the records with that
      absolute amount appear in the same order as in the input. */
  lemma {:induction false} SortByAbsSpec(ops: seq<Operation>)
    ensures NonIncreasingAbs(SortByAbs(ops))
    ensures multiset(SortByAbs(ops)) == multiset(ops)
    ensures forall k :: WithAbs(SortByAbs(ops), k) == WithAbs(ops, k)
    decreases |ops|
  {
    if ops != [] {
      var init := ops[..|ops| - 1];
      var op := ops[|ops| - 1];
      SortByAbsSpec(init);
      InsertByAbsSorted(op, SortByAbs(init));
      InsertByAbsPermutes(op, SortByAbs(init));
      assert ops == init + [op];
      forall k ensures WithAbs(SortByAbs(ops), k) == WithAbs(ops, k) {
        InsertByAbsStable(op, SortByAbs(init), k);
        WithAbsAppend(init, [op], k);
      }
    }
  }

  lemma {:induction false} WithAbsAppend(s: seq<Operation>, t: seq<Operation>, k: real)
    ensures WithAbs(s + t, k) == WithAbs(s, k) + WithAbs(t, k)
    decreases |s|
  {
    if s != [] {
      WithAbsAppend(s[1..], t, k);
      assert (s + t)[0] == s[0];
      assert (s + t)[1..] == s[1..] + t;
    } else {
      assert s + t == t;
    }
  }

  /** One entry of the top-five list. */
  datatype TopOperation = TopOperation(date: string, amount: real, category: string, description: string)

  /** The body of the loop of `get_top_5_operations` for one record: its
      timestamp is parsed and written back as its day, "DD.MM.YYYY", which
      is the first ten characters of the timestamp text. */
  method TopEntry(op: Operation) returns (e: Option<TopOperation>)
    ensures e.Some? <==> ParseDateTime(op.date).Some?
    ensures e.Some? ==> e.value == TopOperation(op.date[..10], op.amount, op.category, op.description)
  {
    var parsed := ParseDateTime(op.date);
    if parsed.None? {
      return None;
    }
    DayOfParsedDateTime(op.date);
    var date := FormatDayMonthYear(parsed.value);
    e := Some(TopOperation(date, op.amount, op.category, op.description));
  }

  /** The entries for the records `s`, in order, or `None` when the timestamp
      of one of them does not parse. */
  function TopEntries(s: seq<Operation>): (r: Option<seq<TopOperation>>)
    ensures r.Some? ==> |r.value| == |s|
    decreases |s|
  {
    if s == [] then Some([])
    else match TopEntries(s[..|s| - 1])
      case None => None
      case Some(init) =>
        var op := s[|s| - 1];
        if ParseDateTime(op.date).None? then None
        else Some(init + [TopOperation(op.date[..10], op.amount, op.category, op.description)])
  }

  /** The entries exist exactly when every timestamp parses, and then there is
      one per record, in order, holding its day, amount, category and description. */
  lemma TopEntriesSpec(s: seq<Operation>)
    ensures TopEntries(s).Some? <==> forall k :: 0 <= k < |s| ==> ParseDateTime(s[k].date).Some?
    ensures TopEntries(s).Some? ==>
              && |TopEntries(s).value| == |s|
              && forall k :: 0 <= k < |s| ==>
                   TopEntries(s).value[k] == TopOperation(s[k].date[..10], s[k].amount, s[k].category, s[k].description)
  {
    TopEntriesDefined(s);
    if TopEntries(s).Some? {
      TopEntriesContents(s);
    }
  }

  /** When the entries exist: exactly when every timestamp parses. */
  lemma {:induction false} TopEntriesDefined(s: seq<Operation>)
    ensures TopEntries(s).Some? <==> forall k :: 0 <= k < |s| ==> ParseDateTime(s[k].date).Some?
    decreases |s|
  {
    if s != [] {
      var init := s[..|s| - 1];
      TopEntriesDefined(init);
      assert forall k :: 0 <= k < |s| - 1 ==> s[k] == init[k];
    }
  }

  /** What the entries hold: one per record, in order. */
  lemma {:induction false} TopEntriesContents(s: seq<Operation>)
    requires TopEntries(s).Some?
    ensures forall k :: 0 <= k < |s| ==>
              ParseDateTime(s[k].date).Some? &&
              TopEntries(s).value[k] == TopOperation(s[k].date[..10], s[k].amount, s[k].category, s[k].description)
    decreases |s|
  {
    if s != [] {
      var init := s[..|s| - 1];
      TopEntriesContents(init);
      assert forall k :: 0 <= k < |s| - 1 ==> s[k] == init[k];
    }
  }

  /** The first five records by absolute amount (all of them when there are
      fewer). */
  function Largest5(ops: seq<Operation>): (r: seq<Operation>)
    ensures |r| == if |ops| < 5 then |ops| else 5
  {
    SortByAbs(ops)[..if |ops| < 5 then |ops| else 5]
  }

  /** The first five records by absolute amount, each reduced to its day
      ("DD.MM.YYYY"), amount, category and description; fails when one of
      those five has a timestamp that does not parse. */
  method GetTop5Operations(ops: seq<Operation>) returns (r: Result<seq<TopOperation>>)
    ensures r == match TopEntries(Largest5(ops))
                 case None => Failure(Unparseable)
                 case Some(top) => Success(top)
  {
    var sorted := SortByAbs(ops);
    var n := if |sorted| < 5 then |sorted| else 5;
    assert sorted[..n] == Largest5(ops);
    var top: seq<TopOperation> := [];
    for k := 0 to n
      invariant TopEntries(sorted[..k]) == Some(top)
    {
      var entry := TopEntry(sorted[k]);
      TopEntriesStep(sorted, n, k, entry);
      if entry.None? {
        r := Failure(Unparseable);
        return;
      }
      top := top + [entry.value];
    }
    r := Success(top);
  }

  /** One more record: its entry is appended, or it fails the entries when
      its timestamp does not parse. */
  lemma {:induction false} TopEntriesStep(s: seq<Operation>, n: nat, k: nat, e: Option<TopOperation>)
    requires k < n <= |s| && TopEntries(s[..k]).Some?
    requires e.Some? <==> ParseDateTime(s[k].date).Some?
    requires e.Some? ==> e.value == TopOperation(s[k].date[..10], s[k].amount, s[k].category, s[k].description)
    ensures e.Some? ==> TopEntries(s[..k + 1]) == Some(TopEntries(s[..k]).value + [e.value])
    ensures e.None? ==> TopEntries(s[..n]).None?
  {
    assert s[..k + 1][..k] == s[..k];
    if e.None? {
      assert s[..n][k] == s[k];
      TopEntriesFail(s[..n], k);
    }
  }

  /** A record whose timestamp does not parse fails all the entries. */
  lemma {:induction false} TopEntriesFail(s: seq<Operation>, k: nat)
    requires k < |s| && ParseDateTime(s[k].date).None?
    ensures TopEntries(s).None?
  {
    TopEntriesSpec(s);
  }

  /** The top entries come in non-increasing order of absolute amount, one
      per record of the first five, each taken from an input record whose
      timestamp parses, with its day, amount, category and description. */
  lemma {:induction false} TopIsLargest(ops: seq<Operation>)
    requires TopEntries(Largest5(ops)).Some?
    ensures var top := TopEntries(Largest5(ops)).value;
            && |top| == |Largest5(ops)|
            && (forall i, j :: 0 <= i < j < |top| ==> Abs(top[i].amount) >= Abs(top[j].amount))
            && forall k :: 0 <= k < |top| ==>
                 exists op :: op in ops && ParseDateTime(op.date).Some?
                              && top[k] == TopOperation(op.date[..10], op.amount, op.category, op.description)
  {
    var top := TopEntries(Largest5(ops)).value;
    var largest := Largest5(ops);
    var sorted := SortByAbs(ops);
    SortByAbsSpec(ops);
    TopEntriesSpec(largest);
    forall k | 0 <= k < |top|
      ensures exists op :: op in ops && ParseDateTime(op.date).Some?
                           && top[k] == TopOperation(op.date[..10], op.amount, op.category, op.description)
    {
      assert largest[k] == sorted[k] && sorted[k] in multiset(ops);
    }
    forall i, j | 0 <= i < j < |top| ensures Abs(top[i].amount) >= Abs(top[j].amount) {
      assert largest[i] == sorted[i] && largest[j] == sorted[j];
      assert AbsAmount(sorted[i]) >= AbsAmount(sorted[j]);
    }
  }

  /** No record left out of the first five has a larger absolute amount than
      any record kept. */
  lemma {:induction false} Largest5Beats(ops: seq<Operation>)
    ensures forall k, m :: 0 <= k < |Largest5(ops)| && 5 <= m < |ops| ==>
              AbsAmount(Largest5(ops)[k]) >= AbsAmount(SortByAbs(ops)[m])
    ensures multiset(Largest5(ops)) <= multiset(ops)
  {
    var sorted := SortByAbs(ops);
    var n := |Largest5(ops)|;
    SortByAbsSpec(ops);
    assert sorted == sorted[..n] + sorted[n..];
    forall k, m | 0 <= k < n && 5 <= m < |ops| ensures AbsAmount(Largest5(ops)[k]) >= AbsAmount(sorted[m]) {
      assert Largest5(ops)[k] == sorted[k];
    }
  }
}
