/** One row of the bank export, as the spreadsheet loader hands it over. */
module Operations {
  import opened Wrappers
  import opened Text
  import opened Dates

  datatype Operation = Operation(
    date: string,            // "Дата операции": text "DD.MM.YYYY HH:MM:SS"
    amount: real,            // "Сумма операции": negative for spend, positive for income
    category: string,        // "Категория"
    cashback: Option<real>,  // "Кэшбэк": None for a missing, None or NaN cell
    card: Option<string>,    // "Номер карты": None for a missing or NaN cell
    description: string)     // "Описание"

  function Abs(x: real): (r: real)
    ensures r >= 0.0 && (r == x || r == -x)
  {
    if x < 0.0 then -x else x
  }

  /** A card number a spend can be attributed to: not empty, and not the text
      "nan" once surrounding whitespace is stripped and letters lower-cased. */
  predicate UsableCardNumber(s: string) {
    s != "" && Lower(Strip(s)) != "nan"
  }

  /** A card number is unusable exactly when it is empty or, stripped, is
      "nan" in any mix of cases. */
  lemma UsableCardNumberSpec(s: string)
    ensures UsableCardNumber(s)
            <==> s != "" && !(|Strip(s)| == 3 && Strip(s)[0] in "nN" && Strip(s)[1] in "aA" && Strip(s)[2] in "nN")
  {
    LowerIsNan(Strip(s));
  }

  predicate HasCard(op: Operation) {
    op.card.Some? && UsableCardNumber(op.card.value)
  }

  /** The bank reported a cashback value that is not negative. */
  predicate ReportsCashback(op: Operation) {
    op.cashback.Some? && op.cashback.value >= 0.0
  }

  /** Empty text and any spelling of "nan", padded or not, attribute nothing. */
  lemma UnusableCardNumbers()
    ensures !UsableCardNumber("")
    ensures !UsableCardNumber("nan") && !UsableCardNumber(" NaN ") && !UsableCardNumber("NAN\n")
    ensures UsableCardNumber("*7197")
  {
    assert Strip(" NaN ") == "NaN" by {
      assert " NaN "[1..] == "NaN ";
      assert "NaN "[..3] == "NaN";
    }
    assert Strip("NAN\n") == "NAN" by {
      assert "NAN\n"[..3] == "NAN";
    }
    assert Lower("*7197") != "nan" by {
      assert Lower("*7197")[0] == '*';
    }
  }

  /** Every record's timestamp text parses. */
  predicate AllDated(ops: seq<Operation>) {
    forall i :: 0 <= i < |ops| ==> ParseDateTime(ops[i].date).Some?
  }

  /** A record together with its parsed timestamp. */
  datatype Dated = Dated(op: Operation, at: DateTime)

  /** Every record's timestamp parsed with `strptime`, one record after the
      other: one text that does not parse (the empty text and "nan"
      included) raises and fails the whole pass. */
  function ParseDates(ops: seq<Operation>): (r: Result<seq<Dated>>)
    ensures r.Success? ==> |r.value| == |ops|
    ensures r.Failure? ==> r.error == Unparseable
    decreases |ops|
  {
    if ops == [] then Success([])
    else
      var init := ParseDates(ops[..|ops| - 1]);
      var t := ParseDateTime(ops[|ops| - 1].date);
      if init.Failure? || t.None? then Failure(Unparseable)
      else Success(init.value + [Dated(ops[|ops| - 1], t.value)])
  }

  /** Converting one more record. */
  lemma {:induction false} ParseDatesStep(ops: seq<Operation>, i: nat, t: DateTime)
    requires i < |ops| && ParseDates(ops[..i]).Success? && ParseDateTime(ops[i].date) == Some(t)
    ensures ParseDates(ops[..i + 1]) == Success(ParseDates(ops[..i]).value + [Dated(ops[i], t)])
  {
    assert ops[..i + 1][..i] == ops[..i];
  }

  /** The conversion succeeds exactly when every timestamp parses. */
  lemma {:induction false} ParseDatesSucceeds(ops: seq<Operation>)
    ensures ParseDates(ops).Success? <==> AllDated(ops)
    decreases |ops|
  {
    if ops != [] {
      var init, last := ops[..|ops| - 1], ops[|ops| - 1];
      ParseDatesSucceeds(init);
      if AllDated(init) && ParseDateTime(last.date).Some? {
        forall i | 0 <= i < |ops| ensures ParseDateTime(ops[i].date).Some? {
          if i < |init| { assert ops[i] == init[i]; }
        }
      }
      if AllDated(ops) {
        forall i | 0 <= i < |init| ensures ParseDateTime(init[i].date).Some? {
          assert init[i] == ops[i];
        }
        assert ParseDateTime(ops[|ops| - 1].date).Some?;
      }
    }
  }

  /** A successful conversion pairs each record, in order, with its own timestamp. */
  lemma {:induction false} ParseDatesValues(ops: seq<Operation>)
    requires ParseDates(ops).Success?
    ensures forall i :: 0 <= i < |ops| ==>
              ParseDates(ops).value[i].op == ops[i] && ParseDateTime(ops[i].date) == Some(ParseDates(ops).value[i].at)
    decreases |ops|
  {
    if ops != [] {
      var init, last := ops[..|ops| - 1], ops[|ops| - 1];
      ParseDatesValues(init);
      var ds := ParseDates(init).value;
      assert ParseDates(ops).value == ds + [Dated(last, ParseDateTime(last.date).value)];
      forall i | 0 <= i < |init|
        ensures ParseDates(ops).value[i].op == ops[i] && ParseDateTime(ops[i].date) == Some(ParseDates(ops).value[i].at)
      {
        assert ops[i] == init[i];
      }
    }
  }

  /** Both halves together. */
  lemma {:induction false} ParseDatesSpec(ops: seq<Operation>)
    ensures ParseDates(ops).Success? <==> AllDated(ops)
    ensures ParseDates(ops).Success? ==>
              forall i :: 0 <= i < |ops| ==>
                ParseDates(ops).value[i].op == ops[i] && ParseDateTime(ops[i].date) == Some(ParseDates(ops).value[i].at)
  {
    ParseDatesSucceeds(ops);
    if ParseDates(ops).Success? {
      ParseDatesValues(ops);
    }
  }
}
