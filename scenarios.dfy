/** Worked examples of the ledger's behaviour on small concrete tables. */
module Scenarios {
  import opened Wrappers
  import opened Text
  import opened Dates
  import opened Transactions
  import opened Aggregates
  import opened Budget

  /** One Food purchase of 1200.00 against the default limits of 1000.00
      raises the Food warning carrying both amounts, and no other warning. */
  lemma OverBudgetFood()
    ensures var v := [Transaction(Date(2024, 3, 15), 120000, Food, "Groceries")];
      forall a :: a in AlertsFor(v, DefaultLimits(), Categories) <==> a == Alert(Food, 120000, 100000)
  {
    var v := [Transaction(Date(2024, 3, 15), 120000, Food, "Groceries")];
    var limits := DefaultLimits();
    var alerts := AlertsFor(v, limits, Categories);
    AlertsForMembers(v, limits, Categories);
    assert CategorySum(v, Food) == 120000;
    forall c | c != Food ensures CategorySum(v, c) == 0 {
      assert Filter(v, {c}) == [];
    }
    assert Alert(Food, 120000, 100000) in alerts;
    assert forall a :: a in alerts ==> a == Alert(Food, 120000, 100000);
  }

  /** With Food (300.00) and Transport (150.00) rows and only Food selected,
      the table holds just the Food row. */
  lemma FoodOnlyTable()
    ensures var food := Transaction(Date(2024, 3, 1), 30000, Food, "Lunch");
      var bus := Transaction(Date(2024, 3, 2), 15000, Transport, "Bus");
      TableView([food, bus], {Food}) == [food]
  {
    var food := Transaction(Date(2024, 3, 1), 30000, Food, "Lunch");
    var bus := Transaction(Date(2024, 3, 2), 15000, Transport, "Bus");
    assert Filter([food, bus], {Food}) == [food];
    assert SortNewestFirst([food][1..]) == [];
  }

  /** With the same rows and only Food selected, the breakdown shows
      Food = 300.00 and a total of 300.00. */
  lemma FoodOnlyBreakdown()
    ensures var food := Transaction(Date(2024, 3, 1), 30000, Food, "Lunch");
      var bus := Transaction(Date(2024, 3, 2), 15000, Transport, "Bus");
      SpendingBreakdown(Filter([food, bus], {Food})) == Some(Breakdown(map[Food := 30000], 30000))
  {
    var food := Transaction(Date(2024, 3, 1), 30000, Food, "Lunch");
    var bus := Transaction(Date(2024, 3, 2), 15000, Transport, "Bus");
    assert Filter([food, bus], {Food}) == [food];
    var m := CategorySummary([food]);
    assert CategorySum([food], Food) == 30000 by {
      assert Filter([food], {Food}) == [food];
    }
    assert m.Keys == {Food};
    assert m == map[Food := 30000];
    assert Total([food]) == 30000;
  }

  /** The fields of a stored leap day read back as 2024, 2 and 29. */
  lemma LeapDayFields()
    ensures var s := "2024-02-29";
      IsoShaped(s) && DigitsValue(s[..4]) == 2024 && DigitsValue(s[5..7]) == 2 && DigitsValue(s[8..]) == 29
  {
    var s := "2024-02-29";
    assert s[..4] == "2024" && s[5..7] == "02" && s[8..] == "29";
    assert "2024"[..3] == "202" && "202"[..2] == "20" && "20"[..1] == "2" && "2"[..0] == "";
    assert "02"[..1] == "0" && "0"[..0] == "" && "29"[..1] == "2";
  }

  /** A stored leap day converts to that date. */
  lemma LeapDayConverts()
    ensures ToDatetime("2024-02-29") == Some(Date(2024, 2, 29))
  {
    LeapDayFields();
    assert IsLeapYear(2024);
  }

  /** A stored year before the timestamp range does not convert. */
  lemma EarlyYearFails()
    ensures ToDatetime("1500-01-01") == None
  {
    var s := "1500-01-01";
    assert s[..4] == "1500" && s[5..7] == "01" && s[8..] == "01";
    assert "1500"[..3] == "150" && "150"[..2] == "15" && "15"[..1] == "1" && "1"[..0] == "";
    assert "01"[..1] == "0" && "0"[..0] == "";
    assert DigitsValue("1500") == 1500;
  }

  /** A stored day that is not on the calendar does not convert. */
  lemma NonCalendarDayFails()
    ensures ToDatetime("2024-02-30") == None
  {
    var s := "2024-02-30";
    assert s[..4] == "2024" && s[5..7] == "02" && s[8..] == "30";
    assert "2024"[..3] == "202" && "202"[..2] == "20" && "20"[..1] == "2" && "2"[..0] == "";
    assert "02"[..1] == "0" && "0"[..0] == "" && "30"[..1] == "3" && "3"[..0] == "";
    assert DigitsValue("02") == 2 && DigitsValue("30") == 30;
  }

  /** A ledger holding a day that is not on the calendar, or a year before the
      timestamp range, shows no monthly totals. */
  lemma UnconvertibleLedgerHasNoMonthly()
    ensures MonthlyView([Transaction(Date(2024, 2, 30), 100, Food, "x")]) == None
    ensures MonthlyView([Transaction(Date(1500, 1, 1), 100, Food, "x")]) == None
  {
    assert !Convertible(Date(2024, 2, 30));
    assert !Convertible(Date(1500, 1, 1));
  }
}
