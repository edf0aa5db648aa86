/** The read-only views the page derives from the ledger: the category filter,
    amount totals, the per-category breakdown, the per-month totals and the
    table ordered newest first. Every view is recomputed from a snapshot of the
    records; none of them is stored. */
module Aggregates {
  import opened Wrappers
  import opened Text
  import opened Dates
  import opened Transactions

  // ---------------------------------------------------------------------------
  // Category filter

  /** The rows whose category is among the selected ones, in ledger order
      (the `isin` mask over the Category column). */
  function Filter(v: seq<Transaction>, selected: set<Category>): (r: seq<Transaction>)
    ensures |r| <= |v|
    ensures forall i :: 0 <= i < |r| ==> r[i] in v && r[i].category in selected
    ensures (forall i :: 0 <= i < |v| ==> v[i].category !in selected) ==> r == []
  {
    if v == [] then []
    else if v[0].category in selected then [v[0]] + Filter(v[1..], selected)
    else Filter(v[1..], selected)
  }

  /** The filter keeps every row whose category is selected, as many times as it
      occurs, and drops every other row. */
  lemma {:induction false} FilterCounts(v: seq<Transaction>, selected: set<Category>)
    ensures forall t :: multiset(Filter(v, selected))[t] == if t.category in selected then multiset(v)[t] else 0
  {
    if v != [] {
      FilterCounts(v[1..], selected);
      assert v == [v[0]] + v[1..];
      assert multiset(v) == multiset{v[0]} + multiset(v[1..]);
      if v[0].category in selected {
        assert multiset(Filter(v, selected)) == multiset{v[0]} + multiset(Filter(v[1..], selected));
      }
    }
  }

  /** A row is in the filtered view exactly when it is in the ledger and its
      category is selected. */
  lemma FilterMembers(v: seq<Transaction>, selected: set<Category>)
    ensures forall t :: t in Filter(v, selected) <==> t in v && t.category in selected
  {
    FilterCounts(v, selected);
  }

  /** Filtering a ledger made of two parts filters each part and keeps them in
      order; with the singleton case this fixes the relative order of the rows. */
  lemma {:induction false} FilterAppend(a: seq<Transaction>, b: seq<Transaction>, selected: set<Category>)
    ensures Filter(a + b, selected) == Filter(a, selected) + Filter(b, selected)
  {
    if a == [] {
      assert a + b == b;
    } else {
      assert (a + b)[0] == a[0] && (a + b)[1..] == a[1..] + b;
      FilterAppend(a[1..], b, selected);
    }
  }

  /** The filter leaves a ledger unchanged exactly when every row's category is selected. */
  lemma {:induction false} FilterKeepsAll(v: seq<Transaction>, selected: set<Category>)
    ensures Filter(v, selected) == v <==> forall i :: 0 <= i < |v| ==> v[i].category in selected
  {
    if v != [] {
      FilterKeepsAll(v[1..], selected);
      if v[0].category !in selected {
        assert |Filter(v, selected)| < |v|;
      }
    }
  }

  /** With the filter's default selection of every category, the filtered view
      is the whole ledger. */
  lemma DefaultFilterKeepsAll(v: seq<Transaction>)
    ensures Filter(v, AllCategories()) == v
  {
    forall i | 0 <= i < |v| ensures v[i].category in AllCategories() {
      CategoryListed(v[i].category);
    }
    FilterKeepsAll(v, AllCategories());
  }

  // ---------------------------------------------------------------------------
  // Totals

  /** The sum of the Amount column. */
  function Total(v: seq<Transaction>): (n: nat)
    ensures forall i :: 0 <= i < |v| ==> v[i].amount <= n
    ensures n == 0 <==> forall i :: 0 <= i < |v| ==> v[i].amount == 0
  {
    if v == [] then 0 else v[0].amount + Total(v[1..])
  }

  /** Totals add up over concatenation. */
  lemma {:induction false} TotalAppend(a: seq<Transaction>, b: seq<Transaction>)
    ensures Total(a + b) == Total(a) + Total(b)
  {
    if a == [] {
      assert a + b == b;
    } else {
      assert (a + b)[0] == a[0] && (a + b)[1..] == a[1..] + b;
      TotalAppend(a[1..], b);
    }
  }

  /** What the budget check spends per category: the Amount total of the rows
      whose category equals c. */
  function CategorySum(v: seq<Transaction>, c: Category): (n: nat)
    ensures n <= Total(v)
    ensures (forall i :: 0 <= i < |v| ==> v[i].category != c) ==> n == 0
  {
    FilterTotalAtMost(v, {c});
    Total(Filter(v, {c}))
  }

  /** The rows the filter keeps never add up to more than the whole ledger. */
  lemma {:induction false} FilterTotalAtMost(v: seq<Transaction>, selected: set<Category>)
    ensures Total(Filter(v, selected)) <= Total(v)
  {
    if v != [] {
      FilterTotalAtMost(v[1..], selected);
    }
  }

  /** Per-category spending is additive over concatenation of ledgers. */
  lemma CategorySumAppend(a: seq<Transaction>, b: seq<Transaction>, c: Category)
    ensures CategorySum(a + b, c) == CategorySum(a, c) + CategorySum(b, c)
  {
    FilterAppend(a, b, {c});
    TotalAppend(Filter(a, {c}), Filter(b, {c}));
  }

  // ---------------------------------------------------------------------------
  // Group-by sums

  /** The Amount total of the rows that fall in bucket k under the grouping key. */
  function KeySum<K(==)>(v: seq<Transaction>, key: Transaction -> K, k: K): (n: nat)
    ensures n <= Total(v)
    ensures (forall t :: t in v ==> key(t) != k) ==> n == 0
  {
    if v == [] then 0
    else (if key(v[0]) == k then v[0].amount else 0) + KeySum(v[1..], key, k)
  }

  /** The bucket totals for the keys ks, added up. */
  function BucketsTotal<K(==)>(v: seq<Transaction>, key: Transaction -> K, ks: seq<K>): nat {
    if ks == [] then 0 else KeySum(v, key, ks[0]) + BucketsTotal(v, key, ks[1..])
  }

  predicate Distinct<K(==)>(ks: seq<K>) {
    forall i, j :: 0 <= i < j < |ks| ==> ks[i] != ks[j]
  }

  lemma {:induction false} BucketsTotalEmpty<K>(key: Transaction -> K, ks: seq<K>)
    ensures BucketsTotal([], key, ks) == 0
  {
    if ks != [] {
      BucketsTotalEmpty(key, ks[1..]);
    }
  }

  /** One more row adds its amount to the bucket total exactly once when its
      key is among the (distinct) keys, and not at all otherwise. */
  lemma {:induction false} BucketsTotalCons<K>(t: Transaction, v: seq<Transaction>, key: Transaction -> K, ks: seq<K>)
    requires Distinct(ks)
    ensures BucketsTotal([t] + v, key, ks) == (if key(t) in ks then t.amount else 0) + BucketsTotal(v, key, ks)
  {
    if ks != [] {
      assert ([t] + v)[0] == t && ([t] + v)[1..] == v;
      BucketsTotalCons(t, v, key, ks[1..]);
      assert key(t) == ks[0] ==> key(t) !in ks[1..];
      assert key(t) in ks <==> key(t) == ks[0] || key(t) in ks[1..];
    }
  }

  /** Grouping by a key puts every row into exactly one bucket: summing the
      totals of distinct buckets that cover every row's key gives the total. */
  lemma {:induction false} BucketsCoverTotal<K>(v: seq<Transaction>, key: Transaction -> K, ks: seq<K>)
    requires Distinct(ks)
    requires forall t :: t in v ==> key(t) in ks
    ensures BucketsTotal(v, key, ks) == Total(v)
  {
    if v == [] {
      BucketsTotalEmpty(key, ks);
    } else {
      assert v == [v[0]] + v[1..];
      BucketsTotalCons(v[0], v[1..], key, ks);
      BucketsCoverTotal(v[1..], key, ks);
    }
  }

  // ---------------------------------------------------------------------------
  // Spending breakdown by category

  function CategoryOf(t: Transaction): Category {
    t.category
  }

  /** Grouping by category sums the same amounts as filtering on one category. */
  lemma {:induction false} GroupedSumIsCategorySum(v: seq<Transaction>, c: Category)
    ensures KeySum(v, CategoryOf, c) == CategorySum(v, c)
  {
    if v != [] {
      GroupedSumIsCategorySum(v[1..], c);
    }
  }

  /** The group-by over the Category column: one entry per category that occurs
      in the view, holding that category's amount total. */
  function CategorySummary(v: seq<Transaction>): (m: map<Category, nat>)
    ensures forall c :: c in m <==> exists t :: t in v && t.category == c
    ensures forall c :: c in m ==> m[c] == CategorySum(v, c)
  {
    forall c ensures KeySum(v, CategoryOf, c) == CategorySum(v, c) {
      GroupedSumIsCategorySum(v, c);
    }
    map c | c in (set t | t in v :: t.category) :: KeySum(v, CategoryOf, c)
  }

  /** The entries of a category map added up over the listed categories. */
  function MapTotal(m: map<Category, nat>, cs: seq<Category>): nat {
    if cs == [] then 0 else (if cs[0] in m then m[cs[0]] else 0) + MapTotal(m, cs[1..])
  }

  lemma {:induction false} MapTotalIsBucketsTotal(v: seq<Transaction>, cs: seq<Category>)
    ensures MapTotal(CategorySummary(v), cs) == BucketsTotal(v, CategoryOf, cs)
  {
    if cs != [] {
      MapTotalIsBucketsTotal(v, cs[1..]);
      GroupedSumIsCategorySum(v, cs[0]);
    }
  }

  /** The displayed total, the sum of the per-category entries, equals the sum
      of all amounts in the view. */
  lemma SummaryTotalIsTotal(v: seq<Transaction>)
    ensures MapTotal(CategorySummary(v), Categories) == Total(v)
  {
    MapTotalIsBucketsTotal(v, Categories);
    forall t | t in v ensures CategoryOf(t) in Categories {
      CategoryListed(t.category);
    }
    BucketsCoverTotal(v, CategoryOf, Categories);
  }

  /** The spending breakdown panel: the per-category totals and their sum. */
  datatype Breakdown = Breakdown(byCategory: map<Category, nat>, total: nat)

  /** The breakdown of the filtered view, or None (the "no transactions" note)
      when the view is empty; its total is the sum of the per-category entries
      and equals the sum of all amounts in the view. */
  function SpendingBreakdown(view: seq<Transaction>): (r: Option<Breakdown>)
    ensures r.None? <==> view == []
    ensures r.Some? ==> r.value.byCategory == CategorySummary(view)
    ensures r.Some? ==> r.value.total == MapTotal(r.value.byCategory, Categories) == Total(view)
  {
    if view == [] then None
    else
      var m := CategorySummary(view);
      SummaryTotalIsTotal(view);
      Some(Breakdown(m, MapTotal(m, Categories)))
  }

  // ---------------------------------------------------------------------------
  // Monthly totals

  /** The month bucket of a row: the (year, month) of its date. */
  function MonthKey(t: Transaction): YearMonth {
    MonthOf(t.date)
  }

  predicate Ascending(ks: seq<YearMonth>) {
    forall i, j :: 0 <= i < j < |ks| ==> MonthBefore(ks[i], ks[j])
  }

  /** Adds a month to an ascending list of distinct months. */
  function InsertMonth(ks: seq<YearMonth>, k: YearMonth): (r: seq<YearMonth>)
    requires Ascending(ks)
    ensures Ascending(r)
    ensures forall m :: m in r <==> m in ks || m == k
  {
    if ks == [] then [k]
    else if k == ks[0] then ks
    else if MonthBefore(k, ks[0]) then [k] + ks
    else
      var rest := InsertMonth(ks[1..], k);
      assert forall m :: m in ks <==> m == ks[0] || m in ks[1..];
      assert forall j :: 0 <= j < |rest| ==> MonthBefore(ks[0], rest[j]) by {
        forall j | 0 <= j < |rest| ensures MonthBefore(ks[0], rest[j]) {
          assert rest[j] in rest;
        }
      }
      [ks[0]] + rest
  }

  /** The months that occur in the ledger, ascending, each once. */
  function MonthsOf(v: seq<Transaction>): (ks: seq<YearMonth>)
    ensures Ascending(ks)
    ensures forall m :: m in ks <==> exists t :: t in v && MonthKey(t) == m
  {
    if v == [] then []
    else
      assert forall t :: t in v <==> t == v[0] || t in v[1..];
      InsertMonth(MonthsOf(v[1..]), MonthKey(v[0]))
  }

  /** One bar of the monthly chart. */
  datatype MonthTotal = MonthTotal(month: YearMonth, amount: nat)

  function MonthTotals(v: seq<Transaction>, ks: seq<YearMonth>): (r: seq<MonthTotal>)
    ensures |r| == |ks|
    ensures forall i :: 0 <= i < |ks| ==> r[i] == MonthTotal(ks[i], KeySum(v, MonthKey, ks[i]))
  {
    if ks == [] then [] else [MonthTotal(ks[0], KeySum(v, MonthKey, ks[0]))] + MonthTotals(v, ks[1..])
  }

  /** The group-by over the month column: one entry per month that occurs in
      the ledger, in ascending month order, holding that month's amount total.
      Every row's month has its entry, and no month has two. */
  function MonthlySummary(v: seq<Transaction>): (r: seq<MonthTotal>)
    ensures forall i, j :: 0 <= i < j < |r| ==> MonthBefore(r[i].month, r[j].month)
    ensures forall t :: t in v ==> exists i :: 0 <= i < |r| && r[i].month == MonthKey(t)
    ensures forall i :: 0 <= i < |r| ==>
      (exists t :: t in v && MonthKey(t) == r[i].month) && r[i].amount == KeySum(v, MonthKey, r[i].month)
  {
    var ks := MonthsOf(v);
    var r := MonthTotals(v, ks);
    assert forall t :: t in v ==> exists i :: 0 <= i < |r| && r[i].month == MonthKey(t) by {
      forall t | t in v ensures exists i :: 0 <= i < |r| && r[i].month == MonthKey(t) {
        assert MonthKey(t) in ks;
        var i :| 0 <= i < |ks| && ks[i] == MonthKey(t);
        assert r[i].month == MonthKey(t);
      }
    }
    assert forall i :: 0 <= i < |r| ==> r[i].month in ks by {
      forall i | 0 <= i < |r| ensures r[i].month in ks {
        assert r[i].month == ks[i];
      }
    }
    r
  }

  /** The sum of the bar heights. */
  function AmountsTotal(r: seq<MonthTotal>): nat {
    if r == [] then 0 else r[0].amount + AmountsTotal(r[1..])
  }

  lemma {:induction false} MonthTotalsSum(v: seq<Transaction>, ks: seq<YearMonth>)
    ensures AmountsTotal(MonthTotals(v, ks)) == BucketsTotal(v, MonthKey, ks)
  {
    if ks != [] {
      assert MonthTotals(v, ks)[1..] == MonthTotals(v, ks[1..]);
      MonthTotalsSum(v, ks[1..]);
    }
  }

  /** The monthly totals add up to the total of all amounts. */
  lemma MonthlySummaryTotal(v: seq<Transaction>)
    ensures AmountsTotal(MonthlySummary(v)) == Total(v)
  {
    var ks := MonthsOf(v);
    MonthTotalsSum(v, ks);
    assert Distinct(ks);
    BucketsCoverTotal(v, MonthKey, ks);
  }

  /** The monthly section as the page shows it. Converting the Date column
      fails as a whole when any stored date is not a calendar day inside the
      timestamp range; the section then ends in an error (None). Otherwise it
      shows the monthly totals of the whole ledger. */
  function MonthlyView(v: seq<Transaction>): (r: Option<seq<MonthTotal>>)
    ensures r.None? <==> exists i :: 0 <= i < |v| && !Convertible(v[i].date)
    ensures r.Some? ==> r.value == MonthlySummary(v) && AmountsTotal(r.value) == Total(v)
  {
    if forall i :: 0 <= i < |v| ==> Convertible(v[i].date) then
      MonthlySummaryTotal(v);
      Some(MonthlySummary(v))
    else None
  }

  // ---------------------------------------------------------------------------
  // Table order

  /** Rows ordered by date, newest first; rows of the same day in any order. */
  predicate NewestFirst(v: seq<Transaction>) {
    forall i, j :: 0 <= i < j < |v| ==> !Before(v[i].date, v[j].date)
  }

  /** Inserts one row into a newest-first list, after every row that is not older. */
  function InsertNewestFirst(t: Transaction, v: seq<Transaction>): (r: seq<Transaction>)
    requires NewestFirst(v)
    ensures NewestFirst(r)
    ensures multiset(r) == multiset(v) + multiset{t}
  {
    if v == [] || !Before(t.date, v[0].date) then [t] + v
    else
      var rest := InsertNewestFirst(t, v[1..]);
      assert v == [v[0]] + v[1..];
      InsertTailBound(t, v, rest);
      ConsNewestFirst(v[0], rest);
      [v[0]] + rest
  }

  /** A row no older than any row of a newest-first list may go in front of it. */
  lemma ConsNewestFirst(x: Transaction, v: seq<Transaction>)
    requires NewestFirst(v)
    requires forall j :: 0 <= j < |v| ==> !Before(x.date, v[j].date)
    ensures NewestFirst([x] + v)
  {
    forall i, j | 0 <= i < j < |[x] + v| ensures !Before(([x] + v)[i].date, ([x] + v)[j].date) {
      if i > 0 {
        assert ([x] + v)[i] == v[i - 1];
      }
      assert ([x] + v)[j] == v[j - 1];
    }
  }

  /** When t is older than the head of a newest-first list, the head is no
      older than any row of the tail with t inserted. */
  lemma InsertTailBound(t: Transaction, v: seq<Transaction>, rest: seq<Transaction>)
    requires v != [] && NewestFirst(v) && Before(t.date, v[0].date)
    requires multiset(rest) == multiset(v[1..]) + multiset{t}
    ensures forall j :: 0 <= j < |rest| ==> !Before(v[0].date, rest[j].date)
  {
    forall j | 0 <= j < |rest| ensures !Before(v[0].date, rest[j].date) {
      assert rest[j] in multiset(rest);
      if rest[j] != t {
        assert rest[j] in multiset(v[1..]);
        var k :| 0 <= k < |v[1..]| && v[1..][k] == rest[j];
        assert v[k + 1] == rest[j];
      }
    }
  }

  /** The rows sorted by date, newest first. */
  function SortNewestFirst(v: seq<Transaction>): (r: seq<Transaction>)
    ensures NewestFirst(r)
    ensures multiset(r) == multiset(v)
  {
    if v == [] then []
    else
      assert v == [v[0]] + v[1..];
      InsertNewestFirst(v[0], SortNewestFirst(v[1..]))
  }

  predicate AllValidDates(v: seq<Transaction>) {
    forall i :: 0 <= i < |v| ==> Valid(v[i].date)
  }

  /** Ordered newest first by the stored `YYYY-MM-DD` strings, compared as strings. */
  predicate IsoNewestFirst(v: seq<Transaction>)
    requires AllValidDates(v)
  {
    forall i, j :: 0 <= i < j < |v| ==> !Less(Iso(v[i].date), Iso(v[j].date))
  }

  /** Sorting the Date column as strings and sorting the dates agree. */
  lemma IsoSortAgrees(v: seq<Transaction>)
    requires AllValidDates(v)
    ensures IsoNewestFirst(v) <==> NewestFirst(v)
  {
    forall i, j | 0 <= i < j < |v| ensures Less(Iso(v[i].date), Iso(v[j].date)) <==> Before(v[i].date, v[j].date) {
      IsoOrder(v[i].date, v[j].date);
    }
  }

  /** The transaction table: the filtered view rearranged so the newest date
      comes first, with the same rows the same number of times. For calendar
      dates this is also the order of the date strings. */
  function TableView(v: seq<Transaction>, selected: set<Category>): (r: seq<Transaction>)
    ensures multiset(r) == multiset(Filter(v, selected))
    ensures NewestFirst(r)
    ensures AllValidDates(v) ==> AllValidDates(r) && IsoNewestFirst(r)
  {
    var r := SortNewestFirst(Filter(v, selected));
    if AllValidDates(v) then
      FilterMembers(v, selected);
      assert forall i :: 0 <= i < |r| ==> r[i] in multiset(r);
      assert forall x :: x in multiset(r) ==> x in v;
      IsoSortAgrees(r);
      r
    else r
  }
}
