/** The budget evaluator: per category, in the fixed category order, compare
    what the whole ledger spends in that category with the category's limit and
    warn when the limit is exceeded. */
module Budget {
  import opened Transactions
  import opened Aggregates

  /** One over-budget warning: the category, its spending and its limit, in cents. */
  datatype Alert = Alert(category: Category, spent: nat, limit: int)

  /** The limit each budget input starts with: 1000.00. The inputs have no
      minimum, so a limit may be negative. */
  const DefaultLimit: int := 100000

  /** The budget inputs as first shown: every category at the default limit. */
  function DefaultLimits(): (limits: map<Category, int>)
    ensures forall c: Category :: c in limits && limits[c] == DefaultLimit
    ensures HasAllLimits(limits)
  {
    assert forall c: Category :: c in Categories by {
      forall c: Category ensures c in Categories {
        CategoryListed(c);
      }
    }
    map c | c in Categories :: DefaultLimit
  }

  /** The budget inputs give a limit for every category (one input per category of the fixed list). */
  predicate HasAllLimits(limits: map<Category, int>) {
    forall c: Category :: c in limits
  }

  /** The warnings for the categories cs, taken in the order of cs: one for each
      category whose spending over the whole ledger is strictly above its limit. */
  function AlertsFor(v: seq<Transaction>, limits: map<Category, int>, cs: seq<Category>): (alerts: seq<Alert>)
    requires HasAllLimits(limits)
    ensures |alerts| <= |cs|
    ensures forall a :: a in alerts ==>
      && a.category in cs
      && a.spent == CategorySum(v, a.category)
      && a.limit == limits[a.category]
      && a.spent > a.limit
  {
    if cs == [] then []
    else
      var c := cs[|cs| - 1];
      var spent := CategorySum(v, c);
      AlertsFor(v, limits, cs[..|cs| - 1]) + (if spent > limits[c] then [Alert(c, spent, limits[c])] else [])
  }

  /** Taking one more category adds at most its own warning at the end. */
  lemma AlertsForStep(v: seq<Transaction>, limits: map<Category, int>, cs: seq<Category>, c: Category)
    requires HasAllLimits(limits)
    ensures AlertsFor(v, limits, cs + [c]) ==
      AlertsFor(v, limits, cs) + (if CategorySum(v, c) > limits[c] then [Alert(c, CategorySum(v, c), limits[c])] else [])
  {
    assert (cs + [c])[..|cs|] == cs;
  }

  /** Taking one more category keeps the earlier warnings as they were and adds
      at most one warning, for that category, at the end. */
  lemma AlertsForExtends(v: seq<Transaction>, limits: map<Category, int>, cs: seq<Category>, c: Category)
    requires HasAllLimits(limits)
    ensures |AlertsFor(v, limits, cs)| <= |AlertsFor(v, limits, cs + [c])| <= |AlertsFor(v, limits, cs)| + 1
    ensures AlertsFor(v, limits, cs + [c])[..|AlertsFor(v, limits, cs)|] == AlertsFor(v, limits, cs)
    ensures |AlertsFor(v, limits, cs + [c])| > |AlertsFor(v, limits, cs)| ==>
      AlertsFor(v, limits, cs + [c])[|AlertsFor(v, limits, cs)|].category == c
  {
    AlertsForStep(v, limits, cs, c);
  }

  /** One more category of the fixed list adds at most its own warning at the end. */
  lemma AlertsForPrefixStep(v: seq<Transaction>, limits: map<Category, int>, i: nat)
    requires HasAllLimits(limits) && i < |Categories|
    ensures AlertsFor(v, limits, Categories[..i + 1]) == AlertsFor(v, limits, Categories[..i]) +
      (if CategorySum(v, Categories[i]) > limits[Categories[i]]
       then [Alert(Categories[i], CategorySum(v, Categories[i]), limits[Categories[i]])] else [])
  {
    assert Categories[..i + 1] == Categories[..i] + [Categories[i]];
    AlertsForStep(v, limits, Categories[..i], Categories[i]);
  }

  /** The alert loop: walks the fixed category list, totals each category over
      the whole ledger and appends a warning when the total is strictly above
      the limit. */
  method BudgetAlerts(v: seq<Transaction>, limits: map<Category, int>) returns (alerts: seq<Alert>)
    requires HasAllLimits(limits)
    ensures alerts == AlertsFor(v, limits, Categories)
  {
    alerts := [];
    for i := 0 to |Categories|
      invariant alerts == AlertsFor(v, limits, Categories[..i])
    {
      var cat := Categories[i];
      var totalSpent := CategorySum(v, cat);
      AlertsForPrefixStep(v, limits, i);
      if totalSpent > limits[cat] {
        alerts := alerts + [Alert(cat, totalSpent, limits[cat])];
      }
    }
    assert Categories[..|Categories|] == Categories;
  }

  /** A warning is present exactly for a category of cs whose spending is
      strictly above its limit, and it carries that spending and that limit. */
  lemma {:induction false} AlertsForMembers(v: seq<Transaction>, limits: map<Category, int>, cs: seq<Category>)
    requires HasAllLimits(limits)
    ensures forall a :: a in AlertsFor(v, limits, cs) <==>
      && a.category in cs
      && a.spent == CategorySum(v, a.category)
      && a.limit == limits[a.category]
      && a.spent > a.limit
  {
    if cs != [] {
      var init := cs[..|cs| - 1];
      AlertsForMembers(v, limits, init);
      assert forall c :: c in cs <==> c in init || c == cs[|cs| - 1] by {
        assert cs == init + [cs[|cs| - 1]];
      }
    }
  }

  /** The evaluator warns about a category if and only if that category's total
      over the whole ledger is strictly greater than its limit; a total equal
      to the limit raises nothing. */
  lemma AlertIff(v: seq<Transaction>, limits: map<Category, int>, c: Category)
    requires HasAllLimits(limits)
    ensures (exists a :: a in AlertsFor(v, limits, Categories) && a.category == c)
        <==> CategorySum(v, c) > limits[c]
  {
    CategoryListed(c);
    AlertsForMembers(v, limits, Categories);
    if CategorySum(v, c) > limits[c] {
      assert Alert(c, CategorySum(v, c), limits[c]) in AlertsFor(v, limits, Categories);
    }
  }

  /** Every warning names one of the first n categories of the fixed list, and
      the warnings follow strictly increasing list positions. */
  predicate OrderedBelow(alerts: seq<Alert>, n: nat) {
    && (forall i :: 0 <= i < |alerts| ==> Index(alerts[i].category) < n)
    && (forall i, j :: 0 <= i < j < |alerts| ==> Index(alerts[i].category) < Index(alerts[j].category))
  }

  /** An ordered list below n - 1, extended by at most one warning for the
      category at position n - 1, is ordered below n. */
  lemma OrderedBelowExtend(prev: seq<Alert>, alerts: seq<Alert>, n: nat)
    requires n > 0 && OrderedBelow(prev, n - 1)
    requires |prev| <= |alerts| <= |prev| + 1 && alerts[..|prev|] == prev
    requires |alerts| > |prev| ==> Index(alerts[|prev|].category) == n - 1
    ensures OrderedBelow(alerts, n)
  {
    forall i | 0 <= i < |prev|
      ensures alerts[i] == prev[i]
    {
      assert alerts[..|prev|][i] == alerts[i];
    }
  }

  /** The warnings for the first n categories name only those categories, in
      strictly increasing position of the fixed list. */
  lemma {:induction false} AlertsOrderedPrefix(v: seq<Transaction>, limits: map<Category, int>, n: nat)
    requires n <= |Categories| && HasAllLimits(limits)
    ensures OrderedBelow(AlertsFor(v, limits, Categories[..n]), n)
  {
    if n > 0 {
      AlertsOrderedPrefix(v, limits, n - 1);
      var c := Categories[n - 1];
      assert Categories[..n] == Categories[..n - 1] + [c];
      AlertsForExtends(v, limits, Categories[..n - 1], c);
      assert Index(c) == n - 1;
      OrderedBelowExtend(AlertsFor(v, limits, Categories[..n - 1]), AlertsFor(v, limits, Categories[..n]), n);
    }
  }

  /** At most one warning per category, listed in the fixed category order. */
  lemma AlertsInCategoryOrder(v: seq<Transaction>, limits: map<Category, int>)
    requires HasAllLimits(limits)
    ensures forall i, j :: 0 <= i < j < |AlertsFor(v, limits, Categories)| ==>
      && Index(AlertsFor(v, limits, Categories)[i].category) < Index(AlertsFor(v, limits, Categories)[j].category)
      && AlertsFor(v, limits, Categories)[i].category != AlertsFor(v, limits, Categories)[j].category
  {
    AlertsOrderedPrefix(v, limits, |Categories|);
    assert Categories[..|Categories|] == Categories;
  }

  /** An empty ledger raises no warning for categories whose limits are not
      negative (with the fixed list for cs: an empty ledger with non-negative
      limits shows no budget alert). */
  lemma {:induction false} NoAlertsForEmptyLedger(limits: map<Category, int>, cs: seq<Category>)
    requires HasAllLimits(limits) && forall c :: c in cs ==> limits[c] >= 0
    ensures AlertsFor([], limits, cs) == []
  {
    if cs != [] {
      var init := cs[..|cs| - 1];
      assert forall c :: c in init ==> c in cs;
      NoAlertsForEmptyLedger(limits, init);
      assert CategorySum([], cs[|cs| - 1]) == 0;
    }
  }

  /** On a first run with an empty ledger and the budget inputs untouched, the
      page shows no budget warning. */
  lemma NoAlertsByDefault()
    ensures AlertsFor([], DefaultLimits(), Categories) == []
  {
    NoAlertsForEmptyLedger(DefaultLimits(), Categories);
  }

  /** The ledger only grows, so a category that is over budget stays over
      budget after more rows are appended, for the same limits. */
  lemma AlertsPersistAfterAppend(v: seq<Transaction>, w: seq<Transaction>, limits: map<Category, int>, c: Category)
    requires HasAllLimits(limits)
    requires exists a :: a in AlertsFor(v, limits, Categories) && a.category == c
    ensures exists a :: a in AlertsFor(v + w, limits, Categories) && a.category == c
  {
    AlertIff(v, limits, c);
    CategorySumAppend(v, w, c);
    AlertIff(v + w, limits, c);
  }
}
