/** The ledger store and one run of the page over it. The page keeps the whole
    table in memory, appends one row per form submission and rewrites the
    transactions file after every append; every view is recomputed on each run. */
module Store {
  import opened Wrappers
  import opened Transactions
  import opened Aggregates
  import opened Budget

  /** What one run of the page shows: the transaction table, the budget
      warnings, the spending breakdown (None when the filtered view is empty)
      and the monthly totals (None when converting the dates fails and the
      monthly section ends in an error). */
  datatype PageView = PageView(
    table: seq<Transaction>,
    alerts: seq<Alert>,
    breakdown: Option<Breakdown>,
    monthly: Option<seq<MonthTotal>>)

  class Ledger {
    /** The in-memory table, oldest row first. */
    var records: seq<Transaction>
    /** The rows of the transactions file as last written or read. */
    var stored: seq<Transaction>

    /** The file holds exactly the in-memory table. */
    predicate Persisted()
      reads this
    {
      stored == records
    }

    /** Start-up with no transactions file: an empty table, and a file that
        holds only the header row. */
    constructor Create()
      ensures records == [] && Persisted()
    {
      records := [];
      stored := [];
    }

    /** Start-up with an existing transactions file whose rows are `saved`. */
    constructor Load(saved: seq<Transaction>)
      ensures records == saved && Persisted()
    {
      records := saved;
      stored := saved;
    }

    /** A form submission: the record built from the form is added after every
        existing row, no existing row changes, and the whole table is written
        back to the file. Appending a well-formed record keeps a well-formed
        table well formed. */
    method Append(f: FormInput) returns (t: Transaction)
      modifies this
      ensures t == NewRecord(f)
      ensures records == old(records) + [t] && Persisted()
      ensures |records| == |old(records)| + 1 && records[|records| - 1] == t
      ensures records[..|old(records)|] == old(records)
      ensures AllWellFormed(old(records)) && Dates.Valid(f.date) ==> AllWellFormed(records)
    {
      t := NewRecord(f);
      records := records + [t];
      stored := records;
    }

    /** One run of the page, in the order the page computes things: the
        filtered view is taken first, then a submitted form (if any) is
        appended and saved, and then the budget warnings and the monthly totals
        are computed over the whole, updated table. The table and the breakdown
        therefore show the filtered rows as they were before this run's
        submission. A stored date that pandas cannot convert stops the run in
        the monthly section, after everything else has been shown. */
    method RunPage(selected: set<Category>, submission: Option<FormInput>, limits: map<Category, int>)
      returns (view: PageView)
      requires HasAllLimits(limits)
      modifies this
      ensures records == if submission.Some? then old(records) + [NewRecord(submission.value)] else old(records)
      ensures stored == if submission.Some? then records else old(stored)
      ensures view.table == TableView(old(records), selected)
      ensures multiset(view.table) == multiset(Filter(old(records), selected)) && NewestFirst(view.table)
      ensures view.breakdown == SpendingBreakdown(Filter(old(records), selected))
      ensures view.alerts == AlertsFor(records, limits, Categories)
      ensures view.monthly == MonthlyView(records)
    {
      var filtered := Filter(records, selected);
      var table := TableView(records, selected);
      if submission.Some? {
        var _ := Append(submission.value);
      }
      var alerts := BudgetAlerts(records, limits);
      view := PageView(table, alerts, SpendingBreakdown(filtered), MonthlyView(records));
    }
  }
}
