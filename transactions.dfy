/** The ledger's record type: one row of the Date, Amount, Category, Description
    table, and the form submission that creates it. */
module Transactions {
  import opened Text
  import opened Dates

  /** The fixed spending classifications. */
  datatype Category = Food | Transport | Entertainment | Health | Bills | Shopping | Others

  /** The categories in the order the page lists them (filter defaults, budget
      inputs and the alert loop all follow this order). */
  const Categories: seq<Category> := [Food, Transport, Entertainment, Health, Bills, Shopping, Others]

  /** The position of a category in the fixed list; every category has exactly one. */
  function Index(c: Category): (i: nat)
    ensures i < |Categories| && Categories[i] == c
    ensures forall j :: 0 <= j < |Categories| && Categories[j] == c ==> j == i
  {
    match c
    case Food => 0
    case Transport => 1
    case Entertainment => 2
    case Health => 3
    case Bills => 4
    case Shopping => 5
    case Others => 6
  }

  /** The text stored in the Category column. */
  function Name(c: Category): string {
    match c
    case Food => "Food"
    case Transport => "Transport"
    case Entertainment => "Entertainment"
    case Health => "Health"
    case Bills => "Bills"
    case Shopping => "Shopping"
    case Others => "Others"
  }

  /** Distinct categories are stored under distinct texts, so selecting rows by
      their Category text selects the same rows as selecting by category. */
  lemma NameInjective(a: Category, b: Category)
    ensures Name(a) == Name(b) <==> a == b
  {
  }

  /** Every category appears in the fixed list. */
  lemma CategoryListed(c: Category)
    ensures c in Categories
  {
  }

  /** The selection the category filter starts with: the whole fixed list,
      hence every category. */
  function AllCategories(): (s: set<Category>)
    ensures forall c: Category :: c in s
  {
    assert forall c: Category :: c in Categories by {
      forall c: Category ensures c in Categories {
        CategoryListed(c);
      }
    }
    set c | c in Categories
  }

  /** One ledger row. The amount is in cents, so it is exact and never negative. */
  datatype Transaction = Transaction(date: Date, amount: nat, category: Category, description: string)

  /** What the add-transaction form hands over when it is submitted: the picked
      date, the amount (the field's minimum is 0), the picked category and the
      description exactly as typed. */
  datatype FormInput = FormInput(date: Date, amount: nat, category: Category, description: string)

  /** A row as the form writes it: a real calendar date and a description with
      no surrounding whitespace. */
  predicate WellFormed(t: Transaction) {
    Valid(t.date) && Stripped(t.description)
  }

  predicate AllWellFormed(v: seq<Transaction>) {
    forall i :: 0 <= i < |v| ==> WellFormed(v[i])
  }

  /** The record built from a form submission: date, amount and category as
      submitted, and the description with its surrounding whitespace removed. */
  function NewRecord(f: FormInput): (t: Transaction)
    ensures t.date == f.date && t.amount == f.amount && t.category == f.category
    ensures Stripped(t.description)
  {
    Transaction(f.date, f.amount, f.category, Strip(f.description))
  }

  /** The stored description is the typed one less whitespace at its ends: an
      infix of what was typed, with only whitespace cut on either side. */
  lemma NewRecordDescription(f: FormInput)
    ensures var d, i := NewRecord(f).description, LeadingSpaces(f.description);
      && i + |d| <= |f.description|
      && d == f.description[i..i + |d|]
      && (forall k :: 0 <= k < i ==> IsSpace(f.description[k]))
      && (forall k :: i + |d| <= k < |f.description| ==> IsSpace(f.description[k]))
  {
  }

  /** Every record the form builds from a picked calendar date is well formed,
      and building it from an already-built record changes nothing. */
  lemma NewRecordWellFormed(f: FormInput)
    requires Valid(f.date)
    ensures WellFormed(NewRecord(f))
    ensures var t := NewRecord(f);
      NewRecord(FormInput(t.date, t.amount, t.category, t.description)) == t
  {
  }
}
