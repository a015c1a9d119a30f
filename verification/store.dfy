/**
  The tracker's whole application state: the live month's records, the
  category and roommate lists, and the archive of finished months.
 */
module Store {
  import opened Folds
  import opened Ledger

  /** A finished month: its figures, computed when it was archived, and verbatim copies of its records. */
  datatype HistoryEntry = HistoryEntry(
    month: string,
    personalTotal: real,
    categoryTotals: map<string, real>,
    totalShared: real,
    settlements: seq<ArchivedSettlement>,
    transactions: seq<Transaction>,
    sharedExpenses: seq<SharedExpense>)

  /** The state object; `currentMonth` is a "YYYY-MM" key naming the month whose records are live. */
  datatype State = State(
    currentMonth: string,
    transactions: seq<Transaction>,
    categories: seq<string>,
    roommates: seq<string>,
    sharedExpenses: seq<SharedExpense>,
    history: seq<HistoryEntry>)

  const DefaultCategories: seq<string> := ["Udhari", "Outside", "Useless"]
  const DefaultRoommates: seq<string> := ["You", "Ravi"]

  /**
    A history entry's figures are exactly what the engine computes from the
    records it froze (for the roommates its settlement table names), and it
    froze at least one record.
   */
  predicate Summarizes(h: HistoryEntry)
  {
    && h.personalTotal == PersonalTotal(h.transactions)
    && h.categoryTotals == CategoryTotals(h.transactions)
    && h.totalShared == SharedTotal(h.sharedExpenses)
    && h.settlements == ArchivedSettlements(Names(h.settlements), h.sharedExpenses)
    && (h.transactions != [] || h.sharedExpenses != [])
  }

  /** What every command keeps: duplicate-free category and roommate lists and a faithful archive. */
  predicate Valid(s: State)
  {
    && Distinct(s.categories)
    && Distinct(s.roommates)
    && (forall h :: h in s.history ==> Summarizes(h))
  }

  /** Every live transaction is filed under a category of the list. */
  predicate CategoriesKnown(s: State)
  {
    forall t :: t in s.transactions ==> t.category in s.categories
  }

  /** Every live shared expense was paid by a roommate of the list. */
  predicate PayersKnown(s: State)
  {
    forall e :: e in s.sharedExpenses ==> e.paidBy in s.roommates
  }

  /** The figures the live month's view shows. */
  function LiveSummary(s: State): Summary
  {
    Summarize(s.transactions, s.sharedExpenses, s.roommates)
  }

  /**
    A fresh state for `month` (the clock's current month): no records, the
    default categories and roommates, an empty archive.
   */
  function InitialState(month: string): (r: State)
    ensures Valid(r) && CategoriesKnown(r) && PayersKnown(r)
    ensures r.currentMonth == month && r.history == []
    ensures r.transactions == [] && r.sharedExpenses == []
    ensures r.categories == DefaultCategories && r.roommates == DefaultRoommates
  {
    State(month, [], DefaultCategories, DefaultRoommates, [], [])
  }

  /**
    With duplicate-free roommates who paid every expense, the
    live settlement table accounts for every shared expense, and with at
    least one roommate its balances cancel out.
   */
  lemma LiveBalancesCancel(s: State)
    requires Distinct(s.roommates) && PayersKnown(s)
    ensures SumBy(LiveSummary(s).settlements, Paid) == LiveSummary(s).totalShared
    ensures |s.roommates| > 0 ==> SumBy(LiveSummary(s).settlements, Balance) == 0.0
  {
    SettlementsBalance(s.roommates, s.sharedExpenses);
  }
}
