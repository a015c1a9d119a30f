/**
  Loading the state at start-up. The stored record is JSON whose fields may
  be missing: a record without `currentMonth` is in the old layout and is
  upgraded to a fresh state for the clock's month that keeps whichever of
  its lists it has. Reading the storage and parsing the JSON are left out:
  what they produce is the `stored` parameter, absent when nothing was
  saved or the text did not parse.
 */
module Migration {
  import opened Folds
  import opened Optional
  import opened Ledger
  import opened Store

  /** A parsed saved record; each field may be missing. */
  datatype Saved = Saved(
    currentMonth: Option<string>,
    transactions: Option<seq<Transaction>>,
    categories: Option<seq<string>>,
    roommates: Option<seq<string>>,
    sharedExpenses: Option<seq<SharedExpense>>,
    history: Option<seq<HistoryEntry>>)

  /** Every field is present. */
  predicate Complete(p: Saved)
  {
    && p.currentMonth.Some? && p.transactions.Some? && p.categories.Some?
    && p.roommates.Some? && p.sharedExpenses.Some? && p.history.Some?
  }

  /** The record the state is saved as. */
  function Save(s: State): (p: Saved)
    ensures Complete(p)
  {
    Saved(Some(s.currentMonth), Some(s.transactions), Some(s.categories), Some(s.roommates), Some(s.sharedExpenses), Some(s.history))
  }

  /** The state a complete record holds. */
  function Restore(p: Saved): (s: State)
    requires Complete(p)
    ensures Save(s) == p
  {
    State(p.currentMonth.value, p.transactions.value, p.categories.value, p.roommates.value, p.sharedExpenses.value, p.history.value)
  }

  /**
    The upgrade of a parsed record. A record that has `currentMonth` is
    returned as it is. An old-layout record becomes the initial state for
    `month` with its own transactions, categories, roommates and shared
    expenses wherever it has them; its history is dropped.
   */
  function Migrate(p: Saved, month: string): (r: Saved)
    ensures p.currentMonth.Some? ==> r == p
    ensures p.currentMonth.None? ==> Complete(r)
    ensures p.currentMonth.None? ==>
      var s := Restore(r);
      && s.currentMonth == month && s.history == []
      && (p.transactions.Some? ==> s.transactions == p.transactions.value)
      && (p.transactions.None? ==> s.transactions == [])
      && (p.categories.Some? ==> s.categories == p.categories.value)
      && (p.categories.None? ==> s.categories == DefaultCategories)
      && (p.roommates.Some? ==> s.roommates == p.roommates.value)
      && (p.roommates.None? ==> s.roommates == DefaultRoommates)
      && (p.sharedExpenses.Some? ==> s.sharedExpenses == p.sharedExpenses.value)
      && (p.sharedExpenses.None? ==> s.sharedExpenses == [])
  {
    if p.currentMonth.Some? then p
    else
      var initial := InitialState(month);
      Save(initial.(
        transactions := p.transactions.GetOr(initial.transactions),
        categories := p.categories.GetOr(initial.categories),
        roommates := p.roommates.GetOr(initial.roommates),
        sharedExpenses := p.sharedExpenses.GetOr(initial.sharedExpenses)))
  }

  /** `loadData`: the upgraded record when one was stored, else the initial state for `month`. */
  function Load(stored: Option<Saved>, month: string): (r: Saved)
    ensures r.currentMonth.Some?
    ensures stored.None? ==> Complete(r) && Restore(r) == InitialState(month)
  {
    match stored
    case None => Save(InitialState(month))
    case Some(p) => Migrate(p, month)
  }

  /** A saved state loads back as itself, whatever the clock says. */
  lemma SaveLoadRoundTrip(s: State, month: string)
    ensures Load(Some(Save(s)), month) == Save(s)
    ensures Restore(Load(Some(Save(s)), month)) == s
  {
  }

  /** Saving what was loaded and loading it again, in any month, gives the same record. */
  lemma LoadStable(stored: Option<Saved>, m1: string, m2: string)
    ensures Load(Some(Load(stored, m1)), m2) == Load(stored, m1)
  {
  }

  /** An old-layout record with none of the lists is the initial state. */
  lemma MigrateBare(month: string)
    ensures Migrate(Saved(None, None, None, None, None, None), month) == Save(InitialState(month))
  {
  }

  /**
    The upgrade of an old-layout record is a valid state when the lists it
    keeps are duplicate-free: the defaults are, and its archive is empty.
   */
  lemma MigrateValid(p: Saved, month: string)
    requires p.currentMonth.None?
    requires p.categories.Some? ==> Distinct(p.categories.value)
    requires p.roommates.Some? ==> Distinct(p.roommates.value)
    ensures Valid(Restore(Migrate(p, month)))
  {
  }
}
