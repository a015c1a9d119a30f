/**
  The month check the tracker runs once when it starts: when the clock has
  moved into a month other than the stored one, the finished month's records
  and figures are frozen into a history entry and the live lists start over.
  The clock's "YYYY-MM" month is a parameter.
 */
module Rollover {
  import opened Folds
  import opened Ledger
  import opened Store

  /** The live month had at least one record of either kind. */
  predicate HasRecords(s: State)
  {
    s.transactions != [] || s.sharedExpenses != []
  }

  /**
    The history entry for the live month: figures computed by the engine
    over the live lists, settlements for the roommates in their order, and
    the lists themselves kept verbatim.
   */
  function Snapshot(s: State): (h: HistoryEntry)
    requires HasRecords(s)
    ensures Summarizes(h)
    ensures h.month == s.currentMonth
    ensures h.transactions == s.transactions && h.sharedExpenses == s.sharedExpenses
    ensures Names(h.settlements) == s.roommates
  {
    var settlements := ArchivedSettlements(s.roommates, s.sharedExpenses);
    assert Names(settlements) == s.roommates;
    HistoryEntry(
      s.currentMonth,
      PersonalTotal(s.transactions),
      CategoryTotals(s.transactions),
      SharedTotal(s.sharedExpenses),
      settlements,
      s.transactions,
      s.sharedExpenses)
  }

  /**
    `checkAndArchiveMonth` against the clock's month `month`. The stored
    month becomes `month`; if it was a different month with records, those
    records are archived as one new entry at the end of the history and the
    live lists are emptied. Categories and roommates carry over.
   */
  function Rollover(s: State, month: string): (r: State)
    ensures r.currentMonth == month
    ensures s.currentMonth == month ==> r == s
    ensures r.categories == s.categories && r.roommates == s.roommates
    ensures |r.history| == |s.history| + (if s.currentMonth != month && HasRecords(s) then 1 else 0)
    ensures r.history[..|s.history|] == s.history
    ensures s.currentMonth != month ==> r.transactions == [] && r.sharedExpenses == []
    ensures |r.history| > |s.history| ==>
      var h := r.history[|s.history|];
      && Summarizes(h)
      && h.month == s.currentMonth
      && h.transactions == s.transactions && h.sharedExpenses == s.sharedExpenses
      && Names(h.settlements) == s.roommates
    ensures Valid(s) ==> Valid(r)
    ensures CategoriesKnown(s) ==> CategoriesKnown(r)
    ensures PayersKnown(s) ==> PayersKnown(r)
  {
    if s.currentMonth == month then s
    else if !HasRecords(s) then s.(currentMonth := month)
    else
      var h := Snapshot(s);
      var r := s.(currentMonth := month, transactions := [], sharedExpenses := [], history := s.history + [h]);
      assert r.history[..|s.history|] == s.history;
      r
  }

  /** The figures of an archived month are the figures its live view showed, less `amountToSettle`. */
  lemma SnapshotMatchesLiveView(s: State)
    requires HasRecords(s)
    ensures Snapshot(s).personalTotal == LiveSummary(s).personalTotal
    ensures Snapshot(s).categoryTotals == LiveSummary(s).categoryTotals
    ensures Snapshot(s).totalShared == LiveSummary(s).totalShared
    ensures |Snapshot(s).settlements| == |LiveSummary(s).settlements|
    ensures forall i :: 0 <= i < |s.roommates| ==>
      var live := LiveSummary(s).settlements[i];
      Snapshot(s).settlements[i] == ArchivedSettlement(live.name, live.paid, live.balance)
  {
    ArchivedAgreesWithLive(s.roommates, s.sharedExpenses);
  }

  /** Running the check again in the same month changes nothing. */
  lemma RolloverIdempotent(s: State, month: string)
    ensures Rollover(Rollover(s, month), month) == Rollover(s, month)
  {
  }

  /**
    A month is archived at most once: after a rollover the live lists are
    empty, so a later rollover into yet another month adds no entry.
   */
  lemma ArchivedOnce(s: State, m1: string, m2: string)
    requires s.currentMonth != m1
    ensures Rollover(Rollover(s, m1), m2).history == Rollover(s, m1).history
  {
    var r := Rollover(s, m1);
    assert !HasRecords(r);
    assert |Rollover(r, m2).history| == |r.history|;
    assert Rollover(r, m2).history == Rollover(r, m2).history[..|r.history|];
  }

  /** A month without records leaves no trace in the history. */
  lemma EmptyMonthNotArchived(s: State, month: string)
    requires !HasRecords(s)
    ensures Rollover(s, month).history == s.history
    ensures Rollover(s, month) == s.(currentMonth := month)
  {
  }
}
