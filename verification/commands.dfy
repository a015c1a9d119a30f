/**
  The commands the tracker's forms and buttons run against the state. The
  form fields, the clock's `Date.now()` id and date text, the number the
  amount text parses to, and the roommate name typed into the prompt are
  all parameters.
 */
module Commands {
  import opened Folds
  import opened Optional
  import opened Text
  import opened Ledger
  import opened Store

  /** The personal-transaction form as typed: the amount is still text. */
  datatype TransactionForm = TransactionForm(amount: string, description: string, selectedCategory: string, newCategory: string)

  /** The shared-expense form as typed; `paidBy` starts out as "You" and is whatever the payer menu holds. */
  datatype ExpenseForm = ExpenseForm(amount: string, description: string, paidBy: string)

  /** What the clock supplies when a record is created: its id and its date as display text. */
  datatype Stamp = Stamp(id: int, date: string)

  /** The payer the shared-expense form starts with. */
  const DefaultPayer: string := "You"

  /**
    The category a transaction is filed under: the trimmed new-category text
    when it is not blank, else the category picked from the menu. It is empty
    exactly when the new-category text is blank and nothing was picked.
   */
  function ResolveCategory(f: TransactionForm): (r: string)
    ensures r == [] <==> AllSpace(f.newCategory) && f.selectedCategory == []
    ensures Trim(f.newCategory) != [] ==> r == Trim(f.newCategory)
    ensures Trim(f.newCategory) == [] ==> r == f.selectedCategory
  {
    TrimEmptyIffBlank(f.newCategory);
    var typed := Trim(f.newCategory);
    if typed != [] then typed else f.selectedCategory
  }

  /** The form passes the checks: amount and description typed (untrimmed), and a category resolved. */
  predicate TransactionAccepted(f: TransactionForm)
  {
    f.amount != [] && f.description != [] && ResolveCategory(f) != []
  }

  /** The transaction the form creates. */
  function NewTransaction(f: TransactionForm, amount: real, stamp: Stamp): Transaction
  {
    Transaction(stamp.id, amount, Trim(f.description), ResolveCategory(f), stamp.date)
  }

  /**
    `addTransaction`: a rejected form changes nothing; an accepted one
    appends exactly one transaction and adds the trimmed new category to the
    list only when it is not blank and not already listed.
   */
  function AddTransaction(s: State, f: TransactionForm, amount: real, stamp: Stamp): (r: State)
    ensures !TransactionAccepted(f) ==> r == s
    ensures TransactionAccepted(f) ==> r.transactions == s.transactions + [NewTransaction(f, amount, stamp)]
    ensures r.categories != s.categories <==> TransactionAccepted(f) && Trim(f.newCategory) != [] && Trim(f.newCategory) !in s.categories
    ensures r.categories != s.categories ==> r.categories == s.categories + [Trim(f.newCategory)]
    ensures r.currentMonth == s.currentMonth && r.roommates == s.roommates
    ensures r.sharedExpenses == s.sharedExpenses && r.history == s.history
  {
    if !TransactionAccepted(f) then s
    else
      var typed := Trim(f.newCategory);
      var categories := if typed != [] && typed !in s.categories then s.categories + [typed] else s.categories;
      s.(transactions := s.transactions + [NewTransaction(f, amount, stamp)], categories := categories)
  }

  /** Adding a transaction keeps the category list duplicate-free and the archive untouched. */
  lemma AddTransactionKeepsValid(s: State, f: TransactionForm, amount: real, stamp: Stamp)
    requires Valid(s)
    ensures Valid(AddTransaction(s, f, amount, stamp))
  {
    var r := AddTransaction(s, f, amount, stamp);
    if r.categories != s.categories {
      DistinctSnoc(s.categories, Trim(f.newCategory));
    }
  }

  /**
    An accepted transaction raises the personal total and the total of its
    category by its amount and leaves every other category's total alone.
   */
  lemma AddTransactionTotals(s: State, f: TransactionForm, amount: real, stamp: Stamp)
    requires TransactionAccepted(f)
    ensures PersonalTotal(AddTransaction(s, f, amount, stamp).transactions) == PersonalTotal(s.transactions) + amount
    ensures CategorySum(AddTransaction(s, f, amount, stamp).transactions, ResolveCategory(f))
         == CategorySum(s.transactions, ResolveCategory(f)) + amount
    ensures forall c :: c != ResolveCategory(f) ==>
      CategorySum(AddTransaction(s, f, amount, stamp).transactions, c) == CategorySum(s.transactions, c)
  {
    var t := NewTransaction(f, amount, stamp);
    SumBySnoc(s.transactions, t, TxAmount);
    SelectSnoc(s.transactions, t, TxCategory, t.category);
    SumBySnoc(Select(s.transactions, TxCategory, t.category), t, TxAmount);
    forall c | c != ResolveCategory(f)
      ensures CategorySum(AddTransaction(s, f, amount, stamp).transactions, c) == CategorySum(s.transactions, c)
    {
      SelectSnoc(s.transactions, t, TxCategory, c);
    }
  }

  /**
    When the category is typed or picked from the menu (which offers only
    listed categories and the empty choice), every live transaction stays
    filed under a listed category.
   */
  lemma AddTransactionKeepsCategoriesKnown(s: State, f: TransactionForm, amount: real, stamp: Stamp)
    requires CategoriesKnown(s)
    requires f.selectedCategory == [] || f.selectedCategory in s.categories
    ensures CategoriesKnown(AddTransaction(s, f, amount, stamp))
  {
    if TransactionAccepted(f) {
      var r := AddTransaction(s, f, amount, stamp);
      var t := NewTransaction(f, amount, stamp);
      assert t.category in r.categories by {
        if Trim(f.newCategory) == [] {
          assert t.category == f.selectedCategory;
        }
      }
      FiledUnderListed(s.transactions, t, s.categories, r.categories);
    }
  }

  /** Transactions filed under listed categories stay so when the list only grows and the appended one is filed under a listed category. */
  lemma FiledUnderListed(ts: seq<Transaction>, t: Transaction, before: seq<string>, after: seq<string>)
    requires forall u :: u in ts ==> u.category in before
    requires forall c :: c in before ==> c in after
    requires t.category in after
    ensures forall u :: u in ts + [t] ==> u.category in after
  {
    forall u | u in ts + [t] ensures u.category in after {
      if u != t {
        assert u.category in before;
      }
    }
  }

  /**
    The description is checked before it is trimmed: a description of
    spaces only is accepted and stored as an empty description.
   */
  lemma BlankDescriptionAccepted(s: State, amountText: string, amount: real, category: string, stamp: Stamp)
    requires amountText != [] && category != []
    ensures var f := TransactionForm(amountText, "  ", category, "");
            && TransactionAccepted(f)
            && AddTransaction(s, f, amount, stamp).transactions[|s.transactions|].description == ""
  {
    var f := TransactionForm(amountText, "  ", category, "");
    BlankFormPasses(f);
    var t := NewTransaction(f, amount, stamp);
    assert AddTransaction(s, f, amount, stamp).transactions == s.transactions + [t];
  }

  /** A form with a selected category, no typed one and a description of spaces passes, and its description trims to nothing. */
  lemma BlankFormPasses(f: TransactionForm)
    requires f.amount != [] && f.description == "  " && f.selectedCategory != [] && f.newCategory == ""
    ensures TransactionAccepted(f) && Trim(f.description) == []
  {
    TrimEmptyIffBlank(f.newCategory);
    TrimEmptyIffBlank(f.description);
    assert AllSpace(f.description);
  }

  /**
    `deleteTransaction`: keeps, in order, exactly the transactions whose id
    differs; all transactions sharing the id go, and an absent id changes
    nothing.
   */
  function DeleteTransaction(s: State, id: int): (r: State)
    ensures forall t :: t in r.transactions <==> t in s.transactions && t.id != id
    ensures |r.transactions| == |s.transactions| - |Select(s.transactions, TxId, id)|
    ensures (forall t :: t in s.transactions ==> t.id != id) ==> r == s
    ensures r.currentMonth == s.currentMonth && r.categories == s.categories && r.roommates == s.roommates
    ensures r.sharedExpenses == s.sharedExpenses && r.history == s.history
    ensures Valid(s) ==> Valid(r)
    ensures CategoriesKnown(s) ==> CategoriesKnown(r)
  {
    SelectDropSplit(s.transactions, TxId, id, TxAmount);
    var r := s.(transactions := Drop(s.transactions, TxId, id));
    if (forall t :: t in s.transactions ==> t.id != id) then DropAbsent(s.transactions, TxId, id); r else r
  }

  /**
    Deleting keeps the surviving transactions in their original order: on
    any split of the list, it deletes from each part separately, and a
    single transaction stays exactly when its id differs.
   */
  lemma DeleteTransactionKeepsOrder(s: State, id: int, xs: seq<Transaction>, ys: seq<Transaction>)
    requires s.transactions == xs + ys
    ensures DeleteTransaction(s, id).transactions == DeleteTransaction(s.(transactions := xs), id).transactions
                                                     + DeleteTransaction(s.(transactions := ys), id).transactions
    ensures forall t :: DeleteTransaction(s.(transactions := [t]), id).transactions == if t.id != id then [t] else []
  {
    DropAppend(xs, ys, TxId, id);
    forall t ensures DeleteTransaction(s.(transactions := [t]), id).transactions == if t.id != id then [t] else [] {
      DropSingleton(t, TxId, id);
    }
  }

  /** Deleting takes exactly the deleted transactions' amounts off the personal total. */
  lemma DeleteTransactionTotal(s: State, id: int)
    ensures PersonalTotal(s.transactions)
         == PersonalTotal(DeleteTransaction(s, id).transactions) + PersonalTotal(Select(s.transactions, TxId, id))
  {
    SelectDropSplit(s.transactions, TxId, id, TxAmount);
  }

  /**
    Deleting takes exactly the deleted transactions' amounts off each
    category's total: the per-category fold runs over the filtered list.
   */
  lemma DeleteTransactionCategoryTotal(s: State, id: int, c: string)
    ensures CategorySum(s.transactions, c)
         == CategorySum(DeleteTransaction(s, id).transactions, c) + PersonalTotal(Select(Select(s.transactions, TxCategory, c), TxId, id))
    ensures c in CategoryTotals(DeleteTransaction(s, id).transactions) ==>
      && c in CategoryTotals(s.transactions)
      && CategoryTotals(s.transactions)[c]
         == CategoryTotals(DeleteTransaction(s, id).transactions)[c] + PersonalTotal(Select(Select(s.transactions, TxCategory, c), TxId, id))
  {
    var filed := Select(s.transactions, TxCategory, c);
    SelectDropCommute(s.transactions, TxId, id, TxCategory, c);
    SelectDropSplit(filed, TxId, id, TxAmount);
    var r := DeleteTransaction(s, id).transactions;
    if c in CategoryTotals(r) {
      var t :| t in r && t.category == c;
      assert t in s.transactions;
    }
  }

  /**
    Deleting a just-added transaction by its id, when no earlier
    transaction shares that id, gives back the earlier transactions.
   */
  lemma {:induction false} AddThenDeleteTransaction(s: State, f: TransactionForm, amount: real, stamp: Stamp)
    requires TransactionAccepted(f)
    requires forall t :: t in s.transactions ==> t.id != stamp.id
    ensures DeleteTransaction(AddTransaction(s, f, amount, stamp), stamp.id).transactions == s.transactions
  {
    var t := NewTransaction(f, amount, stamp);
    DropSnoc(s.transactions, t, TxId, stamp.id);
    DropAbsent(s.transactions, TxId, stamp.id);
  }

  /** The form passes the checks: amount and description typed (untrimmed). The payer is not checked. */
  predicate ExpenseAccepted(f: ExpenseForm)
  {
    f.amount != [] && f.description != []
  }

  /** The shared expense the form creates. */
  function NewExpense(f: ExpenseForm, amount: real, stamp: Stamp): SharedExpense
  {
    SharedExpense(stamp.id, amount, Trim(f.description), f.paidBy, stamp.date)
  }

  /** `addSharedExpense`: a rejected form changes nothing; an accepted one appends exactly one expense and changes nothing else. */
  function AddSharedExpense(s: State, f: ExpenseForm, amount: real, stamp: Stamp): (r: State)
    ensures !ExpenseAccepted(f) ==> r == s
    ensures ExpenseAccepted(f) ==> r.sharedExpenses == s.sharedExpenses + [NewExpense(f, amount, stamp)]
    ensures r.currentMonth == s.currentMonth && r.transactions == s.transactions && r.categories == s.categories
    ensures r.roommates == s.roommates && r.history == s.history
    ensures Valid(s) ==> Valid(r)
  {
    if ExpenseAccepted(f) then s.(sharedExpenses := s.sharedExpenses + [NewExpense(f, amount, stamp)]) else s
  }

  /**
    An accepted expense raises the shared total and its payer's payments by
    its amount, leaves every other name's payments alone, and keeps every
    payer listed when the payer is picked from the roommate menu.
   */
  lemma AddSharedExpenseSettlement(s: State, f: ExpenseForm, amount: real, stamp: Stamp)
    requires ExpenseAccepted(f)
    ensures var r := AddSharedExpense(s, f, amount, stamp);
      && SharedTotal(r.sharedExpenses) == SharedTotal(s.sharedExpenses) + amount
      && PaidBy(r.sharedExpenses, f.paidBy) == PaidBy(s.sharedExpenses, f.paidBy) + amount
      && (forall name :: name != f.paidBy ==> PaidBy(r.sharedExpenses, name) == PaidBy(s.sharedExpenses, name))
      && (PayersKnown(s) && f.paidBy in s.roommates ==> PayersKnown(r))
  {
    OneMoreExpense(s.sharedExpenses, NewExpense(f, amount, stamp));
  }

  /**
    The payer is not checked: in a household without a roommate called
    "You" (after a migration that kept renamed roommates, say), the form's
    default payer still records an expense, and it breaks `PayersKnown`.
   */
  lemma DefaultPayerMayBeUnlisted(s: State, f: ExpenseForm, amount: real, stamp: Stamp)
    requires ExpenseAccepted(f) && f.paidBy == DefaultPayer && DefaultPayer !in s.roommates
    ensures !PayersKnown(AddSharedExpense(s, f, amount, stamp))
  {
    var r := AddSharedExpense(s, f, amount, stamp);
    assert r.sharedExpenses[|s.sharedExpenses|] in r.sharedExpenses;
  }

  /** `deleteSharedExpense`: keeps, in order, exactly the expenses whose id differs; an absent id changes nothing. */
  function DeleteSharedExpense(s: State, id: int): (r: State)
    ensures forall e :: e in r.sharedExpenses <==> e in s.sharedExpenses && e.id != id
    ensures |r.sharedExpenses| == |s.sharedExpenses| - |Select(s.sharedExpenses, ExpenseId, id)|
    ensures (forall e :: e in s.sharedExpenses ==> e.id != id) ==> r == s
    ensures r.currentMonth == s.currentMonth && r.transactions == s.transactions && r.categories == s.categories
    ensures r.roommates == s.roommates && r.history == s.history
    ensures Valid(s) ==> Valid(r)
    ensures PayersKnown(s) ==> PayersKnown(r)
  {
    SelectDropSplit(s.sharedExpenses, ExpenseId, id, ExpenseAmount);
    var r := s.(sharedExpenses := Drop(s.sharedExpenses, ExpenseId, id));
    if (forall e :: e in s.sharedExpenses ==> e.id != id) then DropAbsent(s.sharedExpenses, ExpenseId, id); r else r
  }

  /**
    Deleting keeps the surviving expenses in their original order: on any
    split of the list, it deletes from each part separately, and a single
    expense stays exactly when its id differs.
   */
  lemma DeleteSharedExpenseKeepsOrder(s: State, id: int, xs: seq<SharedExpense>, ys: seq<SharedExpense>)
    requires s.sharedExpenses == xs + ys
    ensures DeleteSharedExpense(s, id).sharedExpenses == DeleteSharedExpense(s.(sharedExpenses := xs), id).sharedExpenses
                                                         + DeleteSharedExpense(s.(sharedExpenses := ys), id).sharedExpenses
    ensures forall e :: DeleteSharedExpense(s.(sharedExpenses := [e]), id).sharedExpenses == if e.id != id then [e] else []
  {
    DropAppend(xs, ys, ExpenseId, id);
    forall e ensures DeleteSharedExpense(s.(sharedExpenses := [e]), id).sharedExpenses == if e.id != id then [e] else [] {
      DropSingleton(e, ExpenseId, id);
    }
  }

  /** Deleting takes exactly the deleted expenses' amounts off the shared total. */
  lemma DeleteSharedExpenseTotal(s: State, id: int)
    ensures SharedTotal(s.sharedExpenses)
         == SharedTotal(DeleteSharedExpense(s, id).sharedExpenses) + SharedTotal(Select(s.sharedExpenses, ExpenseId, id))
  {
    SelectDropSplit(s.sharedExpenses, ExpenseId, id, ExpenseAmount);
  }

  /**
    Deleting a just-added expense by its id, when no earlier expense shares
    that id, gives back the earlier expenses.
   */
  lemma {:induction false} AddThenDeleteSharedExpense(s: State, f: ExpenseForm, amount: real, stamp: Stamp)
    requires ExpenseAccepted(f)
    requires forall e :: e in s.sharedExpenses ==> e.id != stamp.id
    ensures DeleteSharedExpense(AddSharedExpense(s, f, amount, stamp), stamp.id).sharedExpenses == s.sharedExpenses
  {
    var e := NewExpense(f, amount, stamp);
    DropSnoc(s.sharedExpenses, e, ExpenseId, stamp.id);
    DropAbsent(s.sharedExpenses, ExpenseId, stamp.id);
  }

  /** The prompt's answer is used: it was not cancelled, its trimmed text is not blank and not already listed (case-sensitive). */
  predicate RoommateAccepted(s: State, reply: Option<string>)
  {
    reply.Some? && reply.value != [] && Trim(reply.value) != [] && Trim(reply.value) !in s.roommates
  }

  /**
    `addRoommate`: appends the trimmed name when accepted and otherwise
    changes nothing, so the roommate list never shrinks.
   */
  function AddRoommate(s: State, reply: Option<string>): (r: State)
    ensures !RoommateAccepted(s, reply) ==> r == s
    ensures RoommateAccepted(s, reply) ==> r.roommates == s.roommates + [Trim(reply.value)]
    ensures |s.roommates| <= |r.roommates| && r.roommates[..|s.roommates|] == s.roommates
    ensures forall name :: name in r.roommates ==> name in s.roommates || (reply.Some? && name == Trim(reply.value))
    ensures r.currentMonth == s.currentMonth && r.transactions == s.transactions && r.categories == s.categories
    ensures r.sharedExpenses == s.sharedExpenses && r.history == s.history
  {
    if RoommateAccepted(s, reply) then s.(roommates := s.roommates + [Trim(reply.value)]) else s
  }

  /** Adding a roommate keeps the roommate list duplicate-free and every payer listed. */
  lemma AddRoommateKeepsValid(s: State, reply: Option<string>)
    ensures Valid(s) ==> Valid(AddRoommate(s, reply))
    ensures PayersKnown(s) ==> PayersKnown(AddRoommate(s, reply))
  {
    if RoommateAccepted(s, reply) {
      if Distinct(s.roommates) {
        DistinctSnoc(s.roommates, Trim(reply.value));
      }
    }
  }

  /** A name typed with surrounding spaces is stored trimmed, and typing it again, however padded, is refused. */
  lemma AddRoommateTrimsAndRefusesRepeats(s: State, name: string)
    requires Trim(name) != [] && Trim(name) !in s.roommates
    ensures AddRoommate(s, Some(name)).roommates == s.roommates + [Trim(name)]
    ensures forall padded :: Trim(padded) == Trim(name) ==>
      AddRoommate(AddRoommate(s, Some(name)), Some(padded)) == AddRoommate(s, Some(name))
  {
  }
}
