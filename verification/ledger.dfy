/**
  The accounting engine of the tracker: the records it sums over and the
  derived figures shown for the live month (personal total, per-category
  totals, shared total, per-person share and one settlement per roommate),
  together with the copy of the same computation that is frozen into a
  history entry when a month is archived.

  Amounts are exact reals: the program's floating-point rounding is not
  modelled.
 */
module Ledger {
  import opened Folds

  /** A personal transaction. `id` is the creation timestamp in milliseconds; `date` is the creation day as display text. */
  datatype Transaction = Transaction(id: int, amount: real, description: string, category: string, date: string)

  /** An expense shared among the roommates, paid by `paidBy` (a name that nothing checks against the roommate list). */
  datatype SharedExpense = SharedExpense(id: int, amount: real, description: string, paidBy: string, date: string)

  /** One roommate's line in the live month's settlement. */
  datatype Settlement = Settlement(name: string, paid: real, balance: real, amountToSettle: real)

  /** One roommate's line in an archived month: the same figures without `amountToSettle`. */
  datatype ArchivedSettlement = ArchivedSettlement(name: string, paid: real, balance: real)

  /** Everything the live month's view derives from the store. */
  datatype Summary = Summary(
    personalTotal: real,
    categoryTotals: map<string, real>,
    totalShared: real,
    perPersonShare: real,
    settlements: seq<Settlement>)

  // Field accessors, passed to the generic folds.
  function TxAmount(t: Transaction): real { t.amount }
  function TxCategory(t: Transaction): string { t.category }
  function TxId(t: Transaction): int { t.id }
  function ExpenseAmount(e: SharedExpense): real { e.amount }
  function Payer(e: SharedExpense): string { e.paidBy }
  function ExpenseId(e: SharedExpense): int { e.id }
  function Paid(s: Settlement): real { s.paid }
  function Balance(s: Settlement): real { s.balance }

  /** `transactions.reduce((sum, t) => sum + t.amount, 0)`. */
  function PersonalTotal(ts: seq<Transaction>): (r: real)
    ensures ts == [] ==> r == 0.0
    ensures (forall t :: t in ts ==> t.amount >= 0.0) ==> r >= 0.0
  {
    SumByNonNegative(ts, TxAmount);
    SumBy(ts, TxAmount)
  }

  /** Sum of the amounts of the transactions filed under `category`. */
  function CategorySum(ts: seq<Transaction>, category: string): real
  {
    SumBy(Select(ts, TxCategory, category), TxAmount)
  }

  /** The categories that occur in `ts`, in the order the grouping object acquires them as keys. */
  function CategoryOrder(ts: seq<Transaction>): seq<string>
  {
    KeysInOrder(ts, TxCategory)
  }

  /** Some transaction of `ts` is filed under `category`. */
  predicate Occurs(ts: seq<Transaction>, category: string)
  {
    exists t :: t in ts && t.category == category
  }

  /**
    The grouping fold `acc[t.category] = (acc[t.category] || 0) + t.amount`:
    its keys are exactly the categories that occur in `ts`, and each maps
    to the sum of that category's amounts.
   */
  function CategoryTotals(ts: seq<Transaction>): (r: map<string, real>)
    ensures forall c :: c in r <==> Occurs(ts, c)
    ensures forall c :: c in r ==> r[c] == CategorySum(ts, c)
  {
    if |ts| == 0 then map[]
    else
      var init, t := ts[..|ts| - 1], ts[|ts| - 1];
      var acc := CategoryTotals(init);
      assert ts == init + [t];
      CategoryTotalsStep(init, t, acc);
      acc[t.category := (if t.category in acc then acc[t.category] else 0.0) + t.amount]
  }

  /** One step of the grouping fold keeps the keys and the sums right. */
  lemma CategoryTotalsStep(init: seq<Transaction>, t: Transaction, acc: map<string, real>)
    requires forall c :: c in acc <==> Occurs(init, c)
    requires forall c :: c in acc ==> acc[c] == CategorySum(init, c)
    ensures var r := acc[t.category := (if t.category in acc then acc[t.category] else 0.0) + t.amount];
      && (forall c :: c in r <==> Occurs(init + [t], c))
      && (forall c :: c in r ==> r[c] == CategorySum(init + [t], c))
  {
    var r := acc[t.category := (if t.category in acc then acc[t.category] else 0.0) + t.amount];
    forall c ensures c in r <==> Occurs(init + [t], c) {
      OccursSnoc(init, t, c);
    }
    forall c | c in r ensures r[c] == CategorySum(init + [t], c) {
      SelectSnoc(init, t, TxCategory, c);
      if c == t.category {
        SumBySnoc(Select(init, TxCategory, c), t, TxAmount);
        if c !in acc {
          DropAbsent(init, TxCategory, c);
        }
      }
    }
  }

  lemma OccursSnoc(init: seq<Transaction>, t: Transaction, c: string)
    ensures Occurs(init + [t], c) <==> Occurs(init, c) || t.category == c
  {
    if Occurs(init, c) {
      var u :| u in init && u.category == c;
      assert u in init + [t];
    }
    if t.category == c {
      assert t in init + [t];
    }
  }

  /** `sharedExpenses.reduce((sum, e) => sum + e.amount, 0)`. */
  function SharedTotal(es: seq<SharedExpense>): (r: real)
    ensures es == [] ==> r == 0.0
    ensures (forall e :: e in es ==> e.amount >= 0.0) ==> r >= 0.0
  {
    SumByNonNegative(es, ExpenseAmount);
    SumBy(es, ExpenseAmount)
  }

  /** The expenses paid by `name`, in order: `sharedExpenses.filter(e => e.paidBy === name)`. */
  function ExpensesPaidBy(es: seq<SharedExpense>, name: string): seq<SharedExpense>
  {
    Select(es, Payer, name)
  }

  /** What `name` has paid towards the shared pot. */
  function PaidBy(es: seq<SharedExpense>, name: string): real
  {
    SharedTotal(ExpensesPaidBy(es, name))
  }

  /** `n` copies of `x` added up: a count times an amount, kept linear for the prover. */
  function Times(n: nat, x: real): real
  {
    if n == 0 then 0.0 else Times(n - 1, x) + x
  }

  /** `Times` is multiplication by the count. */
  lemma {:induction false} TimesIsProduct(n: nat, x: real)
    ensures Times(n, x) == (n as real) * x
  {
    if n > 0 {
      TimesIsProduct(n - 1, x);
      assert (n as real) * x == ((n - 1) as real) * x + x;
    }
  }

  /** Each roommate's equal part of `total`: `count` shares make up the total; 0 when there are no roommates, instead of dividing by zero. */
  function PerPersonShare(total: real, count: nat): (r: real)
    ensures count == 0 ==> r == 0.0
    ensures count > 0 ==> Times(count, r) == total
  {
    if count > 0 then
      var share := total / (count as real);
      TimesIsProduct(count, share);
      share
    else 0.0
  }

  /**
    What the view says a roommate with this balance "needs to spend to
    settle": the size of a debt taken once per roommate (multiplied by the
    count, not divided), and nothing for a roommate who is even or owed
    money. `AmountToSettleIsProduct` states it as the program's product.
   */
  function AmountToSettle(balance: real, count: nat): (r: real)
    ensures r >= 0.0
    ensures r > 0.0 <==> balance < 0.0 && count > 0
  {
    if balance < 0.0 then
      TimesPositive(count, -balance);
      Times(count, -balance)
    else 0.0
  }

  /** `AmountToSettle` is `Math.abs(balance) * count`, which for a debtor is `-balance * count`. */
  lemma AmountToSettleIsProduct(balance: real, count: nat)
    ensures AmountToSettle(balance, count) == if balance < 0.0 then (-balance) * (count as real) else 0.0
  {
    if balance < 0.0 {
      TimesIsProduct(count, -balance);
    }
  }

  /** One roommate's live settlement line, given the per-person share and roommate count. */
  function Settle(name: string, es: seq<SharedExpense>, share: real, count: nat): Settlement
  {
    var paid := PaidBy(es, name);
    var balance := paid - share;
    Settlement(name, paid, balance, AmountToSettle(balance, count))
  }

  /** The live settlement line of `name` in a household of `count` roommates sharing `es`. */
  function Line(name: string, es: seq<SharedExpense>, count: nat): Settlement
  {
    Settle(name, es, PerPersonShare(SharedTotal(es), count), count)
  }

  /** `names.map(...)` building one live settlement line per name, in order. */
  function SettleEach(names: seq<string>, es: seq<SharedExpense>, share: real, count: nat): (r: seq<Settlement>)
    ensures |r| == |names|
    ensures forall i :: 0 <= i < |r| ==> r[i] == Settle(names[i], es, share, count)
  {
    if |names| == 0 then []
    else SettleEach(names[..|names| - 1], es, share, count) + [Settle(names[|names| - 1], es, share, count)]
  }

  /**
    The live settlement table: one line per roommate, in roommate order,
    recording what they paid, how far that is above (positive) or below
    (negative) the per-person share, and the never-negative amount the view
    tells a debtor to spend.
   */
  function Settlements(rs: seq<string>, es: seq<SharedExpense>): (r: seq<Settlement>)
    ensures |r| == |rs|
    ensures forall i :: 0 <= i < |r| ==>
      && r[i].name == rs[i]
      && r[i].paid == SharedTotal(ExpensesPaidBy(es, rs[i]))
      && r[i].balance == r[i].paid - PerPersonShare(SharedTotal(es), |rs|)
      && r[i].amountToSettle == AmountToSettle(r[i].balance, |rs|)
      && r[i].amountToSettle >= 0.0
      && (r[i].amountToSettle > 0.0 <==> r[i].balance < 0.0)
  {
    SettleEach(rs, es, PerPersonShare(SharedTotal(es), |rs|), |rs|)
  }

  /** The calculations of the live month, over the store's current lists. */
  function Summarize(ts: seq<Transaction>, es: seq<SharedExpense>, rs: seq<string>): (r: Summary)
    ensures ts == [] ==> r.personalTotal == 0.0 && r.categoryTotals == map[]
    ensures es == [] ==> r.totalShared == 0.0
    ensures forall c :: c in r.categoryTotals <==> Occurs(ts, c)
    ensures |rs| == 0 ==> r.perPersonShare == 0.0
    ensures |rs| > 0 ==> Times(|rs|, r.perPersonShare) == r.totalShared
    ensures |r.settlements| == |rs|
    ensures forall i :: 0 <= i < |rs| ==>
      r.settlements[i].name == rs[i] && r.settlements[i].balance == r.settlements[i].paid - r.perPersonShare
  {
    var totalShared := SharedTotal(es);
    Summary(PersonalTotal(ts), CategoryTotals(ts), totalShared, PerPersonShare(totalShared, |rs|), Settlements(rs, es))
  }

  // ---------------------------------------------------------------------
  // The archived copy of the settlement computation
  // ---------------------------------------------------------------------

  /** `roommates.map(...)` building one archived settlement line per name, in order. */
  function ArchiveEach(names: seq<string>, es: seq<SharedExpense>, share: real): (r: seq<ArchivedSettlement>)
    ensures |r| == |names|
    ensures forall i :: 0 <= i < |r| ==> r[i] == ArchivedSettlement(names[i], PaidBy(es, names[i]), PaidBy(es, names[i]) - share)
  {
    if |names| == 0 then []
    else
      var name := names[|names| - 1];
      ArchiveEach(names[..|names| - 1], es, share) + [ArchivedSettlement(name, PaidBy(es, name), PaidBy(es, name) - share)]
  }

  /** The settlements frozen into a history entry. */
  function ArchivedSettlements(rs: seq<string>, es: seq<SharedExpense>): (r: seq<ArchivedSettlement>)
    ensures |r| == |rs|
    ensures forall i :: 0 <= i < |r| ==> r[i].name == rs[i]
  {
    ArchiveEach(rs, es, PerPersonShare(SharedTotal(es), |rs|))
  }

  /** The names of a settlement table, in order. */
  function Names(ss: seq<ArchivedSettlement>): (r: seq<string>)
    ensures |r| == |ss|
    ensures forall i :: 0 <= i < |ss| ==> r[i] == ss[i].name
  {
    seq(|ss|, i requires 0 <= i < |ss| => ss[i].name)
  }

  // ---------------------------------------------------------------------
  // Properties of the engine
  // ---------------------------------------------------------------------

  /** The archived copy of the computation agrees with the live one on every name, payment and balance. */
  lemma ArchivedAgreesWithLive(rs: seq<string>, es: seq<SharedExpense>)
    ensures |ArchivedSettlements(rs, es)| == |Settlements(rs, es)|
    ensures forall i :: 0 <= i < |rs| ==>
      var live := Settlements(rs, es)[i];
      ArchivedSettlements(rs, es)[i] == ArchivedSettlement(live.name, live.paid, live.balance)
  {
  }

  /** The per-category totals add up to the personal total; with no transactions both are 0. */
  lemma CategoryTotalsAddUp(ts: seq<Transaction>)
    ensures ts == [] ==> PersonalTotal(ts) == 0.0 && CategoryTotals(ts) == map[]
    ensures forall c :: c in CategoryOrder(ts) <==> c in CategoryTotals(ts)
    ensures SumAt(CategoryTotals(ts), CategoryOrder(ts)) == PersonalTotal(ts)
  {
    var m, keys := CategoryTotals(ts), CategoryOrder(ts);
    forall t | t in ts ensures TxCategory(t) in keys {
      assert t.category in m;
    }
    SumAtGroups(m, keys, ts, TxCategory, TxAmount);
    GroupTotalsCover(keys, ts, TxCategory, TxAmount);
  }

  lemma {:induction false} SettleEachPaid(names: seq<string>, es: seq<SharedExpense>, share: real, count: nat)
    ensures SumBy(SettleEach(names, es, share, count), Paid) == SumOverKeys(names, es, Payer, ExpenseAmount)
    decreases |names|
  {
    if |names| > 0 {
      var init := names[..|names| - 1];
      SettleEachPaid(init, es, share, count);
      var r := SettleEach(names, es, share, count);
      assert r[..|r| - 1] == SettleEach(init, es, share, count);
    }
  }

  lemma {:induction false} SettleEachBalance(names: seq<string>, es: seq<SharedExpense>, share: real, count: nat)
    ensures SumBy(SettleEach(names, es, share, count), Balance)
         == SumOverKeys(names, es, Payer, ExpenseAmount) - Times(|names|, share)
    decreases |names|
  {
    if |names| > 0 {
      var init := names[..|names| - 1];
      var last := names[|names| - 1];
      SettleEachBalance(init, es, share, count);
      var head := SettleEach(init, es, share, count);
      assert SettleEach(names, es, share, count) == head + [Settle(last, es, share, count)];
      SumBySnoc(head, Settle(last, es, share, count), Balance);
      assert Times(|names|, share) == Times(|init|, share) + share;
    }
  }

  /**
    When the roommates are distinct and every expense was paid by one of
    them, the payments in the settlement table add up to the shared total
    and, with at least one roommate, the balances cancel out.
   */
  lemma SettlementsBalance(rs: seq<string>, es: seq<SharedExpense>)
    requires Distinct(rs)
    requires forall e :: e in es ==> e.paidBy in rs
    ensures SumBy(Settlements(rs, es), Paid) == SharedTotal(es)
    ensures |rs| > 0 ==> SumBy(Settlements(rs, es), Balance) == 0.0
  {
    var share := PerPersonShare(SharedTotal(es), |rs|);
    SettleEachPaid(rs, es, share, |rs|);
    SettleEachBalance(rs, es, share, |rs|);
    GroupTotalsCover(rs, es, Payer, ExpenseAmount);
  }

  /**
    With no roommates there is no division by zero: the share is 0 and the
    settlement table is empty.
   */
  lemma NoRoommates(es: seq<SharedExpense>)
    ensures Summarize([], es, []).perPersonShare == 0.0
    ensures Settlements([], es) == []
    ensures ArchivedSettlements([], es) == []
  {
  }

  /**
    What `amountToSettle` means: if a debtor spends exactly that amount on a
    further shared expense, then among `count >= 2` roommates they end up
    owed `count - 2` times what they owed before. It settles them exactly
    when there are two roommates and overshoots into credit when there are
    more; a lone roommate's balance does not move.
   */
  lemma SpendingAmountToSettle(name: string, es: seq<SharedExpense>, count: nat, e: SharedExpense)
    requires count > 0 && e.paidBy == name
    requires Line(name, es, count).balance < 0.0
    requires e.amount == Line(name, es, count).amountToSettle
    ensures count >= 2 ==> Line(name, es + [e], count).balance == Times(count - 2, -Line(name, es, count).balance)
    ensures count == 1 ==> Line(name, es + [e], count).balance == Line(name, es, count).balance
    ensures count == 2 ==> Line(name, es + [e], count).balance == 0.0
    ensures count > 2 ==> Line(name, es + [e], count).balance > 0.0
  {
    var t, p := SharedTotal(es), PaidBy(es, name);
    OneMoreExpense(es, e);
    var b := Line(name, es, count).balance;
    DebtorSpends(count, p, t, e.amount, PerPersonShare(t, count), PerPersonShare(t + e.amount, count), b);
  }

  /** The arithmetic behind `SpendingAmountToSettle`, kept linear. */
  lemma DebtorSpends(n: nat, p: real, t: real, x: real, share: real, share': real, b: real)
    requires n > 0 && b < 0.0
    requires Times(n, share) == t && Times(n, share') == t + x
    requires b == p - share && x == Times(n, -b)
    ensures n >= 2 ==> (p + x) - share' == Times(n - 2, -b)
    ensures n == 1 ==> (p + x) - share' == b
    ensures n == 2 ==> (p + x) - share' == 0.0
    ensures n > 2 ==> (p + x) - share' > 0.0
  {
    TimesAdd(n, share, -b);
    TimesInjective(n, share', share - b);
    assert share' == share - b;
    if n >= 2 {
      assert Times(n, -b) == Times(n - 2, -b) + -b + -b;
      if n > 2 {
        TimesPositive(n - 2, -b);
      }
    }
  }

  /** `Times` distributes over a sum of amounts. */
  lemma {:induction false} TimesAdd(n: nat, x: real, y: real)
    ensures Times(n, x + y) == Times(n, x) + Times(n, y)
  {
    if n > 0 {
      TimesAdd(n - 1, x, y);
    }
  }

  /** A positive amount added up `n` times is positive exactly when `n` is. */
  lemma {:induction false} TimesPositive(n: nat, x: real)
    ensures x > 0.0 ==> (Times(n, x) > 0.0 <==> n > 0)
  {
    if n > 0 {
      TimesPositive(n - 1, x);
    }
  }

  /** A positive count of a larger amount is larger. */
  lemma {:induction false} TimesMonotone(n: nat, x: real, y: real)
    requires n > 0 && x < y
    ensures Times(n, x) < Times(n, y)
  {
    if n > 1 {
      TimesMonotone(n - 1, x, y);
    }
  }

  /** A positive count of an amount determines the amount. */
  lemma TimesInjective(n: nat, x: real, y: real)
    requires n > 0 && Times(n, x) == Times(n, y)
    ensures x == y
  {
    if x < y {
      TimesMonotone(n, x, y);
    } else if y < x {
      TimesMonotone(n, y, x);
    }
  }

  /** Line `i` of the settlement table is roommate `i`'s line. */
  lemma SettlementLine(rs: seq<string>, es: seq<SharedExpense>, i: nat)
    requires i < |rs|
    ensures Settlements(rs, es)[i] == Line(rs[i], es, |rs|)
  {
  }

  /** A further expense adds its amount to the shared total and to its payer's payments, and to no one else's. */
  lemma OneMoreExpense(es: seq<SharedExpense>, e: SharedExpense)
    ensures SharedTotal(es + [e]) == SharedTotal(es) + e.amount
    ensures PaidBy(es + [e], e.paidBy) == PaidBy(es, e.paidBy) + e.amount
    ensures forall name :: name != e.paidBy ==> PaidBy(es + [e], name) == PaidBy(es, name)
  {
    SumBySnoc(es, e, ExpenseAmount);
    SelectSnoc(es, e, Payer, e.paidBy);
    SumBySnoc(ExpensesPaidBy(es, e.paidBy), e, ExpenseAmount);
    forall name | name != e.paidBy ensures PaidBy(es + [e], name) == PaidBy(es, name) {
      SelectSnoc(es, e, Payer, name);
    }
  }

  /**
    The payer is not checked against the roommate list: when the balances
    cancelled and a further expense is paid by someone who is not a
    roommate (the form's default "You", say), that expense counts towards
    nobody's payments but raises everyone's share, so the balances now add
    up to minus its amount instead of to zero.
   */
  lemma UncheckedPayerUnbalances(rs: seq<string>, es: seq<SharedExpense>, e: SharedExpense)
    requires Distinct(rs) && |rs| > 0
    requires forall x :: x in es ==> x.paidBy in rs
    requires e.paidBy !in rs
    ensures SumBy(Settlements(rs, es + [e]), Balance) == -e.amount
  {
    var share := PerPersonShare(SharedTotal(es + [e]), |rs|);
    SettleEachBalance(rs, es + [e], share, |rs|);
    SumOverKeysSnoc(rs, es, e, Payer, ExpenseAmount);
    GroupTotalsCover(rs, es, Payer, ExpenseAmount);
    SumBySnoc(es, e, ExpenseAmount);
  }
}
