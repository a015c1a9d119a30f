# Finance tracker core, modelled in Dafny

The tracker is a single React component (`FinanceTracker.jsx`) that keeps
one state object: the live month's personal transactions and shared
expenses, the category and roommate lists, and a history of archived
months. This project models that state and everything the component does
to it or derives from it:

- the accounting engine of the live view: personal total, per-category
  totals, shared total, per-person share, and the settlement table with
  `paid`, `balance` and `amountToSettle` per roommate (`Ledger`);
- the copy of that computation frozen into a history entry (`Ledger`,
  `Rollover`);
- the commands `addTransaction`, `deleteTransaction`, `addSharedExpense`,
  `deleteSharedExpense` and `addRoommate` (`Commands`);
- the month check run at start-up, which archives a finished month and
  empties the live lists (`Rollover`);
- loading, including the upgrade of records saved in the old layout
  without `currentMonth` (`Migration`).

Supporting modules:

- `Folds` holds the generic left-to-right sum and filter the engine is built from.
- `Optional` holds the `Option` type for a missing field or a cancelled prompt.
- `Text` holds JavaScript's `String.prototype.trim`.
- `Store` holds the state, the history entry, the defaults and the
  invariants commands keep.

Amounts are exact `real`s. `parseFloat`, `Date.now()`, the date text and
the prompt's reply are parameters of the commands. A roommate count times
an amount is written as `Times(n, x)`, repeated addition, which keeps the
proofs linear; `Ledger.TimesIsProduct` shows it is `n * x`.

The model follows the code as written in these places:

- The shared-expense form's payer starts as the literal name "You", not
  the first roommate. The payer is never checked against the roommate
  list (`Commands.DefaultPayerMayBeUnlisted`,
  `Ledger.UncheckedPayerUnbalances`).
- A debtor's `amountToSettle` is the size of the debt multiplied by the
  roommate count, not divided by it (`Ledger.AmountToSettleIsProduct`).
  Spending exactly that amount settles a debtor only in a household of
  two; with more roommates it overshoots into credit
  (`Ledger.SpendingAmountToSettle`).
- Ids are creation timestamps and nothing makes them unique. A delete
  removes every record carrying the id.
- Amount and description are checked for emptiness before trimming. A
  description of spaces is accepted and stored empty
  (`Commands.BlankDescriptionAccepted`). Nothing checks that an amount is
  positive.
- A saved record counts as old-layout when it lacks `currentMonth`,
  whatever else it has. Its `history` is then replaced by an empty one.

## Model

| member | source | states |
|---|---|---|
| Text.Trim | src/Components/FinanceTracker.jsx:141 | the trimmed text is a slice of the input with only white space cut from either end, and it neither starts nor ends with white space |
| Text.TrimEmptyIffBlank | src/Components/FinanceTracker.jsx:184 | a name or category trims to empty exactly when it is all white space |
| Text.TrimIdempotent | src/Components/FinanceTracker.jsx:184 | trimming an already trimmed name changes nothing, so a stored name compares equal to its re-typed trimmed form |
| Ledger.PersonalTotal | src/Components/FinanceTracker.jsx:202 | the personal total of no transactions is 0, and it is never negative when no amount is |
| Ledger.CategoryTotals | src/Components/FinanceTracker.jsx:203-206 | the grouping fold's keys are exactly the categories that occur, and each key maps to the sum of that category's amounts |
| Ledger.CategoryTotalsStep | src/Components/FinanceTracker.jsx:204-205 | one step `acc[c] = (acc[c] or 0) + amount` keeps the keys and sums right for the list extended by one transaction |
| Ledger.CategoryTotalsAddUp | src/Components/FinanceTracker.jsx:202-206 | the category totals, taken over the keys in their insertion order, add up to the personal total; with no transactions both are empty or zero |
| Ledger.SharedTotal | src/Components/FinanceTracker.jsx:207 | the shared total of no expenses is 0, and it is never negative when no amount is |
| Ledger.PerPersonShare | src/Components/FinanceTracker.jsx:208 | with roommates, the share taken once per roommate makes up the shared total; with none it is 0 and nothing is divided by zero |
| Ledger.AmountToSettle | src/Components/FinanceTracker.jsx:216 | never negative, and positive exactly for a debtor in a household with roommates |
| Ledger.AmountToSettleIsProduct | src/Components/FinanceTracker.jsx:216 | for a debtor it is the absolute balance multiplied by the roommate count, otherwise 0 |
| Ledger.TimesIsProduct | src/Components/FinanceTracker.jsx:216 | the repeated sum used for count-times-amount equals the product |
| Ledger.Settlements | src/Components/FinanceTracker.jsx:209-218 | one line per roommate in roommate order: name, what they paid, paid minus the share, and `amountToSettle` computed from that balance and the roommate count, non-negative and positive exactly when the balance is negative |
| Ledger.Summarize | src/Components/FinanceTracker.jsx:201-218 | the live figures: zero totals and no category keys for empty lists, category keys exactly the categories that occur, a share of 0 without roommates or one that makes up the shared total taken once per roommate, and one settlement per roommate, named in order, whose balance is its payment minus that share |
| Ledger.SettlementLine | src/Components/FinanceTracker.jsx:213-217 | line `i` of the table is the line `map` computes for roommate `i` |
| Ledger.SettlementsBalance | src/Components/FinanceTracker.jsx:207-217 | with distinct roommates who paid every expense, payments add up to the shared total and balances cancel out |
| Ledger.SpendingAmountToSettle | src/Components/FinanceTracker.jsx:213-217 | a debtor who spends exactly `amountToSettle` ends owed `n - 2` times the old debt: settled for two roommates, in credit for more, unchanged alone |
| Ledger.DebtorSpends | src/Components/FinanceTracker.jsx:208-216 | the share and balance arithmetic behind the previous row, for any roommate count |
| Ledger.OneMoreExpense | src/Components/FinanceTracker.jsx:207-210 | a further expense adds its amount to the shared total and to its payer's payments and to no one else's |
| Ledger.UncheckedPayerUnbalances | src/Components/FinanceTracker.jsx:207-215 | for any distinct, non-empty roommate list that paid every earlier expense, a further expense paid by an unlisted name counts towards nobody's payments but raises the share, so the balances sum to minus its amount instead of zero |
| Ledger.NoRoommates | src/Components/FinanceTracker.jsx:208 | with no roommates the share is 0 and both settlement tables are empty |
| Ledger.ArchivedSettlements | src/Components/FinanceTracker.jsx:90-94 | the archived table has one line per roommate, named in roommate order |
| Ledger.ArchivedAgreesWithLive | src/Components/FinanceTracker.jsx:77-94 | the archived computation gives every roommate the same name, payment and balance as the live one |
| Store.InitialState | src/Components/FinanceTracker.jsx:6-13 | the fresh state has the clock's month, no records, the default categories and roommates, and an empty archive, and satisfies every invariant |
| Store.LiveBalancesCancel | src/Components/FinanceTracker.jsx:201-218 | with duplicate-free roommates who paid every expense, the live view's payments add up to its shared total and its balances cancel |
| Commands.ResolveCategory | src/Components/FinanceTracker.jsx:141-142 | the category is the trimmed new category unless that is blank, then the picked one; it is empty exactly when both are blank or empty |
| Commands.AddTransaction | src/Components/FinanceTracker.jsx:139-159 | a rejected form is a no-op; an accepted one appends exactly one transaction under the resolved category and adds the trimmed new category exactly when it is non-blank and unlisted; nothing else changes |
| Commands.AddTransactionKeepsValid | src/Components/FinanceTracker.jsx:153-156 | the category list stays duplicate-free because a new category is added only when unlisted |
| Commands.AddTransactionTotals | src/Components/FinanceTracker.jsx:139-159 | an accepted transaction raises the personal total and its category's total by its amount and leaves other categories alone |
| Commands.AddTransactionKeepsCategoriesKnown | src/Components/FinanceTracker.jsx:244-247 | with the category typed or picked from the menu, every transaction stays filed under a listed category |
| Commands.BlankDescriptionAccepted | src/Components/FinanceTracker.jsx:140-147 | a description of spaces passes the check and is stored as the empty string |
| Commands.DeleteTransaction | src/Components/FinanceTracker.jsx:161-163 | keeps exactly the transactions with another id, removes as many as carry the id, is a no-op for an absent id, and keeps the invariants |
| Commands.DeleteTransactionKeepsOrder | src/Components/FinanceTracker.jsx:162 | deleting distributes over any split of the list and keeps a single transaction exactly when its id differs, so the survivors stay in their original order |
| Commands.DeleteTransactionTotal | src/Components/FinanceTracker.jsx:161-163 | the personal total drops by exactly the deleted transactions' amounts |
| Commands.DeleteTransactionCategoryTotal | src/Components/FinanceTracker.jsx:203-206 | deleting takes exactly the deleted transactions filed under a category off that category's sum, and off its entry in the category totals when the category still occurs |
| Commands.AddThenDeleteTransaction | src/Components/FinanceTracker.jsx:161-163 | deleting a just-added transaction by its id, when no earlier one shares it, restores the earlier transactions |
| Commands.AddSharedExpense | src/Components/FinanceTracker.jsx:165-176 | a rejected form is a no-op; an accepted one appends exactly one expense and changes nothing else |
| Commands.AddSharedExpenseSettlement | src/Components/FinanceTracker.jsx:165-176 | an accepted expense raises the shared total and its payer's payments by its amount; a payer from the menu keeps every payer listed |
| Commands.DefaultPayerMayBeUnlisted | src/Components/FinanceTracker.jsx:56 | in any household without a roommate named "You", an accepted expense paid by the default payer is recorded and breaks the listed-payer property |
| Commands.DeleteSharedExpense | src/Components/FinanceTracker.jsx:178-180 | keeps exactly the expenses with another id, is a no-op for an absent id, and keeps the invariants |
| Commands.DeleteSharedExpenseKeepsOrder | src/Components/FinanceTracker.jsx:179 | deleting distributes over any split of the list and keeps a single expense exactly when its id differs, so the survivors stay in their original order |
| Commands.DeleteSharedExpenseTotal | src/Components/FinanceTracker.jsx:178-180 | the shared total drops by exactly the deleted expenses' amounts |
| Commands.AddThenDeleteSharedExpense | src/Components/FinanceTracker.jsx:178-180 | deleting a just-added expense by its id, when no earlier one shares it, restores the earlier expenses |
| Commands.AddRoommate | src/Components/FinanceTracker.jsx:182-187 | appends the trimmed reply when it is given, not blank and unlisted, otherwise a no-op; the list only grows, by that name alone |
| Commands.AddRoommateKeepsValid | src/Components/FinanceTracker.jsx:182-187 | the roommate list stays duplicate-free and every payer stays listed |
| Commands.AddRoommateTrimsAndRefusesRepeats | src/Components/FinanceTracker.jsx:182-187 | a padded name is stored trimmed, and any re-typing of it that trims to the same name is refused |
| Rollover.Snapshot | src/Components/FinanceTracker.jsx:77-105 | the history entry carries the finished month's key, verbatim copies of its lists, settlements for the roommates in order, and the figures the engine computes over them |
| Rollover.SnapshotMatchesLiveView | src/Components/FinanceTracker.jsx:77-94 | the archived figures equal what the live view showed for that month, less `amountToSettle` |
| Rollover.Rollover | src/Components/FinanceTracker.jsx:59-114 | the stored month becomes the clock's; a changed month with records gains exactly one faithful history entry and empties the live lists; categories and roommates carry over; the invariants are kept |
| Rollover.ArchivedOnce | src/Components/FinanceTracker.jsx:68-74 | after a rollover the next one, into any month, adds no entry |
| Rollover.RolloverIdempotent | src/Components/FinanceTracker.jsx:64 | running the check again in the same month changes nothing |
| Rollover.EmptyMonthNotArchived | src/Components/FinanceTracker.jsx:68-74 | a month without records only moves the month key |
| Migration.Restore | src/Components/FinanceTracker.jsx:20 | a complete record is read back as the state it was saved from |
| Migration.Migrate | src/Components/FinanceTracker.jsx:22-31 | a record with `currentMonth` is kept as is; an old-layout one becomes complete, with the clock's month, an empty history, and its own lists where present or the defaults |
| Migration.Load | src/Components/FinanceTracker.jsx:16-38 | the loaded record always has a month, and with nothing stored it is the initial state |
| Migration.SaveLoadRoundTrip | src/Components/FinanceTracker.jsx:124-127 | a saved state loads back as itself in any month |
| Migration.LoadStable | src/Components/FinanceTracker.jsx:16-38 | loading what was loaded, in any month, gives the same record |
| Migration.MigrateBare | src/Components/FinanceTracker.jsx:22-29 | an old-layout record with none of the lists becomes the initial state |
| Migration.MigrateValid | src/Components/FinanceTracker.jsx:22-29 | an upgraded record with duplicate-free lists is a valid state |

## Left out

- The rendering (JSX), the tab, toggle and expanded-row state, and `formatMonth`: presentation only.
- `localStorage` reads and writes, `JSON.parse`/`JSON.stringify` and the console logging: the stored record is a parameter of `Migration.Load`. A missing item, an empty string and a parse failure all arrive as `None`.
- The clock: `Date.now()` ids, `toLocaleDateString()` dates and the current "YYYY-MM" key are parameters.
- `parseFloat` and IEEE-754 rounding: amounts are exact reals passed next to the form text whose emptiness the code checks, so `NaN` is not modelled.
- `prompt`: its reply is an `Option<string>` parameter, `None` for a cancelled prompt.
- React scheduling. The month check closes over the state loaded at mount while `setData` receives the previous state. These are the same object on the one run at mount, so `Rollover.Rollover` takes one state.
- Clearing the form fields after a command: form state is not part of the stored state.
- Ledger.CategoryTotals: a map is unordered, so the key order of the JavaScript object is not part of its contract. `Ledger.CategoryOrder` models that order as first appearance; JavaScript lists integer-like keys first, which is not modelled.
- Ledger.CategoryTotals: a category named after an inherited object property (`constructor`, `toString`, `__proto__`) makes `acc[c] || 0` read the inherited value; this is not modelled.
- Ledger.Settlements: `paidByEach[roommate] || 0` is taken as the payment itself (the fallback only matters for `NaN` and inherited property names, neither of which is modelled).
- Migration.Migrate: `currentMonth` is tested with `hasOwnProperty`, so a record holding `currentMonth: null` is passed through unchanged by the code; the model's `None` month stands only for a missing key, and a present-but-null month is not modelled. For the four lists the upgrade reads with `||`, a missing field and a `null` one are both `None`. Other falsy or ill-typed values (`0`, `""`, a non-array where a list is expected) are not modelled, and neither is a record with `currentMonth` but missing lists, which the code passes through unchanged.
