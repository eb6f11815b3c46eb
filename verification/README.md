# Expense splitter: balances and settlements

A Dafny model of the balance-and-settlement engine of the expense-splitter
backend, together with the validation and membership rules that decide
which records reach it.

- **Settlement minimiser** (`compute_settlements`). It splits a balance map into
  debtors and creditors, ignoring anything within `Eps = 1e-9` of zero. It sorts
  both lists largest first, stably. Then it walks two cursors, each step paying
  `min(debt, credit)` and moving past whichever side is exhausted.
  - The model keeps the source's form. `Partition` is a loop over the ordered
    balance list. `SortDescending` is an in-place stable insertion sort on an
    `array`. `MatchGreedy` is the two-cursor `while` loop overwriting both arrays.
  - Each method is proved equal to a recursive specification: `Debtors`,
    `Creditors`, `SortDesc`, `Greedy` and `RoundTransfers`.
  - The lemmas state what the plan guarantees. Transfers go from debtors to
    creditors. Settled members are skipped. No one pays or receives more than
    their balance. There are at most `#debtors + #creditors - 1` transfers. The
    sum of balances is conserved. For balances that sum to zero, every member
    ends within `|members| * Eps` of zero.
- **Balance aggregator** (`_compute_balances`, in the settlements router and
  again in the chat router). It folds expenses and payments into one net balance
  per member.
  - An equal split or a custom split with shares is charged to its participants.
    An expense without participants is skipped.
  - A payment moves money from the recipient's balance to the payer's.
  - Every balance is rounded to cents.
  - A key missing from the balance dict is Python's `KeyError`. The model
    returns `None` in that case.
  - The headline lemma is conservation: the balances sum to what the custom
    splits fail to cover, and to zero when every custom split adds up.
- **Validators**. These cover the check chain of `create_expense`, the
  field-by-field `update_expense` (an object updated in place), `_expense_response`,
  the guards of `record_payment` and the chat's `settle_debt`, and the dashboard
  aggregation.
- **Group membership**. `create_group` builds the member list: the creator
  first, no repeats. `add_group_member`, `remove_group_member` and `update_group`
  are methods of a `Group` class with their guards.
- **Chat assistant**. The model covers:
  - `_find_group` and `_find_member`: an exact match first, then a substring
    match, both case-insensitive.
  - The participant and category selection of `add_expense`.
  - The positive-amount guard of `settle_debt`.
  - The "is owed" / "owes" / "settled up" classification of balance lines.

Money is an exact `real`. `round(x, 2)` is modelled concretely as rounding to
the nearest cent, with ties to even (`Money.Round2`). A Python dict is a sequence
of entries in insertion order, because that order fixes the tie-breaking of the
stable sort. Stored records (groups, expenses, payments, users found by email)
are parameters in place of database queries.

Some behaviours of the code are stated as lemmas rather than hidden:

- A member may record a payment to themselves. It is accepted and changes no
  balance (`SettlementsRouter.SelfPayment`).
- A blank member query matches the first member (`Chat.BlankQuery`).
- A balance of one cent is described as "settled up", yet a transfer of one cent
  is still suggested (`Chat.SettledButSuggested`).
- A participant named twice is selected twice (`Chat.RepeatedName`). The
  participant table is keyed by expense and user, so the commit then fails and
  nothing is stored (`Chat.RepeatedNameRefused`).
- The balances the chat describes are rounded and need not sum to zero. A
  member can be described as owed while no transfer is suggested
  (`Chat.OwedWithoutTransfer`).
- A debt under half a cent yields a transfer of `0.0`
  (`SettlementScenarios.ZeroCentTransfer`).
- A leftover balance can exceed `Eps`, bounded only by `|members| * Eps`
  (`SettlementScenarios.LeftBeyondEps`).
- The docstring calls the plan "minimal", but the greedy plan is not always
  the shortest (`SettlementScenarios.NotFewest`).
- The chat's `add_expense` does not check that the amount is positive
  (`Chat.AddExpense`).

## Model

| member | source | states |
|---|---|---|
| Base.FilterIn | backend/app/routers/expenses.py:57 | the members kept are exactly those in both lists, never more than the members |
| Base.RemoveFirst | backend/app/routers/groups.py:147 | `list.remove` takes out one occurrence: one element shorter, same multiset minus that user |
| Ledger.FromKeys | backend/app/routers/settlements.py:17 | one entry per distinct member, each holding the start value; the members in order when distinct |
| Ledger.AddTo | backend/app/routers/settlements.py:21 | `d[u] += x` keeps the keys and raises the total by x |
| Ledger.AddToEntries | backend/app/routers/settlements.py:21 | `d[u] += x` changes u's entry alone, by x |
| Ledger.LookupAddTo | backend/app/routers/settlements.py:21 | after `d[u] += x`, u reads x more and every other key reads the same |
| Ledger.Put | backend/app/routers/settlements.py:17 | `d[k] = x`, as the dict comprehension does per member: sets k (a new key goes at the end), keeps every other entry |
| Ledger.MapAmounts | backend/app/routers/settlements.py:34 | the dict comprehension keeps the keys in order and applies f to each value |
| Money.Round2 | backend/app/routers/settlements.py:34 | `round(x, 2)` is a whole number of cents within half a cent of x |
| Money.RoundCents | backend/app/routers/settlements.py:34 | rounding a whole number of cents leaves it unchanged |
| GroupBalances.DebitShares | backend/app/routers/settlements.py:23-24 | defined exactly when every share holder is a key; keeps the keys and lowers the total by the shares' sum |
| GroupBalances.DebitEach | backend/app/routers/settlements.py:26-28 | defined exactly when every participant is a key; keeps the keys and lowers the total by n shares |
| GroupBalances.EqualParts | backend/app/routers/settlements.py:26-28 | n equal parts of amount / n add back up to the amount |
| GroupBalances.ApplyExpense | backend/app/routers/settlements.py:18-28 | an expense without participants changes nothing; defined iff payer and debited users are keys; changes the total by the expense's drift only |
| GroupBalances.ApplyPayment | backend/app/routers/settlements.py:30-32 | defined iff both parties are keys; keeps the keys and the total |
| GroupBalances.DebitSharesEffect | backend/app/routers/settlements.py:23-24 | each share holder is debited exactly the sum of their shares |
| GroupBalances.DebitEachEffect | backend/app/routers/settlements.py:26-28 | each participant is debited the share once per time listed |
| GroupBalances.ExpenseEffect | backend/app/routers/settlements.py:21-28 | each member's new balance is the old one plus the amount if payer, minus their custom share or equal share |
| GroupBalances.PaymentEffect | backend/app/routers/settlements.py:30-32 | payer's balance up by the amount, recipient's down by it, every other unchanged |
| GroupBalances.Balances | backend/app/routers/settlements.py:16-34 | defined iff the raw fold is; same keys as the raw fold, each a whole number of cents within half a cent of the raw value |
| GroupBalances.ExpensesFold | backend/app/routers/settlements.py:18-28 | the expense loop succeeds iff every expense touches only keys; it then keeps the keys and adds the total drift |
| GroupBalances.PaymentsFold | backend/app/routers/settlements.py:30-32 | the payment loop succeeds iff every party is a key; it then keeps keys and total |
| GroupBalances.StartsAtZero | backend/app/routers/settlements.py:17 | the dict starts with one entry per member, all 0.0, summing to 0.0 |
| GroupBalances.Conservation | backend/app/routers/settlements.py:16-33 | the fold is defined iff every expense and payment names members; the keys are the members and the total is the sum of drifts |
| GroupBalances.SumsToZero | backend/app/routers/settlements.py:16-33 | when each custom split's shares add up to its amount, the raw balances sum to exactly zero |
| GroupBalances.NoDrift | backend/app/routers/settlements.py:21-28 | expenses whose custom shares add up to the amount create and destroy no money |
| GroupBalances.SubtractShares | backend/app/routers/settlements.py:23-24 | the share loop computes DebitShares, failing on the first unknown share holder |
| GroupBalances.SubtractEach | backend/app/routers/settlements.py:26-28 | the participant loop computes DebitEach |
| GroupBalances.AddExpense | backend/app/routers/settlements.py:19-28 | one iteration of the expense loop computes ApplyExpense |
| GroupBalances.AddPayment | backend/app/routers/settlements.py:31-32 | one iteration of the payment loop computes ApplyPayment |
| GroupBalances.ChargeExpenses | backend/app/routers/settlements.py:18-28 | the expense loop computes the expense fold, stopping at the first KeyError |
| GroupBalances.SettlePayments | backend/app/routers/settlements.py:30-32 | the payment loop computes the payment fold, stopping at the first KeyError |
| GroupBalances.ComputeBalances | backend/app/routers/settlements.py:16-34 | `_compute_balances` computes Balances |
| GroupBalances.ExpensesStuck | backend/app/routers/settlements.py:18-28 | a KeyError part-way through the expenses fails the whole fold |
| GroupBalances.PaymentsStuck | backend/app/routers/settlements.py:30-32 | a KeyError part-way through the payments fails the whole fold |
| SettlementCalculator.DebtorsMembers | backend/app/services/settlement_calculator.py:13-15 | the debtors are exactly the balances below -Eps, negated |
| SettlementCalculator.CreditorsMembers | backend/app/services/settlement_calculator.py:13-17 | the creditors are exactly the balances above Eps |
| SettlementCalculator.PartitionSnoc | backend/app/services/settlement_calculator.py:13-17 | each balance goes to the debtors, the creditors or neither, appended at the end |
| SettlementCalculator.SortDescPerm | backend/app/services/settlement_calculator.py:18-19 | the sort is a permutation |
| SettlementCalculator.SortDescSorted | backend/app/services/settlement_calculator.py:18-19 | the sorted list is in descending order of amount |
| SettlementCalculator.SortDescStable | backend/app/services/settlement_calculator.py:18-19 | entries with equal amounts keep their input order |
| SettlementCalculator.SortDescDistinct | backend/app/services/settlement_calculator.py:18-19 | sorting a list without repeated users keeps it without repeats |
| SettlementCalculator.Reduce | backend/app/services/settlement_calculator.py:30-35 | paying t off the head drops it (cursor moves) when under Eps remains, otherwise keeps every user in place; no repeats and the Eps floor kept |
| SettlementCalculator.RoundTransfers | backend/app/services/settlement_calculator.py:29 | each reported transfer has the same parties and a rounded amount, a whole number of cents within half a cent |
| SettlementCalculator.GreedyStep | backend/app/services/settlement_calculator.py:24-35 | one loop step emits the rounded `min` transfer and continues on the reduced lists |
| SettlementCalculator.InsertLast | backend/app/services/settlement_calculator.py:18 | one insertion pass puts a[i] into the sorted prefix and leaves the rest alone |
| SettlementCalculator.SortDescending | backend/app/services/settlement_calculator.py:18-19 | the in-place sort leaves the array equal to SortDesc of its old contents |
| SettlementCalculator.Partition | backend/app/services/settlement_calculator.py:11-17 | the partition loop builds Debtors and Creditors |
| SettlementCalculator.Settle | backend/app/services/settlement_calculator.py:30-35 | overwriting a[i] with the remainder and advancing when under Eps leaves the cursor's suffix equal to Reduce |
| SettlementCalculator.MatchGreedy | backend/app/services/settlement_calculator.py:21-36 | the two-cursor loop returns the rounded greedy plan of the two sorted lists |
| SettlementCalculator.ComputeSettlements | backend/app/services/settlement_calculator.py:6-36 | `compute_settlements` returns Settlements of its ordered input |
| SettlementProperties.ReduceAmount | backend/app/services/settlement_calculator.py:30-31 | remainders never go negative, and the paying user's amount falls by the transfer |
| SettlementProperties.ReduceUser | backend/app/services/settlement_calculator.py:30-35 | a user either keeps an amount lowered by exactly the transfer, or is the head passed with under Eps left |
| SettlementProperties.GreedyShape | backend/app/services/settlement_calculator.py:24-29 | every transfer goes from a listed debtor to a listed creditor and is at least Eps |
| SettlementProperties.GreedyCount | backend/app/services/settlement_calculator.py:23-35 | at most `#debtors + #creditors - 1` transfers |
| SettlementProperties.GreedyWithin | backend/app/services/settlement_calculator.py:26-31 | no one sends more than their debt or receives more than their credit |
| SettlementProperties.GreedyExhausts | backend/app/services/settlement_calculator.py:23-35 | when the loop ends, every debtor or every creditor has under Eps left |
| SettlementProperties.TotalApply | backend/app/services/settlement_calculator.py:29-31 | applying transfers changes the total by the net flow in and out of the members |
| SettlementProperties.SumNetZero | backend/app/services/settlement_calculator.py:29-31 | transfers among members have zero net flow |
| SettlementProperties.BoundedSpread | backend/app/services/settlement_calculator.py:7-10 | balances that sum to zero, all on one side of the Eps band, are each within |b| * Eps of zero |
| SettlementTheorems.PlanDebtor | backend/app/services/settlement_calculator.py:13-19 | a user is a sorted debtor iff their balance is below -Eps, holding minus the balance |
| SettlementTheorems.PlanCreditor | backend/app/services/settlement_calculator.py:13-19 | a user is a sorted creditor iff their balance is above Eps, holding the balance |
| SettlementTheorems.PlanParties | backend/app/services/settlement_calculator.py:13-29 | every unrounded transfer goes from a balance below -Eps to one above Eps and is at least Eps |
| SettlementTheorems.SettlementParties | backend/app/services/settlement_calculator.py:6-36 | every reported transfer goes from a member below -Eps to a member above Eps |
| SettlementTheorems.SettledSkipped | backend/app/services/settlement_calculator.py:13-17 | a member within Eps of zero appears in no transfer |
| SettlementTheorems.DebtorsEmpty | backend/app/services/settlement_calculator.py:13-15 | no debtors iff no balance below -Eps |
| SettlementTheorems.CreditorsEmpty | backend/app/services/settlement_calculator.py:16-17 | no creditors iff no balance above Eps |
| SettlementTheorems.PlanNonEmpty | backend/app/services/settlement_calculator.py:23-29 | with a debtor and a creditor, at least one transfer is made |
| SettlementTheorems.PlanEmpty | backend/app/services/settlement_calculator.py:11-23 | the plan is empty iff no balance is below -Eps or none is above Eps (all-zero and empty inputs included) |
| SettlementTheorems.PartitionSize | backend/app/services/settlement_calculator.py:11-17 | debtors and creditors together are no more than the members |
| SettlementTheorems.PlanCount | backend/app/services/settlement_calculator.py:23-35 | with both sides present, at most `#debtors + #creditors - 1 <= #members - 1` transfers |
| SettlementTheorems.PlanWithin | backend/app/services/settlement_calculator.py:26-31 | a debtor sends at most their debt and receives nothing, a creditor the reverse, a settled member neither |
| SettlementTheorems.FinalBalance | backend/app/services/settlement_calculator.py:23-35 | after the plan a debtor is at minus their unpaid remainder, at most 0; a creditor at their unreceived remainder, at least 0; others unchanged |
| SettlementTheorems.DebtorsDone | backend/app/services/settlement_calculator.py:23-35 | once every debtor is down to under Eps, no balance after the plan is below -Eps |
| SettlementTheorems.CreditorsDone | backend/app/services/settlement_calculator.py:23-35 | once every creditor is down to under Eps, no balance after the plan is above Eps |
| SettlementTheorems.PlanConserves | backend/app/services/settlement_calculator.py:29-31 | applying the plan keeps the sum of the balances |
| SettlementTheorems.SettleUp | backend/app/services/settlement_calculator.py:7-10 | for balances summing to zero, after the plan every member is within |b| * Eps of zero |
| SettlementTheorems.PlanExhausts | backend/app/services/settlement_calculator.py:23-35 | after the plan, the balances are all at least -Eps or all at most Eps |
| SettlementScenarios.RoundsToZero | backend/app/services/settlement_calculator.py:29 | an amount strictly between 0 and half a cent rounds to 0.0 |
| SettlementScenarios.PairPlan | backend/app/services/settlement_calculator.py:6-36 | two cancelling balances give the single transfer from debtor to creditor |
| SettlementScenarios.PairSettles | backend/app/services/settlement_calculator.py:6-36 | for a whole number of cents that transfer is reported unchanged |
| SettlementScenarios.SplitBetweenTwo | backend/app/routers/settlements.py:16-33 | an expense of 2h paid by u and split equally with v leaves u at +h and v at -h |
| SettlementScenarios.DinnerForTwo | backend/tests/test_settlements.py:16-24 | a dinner of 100 split by two gives balances +50 / -50 and one settlement of 50 |
| SettlementScenarios.TiedCreditors | backend/app/services/settlement_calculator.py:18-19 | two creditors owed the same are paid in the order of the balance map |
| SettlementScenarios.ZeroCentTransfer | backend/app/services/settlement_calculator.py:27-29 | a debt above Eps but under half a cent is reported as a transfer of 0.0 |
| SettlementScenarios.LeftBeyondEps | backend/app/services/settlement_calculator.py:7-10 | balances summing to zero for which a member is left owing more than Eps after the plan |
| SettlementScenarios.NotFewest | backend/app/services/settlement_calculator.py:9 | balances for which the plan has four transfers while three settle everyone exactly |
| SettlementsRouter.GetSettlements | backend/app/routers/settlements.py:38-59 | 404 iff no group, 403 iff caller not a member; otherwise the rounded balances and the settlement plan computed from them |
| SettlementsRouter.RecordPayment | backend/app/routers/settlements.py:63-88 | accepted iff group exists, caller and recipient are members and the amount is positive; the payment is caller to recipient; each refusal exactly when its check fails |
| SettlementsRouter.AcceptedPaymentEffect | backend/app/routers/settlements.py:30-32 | an accepted payment can always be folded: the caller's balance goes up, the recipient's down, the total stays |
| SettlementsRouter.SelfPayment | backend/app/routers/settlements.py:73-77 | a payment to oneself is accepted and changes no balance |
| SettlementsRouter.SuggestedPayment | backend/app/routers/settlements.py:73-77 | a suggested transfer names two members, and recording it is accepted iff its rounded amount is positive |
| SettlementsRouter.CategoryOf | backend/app/routers/settlements.py:132 | a missing or empty category is counted as "other"; any other stays |
| SettlementsRouter.TallyPrefix | backend/app/routers/settlements.py:131-133 | the category dict after k+1 expenses is one tally step on the dict after k |
| SettlementsRouter.AddPaid | backend/app/routers/settlements.py:134 | `member_paid[payer] += amount` is defined iff the payer is a member, keeping the keys |
| SettlementsRouter.MemberPaid | backend/app/routers/settlements.py:129-134 | the paid dict keeps its keys |
| SettlementsRouter.DashboardOf | backend/app/routers/settlements.py:113-149 | a dashboard exists only when the paid fold and the balances are defined |
| SettlementsRouter.MemberPaidStuck | backend/app/routers/settlements.py:131-134 | a KeyError part-way through fails the whole aggregation |
| SettlementsRouter.SumExpenses | backend/app/routers/settlements.py:127 | the sum loop computes the total of the amounts |
| SettlementsRouter.MemberPaidPrefix | backend/app/routers/settlements.py:131-134 | the paid dict after k+1 expenses is one more `+=` on the dict after k |
| SettlementsRouter.RecordPaid | backend/app/routers/settlements.py:134 | one `+=` computes AddPaid |
| SettlementsRouter.Aggregate | backend/app/routers/settlements.py:127-134 | the aggregation loop fails iff a payer is no member, and otherwise returns the category totals and the paid dict |
| SettlementsRouter.GetDashboard | backend/app/routers/settlements.py:113-149 | `get_dashboard` returns DashboardResult |
| SettlementsRouter.MemberPaidDefined | backend/app/routers/settlements.py:129-134 | the paid fold is defined iff every payer is a member |
| SettlementsRouter.MemberPaidSums | backend/app/routers/settlements.py:129-134 | each member's paid figure is what they paid, and the paid figures sum to the total of the amounts |
| SettlementsRouter.TallyKeys | backend/app/routers/settlements.py:131-133 | the category keys are exactly the categories (or "other") of the expenses |
| SettlementsRouter.TallyCents | backend/app/routers/settlements.py:133 | each category total is a whole number of cents |
| SettlementsRouter.TallyExact | backend/app/routers/settlements.py:131-133 | with amounts in whole cents, each category total is the exact sum spent on it |
| SettlementsRouter.CategoryTotalsFacts | backend/app/routers/settlements.py:131-133 | the keys are the categories used, every total is in cents, and equals the sum spent on the category for amounts in cents |
| SettlementsRouter.DashboardFigures | backend/app/routers/settlements.py:127-149 | expense count, rounded total, one rounded paid figure per member, and the caller's own balance |
| SettlementsRouter.DashboardDefined | backend/app/routers/settlements.py:127-134 | the dashboard is defined iff every payer is a member and the balances are defined |
| SettlementsRouter.FoodAndTransport | backend/tests/test_settlements.py:46-60 | food 60 and transport 40 give total 100, two expenses and those category totals |
| Expenses.SplitTypeOrEqual | backend/app/routers/expenses.py:64 | an empty split type means "equal"; any other is kept |
| Expenses.CreateExpense | backend/app/routers/expenses.py:51-75 | accepted iff no rule is broken; a refusal names a broken rule, and no earlier rule in the chain is broken; an accepted expense keeps the request's group, payer, amount, description and category, with the split type defaulting to "equal" |
| Expenses.ElemsCard | backend/app/routers/expenses.py:57-58 | a list has as many distinct ids as entries iff it has no repeats |
| Expenses.ParticipantsCheck | backend/app/routers/expenses.py:57-59 | the length check passes iff the ids have no repeats and are all members |
| Expenses.CreateAccepts | backend/app/routers/expenses.py:51-75 | creation succeeds iff caller and payer are members, ids nonempty, distinct and members, category allowed, and a custom split has matching shares adding up within a cent |
| Expenses.AcceptedExpense | backend/app/routers/expenses.py:77-85 | a created expense carries the request's group, payer, amount, description, category and split type ("equal" when empty), names only members, has distinct nonempty participants in member order, holds the request's shares iff custom, and drifts at most 1.5 cents |
| Expenses.Respond | backend/app/routers/expenses.py:18-29 | shares reported iff custom with shares; split type kept, or "equal" when empty |
| Expenses.CreatedResponse | backend/app/routers/expenses.py:64-95 | the response to a creation carries the requested split type (or "equal") and the requested shares iff custom |
| Expenses.LunchForOne | backend/tests/test_expenses.py:16-25 | a lunch of 50 for the payer alone is accepted and reported as food, equal, 50 |
| Expenses.ExpenseRow.constructor | backend/app/routers/expenses.py:77-84 | the new row holds the given expense |
| Expenses.ExpenseRow.Restore | backend/app/routers/expenses.py:191-209 | after a refusal the row holds the stored expense again, as when the request's session ends without a commit |
| Expenses.ExpenseRow.TakeFields | backend/app/routers/expenses.py:185-198 | the field updates store Fielded of the old row, or refuse and leave the row as it was |
| Expenses.ExpenseRow.TakeSplit | backend/app/routers/expenses.py:200-214 | the split update stores Resplit of the old row, or refuse and leave the row as it was |
| Expenses.ExpenseRow.Update | backend/app/routers/expenses.py:180-214 | `update_expense` stores Patched of the old row, or refuses and leaves it as it was |
| Expenses.PatchKeepsUnsupplied | backend/app/routers/expenses.py:185-201 | every field not supplied keeps its value; supplied fields take the supplied value, supplied participant ids become the members among them in member order, and an empty category clears it |
| Expenses.PatchResetsShares | backend/app/routers/expenses.py:200-214 | a new split type drops all old shares; new ones only for custom, and only when they add up to the final amount |
| Expenses.PatchRefuses | backend/app/routers/expenses.py:183-212 | an update is refused iff the caller is no member, the category is invalid, the new ids repeat or name non-members, or custom shares miss the final amount |
| Expenses.PatchAllowsEmpty | backend/app/routers/expenses.py:194-198 | an update may clear the participants, which creation refuses |
| Expenses.RenameLunch | backend/tests/test_expenses.py:72-78 | amount 30, description "Updated" and category food are stored as given |
| Groups.EnrolKeeps | backend/app/routers/groups.py:43-48 | the member list keeps its start, has no repeats and lists exactly the start and the found users |
| Groups.BuildMembers | backend/app/routers/groups.py:43-48 | the creator comes first, no repeats, and the members are the creator plus the requested ids that exist |
| Groups.Group.constructor | backend/app/routers/groups.py:49-50 | a group with the given name, description and members |
| Groups.Group.Update | backend/app/routers/groups.py:72-90 | refused to a non-member; otherwise only the supplied name and description change |
| Groups.Group.AddMember | backend/app/routers/groups.py:108-128 | refused to a non-member, for an unknown email or a present member; otherwise the user is appended and no repeat appears |
| Groups.Group.RemoveMember | backend/app/routers/groups.py:131-150 | refused to a non-member, for a non-member user or for oneself; otherwise exactly that user is gone |
| Groups.RemoveExactly | backend/app/routers/groups.py:147 | removal from a list without repeats drops that user alone and keeps the others in order |
| Groups.AddThenRemove | backend/app/routers/groups.py:122-147 | adding a user then removing them gives the member list back |
| Groups.MembershipRoundTrip | backend/tests/test_groups.py:1-50 | a new group has 1 member, 2 after an add, 1 after the remove |
| Text.Lower | backend/app/routers/chat.py:108 | `lower()` keeps the length and lowers each ASCII capital |
| Text.TrimStart | backend/app/routers/chat.py:119 | `lstrip()` drops exactly the leading whitespace: tab to carriage return, U+001C to U+001F and space |
| Text.TrimEnd | backend/app/routers/chat.py:119 | `rstrip()` drops exactly the trailing whitespace: tab to carriage return, U+001C to U+001F and space |
| Text.StripLower | backend/app/routers/chat.py:119 | stripping and lower-casing commute |
| Text.NormaliseTwice | backend/app/routers/chat.py:119 | the normal form of a query is its own normal form |
| Chat.FindGroup | backend/app/routers/chat.py:106-115 | a group found has the name within its name, ignoring case; none found iff no group's name contains it |
| Chat.FindGroupExact | backend/app/routers/chat.py:109-111 | the first exact case-insensitive match wins over any substring match |
| Chat.FindGroupPartial | backend/app/routers/chat.py:112-114 | with no exact match, the first substring match is returned |
| Chat.FindMember | backend/app/routers/chat.py:118-127 | a member found matches the lowered, stripped query by email or name; none found iff no member matches |
| Chat.FindMemberExact | backend/app/routers/chat.py:120-122 | the first exact email or name match wins over any substring match |
| Chat.FindMemberPartial | backend/app/routers/chat.py:123-125 | with no exact match, the first substring match is returned |
| Chat.FindMemberNormal | backend/app/routers/chat.py:119 | searching with a query or its lowered, stripped form gives the same member |
| Chat.SameNormalForm | backend/app/routers/chat.py:119-125 | two queries with the same lowered, stripped form find the same member |
| Chat.BlankQuery | backend/app/routers/chat.py:119-125 | a blank query matches the first member |
| Chat.ResolveGroup | backend/app/routers/chat.py:106-115 | the two search loops compute FindGroup |
| Chat.ResolveMember | backend/app/routers/chat.py:118-127 | the two search loops compute FindMember |
| Chat.PickedFails | backend/app/routers/chat.py:168-174 | selection fails iff some name is neither the caller nor a member |
| Chat.PickedWithin | backend/app/routers/chat.py:168-174 | every selected entry is a member or the caller |
| Chat.PickedExactly | backend/app/routers/chat.py:168-174 | the name loop selects exactly what the names stand for: the caller for the caller's own name, otherwise the member each name resolves to |
| Chat.PickedOnce | backend/app/routers/chat.py:170-172 | when no name finds the caller as a member, "me" adds the caller at most once |
| Chat.Participants | backend/app/routers/chat.py:163-176 | "all" or no names selects every member; otherwise fails iff a name is unresolved, includes the caller, holds only members and the caller, holds exactly the caller and the member each other name resolves to, and the caller once when no name finds them as a member |
| Chat.SelectParticipants | backend/app/routers/chat.py:163-176 | the selection loop computes Participants |
| Chat.RepeatedName | backend/app/routers/chat.py:173-174 | a member named twice is selected twice in the in-memory list |
| Chat.RepeatedNameRefused | backend/app/routers/chat.py:186-188 | an expense naming a member twice cannot be committed, so the assistant reports a failure |
| Chat.ChatCategory | backend/app/routers/chat.py:159-161 | the category is always allowed; kept iff allowed, and otherwise "other" |
| Chat.AddExpense | backend/app/routers/chat.py:155-188 | no group iff the search fails; no member iff the selection fails; refused at the commit iff the selection lists a user twice; accepted iff none of these happens, as an equal expense paid by the caller over the selected ids, each once, with the given amount, the description or "expense", and the checked category |
| Chat.AddedExpenseCharges | backend/app/routers/chat.py:178-186 | an expense the chat adds names only group members, has participants and is folded into the balances without changing their sum |
| Chat.SettleDebt | backend/app/routers/chat.py:256-268 | refused for no group, no member, or an amount not positive; otherwise a payment from the caller to the member found |
| Chat.SettleDebtRecords | backend/app/routers/chat.py:256-268 | the chat's payment is accepted iff the router's `record_payment` accepts it, and is the same payment |
| Chat.Classify | backend/app/routers/chat.py:208-213 | "is owed" iff above a cent, "owes" iff below minus a cent, "settled up" otherwise |
| Chat.DescribedAsSettled | backend/app/routers/chat.py:204-219 | for balances that sum to zero, a member described as owed receives in some suggested transfer, and one described as owing sends in one |
| Chat.OwedWithoutTransfer | backend/app/routers/chat.py:199-213 | 0.02 paid by one of five members and split equally rounds to 0.02 for the payer and 0.0 for the rest: the payer is described as owed, yet no transfer is suggested |
| Chat.EqualSplitRaw | backend/app/routers/chat.py:133-144 | an equal split over all members, each listed once, leaves the payer at the amount less a share and every other member at minus a share |
| Chat.EqualSplitAll | backend/app/routers/chat.py:137-144 | on a dict at zero, an equal split over every key, each listed once, leaves the payer at the amount less a share and every other key at minus a share |
| Chat.SettledButSuggested | backend/app/routers/chat.py:208-219 | balances of plus and minus a cent are both "settled up", yet a transfer of a cent is suggested |
| Chat.ExpensesOf | backend/app/routers/chat.py:131 | the expenses of the group, and only those |
| Chat.PaymentsOf | backend/app/routers/chat.py:132 | the payments of the group, and only those |
| Chat.ChatBalances | backend/app/routers/chat.py:130-148 | the chat's `_compute_balances` is the same Balances as the settlements router's, over the group's records |

## Left out

- The Gemini client, its function declarations, the prompt built from the user's
  groups and the chat endpoint (`backend/app/routers/chat.py` 24-100 and 330-431).
  These are calls into a foreign service.
- Database queries, commits and refreshes. Stored groups, users, expenses and
  payments are parameters, in the order the queries return them. The list and get
  endpoints, their pagination and their `ilike` search are not modelled.
- The `_check_group_member` lookups that end in 404 are covered as a missing
  group (`None`). The lookup of the expense row in `update_expense` is left to the
  caller of `Expenses.ExpenseRow.Update`.
- Deleting groups and expenses, the CSV export of `expenses.py`, authentication
  (`auth.py`) and application wiring. `backend/app/database.py` is not part of
  this model.
- IEEE-754 floating point. Amounts are exact reals, so the rounding error of
  float sums (for example in `amount / n`) is not captured. `round(x, 2)` is
  exact round-half-even on the real value.
- Unicode `lower()` and `strip()`: only ASCII letters and ASCII whitespace are
  handled.
- TrimStart: whitespace outside ASCII (U+0085, U+00A0, U+2000 to U+200A and
  others) is not dropped, though `str.lstrip()` drops it.
- TrimEnd: whitespace outside ASCII is not dropped, though `str.rstrip()` drops
  it.
- All summary text: the `f"${x:.2f}"` formatting, names shown as "You", and the
  sorted category lines of the chat dashboard.
- The chat dashboard (`backend/app/routers/chat.py` 230-253). Its totals loop is
  the loop that `SettlementsRouter.Aggregate` models. Chat `add_member`,
  `list_expenses` and the expense list are not modelled.
- SettlementTheorems.SettleUp: the promise to settle everyone up holds within
  `|members| * Eps`, not within `Eps`. `SettlementScenarios.LeftBeyondEps` shows
  that the stronger reading fails.
- SettlementCalculator.ComputeSettlements: the docstring calls the plan
  "minimal". That is not proved, and `SettlementScenarios.NotFewest` shows it does
  not hold.
- Chat.DescribedAsSettled: it assumes at most 10^6 members, so that
  `|members| * Eps` stays below a cent. It also assumes the balances sum to
  zero. The rounded balances the chat classifies need not, and
  `Chat.OwedWithoutTransfer` shows a member described as owed with no
  transfer suggested.
- SettlementsRouter.CategoryTotals: the category dict is a `map`, so the key
  order a JSON response would show is not modelled.
- Chat.AddExpense: the result summary and the per-person figure are not
  modelled. Nothing checks that the amount is positive, as in the code. A
  selection that lists a user twice is refused as the commit refuses it. The
  database's error text is not modelled.
