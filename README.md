# Budgy core: group balances, debt settlement, planning lists and the offline queue

This project models three pieces of in-memory logic of the Budgy budgeting app and proves properties about them.

- **Group balances** (`src/utils/balance.ts`):
  - `calculateMemberBalances` folds a group's expenses and their splits into one `paid / owed / balance` record per roster member.
  - `calculateDebts` turns those balances into a short list of transfers. It sorts debtors and creditors by magnitude and runs a two-cursor greedy loop that moves `min(|debt|, credit)` at each step. Steps of at most one cent are dropped and the rest are rounded to cents.
  - `groupExpensesByDate` buckets personal expenses by date.
- **Planning-mode store** (`src/store/useStore.ts`): budget lists holding items, with the store's actions on its `lists` and `settings` fields, and the `calculateListTotals` / `calculateGlobalTotals` helpers.
- **Offline queue** (`src/store/offline.store.ts`): a FIFO of personal-expense payloads waiting for a connection. It supports append, remove by temporary id, and clear.

Files:

- `common.dfy` (module `Common`):
  - `Option`.
  - The order-preserving `Filter` behind every `Array.prototype.filter`.
  - `DistinctKeys`, the key order of a JavaScript `Map` filled in sequence.
- `expense_types.dfy`, `planning_types.dfy`: the records of `src/types/expenses.type.ts` and `src/types/index.ts`.
- `balance.dfy` (module `Balance`):
  - `CalculateMemberBalances` and `GroupExpensesByDate` are methods. They fill a `map` along a key-order sequence, as the source's `Map` does.
  - `CalculateDebts` copies the debtors and creditors into arrays. Its loop (`Settle`, one step in `MoveAmount`) mutates the running balances in place, as the source does.
  - The loop is proved against a ghost trace of `Transfer` steps. The specification functions `RemainingDebt`, `RemainingCredit` and `Emitted` are defined over that trace.
- `list_store.dfy` (module `ListStore`):
  - Each action that rewrites `lists` is a pure transition function with its properties.
  - Class `StoreState` holds `lists` and `settings`. The list actions state their new `lists` through those functions. `SetCurrency`, `SetSettings`, `ResetStore` and `ImportData` state their new state directly: a record update, the constant `DefaultSettings`, or their parameters.
  - The helpers `OrderOrZero`, `Amounts`, `Budgets`, `Spending` and `IsActive` are sub-expressions of `MaxOrder`, `CalculateListTotals` and `CalculateGlobalTotals`. Their behaviour is stated through the rows of those members.
- `offline_queue.dfy` (module `OfflineStore`): class `OfflineState` over a `queue` sequence, with the removal function and its lemmas.

Nondeterminism and input data:

- Ids and times that the source draws from `uuidv4()`, `Date.now()` and `Math.random()` are method parameters.
- Money is `real`.
- `Math.round(x * 100) / 100` is `RoundCents`: it rounds half up to a whole number of cents, as `Math.round` does.

Two behaviours of the code that a reader might not expect:

- **Duplicate roster ids.** `calculateMemberBalances` returns one record per distinct `user_id`, not one per roster entry. The record sits where the id first appears and carries the profile of the id's last roster entry, because `Map.set` keeps the first position and overwrites the value. See `RosterIds`, `LastProfile` and `LastProfileIsLast`.
- **Debt total versus credit.** Rounding to cents can make the sum of emitted debts exceed the sum of positive balances, because a transfer of 0.015 is emitted as 0.02. `HalfCentRoundsUp` proves this for a group where one member owes another 0.015: the only greedy settlement emits one debt of 0.02. What does hold in general:
  - `DebtsWithinCredit`: the debts add up to at most the creditors' total plus half a cent per step.
  - `DebtsCoverCredit`: when the balances sum to zero, the debts fall short of the creditors' total by at most one cent per step, per debtor and per creditor.
  - `SettlementLeavesOnlyDust`: the debt and credit left unsettled are equal and at most one cent per participant.

## Model

| member | source | states |
|---|---|---|
| Balance.LastProfileIsLast | src/utils/balance.ts:9-17 | an id has a record exactly when some roster entry carries it; the record's profile is that of the id's last roster entry |
| Balance.SeedRoster | src/utils/balance.ts:9-17 | after the roster pass the key order is the distinct roster ids in first-occurrence order, each starting at paid = owed = balance = 0 |
| Balance.SeedMember | src/utils/balance.ts:10-16 | one `balances.set` keeps the seeding invariant for the roster seen so far |
| Balance.CreditPayer | src/utils/balance.ts:20-23 | the payer's `paid` grows by the amount when the payer is on the roster; an unknown payer changes nothing |
| Balance.ChargeSplit | src/utils/balance.ts:25-30 | the split user's `owed` grows by the share when the user is on the roster; an unknown user is skipped |
| Balance.AddExpense | src/utils/balance.ts:19-31 | one expense keeps every record equal to the paid and owed sums over the expenses processed so far |
| Balance.AddExpenses | src/utils/balance.ts:19-31 | after all expenses every record's paid is `PaidBy` and owed is `OwedBy` over the whole expense list |
| Balance.SeededIsAccumulated | src/utils/balance.ts:9-19 | the freshly seeded table is the accumulation over no expenses |
| Balance.SetBalance | src/utils/balance.ts:33-35 | one record gets balance = paid - owed and nothing else changes |
| Balance.SetBalances | src/utils/balance.ts:33-35 | every record ends with balance = paid - owed |
| Balance.Collect | src/utils/balance.ts:37 | the values come out in key order: one per distinct roster id, with the last profile, the paid and owed sums and their difference |
| Balance.CalculateMemberBalances | src/utils/balance.ts:3-38 | one record per distinct roster id in first-appearance order; paid = sum of amounts the member paid; owed = sum of shares naming the member; balance = paid - owed; payers and split users off the roster count for no one |
| Balance.NoSplitsOweNothing | src/utils/balance.ts:25-30 | an expense with no splits adds to no one's owed |
| Balance.TotalPaidSnoc | src/utils/balance.ts:19-23 | adding an expense adds its amount to the roster's paid total exactly when the payer is on the roster |
| Balance.TotalShareSnoc | src/utils/balance.ts:25-30 | adding a split adds its share to the roster's share total exactly when its user is on the roster |
| Balance.TotalOwedSnoc | src/utils/balance.ts:25-30 | adding an expense adds its on-roster shares to the roster's owed total |
| Balance.TotalShareAll | src/utils/balance.ts:25-30 | when every split user is on a distinct roster, the roster's share total is the sum of all shares |
| Balance.TotalShareNone | src/utils/balance.ts:25-30 | no splits, no shares |
| Balance.TotalsNone | src/utils/balance.ts:19-31 | no expenses, nothing paid or owed |
| Balance.TotalsAll | src/utils/balance.ts:19-31 | on a distinct roster covering every payer and split user, total paid is the expense total and total owed is the charged total |
| Balance.BalanceTotalOfRecords | src/utils/balance.ts:33-37 | the balances of the records sum to total paid minus total owed |
| Balance.ChargedIsExpenseTotal | src/utils/balance.ts:25-30 | when each expense's splits add up to its amount, the charged total is the expense total |
| Balance.BalancesSumToZero | src/utils/balance.ts:3-38 | when every payer and split user is on the roster and each expense's splits add up to its amount, the returned balances sum to zero |
| Balance.RoundCents | src/utils/balance.ts:65 | the result is a whole number of cents within half a cent of the input, and an amount above the dust threshold stays at least one cent |
| Balance.Insert | src/utils/balance.ts:46-47 | inserting into a sorted sequence keeps it sorted and adds exactly that element |
| Balance.InsertBehindHead | src/utils/balance.ts:46-47 | an element that does not go before the head lands behind it and the result stays sorted |
| Balance.SortByBalance | src/utils/balance.ts:46-47 | the sort returns a permutation of its input, sorted in the given direction |
| Balance.InsertIsStable | src/utils/balance.ts:46-47 | inserting puts the new entry in front of the entries with its own balance and keeps the order among them |
| Balance.SortIsStable | src/utils/balance.ts:46-47 | the sort is stable: for every balance value, the entries with that balance come out in input order |
| Balance.Debtors | src/utils/balance.ts:41 | exactly the entries with a negative balance, in input order (a filter), never more than the input |
| Balance.Creditors | src/utils/balance.ts:42 | exactly the entries with a positive balance, in input order (a filter), never more than the input |
| Balance.SortedDebtors | src/utils/balance.ts:41-46 | a permutation (same multiset) of the debtors, ascending (largest debt first) |
| Balance.SortedDebtorsKeepTies | src/utils/balance.ts:41-46 | debtors with equal balances stay in the order of the input balances |
| Balance.SortedCreditors | src/utils/balance.ts:42-47 | a permutation (same multiset) of the creditors, descending (largest credit first) |
| Balance.SortedCreditorsKeepTies | src/utils/balance.ts:42-47 | creditors with equal balances stay in the order of the input balances |
| Balance.Emitted | src/utils/balance.ts:61-67 | at most one debt per step, each of at least one cent, from a debtor's profile to a creditor's profile |
| Balance.PaidSnoc | src/utils/balance.ts:69 | a step adds its amount to what its debtor has paid and to no one else's |
| Balance.ReceivedSnoc | src/utils/balance.ts:70 | a step adds its amount to what its creditor has received and to no one else's |
| Balance.EmittedSnoc | src/utils/balance.ts:61-67 | a step emits one rounded debt exactly when its amount exceeds one cent |
| Balance.RunningStep | src/utils/balance.ts:69-70 | updating the two running balances in the arrays matches the trace extended by one step |
| Balance.GreedySnoc | src/utils/balance.ts:56-59 | a step moving min(remaining debt, remaining credit) keeps every step greedy |
| Balance.NextSnoc | src/utils/balance.ts:72-73 | appending a step does not change where earlier steps moved the cursors |
| Balance.AdvanceStep | src/utils/balance.ts:72-73 | a step taken where the previous step left the cursors, followed by the source's cursor moves (i advances exactly when the debtor is left below one cent, j exactly when the creditor is), extends the chain of cursor advances |
| Balance.CursorStep | src/utils/balance.ts:52-73 | the cursor part of the loop invariant, including where the cursors stand after the last step, survives one iteration |
| Balance.AmountStep | src/utils/balance.ts:56-73 | the amount part of the loop invariant survives one iteration: balances never cross zero, and settled entries hold less than one cent |
| Balance.SettleStep | src/utils/balance.ts:52-74 | one iteration keeps the invariant and advances i or j |
| Balance.SettlingStart | src/utils/balance.ts:49-50 | the invariant holds with both cursors at 0 and no steps |
| Balance.SettlingDone | src/utils/balance.ts:52-76 | at loop exit there were no steps exactly when one side was empty, at most #debtors + #creditors - 1 steps, one side fully settled, and the last step left a cursor past its end: the trace is a complete greedy settlement |
| Balance.StepIsDetermined | src/utils/balance.ts:52-73 | in a complete greedy settlement each step's cursors and amount are determined by the steps before it |
| Balance.SettlementPrefixesAgree | src/utils/balance.ts:52-73 | two complete greedy settlements of the same sides agree on every step they both took |
| Balance.StepsAgree | src/utils/balance.ts:52-73 | two complete greedy settlements that agree before a step agree on that step |
| Balance.SettlementNotExtended | src/utils/balance.ts:52-73 | a complete greedy settlement is not a proper prefix of another, since its last step left a cursor past its end |
| Balance.SettlementIsUnique | src/utils/balance.ts:49-76 | there is exactly one complete greedy settlement of given sorted debtors and creditors, so the emitted debts are determined |
| Balance.EmittedBetweenMembers | src/utils/balance.ts:41-64 | every debt runs from a debtor's profile to a creditor's profile, so no debt is a self-debt when profiles identify entries |
| Balance.MoveAmount | src/utils/balance.ts:53-70 | the transfer is min(remaining debt, remaining credit); the two array entries and the debt list match the trace extended by that step |
| Balance.PaidTotalSnoc | src/utils/balance.ts:69 | a step adds its amount to the debtors' paid total |
| Balance.ReceivedTotalSnoc | src/utils/balance.ts:70 | a step adds its amount to the creditors' received total |
| Balance.NothingPaidYet | src/utils/balance.ts:49-50 | before any step nothing has been paid |
| Balance.BothSidesMoveTheSame | src/utils/balance.ts:69-70 | the debtors pay in total what the creditors receive in total |
| Balance.ResidualDebtIsUnpaid | src/utils/balance.ts:56-70 | the debt left is the initial debt minus what was paid |
| Balance.ResidualCreditIsUnreceived | src/utils/balance.ts:56-70 | the credit left is the initial credit minus what was received |
| Balance.ResidualDebtBound | src/utils/balance.ts:72 | when every debtor is settled, the debt left is at most one cent per debtor |
| Balance.ResidualCreditBound | src/utils/balance.ts:73 | when every creditor is settled, the credit left is at most one cent per creditor |
| Balance.BalanceTotalCons | src/utils/balance.ts:41-42 | a balance sum splits off its first entry |
| Balance.BalanceTotalInsert | src/utils/balance.ts:46-47 | inserting keeps the balance sum |
| Balance.BalanceTotalSorted | src/utils/balance.ts:46-47 | sorting keeps the balance sum |
| Balance.BalanceTotalSnoc | src/utils/balance.ts:41-42 | a balance sum splits off its last entry |
| Balance.BalanceTotalSplits | src/utils/balance.ts:41-42 | the balances sum to the debtors' sum plus the creditors' sum, since zero balances add nothing |
| Balance.ResidualsMatch | src/utils/balance.ts:52-74 | when the sides sum to zero and one side is settled, the debt and credit left are equal and at most one cent per participant |
| Balance.SettlementLeavesOnlyDust | src/utils/balance.ts:40-77 | on balances summing to zero, settlement leaves equal residual debt and credit, at most one cent per participant |
| Balance.DebtTotalSnoc | src/utils/balance.ts:62-66 | one more debt adds its amount to the debts' total |
| Balance.EmittedTotalNearMoved | src/utils/balance.ts:59-67 | over positive steps, the emitted debts total at most half a cent per step above and at most one cent per step below the amount moved |
| Balance.ResidualCreditNonNegative | src/utils/balance.ts:70 | when no creditor is overpaid, the credit left is not negative |
| Balance.DebtsWithinCredit | src/utils/balance.ts:40-77 | the debts add up to at most the creditors' total plus half a cent per step |
| Balance.DebtsCoverCredit | src/utils/balance.ts:40-77 | on balances summing to zero, the debts add up to at least the creditors' total minus one cent per step, per debtor and per creditor |
| Balance.HalfCentSides | src/utils/balance.ts:41-47 | in the 0.015 group the one debtor and the one creditor are the sorted sides, and the creditors' total is 0.015 |
| Balance.HalfCentRun | src/utils/balance.ts:52-73 | in that group one step of 0.015 is a complete greedy settlement and is emitted as 0.02 |
| Balance.HalfCentRoundsUp | src/utils/balance.ts:40-77 | every greedy settlement of that group emits exactly one debt of 0.02, above the 0.015 the creditor is owed |
| Balance.Settle | src/utils/balance.ts:49-76 | the loop emits exactly the rounded above-dust steps of the complete greedy settlement: it starts at (0, 0); each later step is at the cursors the previous step left (i advances exactly when the debtor is left below one cent, j exactly when the creditor is); each moves the positive amount min(remaining debt, remaining credit); the last leaves a cursor past its end. The trace never overshoots, has fewer than #debtors + #creditors steps and ends with one side settled; every debt is at least one cent and there are fewer debts than debtors plus creditors |
| Balance.CalculateDebts | src/utils/balance.ts:40-77 | the same complete greedy settlement, with the same cursor-advance rule, over the sorted debtors and creditors of the input; each debt is at least one cent, from a debtor to a creditor, and never a self-debt when no profile belongs to two entries; nothing emitted when either side is empty |
| Balance.OnDateSnoc | src/utils/balance.ts:93-98 | a new expense joins the end of its own date's bucket only |
| Balance.BucketSizesSnoc | src/utils/balance.ts:93-98 | over distinct dates, a new expense adds one to the total bucket size exactly when its date is among them, and nothing otherwise |
| Balance.BucketSizesCoverAll | src/utils/balance.ts:88-102 | the buckets over the distinct dates hold every expense exactly once in total |
| Balance.GroupSizesAreBucketSizes | src/utils/balance.ts:88-102 | a map holding each date's bucket has the same total size |
| Balance.PushByDate | src/utils/balance.ts:94-98 | one expense goes to the end of its date's bucket, creating it at the end of the key order when new |
| Balance.GroupExpensesByDate | src/utils/balance.ts:88-102 | keys are the distinct dates in first-occurrence order; each bucket is exactly that date's expenses in input order; every expense is in its own date's bucket; the sizes sum to the input length |
| ListStore.MergeList | src/store/useStore.ts:60 | each key the update carries is taken from it and every other key is kept; nothing beyond its body |
| ListStore.MergeItem | src/store/useStore.ts:149 | each key the item update carries is taken from it and every other key is kept; nothing beyond its body |
| ListStore.MergeListTwice | src/store/useStore.ts:58-62 | merging two updates in turn is merging their combination |
| ListStore.MergeListIdempotent | src/store/useStore.ts:58-62 | merging the same update again changes nothing |
| ListStore.MergeListNothing | src/store/useStore.ts:58-62 | the empty update changes nothing |
| ListStore.MergeItemIdempotent | src/store/useStore.ts:143-153 | merging the same item update again changes nothing |
| ListStore.MergeItemNothing | src/store/useStore.ts:143-153 | the empty item update changes nothing |
| ListStore.UpdatedLists | src/store/useStore.ts:58-62 | same length; the lists with the id are merged with the update; every other list is unchanged |
| ListStore.UpdateAbsentList | src/store/useStore.ts:58-62 | updating an unknown id changes nothing |
| ListStore.UpdateListIdempotent | src/store/useStore.ts:58-62 | applying the same update twice is applying it once |
| ListStore.WithoutList | src/store/useStore.ts:64-68 | exactly the lists without the id remain |
| ListStore.WithoutLists | src/store/useStore.ts:82-86 | exactly the lists whose id is not in the given ids remain |
| ListStore.DeleteOneOfMany | src/store/useStore.ts:64-86 | bulk deletion of one id is deleting that list |
| ListStore.DeleteListsTwice | src/store/useStore.ts:82-86 | two bulk deletions equal one deletion of both id lists |
| ListStore.WithoutListsCons | src/store/useStore.ts:82-86 | the filter keeps a front list exactly when its id is not deleted, and keeps the order of the rest |
| ListStore.DeleteAbsentList | src/store/useStore.ts:64-68 | deleting an unknown id changes nothing |
| ListStore.AddThenDeleteList | src/store/useStore.ts:44-68 | deleting a list just added with a fresh id restores the previous lists |
| ListStore.SetArchived | src/store/useStore.ts:70-80 | same length; the named lists get the flag; every other list is unchanged |
| ListStore.SetArchivedIdempotent | src/store/useStore.ts:70-80 | archiving or unarchiving twice is doing it once |
| ListStore.ArchiveThenUnarchive | src/store/useStore.ts:70-80 | of an archive and an unarchive of the same ids, the later one wins |
| ListStore.FirstIndex | src/store/useStore.ts:90-91 | none exactly when no list has the id; otherwise the first index whose list has it |
| ListStore.MaxOrder | src/store/useStore.ts:94 | at least -1, at least every item's order (missing counts as 0), and either -1 or some item's order |
| ListStore.NextOrder | src/store/useStore.ts:94-103 | non-negative and strictly above every existing item's order |
| ListStore.ItemAdded | src/store/useStore.ts:88-111 | an unknown list id changes nothing; otherwise only the first matching list changes, getting the new item in front of its items |
| ListStore.NewList | src/store/useStore.ts:46-54 | the new list has the given id, name, budget, currency and time, no items, and is active |
| ListStore.NewItem | src/store/useStore.ts:94-104 | the new item carries the given fields, is planned when no status is given, and its order exceeds every existing item's order |
| ListStore.NewItemGoesFirst | src/store/useStore.ts:88-111 | the new item goes first, is planned by default, and its order exceeds every existing item's order; the old items follow unchanged |
| ListStore.EditItems | src/store/useStore.ts:113-165 | same length; the lists with the id get their items edited; every other list is unchanged |
| ListStore.EditAbsentList | src/store/useStore.ts:113-165 | an unknown list id changes nothing |
| ListStore.UpdatedItems | src/store/useStore.ts:147-150 | same length; the items with the id are merged with the update; every other item is unchanged |
| ListStore.UpdateItemIdempotent | src/store/useStore.ts:147-150 | applying the same item update twice is applying it once |
| ListStore.WithoutItem | src/store/useStore.ts:159-162 | exactly the items without the id remain |
| ListStore.DeleteItemIdempotent | src/store/useStore.ts:159-162 | deleting an item twice is deleting it once |
| ListStore.AddThenDeleteItem | src/store/useStore.ts:88-165 | deleting an item just added with a fresh id restores the previous lists |
| ListStore.Renumbered | src/store/useStore.ts:124-127 | same length; the k-th item gets order k |
| ListStore.ReorderedItems | src/store/useStore.ts:113-141 | the items not named come first in their original order, then the named ones in the given order with orders 0..n-1 |
| ListStore.ReorderKeepsIds | src/store/useStore.ts:113-141 | reordering items of the list keeps the set of item ids |
| ListStore.ReorderIdempotent | src/store/useStore.ts:113-141 | reordering with the same items again changes nothing |
| ListStore.AmountsCons | src/store/useStore.ts:195 | the amount sum splits off its first item |
| ListStore.CalculateListTotals | src/store/useStore.ts:192-205 | remaining = budget - planned, and the list is over budget exactly when planned exceeds the budget |
| ListStore.PlannedIsOpenPlusSpent | src/store/useStore.ts:193-200 | planned = the amounts still planned plus spent |
| ListStore.AmountsNonNegative | src/store/useStore.ts:193-200 | non-negative amounts have a non-negative sum |
| ListStore.SpentAtMostPlanned | src/store/useStore.ts:192-205 | with non-negative amounts, spent never exceeds planned |
| ListStore.AddedItemTotals | src/store/useStore.ts:192-205 | a new item adds its amount to planned unless cancelled, and to spent exactly when purchased |
| ListStore.CalculateGlobalTotals | src/store/useStore.ts:208-218 | the budget and spending sums over the active lists; both are zero when no list is active |
| ListStore.ArchivedListsCountNothing | src/store/useStore.ts:208-218 | the global totals of the lists equal those of their active lists |
| ListStore.ArchiveIsDeleteForTotals | src/store/useStore.ts:70-86 | archiving lists leaves the same active lists as deleting them |
| ListStore.ArchivedTotals | src/store/useStore.ts:208-218 | for the global totals, archiving lists is deleting them |
| ListStore.NewListTotals | src/store/useStore.ts:208-218 | a new list adds its budget to the global budget and nothing to spending |
| ListStore.StoreState.constructor | src/store/useStore.ts:38-42 | no lists, US dollars, not onboarded |
| ListStore.StoreState.AddList | src/store/useStore.ts:44-56 | a new empty, unarchived list in the default currency goes first; previous lists follow unchanged; settings unchanged |
| ListStore.StoreState.UpdateList | src/store/useStore.ts:58-62 | lists become `UpdatedLists` of the old lists; settings unchanged |
| ListStore.StoreState.DeleteList | src/store/useStore.ts:64-68 | lists become `WithoutList` of the old lists; settings unchanged |
| ListStore.StoreState.ArchiveLists | src/store/useStore.ts:70-74 | the named lists become archived; settings unchanged |
| ListStore.StoreState.UnarchiveLists | src/store/useStore.ts:76-80 | the named lists become unarchived; settings unchanged |
| ListStore.StoreState.DeleteLists | src/store/useStore.ts:82-86 | lists become `WithoutLists` of the old lists; settings unchanged |
| ListStore.StoreState.AddItem | src/store/useStore.ts:88-111 | lists become `ItemAdded` of the old lists; settings unchanged |
| ListStore.StoreState.ReorderItems | src/store/useStore.ts:113-141 | the target lists' items are reordered; settings unchanged |
| ListStore.StoreState.UpdateItem | src/store/useStore.ts:143-153 | the target lists' items are updated; settings unchanged |
| ListStore.StoreState.DeleteItem | src/store/useStore.ts:155-165 | the target lists lose the item; settings unchanged |
| ListStore.StoreState.SetCurrency | src/store/useStore.ts:167-171 | only the default currency changes |
| ListStore.StoreState.SetSettings | src/store/useStore.ts:173-175 | settings are replaced; lists unchanged |
| ListStore.StoreState.ResetStore | src/store/useStore.ts:177 | back to the initial state |
| ListStore.StoreState.ImportData | src/store/useStore.ts:179-182 | lists and settings become the imported ones |
| OfflineStore.WithoutTempId | src/store/offline.store.ts:33-36 | never longer; exactly the entries with another temporary id remain |
| OfflineStore.RemovedCount | src/store/offline.store.ts:33-36 | removal drops exactly as many entries as carry the id |
| OfflineStore.CarriedIsCounted | src/store/offline.store.ts:33-36 | an id some entry carries is counted |
| OfflineStore.RemovePresentShrinks | src/store/offline.store.ts:33-36 | removing an id that is present makes the queue shorter |
| OfflineStore.RemoveAbsent | src/store/offline.store.ts:33-36 | removing an absent id changes nothing |
| OfflineStore.RemoveIdempotent | src/store/offline.store.ts:33-36 | removing the same id twice is removing it once |
| OfflineStore.RemoveKeepsOrder | src/store/offline.store.ts:33-36 | removal works piecewise on a split queue, so the remaining entries keep their order |
| OfflineStore.RemoveAfterAdd | src/store/offline.store.ts:22-36 | removing the id just queued undoes the append, along with any earlier entry sharing the id |
| OfflineStore.OfflineState.constructor | src/store/offline.store.ts:21 | the queue starts empty |
| OfflineStore.OfflineState.AddToQueue | src/store/offline.store.ts:22-32 | exactly one entry, holding the payload, temporary id and timestamp, is appended; earlier entries are unchanged |
| OfflineStore.OfflineState.RemoveFromQueue | src/store/offline.store.ts:33-36 | the queue becomes `WithoutTempId` of the old queue |
| OfflineStore.OfflineState.ClearQueue | src/store/offline.store.ts:37 | the queue is empty |

## Left out

- `formatCurrency` and `formatDate` (`src/utils/balance.ts:79-122`): they depend on `Intl`, locale and the current time.
- The `persist` middleware and AsyncStorage around both stores: storage I/O.
- `uuidv4()`, `Date.now()` and `Math.random().toString(36).substring(7)`: their values are parameters. Nothing assumes temporary ids or list ids are unique.
- IEEE double arithmetic:
  - Amounts are exact reals.
  - The `reduce` sums are right folds, which equal the source's left folds only on reals.
  - `Number(...)` coercion of amounts and shares (`src/utils/balance.ts:22, 28`) is taken as already done.
  - `Math.round` is exact rounding half up.
- Balance.SortByBalance: `Array.prototype.sort` is a library routine. It is modelled as a stable insertion sort over values, and the result is then copied into the arrays the loop mutates. The in-place sort itself is not modelled.
- ListStore.StoreState.AddItem: the source assigns `items` on a list object that the previous state shares with the new one. That aliasing (the old state also sees the new item) is not modelled; lists are values.
- ListStore.MergeList and ListStore.MergeItem: an update object is a record of optional fields, absent or present. A key present with the value `undefined` (which the spread copies over) is not modelled.
- `i.order || 0` is modelled as "missing order counts as 0". A `NaN` order is not modelled.
- ListStore.OrderOrZero, ListStore.MaxOrder and ListStore.NextOrder: orders are whole numbers (`Option<int>`), while the source's `order?: number` can be fractional in data brought in by `importData` or `updateItem`. Fractional orders, and the fractional `maxOrder + 1` that `addItem` would then assign, are not modelled. The store's own actions only create whole-number orders.
- Balance.CalculateDebts: the source sorts with a comparator that subtracts balances. The model sorts by comparing balances directly, which orders reals the same way.
- Balance.CalculateMemberBalances: one record per distinct roster id, not one per roster entry (see the note on duplicate ids above).
- `src/store/auth.store.ts`, `src/store/app-mode.store.ts`, the services, hooks and UI are not part of this model.
