# FinanceControl, modelled in Dafny

FinanceControl is a small personal finance tracker. Users record income and
expense transactions, mark them pending or completed, edit and delete them, and
run compound-interest projections whose results are kept as a history. The
records live in a remote record store; the application keeps a local copy of
both tables and changes it only after the store reports success.

This project models the logic of that application:

- `records.dfy` (module `Records`): the `Transaction` and `InvestmentSimulation`
  records, the drafts the forms submit, and `Partial<Transaction>` with the
  spread merge `{ ...t, ...updates }`.
- `seqs.dfy` (module `Seqs`): `Array.prototype.filter` and its laws
  (subsequence, membership, idempotence, partition, concatenation).
- `form_input.dfy` (module `FormInput`): `String.prototype.trim` over the
  ECMAScript whitespace and line-terminator characters, number fields that are
  empty or hold the parsed value, and the acceptance rule both forms share.
- `dashboard.dfy` (module `Dashboard`): the four dashboard cards.
- `transaction_list.dfy` (module `TransactionList`): the five-way list filter.
- `transaction_form.dfy` (module `TransactionForm`): the new-transaction form
  as a class whose `HandleSubmit` validates, returns the payload and resets.
- `edit_modal.dfy` (module `EditModal`): the edit dialog as a class: prefill,
  validation, the restricted update and the close.
- `investment_simulator.dfy` (module `InvestmentSimulator`): the monthly-rate
  conversion, `principal * (1 + rate)^months`, the recorded simulation and the
  profit line.
- `app.dfy` (module `App`): the list rules of each handler, the cache as a
  class `Cache` whose methods take the store's reply and the user's
  confirmation as parameters, and lemmas that connect the rules with the
  dashboard and the forms.

Money is `real`, so sums and powers are exact. The record store, the clock,
`confirm` and the text parsing of number inputs are parameters: an insert
reply is `Inserted(id, createdAt)` or `InsertFailed`; an update or delete
reply is a `bool`; a number field is `Blank` or `Filled(value)`; "today" is a
string argument.

The model follows the code in these points, where a reader might expect otherwise:

- The toggle writes the status computed from the status the item *showed*
  into every entry with that id (src/App.tsx:76-88). It does not flip each
  entry's own status.
- Delete removes *every* entry with the id (src/App.tsx:104). "Exactly one" holds
  only when ids are unique (`App.DeleteRemovesExactlyOne`).
- The simulator's own check rejects only empty fields
  (src/components/InvestmentSimulator.tsx:29). Non-positive principal or rate
  are computed like any other value. Only the browser's `min` attributes keep
  them out.
- The edit dialog closes right after it sends the update, whether or not the
  store then succeeds (src/components/EditModal.tsx:46-52).

## Model

| member | source | states |
|---|---|---|
| Seqs.Filter | src/components/Dashboard.tsx:9 | `Array.prototype.filter`: no longer than its input, and every kept element satisfies the predicate; membership, order, partition and idempotence are proved in the `Seqs` lemmas |
| Records.Merge | src/App.tsx:121 | every field present in the update replaces the record's field; every absent field keeps the record's value |
| Records.MergeEmptyIsIdentity | src/App.tsx:121 | an update that names no field leaves the record unchanged |
| FormInput.Trim | src/components/TransactionForm.tsx:38 | the trimmed title is no longer than the input and neither starts nor ends with whitespace |
| FormInput.TrimSpec | src/components/TransactionForm.tsx:38 | `trim` returns the slice `s[lo..hi]` of its input, where everything cut off before `lo` and after `hi` is whitespace and the slice neither starts nor ends with whitespace; the slice is empty exactly when the input is all whitespace |
| FormInput.TrimIdempotent | src/components/TransactionForm.tsx:44 | trimming an already trimmed title changes nothing |
| FormInput.EntryAccepted | src/components/TransactionForm.tsx:38 | the negation of the rejection rule: trimmed title non-empty, amount filled and > 0 (its meaning is stated by `FormInput.EntryAcceptedSpec`) |
| FormInput.EntryAcceptedSpec | src/components/TransactionForm.tsx:38 | an entry is accepted exactly when the title has a non-whitespace character and the amount is filled with a value > 0 |
| TransactionForm.Submission | src/components/TransactionForm.tsx:38-49 | a payload exists exactly when the entry is accepted; it then carries the trimmed, non-empty title, the parsed amount (> 0), and the unchanged type, category and date |
| TransactionForm.SubmittedTitleIsTrimmed | src/components/TransactionForm.tsx:44 | the submitted title has no leading or trailing whitespace and is a fixed point of `trim` |
| TransactionForm.Form.constructor | src/components/TransactionForm.tsx:27-33 | the form starts with empty title and amount, type `expense`, category `Outros` and today's date |
| TransactionForm.Form.HandleSubmit | src/components/TransactionForm.tsx:35-56 | returns the payload; an accepted submission resets title, amount, type, category and date; a rejected one returns nothing and changes no field |
| EditModal.EditPatch | src/components/EditModal.tsx:46-50 | the update sets title, amount and category only; it names no id, type, status or date |
| EditModal.Modal.constructor | src/components/EditModal.tsx:24-26 | the dialog starts closed with empty title and amount and category `Outros` |
| EditModal.Modal.Open | src/components/EditModal.tsx:28-34 | opening copies the transaction's title, amount and category into the fields; closing keeps the fields |
| EditModal.Modal.HandleSubmit | src/components/EditModal.tsx:36-53 | with no transaction nothing happens; an invalid entry is rejected without save or close; otherwise the restricted update is sent under the transaction's id, and `onClose` runs exactly then |
| Dashboard.CompletedTransactions | src/components/Dashboard.tsx:9 | the kept entries are all completed and no more than the list |
| Dashboard.CompletedTransactionsSpec | src/components/Dashboard.tsx:9 | an entry is kept exactly when it is in the list and completed, and the kept entries keep the list's order |
| Dashboard.SumAmounts | src/components/Dashboard.tsx:11-17 | the `reduce` sum of the amounts; it splits over a concatenation (`SumAmountsConcat`) and is positive for a non-empty list of positive amounts (`SumAmountsNonNegative`) |
| Dashboard.TotalIncome | src/components/Dashboard.tsx:11-13 | total income equals the entry-by-entry sum in which only completed income entries contribute their amount |
| Dashboard.TotalExpense | src/components/Dashboard.tsx:15-17 | total expense equals the entry-by-entry sum in which only completed expense entries contribute their amount |
| Dashboard.Balance | src/components/Dashboard.tsx:19 | the balance equals the entry-by-entry sum of +amount for completed income and -amount for completed expense |
| Dashboard.Summarize | src/components/Dashboard.tsx:9-36 | the balance is income minus expense, and the card is flagged positive exactly when the balance is >= 0 |
| Dashboard.TotalsAreSumsOverCompleted | src/components/Dashboard.tsx:9-17 | total income is the sum over entries that are both completed and income; total expense the same for completed expenses |
| Dashboard.CompletedCountIsCount | src/components/Dashboard.tsx:68 | the count card equals the number of completed entries, at most the list length |
| Dashboard.BalanceIsSignedSum | src/components/Dashboard.tsx:19 | the balance on the card is the sum of +amount for completed income and -amount for completed expense |
| Dashboard.NegativeBalanceExample | src/components/Dashboard.tsx:19-36 | a list holding one completed expense of 10 has balance -10 and is flagged negative |
| Dashboard.EmptySummary | src/components/Dashboard.tsx:11-19 | an empty list shows zero income, expense, balance and count |
| Dashboard.SummaryDependsOnlyOnCompleted | src/components/Dashboard.tsx:9 | lists with the same completed entries show the same cards |
| Dashboard.PendingDoesNotCount | src/components/Dashboard.tsx:9 | inserting a pending entry anywhere in the list changes no card |
| Dashboard.TotalsNonNegative | src/components/Dashboard.tsx:11-19 | with positive amounts both totals are >= 0 and the balance never exceeds the income |
| TransactionList.Matches | src/components/TransactionList.tsx:23-27 | the if-chain: `all` matches everything, `income`/`expense` compare the type, `pending`/`completed` compare the status |
| TransactionList.FilterTransactions | src/components/TransactionList.tsx:22-28 | the view is no longer than the list and every entry in it matches the selector |
| TransactionList.AllIsIdentity | src/components/TransactionList.tsx:23 | the `all` filter returns the list itself, same entries in the same order |
| TransactionList.FilterSemantics | src/components/TransactionList.tsx:22-28 | an entry is shown exactly when it is in the list and matches: by type for `income`/`expense`, by status for `pending`/`completed` |
| TransactionList.FilterIsOrderedSubsequence | src/components/TransactionList.tsx:22-28 | the result is an order-preserving subsequence of the list, no longer than it, and every entry in it matches |
| TransactionList.FilterIdempotent | src/components/TransactionList.tsx:22-28 | filtering the result again by the same selector changes nothing |
| TransactionList.FilterPartitions | src/components/TransactionList.tsx:24-27 | the `income` and `expense` views together hold every entry exactly as often as the list does, and so do `pending` and `completed` |
| TransactionList.HeaderCount | src/components/TransactionList.tsx:35 | the count in the header is at most the list length, and equals it for `all` |
| TransactionList.ShowsEmptyState | src/components/TransactionList.tsx:72 | the empty placeholder is shown exactly when no entry matches the selector |
| InvestmentSimulator.MonthlyRate | src/components/InvestmentSimulator.tsx:35 | the monthly rate times 1200 gives back the annual percentage, and it is non-negative for a non-negative percentage |
| InvestmentSimulator.Pow | src/components/InvestmentSimulator.tsx:38 | `Math.pow` for a whole exponent without rounding; a non-negative base gives a non-negative power |
| InvestmentSimulator.FinalAmount | src/components/InvestmentSimulator.tsx:38 | zero months give the principal; with non-negative principal and rate the final amount is >= the principal |
| InvestmentSimulator.Projection | src/components/InvestmentSimulator.tsx:41-46 | the record keeps the principal, the annual percentage (not the monthly rate) and the months; with zero months the final amount is the principal |
| InvestmentSimulator.PowAtLeastOne | src/components/InvestmentSimulator.tsx:38 | a power of a base >= 1 is >= 1, and >= the base for a positive exponent |
| InvestmentSimulator.CompoundAtLeastSimple | src/components/InvestmentSimulator.tsx:38 | (1 + r)^n >= 1 + n·r for every monthly rate r >= -1 |
| InvestmentSimulator.ZeroMonthsIsIdentity | src/components/InvestmentSimulator.tsx:38 | zero months yield the principal exactly |
| InvestmentSimulator.FinalAmountAtLeastPrincipal | src/components/InvestmentSimulator.tsx:38 | with non-negative principal and rate the final amount is >= the principal and >= the simple-interest amount |
| InvestmentSimulator.NextMonth | src/components/InvestmentSimulator.tsx:38 | each further month multiplies the amount by 1 + monthly rate |
| InvestmentSimulator.ExampleProjection | src/components/InvestmentSimulator.tsx:34-38 | 1000 at 12% a year for 12 months ends at exactly 1126.825030131969720661201, a profit between 126.82 and 126.83 |
| InvestmentSimulator.Profit | src/components/InvestmentSimulator.tsx:129 | corrected profit line: the run's final amount minus that run's principal (see Findings) |
| InvestmentSimulator.ProfitAsWritten | src/components/InvestmentSimulator.tsx:129 | the profit line as written: a number exactly when the initial-amount field is filled, and then the result minus the field's current value |
| InvestmentSimulator.ProfitOfRun | src/components/InvestmentSimulator.tsx:129 | a run with non-negative inputs has a non-negative profit, and zero profit for zero months |
| InvestmentSimulator.ProfitAsWrittenFollowsTheField | src/components/InvestmentSimulator.tsx:129 | the profit line as written follows later edits of the initial-amount field and can show a loss for a profitable run |
| InvestmentSimulator.Simulator.constructor | src/components/InvestmentSimulator.tsx:21-24 | all fields start empty and there is no result |
| InvestmentSimulator.Simulator.ResultCard | src/components/InvestmentSimulator.tsx:123-131 | the corrected card: shown exactly when there is a result; its first number is the run's final amount and its second that final amount minus the run's principal; the line as the source draws it is `InvestmentSimulator.ProfitAsWritten` |
| InvestmentSimulator.Simulator.CalculateInvestment | src/components/InvestmentSimulator.tsx:26-47 | with any field empty nothing new is shown or recorded (the previous card stays); otherwise the projection is shown and recorded, with the displayed amount as `final_amount` |
| App.CreatedSimulation | src/App.tsx:136-143 | the stored simulation is the draft with the id and timestamp the store assigned |
| App.Created | src/App.tsx:61-65 | the inserted row is the draft with status `pending` and the id and timestamp the store assigned |
| App.NextStatus | src/App.tsx:76 | the new status always differs from the current one |
| App.NextStatusInvolutive | src/App.tsx:76 | `pending` becomes `completed`, `completed` becomes `pending`, and toggling twice gives the original status |
| App.SetStatusWhere | src/App.tsx:87-89 | the status map keeps the list's length |
| App.SetStatusWhereSpec | src/App.tsx:86-90 | the status update keeps length and order and changes only the status of entries with that id |
| App.SetStatusIsMerge | src/App.tsx:86-90 | the status update equals the general merge with `{ status }` as the update |
| App.ToggleTwiceRestores | src/App.tsx:75-90 | toggling an entry and toggling it back, each from the status it showed, restores the list |
| App.MergeWhere | src/App.tsx:121 | the merge map keeps the list's length |
| App.MergeWhereSpec | src/App.tsx:120-122 | a partial update keeps length and order, merges into every entry with that id and leaves the others untouched |
| App.EditSaveKeepsOtherFields | src/App.tsx:121 | saving the edit dialog rewrites title, amount and category of the edited entry, keeps its id, type, status and dates, and leaves the other entries untouched |
| App.RemoveById | src/App.tsx:104 | no entry with the deleted id remains, and the list does not grow |
| App.RemoveByIdSpec | src/App.tsx:104 | deletion keeps, in order, exactly the entries with another id, and is a no-op when the id is absent |
| App.RemoveByIdLength | src/App.tsx:104 | deletion shortens the list by exactly the number of entries carrying the id |
| App.DeleteRemovesExactlyOne | src/App.tsx:104 | with unique ids, deleting a present id shortens the list by one and deleting an absent id changes nothing |
| App.RemoveSimulation | src/App.tsx:160 | no simulation with the deleted id remains, and the history does not grow |
| App.RemoveSimulationSpec | src/App.tsx:160 | simulation deletion keeps, in order, exactly the simulations with another id: kept and removed records together are the history with every record as often as before, and deleting an absent id changes nothing |
| App.LoadedRows | src/App.tsx:30 | a successful load gives the rows, a null answer `[]`, an error the cached list |
| App.UniqueIdsPreserved | src/App.tsx:68-104 | prepending a record with a fresh id, toggling and deleting all keep the ids unique |
| App.PendingChangesKeepSummary | src/components/Dashboard.tsx:9 | adding a new (pending) entry, deleting pending entries and editing pending entries without completing them change no dashboard card |
| App.Cache.constructor | src/App.tsx:11-12 | both lists start empty |
| App.Cache.LoadTransactions | src/App.tsx:22-37 | a successful load replaces the list with the rows, or `[]` for null data; an error keeps the cache |
| App.Cache.LoadSimulations | src/App.tsx:39-51 | the same for the simulation history |
| App.Cache.AddTransaction | src/App.tsx:53-73 | on success the list is the inserted pending row in front of the old list, one longer; on error it is unchanged |
| App.Cache.ToggleTransactionStatus | src/App.tsx:75-95 | the new status is the toggle of the shown status; on success it replaces the status of the entries with that id; on error nothing changes |
| App.Cache.DeleteTransaction | src/App.tsx:97-109 | a declined confirmation makes no call and changes nothing; a confirmed, successful delete removes the entries with that id; an error changes nothing |
| App.Cache.UpdateTransaction | src/App.tsx:111-127 | on success the update is merged into the entries with that id; on error nothing changes |
| App.Cache.SubmitForm | src/App.tsx:53-68 | the form wired to `addTransaction`: an accepted, inserted submission puts `Created` of the payload (the form's trimmed title, amount, type, category and date, status pending, the store's id and timestamp) in front of the old list: one pending entry with the store's id, a positive amount and the trimmed non-empty title in front of the old list; a rejected submission or a failed insert leaves the list unchanged; an accepted submission resets the form to its defaults with `today` as the date, and a rejected one leaves every form field as it was |
| App.Cache.AddSimulation | src/App.tsx:129-148 | on success the inserted simulation goes in front of the history; on error it is unchanged |
| App.Cache.DeleteSimulation | src/App.tsx:150-165 | a declined confirmation makes no call; a confirmed, successful delete filters the history by id; an error changes nothing |

## Left out

- The record-store client, its configuration and the start-up log line (src/lib/supabase.ts:1-7). The store is external. Its replies are parameters of the `Cache` methods.
- `async`/`await` and the order in which replies arrive. Each handler is modelled as if its reply arrived before the next action. The handlers read the `transactions` captured when they started, so replies that overlap can lose updates. That is concurrency and is not modelled.
- `alert`, `confirm` and `console.error`. The confirmation answer is a parameter. The alerts and logs have no effect on state.
- React wiring: `useState`/`useEffect`, the `loading` flag, the `filter` and `editingTransaction` state of `App`, and all rendering. TransactionItem.tsx only forwards the id, the shown status or the record to App's handlers.
- Currency and date formatting (`Intl.NumberFormat`, `toLocaleDateString`).
- Parsing with `parseFloat`/`parseInt`. A number field holds the parsed value or is empty. NaN and infinities cannot arise from the browser's number inputs, so they are not modelled. The month count is a `nat`, because the input's `min="1"` keeps negative counts out.
- IEEE-754 rounding in the sums and in `Math.pow`. The model computes exactly over `real`.
- The clock behind the default transaction date. It is the `today` argument.
- The category option lists of the two forms (src/components/TransactionForm.tsx:14-24, src/components/EditModal.tsx:11-21). They only fill the select; the category is stored as free text.
- The browser's constraint validation (`required`, `min`, `step`). The model checks only what the handlers themselves check.
- InvestmentSimulator.Simulator.ResultCard: shows the corrected profit (the run's final amount minus its principal), not the source's `result - parseFloat(initialAmount)`, which reads the live field; that line as written is `InvestmentSimulator.ProfitAsWritten`.
- InvestmentSimulator.Simulator.CalculateInvestment: the result state holds the whole run, not only its final amount. This is the correction recorded under Findings. The source keeps only the number (src/components/InvestmentSimulator.tsx:39).

## Findings

| source | as written | input that shows it | evidently intended | confidence | as-written member | corrected member |
|---|---|---|---|---|---|---|
| src/components/InvestmentSimulator.tsx:129 | profit line is `result - parseFloat(initialAmount)`, read from the initial-amount field when the card is drawn | simulate 1000 at 12% for 12 months, then type 2000 into the initial-amount field: the card still shows 1126.83 but a profit of about -873.17; clearing the field shows NaN | profit of the shown run, final amount minus that run's principal | not executed; medium | InvestmentSimulator.ProfitAsWrittenFollowsTheField | InvestmentSimulator.Profit |
