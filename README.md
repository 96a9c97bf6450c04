# Banking system — a Dafny model of the balance engine and the reports

The banking system keeps customers, each with two safes (dinar and dollar), a
ledger of transactions (deposit, withdraw, exchange) and a single
exchange-rate record. An Express back end changes balances through three
handlers of the transaction controller. It also serves customers, the rate
and report queries. A React front end filters, buckets and totals the
transactions it fetched.

This project models that core in Dafny and proves properties of the model.

- **Store and handlers.** The MongoDB collections become one `Models.Store`
  object: a map of customers, a map of transaction records, the sequence of rate
  records (`findOne` reads the first), and id counters. Each handler is a method
  that `modifies` the store. It loads documents into local values, changes them
  step by step, and writes a value back only where the JavaScript calls
  `save()` or `create()`. An early return, or a `TypeError` before a save,
  persists nothing of the local copy.
- **Balance arithmetic.** `BalanceEffects` gathers the arithmetic the
  controller writes out inline. `Apply` and `Undo` are the debit/credit patterns.
  `Formula` names the three conversion formulas the code uses:
  - on creation, dinar is divided by `dinarToDollar` and dollar is multiplied by
    `dollarToDinar`;
  - on the reversal and the rollback in `updateTransaction`, dinar is multiplied
    and dollar is divided;
  - on re-application of the edited transaction, both directions multiply.

  The comment at `backend/src/controllers/transactionController.js:107` says the
  reversal uses the same conversion as creation. It does not. The model follows
  the code, and lemmas say exactly when the reversal undoes a creation:
  - always for deposits and withdrawals;
  - for an exchange, only when the amount is 0 or the square of the rate used is 1.
- **Client side.** The client views (`Client`) are records with string ids and
  a fourth type, `transfer`. The table filter, the daily chart buckets and the
  customer card are functions of those records, or methods over them where the
  source loops and mutates an accumulator.
- **Analysis routes.** The query-filter builders build a `Filters` value.
  `AnalysisRoutes.Selects` says which stored records such a value admits.
- **Dashboard.** The dashboard's totals, rate fallback, recent list and
  monthly table are functions and a method over the store's values.

Amounts and rates are `real`. Dates are abstracted as a `Domain.Stamp`:
- an instant, used for ordering and ranges;
- a day key, standing for the `YYYY-MM-DD` of the ISO string;
- a month from 1 to 12, standing for MongoDB's `$month`.

Three facts about the source shape the model:
- The comment at `backend/src/controllers/transactionController.js:107` says
  the reversal uses the same conversion as creation. Lines 112-115 invert it:
  creation divides a dinar amount by `dinarToDollar` and multiplies a dollar
  amount by `dollarToDinar`, the reversal does the opposite. Reversing a
  created transaction therefore restores the balances only for deposits,
  withdrawals, and exchanges whose amount is 0 or whose rate squares to 1
  (`BalanceEffects.ReversalUndoesCreation`). For example, 300 dinar exchanged
  at 0.33 and then reversed leaves a dollar balance of 10000/11 − 99
  (`BalanceEffects.EditScenario`).
- The Transaction schema's `type` enum (`backend/src/models/Transaction.js:6`)
  has no 'transfer'. A transfer is stored as one withdraw and one deposit
  record. Only the front end's types include 'transfer'.
- `backend/src/routes/transactions.js` has no delete route, and the controller
  has no delete handler. None is modelled.

## Model

| member | source | states |
|---|---|---|
| Models.Safes.Credit | backend/src/controllers/transactionController.js:36-36 | the named currency's balance grows by exactly `x`; the other balance and both tags are unchanged |
| Models.Safes.Debit | backend/src/controllers/transactionController.js:41-41 | the named currency's balance shrinks by exactly `x` with no funds check; the other balance and the tags are unchanged |
| Models.Store.FindRate | backend/src/controllers/exchangeRateController.js:6-6 | `findOne({})` finds a record iff one is stored, and then returns the first |
| Models.Store.SaveCustomer | backend/src/controllers/transactionController.js:51-51 | `save()` of a loaded customer replaces exactly that customer; the ledger, the rates and the counters stay |
| Models.Store.SaveTransaction | backend/src/controllers/transactionController.js:189-189 | `save()` of a loaded record replaces exactly that record; the customers, the rates and the counters stay |
| Models.Store.CreateRecord | backend/src/controllers/transactionController.js:53-60 | `Transaction.create` stores the record under the next id, which then advances by one; nothing else changes |
| BalanceEffects.Apply | backend/src/controllers/transactionController.js:35-49 | deposit adds the amount to `fromCurrency`; withdraw and exchange subtract it; an exchange also adds the converted amount to `toCurrency`; no other balance changes; tags kept |
| BalanceEffects.Undo | backend/src/controllers/transactionController.js:95-118 | the opposite movements: deposit subtracted, withdraw added back, exchange adds the amount to `fromCurrency` and takes the converted amount from `toCurrency` |
| BalanceEffects.Convert | backend/src/controllers/transactionController.js:47-48 | the conversion formulas by the products they invert: creation gives x with x · dinarToDollar = amount for dinar and amount · dollarToDinar for dollar; the reversal amount · dinarToDollar for dinar and x with x · dollarToDinar = amount for dollar; the re-application amount times the source currency's rate |
| BalanceEffects.CreateEffect | backend/src/controllers/transactionController.js:35-49 | deposit adds and withdraw subtracts the amount on `fromCurrency`, other currency untouched; an exchange into the other currency debits the amount and credits amount / dinarToDollar dollars (dinar source) or amount · dollarToDinar dinars (dollar source) |
| BalanceEffects.ReverseEffect | backend/src/controllers/transactionController.js:95-118 | deposit subtracted, withdraw added back, other currency untouched; an exchange gets its amount back and loses amount · dinarToDollar dollars (dinar source) or amount / dollarToDinar dinars (dollar source) |
| BalanceEffects.RestoreEffect | backend/src/controllers/transactionController.js:131-150 | the stored transaction applied again: deposit added, withdraw subtracted; an exchange debits the amount and credits amount · dinarToDollar dollars (dinar source) or amount / dollarToDinar dinars (dollar source) |
| BalanceEffects.UpdateEffect | backend/src/controllers/transactionController.js:158-176 | the edited transaction applied: deposit added, withdraw subtracted; an exchange debits the amount and credits amount · dinarToDollar dollars (dinar source) or amount · dollarToDinar dinars (dollar source) |
| BalanceEffects.Insufficient | backend/src/controllers/transactionController.js:127-128 | the edited transaction fails the funds check iff it is a withdraw or an exchange and the reversed balance of its source currency is below its amount; a deposit never fails it |
| BalanceEffects.UndoAfterApply | backend/src/controllers/transactionController.js:95-118 | undoing an applied entry restores the safes iff the entry is not an exchange or the amount taken back equals the amount credited |
| BalanceEffects.ApplyAfterUndo | backend/src/controllers/transactionController.js:127-150 | applying after undoing restores the safes under the same condition |
| BalanceEffects.DivEqualsMul | backend/src/controllers/transactionController.js:112-115 | dividing by a rate equals multiplying by it iff the amount is 0 or the rate's square is 1 |
| BalanceEffects.CreateAndReversalAgree | backend/src/controllers/transactionController.js:108-115 | creation's conversion and the reversal's conversion of the same amount agree iff the amount is 0 or the rate used has square 1 |
| BalanceEffects.ExchangeCreditsAgree | backend/src/controllers/transactionController.js:108-115 | for an exchange, the amount creation credits and the amount the reversal takes back agree iff the amount is 0 or the rate used has square 1 |
| BalanceEffects.ReversalUndoesCreation | backend/src/controllers/transactionController.js:95-118 | reversing a created transaction restores the safes iff it is not an exchange, its amount is 0, or the rate used has square 1 (contrary to the comment at :107) |
| BalanceEffects.RollbackUndoesReversal | backend/src/controllers/transactionController.js:131-150 | the insufficient-funds rollback exactly undoes the reversal for every type, since both use the same formula |
| BalanceEffects.ReversalAndUpdateAgree | backend/src/controllers/transactionController.js:170-173 | the re-application's conversion equals the reversal's for dinar sources, and for dollar sources iff the amount is 0 or `dollarToDinar` squared is 1 |
| BalanceEffects.ResubmitLeavesBalances | backend/src/controllers/transactionController.js:158-176 | resubmitting a stored transaction unchanged leaves the balances as they were iff it is not an exchange, comes from dinar, has amount 0 or `dollarToDinar` squared is 1 |
| BalanceEffects.CreationIsNotReciprocal | backend/src/controllers/transactionController.js:47-48 | with reciprocal rates, creation converts dinar by multiplying by `dollarToDinar`, so exchanging back and forth multiplies by `dollarToDinar` squared |
| BalanceEffects.EditScenario | backend/src/controllers/transactionController.js:95-163 | the concrete deposit, exchange and edit sequence: the reversal leaves dollar at 10000/11 − 99, not 0 |
| TransactionController.ParseTxType | backend/src/controllers/transactionController.js:20-22 | only 'deposit', 'withdraw' and 'exchange' are accepted, each as its own type; anything else is rejected |
| TransactionController.ParseTypeName | backend/src/controllers/transactionController.js:76-78 | every stored type name passes the check again as the same type |
| TransactionController.ApplyCreated | backend/src/controllers/transactionController.js:35-49 | the creation effect on the loaded safes, failing exactly when an exchange has no rate record or no target currency |
| TransactionController.CreateFor | backend/src/controllers/transactionController.js:35-60 | with the customer loaded: a failing effect changes nothing; otherwise the customer is saved with the creation effect and the record is created at the next id |
| TransactionController.CreateTransaction | backend/src/controllers/transactionController.js:17-67 | invalid type: 400, nothing changes. Unknown customer: 404, nothing changes. With no rate record the default is created. An exchange without a rate or target: 500, no balance or record change. Otherwise the customer's safes become the creation effect and the record is created at the next id |
| TransactionController.ReverseStored | backend/src/controllers/transactionController.js:95-118 | a deposit or withdraw is reversed; an exchange fails when no rate is loaded, else it is reversed with the reversal formula |
| TransactionController.RestoreStored | backend/src/controllers/transactionController.js:131-150 | applies the stored transaction again with the reversal formula |
| TransactionController.ApplyEdited | backend/src/controllers/transactionController.js:158-176 | applies the edited transaction with the re-application formula; an exchange fails on a missing rate (400) or missing target (500) |
| TransactionController.UpdateLoaded | backend/src/controllers/transactionController.js:95-190 | with the record and its customer loaded: no rate for a stored exchange gives 400 with no change; otherwise the reversal is saved and steps 2 to 4 follow, and an insufficient-funds rollback leaves the customers and the ledger as before |
| TransactionController.UpdateReversed | backend/src/controllers/transactionController.js:123-190 | from the saved reversal: insufficient funds writes the customer back as loaded; a step-3 failure keeps the reversal; success saves the new effect and overwrites the record |
| TransactionController.UpdateTransaction | backend/src/controllers/transactionController.js:71-196 | invalid type: 400 with no change. Unknown transaction or customer: 404 with no change. Stored exchange and no rate: 400 with no change. Insufficient funds after the reversal: 400, and the store is exactly as before. A rate or target failure in step 3: the reversed balances persist and the record is unchanged. Success: the balances are the new effect on the reversed ones, and type, amount, currencies and note are overwritten in place |
| TransactionController.TransferMoney | backend/src/controllers/transactionController.js:197-237 | either customer missing: 404, no change. Sender balance below the amount: 400, no change; an equal balance passes. Otherwise the sender is debited, the receiver as loaded is credited, and a withdraw and a deposit record are created. For distinct ids the sum is conserved and the other currency is untouched; a self-transfer nets +amount |
| TransactionController.TransferBalances | backend/src/controllers/transactionController.js:211-224 | after the two saves, distinct customers keep the sum of their balances in the currency and the other currency is untouched; a self-transfer gains the amount |
| ExchangeRateController.GetExchangeRate | backend/src/controllers/exchangeRateController.js:4-15 | with no record, creates and returns 0.33 / 3.0; otherwise returns the first record and changes nothing; the store never grows beyond one record from one or none |
| ExchangeRateController.UpdateExchangeRate | backend/src/controllers/exchangeRateController.js:17-33 | afterwards the record read by `findOne` has exactly the two given rates; a record is created only when none exists |
| ExchangeRateController.GetExchangeRateTwice | backend/src/controllers/exchangeRateController.js:6-10 | two consecutive reads return the same rate |
| CustomerController.NewCustomer | backend/src/controllers/customerController.js:4-45 | a document is created iff the name is present and non-empty (the schema's `required`); its profile is the input's, the tags are dinar/dollar, and the balances are the initial balances of the input safes |
| CustomerController.InitialBalance | backend/src/controllers/customerController.js:16-24 | a safe's starting balance: 0 when the safe or its balance is absent or null, or the parse is NaN; otherwise the parsed number |
| CustomerController.NameAccepted | backend/src/models/Customer.js:10-10 | the schema's required name accepts a present, non-empty string only |
| CustomerController.InitialBalanceCases | backend/src/controllers/customerController.js:16-24 | an absent safe, an absent or null balance, or a NaN parse gives 0; otherwise the parsed number is stored |
| CustomerController.TagsIgnored | backend/src/controllers/customerController.js:33-43 | the currency tags sent in the request have no effect on the stored customer |
| CustomerController.Patched | backend/src/controllers/customerController.js:82-86 | each of the five profile fields is replaced when given and kept when absent |
| CustomerController.CreateCustomer | backend/src/controllers/customerController.js:4-56 | a rejected name gives 500 and no change; otherwise the new customer is stored under a fresh id and nothing else changes |
| CustomerController.UpdateCustomer | backend/src/controllers/customerController.js:80-94 | unknown id: 404; otherwise only the profile of that customer changes; the balances, the other customers, the ledger and the rates stay |
| CustomerController.DeleteCustomer | backend/src/controllers/customerController.js:96-105 | unknown id: 404; otherwise exactly that customer is removed; the transactions are untouched |
| Client.FindCustomer | my-app/components/TransactionTable.tsx:26-26 | no customer is found iff no id matches; a found customer has the id and is the first with it |
| Text.Lower | my-app/components/TransactionTable.tsx:28-28 | lower-casing keeps the length and maps every ASCII letter to lower case |
| Text.Upper | my-app/components/TransactionTable.tsx:35-35 | upper-casing keeps the length and maps every ASCII letter to upper case |
| Text.LowerIdempotent | my-app/components/TransactionTable.tsx:28-28 | lower-casing twice is lower-casing once |
| Text.Includes | my-app/components/TransactionTable.tsx:28-28 | `includes` holds iff the needle occurs at some position of the string |
| TransactionTable.FilterTransactions | my-app/components/TransactionTable.tsx:25-38 | a transaction is kept iff search, type, date range and currency all hold; each kept transaction appears as often as in the input, and the output is an order-preserving subsequence of the input |
| TransactionTable.CustomerName | my-app/components/TransactionTable.tsx:26-27 | the name of the first customer with the transaction's id, or '' when none has it |
| TransactionTable.MatchesSearch | my-app/components/TransactionTable.tsx:28-28 | the lower-cased search term occurs in the lower-cased customer name |
| TransactionTable.MatchesType | my-app/components/TransactionTable.tsx:29-29 | the filter is undefined, empty or 'all', or equals the transaction's type string |
| TransactionTable.TypeFilterSelects | my-app/components/TransactionTable.tsx:29-29 | an undefined, empty or 'all' filter keeps every transaction; a type string keeps exactly the transactions of that type |
| TransactionTable.InDateRange | my-app/components/TransactionTable.tsx:31-33 | with both bounds set, the date lies between them inclusive; otherwise always |
| TransactionTable.MatchesCurrency | my-app/components/TransactionTable.tsx:35-35 | the selector is 'both', or the upper-cased source currency equals the selector's code |
| TransactionTable.Keep | my-app/components/TransactionTable.tsx:37-37 | the conjunction of the four predicates |
| TransactionTable.UnknownCustomerSearch | my-app/components/TransactionTable.tsx:26-28 | a transaction of an unknown customer passes the search iff the search term is empty |
| TransactionTable.SearchIgnoresCase | my-app/components/TransactionTable.tsx:28-28 | lower-casing the search term does not change the result |
| TransactionTable.CurrencyFilterOnlyBoth | my-app/components/TransactionTable.tsx:35-35 | the currency predicate holds iff the selector is 'both': DINAR and DOLLAR never equal IQD or USD |
| TransactionChart.Bump | my-app/components/TransactionChart.tsx:107-111 | exactly one counter of a bucket grows, by the amount; its day and the other counters are unchanged |
| TransactionChart.Fresh | my-app/components/TransactionChart.tsx:93-99 | a new bucket has its day and all four counters at zero |
| TransactionChart.CounterOf | my-app/components/TransactionChart.tsx:104-111 | a deposit feeds IQDDeposits for dinar and USDDeposits otherwise, a withdraw the matching Withdrawals counter, anything else no counter |
| TransactionChart.Days | my-app/components/TransactionChart.tsx:88-101 | every transaction's day is among the keys, and every key is some transaction's day |
| TransactionChart.DaysDistinct | my-app/components/TransactionChart.tsx:91-101 | no day key appears twice |
| TransactionChart.DaysSnoc | my-app/components/TransactionChart.tsx:88-101 | one more transaction adds its day at the end iff the day is new |
| TransactionChart.TotalSnoc | my-app/components/TransactionChart.tsx:107-111 | one more transaction adds its amount to its counter's total and to its own day's sum, and nothing otherwise |
| TransactionChart.BucketFor | my-app/components/TransactionChart.tsx:103-111 | each counter of the day's bucket is that day's sum of matching deposits or withdrawals |
| TransactionChart.FindBucket | my-app/components/TransactionChart.tsx:91-91 | returns the first bucket with the day, or -1 iff there is none |
| TransactionChart.AddToBuckets | my-app/components/TransactionChart.tsx:86-115 | one reduce step keeps the accumulator exactly one correct bucket per day, in order of first appearance |
| TransactionChart.AggregateDaily | my-app/components/TransactionChart.tsx:86-115 | the result holds exactly one bucket per distinct day in order of first appearance, each with that day's four totals |
| TransactionChart.DaysCoverTotal | my-app/components/TransactionChart.tsx:86-115 | summed over the distinct days, the day totals of a counter give its overall total |
| TransactionChart.BucketsAddUp | my-app/components/TransactionChart.tsx:86-115 | over all buckets, each counter sums to the total of the matching deposits or withdrawals in the input |
| TransactionChart.ExchangesCountNowhere | my-app/components/TransactionChart.tsx:107-112 | an exchange or transfer changes no counter's total |
| CustomerAnalysis.Amounts | my-app/components/CustomerAnalysis.tsx:19-29 | the sum of the amounts of a list, as each `reduce((sum, t) => sum + t.amount, 0)` computes it |
| CustomerAnalysis.OfCustomer | my-app/components/CustomerAnalysis.tsx:17-17 | exactly the transactions with the customer's id are kept, each as often as in the input |
| CustomerAnalysis.OfKind | my-app/components/CustomerAnalysis.tsx:19-29 | exactly the transactions of the type are kept, each as often as in the input |
| CustomerAnalysis.OfCurrency | my-app/components/CustomerAnalysis.tsx:37-40 | exactly the transactions from the currency are kept, each as often as in the input |
| CustomerAnalysis.KindsPartition | my-app/components/CustomerAnalysis.tsx:19-29 | the total of all amounts is the deposit, withdraw, exchange and transfer totals together, so transfers are in none of the card's three |
| CustomerAnalysis.CurrenciesPartition | my-app/components/CustomerAnalysis.tsx:37-40 | the dinar and dollar totals add up to the total of all amounts |
| CustomerAnalysis.ByCurrency | my-app/components/CustomerAnalysis.tsx:37-40 | the object has a key exactly for each source currency present, holding that currency's total |
| CustomerAnalysis.AnalyseCustomer | my-app/components/CustomerAnalysis.tsx:11-40 | nothing iff the customer is not in the list; otherwise the three type totals and the currency totals over the customer's own transactions |
| CustomerAnalysis.CurrencyBarsAddUp | my-app/components/CustomerAnalysis.tsx:37-45 | the currency bars add up to the total amount of the customer's transactions |
| AnalysisRoutes.DateFilter | backend/src/routes/analysis.js:12-20 | a date filter exists iff a start or end date is given; each given bound becomes `$gte` or `$lte` on its own |
| AnalysisRoutes.DateFilterMeans | backend/src/routes/analysis.js:12-20 | such a date filter admits exactly the records within the given bounds, inclusive |
| AnalysisRoutes.Selects | backend/src/routes/analysis.js:9-38 | a stored record meets each clause present: the date bounds inclusive, the stored currency string, the stored type string |
| AnalysisRoutes.ChartFilters | backend/src/routes/analysis.js:6-38 | date as above; a currency filter iff a currency other than 'both' is given, exact 'IQD' to dinar and anything else to dollar; the search clause iff a term is given; a type filter iff a type other than 'all' is given; and the records it admits |
| AnalysisRoutes.ChartDataFilters | backend/src/routes/analysis.js:50-65 | date as above; the currency compared case-insensitively with 'iqd'; no search or type filter; and the records it admits |
| AnalysisRoutes.ListFilters | backend/src/routes/analysis.js:77-92 | date as above; the currency stored lower-cased and unmapped; and the records it admits |
| AnalysisRoutes.RoutesDisagreeOnLowerCase | backend/src/routes/analysis.js:23-64 | for `currency=iqd`, any filter meeting `/chart`'s currency contract holds 'dollar' and admits only dollar records, while any filter meeting `/chart-data`'s holds 'dinar' and admits only dinar records |
| AnalysisRoutes.ListWithCodeSelectsNothing | backend/src/routes/analysis.js:90-91 | on `/` the codes IQD and USD admit no stored transaction |
| Dashboard.TotalBalance | backend/src/routes/dashboard.js:15-16 | the sum of one currency's balances over the listed customers |
| Dashboard.TotalAfterReplace | backend/src/routes/dashboard.js:15-16 | replacing one customer changes a currency's total by exactly that customer's change |
| Dashboard.TotalAfterUpdate | backend/src/routes/dashboard.js:14-16 | saving one customer changes a bank-wide total by exactly that customer's change, and the listing still lists the store |
| Dashboard.Listing | backend/src/routes/dashboard.js:14-14 | the customers `find` returns, one per listed id |
| Dashboard.ListingAfterUpdate | backend/src/routes/dashboard.js:14-16 | updating one customer of the store updates exactly its entry of the listing |
| Dashboard.TransferKeepsTotals | backend/src/routes/dashboard.js:15-16 | a transfer between distinct customers leaves both bank-wide totals unchanged |
| Dashboard.ExchangeRateValue | backend/src/routes/dashboard.js:19-20 | the stored dollar-to-dinar rate, else 3.0, the default record's own value |
| Dashboard.Since | backend/src/routes/dashboard.js:25-25 | exactly the records dated at or after the bound, each as often as in the input |
| Dashboard.ConsNewest | backend/src/routes/dashboard.js:25-25 | a record no older than the head of a newest-first list can go in front |
| Dashboard.TailNewest | backend/src/routes/dashboard.js:25-25 | the tail of a newest-first list is newest first, and the list is its head plus its tail |
| Dashboard.Insert | backend/src/routes/dashboard.js:25-25 | inserting into a newest-first list keeps it newest first, and the head is the new record or the old head |
| Dashboard.InsertPermutes | backend/src/routes/dashboard.js:25-25 | insertion adds exactly the one record |
| Dashboard.SortNewestFirst | backend/src/routes/dashboard.js:25-25 | the sorted list is newest first and a permutation of the input |
| Dashboard.Take | backend/src/routes/dashboard.js:25-25 | the first n entries, or all when fewer, and nothing left behind is newer than what is kept |
| Dashboard.RecentTransactions | backend/src/routes/dashboard.js:22-25 | at most 10, newest first, all from the input and on or after the bound; exactly min(10, matching) of them; no dropped matching record is newer than a kept one |
| Dashboard.EmptyMonth | backend/src/routes/dashboard.js:43-49 | a month without transactions totals zero |
| Dashboard.MonthSum | backend/src/routes/dashboard.js:43-49 | the `$sum` of the amounts of the transactions dated in the month |
| Dashboard.HasMonthMeans | backend/src/routes/dashboard.js:43-49 | a month has data iff some transaction is dated in it |
| Dashboard.GroupCons | backend/src/routes/dashboard.js:43-53 | putting a month's group in front of the later months' groups keeps ascending order and adds that month |
| Dashboard.GroupStep | backend/src/routes/dashboard.js:43-53 | the groups for months m to 12 are month m's group, if it has data, followed by the groups for m + 1 to 12 |
| Dashboard.GroupsFrom | backend/src/routes/dashboard.js:43-53 | one group per month with data, in ascending month order, each with that month's sum |
| Dashboard.MonthlyGroups | backend/src/routes/dashboard.js:43-53 | the aggregate yields one group per month 1 to 12 that has data, in ascending order, each holding the month's sum |
| Dashboard.WriteGroup | backend/src/routes/dashboard.js:67-69 | writing a group at index month − 1 records that month |
| Dashboard.FinishedTable | backend/src/routes/dashboard.js:62-69 | once every group is written, every index holds its month's total, zero for months without data |
| Dashboard.MonthlyTotals | backend/src/routes/dashboard.js:62-69 | the table has exactly 12 entries and entry i is the total of month i+1, zero when it has none |
| Dashboard.TableCoversAll | backend/src/routes/dashboard.js:43-69 | with all dates in months 1 to 12, the twelve entries add up to the total of all amounts |

## Left out

- MongoDB and mongoose are modelled as maps and a sequence in one object: `findById`, `findOne`, `save`, `create`, `populate` and the aggregate pipeline. Object ids are naturals. Malformed ids, which mongoose rejects with a 500, are not modelled.
- Concurrency between requests is not modelled: read-modify-write races, and a rate that changes during an update. Each handler runs alone.
- IEEE-754 rounding is not modelled. Amounts and rates are real numbers.
- A zero rate is modelled only where no division happens. JavaScript divides to Infinity at `transactionController.js:48`, `:115` and `:147`, and `updateExchangeRate` can store a zero. The transaction handlers therefore require non-zero stored rates only when the request or the stored transaction is an exchange; deposits and withdrawals go through whatever rates are stored.
- Amounts and currencies sent as strings are not modelled, nor is JavaScript's `+=` on them. An unknown currency name indexes `safes[...]` to undefined and throws. Amounts are numbers and currencies the two-value enum. A missing `toCurrency` on an exchange is modelled: it is the 500 path.
- ExchangeRateController.UpdateExchangeRate: the two rates are always numbers. The handler takes them unchecked from the request body, and an absent or null field is not modelled: on creation an absent field takes the schema's default (0.33 or 3.0), a null is stored as null, and on an existing record an absent field is unset.
- `parseFloat`'s string parsing is reduced to a parsed value or NaN (`CustomerController.BalanceField`).
- JavaScript `Date` and date-fns arithmetic are abstracted by `Domain.Stamp` and by parameters:
  - the creation time of a record is a parameter;
  - the dashboard's "one month ago" is a parameter;
  - the start/end-of-day rounding of the chart's query is not modelled;
  - invalid dates are not modelled.
- `AnalysisRoutes.Selects`, `AnalysisRoutes.ChartFilters`: the `$or` search clause of `/analysis/chart` is recorded only as present with its term. `AnalysisRoutes.Selects` does not model regular-expression matching on the note or the populated name.
- `Text.Lower`, `Text.Upper`: only ASCII letters change case. JavaScript maps all of Unicode.
- Dashboard.RecentTransactions: records with equal dates may come in any order, since MongoDB's sort does not fix one. The contract admits every such order.
- `Dashboard.MonthlyTotals` omits the Arabic month names. The model keeps only the totals.
- `totalCustomers` (`countDocuments`) is not modelled.
- The handlers not named as core are not modelled: `getTransactions`, `getCustomers`, `getCustomer`, backup import and export, and the Express wiring in `server.js` and `routes/*.js`. `updateTransaction` is modelled as the controller function, although no route calls it. No delete-transaction handler exists, and none is invented.
- React rendering, fetching and state caching are not modelled (`AppContext.tsx`, forms, pages, charts' drawing).
- CustomerController.UpdateCustomer: an absent field is taken to be dropped from the update, as current mongoose does with undefined values. A field sent as null is not modelled.
