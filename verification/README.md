# FinAPI account ledger, modelled in Dafny

FinAPI is a small Express service that keeps bank customers in memory. Each
customer record holds a `cpf` (the Brazilian tax identifier, used as the
lookup key), a `name`, an `id` and a `statement`: the list of deposits
(`'credit'` entries) and withdrawals (`'withdraw'` entries) in the order they
were recorded. The routes create, look up, rename and delete customers,
deposit, withdraw, report the balance and list the statement of one day.

This project models that ledger:

- `results.dfy` (module `Results`): the three refusals (unknown customer,
  tax identifier taken, insufficient funds) and the result wrappers.
- `statements.dfy` (module `Statements`): transactions and timestamps, the
  balance fold `getBalance` with a reference definition (credits minus
  everything else), and the order-preserving same-day filter.
- `dates.dfy` (module `Dates`): `String.split` and `Array.join` on one
  separator and their round trip, `convertDate`, and the
  `/statement/date` query.
- `accounts.dfy` (module `Accounts`): class `Customer` (its handlers change
  `name` and `statement` in place) and class `Ledger` (the `customers`
  array: lookup, creation with a unique `cpf`, deletion), plus a client
  scenario that runs the operations one after another.

The model follows the code as written:

- withdrawals are stored with type `'withdraw'`, not `'debit'`; the balance
  subtracts every entry that is not `'credit'`;
- amounts are not checked for sign: a negative deposit is recorded as it is;
- an unparsable date string is not an error: its `toDateString()` matches
  no recorded timestamp, so the query answers with an empty list;
- `DELETE /account` removes the first customer, whoever asked (see Findings);
  the model has both that behaviour and the intended one.

## Model

| member | source | states |
|---|---|---|
| `Statements.Step` | src/index.js:27-33 | one reducer step adds the entry's credit amount and subtracts its non-credit amount |
| `Statements.Fold` | src/index.js:27-33 | the fold from any start value equals that value plus the credit amounts minus all other amounts |
| `Statements.GetBalance` | src/index.js:26-36 | the balance equals the sum of credit amounts minus the sum of all other amounts; an empty statement has balance 0 |
| `Statements.FoldAppend` | src/index.js:27-33 | folding a statement with one more entry at the end applies the reducer once more to the previous result |
| `Statements.GetBalanceAppend` | src/index.js:26-36 | appending a 'credit' entry raises the balance by its amount; appending any other entry lowers it by its amount |
| `Statements.FilterByDay` | src/index.js:91-93 | the result is no longer than the statement, is a subsequence of it in the same order, and holds a transaction exactly when the statement holds it and it was recorded on the target day |
| `Statements.FilterByDayCounts` | src/index.js:91-93 | each entry recorded on the target day is kept as many times as it occurs in the statement, and no other entry is kept |
| `Statements.FilterByDayAppend` | src/index.js:91-93 | filtering a concatenation is the concatenation of the filtered parts, so the filter keeps statement order and judges each entry alone |
| `Statements.FilterByDaySingle` | src/index.js:92 | a single entry is kept exactly when its calendar day is the target day, whatever its time of day |
| `Statements.FilterByDayAfterAppend` | src/index.js:91-93 | recording one more entry adds it to the end of a day's list when it falls on that day and leaves the list unchanged otherwise |
| `Dates.Split` | src/index.js:39 | splitting yields at least one field, no field contains the separator, and joining the fields with the separator gives back the input |
| `Dates.SplitJoin` | src/index.js:39 | splitting a join of separator-free fields gives back those fields, so split and join are inverse |
| `Dates.ConvertDate` | src/index.js:38-42 | the result always ends in ` 00:00`; whenever the input has at least two fields, the first two fields of the result are its second and first field, in that order |
| `Dates.ConvertDateSwapsDayMonth` | src/index.js:38-42 | for `d/m/rest` the result is `m/d/` followed by the first field of `rest` and ` 00:00`; later fields are dropped |
| `Dates.ConvertDateDayMonthYear` | src/index.js:38-42 | for three fields `d/m/y` the result is `m/d/y 00:00` |
| `Dates.ConvertDateWithoutSeparator` | src/index.js:38-42 | a date without `/` comes out as `undefined/<date>/undefined 00:00`, because the missing fields print as `undefined` |
| `Dates.StatementByDate` | src/index.js:84-96 | the by-date answer is an order-preserving subsequence of the statement, never longer; empty when the converted date does not parse; otherwise it is the same-day filter of the statement on the parsed day: each entry of that day as often as it occurs, no other entry |
| `Accounts.FindFirst` | src/index.js:13 | the result is "none" exactly when no entry matches; otherwise it is a matching position with no match before it |
| `Accounts.FindFirstIsFirst` | src/index.js:13 | a matching position with no earlier match is the one the search returns, so the first match is unique |
| `Accounts.RemoveAt` | src/index.js:156 | removing position `k` shortens the list by one and keeps the elements before and after `k` in their order |
| `Accounts.SpliceAsWritten` | src/index.js:156 | the splice as written drops the first element and keeps all others in order |
| `Accounts.SpliceAsWrittenMissesTarget` | src/index.js:153-158 | with distinct tax identifiers, deleting any customer other than the first keeps that customer and removes the first one |
| `Accounts.SpliceAsWrittenExample` | src/index.js:156 | with customers "111" and "222", deleting "222" as written leaves only "222" |
| `Accounts.RemoveAtRemovesOnlyTarget` | src/index.js:153-158 | removing a position from a duplicate-free list removes that key, keeps every other key, and keeps the list duplicate-free |
| `Accounts.RemoveAtIsSubsequence` | src/index.js:156 | removing one element leaves a subsequence of the list in the same order |
| `Accounts.Customer.constructor` | src/index.js:54-59 | a new record carries the given cpf, name and id and an empty statement |
| `Accounts.Customer.Deposit` | src/index.js:98-112 | exactly one 'credit' entry with the given description, amount and time is appended, earlier entries stay as they were, the balance rises by the amount and the name is unchanged |
| `Accounts.Customer.Withdraw` | src/index.js:114-142 | succeeds exactly when the statement is non-empty and the balance is at least the amount; a refusal is "insufficient funds" and leaves the statement unchanged; a success appends exactly one 'withdraw' entry, lowers the balance by the amount and leaves it non-negative |
| `Accounts.Customer.Rename` | src/index.js:144-151 | the name becomes the new one and the statement (with the constant cpf and id) is unchanged |
| `Accounts.Ledger.constructor` | src/index.js:5 | the collection starts empty, and so free of duplicate tax identifiers |
| `Accounts.Ledger.Lookup` | src/index.js:10-24 | fails with "not found" exactly when no customer has the tax identifier; otherwise returns the first customer that has it |
| `Accounts.Ledger.CreateAccount` | src/index.js:44-62 | refused with "already exists" exactly when the tax identifier is taken, leaving the collection unchanged; otherwise exactly one fresh record with an empty statement is appended after the existing ones; tax identifiers stay pairwise distinct either way |
| `Accounts.Ledger.DeleteAsWritten` | src/index.js:153-158 | the collection afterwards is the splice as written (the first customer removed), and tax identifiers stay distinct |
| `Accounts.Ledger.DeleteAccount` | src/index.js:153-158 | the requested customer is gone, every other customer stays in the same order, the collection is one shorter, and tax identifiers stay distinct |

## Findings

| source | as written | input that shows it | evidently intended | confidence | as-written member | corrected member |
|---|---|---|---|---|---|---|
| src/index.js:156 | `customers.splice(customer, 1)` passes the customer object as the start index; it converts to NaN and then to 0, so the first customer is always removed | customers with cpf "111" then "222"; `DELETE /account` with cpf "222" removes "111" and keeps "222" | remove the customer the request resolved to | high (JavaScript conversion rules; not executed) | `Accounts.SpliceAsWrittenMissesTarget` | `Accounts.Ledger.DeleteAccount` |

## Left out

- Express wiring (`app.use`, route registration, `next()`, `app.listen`), HTTP status codes and JSON serialisation: each operation returns only its success or its error kind. `GET /account` and `GET /statement` answer with the record and its `statement` field as `Ledger.Lookup` finds it, and `/balance` with `GetBalance` of that statement; they have no member of their own. The body of the `DELETE /account` answer (the remaining list) is the `customers` field afterwards.
- `uuidv4()`: the id is a parameter of `CreateAccount`, supplied by the caller; its uniqueness is not modelled.
- The wall clock `new Date()`: the timestamp of a deposit or withdrawal is a parameter.
- `new Date(string)` parsing and `toDateString()` are locale- and time-zone-dependent library calls. A timestamp is a record (year, month, day, time of day), the comparison is equality of its calendar day, and the parsing of the converted date is a function parameter of `StatementByDate` that returns no day for an invalid date.
- JavaScript number semantics: amounts are unbounded integers, with no floating-point rounding; like the code, the model does not check their sign or type.
- The loose `==` in the `cpf` comparisons: tax identifiers are strings compared by equality.
- StatementByDate: takes the date as a string; a missing `date` query parameter (`undefined`) or a repeated one (an array) makes `date.split('/')` throw, and the route answers with an error; the model does not capture that case.
- The texts of the error responses (`Customer not found!`, `Customer already exists!`, `Insufficient funds!`) are part of the JSON serialisation; the model keeps the error kind only.
- The `type` field is a two-value type (`Credit`, `Withdraw`) rather than a free string; these are the only two values the code ever stores.
