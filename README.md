# Cash register till, modelled in Dafny

The system is the back end of a point-of-sale cash register. It keeps a
**till**: one record per legal denomination (100000, 50000, 20000, 10000, 5000,
1000, 500, 200, 100 and 50) holding how many bills or coins of that value are
in the register. It also keeps an append-only **transaction log** of
`{create_at, amount, type}` records. Four handlers act on them:

- `/charge` loads bills and coins into the till and logs a `CHARGE` of their worth;
- `/empty` zeroes every quantity and logs an `EMPTY` of minus the old balance;
- `/status` reports the records, largest denomination first, and the balance;
- `/pay` takes an amount owed and the cash tendered. It checks that the register
  and the customer can cover the change. It picks the change greedily from a
  snapshot of the till, puts the tendered cash in, takes the change out, and
  logs a `PAYMENT` and a `CHANGE`.

The model has five modules:

- `Values` (values.dfy): shared datatypes. `Num` models a JSON number field as
  absent, an integer, or a non-integer, which is all the register's checks can
  tell apart. It also holds the legal tender list.
- `Ledger` (ledger.dfy): the till as the class `Till`, whose `entries` sequence
  is kept sorted by descending denomination. Also the per-entry checks and the
  functions the till's methods are proved against.
- `Payment` (payment.dfy): the payment algorithm. `PaymentOf` is its
  specification; `CreatePayment` is the imperative version, proved against it.
- `Journal` (journal.dfy): the transaction log as the class `TransactionLog`,
  the date and hour filter, and JavaScript's `parseInt` for the hour.
- `Routes` (routes.dfy): the four handlers as methods over a `Till` and a
  `TransactionLog`.

An update of the till checks each entry inside an `async` callback. A failing
check therefore rejects only that entry's promise. The update still succeeds:
failing entries are skipped and passing entries are applied. The checks follow
JavaScript's precedence, where `&&` binds tighter than `||`. So for `CHANGE`
only the denomination half of each check applies. `Ledger.Accepted` states
exactly which entries pass.

Four behaviours of the code are worth knowing:

- the log filter keeps the records whose formatted date and hour equal the
  requested ones. It is an equality, not a range
  (src/classes/transaction.js:79-84, `Journal.ExactHourExample`);
- `/charge` never answers 500 for a bad entry. The entry is skipped in the
  till, but its worth is still counted in the logged amount
  (src/routes/transaction.js:12-20, `Routes.ChargeCountsSkipped`);
- a `CHANGE` update does not check the legal tender list
  (src/classes/cash.js:29, `Ledger.Accepted`);
- the greedy change count is not capped by the stock, so a record can go
  negative (src/classes/payment.js:38-48, `Payment.UncappedWithdrawal`).

## Model

| member | source | states |
|---|---|---|
| Ledger.Accepted | src/classes/cash.js:25-32 | An entry passes for `CHARGE`/`PAYMENT` iff its denomination and quantity are integers, the denomination is legal tender and the quantity is positive; for `CHANGE` iff the denomination is a positive integer |
| Ledger.Till.constructor | tests/app.test.js:15-18 | A till starts from the records inserted into the cash collection, sorted by descending denomination, and holds exactly them |
| Ledger.Till.UpdateQuantity | src/classes/cash.js:22-48 | The till becomes the old till with every accepted entry's quantity added to its denomination's record; sortedness and validity are kept |
| Ledger.AppliedAt | src/classes/cash.js:34-44 | After an update each record's quantity is its old quantity plus the total accepted quantity for its denomination; no record is added or removed; denominations and order are unchanged |
| Ledger.AppliedBalance | src/classes/cash.js:34-44 | An update adds to the balance exactly the worth of the accepted entries whose denomination the till holds |
| Ledger.CreditedAll | src/classes/cash.js:25-44 | When every entry passes and names a held denomination, the update adds the whole worth of the batch |
| Ledger.AppliedOrderFree | src/classes/cash.js:24-47 | Applying the same entries in any order gives the same till, so the unordered concurrent increments cannot race to different results |
| Ledger.CreditPermutation | src/classes/cash.js:24-47 | The quantity credited to a denomination depends only on the multiset of entries |
| Ledger.CreditSplit | src/classes/cash.js:24-47 | The credit of two concatenated batches is the sum of their credits |
| Ledger.BalanceInc | src/classes/cash.js:42 | Incrementing the record for `d` by `q` adds `d * q` to the balance; an unheld `d` changes nothing |
| Ledger.BalanceCons | src/classes/cash.js:82-85 | The balance is the first record's worth plus the balance of the rest |
| Ledger.Till.Empty | src/classes/cash.js:54-62 | Every quantity becomes 0, the denominations are kept and the balance is 0 |
| Ledger.ZeroedBalance | src/classes/cash.js:58-61 | Emptying keeps every denomination, zeroes every quantity and leaves a zero balance |
| Ledger.Till.GetState | src/classes/cash.js:68-91 | Returns the records sorted by descending denomination and the sum of denomination times quantity over them |
| Ledger.StatusExample | tests/app.test.js:15-20 | Five 50000 and five 10000 bills are worth 300000 |
| Ledger.Tally | src/routes/transaction.js:17-20 | The sum of denomination times quantity over the request's entries, accumulated entry by entry |
| Ledger.AsDetailsWhole | src/classes/payment.js:41-54 | A change list handed to the till update is all whole numbers and converts back to itself |
| Ledger.WholeApplicable | src/classes/cash.js:31-32 | When every quantity is an integer, every accepted entry can be applied |
| Ledger.PrefixApplicable | src/classes/cash.js:24 | What can be applied for a batch can be applied for each prefix of it |
| Payment.FirstFit | src/classes/payment.js:34-36 | The first snapshot record whose denomination fits the remainder and whose quantity is positive; none when no record fits |
| Payment.SelectChange | src/classes/payment.js:31-56 | The loop returns exactly the greedy change list, or none when a remainder fits no record; no change gives the empty list; any list returned is change for the amount |
| Payment.GreedyChange | src/classes/payment.js:33-56 | A greedy change list pays out exactly the change. Every quantity is a withdrawal of a denomination no larger than the change that was in stock in the snapshot. Denominations strictly decrease |
| Payment.GreedyStep | src/classes/payment.js:38-48 | One loop turn takes `remaining / d` units of the first fitting denomination `d` and leaves a smaller, non-negative remainder |
| Payment.GreedyCompletes | src/classes/payment.js:33-37 | With a 50 coin in stock and every denomination a multiple of 50, the loop never fails on a multiple of 50 |
| Payment.PaymentReceipt | src/classes/payment.js:22-66 | A successful payment returns the tendered total and change equal to that total less the amount. The change is between 0 and the balance, and the change list pays out exactly the change |
| Payment.PaymentErrors | src/classes/payment.js:28-37 | The register check comes first; a short tender fails with "Insufficient cash" when the balance is not negative; "Not change for this value" only when the greedy loop finds no fitting record |
| Payment.PaymentNetsAmount | src/classes/payment.js:57-59 | When the tendered entries all pass and are held, putting in the cash and taking out the change grows the balance by exactly the amount owed |
| Payment.PaymentExample | tests/app.test.js:152-201 | 40000 owed, one 50000 tendered, till of one 50000 and one 10000: change of one 10000 bill and a till of two 50000 bills and no 10000 bill |
| Payment.UncappedWithdrawal | src/classes/payment.js:38-48 | With one 10000 bill in the till, change of 20000 withdraws two and leaves the record at -1 |
| Payment.CreatePayment | src/classes/payment.js:22-66 | The result is the specified outcome; every failure leaves the till unchanged; a success puts the tendered cash in and takes the change list out |
| Journal.Matching | src/classes/transaction.js:65-91 | A line is listed iff it is a logged record whose formatted date equals the given date and whose hour equals the parsed hour |
| Journal.MatchingCounts | src/classes/transaction.js:79-93 | The filter drops no duplicate: each matching line is listed exactly as often as it was logged, and a line that does not match is not listed |
| Journal.DuplicatesSummed | src/classes/transaction.js:79-93 | Two identical matching records are both listed and both summed |
| Journal.ParseIntDecimal | src/classes/transaction.js:66 | `parseInt` reads back every integer written in decimal, so an hour sent as a number or as its numeral means that hour |
| Journal.ParseDigits | src/classes/transaction.js:66 | A string starting with a decimal digit parses as its unsigned part |
| Journal.ParseNegated | src/classes/transaction.js:66 | A leading minus negates the unsigned part |
| Journal.MagnitudeDigits | src/classes/transaction.js:66 | A run of decimal digits is read in base 10 |
| Journal.DecimalDigitsValue | src/classes/transaction.js:66 | The decimal numeral of `n` is non-empty, all digits and has value `n` |
| Journal.LeadingDigitsAll | src/classes/transaction.js:66 | A string made only of digits is read to its end |
| Journal.ExactHourExample | src/classes/transaction.js:79-84 | A record from hour 21 of the same day is not listed for hour "22" |
| Journal.TransactionLog.constructor | tests/app.test.js:8-11 | A cleared transactions collection holds no record |
| Journal.TransactionLog.Create | src/classes/transaction.js:23-34 | Appends the record unchanged; earlier records stay as they were |
| Journal.TransactionLog.GetAll | src/classes/transaction.js:40-57 | One listed item per record, carrying its date, hour, amount and type |
| Journal.TransactionLog.GetByDate | src/classes/transaction.js:65-98 | Lists exactly the records of that date and parsed hour, each as often as it was logged, and returns the sum of their amounts; 0 when none match |
| Routes.Charge | src/routes/transaction.js:7-30 | No details: 400 and nothing written. Otherwise 200; the till gets every accepted entry and the log gets a `CHARGE` of the worth of all entries |
| Routes.ChargeCredits | src/routes/transaction.js:13-28 | With a till holding every legal denomination and every entry passing, the balance grows by exactly the logged amount |
| Routes.ChargeExample | tests/app.test.js:86-131 | One 10000 and one 50000 bill into an empty till give one of each and a `CHARGE` of 60000 |
| Routes.ChargeCountsSkipped | src/routes/transaction.js:13-20 | A rejected entry is left out of the till but counted in the logged amount |
| Routes.EmptyRegister | src/routes/transaction.js:32-52 | A zero balance answers "already empty" and writes nothing; otherwise the till is zeroed and an `EMPTY` of minus the old balance is logged |
| Routes.Status | src/routes/transaction.js:54-63 | 200 with the balance and the records in descending order, writing nothing |
| Routes.Pay | src/routes/transaction.js:65-97 | The three 400 guards run in order and write nothing. A failed payment answers 500 with its message and writes nothing. A success settles the till and logs a `PAYMENT` of the tendered total, then a `CHANGE` of minus the change |
| Routes.PayNetsAmount | src/routes/transaction.js:74-95 | With a till holding every legal denomination and positive tendered quantities, a payment's two log records sum to the amount and the balance grows by it |

## Left out

- The database, the HTTP server, request parsing and the connection setup are not modelled. The till and the log are objects passed to the handlers, and the current time is a parameter.
- Concurrency: the increments of one update are applied one after another. `Ledger.AppliedOrderFree` shows that the order does not matter. Interleavings of separate requests are not modelled.
- A check that throws inside the update's callback becomes an unhandled promise rejection. Depending on the runtime's settings this can end the process. The model keeps only its effect on the till: the entry is skipped.
- The store formats `create_at` as `%d/%m/%Y` and its hour. The model's `Moment` holds those two formatted values instead of a timestamp, so time zones are not modelled.
- Order of the listings: `getAll` projects `create_at` away before sorting on it (src/classes/transaction.js:46-54), so its sort compares a field no document has; `getByDate` does not sort. The source therefore imposes no order on either listing, and the model lists records in log order.
- A missing `details` or `cash` field and an empty list get the same answer, so both are the empty sequence.
- `/log` and `/log-by-date` only return `GetAll` and `GetByDate` with status 200. They have no handler of their own in the model.
- `Routes.Charge`: requires every denomination and quantity to be an integer. `Num` keeps only the floor of a fractional field, so the model cannot compute the worth of such an entry. Half of a 100 coin, for instance, is skipped in the till but adds 50 to the logged total. A missing field gives a NaN total, which is not modelled either.
- `Routes.Pay`: requires an amount that is not fractional and integer quantities, for the same reason: the tendered total and the change of such a request cannot be computed from a floor.
- `Payment.CreatePayment`: requires integer fields for the same reason. Denominations are already checked against the legal tender by the handler.
- `Ledger.Till.UpdateQuantity`: requires that every accepted entry has an integer quantity, which holds for every caller. A `CHANGE` entry with a fractional quantity is never built by the register.
- `Journal.ParseInt` treats only space, tab, line feed, carriage return, vertical tab and form feed as leading white space. Other Unicode spaces and the byte-order mark are not modelled. Every `hour` is taken to be a string.
- JavaScript numbers are modelled as unbounded integers; floating-point rounding of large sums is not modelled.
- src/utils/constants.js is not part of this model. Its denomination list is written out as `Values.LegalTender`, and `Values.TenderMessage` is the message that interpolates it.
