# ValueRun accounting core in Dafny

ValueRun is a running tracker whose backend (`backend/app.js`) turns finished
runs into a donation currency measured in kilometres. This project models
the accounting logic of its Express handlers. The HTTP and SQL layers are
stripped away. What is left is a small state machine over four tables:

- `runs`: a sequence, where run `k` is at position `k - 1`. Ids are
  auto-increment values starting at 1, and rows are never deleted.
- `daily_stats`: a map from (user, day) to distance and time totals.
- `donation_wallet`: a map from user to balance.
- `donation_ledger`: an append-only sequence of credit and debit entries.

The three writing handlers (start, finish and donate) are pure functions
from the tables and their inputs to a `Reply`. A `Reply` holds the tables
afterwards and either the response or an `Error`. A transaction runs its
statements against a working copy. On commit, the working copy becomes the
new tables. On any failure, the original tables are returned, which is the
rollback. The database itself is outside the model. For these three
handlers its failures are an explicit parameter: `fault: Option<Stmt>` names
the one statement at which the store throws, if any.

The read-side handlers do not write. The summary is a function returning a
`Result`. The recent-donation history is a method over the ledger. The
weekly report is a method over the rows its query returns.

Quantities are fixed-point integers:

- A requested distance is in micro-kilometres.
- Run and daily distances are in metres.
- Wallet balances, ledger amounts, credits and report figures are in
  hundredths of a kilometre.
- `Math.round(x)` is `FixedPoint.RoundHalfUp`, which rounds ties toward
  +infinity.
- `x.toFixed(2)` is `FixedPoint.RoundHalfAway`, which rounds ties away from
  zero on the exact decimal value.

Modules, one per file:

- `Results`: `Option` and `Result`.
- `FixedPoint`: rounding, metres, credits and pace.
- `Store`: the tables, the effect of each SQL statement, and the errors.
- `Ledger`: signed ledger sums and the invariant that wallets equal the
  ledger.
- `Runs`: the start and finish handlers.
- `Donations`: the donate handler, the recent-donation history and the total
  summary.
- `Weekly`: the weekly report's day-of-week remap and sum.
- `Accounting`: the cross-handler properties.

Behaviour of the handlers that the model keeps as it is:

- Finishing does not check the run's status. A second finish overwrites the
  row and credits the wallet again (`Accounting.RefinishCreditsTwice`).
- Finishing credits any distance, including zero and negative ones.
- Donating does not reject a non-positive amount. A negative amount passes
  the balance guard and raises the balance.
- 5.555 km is stored as `Math.round(5555) = 5555` metres
  (`FixedPoint.DistanceExample`). The credit of 5.56 km is the exact-decimal
  rounding the model adopts. The JavaScript program credits 5.55 here,
  because the double nearest 5.555 lies just below it.

## Model

| member | source | states |
|---|---|---|
| FixedPoint.RoundHalfUp | backend/app.js:66 | `Math.round(n/d)` is the unique integer within half a unit of n/d, with ties rounded up |
| FixedPoint.RoundHalfAway | backend/app.js:108 | `toFixed` rounding is within half a unit and takes the sign of its input, so ties round away from zero |
| FixedPoint.RoundingsAgreeOnNonNegatives | backend/app.js:108 | for non-negative distances the credit rounding and `Math.round` agree |
| FixedPoint.MetresOf | backend/app.js:66 | the stored metres are the distance in km times 1000, rounded to the nearest metre |
| FixedPoint.CentiKmOf | backend/app.js:108 | the credited amount is the distance rounded to 2 decimals, and it is non-negative for a non-negative distance |
| FixedPoint.CentiKmOfMetres | backend/app.js:167 | a metre total is shown in km rounded to 2 decimals |
| FixedPoint.PaceOf | backend/app.js:78-80 | the pace is the nearest integer to seconds/km for a positive distance, and 0 otherwise, so there is no division by zero |
| FixedPoint.PaceOfWholeKilometres | backend/app.js:78-80 | k whole km at p s/km gives pace exactly p |
| FixedPoint.PaceExamples | backend/app.js:78-80 | 5 km in 1500 s gives 300; a zero distance gives 0 |
| FixedPoint.DistanceExample | backend/app.js:108 | 5.555 km is 5555 m and is credited as 5.56 km |
| Store.AddToDay | backend/app.js:94-105 | the day's row exists afterwards, starting from zero if it was absent; it has grown by exactly the metres and seconds; every other row is unchanged |
| Store.CreditWallet | backend/app.js:109-116 | the wallet exists afterwards, starting from 0 if it was absent; it has grown by exactly the amount; every other wallet is unchanged |
| Store.DayOf | backend/app.js:91 | the day is the 10-character prefix of the formatted timestamp |
| Ledger.NetAppend | backend/app.js:117-121 | appending an entry moves each user's ledger net by that entry's signed amount |
| Ledger.NetIsCreditsMinusDebits | backend/app.js:289-293 | a user's ledger net is the sum of their credits minus the sum of their debits |
| Ledger.NetWithoutEntries | backend/app.js:110 | a user with no ledger entries has a net of 0, which matches a wallet created at 0 |
| Ledger.BalanceIsCreditsMinusDebits | backend/app.js:295-304 | while wallets match the ledger, any user's balance (0 without a wallet) is credits minus debits |
| Ledger.PairingPreservesInvariant | backend/app.js:108-121 | a transaction that changes balances by exactly the one entry it appends keeps every wallet equal to its ledger net |
| Runs.StartRun | backend/app.js:29-50 | fails exactly on an invalid start time or a failed insert, and then changes nothing; on success it appends one active run whose id is the new row count, and changes no other table |
| Runs.FinishRun | backend/app.js:53-140 | succeeds exactly when the time is valid, the run exists and no statement fails. On success: the run row is settled with metres, seconds, pace, calories (default 0) and finished status, other runs unchanged; the day's totals grow; the wallet is credited with the rounded km; one credit entry referencing the run is appended; the response is the credit and the new balance. On failure: invalid time, missing run or store error, with all tables unchanged |
| Donations.Donate | backend/app.js:414-458 | succeeds exactly when the user has a wallet holding at least the amount and no statement fails; otherwise it reports insufficient balance or a store error, with all tables unchanged. On success the donor's balance drops by exactly the amount and stays non-negative; other wallets, runs and daily totals are unchanged; one debit entry is appended with no run and with the campaign |
| Donations.DebitPositionsFromFacts | backend/app.js:355-358 | the reference list holds exactly the user's debit entries from a position on, each once, newest first; its length is their count |
| Donations.RecentDebitPositions | backend/app.js:354-361 | selects only this user's debit entries, min(5, their count) of them, in strictly decreasing ledger order; every unselected debit is older than all selected ones |
| Donations.RecentDonations | backend/app.js:354-366 | returns min(5, count) lines, one per selected ledger position. Each line is the creation time and amount of one of the user's debit entries, positions strictly decreasing. Any unselected debit is older than all shown. Lines are newest first whenever the ledger's timestamps do not decrease |
| Donations.Summary | backend/app.js:283-304 | fails exactly when the user has no wallet row; otherwise the total is the finished-run metres rounded to the nearest 0.01 km, donated is the sum of the debit amounts, and while wallets match the ledger, available = all credits − donated |
| Donations.FinishedMetresUpdate | backend/app.js:283-287 | replacing one run row changes the finished-distance sum by the difference of the two rows' contributions |
| Weekly.DowIndex | backend/app.js:166 | a `DAYOFWEEK` value maps into 0..6 |
| Weekly.DowIndexIsBijective | backend/app.js:165-166 | `(dow+5)%7` is a bijection from 1..7 onto 0..6, with `DowAt` as its inverse |
| Weekly.DowIndexNamedDays | backend/app.js:165-166 | Monday → 0, Wednesday → 2, Saturday → 5, Sunday → 6 |
| Weekly.DayValueWithoutRows | backend/app.js:163 | a day with no row keeps its initial 0 |
| Weekly.DayValueOfRow | backend/app.js:164-167 | with one row per day, each row's rounded km lands at its Monday-first position |
| Weekly.WeeklyDistances | backend/app.js:163-170 | returns 7 entries; each is the rounded km of the last row mapped there, or 0 with no such row; with one row per day each row fills its own position; the total is the sum of the entries |
| Weekly.WednesdayExample | backend/app.js:163-167 | a 5555 m Wednesday fills position 2 with 5.56 km, and Monday stays 0 |
| Accounting.FinishPairsCreditWithEntry | backend/app.js:108-121 | a committed finish appends exactly one credit entry and changes each balance by exactly that entry's signed amount |
| Accounting.DonatePairsDebitWithEntry | backend/app.js:432-442 | a committed donation appends exactly one debit entry and changes each balance by exactly that entry's signed amount |
| Accounting.StepPreservesWalletMatch | backend/app.js:128-134 | any single request, whether committed or rolled back, keeps every wallet equal to its ledger net |
| Accounting.ReplayPreservesWalletMatch | backend/app.js:108-121 | after any sequence of start, finish and donate requests, every wallet still equals its ledger net |
| Accounting.BalanceIsLedgerAfterAnyRequests | backend/app.js:432-442 | starting from empty tables, every balance after any requests is Σcredits − Σdebits |
| Accounting.StepPreservesNonNegative | backend/app.js:427-435 | no request that credits a non-negative distance makes a balance negative; a donation never overdraws |
| Accounting.ReplayPreservesNonNegative | backend/app.js:427-429 | balances stay non-negative across any sequence of such requests |
| Accounting.FinishAddsToFinishedDistance | backend/app.js:69-84 | finishing an active run adds its metres to its owner's finished distance, and adds nothing to anyone else's |
| Accounting.RefinishCreditsTwice | backend/app.js:69-121 | with no status guard, finishing a run twice credits twice and logs two credit entries, while the run row counts the run once |
| Accounting.AppendKeepsChronological | backend/app.js:355-358 | appending an entry stamped no earlier than the rest keeps the ledger in creation order |
| Accounting.StepKeepsChronological | backend/app.js:355-358 | a request whose clock reading is not behind the ledger keeps the ledger in creation order, and stamps nothing later than that reading |
| Accounting.ReplayKeepsChronological | backend/app.js:355-358 | requests that read a clock which never goes back keep the ledger in creation order, so the history is newest first in every such state |
| Accounting.StartFinishDonateScenario | backend/app.js:29-458 | start, then finish 5.555 km in 1800 s, credits 5.56 km and stores 5555 m for the day; donating 2.00 km leaves 3.56 km; a later 4.00 km donation is refused and changes nothing |

## Left out

- HTTP plumbing is left out: Express routing, CORS, body parsing, dotenv,
  the connection pool and its acquire/release, `app.listen` and error
  logging. A failure to acquire a connection happens outside the handlers'
  `try` blocks and is not modelled.
- JavaScript `Date` parsing and `toISOString` formatting are left out. The
  caller supplies the formatted timestamp; `None` stands for an input that
  makes `toISOString` throw.
- The ledger's `created_at` is set by the store's clock. It is the parameter
  `now`, and ledger order stands for creation order.
- Floating-point behaviour is left out: binary rounding quirks of `toFixed`
  (the real `(5.555).toFixed(2)` is "5.55"), and `parseFloat`/`Number`
  coercion of MySQL decimal strings. All arithmetic is exact fixed-point.
- Donations.Summary: returns the three figures as integers in hundredths of
  a kilometre, not as the `toFixed(2)` strings the handler sends. The
  `Number(x) || 0` fallback is not modelled because the figures are never
  NaN here.
- Donations.RecentDonations: each line carries the entry's creation time
  and amount. The SQL `DATE()` truncation and the `toFixed(2)` string are
  not modelled. Ties in `created_at` are resolved by ledger order.
- Weekly.WeeklyDistances: covers only the remap and sum. Left out are the
  `YEARWEEK`/`CURDATE` week filter, the `GROUP BY`, and the `totalRuns`
  count query, all of which are SQL.
- Store failures in the read-side handlers are not modelled. This covers
  the summary, the recent-donation history and the weekly report, whose
  failing queries (`backend/app.js:151-161`, `171-174`, `283-299`,
  `354-361`) end in a 500 response. Those handlers change no table, so such
  a failure leaves the tables as they were.
- The monthly report is not part of this model. Its body is SQL grouping
  by calendar date plus a per-row rounding.
- The static campaign list (`backend/app.js:379-411`) is not modelled.
- The commented-out handlers (`backend/app.js:240-277`, `321-347`) are not
  modelled.
- Concurrency is left out: the model is single-threaded. This covers the
  non-locking balance read at `backend/app.js:422`, isolation levels and
  deadlocks.
- Run ids are modelled as dense auto-increment values. Ids that MySQL skips
  after failed inserts are not modelled.
- Request fields are typed. The distance and the donation are integers
  (micro-km and hundredths of a km). `totalSeconds` is an integer; a
  fractional value has no counterpart. `calories` is either a number or
  omitted (then 0); an explicit JSON `null`, which the destructuring default
  at `backend/app.js:55` does not replace and which is stored as NULL, has no
  counterpart. Left out are type errors such as `toFixed` on a string, and
  MySQL rounding a donation with more than two decimals.
