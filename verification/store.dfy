/** The four tables the handlers share, and the effect of each SQL
    statement they issue, as pure functions over those tables.

    Run ids are assigned by auto-increment from 1 and rows are never
    deleted, so the `runs` table is a sequence in which run `k` is the
    element at position `k - 1`. The ledger is append-only; its own row ids
    are likewise positions and are not stored. */
module Store {
  import opened Results

  type UserId = int
  type RunId = int
  type CampaignId = int

  /** A timestamp formatted for MySQL, 'YYYY-MM-DD HH:MM:SS'. */
  type Timestamp = string

  datatype RunStatus = Active | Finished

  /** A row of `runs`. The optional columns are NULL until the run is finished. */
  datatype Run = Run(
    userId: UserId,
    startedAt: Timestamp,
    finishedAt: Option<Timestamp>,
    totalDistanceM: Option<int>,
    totalSeconds: Option<int>,
    avgPaceSecPerKm: Option<int>,
    calories: Option<int>,
    status: RunStatus)

  /** The key of `daily_stats`: a user and a 'YYYY-MM-DD' day. */
  datatype DayKey = DayKey(userId: UserId, ymd: string)

  /** The running totals of one `daily_stats` row. */
  datatype DailyTotals = DailyTotals(distanceM: int, seconds: int)

  datatype EntryKind = Credit | Debit

  /** A row of `donation_ledger`; amounts are in hundredths of a kilometre.
      `createdAt` is the row's creation time on the store's clock. */
  datatype LedgerEntry = LedgerEntry(
    userId: UserId,
    kind: EntryKind,
    amountCentiKm: int,
    refRunId: Option<RunId>,
    campaignId: Option<CampaignId>,
    memo: string,
    createdAt: nat)

  /** The four tables: `runs`, `daily_stats`, `donation_wallet` (balances in
      hundredths of a kilometre) and `donation_ledger`. */
  datatype State = State(
    runs: seq<Run>,
    daily: map<DayKey, DailyTotals>,
    wallet: map<UserId, int>,
    ledger: seq<LedgerEntry>)

  /** A store with no rows at all. */
  const Empty: State := State([], map[], map[], [])

  /** The statements a handler issues; a store failure names the one that threw. */
  datatype Stmt =
    | BeginTx | InsertRun | UpdateRun | SelectRun | InsertDaily | UpdateDaily
    | InsertWallet | UpdateWallet | InsertLedger | SelectWallet | CommitTx

  /** Why a handler failed. */
  datatype Error =
    | InvalidTimestamp       // `new Date(x).toISOString()` threw
    | RunNotFound            // the run read back was undefined
    | InsufficientBalance    // no wallet row, or too small a balance to donate
    | MissingWallet          // the summary read a wallet row that is not there
    | StoreFailure(at: Stmt) // the store itself threw at this statement

  /** What a handler leaves behind: the tables after commit or rollback, and
      the response or the error. */
  datatype Reply<T> = Reply(state: State, out: Result<T, Error>)

  /** Whether the store throws when executing `st`; `fault` names the one
      statement (if any) at which it does. */
  predicate Throws(fault: Option<Stmt>, st: Stmt) {
    fault == Some(st)
  }

  /** Whether none of the statements in `path` throws. */
  predicate Survives(fault: Option<Stmt>, path: set<Stmt>) {
    fault.None? || fault.value !in path
  }

  /** Whether `id` names a row of `runs`. */
  predicate HasRun(runs: seq<Run>, id: RunId) {
    1 <= id <= |runs|
  }

  /** The row of run `id`. */
  function RunAt(runs: seq<Run>, id: RunId): Run
    requires HasRun(runs, id)
  {
    runs[id - 1]
  }

  /** `INSERT INTO runs (user_id, started_at)`: a new active run, whose id
      is the next auto-increment value. */
  function InsertRunRow(runs: seq<Run>, userId: UserId, startedAt: Timestamp): seq<Run> {
    runs + [Run(userId, startedAt, None, None, None, None, None, Active)]
  }

  /** `UPDATE runs SET ... status='finished' WHERE id=?`: affects no row when
      the id is unknown, and does not look at the current status. */
  function FinishRunRow(runs: seq<Run>, id: RunId, finishedAt: Timestamp, metres: int,
                        seconds: int, pace: int, calories: int): seq<Run>
  {
    if HasRun(runs, id) then
      runs[id - 1 := runs[id - 1].(finishedAt := Some(finishedAt),
                                   totalDistanceM := Some(metres),
                                   totalSeconds := Some(seconds),
                                   avgPaceSecPerKm := Some(pace),
                                   calories := Some(calories),
                                   status := Finished)]
    else runs
  }

  /** `SELECT ... FROM runs WHERE id=?`, destructured as `[[run]]`. */
  function SelectRunRow(runs: seq<Run>, id: RunId): Option<Run> {
    if HasRun(runs, id) then Some(RunAt(runs, id)) else None
  }

  /** `INSERT IGNORE INTO daily_stats ... VALUES (?, ?, 0, 0)`. */
  function InsertIgnoreDaily(daily: map<DayKey, DailyTotals>, key: DayKey): map<DayKey, DailyTotals> {
    if key in daily then daily else daily[key := DailyTotals(0, 0)]
  }

  /** `UPDATE daily_stats SET total_distance_m = total_distance_m + ?, ...`. */
  function IncrementDaily(daily: map<DayKey, DailyTotals>, key: DayKey, metres: int,
                          seconds: int): map<DayKey, DailyTotals>
  {
    if key in daily then
      daily[key := DailyTotals(daily[key].distanceM + metres, daily[key].seconds + seconds)]
    else daily
  }

  /** `INSERT IGNORE INTO donation_wallet ... VALUES (?, 0)`. */
  function InsertIgnoreWallet(wallet: map<UserId, int>, userId: UserId): map<UserId, int> {
    if userId in wallet then wallet else wallet[userId := 0]
  }

  /** `UPDATE donation_wallet SET km_balance = km_balance + ? WHERE user_id=?`
      (a debit passes a negated amount). */
  function AdjustWallet(wallet: map<UserId, int>, userId: UserId, delta: int): map<UserId, int> {
    if userId in wallet then wallet[userId := wallet[userId] + delta] else wallet
  }

  /** The totals of a day so far, zero when it has no row yet. */
  function Prior(daily: map<DayKey, DailyTotals>, key: DayKey): DailyTotals {
    if key in daily then daily[key] else DailyTotals(0, 0)
  }

  /** A user's balance, zero when the user has no wallet row. */
  function Balance(wallet: map<UserId, int>, userId: UserId): int {
    if userId in wallet then wallet[userId] else 0
  }

  /** The two `daily_stats` statements together: the day's row exists
      afterwards and has grown by exactly the given amounts; every other
      row is as it was. */
  function AddToDay(daily: map<DayKey, DailyTotals>, key: DayKey, metres: int,
                    seconds: int): (r: map<DayKey, DailyTotals>)
    ensures key in r
    ensures r[key].distanceM == Prior(daily, key).distanceM + metres
    ensures r[key].seconds == Prior(daily, key).seconds + seconds
    ensures r - {key} == daily - {key}
  {
    IncrementDaily(InsertIgnoreDaily(daily, key), key, metres, seconds)
  }

  /** The two wallet statements of a credit together: the wallet exists
      afterwards and its balance has grown by exactly `amount`; every other
      wallet is as it was. */
  function CreditWallet(wallet: map<UserId, int>, userId: UserId, amount: int): (r: map<UserId, int>)
    ensures userId in r
    ensures r[userId] == Balance(wallet, userId) + amount
    ensures r - {userId} == wallet - {userId}
  {
    AdjustWallet(InsertIgnoreWallet(wallet, userId), userId, amount)
  }

  /** The 10-character slice `formattedFinish.slice(0, 10)`: the day part of
      a timestamp (the whole string when it is shorter). */
  function DayOf(stamp: Timestamp): (day: string)
    ensures |stamp| >= 10 ==> |day| == 10
    ensures |stamp| < 10 ==> day == stamp
    ensures day <= stamp
  {
    if |stamp| >= 10 then stamp[..10] else stamp
  }
}
