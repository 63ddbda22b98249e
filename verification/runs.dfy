/** The run handlers: starting a run, and the finish transaction that
    settles the run, adds it to the day's totals and credits the wallet. */
module Runs {
  import opened Results
  import opened Store
  import opened FixedPoint

  /** The body of a finish request; `finishedAt` is None when the supplied
      time is not a valid date, and `calories` is None when it was omitted. */
  datatype FinishRequest = FinishRequest(
    runId: RunId,
    finishedAt: Option<Timestamp>,
    distanceMicroKm: int,
    totalSeconds: int,
    calories: Option<int>)

  /** The finish response: the credited distance and the new balance, both in
      hundredths of a kilometre. */
  datatype FinishReceipt = FinishReceipt(totalDistanceCentiKm: int, walletCentiKm: int)

  /** The statements the finish transaction executes when the run exists. */
  const FinishPath: set<Stmt> := {BeginTx, UpdateRun, SelectRun, InsertDaily, UpdateDaily,
                                  InsertWallet, UpdateWallet, InsertLedger, SelectWallet, CommitTx}

  /** The statements executed up to and including reading the run back. */
  const FinishLookupPath: set<Stmt> := {BeginTx, UpdateRun, SelectRun}

  /** The memo of every credit entry. */
  const RunFinishedMemo: string := "Run finished"

  /** The credit entry appended for a finished run. */
  function CreditEntry(userId: UserId, amount: int, runId: RunId, now: nat): LedgerEntry {
    LedgerEntry(userId, Credit, amount, Some(runId), None, RunFinishedMemo, now)
  }

  /** Start a run: a single insert outside any transaction. The new run is
      active and is the last row; the other tables are untouched. */
  function StartRun(s: State, userId: UserId, startedAt: Option<Timestamp>,
                    fault: Option<Stmt>): (r: Reply<RunId>)
    ensures r.out.Failure? ==> r.state == s
    ensures r.out.Success? <==> startedAt.Some? && !Throws(fault, InsertRun)
    ensures startedAt.None? ==> r.out == Failure(InvalidTimestamp)
    ensures r.out.Success? ==>
      && |r.state.runs| == |s.runs| + 1
      && r.state.runs[..|s.runs|] == s.runs
      && r.out.value == |r.state.runs|
      && RunAt(r.state.runs, r.out.value)
         == Run(userId, startedAt.value, None, None, None, None, None, Active)
      && r.state.daily == s.daily
      && r.state.wallet == s.wallet
      && r.state.ledger == s.ledger
  {
    match startedAt
    case None => Reply(s, Failure(InvalidTimestamp))
    case Some(stamp) =>
      if Throws(fault, InsertRun) then Reply(s, Failure(StoreFailure(InsertRun)))
      else
        var runs := InsertRunRow(s.runs, userId, stamp);
        Reply(s.(runs := runs), Success(|runs|))
  }

  /** The finish transaction's statements against a working copy of the
      tables, from `beginTransaction` to `commit`; a failure anywhere
      abandons the working copy. */
  function FinishTx(s: State, req: FinishRequest, now: nat,
                    fault: Option<Stmt>): Result<(State, FinishReceipt), Error>
  {
    if Throws(fault, BeginTx) then Failure(StoreFailure(BeginTx))
    else match req.finishedAt
    case None => Failure(InvalidTimestamp)
    case Some(stamp) =>
      var metres := MetresOf(req.distanceMicroKm);
      var pace := PaceOf(req.distanceMicroKm, req.totalSeconds);
      if Throws(fault, UpdateRun) then Failure(StoreFailure(UpdateRun))
      else
        var runs := FinishRunRow(s.runs, req.runId, stamp, metres, req.totalSeconds, pace,
                                 req.calories.GetOr(0));
        if Throws(fault, SelectRun) then Failure(StoreFailure(SelectRun))
        else match SelectRunRow(runs, req.runId)
        case None => Failure(RunNotFound)
        case Some(run) =>
          var key := DayKey(run.userId, DayOf(stamp));
          if Throws(fault, InsertDaily) then Failure(StoreFailure(InsertDaily))
          else if Throws(fault, UpdateDaily) then Failure(StoreFailure(UpdateDaily))
          else
            var daily := AddToDay(s.daily, key, metres, req.totalSeconds);
            var credit := CentiKmOf(req.distanceMicroKm);
            if Throws(fault, InsertWallet) then Failure(StoreFailure(InsertWallet))
            else if Throws(fault, UpdateWallet) then Failure(StoreFailure(UpdateWallet))
            else
              var wallet := CreditWallet(s.wallet, run.userId, credit);
              if Throws(fault, InsertLedger) then Failure(StoreFailure(InsertLedger))
              else
                var ledger := s.ledger + [CreditEntry(run.userId, credit, req.runId, now)];
                if Throws(fault, SelectWallet) then Failure(StoreFailure(SelectWallet))
                else
                  var balance := wallet[run.userId];
                  if Throws(fault, CommitTx) then Failure(StoreFailure(CommitTx))
                  else Success((State(runs, daily, wallet, ledger), FinishReceipt(credit, balance)))
  }

  /** Finish a run: commit the transaction's working copy, or roll back to
      the tables as they were. The run's status is not checked, so finishing
      a finished run overwrites it and credits it again. */
  function FinishRun(s: State, req: FinishRequest, now: nat, fault: Option<Stmt>): (r: Reply<FinishReceipt>)
    // rollback: a failed finish leaves every table as it was
    ensures r.out.Failure? ==> r.state == s
    ensures r.out.Success? <==>
      req.finishedAt.Some? && HasRun(s.runs, req.runId) && Survives(fault, FinishPath)
    ensures req.finishedAt.None? && !Throws(fault, BeginTx) ==> r.out == Failure(InvalidTimestamp)
    ensures req.finishedAt.Some? && !HasRun(s.runs, req.runId) && Survives(fault, FinishLookupPath) ==>
      r.out == Failure(RunNotFound)
    ensures req.finishedAt.Some? && HasRun(s.runs, req.runId) && !Survives(fault, FinishPath) ==>
      r.out == Failure(StoreFailure(fault.value))
    // the run row is settled; the other runs are untouched
    ensures r.out.Success? ==>
      && |r.state.runs| == |s.runs|
      && (forall id :: HasRun(s.runs, id) && id != req.runId ==> RunAt(r.state.runs, id) == RunAt(s.runs, id))
      && RunAt(r.state.runs, req.runId) == RunAt(s.runs, req.runId).(
           finishedAt := req.finishedAt,
           totalDistanceM := Some(MetresOf(req.distanceMicroKm)),
           totalSeconds := Some(req.totalSeconds),
           avgPaceSecPerKm := Some(PaceOf(req.distanceMicroKm, req.totalSeconds)),
           calories := Some(req.calories.GetOr(0)),
           status := Finished)
    // the user's day has grown by the run; no other day has changed
    ensures r.out.Success? ==>
      var key := DayKey(RunAt(s.runs, req.runId).userId, DayOf(req.finishedAt.value));
      && key in r.state.daily
      && r.state.daily[key].distanceM == Prior(s.daily, key).distanceM + MetresOf(req.distanceMicroKm)
      && r.state.daily[key].seconds == Prior(s.daily, key).seconds + req.totalSeconds
      && r.state.daily - {key} == s.daily - {key}
    // the user's wallet is credited with the rounded distance, and the
    // credit is recorded as one ledger entry referring to the run
    ensures r.out.Success? ==>
      var user := RunAt(s.runs, req.runId).userId;
      var credit := CentiKmOf(req.distanceMicroKm);
      && user in r.state.wallet
      && r.state.wallet[user] == Balance(s.wallet, user) + credit
      && r.state.wallet - {user} == s.wallet - {user}
      && r.state.ledger == s.ledger + [CreditEntry(user, credit, req.runId, now)]
      && r.out.value == FinishReceipt(credit, r.state.wallet[user])
  {
    match FinishTx(s, req, now, fault)
    case Success((committed, receipt)) => Reply(committed, Success(receipt))
    case Failure(e) => Reply(s, Failure(e))
  }
}
