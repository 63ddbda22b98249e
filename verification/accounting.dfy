/** The accounting properties of the handlers taken together: every
    committed balance change is paired with exactly one ledger entry, so
    the wallets always equal the ledger; balances never go negative; and
    what re-finishing a run does. */
module Accounting {
  import opened Results
  import opened Store
  import opened Ledger
  import opened FixedPoint
  import opened Runs
  import opened Donations

  /** A committed finish changes the run owner's balance by exactly the
      credit entry it appends, and no other balance. */
  lemma FinishPairsCreditWithEntry(s: State, req: FinishRequest, now: nat, fault: Option<Stmt>)
    requires FinishRun(s, req, now, fault).out.Success?
    ensures HasRun(s.runs, req.runId)
    ensures PairedWithOneEntry(s, FinishRun(s, req, now, fault).state,
      CreditEntry(RunAt(s.runs, req.runId).userId, CentiKmOf(req.distanceMicroKm), req.runId, now))
    ensures FinishRun(s, req, now, fault).state.wallet.Keys == s.wallet.Keys + {RunAt(s.runs, req.runId).userId}
  {
  }

  /** A committed donation lowers the donor's balance by exactly the debit
      entry it appends, and no other balance. */
  lemma DonatePairsDebitWithEntry(s: State, userId: UserId, campaignId: CampaignId, amount: int,
                                  now: nat, fault: Option<Stmt>)
    requires Donate(s, userId, campaignId, amount, now, fault).out.Success?
    ensures PairedWithOneEntry(s, Donate(s, userId, campaignId, amount, now, fault).state,
                               DebitEntry(userId, amount, campaignId, now))
    ensures Donate(s, userId, campaignId, amount, now, fault).state.wallet.Keys == s.wallet.Keys
  {
  }

  /** The requests a client can make that write to the tables. */
  datatype Op =
    | StartOp(userId: UserId, startedAt: Option<Timestamp>, fault: Option<Stmt>)
    | FinishOp(req: FinishRequest, now: nat, fault: Option<Stmt>)
    | DonateOp(userId: UserId, campaignId: CampaignId, amount: int, now: nat, fault: Option<Stmt>)

  /** The tables after one request, committed or rolled back. */
  function Step(s: State, op: Op): State {
    match op
    case StartOp(u, t, f) => StartRun(s, u, t, f).state
    case FinishOp(req, now, f) => FinishRun(s, req, now, f).state
    case DonateOp(u, c, a, now, f) => Donate(s, u, c, a, now, f).state
  }

  /** The tables after a sequence of requests, one after another. */
  function Replay(s: State, ops: seq<Op>): State
    decreases |ops|
  {
    if |ops| == 0 then s else Replay(Step(s, ops[0]), ops[1..])
  }

  /** Every request keeps the wallets equal to the ledger. */
  lemma StepPreservesWalletMatch(s: State, op: Op)
    requires WalletMatchesLedger(s)
    ensures WalletMatchesLedger(Step(s, op))
  {
    match op
    case StartOp(u, t, f) =>
    case FinishOp(req, now, f) =>
      if FinishRun(s, req, now, f).out.Success? {
        FinishPairsCreditWithEntry(s, req, now, f);
        var user := RunAt(s.runs, req.runId).userId;
        PairingPreservesInvariant(s, Step(s, op),
          CreditEntry(user, CentiKmOf(req.distanceMicroKm), req.runId, now));
      }
    case DonateOp(u, c, a, now, f) =>
      if Donate(s, u, c, a, now, f).out.Success? {
        DonatePairsDebitWithEntry(s, u, c, a, now, f);
        PairingPreservesInvariant(s, Step(s, op), DebitEntry(u, a, c, now));
      }
  }

  /** After any sequence of requests, every wallet still equals the signed
      sum of its user's ledger entries. */
  lemma {:induction false} ReplayPreservesWalletMatch(s: State, ops: seq<Op>)
    requires WalletMatchesLedger(s)
    ensures WalletMatchesLedger(Replay(s, ops))
    decreases |ops|
  {
    if |ops| > 0 {
      StepPreservesWalletMatch(s, ops[0]);
      ReplayPreservesWalletMatch(Step(s, ops[0]), ops[1..]);
    }
  }

  /** From an empty store, every user's balance after any sequence of
      requests is their credits minus their debits. */
  lemma BalanceIsLedgerAfterAnyRequests(ops: seq<Op>, userId: UserId)
    ensures var s := Replay(Empty, ops);
      Balance(s.wallet, userId) == Credits(s.ledger, userId) - Debits(s.ledger, userId)
  {
    ReplayPreservesWalletMatch(Empty, ops);
    BalanceIsCreditsMinusDebits(Replay(Empty, ops), userId);
  }

  /** Whether no wallet holds a negative balance. */
  predicate BalancesNonNegative(s: State) {
    forall u :: u in s.wallet ==> s.wallet[u] >= 0
  }

  /** Whether a request cannot credit a negative distance (the handler does
      not check this itself). */
  predicate CreditsNonNegative(op: Op) {
    op.FinishOp? ==> op.req.distanceMicroKm >= 0
  }

  /** A request that credits no negative distance keeps every balance
      non-negative; a donation never overdraws. */
  lemma StepPreservesNonNegative(s: State, op: Op)
    requires BalancesNonNegative(s)
    requires CreditsNonNegative(op)
    ensures BalancesNonNegative(Step(s, op))
  {
  }

  /** After any sequence of requests that credit no negative distance, no
      balance is negative. */
  lemma {:induction false} ReplayPreservesNonNegative(s: State, ops: seq<Op>)
    requires BalancesNonNegative(s)
    requires forall i :: 0 <= i < |ops| ==> CreditsNonNegative(ops[i])
    ensures BalancesNonNegative(Replay(s, ops))
    decreases |ops|
  {
    if |ops| > 0 {
      StepPreservesNonNegative(s, ops[0]);
      ReplayPreservesNonNegative(Step(s, ops[0]), ops[1..]);
    }
  }

  /** Finishing an active run adds its metres to the owner's finished
      distance (the summary's total), and nothing to anyone else's. */
  lemma FinishAddsToFinishedDistance(s: State, req: FinishRequest, now: nat, fault: Option<Stmt>,
                                     userId: UserId)
    requires FinishRun(s, req, now, fault).out.Success?
    ensures HasRun(s.runs, req.runId)
    ensures RunAt(s.runs, req.runId).status == Active ==>
      FinishedMetres(FinishRun(s, req, now, fault).state.runs, userId)
        == FinishedMetres(s.runs, userId)
           + (if userId == RunAt(s.runs, req.runId).userId then MetresOf(req.distanceMicroKm) else 0)
  {
    var s' := FinishRun(s, req, now, fault).state;
    var p := req.runId - 1;
    assert s'.runs == s.runs[p := s'.runs[p]];
    FinishedMetresUpdate(s.runs, p, s'.runs[p], userId);
  }

  /** The finish handler has no status guard: finishing the same run twice
      credits the wallet twice and leaves two credit entries for that run,
      while the run row (and so the finished distance) counts it once. */
  lemma RefinishCreditsTwice(s: State, req: FinishRequest, now1: nat, now2: nat)
    requires req.finishedAt.Some? && HasRun(s.runs, req.runId)
    ensures var r1 := FinishRun(s, req, now1, None);
      var r2 := FinishRun(r1.state, req, now2, None);
      var user := RunAt(s.runs, req.runId).userId;
      var credit := CentiKmOf(req.distanceMicroKm);
      && r1.out.Success? && r2.out.Success?
      && Balance(r2.state.wallet, user) == Balance(s.wallet, user) + 2 * credit
      && r2.state.ledger == s.ledger + [CreditEntry(user, credit, req.runId, now1),
                                        CreditEntry(user, credit, req.runId, now2)]
      && r2.state.runs == r1.state.runs
  {
  }

  /** Appending an entry stamped no earlier than every existing one keeps the
      ledger chronological, so the history stays newest first. */
  lemma AppendKeepsChronological(ledger: seq<LedgerEntry>, e: LedgerEntry)
    requires Chronological(ledger)
    requires forall i :: 0 <= i < |ledger| ==> ledger[i].createdAt <= e.createdAt
    ensures Chronological(ledger + [e])
  {
  }

  /** Whether no ledger entry is stamped later than `t`. */
  predicate StampedBy(ledger: seq<LedgerEntry>, t: nat) {
    forall i :: 0 <= i < |ledger| ==> ledger[i].createdAt <= t
  }

  /** Whether a request's clock reading is not before `t` (a start has none). */
  predicate NotBefore(op: Op, t: nat) {
    op.StartOp? || op.now >= t
  }

  /** The latest clock reading after `op`, given `t` before it. */
  function ClockAfter(op: Op, t: nat): nat {
    if op.StartOp? then t else op.now
  }

  /** Whether the requests read a clock that never goes back, starting at `t`. */
  predicate ClockNeverGoesBack(ops: seq<Op>, t: nat)
    decreases |ops|
  {
    |ops| == 0 || (NotBefore(ops[0], t) && ClockNeverGoesBack(ops[1..], ClockAfter(ops[0], t)))
  }

  /** One request whose clock is not behind the ledger keeps it chronological. */
  lemma StepKeepsChronological(s: State, op: Op, t: nat)
    requires Chronological(s.ledger) && StampedBy(s.ledger, t)
    requires NotBefore(op, t)
    ensures Chronological(Step(s, op).ledger)
    ensures StampedBy(Step(s, op).ledger, ClockAfter(op, t))
  {
    match op
    case StartOp(u, st, f) =>
    case FinishOp(req, now, f) =>
      if FinishRun(s, req, now, f).out.Success? {
        AppendKeepsChronological(s.ledger,
          CreditEntry(RunAt(s.runs, req.runId).userId, CentiKmOf(req.distanceMicroKm), req.runId, now));
      }
    case DonateOp(u, c, a, now, f) =>
      if Donate(s, u, c, a, now, f).out.Success? {
        AppendKeepsChronological(s.ledger, DebitEntry(u, a, c, now));
      }
  }

  /** Requests reading a clock that never goes back keep the ledger
      chronological, which is what makes the donation history newest first. */
  lemma {:induction false} ReplayKeepsChronological(s: State, ops: seq<Op>, t: nat)
    requires Chronological(s.ledger) && StampedBy(s.ledger, t)
    requires ClockNeverGoesBack(ops, t)
    ensures Chronological(Replay(s, ops).ledger)
    decreases |ops|
  {
    if |ops| > 0 {
      StepKeepsChronological(s, ops[0], t);
      ReplayKeepsChronological(Step(s, ops[0]), ops[1..], ClockAfter(ops[0], t));
    }
  }

  /** A worked scenario from an empty store: user 1 starts run 1, finishes
      it after 5.555 km in 1800 s, and donates 2.00 km; any other donation
      of more than what is left is refused and changes nothing. */
  lemma StartFinishDonateScenario()
    ensures var start := StartRun(Empty, 1, Some("2025-03-05 07:00:00"), None);
      var finish := FinishRun(start.state,
        FinishRequest(1, Some("2025-03-05 07:30:00"), 5555000, 1800, None), 100, None);
      var donate := Donate(finish.state, 1, 2, 200, 200, None);
      var refused := Donate(donate.state, 1, 2, 400, 300, None);
      && start.out == Success(1)
      && finish.out == Success(FinishReceipt(556, 556))
      && RunAt(finish.state.runs, 1).totalDistanceM == Some(5555)
      && DayKey(1, "2025-03-05") in finish.state.daily
      && finish.state.daily[DayKey(1, "2025-03-05")] == DailyTotals(5555, 1800)
      && donate.out == Success(200)
      && 1 in donate.state.wallet && donate.state.wallet[1] == 356
      && |donate.state.ledger| == 2
      && donate.state.ledger[1] == DebitEntry(1, 200, 2, 200)
      && refused.out == Failure(InsufficientBalance)
      && refused.state == donate.state
  {
    var start := StartRun(Empty, 1, Some("2025-03-05 07:00:00"), None);
    var finish := FinishRun(start.state,
      FinishRequest(1, Some("2025-03-05 07:30:00"), 5555000, 1800, None), 100, None);
    assert DayOf("2025-03-05 07:30:00") == "2025-03-05";
    assert CentiKmOf(5555000) == 556;
    assert MetresOf(5555000) == 5555;
    assert finish.state.wallet[1] == 556;
  }
}
