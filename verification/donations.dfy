/** The donation handlers: the donate transaction, the recent-donation
    history and the total summary. */
module Donations {
  import opened Results
  import opened Store
  import opened Ledger
  import opened FixedPoint

  /** The statements the donate transaction executes when the balance suffices. */
  const DonatePath: set<Stmt> := {BeginTx, SelectWallet, UpdateWallet, InsertLedger, CommitTx}

  /** The statements executed up to and including reading the balance. */
  const DonateCheckPath: set<Stmt> := {BeginTx, SelectWallet}

  /** The memo of every debit entry. */
  const DonationMemo: string := "Campaign donation"

  /** The number of entries the history shows (`LIMIT 5`). */
  const HistoryLimit: nat := 5

  /** The debit entry appended for a donation; it refers to a campaign and
      never to a run. */
  function DebitEntry(userId: UserId, amount: int, campaignId: CampaignId, now: nat): LedgerEntry {
    LedgerEntry(userId, Debit, amount, None, Some(campaignId), DonationMemo, now)
  }

  /** Whether the donate guard lets a donation of `amount` through: the user
      has a wallet row holding at least that much. */
  predicate CanDonate(wallet: map<UserId, int>, userId: UserId, amount: int) {
    userId in wallet && wallet[userId] >= amount
  }

  /** The donate transaction's statements against a working copy. */
  function DonateTx(s: State, userId: UserId, campaignId: CampaignId, amount: int, now: nat,
                    fault: Option<Stmt>): Result<(State, int), Error>
  {
    if Throws(fault, BeginTx) then Failure(StoreFailure(BeginTx))
    else if Throws(fault, SelectWallet) then Failure(StoreFailure(SelectWallet))
    else if userId !in s.wallet || s.wallet[userId] < amount then Failure(InsufficientBalance)
    else if Throws(fault, UpdateWallet) then Failure(StoreFailure(UpdateWallet))
    else
      var wallet := AdjustWallet(s.wallet, userId, -amount);
      if Throws(fault, InsertLedger) then Failure(StoreFailure(InsertLedger))
      else
        var ledger := s.ledger + [DebitEntry(userId, amount, campaignId, now)];
        if Throws(fault, CommitTx) then Failure(StoreFailure(CommitTx))
        else Success((s.(wallet := wallet, ledger := ledger), amount))
  }

  /** Donate `amount` (hundredths of a kilometre) to a campaign: commit the
      debit and its ledger entry together, or roll back. */
  function Donate(s: State, userId: UserId, campaignId: CampaignId, amount: int, now: nat,
                  fault: Option<Stmt>): (r: Reply<int>)
    // rollback: a failed donation leaves every table as it was
    ensures r.out.Failure? ==> r.state == s
    ensures r.out.Success? <==> CanDonate(s.wallet, userId, amount) && Survives(fault, DonatePath)
    ensures !CanDonate(s.wallet, userId, amount) && Survives(fault, DonateCheckPath) ==>
      r.out == Failure(InsufficientBalance)
    ensures CanDonate(s.wallet, userId, amount) && !Survives(fault, DonatePath) ==>
      r.out == Failure(StoreFailure(fault.value))
    ensures r.out.Success? ==>
      && userId in r.state.wallet
      && r.state.wallet[userId] == s.wallet[userId] - amount
      && r.state.wallet[userId] >= 0
      && r.state.wallet - {userId} == s.wallet - {userId}
      && r.state.wallet.Keys == s.wallet.Keys
      && r.state.ledger == s.ledger + [DebitEntry(userId, amount, campaignId, now)]
      && r.state.runs == s.runs
      && r.state.daily == s.daily
      && r.out.value == amount
  {
    match DonateTx(s, userId, campaignId, amount, now, fault)
    case Success((committed, donated)) => Reply(committed, Success(donated))
    case Failure(e) => Reply(s, Failure(e))
  }

  /** Whether entry `e` is one of `userId`'s donations. */
  predicate IsDebitOf(e: LedgerEntry, userId: UserId) {
    e.userId == userId && e.kind == Debit
  }

  /** The number of `userId`'s donations in `ledger`. */
  function DebitCount(ledger: seq<LedgerEntry>, userId: UserId): nat
    decreases |ledger|
  {
    if |ledger| == 0 then 0
    else (if IsDebitOf(ledger[0], userId) then 1 else 0) + DebitCount(ledger[1..], userId)
  }

  function Min(a: int, b: int): int {
    if a <= b then a else b
  }

  /** The positions at or after `from` of `userId`'s donations, newest
      (highest position) first. */
  function DebitPositionsFrom(ledger: seq<LedgerEntry>, userId: UserId, from: nat): seq<nat>
    requires from <= |ledger|
    decreases |ledger| - from
  {
    if from == |ledger| then []
    else DebitPositionsFrom(ledger, userId, from + 1)
           + (if IsDebitOf(ledger[from], userId) then [from] else [])
  }

  /** The reference list holds exactly the user's donations at or after
      `from`, once each, in strictly decreasing order. */
  lemma {:induction false} DebitPositionsFromFacts(ledger: seq<LedgerEntry>, userId: UserId, from: nat)
    requires from <= |ledger|
    ensures var ps := DebitPositionsFrom(ledger, userId, from);
      && |ps| == DebitCount(ledger[from..], userId)
      && (forall k :: 0 <= k < |ps| ==> from <= ps[k] < |ledger| && IsDebitOf(ledger[ps[k]], userId))
      && (forall k, l :: 0 <= k < l < |ps| ==> ps[k] > ps[l])
      && (forall j :: from <= j < |ledger| && IsDebitOf(ledger[j], userId) ==> j in ps)
    decreases |ledger| - from
  {
    if from < |ledger| {
      DebitPositionsFromFacts(ledger, userId, from + 1);
      assert ledger[from..][1..] == ledger[from + 1..];
    }
  }

  /** The first `HistoryLimit` positions of a newest-first list. */
  function Newest(ps: seq<nat>): (r: seq<nat>)
    ensures |r| == Min(HistoryLimit, |ps|)
  {
    if |ps| <= HistoryLimit then ps else ps[..HistoryLimit]
  }

  /** The positions of `userId`'s most recent donations, newest first, at
      most `HistoryLimit` of them: the selection
      `WHERE user_id=? AND type='debit' ORDER BY created_at DESC LIMIT 5`,
      with the ledger's order as the order of creation. */
  method RecentDebitPositions(ledger: seq<LedgerEntry>, userId: UserId) returns (picked: seq<nat>)
    ensures |picked| == Min(HistoryLimit, DebitCount(ledger, userId))
    ensures forall k :: 0 <= k < |picked| ==> picked[k] < |ledger| && IsDebitOf(ledger[picked[k]], userId)
    ensures forall k, l :: 0 <= k < l < |picked| ==> picked[k] > picked[l]
    ensures forall i :: 0 <= i < |ledger| && IsDebitOf(ledger[i], userId) && i !in picked ==>
      |picked| == HistoryLimit && i < picked[|picked| - 1]
  {
    picked := [];
    var i := |ledger|;
    while i > 0
      invariant 0 <= i <= |ledger|
      invariant picked == Newest(DebitPositionsFrom(ledger, userId, i))
    {
      i := i - 1;
      if IsDebitOf(ledger[i], userId) && |picked| < HistoryLimit {
        picked := picked + [i];
      }
    }
    var all := DebitPositionsFrom(ledger, userId, 0);
    DebitPositionsFromFacts(ledger, userId, 0);
    assert ledger[0..] == ledger;
    forall j | 0 <= j < |ledger| && IsDebitOf(ledger[j], userId) && j !in picked
      ensures |picked| == HistoryLimit && j < picked[|picked| - 1]
    {
      var m :| 0 <= m < |all| && all[m] == j;
      assert |all| > HistoryLimit;
      assert m >= HistoryLimit;
    }
  }

  /** One line of the donation history: when, and how far (hundredths of a km). */
  datatype Donation = Donation(createdAt: nat, amountCentiKm: int)

  /** The history line of a ledger entry. */
  function AsDonation(e: LedgerEntry): Donation {
    Donation(e.createdAt, e.amountCentiKm)
  }

  /** The recent-donation history: the entries `RecentDebitPositions` picks,
      shown as their creation time and amount. `picked` are the ledger
      positions of the lines, one per line. */
  method RecentDonations(ledger: seq<LedgerEntry>, userId: UserId)
    returns (history: seq<Donation>, picked: seq<nat>)
    ensures |history| == |picked| == Min(HistoryLimit, DebitCount(ledger, userId))
    ensures forall k :: 0 <= k < |picked| ==>
      picked[k] < |ledger| && IsDebitOf(ledger[picked[k]], userId)
      && history[k] == AsDonation(ledger[picked[k]])
    ensures forall k, l :: 0 <= k < l < |picked| ==> picked[k] > picked[l]
    ensures forall i :: 0 <= i < |ledger| && IsDebitOf(ledger[i], userId) && i !in picked ==>
      |picked| == HistoryLimit && i < picked[|picked| - 1]
    ensures Chronological(ledger) ==>
      forall k, l :: 0 <= k < l < |history| ==> history[k].createdAt >= history[l].createdAt
  {
    picked := RecentDebitPositions(ledger, userId);
    history := seq(|picked|, k requires 0 <= k < |picked| => AsDonation(ledger[picked[k]]));
  }

  /** Whether the ledger's creation times never decrease, as with a store
      clock that does not run backwards. */
  predicate Chronological(ledger: seq<LedgerEntry>) {
    forall i, j :: 0 <= i < j < |ledger| ==> ledger[i].createdAt <= ledger[j].createdAt
  }

  /** The summary's figures, each in hundredths of a kilometre. */
  datatype SummaryFigures = SummaryFigures(totalDistanceCentiKm: int, donatedCentiKm: int,
                                           availableCentiKm: int)

  /** What one run adds to `userId`'s finished distance. */
  function FinishedMetresOf(run: Run, userId: UserId): int {
    if run.userId == userId && run.status == Finished then run.totalDistanceM.GetOr(0) else 0
  }

  /** The metres of `userId`'s finished runs:
      `SUM(total_distance_m) ... WHERE user_id=? AND status='finished'`. */
  function FinishedMetres(runs: seq<Run>, userId: UserId): int
    decreases |runs|
  {
    if |runs| == 0 then 0
    else FinishedMetres(runs[..|runs| - 1], userId) + FinishedMetresOf(runs[|runs| - 1], userId)
  }

  /** The total summary: finished distance, donated distance and balance.
      A user without a wallet row has no balance row to read, and the
      handler fails reading it. While the wallets match the ledger, the
      available distance is everything credited minus everything donated. */
  function Summary(s: State, userId: UserId): (r: Result<SummaryFigures, Error>)
    ensures r.Failure? <==> userId !in s.wallet
    ensures r.Failure? ==> r.error == MissingWallet
    ensures r.Success? && FinishedMetres(s.runs, userId) >= 0 ==>
      -MetresPerCentiKm <= 2 * (FinishedMetres(s.runs, userId) - MetresPerCentiKm * r.value.totalDistanceCentiKm)
        < MetresPerCentiKm
    ensures r.Success? && FinishedMetres(s.runs, userId) < 0 ==>
      -MetresPerCentiKm < 2 * (FinishedMetres(s.runs, userId) - MetresPerCentiKm * r.value.totalDistanceCentiKm)
        <= MetresPerCentiKm
    ensures r.Success? ==> r.value.donatedCentiKm == Debits(s.ledger, userId)
    ensures r.Success? && WalletMatchesLedger(s) ==>
      r.value.availableCentiKm == Credits(s.ledger, userId) - r.value.donatedCentiKm
  {
    if userId !in s.wallet then Failure(MissingWallet)
    else
      BalanceIsCreditsMinusDebits(s, userId);
      Success(SummaryFigures(CentiKmOfMetres(FinishedMetres(s.runs, userId)),
                             Debits(s.ledger, userId), s.wallet[userId]))
  }

  /** Replacing one run row changes a finished-distance sum by exactly the
      difference between the two rows' contributions. */
  lemma {:induction false} FinishedMetresUpdate(runs: seq<Run>, p: int, run: Run, userId: UserId)
    requires 0 <= p < |runs|
    ensures FinishedMetres(runs[p := run], userId)
         == FinishedMetres(runs, userId) - FinishedMetresOf(runs[p], userId) + FinishedMetresOf(run, userId)
    decreases |runs|
  {
    var n := |runs| - 1;
    if p < n {
      assert runs[p := run][..n] == runs[..n][p := run];
      FinishedMetresUpdate(runs[..n], p, run, userId);
    } else {
      assert runs[p := run][..n] == runs[..n];
    }
  }
}
