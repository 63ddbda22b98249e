/** The ledger as the source of truth for wallet balances: signed sums of
    a user's entries, and the invariant that every wallet equals them. */
module Ledger {
  import opened Results
  import opened Store

  /** The entry's effect on `userId`'s balance: its amount for a credit, the
      negated amount for a debit, nothing for another user's entry. */
  function Signed(e: LedgerEntry, userId: UserId): int {
    if e.userId != userId then 0
    else match e.kind
      case Credit => e.amountCentiKm
      case Debit => -e.amountCentiKm
  }

  /** The signed sum of all of `userId`'s entries. */
  function Net(ledger: seq<LedgerEntry>, userId: UserId): int
    decreases |ledger|
  {
    if |ledger| == 0 then 0
    else Net(ledger[..|ledger| - 1], userId) + Signed(ledger[|ledger| - 1], userId)
  }

  /** The sum of `userId`'s credit amounts. */
  function Credits(ledger: seq<LedgerEntry>, userId: UserId): int
    decreases |ledger|
  {
    if |ledger| == 0 then 0
    else
      var e := ledger[|ledger| - 1];
      Credits(ledger[..|ledger| - 1], userId)
        + (if e.userId == userId && e.kind == Credit then e.amountCentiKm else 0)
  }

  /** The sum of `userId`'s debit amounts: the `donated_km` of the summary. */
  function Debits(ledger: seq<LedgerEntry>, userId: UserId): int
    decreases |ledger|
  {
    if |ledger| == 0 then 0
    else
      var e := ledger[|ledger| - 1];
      Debits(ledger[..|ledger| - 1], userId)
        + (if e.userId == userId && e.kind == Debit then e.amountCentiKm else 0)
  }

  /** Appending one entry moves each user's net by that entry's signed amount. */
  lemma NetAppend(ledger: seq<LedgerEntry>, e: LedgerEntry, userId: UserId)
    ensures Net(ledger + [e], userId) == Net(ledger, userId) + Signed(e, userId)
  {
  }

  /** The net is the credits minus the debits. */
  lemma {:induction false} NetIsCreditsMinusDebits(ledger: seq<LedgerEntry>, userId: UserId)
    ensures Net(ledger, userId) == Credits(ledger, userId) - Debits(ledger, userId)
    decreases |ledger|
  {
    if |ledger| > 0 {
      NetIsCreditsMinusDebits(ledger[..|ledger| - 1], userId);
    }
  }

  /** A user with no entries has a net of zero. */
  lemma {:induction false} NetWithoutEntries(ledger: seq<LedgerEntry>, userId: UserId)
    requires forall i :: 0 <= i < |ledger| ==> ledger[i].userId != userId
    ensures Net(ledger, userId) == 0
    decreases |ledger|
  {
    if |ledger| > 0 {
      NetWithoutEntries(ledger[..|ledger| - 1], userId);
    }
  }

  /** The core invariant: every wallet row holds exactly its user's ledger
      net, and no ledger entry belongs to a user without a wallet row. */
  predicate WalletMatchesLedger(s: State) {
    && (forall u :: u in s.wallet ==> s.wallet[u] == Net(s.ledger, u))
    && (forall i :: 0 <= i < |s.ledger| ==> s.ledger[i].userId in s.wallet)
  }

  /** Whenever the wallets match the ledger, every user's balance (zero
      without a wallet) is that user's credits minus debits. */
  lemma BalanceIsCreditsMinusDebits(s: State, userId: UserId)
    ensures WalletMatchesLedger(s) ==>
      Balance(s.wallet, userId) == Credits(s.ledger, userId) - Debits(s.ledger, userId)
  {
    if WalletMatchesLedger(s) {
      NetIsCreditsMinusDebits(s.ledger, userId);
      if userId !in s.wallet {
        NetWithoutEntries(s.ledger, userId);
      }
    }
  }

  /** Whether one committed transaction moved the balances exactly as the
      single entry it appended says: `s'` has one more ledger entry `e`, and
      each user's balance changed by `Signed(e, user)`. */
  ghost predicate PairedWithOneEntry(s: State, s': State, e: LedgerEntry) {
    && s'.ledger == s.ledger + [e]
    && s.wallet.Keys <= s'.wallet.Keys
    && e.userId in s'.wallet
    && (forall u :: Balance(s'.wallet, u) == Balance(s.wallet, u) + Signed(e, u))
  }

  /** A transaction that pairs its wallet change with its one new entry keeps
      the wallet equal to the ledger. */
  lemma PairingPreservesInvariant(s: State, s': State, e: LedgerEntry)
    requires WalletMatchesLedger(s)
    requires PairedWithOneEntry(s, s', e)
    requires s'.wallet.Keys <= s.wallet.Keys + {e.userId}
    ensures WalletMatchesLedger(s')
  {
    forall u | u in s'.wallet
      ensures s'.wallet[u] == Net(s'.ledger, u)
    {
      NetAppend(s.ledger, e, u);
      assert Balance(s'.wallet, u) == Balance(s.wallet, u) + Signed(e, u);
      if u !in s.wallet {
        assert u == e.userId;
        NetWithoutEntries(s.ledger, u);
      }
    }
    forall i | 0 <= i < |s'.ledger|
      ensures s'.ledger[i].userId in s'.wallet
    {
      if i < |s.ledger| {
        assert s'.ledger[i] == s.ledger[i];
      }
    }
  }
}
