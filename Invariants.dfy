/** The accounting invariant `Ledger.Inv` holds in the genesis state and is
    preserved by every successful instruction. */
module Invariants {
  import opened Amm
  import opened Ledger
  import opened Effects

  // ---------------------------------------------------------------------------
  // The sum of a pool's record amounts

  /** `Held` does not depend on which record it picks first. */
  lemma {:induction false} HeldRemove(records: map<RecordKey, HypeRecord>, k: RecordKey, p: PoolKey)
    requires k in records
    ensures Held(records, p) == Share(records, k, p) + Held(records - {k}, p)
    decreases |records|
  {
    var j :| j in records && Held(records, p) == Share(records, j, p) + Held(records - {j}, p);
    if j != k {
      assert Share(records - {j}, k, p) == Share(records, k, p);
      assert Share(records - {k}, j, p) == Share(records, j, p);
      HeldRemove(records - {j}, k, p);
      HeldRemove(records - {k}, j, p);
      assert records - {j} - {k} == records - {k} - {j};
    }
  }

  /** A pool none of whose buyers holds a record has nothing held. */
  lemma {:induction false} HeldNone(records: map<RecordKey, HypeRecord>, p: PoolKey)
    requires forall k :: k in records ==> k.pool != p
    ensures Held(records, p) == 0
    decreases |records|
  {
    if records != map[] {
      var j :| j in records && Held(records, p) == Share(records, j, p) + Held(records - {j}, p);
      assert Share(records, j, p) == 0;
      HeldNone(records - {j}, p);
    }
  }

  /** Writing record `k` changes what pool `p` holds by the difference of
      the new and the old share. */
  lemma HeldUpdate(records: map<RecordKey, HypeRecord>, k: RecordKey, r: HypeRecord, p: PoolKey)
    ensures Held(records[k := r], p) + (if k in records then Share(records, k, p) else 0)
         == Held(records, p) + (if k.pool == p then r.amount else 0)
  {
    HeldRemove(records[k := r], k, p);
    assert records[k := r] - {k} == records - {k};
    if k in records {
      HeldRemove(records, k, p);
    } else {
      assert records - {k} == records;
    }
  }

  // ---------------------------------------------------------------------------
  // Preservation

  lemma GenesisInv(rentFloor: nat, emptyRentFloor: nat, wallets: map<Pubkey, nat>)
    ensures Inv(Genesis(rentFloor, emptyRentFloor, wallets))
  {
  }

  /** Each instruction's reference effect keeps the invariant. */

  lemma InitializeTreasuryKeepsInv(s: State, payer: Pubkey)
    requires Inv(s) && InitializeTreasuryAccepted(s, payer)
    ensures Inv(InitializeTreasuryApplied(s, payer))
  {
  }

  lemma InitializePostKeepsInv(s: State, creator: Pubkey, postId: U64, deposited: U128)
    requires Inv(s) && InitializePostAccepted(s, creator, postId, deposited)
    ensures Inv(InitializePostApplied(s, creator, postId, deposited))
  {
    var t := InitializePostApplied(s, creator, postId, deposited);
    HeldNone(s.records, PoolKey(creator, postId));
    forall p | p in t.pools
      ensures p in t.vaults && PoolOk(t, p)
    {
    }
  }

  lemma HypeKeepsInv(s: State, buyer: Pubkey, key: PoolKey, amount: U128, price: nat)
    requires Inv(s) && HypeSettles(s, buyer, key, amount, price)
    requires RecordKey(buyer, key) !in s.records
    ensures Inv(HypeApplied(s, buyer, key, amount, price))
  {
    var t := HypeApplied(s, buyer, key, amount, price);
    forall p | p in t.pools
      ensures p in t.vaults && PoolOk(t, p)
    {
      HeldUpdate(s.records, RecordKey(buyer, key), HypeRecord(buyer, key, amount), p);
    }
  }

  lemma UnhypeKeepsInv(s: State, user: Pubkey, key: PoolKey, amount: U128, refund: nat)
    requires Inv(s) && UnhypeSettles(s, user, key, amount, refund)
    ensures Inv(UnhypeApplied(s, user, key, amount, refund))
  {
    var t := UnhypeApplied(s, user, key, amount, refund);
    var recordKey := RecordKey(user, key);
    var record := s.records[recordKey];
    assert t.records == s.records[recordKey := record.(amount := record.amount - amount)];
    forall k | k in t.records
      ensures RecordOk(t, k)
    {
      assert RecordOk(s, k);
    }
    forall p | p in t.pools
      ensures p in t.vaults && PoolOk(t, p)
    {
      HeldUpdate(s.records, recordKey, record.(amount := record.amount - amount), p);
    }
  }

  lemma CreatorReleaseHypeKeepsInv(s: State, user: Pubkey, key: PoolKey, amount: U128, payout: nat)
    requires Inv(s) && CreatorReleaseHypeSettles(s, user, key, amount, payout)
    ensures Inv(CreatorReleaseHypeApplied(s, user, key, amount, payout))
  {
  }

  lemma WithdrawTreasuryKeepsInv(s: State, authority: Pubkey, recipient: Pubkey, amount: U64)
    requires Inv(s) && WithdrawTreasuryAccepted(s, authority, amount)
    ensures Inv(WithdrawTreasuryApplied(s, authority, recipient, amount))
  {
  }

  /** Hence every successful instruction keeps the invariant. */

  lemma InitializeTreasuryPreservesInv(s: State, payer: Pubkey)
    requires Inv(s) && InitializeTreasury(s, payer).Success?
    ensures Inv(InitializeTreasury(s, payer).value)
  {
    InitializeTreasuryEffect(s, payer);
    InitializeTreasuryKeepsInv(s, payer);
  }

  lemma InitializePostPreservesInv(s: State, creator: Pubkey, postId: U64, deposited: U128)
    requires Inv(s) && InitializePost(s, creator, postId, deposited).Success?
    ensures Inv(InitializePost(s, creator, postId, deposited).value)
  {
    InitializePostEffect(s, creator, postId, deposited);
    InitializePostKeepsInv(s, creator, postId, deposited);
  }

  lemma HypePreservesInv(s: State, buyer: Pubkey, key: PoolKey, amount: U128, maxAcceptablePrice: U128)
    requires Inv(s) && Hype(s, buyer, key, amount, maxAcceptablePrice).Success?
    ensures Inv(Hype(s, buyer, key, amount, maxAcceptablePrice).value)
  {
    HypeEffect(s, buyer, key, amount, maxAcceptablePrice);
    HypeKeepsInv(s, buyer, key, amount, HypePrice(s, key, amount));
  }

  lemma UnhypePreservesInv(s: State, user: Pubkey, key: PoolKey, amount: U128, minAcceptableRefund: U128)
    requires Inv(s) && Unhype(s, user, key, amount, minAcceptableRefund).Success?
    ensures Inv(Unhype(s, user, key, amount, minAcceptableRefund).value)
  {
    UnhypeEffect(s, user, key, amount, minAcceptableRefund);
    UnhypeKeepsInv(s, user, key, amount, UnhypeRefund(s, key, amount));
  }

  lemma CreatorReleaseHypePreservesInv(s: State, user: Pubkey, key: PoolKey, amount: U128)
    requires Inv(s) && CreatorReleaseHype(s, user, key, amount).Success?
    ensures Inv(CreatorReleaseHype(s, user, key, amount).value)
  {
    CreatorReleaseHypeEffect(s, user, key, amount);
    CreatorReleaseHypeKeepsInv(s, user, key, amount, HypePrice(s, key, amount));
  }

  lemma WithdrawTreasuryPreservesInv(s: State, authority: Pubkey, recipient: Pubkey, amount: U64)
    requires Inv(s) && WithdrawTreasury(s, authority, recipient, amount).Success?
    ensures Inv(WithdrawTreasury(s, authority, recipient, amount).value)
  {
    WithdrawTreasuryEffect(s, authority, recipient, amount);
    WithdrawTreasuryKeepsInv(s, authority, recipient, amount);
  }
}
