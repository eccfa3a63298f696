/** The Trender program as a mutable ledger: one method per instruction that
    updates the accounts in place.  Each method is proved to commit exactly
    the transition of the corresponding `Ledger` function, or to leave every
    account unchanged when that function fails, and to keep `Ledger.Inv`. */
module Program {
  import opened Amm
  import opened Ledger
  import opened Effects
  import opened Invariants

  datatype Outcome = Done | Failed(error: Error)

  function OutcomeOf(r: Result<State>): Outcome {
    if r.Success? then Done else Failed(r.error)
  }

  /** All or nothing: `after` is the transition's new state when it succeeds
      and `before` when it fails, and `outcome` reports which. */
  ghost predicate Commits(before: State, r: Result<State>, outcome: Outcome, after: State) {
    outcome == OutcomeOf(r) && after == (if r.Success? then r.value else before)
  }

  class Trender {
    const rentFloor: nat
    const emptyRentFloor: nat
    var config: Option<Config>
    var treasury: nat
    var treasuryOwned: bool
    var pools: map<PoolKey, PostPool>
    var vaults: map<PoolKey, nat>
    var records: map<RecordKey, HypeRecord>
    var wallets: map<Pubkey, nat>

    function Snapshot(): State
      reads this
    {
      State(rentFloor, emptyRentFloor, config, treasury, treasuryOwned, pools, vaults, records, wallets)
    }

    ghost predicate Valid()
      reads this
    {
      Inv(Snapshot())
    }

    /** The accounts before the program's first instruction. */
    constructor (rentFloor: nat, emptyRentFloor: nat, wallets: map<Pubkey, nat>)
      ensures Valid() && Snapshot() == Genesis(rentFloor, emptyRentFloor, wallets)
    {
      this.rentFloor := rentFloor;
      this.emptyRentFloor := emptyRentFloor;
      config := None;
      treasury := 0;
      treasuryOwned := false;
      pools := map[];
      vaults := map[];
      records := map[];
      this.wallets := wallets;
    }

    method InitializeTreasury(payer: Pubkey) returns (outcome: Outcome)
      requires Valid()
      modifies this
      ensures Valid()
      ensures Commits(old(Snapshot()), Ledger.InitializeTreasury(old(Snapshot()), payer), outcome, Snapshot())
    {
      if config.Some? { return Failed(AccountAlreadyInUse); }
      var topUp := if treasury < rentFloor then rentFloor - treasury else 0;
      var funds := Lamports(wallets, payer);
      if funds < topUp { return Failed(InsufficientLamports); }
      ghost var before := Snapshot();
      config := Some(Config(payer));
      treasury := treasury + topUp;
      treasuryOwned := true;
      wallets := wallets[payer := funds - topUp];
      InitializeTreasurySucceeds(before, payer);
      assert Snapshot() == InitializeTreasuryApplied(before, payer);
      InitializeTreasuryKeepsInv(before, payer);
      return Done;
    }

    method InitializePost(creator: Pubkey, postId: U64, deposited: U128) returns (outcome: Outcome)
      requires Valid()
      modifies this
      ensures Valid()
      ensures Commits(old(Snapshot()), Ledger.InitializePost(old(Snapshot()), creator, postId, deposited), outcome, Snapshot())
    {
      var key := PoolKey(creator, postId);
      var funds := Lamports(wallets, creator);
      if key in pools { return Failed(AccountAlreadyInUse); }
      if funds < rentFloor { return Failed(InsufficientLamports); }
      if deposited == 0 { return Failed(InvalidDepositAmount); }
      if !FitsU64(deposited) { return Failed(AmountTooLarge); }
      // The deposit fits in u64, so neither the fee nor the HYPE reserve overflows u128.
      var fee := deposited * 2 / 100;
      var afterRent := funds - rentFloor;
      if afterRent < deposited || afterRent - deposited < fee { return Failed(InsufficientLamports); }
      if !TreasuryRentExempt(Snapshot(), treasury + fee) { return Failed(InsufficientFundsForRent); }
      ghost var before := Snapshot();
      SettlePost(creator, postId, deposited);
      InitializePostKeepsInv(before, creator, postId, deposited);
      InitializePostSucceeds(before, creator, postId, deposited);
      return Done;
    }

    /** Creates the pool and its vault and moves the deposit and the fee, once
        every check of initialize_post has passed. */
    method SettlePost(creator: Pubkey, postId: U64, deposited: U128)
      requires InitializePostAccepted(Snapshot(), creator, postId, deposited)
      modifies this
      ensures Snapshot() == InitializePostApplied(old(Snapshot()), creator, postId, deposited)
    {
      var key := PoolKey(creator, postId);
      var fee := deposited * 2 / 100;
      var reservedHype := deposited * HYPE_PER_LAMPORT;
      var creatorHype := reservedHype / 10;
      pools := pools[key := PostPool(creator, creatorHype, postId, deposited, reservedHype, creatorHype)];
      vaults := vaults[key := rentFloor + deposited];
      treasury := treasury + fee;
      wallets := wallets[creator := Lamports(wallets, creator) - rentFloor - deposited - fee];
    }

    method Hype(buyer: Pubkey, key: PoolKey, amount: U128, maxAcceptablePrice: U128) returns (outcome: Outcome)
      requires Valid()
      modifies this
      ensures Valid()
      ensures Commits(old(Snapshot()), Ledger.Hype(old(Snapshot()), buyer, key, amount, maxAcceptablePrice), outcome, Snapshot())
    {
      var recordKey := RecordKey(buyer, key);
      if key !in pools { return Failed(AccountNotInitialized); }
      if recordKey in records { return Failed(AccountAlreadyInUse); }
      var pool := pools[key];
      if amount < MIN_HYPE_TO_BUY { return Failed(InvalidHypeAmount); }
      if pool.reservedHype < amount { return Failed(InsufficientHypeReserve); }
      var quote := AmmPrice(pool.reservedSol, pool.reservedHype, amount);
      if quote.None? { return Failed(ArithmeticPanic); }
      var price := quote.value;
      if price > maxAcceptablePrice { return Failed(SlippageExceeded); }
      if !FitsU64(price) { return Failed(AmountTooLarge); }
      // The price fits in u64, so the fee computation cannot overflow.
      var fee := price * 5 / 1000;
      var funds := Lamports(wallets, buyer);
      if funds < price || funds - price < fee { return Failed(InsufficientLamports); }
      // reserved_sol + price is the curve's new SOL reserve, which fits in u128.
      if pool.totalHype + amount > U128_MAX { return Failed(ArithmeticPanic); }
      if !FitsU64(amount) { return Failed(AmountTooLarge); }
      // price / amount, the per-unit price reported in the event, is at most the price.
      DivAtMost(price, amount);
      if !TreasuryRentExempt(Snapshot(), treasury + fee) { return Failed(InsufficientFundsForRent); }
      ghost var before := Snapshot();
      SettleHype(buyer, key, amount, price);
      HypeKeepsInv(before, buyer, key, amount, price);
      HypeSucceeds(before, buyer, key, amount, maxAcceptablePrice);
      return Done;
    }

    /** Moves `price` from the buyer to the vault and its 0.5% fee to the
        treasury, shifts `amount` HYPE from the reserve into circulation and
        writes the buyer's record, once every check of hype has passed. */
    method SettleHype(buyer: Pubkey, key: PoolKey, amount: U128, price: nat)
      requires HypeSettles(Snapshot(), buyer, key, amount, price)
      requires RecordKey(buyer, key) !in records
      modifies this
      ensures Snapshot() == HypeApplied(old(Snapshot()), buyer, key, amount, price)
    {
      var pool := pools[key];
      var fee := price * 5 / 1000;
      wallets := wallets[buyer := Lamports(wallets, buyer) - price - fee];
      vaults := vaults[key := Lamports(vaults, key) + price];
      treasury := treasury + fee;
      pools := pools[key := pool.(reservedSol := pool.reservedSol + price,
                                  reservedHype := pool.reservedHype - amount,
                                  totalHype := pool.totalHype + amount)];
      records := records[RecordKey(buyer, key) := HypeRecord(buyer, key, amount)];
    }

    method Unhype(user: Pubkey, key: PoolKey, amount: U128, minAcceptableRefund: U128) returns (outcome: Outcome)
      requires Valid()
      modifies this
      ensures Valid()
      ensures Commits(old(Snapshot()), Ledger.Unhype(old(Snapshot()), user, key, amount, minAcceptableRefund), outcome, Snapshot())
    {
      var recordKey := RecordKey(user, key);
      if key !in pools || recordKey !in records { return Failed(AccountNotInitialized); }
      var pool := pools[key];
      var record := records[recordKey];
      if record.user != user { return Failed(ConstraintHasOne); }
      if amount < MIN_HYPE_TO_SELL { return Failed(InvalidHypeAmount); }
      if record.amount < amount { return Failed(InsufficientHypeBalance); }
      var quote := AmmRefund(pool.reservedSol, pool.reservedHype, amount);
      if quote.None? { return Failed(ArithmeticPanic); }
      // The refund never exceeds reserved_sol, so InsufficientSolReserve cannot arise.
      var refund := quote.value;
      if !FitsU64(refund) { return Failed(AmountTooLarge); }
      if refund < minAcceptableRefund { return Failed(SlippageExceeded); }
      var vault := Lamports(vaults, key);
      // The vault pays the refund in two parts, the seller's share and the fee,
      // which together are the refund.
      if vault < refund { return Failed(ArithmeticPanic); }
      if pool.totalHype < amount { return Failed(ArithmeticPanic); }
      if !FitsU64(amount) { return Failed(AmountTooLarge); }
      // refund / amount, the per-unit refund reported in the event, is at most the refund.
      DivAtMost(refund, amount);
      var fee := refund * 5 / 1000;
      if 0 < vault - refund < rentFloor || !TreasuryRentExempt(Snapshot(), treasury + fee) {
        return Failed(InsufficientFundsForRent);
      }
      ghost var before := Snapshot();
      SettleUnhype(user, key, amount, refund);
      UnhypeKeepsInv(before, user, key, amount, refund);
      UnhypeSucceeds(before, user, key, amount, minAcceptableRefund);
      return Done;
    }

    /** Pays `refund` out of the vault, less its 0.5% fee to the seller and
        the fee to the treasury, returns `amount` HYPE to the reserve and
        lowers the seller's record, once every check of unhype has passed. */
    method SettleUnhype(user: Pubkey, key: PoolKey, amount: U128, refund: nat)
      requires UnhypeSettles(Snapshot(), user, key, amount, refund)
      modifies this
      ensures Snapshot() == UnhypeApplied(old(Snapshot()), user, key, amount, refund)
    {
      var recordKey := RecordKey(user, key);
      var pool := pools[key];
      var record := records[recordKey];
      var fee := refund * 5 / 1000;
      vaults := vaults[key := Lamports(vaults, key) - refund];
      wallets := Credit(wallets, user, refund - fee);
      treasury := treasury + fee;
      pools := pools[key := pool.(reservedSol := pool.reservedSol - refund,
                                  reservedHype := pool.reservedHype + amount,
                                  totalHype := pool.totalHype - amount)];
      records := records[recordKey := record.(amount := record.amount - amount)];
    }

    method CreatorReleaseHype(user: Pubkey, key: PoolKey, amount: U128) returns (outcome: Outcome)
      requires Valid()
      modifies this
      ensures Valid()
      ensures Commits(old(Snapshot()), Ledger.CreatorReleaseHype(old(Snapshot()), user, key, amount), outcome, Snapshot())
    {
      if key !in pools { return Failed(AccountNotInitialized); }
      var pool := pools[key];
      if user != pool.creator { return Failed(Unauthorized); }
      if amount == 0 { return Failed(InvalidHypeAmount); }
      if pool.creatorHypeBalance < amount { return Failed(InsufficientHypeBalance); }
      if !FitsU64(amount) { return Failed(AmountTooLarge); }
      var quote := AmmPrice(pool.reservedSol, pool.reservedHype, amount);
      if quote.None? { return Failed(ArithmeticPanic); }
      var payout := quote.value;
      if !FitsU64(payout) { return Failed(AmountTooLarge); }
      if pool.reservedSol < payout { return Failed(InsufficientSolReserve); }
      var vault := Lamports(vaults, key);
      if vault < payout { return Failed(ArithmeticPanic); }
      if pool.totalHype < amount { return Failed(ArithmeticPanic); }
      if pool.reservedHype + amount > U128_MAX { return Failed(ArithmeticPanic); }
      // payout / amount, the per-unit payout reported in the event, is at most the payout.
      if 0 < vault - payout < rentFloor { return Failed(InsufficientFundsForRent); }
      ghost var before := Snapshot();
      SettleRelease(user, key, amount, payout);
      CreatorReleaseHypeKeepsInv(before, user, key, amount, payout);
      CreatorReleaseHypeSucceeds(before, user, key, amount);
      return Done;
    }

    /** Pays `payout` out of the vault to the creator and moves `amount` HYPE
        from the creator's bonus back into the reserve, once every check of
        creator_release_hype has passed. */
    method SettleRelease(user: Pubkey, key: PoolKey, amount: U128, payout: nat)
      requires CreatorReleaseHypeSettles(Snapshot(), user, key, amount, payout)
      modifies this
      ensures Snapshot() == CreatorReleaseHypeApplied(old(Snapshot()), user, key, amount, payout)
    {
      var pool := pools[key];
      vaults := vaults[key := Lamports(vaults, key) - payout];
      wallets := Credit(wallets, user, payout);
      pools := pools[key := pool.(creatorHypeBalance := pool.creatorHypeBalance - amount,
                                  totalHype := pool.totalHype - amount,
                                  reservedSol := pool.reservedSol - payout,
                                  reservedHype := pool.reservedHype + amount)];
    }

    method WithdrawTreasury(authority: Pubkey, recipient: Pubkey, amount: U64) returns (outcome: Outcome)
      requires Valid()
      modifies this
      ensures Valid()
      ensures Commits(old(Snapshot()), Ledger.WithdrawTreasury(old(Snapshot()), authority, recipient, amount), outcome, Snapshot())
    {
      if config.None? { return Failed(AccountNotInitialized); }
      if config.value.admin != authority { return Failed(Unauthorized); }
      if treasury < amount { return Failed(ArithmeticPanic); }
      if !treasuryOwned && amount > 0 { return Failed(ExternalAccountLamportSpend); }
      if !TreasuryRentExempt(Snapshot(), treasury - amount) { return Failed(InsufficientFundsForRent); }
      ghost var before := Snapshot();
      treasuryOwned := treasuryOwned && treasury > amount;
      treasury := treasury - amount;
      wallets := Credit(wallets, recipient, amount);
      WithdrawTreasurySucceeds(before, authority, recipient, amount);
      assert Snapshot() == WithdrawTreasuryApplied(before, authority, recipient, amount);
      WithdrawTreasuryKeepsInv(before, authority, recipient, amount);
      return Done;
    }
  }
}
