/** A declarative reference for each instruction: `XAccepted` says exactly
    when it succeeds and `XApplied` gives the accounts it leaves behind.
    `XEffect` and `XSucceeds` prove the step-by-step functions of `Ledger`
    agree with the reference in both directions. */
module Effects {
  import opened Amm
  import opened Ledger

  // ---------------------------------------------------------------------------
  // initialize_treasury

  /** Lamports the payer adds so the treasury reaches its rent floor. */
  function TreasuryTopUp(s: State): nat {
    if s.treasury < s.rentFloor then s.rentFloor - s.treasury else 0
  }

  predicate InitializeTreasuryAccepted(s: State, payer: Pubkey) {
    s.config.None? && Lamports(s.wallets, payer) >= TreasuryTopUp(s)
  }

  /** The payer becomes admin, and the treasury becomes the program's and is
      topped up to its rent floor at the payer's expense. */
  function InitializeTreasuryApplied(s: State, payer: Pubkey): State
    requires InitializeTreasuryAccepted(s, payer)
  {
    s.(config := Some(Config(payer)),
       treasury := s.treasury + TreasuryTopUp(s),
       treasuryOwned := true,
       wallets := s.wallets[payer := Lamports(s.wallets, payer) - TreasuryTopUp(s)])
  }

  lemma InitializeTreasuryEffect(s: State, payer: Pubkey)
    requires InitializeTreasury(s, payer).Success?
    ensures InitializeTreasuryAccepted(s, payer)
    ensures InitializeTreasury(s, payer).value == InitializeTreasuryApplied(s, payer)
    ensures InitializeTreasury(s, payer).value.treasury >= s.rentFloor
  {
  }

  lemma InitializeTreasurySucceeds(s: State, payer: Pubkey)
    requires InitializeTreasuryAccepted(s, payer)
    ensures InitializeTreasury(s, payer) == Success(InitializeTreasuryApplied(s, payer))
  {
  }

  // ---------------------------------------------------------------------------
  // initialize_post

  /** Every check of initialize_post passes but the runtime's rent check on
      the treasury. */
  predicate InitializePostChecksPass(s: State, creator: Pubkey, postId: U64, deposited: U128) {
    && PoolKey(creator, postId) !in s.pools
    && 0 < deposited <= U64_MAX
    && Lamports(s.wallets, creator) >= s.rentFloor + deposited + deposited * 2 / 100
  }

  predicate InitializePostAccepted(s: State, creator: Pubkey, postId: U64, deposited: U128) {
    && InitializePostChecksPass(s, creator, postId, deposited)
    && TreasuryRentExempt(s, s.treasury + deposited * 2 / 100)
  }

  /** A pool with reserved_sol = D, reserved_hype = 10 D and
      creator_hype_balance = total_hype = D, a vault holding its rent floor
      plus D, and a 2% fee in the treasury; the creator pays all three. */
  function InitializePostApplied(s: State, creator: Pubkey, postId: U64, deposited: U128): State
    requires InitializePostAccepted(s, creator, postId, deposited)
  {
    var key := PoolKey(creator, postId);
    var fee := deposited * 2 / 100;
    s.(pools := s.pools[key := PostPool(creator, deposited, postId, deposited,
                                        HYPE_PER_LAMPORT * deposited, deposited)],
       vaults := s.vaults[key := s.rentFloor + deposited],
       treasury := s.treasury + fee,
       wallets := s.wallets[creator := Lamports(s.wallets, creator) - s.rentFloor - deposited - fee])
  }

  lemma InitializePostEffect(s: State, creator: Pubkey, postId: U64, deposited: U128)
    requires InitializePost(s, creator, postId, deposited).Success?
    ensures InitializePostAccepted(s, creator, postId, deposited)
    ensures InitializePost(s, creator, postId, deposited).value
         == InitializePostApplied(s, creator, postId, deposited)
  {
    assert InitializePostAccepted(s, creator, postId, deposited);
    InitializePostSucceeds(s, creator, postId, deposited);
  }

  lemma InitializePostSucceeds(s: State, creator: Pubkey, postId: U64, deposited: U128)
    requires InitializePostAccepted(s, creator, postId, deposited)
    ensures InitializePost(s, creator, postId, deposited)
         == Success(InitializePostApplied(s, creator, postId, deposited))
  {
  }

  // ---------------------------------------------------------------------------
  // hype

  /** Every check of hype passes but the runtime's rent check on the
      treasury. */
  predicate HypeChecksPass(s: State, buyer: Pubkey, key: PoolKey, amount: U128, maxAcceptablePrice: U128) {
    && key in s.pools && RecordKey(buyer, key) !in s.records
    && MIN_HYPE_TO_BUY <= amount
    && AmmPrice(s.pools[key].reservedSol, s.pools[key].reservedHype, amount).Some?
    && var pool := s.pools[key];
       var price := AmmPrice(pool.reservedSol, pool.reservedHype, amount).value;
       && price <= maxAcceptablePrice && FitsU64(price)
       && Lamports(s.wallets, buyer) >= price + price * 5 / 1000
       && pool.totalHype + amount <= U128_MAX && FitsU64(amount)
  }

  predicate HypeAccepted(s: State, buyer: Pubkey, key: PoolKey, amount: U128, maxAcceptablePrice: U128) {
    && HypeChecksPass(s, buyer, key, amount, maxAcceptablePrice)
    && TreasuryRentExempt(s, s.treasury + HypePrice(s, key, amount) * 5 / 1000)
  }

  /** The curve price of `amount` HYPE from pool `key`. */
  function HypePrice(s: State, key: PoolKey, amount: U128): U128
    requires key in s.pools && AmmPrice(s.pools[key].reservedSol, s.pools[key].reservedHype, amount).Some?
  {
    AmmPrice(s.pools[key].reservedSol, s.pools[key].reservedHype, amount).value
  }

  /** The transfers and updates of a hype at `price` are well defined and
      the runtime accepts the fee into the treasury. */
  predicate HypeSettles(s: State, buyer: Pubkey, key: PoolKey, amount: U128, price: nat) {
    && key in s.pools && amount <= s.pools[key].reservedHype
    && s.pools[key].reservedSol + price <= U128_MAX
    && s.pools[key].totalHype + amount <= U128_MAX
    && Lamports(s.wallets, buyer) >= price + price * 5 / 1000
    && TreasuryRentExempt(s, s.treasury + price * 5 / 1000)
  }

  /** The buyer pays `price` into the vault and a 0.5% fee into the
      treasury, `amount` HYPE moves from the reserve into circulation, and the
      buyer's record is created holding `amount`. */
  function HypeApplied(s: State, buyer: Pubkey, key: PoolKey, amount: U128, price: nat): State
    requires HypeSettles(s, buyer, key, amount, price)
  {
    var pool := s.pools[key];
    var fee := price * 5 / 1000;
    s.(pools := s.pools[key := pool.(reservedSol := pool.reservedSol + price,
                                     reservedHype := pool.reservedHype - amount,
                                     totalHype := pool.totalHype + amount)],
       vaults := s.vaults[key := Lamports(s.vaults, key) + price],
       treasury := s.treasury + fee,
       wallets := s.wallets[buyer := Lamports(s.wallets, buyer) - price - fee],
       records := s.records[RecordKey(buyer, key) := HypeRecord(buyer, key, amount)])
  }

  lemma HypeEffect(s: State, buyer: Pubkey, key: PoolKey, amount: U128, maxAcceptablePrice: U128)
    requires Hype(s, buyer, key, amount, maxAcceptablePrice).Success?
    ensures HypeAccepted(s, buyer, key, amount, maxAcceptablePrice)
    ensures HypeSettles(s, buyer, key, amount, HypePrice(s, key, amount))
    ensures Hype(s, buyer, key, amount, maxAcceptablePrice).value
         == HypeApplied(s, buyer, key, amount, HypePrice(s, key, amount))
  {
    assert HypeAccepted(s, buyer, key, amount, maxAcceptablePrice);
    HypeSucceeds(s, buyer, key, amount, maxAcceptablePrice);
  }

  lemma HypeSucceeds(s: State, buyer: Pubkey, key: PoolKey, amount: U128, maxAcceptablePrice: U128)
    requires HypeAccepted(s, buyer, key, amount, maxAcceptablePrice)
    ensures HypeSettles(s, buyer, key, amount, HypePrice(s, key, amount))
    ensures Hype(s, buyer, key, amount, maxAcceptablePrice)
         == Success(HypeApplied(s, buyer, key, amount, HypePrice(s, key, amount)))
  {
    DivAtMost(HypePrice(s, key, amount), amount);
  }

  // ---------------------------------------------------------------------------
  // unhype

  /** Every check of unhype passes but the runtime's rent check on the
      treasury. */
  predicate UnhypeChecksPass(s: State, user: Pubkey, key: PoolKey, amount: U128, minAcceptableRefund: U128) {
    && key in s.pools && RecordKey(user, key) in s.records
    && s.records[RecordKey(user, key)].user == user
    && MIN_HYPE_TO_SELL <= amount <= s.records[RecordKey(user, key)].amount
    && amount <= s.pools[key].totalHype && FitsU64(amount)
    && AmmRefund(s.pools[key].reservedSol, s.pools[key].reservedHype, amount).Some?
    && var refund := AmmRefund(s.pools[key].reservedSol, s.pools[key].reservedHype, amount).value;
       && FitsU64(refund) && minAcceptableRefund <= refund
       && refund <= Lamports(s.vaults, key)
       && RentExempt(s, Lamports(s.vaults, key) - refund)
  }

  predicate UnhypeAccepted(s: State, user: Pubkey, key: PoolKey, amount: U128, minAcceptableRefund: U128) {
    && UnhypeChecksPass(s, user, key, amount, minAcceptableRefund)
    && TreasuryRentExempt(s, s.treasury + UnhypeRefund(s, key, amount) * 5 / 1000)
  }

  /** The curve refund for selling `amount` HYPE to pool `key`. */
  function UnhypeRefund(s: State, key: PoolKey, amount: U128): U128
    requires key in s.pools && AmmRefund(s.pools[key].reservedSol, s.pools[key].reservedHype, amount).Some?
  {
    AmmRefund(s.pools[key].reservedSol, s.pools[key].reservedHype, amount).value
  }

  /** The transfers and updates of an unhype paying `refund` are well
      defined and the runtime accepts the fee into the treasury. */
  predicate UnhypeSettles(s: State, user: Pubkey, key: PoolKey, amount: U128, refund: nat) {
    && key in s.pools && RecordKey(user, key) in s.records
    && amount <= s.records[RecordKey(user, key)].amount
    && amount <= s.pools[key].totalHype
    && s.pools[key].reservedHype + amount <= U128_MAX
    && refund <= s.pools[key].reservedSol
    && refund <= Lamports(s.vaults, key)
    && TreasuryRentExempt(s, s.treasury + refund * 5 / 1000)
  }

  /** The vault pays `refund`: the seller gets it less a 0.5% fee and the
      treasury gets the fee; `amount` HYPE returns to the reserve and the
      seller's record is lowered by it. */
  function UnhypeApplied(s: State, user: Pubkey, key: PoolKey, amount: U128, refund: nat): State
    requires UnhypeSettles(s, user, key, amount, refund)
  {
    var pool := s.pools[key];
    var record := s.records[RecordKey(user, key)];
    var fee := refund * 5 / 1000;
    s.(pools := s.pools[key := pool.(reservedSol := pool.reservedSol - refund,
                                     reservedHype := pool.reservedHype + amount,
                                     totalHype := pool.totalHype - amount)],
       vaults := s.vaults[key := Lamports(s.vaults, key) - refund],
       treasury := s.treasury + fee,
       wallets := Credit(s.wallets, user, refund - fee),
       records := s.records[RecordKey(user, key) := record.(amount := record.amount - amount)])
  }

  lemma UnhypeEffect(s: State, user: Pubkey, key: PoolKey, amount: U128, minAcceptableRefund: U128)
    requires Unhype(s, user, key, amount, minAcceptableRefund).Success?
    ensures UnhypeAccepted(s, user, key, amount, minAcceptableRefund)
    ensures UnhypeSettles(s, user, key, amount, UnhypeRefund(s, key, amount))
    ensures Unhype(s, user, key, amount, minAcceptableRefund).value
         == UnhypeApplied(s, user, key, amount, UnhypeRefund(s, key, amount))
  {
    assert UnhypeAccepted(s, user, key, amount, minAcceptableRefund);
    UnhypeSucceeds(s, user, key, amount, minAcceptableRefund);
  }

  lemma UnhypeSucceeds(s: State, user: Pubkey, key: PoolKey, amount: U128, minAcceptableRefund: U128)
    requires UnhypeAccepted(s, user, key, amount, minAcceptableRefund)
    ensures UnhypeSettles(s, user, key, amount, UnhypeRefund(s, key, amount))
    ensures Unhype(s, user, key, amount, minAcceptableRefund)
         == Success(UnhypeApplied(s, user, key, amount, UnhypeRefund(s, key, amount)))
  {
    DivAtMost(UnhypeRefund(s, key, amount), amount);
  }

  // ---------------------------------------------------------------------------
  // creator_release_hype

  predicate CreatorReleaseHypeAccepted(s: State, user: Pubkey, key: PoolKey, amount: U128) {
    && key in s.pools && user == s.pools[key].creator
    && 0 < amount <= s.pools[key].creatorHypeBalance && FitsU64(amount)
    && amount <= s.pools[key].totalHype
    && s.pools[key].reservedHype + amount <= U128_MAX
    && AmmPrice(s.pools[key].reservedSol, s.pools[key].reservedHype, amount).Some?
    && var payout := AmmPrice(s.pools[key].reservedSol, s.pools[key].reservedHype, amount).value;
       && FitsU64(payout) && payout <= s.pools[key].reservedSol
       && payout <= Lamports(s.vaults, key)
       && RentExempt(s, Lamports(s.vaults, key) - payout)
  }

  /** The transfers and updates of a release paying `payout` are well
      defined. */
  predicate CreatorReleaseHypeSettles(s: State, user: Pubkey, key: PoolKey, amount: U128, payout: nat) {
    && key in s.pools
    && amount <= s.pools[key].creatorHypeBalance
    && amount <= s.pools[key].totalHype
    && s.pools[key].reservedHype + amount <= U128_MAX
    && payout <= s.pools[key].reservedSol
    && payout <= Lamports(s.vaults, key)
  }

  /** The vault pays the creator `payout`, with no fee, and `amount` moves
      from the creator's bonus back into the reserve. */
  function CreatorReleaseHypeApplied(s: State, user: Pubkey, key: PoolKey, amount: U128, payout: nat): State
    requires CreatorReleaseHypeSettles(s, user, key, amount, payout)
  {
    var pool := s.pools[key];
    s.(pools := s.pools[key := pool.(creatorHypeBalance := pool.creatorHypeBalance - amount,
                                     totalHype := pool.totalHype - amount,
                                     reservedSol := pool.reservedSol - payout,
                                     reservedHype := pool.reservedHype + amount)],
       vaults := s.vaults[key := Lamports(s.vaults, key) - payout],
       wallets := Credit(s.wallets, user, payout))
  }

  lemma CreatorReleaseHypeEffect(s: State, user: Pubkey, key: PoolKey, amount: U128)
    requires CreatorReleaseHype(s, user, key, amount).Success?
    ensures CreatorReleaseHypeAccepted(s, user, key, amount)
    ensures CreatorReleaseHypeSettles(s, user, key, amount, HypePrice(s, key, amount))
    ensures CreatorReleaseHype(s, user, key, amount).value
         == CreatorReleaseHypeApplied(s, user, key, amount, HypePrice(s, key, amount))
  {
    assert CreatorReleaseHypeAccepted(s, user, key, amount);
    CreatorReleaseHypeSucceeds(s, user, key, amount);
  }

  lemma CreatorReleaseHypeSucceeds(s: State, user: Pubkey, key: PoolKey, amount: U128)
    requires CreatorReleaseHypeAccepted(s, user, key, amount)
    ensures CreatorReleaseHypeSettles(s, user, key, amount, HypePrice(s, key, amount))
    ensures CreatorReleaseHype(s, user, key, amount)
         == Success(CreatorReleaseHypeApplied(s, user, key, amount, HypePrice(s, key, amount)))
  {
    DivAtMost(HypePrice(s, key, amount), amount);
  }

  // ---------------------------------------------------------------------------
  // withdraw_treasury

  /** Only the admin may withdraw, only what the treasury holds, only from a
      treasury the program still owns (or nothing at all), and only down to
      zero or the rent floor. */
  predicate WithdrawTreasuryAccepted(s: State, authority: Pubkey, amount: U64) {
    && s.config == Some(Config(authority))
    && amount <= s.treasury
    && (s.treasuryOwned || amount == 0)
    && TreasuryRentExempt(s, s.treasury - amount)
  }

  /** Exactly `amount` lamports move from the treasury to the recipient; a
      treasury left with none is deleted and no longer the program's. */
  function WithdrawTreasuryApplied(s: State, authority: Pubkey, recipient: Pubkey, amount: U64): State
    requires WithdrawTreasuryAccepted(s, authority, amount)
  {
    s.(treasury := s.treasury - amount,
       treasuryOwned := s.treasuryOwned && s.treasury > amount,
       wallets := Credit(s.wallets, recipient, amount))
  }

  lemma WithdrawTreasuryEffect(s: State, authority: Pubkey, recipient: Pubkey, amount: U64)
    requires WithdrawTreasury(s, authority, recipient, amount).Success?
    ensures WithdrawTreasuryAccepted(s, authority, amount)
    ensures WithdrawTreasury(s, authority, recipient, amount).value
         == WithdrawTreasuryApplied(s, authority, recipient, amount)
  {
  }

  lemma WithdrawTreasurySucceeds(s: State, authority: Pubkey, recipient: Pubkey, amount: U64)
    requires WithdrawTreasuryAccepted(s, authority, amount)
    ensures WithdrawTreasury(s, authority, recipient, amount)
         == Success(WithdrawTreasuryApplied(s, authority, recipient, amount))
  {
  }
}
