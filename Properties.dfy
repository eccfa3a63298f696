/** What the Trender program guarantees, stated over the transition functions
    of `Ledger`: the order of each instruction's checks, what a successful
    instruction conserves, what a buy followed by a sell gives back, and that
    quotes taken from the client-side mirror never trip the slippage check. */
module Properties {
  import opened Amm
  import opened Ledger
  import opened Effects
  import opened Invariants
  import opened Mirror

  // ---------------------------------------------------------------------------
  // The curve

  /** Selling back what was just bought returns at most one lamport more than
      the buy cost: rounding the price down and the refund up can give the
      seller one lamport, never more. */
  lemma RoundTripRefund(reservedSol: U128, reservedHype: U128, amount: U128)
    requires AmmPrice(reservedSol, reservedHype, amount).Some?
    requires var price := AmmPrice(reservedSol, reservedHype, amount).value;
      AmmRefund(reservedSol + price, reservedHype - amount, amount).Some?
    ensures var price := AmmPrice(reservedSol, reservedHype, amount).value;
      AmmRefund(reservedSol + price, reservedHype - amount, amount).value <= price + 1
  {
    var price := AmmPrice(reservedSol, reservedHype, amount).value;
    var sol := reservedSol + price;
    var hype := reservedHype - amount;
    AmmPriceBounds(reservedSol, reservedHype, amount);
    // sol * hype + hype > reservedSol * reservedHype, so the quotient below
    // is at least reservedSol - 1.
    var k := sol * hype;
    assert (sol + 1) * hype == k + hype;
    if reservedSol > 0 {
      assert (reservedSol - 1) * reservedHype == reservedSol * reservedHype - reservedHype;
      DivLowerBound(k, reservedHype, reservedSol - 1);
    }
  }

  // ---------------------------------------------------------------------------
  // initialize_post

  /** A new pool holds the deposit D as its SOL reserve against 10 D HYPE;
      the creator's bonus, which is all the HYPE in circulation, is a tenth of
      that reserve; the vault holds its rent floor plus D; and the treasury
      gains a 2% fee.  Only a positive deposit that fits in u64 is accepted. */
  lemma InitializePostOpensPool(s: State, creator: Pubkey, postId: U64, deposited: U128)
    requires InitializePost(s, creator, postId, deposited).Success?
    ensures var t := InitializePost(s, creator, postId, deposited).value;
      var key := PoolKey(creator, postId);
      && 0 < deposited <= U64_MAX
      && key !in s.pools && key in t.pools
      && t.pools[key].creator == creator && t.pools[key].postId == postId
      && t.pools[key].reservedSol == deposited
      && t.pools[key].reservedHype == HYPE_PER_LAMPORT * deposited
      && t.pools[key].creatorHypeBalance == t.pools[key].totalHype == t.pools[key].reservedHype / 10
      && t.pools[key].reservedHype + t.pools[key].totalHype == 11 * deposited
      && Lamports(t.vaults, key) == t.rentFloor + deposited
      && t.treasury == s.treasury + deposited * 2 / 100
      && Lamports(t.wallets, creator) + s.rentFloor + deposited + deposited * 2 / 100 == Lamports(s.wallets, creator)
  {
    InitializePostEffect(s, creator, postId, deposited);
  }

  /** Once every check of initialize_post has passed, the runtime refuses
      the transaction exactly when the 2% fee would leave the treasury holding
      some lamports but less than its rent floor, as a fee into a treasury at
      zero lamports can.  A treasury the program owns takes every fee. */
  lemma InitializePostTreasuryRent(s: State, creator: Pubkey, postId: U64, deposited: U128)
    requires InitializePostChecksPass(s, creator, postId, deposited)
    ensures InitializePost(s, creator, postId, deposited) == Failure(InsufficientFundsForRent)
        <==> !TreasuryRentExempt(s, s.treasury + deposited * 2 / 100)
    ensures TreasuryOk(s) && s.treasuryOwned ==> InitializePost(s, creator, postId, deposited).Success?
  {
    if TreasuryRentExempt(s, s.treasury + deposited * 2 / 100) {
      InitializePostSucceeds(s, creator, postId, deposited);
    }
  }

  /** Before any lamport moves, initialize_post refuses a zero deposit and
      then a deposit beyond u64. */
  lemma InitializePostRejects(s: State, creator: Pubkey, postId: U64, deposited: U128)
    requires PoolKey(creator, postId) !in s.pools && Lamports(s.wallets, creator) >= s.rentFloor
    ensures deposited == 0 ==> InitializePost(s, creator, postId, deposited) == Failure(InvalidDepositAmount)
    ensures deposited > U64_MAX ==> InitializePost(s, creator, postId, deposited) == Failure(AmountTooLarge)
  {
  }

  /** The declared minimum deposit is never checked: a one-lamport pool opens. */
  lemma MinSolDepositNotEnforced(s: State, creator: Pubkey, postId: U64)
    requires TreasuryOk(s) && PoolKey(creator, postId) !in s.pools
    requires Lamports(s.wallets, creator) >= s.rentFloor + 1
    ensures 1 < MIN_SOL_DEPOSIT
    ensures InitializePost(s, creator, postId, 1).Success?
  {
    InitializePostSucceeds(s, creator, postId, 1);
  }

  // ---------------------------------------------------------------------------
  // hype

  /** The checks of hype in the order the handler makes them.  A buy of
      exactly the whole reserve passes the reserve check and then aborts on
      the division by zero inside the price. */
  lemma HypeRejects(s: State, buyer: Pubkey, key: PoolKey, amount: U128, maxAcceptablePrice: U128)
    requires key in s.pools && RecordKey(buyer, key) !in s.records
    ensures Hype(s, buyer, key, amount, maxAcceptablePrice) == Failure(InvalidHypeAmount)
        <==> amount < MIN_HYPE_TO_BUY
    ensures MIN_HYPE_TO_BUY <= amount && s.pools[key].reservedHype < amount ==>
      Hype(s, buyer, key, amount, maxAcceptablePrice) == Failure(InsufficientHypeReserve)
    ensures MIN_HYPE_TO_BUY <= amount == s.pools[key].reservedHype ==>
      Hype(s, buyer, key, amount, maxAcceptablePrice) == Failure(ArithmeticPanic)
    ensures var pool := s.pools[key];
      MIN_HYPE_TO_BUY <= amount && AmmPrice(pool.reservedSol, pool.reservedHype, amount).Some?
      && AmmPrice(pool.reservedSol, pool.reservedHype, amount).value > maxAcceptablePrice ==>
      Hype(s, buyer, key, amount, maxAcceptablePrice) == Failure(SlippageExceeded)
  {
  }

  /** Once every check of hype has passed, the runtime refuses the
      transaction exactly when the 0.5% fee would leave the treasury holding
      some lamports but less than its rent floor.  A treasury the program owns
      takes every fee. */
  lemma HypeTreasuryRent(s: State, buyer: Pubkey, key: PoolKey, amount: U128, maxAcceptablePrice: U128)
    requires HypeChecksPass(s, buyer, key, amount, maxAcceptablePrice)
    ensures Hype(s, buyer, key, amount, maxAcceptablePrice) == Failure(InsufficientFundsForRent)
        <==> !TreasuryRentExempt(s, s.treasury + HypePrice(s, key, amount) * 5 / 1000)
    ensures TreasuryOk(s) && s.treasuryOwned ==> Hype(s, buyer, key, amount, maxAcceptablePrice).Success?
  {
    if TreasuryRentExempt(s, s.treasury + HypePrice(s, key, amount) * 5 / 1000) {
      HypeSucceeds(s, buyer, key, amount, maxAcceptablePrice);
    } else {
      DivAtMost(HypePrice(s, key, amount), amount);
    }
  }

  /** The record is created by the buyer's first hype on a pool and holds
      exactly that buy; a second hype by the same buyer on the same pool is
      refused, so purchases never accumulate in a record. */
  lemma SecondHypeRefused(s: State, buyer: Pubkey, key: PoolKey, amount: U128, maxAcceptablePrice: U128,
                          nextAmount: U128, nextMaxPrice: U128)
    requires Hype(s, buyer, key, amount, maxAcceptablePrice).Success?
    ensures var t := Hype(s, buyer, key, amount, maxAcceptablePrice).value;
      && RecordKey(buyer, key) !in s.records
      && RecordKey(buyer, key) in t.records
      && t.records[RecordKey(buyer, key)].amount == amount
      && Hype(t, buyer, key, nextAmount, nextMaxPrice) == Failure(AccountAlreadyInUse)
  {
    HypeEffect(s, buyer, key, amount, maxAcceptablePrice);
  }

  /** A successful hype changes only its own pool and vault; it keeps the
      HYPE supply `reserved_hype + total_hype` and the vault's surplus over
      `reserved_sol`, and the product of the reserves does not rise: the
      buyer pays the largest price that keeps it. */
  lemma HypeConserves(s: State, buyer: Pubkey, key: PoolKey, amount: U128, maxAcceptablePrice: U128)
    requires Hype(s, buyer, key, amount, maxAcceptablePrice).Success?
    ensures var t := Hype(s, buyer, key, amount, maxAcceptablePrice).value;
      && key in s.pools && key in t.pools
      && t.pools == s.pools[key := t.pools[key]]
      && t.vaults == s.vaults[key := Lamports(t.vaults, key)]
      && t.pools[key].reservedHype + t.pools[key].totalHype == s.pools[key].reservedHype + s.pools[key].totalHype
      && Lamports(t.vaults, key) + s.pools[key].reservedSol == Lamports(s.vaults, key) + t.pools[key].reservedSol
      && t.pools[key].reservedSol * t.pools[key].reservedHype <= s.pools[key].reservedSol * s.pools[key].reservedHype
      < (t.pools[key].reservedSol + 1) * t.pools[key].reservedHype
  {
    HypeEffect(s, buyer, key, amount, maxAcceptablePrice);
    AmmPriceBounds(s.pools[key].reservedSol, s.pools[key].reservedHype, amount);
  }

  /** A hype whose price limit is the mirror's quote raised by a tolerance of
      at least 100% never fails on slippage. */
  lemma QuotedHypeNeverSlips(s: State, buyer: Pubkey, key: PoolKey, amount: U128, percent: nat, maxAcceptablePrice: U128)
    requires key in s.pools && percent >= 100
    requires var quote := AmmPriceMirror(s.pools[key].reservedSol, s.pools[key].reservedHype, amount);
      quote.Some? && maxAcceptablePrice == WithTolerance(quote.value, percent)
    ensures Hype(s, buyer, key, amount, maxAcceptablePrice) != Failure(SlippageExceeded)
  {
    var pool := s.pools[key];
    var quote := AmmPrice(pool.reservedSol, pool.reservedHype, amount);
    if quote.Some? {
      AmmPriceMirrorAgrees(pool.reservedSol, pool.reservedHype, amount);
      ToleranceBrackets(quote.value, percent);
    }
  }

  // ---------------------------------------------------------------------------
  // unhype

  /** The checks of unhype in the order they are made: Anchor's `has_one`
      on the record, then the handler's. */
  lemma UnhypeRejects(s: State, user: Pubkey, key: PoolKey, amount: U128, minAcceptableRefund: U128)
    requires key in s.pools && RecordKey(user, key) in s.records
    ensures Unhype(s, user, key, amount, minAcceptableRefund) == Failure(ConstraintHasOne)
        <==> s.records[RecordKey(user, key)].user != user
    ensures s.records[RecordKey(user, key)].user == user && amount < MIN_HYPE_TO_SELL ==>
      Unhype(s, user, key, amount, minAcceptableRefund) == Failure(InvalidHypeAmount)
    ensures var record := s.records[RecordKey(user, key)];
      record.user == user && MIN_HYPE_TO_SELL <= amount && record.amount < amount ==>
      Unhype(s, user, key, amount, minAcceptableRefund) == Failure(InsufficientHypeBalance)
    ensures var pool := s.pools[key]; var record := s.records[RecordKey(user, key)];
      record.user == user && MIN_HYPE_TO_SELL <= amount <= record.amount
      && AmmRefund(pool.reservedSol, pool.reservedHype, amount).Some?
      && FitsU64(AmmRefund(pool.reservedSol, pool.reservedHype, amount).value)
      && AmmRefund(pool.reservedSol, pool.reservedHype, amount).value < minAcceptableRefund ==>
      Unhype(s, user, key, amount, minAcceptableRefund) == Failure(SlippageExceeded)
  {
  }

  /** The handler's own Unauthorized check comes after `has_one` and never
      fails.  In every reachable state a record belongs to the buyer it is
      addressed by and the refund never exceeds the SOL reserve, so unhype
      never fails `has_one` or with InsufficientSolReserve either. */
  lemma UnhypeGuardsNeverFire(s: State, user: Pubkey, key: PoolKey, amount: U128, minAcceptableRefund: U128)
    requires Inv(s)
    ensures Unhype(s, user, key, amount, minAcceptableRefund) != Failure(Unauthorized)
    ensures Unhype(s, user, key, amount, minAcceptableRefund) != Failure(ConstraintHasOne)
    ensures Unhype(s, user, key, amount, minAcceptableRefund) != Failure(InsufficientSolReserve)
  {
    if RecordKey(user, key) in s.records {
      assert RecordOk(s, RecordKey(user, key));
    }
  }

  /** Once every check of unhype has passed, the runtime refuses the
      transaction when the 0.5% fee would leave the treasury holding some
      lamports but less than its rent floor, and otherwise accepts it.  A
      treasury the program owns takes every fee. */
  lemma UnhypeTreasuryRent(s: State, user: Pubkey, key: PoolKey, amount: U128, minAcceptableRefund: U128)
    requires UnhypeChecksPass(s, user, key, amount, minAcceptableRefund)
    ensures Unhype(s, user, key, amount, minAcceptableRefund) == Failure(InsufficientFundsForRent)
        <==> !TreasuryRentExempt(s, s.treasury + UnhypeRefund(s, key, amount) * 5 / 1000)
    ensures TreasuryOk(s) && s.treasuryOwned ==> Unhype(s, user, key, amount, minAcceptableRefund).Success?
  {
    if TreasuryRentExempt(s, s.treasury + UnhypeRefund(s, key, amount) * 5 / 1000) {
      UnhypeSucceeds(s, user, key, amount, minAcceptableRefund);
    } else {
      DivAtMost(UnhypeRefund(s, key, amount), amount);
    }
  }

  /** A successful unhype changes only its own pool and vault; the vault
      loses exactly the refund, which the seller and the treasury share; the
      HYPE supply and the vault's surplus over `reserved_sol` are kept; and
      the product of the reserves does not rise: the seller gets the smallest
      refund that keeps it. */
  lemma UnhypeConserves(s: State, user: Pubkey, key: PoolKey, amount: U128, minAcceptableRefund: U128)
    requires Unhype(s, user, key, amount, minAcceptableRefund).Success?
    ensures var t := Unhype(s, user, key, amount, minAcceptableRefund).value;
      && key in s.pools && key in t.pools
      && t.pools == s.pools[key := t.pools[key]]
      && t.vaults == s.vaults[key := Lamports(t.vaults, key)]
      && Lamports(t.vaults, key) + (Lamports(t.wallets, user) - Lamports(s.wallets, user)) + (t.treasury - s.treasury)
         == Lamports(s.vaults, key)
      && t.pools[key].reservedHype + t.pools[key].totalHype == s.pools[key].reservedHype + s.pools[key].totalHype
      && Lamports(t.vaults, key) + s.pools[key].reservedSol == Lamports(s.vaults, key) + t.pools[key].reservedSol
      && t.pools[key].reservedSol * t.pools[key].reservedHype <= s.pools[key].reservedSol * s.pools[key].reservedHype
      < (t.pools[key].reservedSol + 1) * t.pools[key].reservedHype
  {
    UnhypeEffect(s, user, key, amount, minAcceptableRefund);
    UnhypeSettlementConserves(s, user, key, amount, UnhypeRefund(s, key, amount));
  }

  lemma UnhypeSettlementConserves(s: State, user: Pubkey, key: PoolKey, amount: U128, refund: nat)
    requires UnhypeSettles(s, user, key, amount, refund)
    requires AmmRefund(s.pools[key].reservedSol, s.pools[key].reservedHype, amount) == Some(refund)
    ensures var t := UnhypeApplied(s, user, key, amount, refund);
      && key in t.pools
      && t.pools == s.pools[key := t.pools[key]]
      && t.vaults == s.vaults[key := Lamports(t.vaults, key)]
      && Lamports(t.vaults, key) + (Lamports(t.wallets, user) - Lamports(s.wallets, user)) + (t.treasury - s.treasury)
         == Lamports(s.vaults, key)
      && t.pools[key].reservedHype + t.pools[key].totalHype == s.pools[key].reservedHype + s.pools[key].totalHype
      && Lamports(t.vaults, key) + s.pools[key].reservedSol == Lamports(s.vaults, key) + t.pools[key].reservedSol
      && t.pools[key].reservedSol * t.pools[key].reservedHype <= s.pools[key].reservedSol * s.pools[key].reservedHype
      < (t.pools[key].reservedSol + 1) * t.pools[key].reservedHype
  {
    AmmRefundBounds(s.pools[key].reservedSol, s.pools[key].reservedHype, amount);
  }

  /** An unhype whose refund floor is the mirror's quote lowered by a
      tolerance of at most 100% never fails on slippage. */
  lemma QuotedUnhypeNeverSlips(s: State, user: Pubkey, key: PoolKey, amount: U128, percent: nat, minAcceptableRefund: U128)
    requires key in s.pools && percent <= 100
    requires var quote := AmmRefundMirror(s.pools[key].reservedSol, s.pools[key].reservedHype, amount);
      quote.Some? && minAcceptableRefund == WithTolerance(quote.value, percent)
    ensures Unhype(s, user, key, amount, minAcceptableRefund) != Failure(SlippageExceeded)
  {
    var pool := s.pools[key];
    var quote := AmmRefund(pool.reservedSol, pool.reservedHype, amount);
    if quote.Some? {
      AmmRefundMirrorAgrees(pool.reservedSol, pool.reservedHype, amount);
      ToleranceBrackets(quote.value, percent);
    }
  }

  /** Buying `amount` and selling it straight back empties the buyer's record
      and puts the pool's HYPE back exactly as it was; the SOL reserve ends at
      most one lamport below where it started. */
  lemma BuyThenSell(s: State, buyer: Pubkey, key: PoolKey, amount: U128, maxAcceptablePrice: U128, minAcceptableRefund: U128)
    requires Hype(s, buyer, key, amount, maxAcceptablePrice).Success?
    requires Unhype(Hype(s, buyer, key, amount, maxAcceptablePrice).value, buyer, key, amount, minAcceptableRefund).Success?
    ensures var t := Unhype(Hype(s, buyer, key, amount, maxAcceptablePrice).value, buyer, key, amount, minAcceptableRefund).value;
      && key in s.pools && key in t.pools && RecordKey(buyer, key) in t.records
      && t.records[RecordKey(buyer, key)].amount == 0
      && t.pools[key].reservedHype == s.pools[key].reservedHype
      && t.pools[key].totalHype == s.pools[key].totalHype
      && t.pools[key].creatorHypeBalance == s.pools[key].creatorHypeBalance
      && s.pools[key].reservedSol <= t.pools[key].reservedSol + 1
  {
    var m := Hype(s, buyer, key, amount, maxAcceptablePrice).value;
    HypeEffect(s, buyer, key, amount, maxAcceptablePrice);
    UnhypeEffect(m, buyer, key, amount, minAcceptableRefund);
    RoundTripSettlement(s, buyer, key, amount, HypePrice(s, key, amount), UnhypeRefund(m, key, amount));
  }

  lemma RoundTripSettlement(s: State, buyer: Pubkey, key: PoolKey, amount: U128, price: nat, refund: nat)
    requires HypeSettles(s, buyer, key, amount, price)
    requires AmmPrice(s.pools[key].reservedSol, s.pools[key].reservedHype, amount) == Some(price)
    requires var m := HypeApplied(s, buyer, key, amount, price);
      && UnhypeSettles(m, buyer, key, amount, refund)
      && AmmRefund(m.pools[key].reservedSol, m.pools[key].reservedHype, amount) == Some(refund)
    ensures var t := UnhypeApplied(HypeApplied(s, buyer, key, amount, price), buyer, key, amount, refund);
      && key in t.pools && RecordKey(buyer, key) in t.records
      && t.records[RecordKey(buyer, key)].amount == 0
      && t.pools[key].reservedHype == s.pools[key].reservedHype
      && t.pools[key].totalHype == s.pools[key].totalHype
      && t.pools[key].creatorHypeBalance == s.pools[key].creatorHypeBalance
      && s.pools[key].reservedSol <= t.pools[key].reservedSol + 1
  {
    RoundTripRefund(s.pools[key].reservedSol, s.pools[key].reservedHype, amount);
  }

  // ---------------------------------------------------------------------------
  // creator_release_hype

  /** The checks of creator_release_hype in the order the handler makes them;
      unlike hype and unhype there is no 1_000_000 minimum, only zero is
      refused. */
  lemma CreatorReleaseHypeRejects(s: State, user: Pubkey, key: PoolKey, amount: U128)
    requires key in s.pools
    ensures CreatorReleaseHype(s, user, key, amount) == Failure(Unauthorized) <==> user != s.pools[key].creator
    ensures user == s.pools[key].creator ==>
      (CreatorReleaseHype(s, user, key, amount) == Failure(InvalidHypeAmount) <==> amount == 0)
    ensures user == s.pools[key].creator && 0 < amount && s.pools[key].creatorHypeBalance < amount ==>
      CreatorReleaseHype(s, user, key, amount) == Failure(InsufficientHypeBalance)
  {
  }

  /** A successful release pays the creator the BUY price of the released
      HYPE out of the vault, with no fee; it changes only its own pool and
      vault and keeps the HYPE supply and the vault's surplus over
      `reserved_sol`. */
  lemma CreatorReleaseHypeConserves(s: State, user: Pubkey, key: PoolKey, amount: U128)
    requires CreatorReleaseHype(s, user, key, amount).Success?
    ensures var t := CreatorReleaseHype(s, user, key, amount).value;
      && key in s.pools && key in t.pools
      && AmmPrice(s.pools[key].reservedSol, s.pools[key].reservedHype, amount).Some?
      && var payout := AmmPrice(s.pools[key].reservedSol, s.pools[key].reservedHype, amount).value;
      && Lamports(t.wallets, user) == Lamports(s.wallets, user) + payout
      && Lamports(t.vaults, key) + payout == Lamports(s.vaults, key)
      && t.treasury == s.treasury
      && t.pools == s.pools[key := t.pools[key]]
      && t.vaults == s.vaults[key := Lamports(t.vaults, key)]
      && t.pools[key].reservedHype + t.pools[key].totalHype == s.pools[key].reservedHype + s.pools[key].totalHype
      && Lamports(t.vaults, key) + s.pools[key].reservedSol == Lamports(s.vaults, key) + t.pools[key].reservedSol
  {
    CreatorReleaseHypeEffect(s, user, key, amount);
  }

  // ---------------------------------------------------------------------------
  // initialize_treasury and withdraw_treasury

  /** Once initialize_treasury has made `payer` the admin, a withdrawal is
      refused as Unauthorized exactly when someone else signs it. */
  lemma OnlyInitializerWithdraws(s: State, payer: Pubkey, authority: Pubkey, recipient: Pubkey, amount: U64)
    requires InitializeTreasury(s, payer).Success?
    ensures WithdrawTreasury(InitializeTreasury(s, payer).value, authority, recipient, amount) == Failure(Unauthorized)
        <==> authority != payer
  {
    InitializeTreasuryEffect(s, payer);
  }

  /** A successful withdrawal moves exactly `amount` lamports from the
      treasury to the recipient and touches no other account. */
  lemma WithdrawTreasuryMovesOnlyAmount(s: State, authority: Pubkey, recipient: Pubkey, amount: U64)
    requires WithdrawTreasury(s, authority, recipient, amount).Success?
    ensures var t := WithdrawTreasury(s, authority, recipient, amount).value;
      && t.treasury + amount == s.treasury
      && Lamports(t.wallets, recipient) == Lamports(s.wallets, recipient) + amount
      && (forall w :: w != recipient ==> Lamports(t.wallets, w) == Lamports(s.wallets, w))
      && t.config == s.config && t.pools == s.pools && t.vaults == s.vaults && t.records == s.records
  {
    WithdrawTreasuryEffect(s, authority, recipient, amount);
  }

  /** The admin can withdraw everything above the rent floor of a treasury
      the program owns, after which a further withdrawal of one lamport is
      refused. */
  lemma WithdrawDownToRentFloor(s: State, admin: Pubkey, recipient: Pubkey)
    requires s.config == Some(Config(admin)) && s.treasuryOwned
    requires 2 <= s.rentFloor < s.treasury && s.treasury - s.rentFloor <= U64_MAX
    ensures var r := WithdrawTreasury(s, admin, recipient, s.treasury - s.rentFloor);
      && r.Success? && r.value.treasury == s.rentFloor
      && WithdrawTreasury(r.value, admin, recipient, 1) == Failure(InsufficientFundsForRent)
  {
    WithdrawTreasurySucceeds(s, admin, recipient, s.treasury - s.rentFloor);
  }

  /** The admin can also withdraw the whole balance.  That deletes the
      treasury: the program no longer owns it, so every later withdrawal of a
      positive amount is refused, and initialize_treasury cannot create it
      again because the config still exists. */
  lemma WithdrawAllDeletesTreasury(s: State, admin: Pubkey, recipient: Pubkey, authority: Pubkey, amount: U64)
    requires s.config == Some(Config(admin)) && s.treasuryOwned && 0 < s.treasury <= U64_MAX
    requires 0 < amount
    ensures var r := WithdrawTreasury(s, admin, recipient, s.treasury);
      && r.Success? && r.value.treasury == 0 && !r.value.treasuryOwned
      && WithdrawTreasury(r.value, authority, recipient, amount).Failure?
      && InitializeTreasury(r.value, authority) == Failure(AccountAlreadyInUse)
  {
    WithdrawTreasurySucceeds(s, admin, recipient, s.treasury);
  }
}
