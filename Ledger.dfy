/** The accounts of the Trender program and, for each instruction, the pure
    transition it makes: `Success(next state)` or `Failure(error)`.  A failed
    Solana transaction leaves every account as it was, so a failure carries no
    state.  The guards appear in the order in which the handler evaluates them;
    Anchor's account checks (an `init` account that already exists, an account
    that does not exist yet) come first, as they run before the handler. */
module Ledger {
  import opened Amm

  /** An account address. */
  type Pubkey = nat

  /** Declared by the program but never consulted by any instruction. */
  const MIN_SOL_DEPOSIT: nat := 1_000_000
  const MIN_HYPE_TO_BUY: nat := 1_000_000
  const MIN_HYPE_TO_SELL: nat := 1_000_000
  const HYPE_PER_LAMPORT: nat := 10

  /** A pool (and its vault) is addressed by seeds ["post" | "vault", creator, post_id]. */
  datatype PoolKey = PoolKey(creator: Pubkey, postId: U64)

  /** A buyer's record is addressed by seeds ["hype_record", buyer, pool]. */
  datatype RecordKey = RecordKey(user: Pubkey, pool: PoolKey)

  datatype Config = Config(admin: Pubkey)

  datatype PostPool = PostPool(
    creator: Pubkey,
    creatorHypeBalance: U128,
    postId: U64,
    reservedSol: U128,
    reservedHype: U128,
    totalHype: U128)

  datatype HypeRecord = HypeRecord(user: Pubkey, pool: PoolKey, amount: U128)

  datatype Error =
    // the program's own error codes
    | InvalidDepositAmount
    | InvalidHypeAmount
    | InsufficientHypeReserve
    | Unauthorized
    | InsufficientHypeBalance
    | InsufficientSolReserve
    | AmountTooLarge
    | SlippageExceeded
    | InsufficientFunds
    // failures raised by Rust, Anchor or the runtime rather than by a `require!`
    | ArithmeticPanic           // a checked operation or lamport subtraction overflowed
    | AccountAlreadyInUse       // Anchor `init` on an account that exists
    | AccountNotInitialized     // an account that must exist does not
    | InsufficientLamports      // a system-program transfer from a wallet that cannot pay
    | InsufficientFundsForRent  // an account left holding some lamports but less than its rent floor
    | ExternalAccountLamportSpend  // the program debited an account it does not own
    | ConstraintHasOne          // Anchor `has_one`: the record names a different user

  datatype Result<+T> = Success(value: T) | Failure(error: Error) {
    predicate IsFailure() { Failure? }
    function PropagateFailure<U>(): Result<U> requires Failure? { Failure(error) }
    function Extract(): T requires Success? { value }
  }

  /** Every account the program reads or writes.  `rentFloor` is the
      rent-exempt minimum of an 8-byte account (the treasury and each vault),
      `emptyRentFloor` that of an account holding no data.  `treasuryOwned`
      says whether the program owns the treasury: initialize_treasury creates
      it with 8 bytes of data, and the runtime deletes it, handing the address
      back to the system program, at the end of any transaction that leaves it
      with no lamports.  `wallets` holds the lamports of signers and
      recipients. */
  datatype State = State(
    rentFloor: nat,
    emptyRentFloor: nat,
    config: Option<Config>,
    treasury: nat,
    treasuryOwned: bool,
    pools: map<PoolKey, PostPool>,
    vaults: map<PoolKey, nat>,
    records: map<RecordKey, HypeRecord>,
    wallets: map<Pubkey, nat>)

  /** The ledger before the program's first instruction. */
  function Genesis(rentFloor: nat, emptyRentFloor: nat, wallets: map<Pubkey, nat>): State {
    State(rentFloor, emptyRentFloor, None, 0, false, map[], map[], map[], wallets)
  }

  /** Lamports of an account; one that was never funded holds none. */
  function Lamports<K>(m: map<K, nat>, k: K): nat {
    if k in m then m[k] else 0
  }

  function Credit(wallets: map<Pubkey, nat>, k: Pubkey, x: nat): map<Pubkey, nat> {
    wallets[k := Lamports(wallets, k) + x]
  }

  function Unwrap<T>(o: Option<T>): Result<T> {
    match o
    case Some(v) => Success(v)
    case None => Failure(ArithmeticPanic)
  }

  function ToU64(x: nat): Result<U64> {
    if FitsU64(x) then Success(x) else Failure(AmountTooLarge)
  }

  /** The runtime refuses to leave an account holding some lamports but fewer
      than its rent-exempt minimum. */
  predicate RentExempt(s: State, lamports: nat) {
    lamports == 0 || lamports >= s.rentFloor
  }

  /** The rent floor of the treasury: that of its 8 bytes while the program
      owns it, that of a bare system account otherwise. */
  function TreasuryFloor(s: State): nat {
    if s.treasuryOwned then s.rentFloor else s.emptyRentFloor
  }

  /** The runtime's rent check applied to the treasury. */
  predicate TreasuryRentExempt(s: State, lamports: nat) {
    lamports == 0 || lamports >= TreasuryFloor(s)
  }

  /** The fee `x * rate / denominator` with u128 checked arithmetic. */
  function Fee(x: U128, rate: U128, denominator: U128): Result<U128> {
    var scaled :- Unwrap(CheckedMul(x, rate));
    Unwrap(CheckedDiv(scaled, denominator))
  }

  /** initialize_treasury: create the config (admin := payer) and fund the
      treasury up to its rent floor; the payer pays only the shortfall. */
  function InitializeTreasury(s: State, payer: Pubkey): Result<State> {
    if s.config.Some? then Failure(AccountAlreadyInUse)
    else
      var topUp := if s.treasury < s.rentFloor then s.rentFloor - s.treasury else 0;
      var funds := Lamports(s.wallets, payer);
      if funds < topUp then Failure(InsufficientLamports)
      else Success(s.(config := Some(Config(payer)),
                      treasury := s.treasury + topUp,
                      treasuryOwned := true,
                      wallets := s.wallets[payer := funds - topUp]))
  }

  /** initialize_post: create the pool and its vault, move the deposit into
      the vault and a 2% fee into the treasury. */
  function InitializePost(s: State, creator: Pubkey, postId: U64, deposited: U128): Result<State> {
    var key := PoolKey(creator, postId);
    var funds := Lamports(s.wallets, creator);
    if key in s.pools then Failure(AccountAlreadyInUse)
    else if funds < s.rentFloor then Failure(InsufficientLamports)
    else if deposited == 0 then Failure(InvalidDepositAmount)
    else
      var depositedU64 :- ToU64(deposited);
      var fee :- Fee(deposited, 2, 100);
      var feeU64 :- ToU64(fee);
      var afterRent := funds - s.rentFloor;
      if afterRent < deposited then Failure(InsufficientLamports)
      else if afterRent - deposited < fee then Failure(InsufficientLamports)
      else
        var reservedHype :- Unwrap(CheckedMul(deposited, HYPE_PER_LAMPORT));
        var creatorHype :- Unwrap(CheckedDiv(reservedHype, 10));
        if !TreasuryRentExempt(s, s.treasury + fee) then Failure(InsufficientFundsForRent)
        else
        Success(s.(pools := s.pools[key := PostPool(creator, creatorHype, postId, deposited, reservedHype, creatorHype)],
                   vaults := s.vaults[key := s.rentFloor + deposited],
                   treasury := s.treasury + fee,
                   wallets := s.wallets[creator := afterRent - deposited - fee]))
  }

  /** hype: buy `amount` HYPE at the curve price plus a 0.5% fee; the buyer's
      record is created (never accumulated) with that amount. */
  function Hype(s: State, buyer: Pubkey, key: PoolKey, amount: U128, maxAcceptablePrice: U128): Result<State> {
    var recordKey := RecordKey(buyer, key);
    if key !in s.pools then Failure(AccountNotInitialized)
    else if recordKey in s.records then Failure(AccountAlreadyInUse)
    else
      var pool := s.pools[key];
      if amount < MIN_HYPE_TO_BUY then Failure(InvalidHypeAmount)
      else if pool.reservedHype < amount then Failure(InsufficientHypeReserve)
      else
        var price :- Unwrap(AmmPrice(pool.reservedSol, pool.reservedHype, amount));
        if price > maxAcceptablePrice then Failure(SlippageExceeded)
        else
          var priceU64 :- ToU64(price);
          var fee :- Fee(price, 5, 1000);
          var feeU64 :- ToU64(fee);
          var funds := Lamports(s.wallets, buyer);
          if funds < price then Failure(InsufficientLamports)
          else if funds - price < fee then Failure(InsufficientLamports)
          else
            var reservedSol :- Unwrap(CheckedAdd(pool.reservedSol, price));
            var reservedHype :- Unwrap(CheckedSub(pool.reservedHype, amount));
            var totalHype :- Unwrap(CheckedAdd(pool.totalHype, amount));
            var amountU64 :- ToU64(amount);
            var perUnit :- Unwrap(CheckedDiv(price, amount));
            var perUnitU64 :- ToU64(perUnit);
            if !TreasuryRentExempt(s, s.treasury + fee) then Failure(InsufficientFundsForRent)
            else
            Success(s.(pools := s.pools[key := pool.(reservedSol := reservedSol, reservedHype := reservedHype, totalHype := totalHype)],
                       vaults := s.vaults[key := Lamports(s.vaults, key) + price],
                       treasury := s.treasury + fee,
                       wallets := s.wallets[buyer := funds - price - fee],
                       records := s.records[recordKey := HypeRecord(buyer, key, amount)]))
  }

  /** unhype: sell `amount` HYPE back to the curve; the vault pays the refund,
      of which 0.5% goes to the treasury and the rest to the seller.  Anchor's
      `has_one = user` on the record runs with the account checks, so by the
      time the handler compares the record's user with the signer they agree
      and its Unauthorized check cannot fail. */
  function Unhype(s: State, user: Pubkey, key: PoolKey, amount: U128, minAcceptableRefund: U128): Result<State> {
    var recordKey := RecordKey(user, key);
    if key !in s.pools || recordKey !in s.records then Failure(AccountNotInitialized)
    else if s.records[recordKey].user != user then Failure(ConstraintHasOne)
    else
      var pool := s.pools[key];
      var record := s.records[recordKey];
      if amount < MIN_HYPE_TO_SELL then Failure(InvalidHypeAmount)
      else if record.amount < amount then Failure(InsufficientHypeBalance)
      else
        var refund :- Unwrap(AmmRefund(pool.reservedSol, pool.reservedHype, amount));
        if pool.reservedSol < refund then Failure(InsufficientSolReserve)
        else
          var refundU64 :- ToU64(refund);
          if refund < minAcceptableRefund then Failure(SlippageExceeded)
          else
            var fee :- Fee(refund, 5, 1000);
            var feeU64 :- ToU64(fee);
            var afterFee :- Unwrap(CheckedSub(refund, fee));
            var afterFeeU64 :- ToU64(afterFee);
            var vault := Lamports(s.vaults, key);
            if vault < afterFee || vault - afterFee < fee then Failure(ArithmeticPanic)
            else
              var reservedSol :- Unwrap(CheckedSub(pool.reservedSol, refund));
              var reservedHype :- Unwrap(CheckedAdd(pool.reservedHype, amount));
              var totalHype :- Unwrap(CheckedSub(pool.totalHype, amount));
              var held :- Unwrap(CheckedSub(record.amount, amount));
              var amountU64 :- ToU64(amount);
              var perUnit :- Unwrap(CheckedDiv(refund, amount));
              var perUnitU64 :- ToU64(perUnit);
              var newVault := vault - afterFee - fee;
              if !RentExempt(s, newVault) || !TreasuryRentExempt(s, s.treasury + fee) then Failure(InsufficientFundsForRent)
              else
                Success(s.(pools := s.pools[key := pool.(reservedSol := reservedSol, reservedHype := reservedHype, totalHype := totalHype)],
                           vaults := s.vaults[key := newVault],
                           treasury := s.treasury + fee,
                           wallets := Credit(s.wallets, user, afterFee),
                           records := s.records[recordKey := record.(amount := held)]))
  }

  /** creator_release_hype: the creator sells part of the bonus; the payout
      is priced with the BUY formula and carries no fee. */
  function CreatorReleaseHype(s: State, user: Pubkey, key: PoolKey, amount: U128): Result<State> {
    if key !in s.pools then Failure(AccountNotInitialized)
    else
      var pool := s.pools[key];
      if user != pool.creator then Failure(Unauthorized)
      else if amount == 0 then Failure(InvalidHypeAmount)
      else if pool.creatorHypeBalance < amount then Failure(InsufficientHypeBalance)
      else
        var amountU64 :- ToU64(amount);
        var payout :- Unwrap(AmmPrice(pool.reservedSol, pool.reservedHype, amount));
        var payoutU64 :- ToU64(payout);
        if pool.reservedSol < payout then Failure(InsufficientSolReserve)
        else
          var vault := Lamports(s.vaults, key);
          if vault < payout then Failure(ArithmeticPanic)
          else
            var creatorHype :- Unwrap(CheckedSub(pool.creatorHypeBalance, amount));
            var totalHype :- Unwrap(CheckedSub(pool.totalHype, amount));
            var reservedSol :- Unwrap(CheckedSub(pool.reservedSol, payout));
            var reservedHype :- Unwrap(CheckedAdd(pool.reservedHype, amount));
            var perUnit :- Unwrap(CheckedDiv(payout, amount));
            var perUnitU64 :- ToU64(perUnit);
            var newVault := vault - payout;
            if !RentExempt(s, newVault) then Failure(InsufficientFundsForRent)
            else
              Success(s.(pools := s.pools[key := pool.(creatorHypeBalance := creatorHype, totalHype := totalHype,
                                                       reservedSol := reservedSol, reservedHype := reservedHype)],
                         vaults := s.vaults[key := newVault],
                         wallets := Credit(s.wallets, user, payout)))
  }

  /** withdraw_treasury: the admin moves `amount` lamports from the treasury
      to a recipient.  There is no balance check of the program's own: an
      overdraft panics on the lamport subtraction; the runtime refuses a debit
      from a treasury the program no longer owns, and refuses to leave the
      treasury below its rent floor.  Emptying the treasury deletes it. */
  function WithdrawTreasury(s: State, authority: Pubkey, recipient: Pubkey, amount: U64): Result<State> {
    if s.config.None? then Failure(AccountNotInitialized)
    else if s.config.value.admin != authority then Failure(Unauthorized)
    else if s.treasury < amount then Failure(ArithmeticPanic)
    else if !s.treasuryOwned && amount > 0 then Failure(ExternalAccountLamportSpend)
    else if !TreasuryRentExempt(s, s.treasury - amount) then Failure(InsufficientFundsForRent)
    else Success(s.(treasury := s.treasury - amount,
                    treasuryOwned := s.treasuryOwned && s.treasury - amount > 0,
                    wallets := Credit(s.wallets, recipient, amount)))
  }

  // ---------------------------------------------------------------------------
  // The accounting invariant

  /** Share of record `k` in the HYPE held by buyers of pool `p`. */
  function Share(records: map<RecordKey, HypeRecord>, k: RecordKey, p: PoolKey): nat
    requires k in records
  {
    if k.pool == p then records[k].amount else 0
  }

  /** Sum of the record amounts of pool `p`. */
  ghost function Held(records: map<RecordKey, HypeRecord>, p: PoolKey): nat
    decreases |records|
  {
    if records == map[] then 0
    else
      var k :| k in records;
      Share(records, k, p) + Held(records - {k}, p)
  }

  /** Pool `p` is consistent: its key names its creator and post, its vault
      holds the rent floor plus exactly `reserved_sol`, and `total_hype` is the
      creator's bonus plus every buyer's record. */
  ghost predicate PoolOk(s: State, p: PoolKey)
    requires p in s.pools && p in s.vaults
  {
    && s.pools[p].creator == p.creator && s.pools[p].postId == p.postId
    && s.vaults[p] == s.rentFloor + s.pools[p].reservedSol
    && s.pools[p].totalHype == s.pools[p].creatorHypeBalance + Held(s.records, p)
  }

  /** Record `k` belongs to an existing pool and its fields agree with its key. */
  predicate RecordOk(s: State, k: RecordKey)
    requires k in s.records
  {
    k.pool in s.pools && s.records[k].user == k.user && s.records[k].pool == k.pool
  }

  /** The treasury is never left short of rent, and while the program owns it
      the config exists and the treasury holds at least its 8-byte floor. */
  predicate TreasuryOk(s: State) {
    && TreasuryRentExempt(s, s.treasury)
    && (s.treasuryOwned ==> s.config.Some? && s.treasury >= s.rentFloor)
  }

  /** What holds of every reachable state: the treasury is sound, each pool
      has its vault and is consistent, and every record is. */
  ghost predicate Inv(s: State) {
    && TreasuryOk(s)
    && s.pools.Keys == s.vaults.Keys
    && (forall p :: p in s.pools ==> p in s.vaults && PoolOk(s, p))
    && (forall k :: k in s.records ==> RecordOk(s, k))
  }
}
