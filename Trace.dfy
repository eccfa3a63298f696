/** Sequences of transactions.  Each transaction runs one instruction; a
    transaction that fails leaves every account as it was, and the next one
    runs on whatever state the previous ones left.  What a single successful
    instruction keeps is thereby kept along any sequence. */
module Trace {
  import opened Amm
  import opened Ledger
  import opened Effects
  import opened Invariants
  import opened Properties

  datatype Instruction =
    | InitializeTreasuryIx(payer: Pubkey)
    | InitializePostIx(creator: Pubkey, postId: U64, deposited: U128)
    | HypeIx(buyer: Pubkey, key: PoolKey, amount: U128, maxAcceptablePrice: U128)
    | UnhypeIx(user: Pubkey, key: PoolKey, amount: U128, minAcceptableRefund: U128)
    | CreatorReleaseHypeIx(user: Pubkey, key: PoolKey, amount: U128)
    | WithdrawTreasuryIx(authority: Pubkey, recipient: Pubkey, lamports: U64)

  function Execute(s: State, ix: Instruction): Result<State> {
    match ix
    case InitializeTreasuryIx(payer) => InitializeTreasury(s, payer)
    case InitializePostIx(creator, postId, deposited) => InitializePost(s, creator, postId, deposited)
    case HypeIx(buyer, key, amount, maxPrice) => Hype(s, buyer, key, amount, maxPrice)
    case UnhypeIx(user, key, amount, minRefund) => Unhype(s, user, key, amount, minRefund)
    case CreatorReleaseHypeIx(user, key, amount) => CreatorReleaseHype(s, user, key, amount)
    case WithdrawTreasuryIx(authority, recipient, amount) => WithdrawTreasury(s, authority, recipient, amount)
  }

  /** A transaction: the instruction's new state, or the old one if it fails. */
  function Apply(s: State, ix: Instruction): State {
    var r := Execute(s, ix);
    if r.Success? then r.value else s
  }

  function Run(s: State, txs: seq<Instruction>): State
    decreases |txs|
  {
    if txs == [] then s else Run(Apply(s, txs[0]), txs[1..])
  }

  /** The HYPE of a pool, in its reserve or in circulation. */
  function Supply(s: State, p: PoolKey): nat
    requires p in s.pools
  {
    s.pools[p].reservedHype + s.pools[p].totalHype
  }

  // ---------------------------------------------------------------------------
  // The accounting invariant

  lemma ApplyPreservesInv(s: State, ix: Instruction)
    requires Inv(s)
    ensures Inv(Apply(s, ix))
  {
    if Execute(s, ix).Success? {
      match ix
      case InitializeTreasuryIx(payer) => InitializeTreasuryPreservesInv(s, payer);
      case InitializePostIx(creator, postId, deposited) => InitializePostPreservesInv(s, creator, postId, deposited);
      case HypeIx(buyer, key, amount, maxPrice) => HypePreservesInv(s, buyer, key, amount, maxPrice);
      case UnhypeIx(user, key, amount, minRefund) => UnhypePreservesInv(s, user, key, amount, minRefund);
      case CreatorReleaseHypeIx(user, key, amount) => CreatorReleaseHypePreservesInv(s, user, key, amount);
      case WithdrawTreasuryIx(authority, recipient, amount) => WithdrawTreasuryPreservesInv(s, authority, recipient, amount);
    }
  }

  /** Every state reached from genesis, whatever the transactions and
      whichever of them fail, satisfies the accounting invariant: each vault
      holds its rent floor plus exactly `reserved_sol`, and each pool's
      `total_hype` is the creator's bonus plus every buyer's record. */
  lemma {:induction false} RunPreservesInv(s: State, txs: seq<Instruction>)
    requires Inv(s)
    ensures Inv(Run(s, txs))
    decreases |txs|
  {
    if txs != [] {
      ApplyPreservesInv(s, txs[0]);
      RunPreservesInv(Apply(s, txs[0]), txs[1..]);
    }
  }

  lemma ReachableInv(rentFloor: nat, emptyRentFloor: nat, wallets: map<Pubkey, nat>, txs: seq<Instruction>)
    ensures Inv(Run(Genesis(rentFloor, emptyRentFloor, wallets), txs))
  {
    GenesisInv(rentFloor, emptyRentFloor, wallets);
    RunPreservesInv(Genesis(rentFloor, emptyRentFloor, wallets), txs);
  }

  // ---------------------------------------------------------------------------
  // Conservation of HYPE

  lemma ApplyKeepsSupply(s: State, ix: Instruction, p: PoolKey)
    requires p in s.pools
    ensures p in Apply(s, ix).pools && Supply(Apply(s, ix), p) == Supply(s, p)
  {
    if Execute(s, ix).Success? {
      match ix
      case InitializeTreasuryIx(payer) =>
        InitializeTreasuryEffect(s, payer);
      case InitializePostIx(creator, postId, deposited) =>
        InitializePostEffect(s, creator, postId, deposited);
      case HypeIx(buyer, key, amount, maxPrice) =>
        HypeConserves(s, buyer, key, amount, maxPrice);
      case UnhypeIx(user, key, amount, minRefund) =>
        UnhypeConserves(s, user, key, amount, minRefund);
      case CreatorReleaseHypeIx(user, key, amount) =>
        CreatorReleaseHypeConserves(s, user, key, amount);
      case WithdrawTreasuryIx(authority, recipient, amount) =>
        WithdrawTreasuryEffect(s, authority, recipient, amount);
    }
  }

  /** A pool, once open, never closes, and no sequence of transactions
      changes its HYPE supply, which `initialize_post` set to 11 times the
      deposit. */
  lemma {:induction false} RunKeepsSupply(s: State, txs: seq<Instruction>, p: PoolKey)
    requires p in s.pools
    ensures p in Run(s, txs).pools && Supply(Run(s, txs), p) == Supply(s, p)
    decreases |txs|
  {
    if txs != [] {
      ApplyKeepsSupply(s, txs[0], p);
      RunKeepsSupply(Apply(s, txs[0]), txs[1..], p);
    }
  }

  // ---------------------------------------------------------------------------
  // Records are never closed

  lemma ApplyKeepsRecord(s: State, ix: Instruction, k: RecordKey)
    requires k in s.records
    ensures k in Apply(s, ix).records
  {
    if Execute(s, ix).Success? {
      match ix
      case InitializeTreasuryIx(payer) =>
        InitializeTreasuryEffect(s, payer);
      case InitializePostIx(creator, postId, deposited) =>
        InitializePostEffect(s, creator, postId, deposited);
      case HypeIx(buyer, key, amount, maxPrice) =>
        HypeEffect(s, buyer, key, amount, maxPrice);
      case UnhypeIx(user, key, amount, minRefund) =>
        UnhypeEffect(s, user, key, amount, minRefund);
      case CreatorReleaseHypeIx(user, key, amount) =>
        CreatorReleaseHypeEffect(s, user, key, amount);
      case WithdrawTreasuryIx(authority, recipient, amount) =>
        WithdrawTreasuryEffect(s, authority, recipient, amount);
    }
  }

  /** A buyer's record outlives every later transaction, even a sale of all
      it holds, so whatever happens after a buyer's first hype on a pool, a
      further hype by that buyer on that pool is refused. */
  lemma {:induction false} HypeAtMostOnce(s: State, txs: seq<Instruction>, buyer: Pubkey, key: PoolKey,
                                          amount: U128, maxAcceptablePrice: U128)
    requires RecordKey(buyer, key) in s.records
    ensures RecordKey(buyer, key) in Run(s, txs).records
    ensures key in Run(s, txs).pools ==>
      Hype(Run(s, txs), buyer, key, amount, maxAcceptablePrice) == Failure(AccountAlreadyInUse)
    decreases |txs|
  {
    if txs != [] {
      ApplyKeepsRecord(s, txs[0], RecordKey(buyer, key));
      HypeAtMostOnce(Apply(s, txs[0]), txs[1..], buyer, key, amount, maxAcceptablePrice);
    }
  }

  // ---------------------------------------------------------------------------
  // A deleted treasury stays lost

  lemma ApplyKeepsTreasuryLost(s: State, ix: Instruction)
    requires s.config.Some? && !s.treasuryOwned
    ensures Apply(s, ix).config.Some? && !Apply(s, ix).treasuryOwned
  {
    if Execute(s, ix).Success? {
      match ix
      case InitializeTreasuryIx(payer) =>
      case InitializePostIx(creator, postId, deposited) =>
        InitializePostEffect(s, creator, postId, deposited);
      case HypeIx(buyer, key, amount, maxPrice) =>
        HypeEffect(s, buyer, key, amount, maxPrice);
      case UnhypeIx(user, key, amount, minRefund) =>
        UnhypeEffect(s, user, key, amount, minRefund);
      case CreatorReleaseHypeIx(user, key, amount) =>
        CreatorReleaseHypeEffect(s, user, key, amount);
      case WithdrawTreasuryIx(authority, recipient, amount) =>
        WithdrawTreasuryEffect(s, authority, recipient, amount);
    }
  }

  /** Once a withdrawal has emptied the treasury, no sequence of
      transactions gives it back to the program: the config still exists, so
      initialize_treasury is refused, and every withdrawal of a positive
      amount fails, whatever fees have flowed in since. */
  lemma {:induction false} TreasuryLostForGood(s: State, txs: seq<Instruction>,
                                               authority: Pubkey, recipient: Pubkey, amount: U64)
    requires s.config.Some? && !s.treasuryOwned && 0 < amount
    ensures !Run(s, txs).treasuryOwned
    ensures WithdrawTreasury(Run(s, txs), authority, recipient, amount).Failure?
    decreases |txs|
  {
    if txs != [] {
      ApplyKeepsTreasuryLost(s, txs[0]);
      TreasuryLostForGood(Apply(s, txs[0]), txs[1..], authority, recipient, amount);
    }
  }
}
