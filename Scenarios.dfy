/** The integration test's scenarios, each as a lemma about the ledger: the
    same instructions with the same amounts, and the same assertions, on any
    ledger in which the test's fresh creator has not opened the post yet. */
module Scenarios {
  import opened Amm
  import opened Ledger
  import opened Effects
  import opened Mirror
  import opened Properties

  const LAMPORTS_PER_SOL: nat := 1_000_000_000

  /** A ledger in which initialize_treasury has run, as the test's set-up
      makes sure, so that the program owns a treasury holding at least its
      rent floor; in which `creator` holds `funds` lamports and has neither
      opened post `postId` nor bought from it; and whose rent floor is at most
      1_000_000 lamports (the rent-exempt minimum of an 8-byte account is
      below that). */
  predicate Fresh(s: State, creator: Pubkey, postId: U64, funds: nat) {
    && s.config.Some? && s.treasuryOwned && s.treasury >= s.rentFloor
    && PoolKey(creator, postId) !in s.pools
    && RecordKey(creator, PoolKey(creator, postId)) !in s.records
    && Lamports(s.wallets, creator) == funds
    && s.rentFloor <= 1_000_000
  }

  /** "initialize post pool": a 0.5 SOL deposit opens a pool holding it
      against ten times as much HYPE, whose circulation is the creator's bonus,
      and a vault holding at least the deposit. */
  lemma InitializePostScenario(s: State, creator: Pubkey)
    requires Fresh(s, creator, 10, LAMPORTS_PER_SOL)
    ensures var r := InitializePost(s, creator, 10, LAMPORTS_PER_SOL / 2);
      && r.Success? && PoolKey(creator, 10) in r.value.pools
      && var pool := r.value.pools[PoolKey(creator, 10)];
      && pool.creator == creator && pool.postId == 10
      && pool.reservedSol == 500_000_000 && pool.reservedHype == 500_000_000 * 10
      && pool.totalHype == pool.creatorHypeBalance
      && Lamports(r.value.vaults, PoolKey(creator, 10)) >= 500_000_000
  {
    InitializePostSucceeds(s, creator, 10, 500_000_000);
  }

  /** "price calculation matches AMM": on a fresh 0.5 SOL pool the mirror
      quotes 1000 lamports for 10_000 HYPE, which is positive and is the
      program's own price. */
  lemma PricePositiveScenario(s: State, creator: Pubkey)
    requires Fresh(s, creator, 11, LAMPORTS_PER_SOL)
    ensures var r := InitializePost(s, creator, 11, 500_000_000);
      && r.Success? && PoolKey(creator, 11) in r.value.pools
      && var pool := r.value.pools[PoolKey(creator, 11)];
      && AmmPriceMirror(pool.reservedSol, pool.reservedHype, 10_000) == Some(1000)
      && AmmPrice(pool.reservedSol, pool.reservedHype, 10_000) == Some(1000)
  {
    InitializePostSucceeds(s, creator, 11, 500_000_000);
    AmmPriceMirrorAgrees(500_000_000, 5_000_000_000, 10_000);
  }

  /** "buy hype from post pool with computed slippage": the creator buys the
      minimum 1_000_000 HYPE from a fresh 0.5 SOL pool with a price limit of
      the mirror's quote plus 5%; the buy succeeds, the record holds exactly
      the purchase, and the reserve and the circulation move by exactly it. */
  lemma BuyWithSlippageScenario(s: State, creator: Pubkey)
    requires Fresh(s, creator, 12, 2 * LAMPORTS_PER_SOL)
    ensures var r := InitializePost(s, creator, 12, 500_000_000);
      && r.Success? && PoolKey(creator, 12) in r.value.pools
      && var before := r.value.pools[PoolKey(creator, 12)];
      && AmmPriceMirror(before.reservedSol, before.reservedHype, 1_000_000) == Some(100_020)
      && var maxAcceptablePrice := WithTolerance(100_020, 105);
      && maxAcceptablePrice == 105_021
      && var h := Hype(r.value, creator, PoolKey(creator, 12), 1_000_000, 105_021);
      && h.Success? && PoolKey(creator, 12) in h.value.pools
      && RecordKey(creator, PoolKey(creator, 12)) in h.value.records
      && h.value.records[RecordKey(creator, PoolKey(creator, 12))].amount == 1_000_000
      && h.value.pools[PoolKey(creator, 12)].reservedHype == before.reservedHype - 1_000_000
      && h.value.pools[PoolKey(creator, 12)].totalHype == before.totalHype + 1_000_000
  {
    var key := PoolKey(creator, 12);
    InitializePostSucceeds(s, creator, 12, 500_000_000);
    var t := InitializePostApplied(s, creator, 12, 500_000_000);
    AmmPriceMirrorAgrees(500_000_000, 5_000_000_000, 1_000_000);
    assert HypeAccepted(t, creator, key, 1_000_000, 105_021);
    HypeSucceeds(t, creator, key, 1_000_000, 105_021);
  }

  /** "buy then sell hype preserves AMM (within rounding)": on a fresh 2 SOL
      pool the creator buys 10_000_000 HYPE with a 1% price limit and sells
      them back with a 5% refund floor.  Both succeed, the record ends empty,
      the HYPE reserve returns exactly to where it was and the circulation to
      the creator's bonus.  The refund, 1_000_501, is one lamport more than
      the price paid, 1_000_500. */
  lemma BuyThenSellScenario(s: State, creator: Pubkey)
    requires Fresh(s, creator, 13, 5 * LAMPORTS_PER_SOL)
    ensures var key := PoolKey(creator, 13);
      var r := InitializePost(s, creator, 13, 2 * LAMPORTS_PER_SOL);
      && r.Success? && key in r.value.pools
      && AmmPriceMirror(2_000_000_000, 20_000_000_000, 10_000_000) == Some(1_000_500)
      && var h := Hype(r.value, creator, key, 10_000_000, WithTolerance(1_000_500, 101));
      && h.Success? && key in h.value.pools
      && AmmRefundMirror(h.value.pools[key].reservedSol, h.value.pools[key].reservedHype, 10_000_000) == Some(1_000_501)
      && var u := Unhype(h.value, creator, key, 10_000_000, WithTolerance(1_000_501, 95));
      && u.Success? && key in u.value.pools && RecordKey(creator, key) in u.value.records
      && u.value.records[RecordKey(creator, key)].amount == 0
      && u.value.pools[key].reservedHype == r.value.pools[key].reservedHype
      && u.value.pools[key].totalHype == u.value.pools[key].creatorHypeBalance
  {
    var key := PoolKey(creator, 13);
    InitializePostSucceeds(s, creator, 13, 2_000_000_000);
    var t := InitializePostApplied(s, creator, 13, 2_000_000_000);
    AmmPriceMirrorAgrees(2_000_000_000, 20_000_000_000, 10_000_000);
    assert WithTolerance(1_000_500, 101) == 1_010_505;
    assert HypeAccepted(t, creator, key, 10_000_000, 1_010_505);
    HypeSucceeds(t, creator, key, 10_000_000, 1_010_505);
    var m := HypeApplied(t, creator, key, 10_000_000, 1_000_500);
    SellBackAfterBuy(m, creator, key);
  }

  /** The sale of `BuyThenSellScenario`, on the pool as the buy left it:
      2_001_000_500 lamports against 19_990_000_000 HYPE, and the creator's
      record holding the 10_000_000 HYPE just bought. */
  lemma SellBackAfterBuy(m: State, creator: Pubkey, key: PoolKey)
    requires key in m.pools && RecordKey(creator, key) in m.records
    requires m.records[RecordKey(creator, key)] == HypeRecord(creator, key, 10_000_000)
    requires m.pools[key].reservedSol == 2_001_000_500 && m.pools[key].reservedHype == 19_990_000_000
    requires m.pools[key].totalHype == m.pools[key].creatorHypeBalance + 10_000_000
    requires Lamports(m.vaults, key) == m.rentFloor + 2_001_000_500
    requires m.treasuryOwned && m.treasury >= m.rentFloor
    ensures AmmRefundMirror(2_001_000_500, 19_990_000_000, 10_000_000) == Some(1_000_501)
    ensures var u := Unhype(m, creator, key, 10_000_000, WithTolerance(1_000_501, 95));
      && u.Success? && key in u.value.pools && RecordKey(creator, key) in u.value.records
      && u.value.records[RecordKey(creator, key)].amount == 0
      && u.value.pools[key].reservedHype == 20_000_000_000
      && u.value.pools[key].totalHype == u.value.pools[key].creatorHypeBalance
  {
    AmmRefundMirrorAgrees(2_001_000_500, 19_990_000_000, 10_000_000);
    assert WithTolerance(1_000_501, 95) == 950_475;
    assert UnhypeAccepted(m, creator, key, 10_000_000, 950_475);
    UnhypeSucceeds(m, creator, key, 10_000_000, 950_475);
  }

  /** "cannot buy more hype than reserve": on a fresh pool of 200_000
      lamports, a buy of one HYPE more than the reserve fails with
      InsufficientHypeReserve. */
  lemma BuyBeyondReserveScenario(s: State, creator: Pubkey)
    requires Fresh(s, creator, 14, LAMPORTS_PER_SOL)
    ensures var key := PoolKey(creator, 14);
      var r := InitializePost(s, creator, 14, 200_000);
      && r.Success? && key in r.value.pools
      && Hype(r.value, creator, key, r.value.pools[key].reservedHype + 1, 0) == Failure(InsufficientHypeReserve)
  {
    InitializePostSucceeds(s, creator, 14, 200_000);
  }

  /** "creator release hype pays out correctly": the creator of a fresh
      0.5 SOL pool, whose bonus is a tenth of the HYPE reserve, releases half
      of it; the bonus and the circulation drop by that amount and the reserve
      rises by it, and 26_315_789 lamports move from the vault to the creator. */
  lemma ReleaseScenario(s: State, creator: Pubkey)
    requires Fresh(s, creator, 15, LAMPORTS_PER_SOL)
    ensures var key := PoolKey(creator, 15);
      var r := InitializePost(s, creator, 15, 500_000_000);
      && r.Success? && key in r.value.pools
      && var before := r.value.pools[key];
      && before.creatorHypeBalance == 500_000_000 * HYPE_PER_LAMPORT / 10
      && var released := before.creatorHypeBalance / 2;
      && var c := CreatorReleaseHype(r.value, creator, key, released);
      && c.Success? && key in c.value.pools
      && c.value.pools[key].creatorHypeBalance == before.creatorHypeBalance - released
      && c.value.pools[key].reservedHype == before.reservedHype + released
      && c.value.pools[key].totalHype == before.totalHype - released
      && Lamports(c.value.wallets, creator) == Lamports(r.value.wallets, creator) + 26_315_789
      && Lamports(c.value.vaults, key) + 26_315_789 == Lamports(r.value.vaults, key)
  {
    var key := PoolKey(creator, 15);
    InitializePostSucceeds(s, creator, 15, 500_000_000);
    var t := InitializePostApplied(s, creator, 15, 500_000_000);
    assert AmmPrice(500_000_000, 5_000_000_000, 250_000_000) == Some(26_315_789);
    assert CreatorReleaseHypeAccepted(t, creator, key, 250_000_000);
    CreatorReleaseHypeSucceeds(t, creator, key, 250_000_000);
  }

  /** "verify treasury accumulation": opening a 1 SOL pool pays the treasury
      20_000_000 lamports and the minimum buy pays it 500 more, so the
      treasury rises at each step and in total by the sum of the two. */
  lemma TreasuryAccumulationScenario(s: State, creator: Pubkey)
    requires Fresh(s, creator, 16, 3 * LAMPORTS_PER_SOL)
    ensures var key := PoolKey(creator, 16);
      var r := InitializePost(s, creator, 16, LAMPORTS_PER_SOL);
      && r.Success? && key in r.value.pools
      && AmmPriceMirror(r.value.pools[key].reservedSol, r.value.pools[key].reservedHype, MIN_HYPE_TO_BUY) == Some(100_010)
      && var h := Hype(r.value, creator, key, MIN_HYPE_TO_BUY, WithTolerance(100_010, 105));
      && h.Success?
      && r.value.treasury == s.treasury + 20_000_000
      && h.value.treasury == r.value.treasury + 500
      && h.value.treasury - s.treasury == (r.value.treasury - s.treasury) + (h.value.treasury - r.value.treasury)
  {
    var key := PoolKey(creator, 16);
    InitializePostSucceeds(s, creator, 16, 1_000_000_000);
    var t := InitializePostApplied(s, creator, 16, 1_000_000_000);
    AmmPriceMirrorAgrees(1_000_000_000, 10_000_000_000, 1_000_000);
    assert WithTolerance(100_010, 105) == 105_010;
    assert HypeAccepted(t, creator, key, 1_000_000, 105_010);
    HypeSucceeds(t, creator, key, 1_000_000, 105_010);
  }

  /** Pricing the creator's release with the buy formula can empty the SOL
      reserve: on a pool opened with 1_000_000 lamports in which another
      buyer has bought 9_000_000 HYPE for 9_000_000 lamports, releasing half
      the creator's bonus pays out the whole reserve (after which that buyer
      can sell back for nothing), and releasing a little more is refused. */
  lemma ReleaseDrainsReserve(s: State, creator: Pubkey, buyer: Pubkey)
    requires Fresh(s, creator, 17, LAMPORTS_PER_SOL) && buyer != creator
    requires RecordKey(buyer, PoolKey(creator, 17)) !in s.records
    requires Lamports(s.wallets, buyer) == LAMPORTS_PER_SOL
    ensures var key := PoolKey(creator, 17);
      var r := InitializePost(s, creator, 17, 1_000_000);
      && r.Success?
      && var h := Hype(r.value, buyer, key, 9_000_000, 9_000_000);
      && h.Success? && key in h.value.pools
      && h.value.pools[key].reservedSol == 10_000_000
      && CreatorReleaseHype(h.value, creator, key, 600_000) == Failure(InsufficientSolReserve)
      && var c := CreatorReleaseHype(h.value, creator, key, 500_000);
      && c.Success? && key in c.value.pools
      && c.value.pools[key].reservedSol == 0
      && Lamports(c.value.vaults, key) == s.rentFloor
      && AmmRefund(c.value.pools[key].reservedSol, c.value.pools[key].reservedHype, 9_000_000) == Some(0)
  {
    var key := PoolKey(creator, 17);
    InitializePostSucceeds(s, creator, 17, 1_000_000);
    var t := InitializePostApplied(s, creator, 17, 1_000_000);
    assert AmmPrice(1_000_000, 10_000_000, 9_000_000) == Some(9_000_000);
    assert HypeAccepted(t, buyer, key, 9_000_000, 9_000_000);
    HypeSucceeds(t, buyer, key, 9_000_000, 9_000_000);
    var m := HypeApplied(t, buyer, key, 9_000_000, 9_000_000);
    ReleaseFromDrainablePool(m, creator, key);
  }

  /** The releases of `ReleaseDrainsReserve`, on the pool as the buy left it:
      10_000_000 lamports against 1_000_000 HYPE, with a bonus of 1_000_000. */
  lemma ReleaseFromDrainablePool(m: State, creator: Pubkey, key: PoolKey)
    requires key in m.pools && m.pools[key].creator == creator
    requires m.pools[key].reservedSol == 10_000_000 && m.pools[key].reservedHype == 1_000_000
    requires m.pools[key].creatorHypeBalance == 1_000_000 && m.pools[key].totalHype == 10_000_000
    requires Lamports(m.vaults, key) == m.rentFloor + 10_000_000
    ensures CreatorReleaseHype(m, creator, key, 600_000) == Failure(InsufficientSolReserve)
    ensures var c := CreatorReleaseHype(m, creator, key, 500_000);
      && c.Success? && key in c.value.pools
      && c.value.pools[key].reservedSol == 0
      && Lamports(c.value.vaults, key) == m.rentFloor
      && AmmRefund(c.value.pools[key].reservedSol, c.value.pools[key].reservedHype, 9_000_000) == Some(0)
  {
    assert AmmPrice(10_000_000, 1_000_000, 600_000) == Some(15_000_000);
    assert AmmPrice(10_000_000, 1_000_000, 500_000) == Some(10_000_000);
    assert CreatorReleaseHypeAccepted(m, creator, key, 500_000);
    CreatorReleaseHypeSucceeds(m, creator, key, 500_000);
  }
}
