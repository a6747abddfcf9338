/**
  Evidence: a coin record that names the awaited coin, at a height a block could carry it,
  under `MIN_CONFIRMATION_DEPTH` blocks. The three constructors apply the same five rules
  each to its own pending mint, and the same finality argument covers all of them.
*/
module Evidence {
  import opened Base
  import opened Chain

  datatype PendingMint = PendingMint(
    launcherId: Id, didCoinId: Id, sourceCoinId: Id, pushedAtHeight: u32)

  datatype MintedDid = MintedDid(launcherId: Id, coinId: Id, confirmedHeight: u32)

  datatype PendingStoreLaunch = PendingStoreLaunch(
    launcherId: Id, storeCoinId: Id, didCoinId: Id, committedRoot: nat, pushedAtHeight: u32)

  datatype ConfirmedStore = ConfirmedStore(
    launcherId: Id, coinId: Id, confirmedHeight: u32, didCoinId: Id, committedRoot: nat)

  datatype PendingDistributor = PendingDistributor(
    distributorLauncherId: Id, managerLauncherId: Id, fundingCoinId: Id, rewardCatCoinId: Id,
    generation: Generation, pushedAtHeight: u32)

  datatype ConfirmedDistributor = ConfirmedDistributor(
    distributorLauncherId: Id, managerLauncherId: Id, confirmedHeight: u32, generation: Generation)

  /** The burial arithmetic: blocks on top, plus the confirming block itself. */
  function Depth(peak: u32, height: u32): u32 {
    SatAdd32(SatSub(peak, height), 1)
  }

  predicate Shallow(peak: u32, height: u32) {
    Depth(peak, height) < MIN_CONFIRMATION_DEPTH
  }

  /** `MintedDid::from_confirmed`. */
  function DidFromConfirmed(pending: PendingMint, rec: CoinRecord, peak: u32): Option<MintedDid> {
    if rec.coin.Id() != pending.didCoinId then None
    else if rec.confirmedHeight.None? then None
    else
      var confirmed := rec.confirmedHeight.value;
      if confirmed == 0 || confirmed < pending.pushedAtHeight then None
      else if Shallow(peak, confirmed) then None
      else Some(MintedDid(pending.launcherId, pending.didCoinId, confirmed))
  }

  /** `MintedDid::reverified`: the journalled height is the floor, the source coin is unknown. */
  function DidReverified(
    launcherId: Id, coinId: Id, journalledHeight: u32, rec: CoinRecord, peak: u32): Option<MintedDid>
  {
    DidFromConfirmed(PendingMint(launcherId, coinId, coinId, journalledHeight), rec, peak)
  }

  /** `ConfirmedStore::from_confirmed`. */
  function StoreFromConfirmed(pending: PendingStoreLaunch, rec: CoinRecord, peak: u32): Option<ConfirmedStore> {
    if rec.coin.Id() != pending.storeCoinId then None
    else if rec.confirmedHeight.None? then None
    else
      var confirmed := rec.confirmedHeight.value;
      if confirmed == 0 || confirmed < pending.pushedAtHeight then None
      else if Shallow(peak, confirmed) then None
      else Some(ConfirmedStore(
                  pending.launcherId, pending.storeCoinId, confirmed, pending.didCoinId, pending.committedRoot))
  }

  datatype Defect =
    WrongCoin | Unconfirmed | Genesis | PredatesPush | TooShallow | WrongLauncher | WrongGeneration

  /** `check`: the first rule a distributor's evidence breaks. */
  function Check(
    pending: PendingDistributor, rec: CoinRecord, discovered: (Id, Generation), peak: u32): Result<(), Defect>
  {
    if rec.coin.Id() != pending.distributorLauncherId then Err(WrongCoin)
    else if rec.confirmedHeight.None? then Err(Unconfirmed)
    else
      var confirmed := rec.confirmedHeight.value;
      if confirmed == 0 then Err(Genesis)
      else if confirmed < pending.pushedAtHeight then Err(PredatesPush)
      else if Shallow(peak, confirmed) then Err(TooShallow)
      else if discovered.0 != pending.distributorLauncherId then Err(WrongLauncher)
      else if discovered.1 != pending.generation then Err(WrongGeneration)
      else Ok(())
  }

  /** `ConfirmedRewardDistributor::from_confirmed`. */
  function DistributorFromConfirmed(
    pending: PendingDistributor, rec: CoinRecord, discovered: (Id, Generation), peak: u32):
    Option<ConfirmedDistributor>
  {
    if Check(pending, rec, discovered, peak).Err? then None
    else Some(ConfirmedDistributor(
                pending.distributorLauncherId, pending.managerLauncherId,
                rec.confirmedHeight.value, pending.generation))
  }

  /** What the five rules amount to over the unbounded naturals. */
  predicate Buried(expected: Id, floor: u32, rec: CoinRecord, peak: u32) {
    && rec.coin.Id() == expected
    && rec.confirmedHeight.Some?
    && var h := rec.confirmedHeight.value;
       && 0 < h && floor <= h && h + 5 <= peak
  }

  /** The saturating depth test is the plain inequality, a height past the peak and
      `u32::MAX` included. */
  lemma DepthTestIsBurial(peak: u32, height: u32)
    ensures !Shallow(peak, height) <==> height + 5 <= peak
    ensures peak <= height ==> Shallow(peak, height)
  {
  }

  /** A DID is evidence exactly of a buried record of the coin its mint named. */
  lemma DidEvidenceIff(pending: PendingMint, rec: CoinRecord, peak: u32)
    ensures DidFromConfirmed(pending, rec, peak).Some?
            <==> Buried(pending.didCoinId, pending.pushedAtHeight, rec, peak)
    ensures DidFromConfirmed(pending, rec, peak).Some? ==>
              var did := DidFromConfirmed(pending, rec, peak).value;
              did.coinId == rec.coin.Id() && Some(did.confirmedHeight) == rec.confirmedHeight
  {
  }

  lemma StoreEvidenceIff(pending: PendingStoreLaunch, rec: CoinRecord, peak: u32)
    ensures StoreFromConfirmed(pending, rec, peak).Some?
            <==> Buried(pending.storeCoinId, pending.pushedAtHeight, rec, peak)
    ensures StoreFromConfirmed(pending, rec, peak).Some? ==>
              var store := StoreFromConfirmed(pending, rec, peak).value;
              && store.coinId == rec.coin.Id() && Some(store.confirmedHeight) == rec.confirmedHeight
              && store.didCoinId == pending.didCoinId
  {
  }

  lemma DistributorEvidenceIff(
    pending: PendingDistributor, rec: CoinRecord, discovered: (Id, Generation), peak: u32)
    ensures DistributorFromConfirmed(pending, rec, discovered, peak).Some? <==>
              && Buried(pending.distributorLauncherId, pending.pushedAtHeight, rec, peak)
              && discovered == (pending.distributorLauncherId, pending.generation)
  {
  }

  /** Finality: a buried record an honest source served stays true of every later chain. */
  lemma BuriedIsFinal(v: View, h: seq<Blocks>, k: nat, expected: Id, floor: u32, rec: CoinRecord)
    requires History(h) && k < |h| && h[0] == v.blocks
    requires Reports(v, expected, Some(rec)) && Buried(expected, floor, rec, Peak(h[0]))
    ensures CreatedAt(h[k], rec.coin, rec.confirmedHeight.value)
  {
    BuriedCreationStays(h, k, rec.coin, rec.confirmedHeight.value);
  }

  /** Every kind of evidence names a coin that every later chain still carries, at the same
      height, through any run of growth and reorganisations of at most five blocks. */
  lemma DidIsFinal(v: View, h: seq<Blocks>, k: nat, pending: PendingMint, rec: CoinRecord)
    requires History(h) && k < |h| && h[0] == v.blocks && Reports(v, pending.didCoinId, Some(rec))
    requires DidFromConfirmed(pending, rec, Peak(h[0])).Some?
    ensures pending.didCoinId.Of?
    ensures CreatedAt(h[k], CoinOf(pending.didCoinId),
                      DidFromConfirmed(pending, rec, Peak(h[0])).value.confirmedHeight)
  {
    BuriedIsFinal(v, h, k, pending.didCoinId, pending.pushedAtHeight, rec);
  }

  lemma StoreIsFinal(v: View, h: seq<Blocks>, k: nat, pending: PendingStoreLaunch, rec: CoinRecord)
    requires History(h) && k < |h| && h[0] == v.blocks && Reports(v, pending.storeCoinId, Some(rec))
    requires StoreFromConfirmed(pending, rec, Peak(h[0])).Some?
    ensures pending.storeCoinId.Of?
    ensures CreatedAt(h[k], CoinOf(pending.storeCoinId),
                      StoreFromConfirmed(pending, rec, Peak(h[0])).value.confirmedHeight)
  {
    BuriedIsFinal(v, h, k, pending.storeCoinId, pending.pushedAtHeight, rec);
  }

  lemma DistributorIsFinal(
    v: View, h: seq<Blocks>, k: nat, pending: PendingDistributor, rec: CoinRecord, discovered: (Id, Generation))
    requires History(h) && k < |h| && h[0] == v.blocks && Reports(v, pending.distributorLauncherId, Some(rec))
    requires DistributorFromConfirmed(pending, rec, discovered, Peak(h[0])).Some?
    ensures pending.distributorLauncherId.Of?
    ensures CreatedAt(h[k], CoinOf(pending.distributorLauncherId),
                      DistributorFromConfirmed(pending, rec, discovered, Peak(h[0])).value.confirmedHeight)
  {
    BuriedIsFinal(v, h, k, pending.distributorLauncherId, pending.pushedAtHeight, rec);
  }

  /** One block less of burial is not enough: a coin at depth five can be reorganised away. */
  lemma FiveDeepIsReversible(coin: Coin)
    requires coin.parent.Raw?
    ensures exists c, c' ::
              && Valid(c) && Valid(c') && Follows(c, c') && CreatedAt(c, coin, 1)
              && Depth(Peak(c), 1) == 5 && !Exists(c', coin)
  {
    var e := Block({}, {});
    var c := [e, Block({coin}, {}), e, e, e, e];
    var c' := [e, e, e, e, e, e];
    assert forall b, i: nat :: !IncludedAt(c, b, i) && !IncludedAt(c', b, i);
    assert CreatedAt(c, coin, 1);
    assert Settled(c) == [e] == c'[..1];
    assert Valid(c) && Valid(c') && Follows(c, c') && !Exists(c', coin);
  }
}
