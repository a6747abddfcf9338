/**
  The bundles this library builds are the bundles its verdicts speak of. The distributor launch is
  followed from the two coins it is given to the record that resumes it; the DID mint's verdicts
  are read at the DID bundle itself.
*/
module OwnBundles {
  import opened Base
  import opened Chain
  import opened Evidence
  import opened Funding
  import opened Gates
  import opened Resuming = Resume
  import opened Status

  // ---------- the distributor launch ----------

  /** What one launch is given: its two coins, the amount its manager is launched with, the key its
      security coin was drawn for, the generation it advertises, and its fee. */
  datatype LaunchTerms = LaunchTerms(
    funding: Coin, rewardCat: Coin, managerAmount: u64, securityKey: nat, generation: Generation, fee: u64)
  {
    function SecurityCoin(): Coin {
      Coin(OfferedSettlementCoin(funding.Id()).Id(), Standard(securityKey), OFFER_XCH_AMOUNT)
    }

    function DistributorLauncher(): Coin {
      Coin(SecurityCoin().Id(), SingletonLauncher, OFFER_XCH_AMOUNT)
    }

    function CatSettlement(): Coin {
      Coin(rewardCat.Id(), DigCat(Settlement), rewardCat.amount)
    }
  }

  /** What the launch tells its caller to look for, once pushed at `height`. */
  function PendingLaunch(t: LaunchTerms, height: u32): PendingDistributor {
    PendingDistributor(
      t.DistributorLauncher().Id(), ManagerLauncherCoin(t.funding.Id(), t.managerAmount).Id(),
      t.funding.Id(), t.rewardCat.Id(), t.generation, height)
  }

  /** The spends of a launch: the funding coin, its settlement and the security coin; the reward CAT,
      whole, into the settlement puzzle; and `rest`, whatever else the launch drains. */
  function LaunchSpends(t: LaunchTerms, change: u64, rest: seq<Spend>): seq<Spend> {
    RewardSpends(t.funding, t.managerAmount, change, t.securityKey) + [Spend(t.rewardCat, [t.CatSettlement()])] + rest
  }

  function LaunchBundle(t: LaunchTerms, change: u64, rest: seq<Spend>): Bundle {
    AsBundle(LaunchSpends(t, change, rest)).(adverts := map[t.DistributorLauncher().Id() := t.generation])
  }

  predicate Makes(spends: seq<Spend>, coin: Coin) {
    exists s :: s in spends && coin in s.outputs
  }

  /** The rest spends only coins the launch makes, and makes only children of what it spends. */
  ghost predicate Staged(t: LaunchTerms, change: u64, rest: seq<Spend>) {
    forall s :: s in rest ==> Clean(s) && Makes(LaunchSpends(t, change, rest), s.coin)
  }

  /** Neither input is a child of a coin the launch spends. */
  predicate Unrelated(t: LaunchTerms, spends: seq<Spend>) {
    forall s :: s in spends ==> s.coin.Id() != t.funding.parent && s.coin.Id() != t.rewardCat.parent
  }

  lemma LaunchSpendsAre(t: LaunchTerms, change: u64, rest: seq<Spend>, s: Spend)
    requires Staged(t, change, rest) && s in LaunchSpends(t, change, rest)
    ensures forall o :: o in s.outputs ==> o.parent == s.coin.Id()
    ensures s.coin in {t.funding, t.rewardCat} || Makes(LaunchSpends(t, change, rest), s.coin)
  {
    var spends := LaunchSpends(t, change, rest);
    var i :| 0 <= i < |spends| && spends[i] == s;
    assert spends[0] in spends && spends[1] in spends && spends[2] in spends && spends[3] in spends;
    assert OfferedSettlementCoin(t.funding.Id()) in spends[0].outputs && t.SecurityCoin() in spends[1].outputs;
    if i >= 4 {
      assert s == rest[i - 4];
    }
  }

  /** The launch consumes the coins its pending mint names and creates the launcher it names, and the
      pending mint is one this account's records resume as. */
  lemma LaunchIsItsPending(minter: Minter, t: LaunchTerms, change: u64, rest: seq<Spend>, height: u32)
    requires Staged(t, change, rest)
    requires t.funding.puzzleHash == minter.puzzleHash && t.rewardCat.puzzleHash == DigCat(minter.puzzleHash)
    requires t.managerAmount == minter.managerAmount
    ensures Owned(minter, PendingLaunch(t, height))
    ensures LaunchOf(PendingLaunch(t, height), LaunchBundle(t, change, rest))
  {
    var spends := LaunchSpends(t, change, rest);
    var b := LaunchBundle(t, change, rest);
    assert spends[0] in spends && spends[2] in spends && spends[3] in spends;
    assert t.DistributorLauncher() in spends[2].outputs;
    forall o | o in b.outputs ensures o.parent.Of? && CoinOf(o.parent) in b.spends {
      var s :| s in spends && o in s.outputs;
      LaunchSpendsAre(t, change, rest, s);
    }
  }

  /** It needs its two coins from the chain and nothing else. */
  lemma LaunchNeedsItsTwoCoins(t: LaunchTerms, change: u64, rest: seq<Spend>)
    requires Staged(t, change, rest) && Unrelated(t, LaunchSpends(t, change, rest))
    ensures FundedBy(LaunchBundle(t, change, rest), {t.funding, t.rewardCat})
  {
    var spends := LaunchSpends(t, change, rest);
    var b := LaunchBundle(t, change, rest);
    assert spends[0] in spends && spends[3] in spends;
    forall o | o in b.outputs ensures o.parent.Of? && CoinOf(o.parent) in b.spends && o != t.funding && o != t.rewardCat {
      var s :| s in spends && o in s.outputs;
      LaunchSpendsAre(t, change, rest, s);
    }
    forall c | c in b.spends ensures c in {t.funding, t.rewardCat} || c in b.outputs {
      var s :| s in spends && s.coin == c;
      LaunchSpendsAre(t, change, rest, s);
    }
  }

  /** Every coin the launch spends descends from one of its two. */
  lemma LaunchDescends(t: LaunchTerms, change: u64, rest: seq<Spend>, s: Spend)
    requires Staged(t, change, rest) && s in LaunchSpends(t, change, rest)
    ensures Descends(SpentIds(AsCoinSpends(LaunchSpends(t, change, rest))), {t.funding.Id(), t.rewardCat.Id()}, s.coin.Id())
    decreases IdSize(s.coin.Id())
  {
    var spends := LaunchSpends(t, change, rest);
    SpentIdsAre(spends, s);
    LaunchSpendsAre(t, change, rest, s);
    if s.coin !in {t.funding, t.rewardCat} {
      var maker :| maker in spends && s.coin in maker.outputs;
      LaunchSpendsAre(t, change, rest, maker);
      LaunchDescends(t, change, rest, maker);
    }
  }

  lemma SpentIdsAre(spends: seq<Spend>, s: Spend)
    requires s in spends
    ensures s.coin.Id() in SpentIds(AsCoinSpends(spends))
  {
    var i :| 0 <= i < |spends| && spends[i] == s;
    assert AsCoinSpends(spends)[i] in AsCoinSpends(spends);
  }

  /** The launch's own bundle passes its own gate exactly when this account may sign all of it and
      neither input is a child of what it spends. */
  lemma LaunchPassesItsGate(
    wallet: Wallet, t: LaunchTerms, change: u64, rest: seq<Spend>, required: seq<Requirement>, me: nat)
    requires Staged(t, change, rest)
    ensures var spends := LaunchSpends(t, change, rest);
            GateDistributorLaunch(
              wallet, AsCoinSpends(spends), required, t.securityKey, t.funding.Id(), t.rewardCat.Id(), me).Ok?
            <==> (forall r :: r in required ==> Signable(r, {wallet.key, t.securityKey}, me)) && Unrelated(t, spends)
  {
    var spends := LaunchSpends(t, change, rest);
    var coinSpends := AsCoinSpends(spends);
    DistributorGateIff(wallet, coinSpends, required, t.securityKey, t.funding.Id(), t.rewardCat.Id(), me);
    assert spends[0] in spends && spends[3] in spends;
    SpentIdsAre(spends, spends[0]);
    SpentIdsAre(spends, spends[3]);
    forall id | id in SpentIds(coinSpends) ensures Descends(SpentIds(coinSpends), {t.funding.Id(), t.rewardCat.Id()}, id) {
      var c :| c in coinSpends && c.coin.Id() == id;
      var i :| 0 <= i < |coinSpends| && coinSpends[i] == c;
      LaunchDescends(t, change, rest, spends[i]);
    }
    UnrelatedIffUnspentParents(t, spends);
  }

  lemma UnrelatedIffUnspentParents(t: LaunchTerms, spends: seq<Spend>)
    ensures Unrelated(t, spends) <==>
              t.funding.parent !in SpentIds(AsCoinSpends(spends)) && t.rewardCat.parent !in SpentIds(AsCoinSpends(spends))
  {
    var coinSpends := AsCoinSpends(spends);
    forall s | s in spends ensures s.coin.Id() in SpentIds(coinSpends) {
      SpentIdsAre(spends, s);
    }
    forall id | id in SpentIds(coinSpends) ensures exists s :: s in spends && s.coin.Id() == id {
      var c :| c in coinSpends && c.coin.Id() == id;
      var i :| 0 <= i < |coinSpends| && coinSpends[i] == c;
      assert spends[i] in spends;
    }
  }

  lemma {:induction false} TotalsAdd(a: seq<Spend>, b: seq<Spend>)
    ensures TotalSpent(a + b) == TotalSpent(a) + TotalSpent(b) && TotalCreated(a + b) == TotalCreated(a) + TotalCreated(b)
  {
    if a == [] {
      assert a + b == b;
    } else {
      TotalsAdd(a[1..], b);
      assert (a + b)[1..] == a[1..] + b;
    }
  }

  /** The whole launch balances to its fee, its CAT included, if the rest of it creates what it spends. */
  lemma LaunchBalances(t: LaunchTerms, rest: seq<Spend>)
    requires t.funding.puzzleHash.Standard? && RewardChange(t.funding.amount, t.managerAmount, t.fee).Ok?
    requires Staged(t, RewardChange(t.funding.amount, t.managerAmount, t.fee).value, rest)
    requires TotalSpent(rest) == TotalCreated(rest)
    ensures var spends := LaunchSpends(t, RewardChange(t.funding.amount, t.managerAmount, t.fee).value, rest);
            TotalSpent(spends) == TotalCreated(spends) + t.fee && forall s :: s in spends ==> Clean(s)
  {
    var change := RewardChange(t.funding.amount, t.managerAmount, t.fee).value;
    var xch, cat := RewardSpends(t.funding, t.managerAmount, change, t.securityKey), [Spend(t.rewardCat, [t.CatSettlement()])];
    RewardBundleBalances(t.funding, t.managerAmount, t.fee, t.securityKey);
    TotalsAdd(xch + cat, rest);
    TotalsAdd(xch, cat);
    FewAmounts(t.CatSettlement(), t.funding, t.funding);
    assert cat[1..] == [];
    assert TotalSpent(cat) == TotalCreated(cat);
  }

  /** A launch that landed is resumed from the record its own submission kept, and the status of what
      is resumed is the status of that launch. */
  lemma LandedLaunchIsResumed(
    v: View, minter: Minter, t: LaunchTerms, change: u64, rest: seq<Spend>, height: u32, source: Source)
    requires minter.live && Staged(t, change, rest) && height != 0
    requires t.funding.puzzleHash == minter.puzzleHash && t.rewardCat.puzzleHash == DigCat(minter.puzzleHash)
    requires t.managerAmount == minter.managerAmount
    requires Valid(v.blocks) && Honest(source, v) && Included(v.blocks, LaunchBundle(t, change, rest))
    ensures Resume(minter, RecordOfPending(PendingLaunch(t, height)), source) in {Ok(PendingLaunch(t, height)), Err(Unreachable)}
  {
    var p, b := PendingLaunch(t, height), LaunchBundle(t, change, rest);
    LaunchIsItsPending(minter, t, change, rest, height);
    var i: nat :| IncludedAt(v.blocks, b, i);
    assert CreatedAt(v.blocks, t.DistributorLauncher(), i) && SpentAt(v.blocks, t.rewardCat, i);
    assert Exists(v.blocks, t.DistributorLauncher()) && Exists(v.blocks, t.rewardCat);
    if Resume(minter, RecordOfPending(p), source) != Err(Unreachable) {
      GoneIsUnknown(v, source, 1, p.rewardCatCoinId);
      AcceptedExactlyWhenLanded(v, minter, p, source);
    }
  }

  // ---------- the DID mint ----------

  /** A failed DID mint, read at its own bundle: dead on every chain that grows from here. */
  lemma OwnFailedMintStays(v: View, v': View, owner: PuzzleHash, source: Coin, fee: u64, height: u32, s: Source, s': Source)
    requires ValidView(v) && ValidView(v') && v.blocks <= v'.blocks && Honest(s, v) && Honest(s', v')
    requires MintStatus(PendingDid(owner, source, height), s).Ok? && MintStatus(PendingDid(owner, source, height), s).value.Failed?
    ensures !Included(v'.blocks, AsBundle(DidSpends(owner, source, fee)))
    ensures OnlyBy(v', DidCoin(source, owner), AsBundle(DidSpends(owner, source, fee)))
            && MintStatus(PendingDid(owner, source, height), s').Ok?
            ==> MintStatus(PendingDid(owner, source, height), s') == MintStatus(PendingDid(owner, source, height), s)
  {
    DidBundleIsItsPending(owner, source, fee, height);
    MintFailedStays(v, v', PendingDid(owner, source, height), AsBundle(DidSpends(owner, source, fee)), s, s');
  }

  /** And under reorganisations: final exactly when the spend of its source coin is five blocks deep. */
  lemma OwnFailedMintIsFinalExactlyWhenBuried(v: View, owner: PuzzleHash, source: Coin, fee: u64, height: u32, s: Source)
    requires ValidView(v) && Honest(s, v)
    requires MintStatus(PendingDid(owner, source, height), s).Ok? && MintStatus(PendingDid(owner, source, height), s).value.Failed?
    ensures (forall h, k: nat :: History(h) && k < |h| && h[0] == v.blocks
                                 ==> !Included(h[k], AsBundle(DidSpends(owner, source, fee))))
            <==> s.coin(2, source.Id()).value.value.spentHeight.value + 5 <= Peak(v.blocks)
  {
    DidBundleIsItsPending(owner, source, fee, height);
    DidBundleNeedsOneCoin(owner, source, fee);
    FailedIsFinalExactlyWhenBuried(v, PendingDid(owner, source, height), AsBundle(DidSpends(owner, source, fee)), s);
  }
}
