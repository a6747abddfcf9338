/**
  What a later chain can change about a resumed record, and what a call whose reads straddle such
  changes can still be trusted to say. `LaunchDead` is terminal, so these are the two questions a
  host has to have answered before it acts on one.
*/
module ResumeFinality {
  import opened Base
  import opened Chain
  import opened Evidence
  import opened Resuming = Resume
  import opened Status

  // ---------- what later chains can change ----------

  ghost predicate BuriedIn(c: Blocks, coin: Coin)
    requires Valid(c)
  {
    exists i: nat :: CreatedAt(c, coin, i) && i + 5 <= Peak(c)
  }

  /** With both inputs buried, no later honest answer calls an own record somebody else's. */
  lemma NeverDisownedOnceBuried(v': View, h: seq<Blocks>, k: nat, minter: Minter, p: PendingDistributor, source: Source)
    requires History(h) && k < |h| && h[k] == v'.blocks && Honest(source, v')
    requires minter.live && Owned(minter, p) && p.pushedAtHeight != 0
    requires BuriedIn(h[0], CoinOf(p.fundingCoinId)) && BuriedIn(h[0], CoinOf(p.rewardCatCoinId))
    ensures var verdict := Resume(minter, RecordOfPending(p), source);
            !(verdict.Err? && verdict.error.NotYours?)
  {
    OwnRecordVerdict(v', minter, p, source);
    assert HonestAt(source, 0, v') && HonestAt(source, 1, v');
    BuriedExistsLater(h, k, CoinOf(p.fundingCoinId));
    BuriedExistsLater(h, k, CoinOf(p.rewardCatCoinId));
    GoneIsUnknown(v', source, 0, p.fundingCoinId);
    GoneIsUnknown(v', source, 1, p.rewardCatCoinId);
  }

  lemma BuriedExistsLater(h: seq<Blocks>, k: nat, coin: Coin)
    requires History(h) && k < |h| && BuriedIn(h[0], coin)
    ensures Exists(h[k], coin)
  {
    var i: nat :| CreatedAt(h[0], coin, i) && i + 5 <= Peak(h[0]);
    BuriedCreationStays(h, k, coin, i);
  }

  ghost predicate DisownedOn(minter: Minter, p: PendingDistributor, c: Blocks)
    requires Valid(c)
  {
    var verdict := Resume(minter, RecordOfPending(p), Oracle(c));
    verdict.Err? && verdict.error.NotYours?
  }

  /** And that is exactly when: an input short of burial has a later chain that disowns the record. */
  lemma NeverDisownedExactlyWhenBuried(c: Blocks, minter: Minter, p: PendingDistributor)
    requires Valid(c) && minter.live && Owned(minter, p) && p.pushedAtHeight != 0
    requires Exists(c, CoinOf(p.fundingCoinId)) && Exists(c, CoinOf(p.rewardCatCoinId))
    ensures (forall h, k: nat :: History(h) && k < |h| && h[0] == c ==> !DisownedOn(minter, p, h[k]))
            <==> BuriedIn(c, CoinOf(p.fundingCoinId)) && BuriedIn(c, CoinOf(p.rewardCatCoinId))
  {
    var funding, cat := CoinOf(p.fundingCoinId), CoinOf(p.rewardCatCoinId);
    if BuriedIn(c, funding) && BuriedIn(c, cat) {
      forall h, k: nat | History(h) && k < |h| && h[0] == c ensures !DisownedOn(minter, p, h[k]) {
        OracleIsHonest(h[k]);
        NeverDisownedOnceBuried(View(h[k], {}), h, k, minter, p, Oracle(h[k]));
      }
    } else {
      var gone := if BuriedIn(c, funding) then cat else funding;
      var i: nat :| CreatedAt(c, gone, i);
      assert i + 5 > Peak(c);
      var c' := c[..i] + Empties(|c| - i);
      Forgotten(c, gone, i);
      InputGoneIsDisowned(c', minter, p);
      assert [c, c'][1] == c' && DisownedOn(minter, p, [c, c'][1]);
    }
  }

  lemma InputGoneIsDisowned(c: Blocks, minter: Minter, p: PendingDistributor)
    requires Valid(c) && minter.live && Owned(minter, p) && p.pushedAtHeight != 0
    requires !Exists(c, CoinOf(p.fundingCoinId)) || !Exists(c, CoinOf(p.rewardCatCoinId))
    ensures DisownedOn(minter, p, c)
  {
    OracleIsHonest(c);
    OwnRecordVerdict(View(c, {}), minter, p, Oracle(c));
  }

  /** `LaunchDead` is final of the launch: no chain of any later history includes it. Of the record it
      is final too, unless a reorganisation takes the reward CAT away: every later honest answer is
      `LaunchDead` again, or, of a CAT the chain no longer carries, somebody else's. */
  lemma DeadIsFinal(v: View, v': View, h: seq<Blocks>, k: nat, minter: Minter, p: PendingDistributor,
                    launch: Bundle, s: Source, s': Source)
    requires History(h) && k < |h| && h[0] == v.blocks && h[k] == v'.blocks
    requires minter.live && Owned(minter, p) && p.pushedAtHeight != 0 && LaunchOf(p, launch)
    requires Honest(s, v) && ValidView(v') && Honest(s', v')
    requires Resume(minter, RecordOfPending(p), s) == Err(LaunchDead)
    ensures !Included(v'.blocks, launch)
    ensures OnlyBy(v', CoinOf(p.distributorLauncherId), launch) ==>
              var verdict := Resume(minter, RecordOfPending(p), s');
              && verdict in {Err(LaunchDead), Err(NotYours(RewardCatCoinIsThisAccounts)), Err(Unreachable)}
              && (verdict == Err(NotYours(RewardCatCoinIsThisAccounts)) ==> !Exists(v'.blocks, CoinOf(p.rewardCatCoinId)))
              && (BuriedIn(v.blocks, CoinOf(p.rewardCatCoinId)) ==> verdict in {Err(LaunchDead), Err(Unreachable)})
  {
    var launcher, fundingCoin := CoinOf(p.distributorLauncherId), CoinOf(p.fundingCoinId);
    OwnRecordVerdict(v, minter, p, s);
    var i: nat :| SpentAt(v.blocks, fundingCoin, i) && i + 5 <= Peak(v.blocks);
    BuriedThiefStays(v.blocks, h, k, launch, fundingCoin, launcher, i);
    if OnlyBy(v', launcher, launch) && Resume(minter, RecordOfPending(p), s') != Err(Unreachable) {
      UnincludedLauncherIsGone(v', launcher, launch);
      BuriedSpendStays(h, k, fundingCoin, i);
      assert Exists(v'.blocks, fundingCoin);
      SettledStays(h, k);
      OwnRecordVerdict(v', minter, p, s');
      DeadExactlyWhenBuried(v', minter, p, launch, s');
      assert HonestAt(s', 0, v') && HonestAt(s', 1, v');
      GoneIsUnknown(v', s', 0, p.fundingCoinId);
      GoneIsUnknown(v', s', 1, p.rewardCatCoinId);
      BuriedExistsLaterIfBuried(h, k, CoinOf(p.rewardCatCoinId));
    }
  }

  lemma BuriedExistsLaterIfBuried(h: seq<Blocks>, k: nat, coin: Coin)
    requires History(h) && k < |h|
    ensures BuriedIn(h[0], coin) ==> Exists(h[k], coin)
  {
    if BuriedIn(h[0], coin) {
      BuriedExistsLater(h, k, coin);
    }
  }

  lemma UnincludedLauncherIsGone(v: View, launcher: Coin, launch: Bundle)
    requires OnlyBy(v, launcher, launch) && !Included(v.blocks, launch) && launcher.parent.Of? && Valid(v.blocks)
    ensures !Exists(v.blocks, launcher)
  {
    if i: nat :| CreatedAt(v.blocks, launcher, i) {
      var b :| IncludedAt(v.blocks, b, i) && launcher in b.outputs;
      assert Included(v.blocks, b);
    }
  }

  lemma BuriedSpendStays(h: seq<Blocks>, k: nat, coin: Coin, i: nat)
    requires History(h) && k < |h| && SpentAt(h[0], coin, i) && i + 5 <= Peak(h[0])
    ensures SpentAt(h[k], coin, i) && i + 5 <= Peak(h[k])
  {
    var thief :| IncludedAt(h[0], thief, i) && coin in thief.spends;
    BuriedBundleStays(h, k, thief, i);
    SettledStays(h, k);
  }

  ghost predicate StaysDead(minter: Minter, p: PendingDistributor, launch: Bundle, h: seq<Blocks>, k: nat)
    requires History(h) && k < |h| && p.distributorLauncherId.Of?
  {
    OnlyBy(View(h[k], {}), CoinOf(p.distributorLauncherId), launch)
    ==> Resume(minter, RecordOfPending(p), Oracle(h[k])) == Err(LaunchDead)
  }

  /** The record stays dead on every later chain exactly when its reward CAT is buried. */
  lemma DeadStaysDeadExactlyWhenTheCatIsBuried(c: Blocks, minter: Minter, p: PendingDistributor, launch: Bundle)
    requires Valid(c) && minter.live && Owned(minter, p) && p.pushedAtHeight != 0 && LaunchOf(p, launch)
    requires OnlyBy(View(c, {}), CoinOf(p.distributorLauncherId), launch)
    requires Resume(minter, RecordOfPending(p), Oracle(c)) == Err(LaunchDead)
    ensures (forall h, k: nat :: History(h) && k < |h| && h[0] == c ==> StaysDead(minter, p, launch, h, k))
            <==> BuriedIn(c, CoinOf(p.rewardCatCoinId))
  {
    var cat := CoinOf(p.rewardCatCoinId);
    if BuriedIn(c, cat) {
      forall h, k: nat | History(h) && k < |h| && h[0] == c ensures StaysDead(minter, p, launch, h, k) {
        BuriedCatStaysDead(h, k, minter, p, launch);
      }
    } else {
      DeadIsKnown(c, minter, p);
      var i: nat :| CreatedAt(c, cat, i);
      var h := CatForgotten(c, minter, p, launch, i);
    }
  }

  lemma BuriedCatStaysDead(h: seq<Blocks>, k: nat, minter: Minter, p: PendingDistributor, launch: Bundle)
    requires History(h) && k < |h| && minter.live && Owned(minter, p) && p.pushedAtHeight != 0 && LaunchOf(p, launch)
    requires Resume(minter, RecordOfPending(p), Oracle(h[0])) == Err(LaunchDead) && BuriedIn(h[0], CoinOf(p.rewardCatCoinId))
    ensures StaysDead(minter, p, launch, h, k)
  {
    OracleIsHonest(h[0]);
    OracleIsHonest(h[k]);
    DeadIsFinal(View(h[0], {}), View(h[k], {}), h, k, minter, p, launch, Oracle(h[0]), Oracle(h[k]));
  }

  lemma DeadIsKnown(c: Blocks, minter: Minter, p: PendingDistributor)
    requires Valid(c) && minter.live && Owned(minter, p) && p.pushedAtHeight != 0
    requires Resume(minter, RecordOfPending(p), Oracle(c)) == Err(LaunchDead)
    ensures Exists(c, CoinOf(p.rewardCatCoinId))
  {
    OracleIsHonest(c);
    OwnRecordVerdict(View(c, {}), minter, p, Oracle(c));
  }

  lemma CatForgotten(c: Blocks, minter: Minter, p: PendingDistributor, launch: Bundle, i: nat) returns (h: seq<Blocks>)
    requires Valid(c) && minter.live && Owned(minter, p) && p.pushedAtHeight != 0
    requires OnlyBy(View(c, {}), CoinOf(p.distributorLauncherId), launch)
    requires CreatedAt(c, CoinOf(p.rewardCatCoinId), i) && i + 5 > Peak(c)
    ensures History(h) && |h| == 2 && h[0] == c && !StaysDead(minter, p, launch, h, 1)
  {
    var c' := c[..i] + Empties(|c| - i);
    h := [c, c'];
    Forgotten(c, CoinOf(p.rewardCatCoinId), i);
    InputGoneIsDisowned(c', minter, p);
  }

  /** The funding coin paid, spent by another bundle, and that spend buried by four blocks; what
      `rewards` a fifth pays is what a reorganisation of the tip decides. */
  function Outbid(funding: Coin, thief: Bundle, rewards: set<Coin>): Blocks {
    OneBundle({funding}, thief) + Empties(4) + [Block(rewards, {})]
  }

  lemma OutbidIs(funding: Coin, thief: Bundle, rewards: set<Coin>)
    requires Spendable({funding}, thief) && funding in thief.spends
    requires forall r :: r in rewards ==> r.parent.Raw? && r != funding
    ensures var c := Outbid(funding, thief, rewards);
            && Valid(c) && Peak(c) == 7 && SpentAt(c, funding, 2)
            && (forall coin :: Exists(c, coin) <==> coin in thief.outputs || coin == funding || coin in rewards)
  {
    var start := OneBundle({funding}, thief);
    var bought := start + Empties(4);
    OneBundleIsValid({funding}, thief);
    PadIsValid(start, 4);
    assert bought[1].rewards == {funding};
    assert forall i: nat, r :: i < |bought| && r in bought[i].rewards ==> r == funding;
    JoinedIs(bought, Block(rewards, {}));
    JoinedIsValid(bought, Block(rewards, {}));
    var c := Outbid(funding, thief, rewards);
    assert SpentAt(start, funding, 2) && SpentAt(bought, funding, 2);
    assert CreatedAt(start, funding, 1) && CreatedAt(bought, funding, 1);
    forall coin | coin in thief.outputs ensures CreatedAt(c, coin, 2) {
      assert CreatedAt(start, coin, 2) && CreatedAt(bought, coin, 2);
    }
    assert forall b, i: nat :: IncludedAt(c, b, i) ==> b == thief;
    assert forall i: nat, r :: i < |c| && r in c[i].rewards ==> r == funding || r in rewards;
    forall coin | Exists(c, coin) ensures coin in thief.outputs || coin == funding || coin in rewards {
      var i: nat :| CreatedAt(c, coin, i);
    }
    assert forall coin :: coin in rewards ==> CreatedAt(c, coin, 7);
  }

  /** The smallest such pair of chains: a record dead on one is somebody else's on the next. */
  lemma DeadThenDisowned(minter: Minter, p: PendingDistributor, thief: Bundle)
    requires minter.live && Owned(minter, p) && p.pushedAtHeight != 0
    requires Spendable({CoinOf(p.fundingCoinId)}, thief) && CoinOf(p.fundingCoinId) in thief.spends
    requires CoinOf(p.distributorLauncherId) !in thief.outputs && CoinOf(p.rewardCatCoinId).parent.Raw?
    ensures var c := Outbid(CoinOf(p.fundingCoinId), thief, {CoinOf(p.rewardCatCoinId)});
            var c' := Outbid(CoinOf(p.fundingCoinId), thief, {});
            && Valid(c) && Valid(c') && Follows(c, c')
            && Resume(minter, RecordOfPending(p), Oracle(c)) == Err(LaunchDead)
            && Resume(minter, RecordOfPending(p), Oracle(c')) == Err(NotYours(RewardCatCoinIsThisAccounts))
  {
    var funding, cat := CoinOf(p.fundingCoinId), CoinOf(p.rewardCatCoinId);
    assert CatLayers(cat.puzzleHash) == CatLayers(funding.puzzleHash) + 1;
    var c, c' := Outbid(funding, thief, {cat}), Outbid(funding, thief, {});
    OutbidIs(funding, thief, {cat});
    OutbidIs(funding, thief, {});
    assert Settled(c) == Settled(c');
    OneChainSaysDead(minter, p, c, 2);
    assert cat !in thief.outputs;
    CatGoneIsDisowned(minter, p, c');
  }

  lemma OneChainSaysDead(minter: Minter, p: PendingDistributor, c: Blocks, s: nat)
    requires minter.live && Owned(minter, p) && p.pushedAtHeight != 0 && Valid(c)
    requires SpentAt(c, CoinOf(p.fundingCoinId), s) && Exists(c, CoinOf(p.rewardCatCoinId))
    requires !Exists(c, CoinOf(p.distributorLauncherId)) && s + 5 <= Peak(c)
    ensures Resume(minter, RecordOfPending(p), Oracle(c)) == Err(LaunchDead)
  {
    SplitReadsSayDead(minter, p, [c, c, c, c], s);
    assert Resume(minter, RecordOfPending(p), Oracle(c)) == Resume(minter, RecordOfPending(p), ReadFrom([c, c, c, c]));
  }

  lemma CatGoneIsDisowned(minter: Minter, p: PendingDistributor, c: Blocks)
    requires minter.live && Owned(minter, p) && p.pushedAtHeight != 0 && Valid(c)
    requires Exists(c, CoinOf(p.fundingCoinId)) && !Exists(c, CoinOf(p.rewardCatCoinId))
    ensures Resume(minter, RecordOfPending(p), Oracle(c)) == Err(NotYours(RewardCatCoinIsThisAccounts))
  {
    BuiltRecordParses(minter, p);
    assert RecordOf(c, p.fundingCoinId).Some? && RecordOf(c, p.rewardCatCoinId).None?;
  }

  // ---------- reads that straddle a reorganisation ----------

  /** The chain before the launch lands, one empty block longer: the launch orphaned. */
  function Orphaned(rewards: set<Coin>, launch: Bundle): Blocks {
    OneBundle(rewards, launch)[..2] + Empties(1)
  }

  /** The launch back on chain and buried. */
  function Restored(rewards: set<Coin>, launch: Bundle): Blocks {
    OneBundle(rewards, launch) + Empties(5)
  }

  lemma OrphanedThenRestored(rewards: set<Coin>, launch: Bundle)
    requires Spendable(rewards, launch)
    ensures Valid(OneBundle(rewards, launch)) && Valid(Orphaned(rewards, launch)) && Valid(Restored(rewards, launch))
    ensures Follows(OneBundle(rewards, launch), Orphaned(rewards, launch))
    ensures Follows(Orphaned(rewards, launch), Restored(rewards, launch))
    ensures Included(Restored(rewards, launch), launch)
    ensures forall o: Coin :: o.parent.Of? ==> !Exists(Orphaned(rewards, launch), o)
  {
    OneBundleIsValid(rewards, launch);
    PadIsValid(OneBundle(rewards, launch)[..2], 1);
    PadIsValid(OneBundle(rewards, launch), 5);
    assert IncludedAt(Restored(rewards, launch), launch, 2);
  }

  /** If the reads of one call straddle a reorganisation, `LaunchDead` can be said of a launch
      that is on chain: orphaned by the time the launcher is read, back when the peak is. */
  lemma StraddlingReadsDeclareALiveLaunchDead(rewards: set<Coin>, minter: Minter, p: PendingDistributor, launch: Bundle)
    requires minter.live && Owned(minter, p) && p.pushedAtHeight != 0 && LaunchOf(p, launch)
    requires Spendable(rewards, launch)
    requires CoinOf(p.fundingCoinId) in rewards && CoinOf(p.rewardCatCoinId) in rewards
    ensures var early, orphaned, late :=
              OneBundle(rewards, launch), Orphaned(rewards, launch), Restored(rewards, launch);
            && Valid(early) && Valid(orphaned) && Valid(late)
            && Follows(early, orphaned) && Follows(orphaned, late) && Included(late, launch)
            && Resume(minter, RecordOfPending(p), ReadFrom([early, early, orphaned, late])) == Err(LaunchDead)
  {
    var early := OneBundle(rewards, launch);
    OrphanedThenRestored(rewards, launch);
    OneBundleIsValid(rewards, launch);
    assert CreatedAt(early, CoinOf(p.fundingCoinId), 1) && SpentAt(early, CoinOf(p.fundingCoinId), 2);
    SplitReadsSayDead(minter, p, [early, early, Orphaned(rewards, launch), Restored(rewards, launch)], 2);
  }

  /** All it takes: a spend in the first chain, the CAT in the second, no launcher in the third, and
      five blocks on top of that height in the fourth. */
  lemma SplitReadsSayDead(minter: Minter, p: PendingDistributor, chains: seq<Blocks>, s: nat)
    requires minter.live && Owned(minter, p) && p.pushedAtHeight != 0
    requires |chains| == 4 && Valid(chains[0]) && Valid(chains[1]) && Valid(chains[2]) && Valid(chains[3])
    requires SpentAt(chains[0], CoinOf(p.fundingCoinId), s) && Exists(chains[1], CoinOf(p.rewardCatCoinId))
    requires !Exists(chains[2], CoinOf(p.distributorLauncherId)) && s + 5 <= Peak(chains[3])
    ensures Resume(minter, RecordOfPending(p), ReadFrom(chains)) == Err(LaunchDead)
  {
    BuiltRecordParses(minter, p);
    ReadFromIsHonest(chains, 0);
    var made: nat :| made <= s && CreatedAt(chains[0], CoinOf(p.fundingCoinId), made);
    assert Exists(chains[0], CoinOf(p.fundingCoinId));
    var funding := RecordOf(chains[0], p.fundingCoinId).value;
    assert Reports(View(chains[0], {}), p.fundingCoinId, Some(funding));
    SpendIsUsable(View(chains[0], {}), p.fundingCoinId, funding, s);
    DepthTestIsBurial(Peak(chains[3]), s);
    assert RecordOf(chains[2], p.distributorLauncherId).None?;
  }

  /** What makes a `LaunchDead` final however its reads were split over a history: the spend it rests
      on was already five deep at a peak read before all of them. */
  lemma SplitDeadIsFinal(h: seq<Blocks>, a: nat, b: nat, k: nat, va: View, vb: View,
                         minter: Minter, p: PendingDistributor, launch: Bundle, source: Source)
    requires History(h) && a < |h| && b < |h| && k < |h| && va.blocks == h[a] && vb.blocks == h[b]
    requires HonestAt(source, 0, va) && HonestAt(source, 2, vb)
    requires minter.live && Owned(minter, p) && p.pushedAtHeight != 0 && LaunchOf(p, launch)
    requires Resume(minter, RecordOfPending(p), source) == Err(LaunchDead)
    requires source.coin(0, p.fundingCoinId).value.value.spentHeight.value + 5 <= Peak(h[0])
    ensures !Included(h[k], launch)
  {
    BuiltRecordParses(minter, p);
    var funding, launcher := CoinOf(p.fundingCoinId), CoinOf(p.distributorLauncherId);
    var s := source.coin(0, p.fundingCoinId).value.value.spentHeight.value;
    assert Reports(va, p.fundingCoinId, source.coin(0, p.fundingCoinId).value);
    assert SpentAt(h[a], funding, s);
    var thief :| IncludedAt(h[a], thief, s) && funding in thief.spends;
    SettledBlock(h, a, s);
    SettledBlock(h, b, s);
    SettledBlock(h, k, s);
    assert IncludedAt(h[b], thief, s) && IncludedAt(h[k], thief, s);
    assert !Exists(h[b], launcher);
    assert launcher in thief.outputs ==> CreatedAt(h[b], launcher, s);
  }

  /** The four reads of one call, each from a chain of the history no earlier than the one before,
      call a launch dead over a spend at height `s`. */
  ghost predicate SplitDead(minter: Minter, p: PendingDistributor, h: seq<Blocks>, i: seq<nat>, s: nat)
    requires p.fundingCoinId.Of?
  {
    && History(h) && |i| == 4 && i[0] <= i[1] <= i[2] <= i[3] < |h|
    && SpentAt(h[i[0]], CoinOf(p.fundingCoinId), s)
    && Resume(minter, RecordOfPending(p), ReadFrom([h[i[0]], h[i[1]], h[i[2]], h[i[3]]])) == Err(LaunchDead)
  }

  /** Called dead over a spend at `s`, from reads split over a history of `c` that comes to carry it. */
  ghost predicate DeadButLands(minter: Minter, p: PendingDistributor, launch: Bundle, c: Blocks, s: nat,
                               h: seq<Blocks>, i: seq<nat>, k: nat)
    requires p.fundingCoinId.Of?
  {
    SplitDead(minter, p, h, i, s) && h[0] == c && k < |h| && Included(h[k], launch)
  }

  /** And that is exactly when: a spend not yet five deep at the earlier peak may be the launch's own,
      orphaned while the launcher is read and back since. `c` is the chain whose peak is read first;
      a spend that shallow is one for which a reorganisation can still make `Room`. */
  lemma SplitDeadIsSoundExactlyWhenBuriedBefore(c: Blocks, s: u32, minter: Minter, p: PendingDistributor, launch: Bundle)
    requires Valid(c) && s + 6 <= U32_MAX && |c| + 6 <= U32_MAX
    requires minter.live && Owned(minter, p) && p.pushedAtHeight != 0 && LaunchOf(p, launch)
    requires FundedBy(launch, {CoinOf(p.fundingCoinId), CoinOf(p.rewardCatCoinId)})
    requires s + 5 <= Peak(c) || exists n: nat :: Room(c, n, s, {CoinOf(p.fundingCoinId), CoinOf(p.rewardCatCoinId)})
    ensures (forall h, i, k: nat :: !DeadButLands(minter, p, launch, c, s, h, i, k)) <==> s + 5 <= Peak(c)
  {
    if s + 5 <= Peak(c) {
      SplitDeadsBuriedBefore(c, s, minter, p, launch);
    } else {
      var n: nat :| Room(c, n, s, {CoinOf(p.fundingCoinId), CoinOf(p.rewardCatCoinId)});
      var h := SplitDeadOverItsOwnSpend(c, n, s, minter, p, launch);
    }
  }

  lemma SplitDeadsBuriedBefore(c: Blocks, s: nat, minter: Minter, p: PendingDistributor, launch: Bundle)
    requires Valid(c) && minter.live && Owned(minter, p) && p.pushedAtHeight != 0 && LaunchOf(p, launch)
    requires s + 5 <= Peak(c)
    ensures forall h, i, k: nat :: !DeadButLands(minter, p, launch, c, s, h, i, k)
  {
    forall h, i, k: nat | SplitDead(minter, p, h, i, s) && h[0] == c && k < |h| ensures !Included(h[k], launch) {
      SplitDeadBuriedBefore(h, i, k, s, minter, p, launch);
    }
  }

  lemma SplitDeadOverItsOwnSpend(c: Blocks, n: nat, s: u32, minter: Minter, p: PendingDistributor, launch: Bundle)
    returns (h: seq<Blocks>)
    requires Valid(c) && s + 6 <= U32_MAX && |c| + 6 <= U32_MAX
    requires minter.live && Owned(minter, p) && p.pushedAtHeight != 0 && LaunchOf(p, launch)
    requires FundedBy(launch, {CoinOf(p.fundingCoinId), CoinOf(p.rewardCatCoinId)})
    requires Room(c, n, s, {CoinOf(p.fundingCoinId), CoinOf(p.rewardCatCoinId)})
    ensures DeadButLands(minter, p, launch, c, s, h, [1, 1, 2, 3], 3)
  {
    OrphaningHistoryIs(c, n, s, launch, {CoinOf(p.fundingCoinId), CoinOf(p.rewardCatCoinId)});
    h := OrphaningHistory(c, n, s, launch);
    OrphanedReadsSayDead(minter, p, h, s, launch);
  }

  lemma OrphanedReadsSayDead(minter: Minter, p: PendingDistributor, h: seq<Blocks>, s: nat, launch: Bundle)
    requires minter.live && Owned(minter, p) && p.pushedAtHeight != 0 && LaunchOf(p, launch)
    requires |h| == 4 && History(h)
    requires SpentAt(h[1], CoinOf(p.fundingCoinId), s) && SpentAt(h[1], CoinOf(p.rewardCatCoinId), s)
    requires !Exists(h[2], CoinOf(p.distributorLauncherId)) && s + 5 <= Peak(h[3])
    ensures SplitDead(minter, p, h, [1, 1, 2, 3], s)
  {
    assert Valid(h[1]) && Valid(h[2]) && Valid(h[3]);
    assert forall coin :: SpentAt(h[1], coin, s) ==> Exists(h[1], coin);
    SplitReadsSayDead(minter, p, [h[1], h[1], h[2], h[3]], s);
    var i: seq<nat> := [1, 1, 2, 3];
    assert [h[i[0]], h[i[1]], h[i[2]], h[i[3]]] == [h[1], h[1], h[2], h[3]];
  }

  lemma SplitDeadBuriedBefore(h: seq<Blocks>, i: seq<nat>, k: nat, s: nat, minter: Minter, p: PendingDistributor, launch: Bundle)
    requires minter.live && Owned(minter, p) && p.pushedAtHeight != 0 && LaunchOf(p, launch)
    requires SplitDead(minter, p, h, i, s) && k < |h| && s + 5 <= Peak(h[0])
    ensures !Included(h[k], launch)
  {
    var chains := [h[i[0]], h[i[1]], h[i[2]], h[i[3]]];
    ReadFromIsHonest(chains, 0);
    ReadFromIsHonest(chains, 2);
    BuiltRecordParses(minter, p);
    var funding := ReadFrom(chains).coin(0, p.fundingCoinId).value.value;
    SpentOnce(chains[0], CoinOf(p.fundingCoinId), s, funding.spentHeight.value);
    SplitDeadIsFinal(h, i[0], i[2], k, View(chains[0], {}), View(chains[2], {}), minter, p, launch, ReadFrom(chains));
  }

  /** `coin` is on `c` below height `n`, and unspent below it. */
  ghost predicate Waiting(c: Blocks, coin: Coin, n: nat) {
    && (exists i: nat :: i < n && CreatedAt(c, coin, i))
    && (forall i: nat :: i < n ==> !SpentAt(c, coin, i))
  }

  /** A reorganisation of `c` may cut it to `n` blocks, none above height `s`, with `inputs` unspent. */
  ghost predicate Room(c: Blocks, n: nat, s: nat, inputs: set<Coin>) {
    n <= s && n <= |c| <= n + MAX_REORG && forall x :: x in inputs ==> Waiting(c, x, n)
  }

  /** The first `n` blocks of `c`, then empty ones up to height `s`. */
  function UpTo(c: Blocks, n: nat, s: nat): Blocks
    requires n <= |c| && n <= s
  {
    c[..n] + Empties(s - n)
  }

  /** `launch` carried at `s`, on a chain that follows `c`. */
  function CarriedAt(c: Blocks, n: nat, s: nat, launch: Bundle): Blocks
    requires n <= |c| && n <= s
  {
    UpTo(c, n, s) + [Block({}, {launch})] + Empties(if s + 1 < |c| then |c| - s - 1 else 0)
  }

  /** `c`, then the launch carried at `s`, then orphaned, then back and buried. */
  function OrphaningHistory(c: Blocks, n: nat, s: nat, launch: Bundle): seq<Blocks>
    requires n <= |c| && n <= s
  {
    var early := CarriedAt(c, n, s, launch);
    [c, early, UpTo(c, n, s) + Empties(|early| - s), early + Empties(5)]
  }

  lemma UpToIs(c: Blocks, n: nat, s: u32, coin: Coin)
    requires Valid(c) && n <= |c| && n <= s && Waiting(c, coin, n)
    ensures Valid(UpTo(c, n, s)) && |UpTo(c, n, s)| == s && Exists(UpTo(c, n, s), coin) && !Spent(UpTo(c, n, s), coin)
  {
    var i: nat :| i < n && CreatedAt(c, coin, i);
    PrefixIsValid(c, n);
    PadIsValid(c[..n], s - n);
    assert CreatedAt(UpTo(c, n, s), coin, i);
  }

  lemma CarriedAtIs(c: Blocks, n: nat, s: u32, launch: Bundle, inputs: set<Coin>)
    requires Valid(c) && Room(c, n, s, inputs) && FundedBy(launch, inputs) && inputs != {}
    ensures var c' := CarriedAt(c, n, s, launch);
            && Valid(c') && IncludedAt(c', launch, s) && (forall x :: x in inputs ==> SpentAt(c', x, s))
  {
    var base := UpTo(c, n, s);
    forall x | x in inputs ensures Exists(base, x) && !Spent(base, x) {
      UpToIs(c, n, s, x);
    }
    var one :| one in inputs;
    UpToIs(c, n, s, one);
    CarriedIsValid(base, launch, inputs);
    PadIsValid(base + [Block({}, {launch})], if s + 1 < |c| then |c| - s - 1 else 0);
    assert IncludedAt(base + [Block({}, {launch})], launch, s);
  }

  lemma CarriedAtFollows(c: Blocks, n: nat, s: nat, launch: Bundle)
    requires n <= s && n <= |c| <= n + MAX_REORG
    ensures var c' := CarriedAt(c, n, s, launch);
            && Follows(c, c') && |c'| == (if |c| < s + 1 then s + 1 else |c|)
            && UpTo(c, n, s) <= c' && |UpTo(c, n, s)| == s
  {
    assert Settled(c) <= UpTo(c, n, s);
  }

  /** `c` up to `s` and nothing since: the launch orphaned. */
  lemma OrphanedAtIs(c: Blocks, n: nat, s: u32, launch: Bundle, inputs: set<Coin>, more: nat)
    requires Valid(c) && Room(c, n, s, inputs) && s + more <= U32_MAX + 1 && FundedBy(launch, inputs) && inputs != {}
    ensures Valid(UpTo(c, n, s) + Empties(more))
    ensures forall o :: o in launch.outputs ==> !Exists(UpTo(c, n, s) + Empties(more), o)
  {
    var base := UpTo(c, n, s);
    forall x | x in inputs ensures !Spent(base, x) {
      UpToIs(c, n, s, x);
    }
    var one :| one in inputs;
    UpToIs(c, n, s, one);
    PadIsValid(base, more);
    forall o | o in launch.outputs ensures !Exists(base + Empties(more), o) {
      UnmadeWhileUnspent(base, launch, inputs, o);
    }
  }

  lemma HistoryOfFour(a: Blocks, b: Blocks, c: Blocks, d: Blocks)
    requires Valid(a) && Valid(b) && Valid(c) && Valid(d) && Follows(a, b) && Follows(b, c) && Follows(c, d)
    ensures History([a, b, c, d])
  {
  }

  lemma OrphanedFollows(early: Blocks, base: Blocks, orphaned: Blocks, late: Blocks)
    requires base <= early && base <= orphaned && early <= late && |base| < |early| <= |base| + MAX_REORG && |orphaned| == |early|
    ensures Follows(early, orphaned) && Follows(orphaned, late)
  {
    assert Settled(early) <= base && Settled(orphaned) <= base;
  }

  lemma OrphaningHistoryIs(c: Blocks, n: nat, s: u32, launch: Bundle, inputs: set<Coin>)
    requires Valid(c) && s + 6 <= U32_MAX && |c| + 6 <= U32_MAX
    requires Room(c, n, s, inputs) && FundedBy(launch, inputs) && inputs != {}
    ensures var h := OrphaningHistory(c, n, s, launch);
            && History(h)
            && (forall x :: x in inputs ==> SpentAt(h[1], x, s))
            && (forall o :: o in launch.outputs ==> !Exists(h[2], o))
            && Included(h[3], launch) && s + 5 <= Peak(h[3])
  {
    var base, early := UpTo(c, n, s), CarriedAt(c, n, s, launch);
    CarriedAtIs(c, n, s, launch, inputs);
    CarriedAtFollows(c, n, s, launch);
    OrphanedAtIs(c, n, s, launch, inputs, |early| - s);
    RestoredAtIs(early, s, launch);
    OrphanedFollows(early, base, base + Empties(|early| - s), early + Empties(5));
    HistoryOfFour(c, early, base + Empties(|early| - s), early + Empties(5));
  }

  lemma RestoredAtIs(early: Blocks, s: nat, launch: Bundle)
    requires Valid(early) && |early| + 5 <= U32_MAX + 1 && IncludedAt(early, launch, s)
    ensures Valid(early + Empties(5)) && Included(early + Empties(5), launch) && s + 5 <= Peak(early + Empties(5))
  {
    PadIsValid(early, 5);
    assert IncludedAt(early + Empties(5), launch, s);
  }
}
