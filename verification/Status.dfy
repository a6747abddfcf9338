/**
  The two polled verdicts: where a pushed DID mint stands, and where a pushed
  reward-distributor mint stands. `Confirmed` survives reorganisations; `Failed` is true of
  every chain that grows from the one it was read from; neither holds if the reads of one
  call straddle a block.
*/
module Status {
  import opened Base
  import opened Chain
  import opened Evidence

  datatype FailReason =
    | FundingSpentElsewhere
    | RewardCatSpentElsewhere
    | NotAdvertised
    | Contradiction(defect: Defect)

  datatype Verdict<+E> =
    | Confirmed(evidence: E)
    | Awaiting(blocksSincePush: u32)
    | Failed(reason: FailReason)

  datatype StatusError = ChainUnreachable

  /** `mint_status`: the peak, then the DID coin, then the source coin. */
  function MintStatus(pending: PendingMint, source: Source): Result<Verdict<MintedDid>, StatusError> {
    var peak := PeakHeight(source, 0);
    if peak.None? then Err(ChainUnreachable)
    else
      var did := source.coin(1, pending.didCoinId);
      if did.Unreadable? then Err(ChainUnreachable)
      else if did.value.Some? && DidFromConfirmed(pending, did.value.value, peak.value).Some? then
        Ok(Confirmed(DidFromConfirmed(pending, did.value.value, peak.value).value))
      else
        var funding := source.coin(2, pending.sourceCoinId);
        if funding.Unreadable? then Err(ChainUnreachable)
        else if did.value.None? && funding.value.Some? && funding.value.value.IsSpent() then
          Ok(Failed(FundingSpentElsewhere))
        else Ok(Awaiting(SatSub(peak.value, pending.pushedAtHeight)))
  }

  /** `PendingRewardDistributor::status`: the launcher before either input, and discovery only
      against a confirmed launcher. */
  function DistributorStatus(pending: PendingDistributor, source: Source):
    Result<Verdict<ConfirmedDistributor>, StatusError>
  {
    var peak := PeakHeight(source, 0);
    if peak.None? then Err(ChainUnreachable)
    else
      var launcher := source.coin(1, pending.distributorLauncherId);
      if launcher.Unreadable? then Err(ChainUnreachable)
      else if launcher.value.None? then
        var funding := source.coin(2, pending.fundingCoinId);
        var rewardCat := source.coin(3, pending.rewardCatCoinId);
        if funding.Unreadable? || rewardCat.Unreadable? then Err(ChainUnreachable)
        else if funding.value.Some? && funding.value.value.IsSpent() then Ok(Failed(FundingSpentElsewhere))
        else if rewardCat.value.Some? && rewardCat.value.value.IsSpent() then Ok(Failed(RewardCatSpentElsewhere))
        else Ok(Awaiting(SatSub(peak.value, pending.pushedAtHeight)))
      else if launcher.value.value.confirmedHeight.None? then
        Ok(Awaiting(SatSub(peak.value, pending.pushedAtHeight)))
      else
        var rec := launcher.value.value;
        var found := source.discover(4, pending.distributorLauncherId);
        if found.Unreadable? then Err(ChainUnreachable)
        else if found.value.None? then Ok(Failed(NotAdvertised))
        else
          var verdict := Check(pending, rec, found.value.value, peak.value);
          if verdict.Ok? then
            // The source unwraps `from_confirmed` here; this is why it may.
            CheckedIsConfirmed(pending, rec, found.value.value, peak.value);
            Ok(Confirmed(DistributorFromConfirmed(pending, rec, found.value.value, peak.value).value))
          else if verdict.error.TooShallow? then Ok(Awaiting(SatSub(peak.value, pending.pushedAtHeight)))
          else Ok(Failed(Contradiction(verdict.error)))
  }

  /** After `check` passes, `from_confirmed` on the same inputs cannot refuse. */
  lemma CheckedIsConfirmed(
    pending: PendingDistributor, rec: CoinRecord, discovered: (Id, Generation), peak: u32)
    ensures Check(pending, rec, discovered, peak).Ok?
            <==> DistributorFromConfirmed(pending, rec, discovered, peak).Some?
    ensures Check(pending, rec, discovered, peak).Ok? ==>
              rec.confirmedHeight == Some(DistributorFromConfirmed(pending, rec, discovered, peak).value.confirmedHeight)
  {
  }

  // ---------- Confirmed is absorbing, reorganisations included ----------

  /** The record of a buried coin is served again, at the same height, by every honest view of
      every later chain. */
  lemma BuriedIsServedAgain(
    v: View, v': View, h: seq<Blocks>, k: nat, expected: Id, floor: u32, rec: CoinRecord,
    answer: Option<CoinRecord>)
    requires History(h) && k < |h| && h[0] == v.blocks && h[k] == v'.blocks
    requires Reports(v, expected, Some(rec)) && Buried(expected, floor, rec, Peak(v.blocks))
    requires Reports(v', expected, answer)
    ensures answer.Some? && answer.value.coin == rec.coin && answer.value.confirmedHeight == rec.confirmedHeight
    ensures Buried(expected, floor, answer.value, Peak(v'.blocks))
  {
    BuriedIsFinal(v, h, k, expected, floor, rec);
    SettledStays(h, k);
    assert Exists(v'.blocks, rec.coin);
    if answer.Some? {
      assert answer.value.coin == rec.coin;
      CreatedOnce(v'.blocks, rec.coin, rec.confirmedHeight.value, answer.value.confirmedHeight.value);
    }
  }

  /** A confirmed mint reads as confirmed, with the same evidence, on every later chain. */
  lemma MintConfirmedStays(v: View, v': View, h: seq<Blocks>, k: nat, pending: PendingMint, s: Source, s': Source)
    requires History(h) && k < |h| && h[0] == v.blocks && h[k] == v'.blocks
    requires Honest(s, v) && Honest(s', v')
    requires MintStatus(pending, s).Ok? && MintStatus(pending, s).value.Confirmed?
    ensures MintStatus(pending, s').Ok? ==> MintStatus(pending, s') == MintStatus(pending, s)
  {
    var did := s.coin(1, pending.didCoinId).value;
    var did' := s'.coin(1, pending.didCoinId);
    DidEvidenceIff(pending, did.value, Peak(v.blocks));
    if PeakHeight(s', 0).Some? && did'.Answer? {
      BuriedIsServedAgain(v, v', h, k, pending.didCoinId, pending.pushedAtHeight, did.value, did'.value);
    }
  }

  /** So does a journalled DID's re-proof: the resume path never loses a buried DID. */
  lemma ReverifiedAgain(
    v: View, v': View, h: seq<Blocks>, k: nat, pending: PendingMint, rec: CoinRecord, answer: Option<CoinRecord>)
    requires History(h) && k < |h| && h[0] == v.blocks && h[k] == v'.blocks
    requires Reports(v, pending.didCoinId, Some(rec)) && Reports(v', pending.didCoinId, answer)
    requires DidFromConfirmed(pending, rec, Peak(v.blocks)).Some?
    ensures var did := DidFromConfirmed(pending, rec, Peak(v.blocks)).value;
            answer.Some? &&
            DidReverified(did.launcherId, did.coinId, did.confirmedHeight, answer.value, Peak(v'.blocks)) == Some(did)
  {
    BuriedIsServedAgain(v, v', h, k, pending.didCoinId, pending.pushedAtHeight, rec, answer);
  }

  lemma DistributorConfirmedStays(
    v: View, v': View, h: seq<Blocks>, k: nat, pending: PendingDistributor, s: Source, s': Source)
    requires History(h) && k < |h| && h[0] == v.blocks && h[k] == v'.blocks
    requires Honest(s, v) && Honest(s', v')
    requires pending.distributorLauncherId.Of? && pending.distributorLauncherId.parent.Of?
    requires DistributorStatus(pending, s).Ok? && DistributorStatus(pending, s).value.Confirmed?
    ensures DistributorStatus(pending, s').Ok? ==> DistributorStatus(pending, s') == DistributorStatus(pending, s)
  {
    var id := pending.distributorLauncherId;
    var rec := s.coin(1, id).value.value;
    var rec' := s'.coin(1, id);
    var i := rec.confirmedHeight.value;
    DistributorEvidenceIff(pending, rec, s.discover(4, id).value.value, Peak(v.blocks));
    if PeakHeight(s', 0).Some? && rec'.Answer? {
      BuriedIsServedAgain(v, v', h, k, id, pending.pushedAtHeight, rec, rec'.value);
      assert CoinOf(id) !in v.blocks[i].rewards;
      var b :| IncludedAt(v.blocks, b, i) && CoinOf(id) in b.outputs;
      BuriedBundleStays(h, k, b, i);
      assert Included(v.blocks, b) && Included(v'.blocks, b);
    }
  }

  // ---------- Failed is absorbing while the chain only grows ----------

  /** An input taken by another bundle shuts a bundle out of every chain that grows from here. */
  lemma NeverIncluded(c: Blocks, c': Blocks, launch: Bundle, input: Coin, output: Coin)
    requires Valid(c) && Valid(c') && c <= c'
    requires input in launch.spends && output in launch.outputs
    requires Spent(c, input) && !Exists(c, output)
    ensures !Included(c', launch)
  {
    var i: nat :| SpentAt(c, input, i);
    var thief :| IncludedAt(c, thief, i) && input in thief.spends;
    assert IncludedAt(c', thief, i);
    assert output in thief.outputs ==> CreatedAt(c, output, i);
  }

  /** With its only creator shut out, the awaited coin is never reported again in any form. */
  lemma NeverReported(v: View, v': View, launch: Bundle, input: Coin, output: Coin, answer: Option<CoinRecord>)
    requires Valid(v.blocks) && ValidView(v') && v.blocks <= v'.blocks
    requires input in launch.spends && output in launch.outputs && output.parent.Of?
    requires OnlyBy(v', output, launch)
    requires Spent(v.blocks, input) && !Exists(v.blocks, output)
    requires Reports(v', output.Id(), answer)
    ensures answer.None?
  {
    NeverIncluded(v.blocks, v'.blocks, launch, input, output);
    var i: nat :| SpentAt(v.blocks, input, i);
    assert SpentAt(v'.blocks, input, i) by {
      var thief :| IncludedAt(v.blocks, thief, i) && input in thief.spends;
      assert IncludedAt(v'.blocks, thief, i);
    }
    assert Spent(v'.blocks, input);
    if answer.Some? && answer.value.confirmedHeight.Some? {
      var b :| IncludedAt(v'.blocks, b, answer.value.confirmedHeight.value) && output in b.outputs;
      assert Included(v'.blocks, b);
    }
  }

  /** A coin reported spent is reported spent, at the same height, by every longer chain. */
  lemma SpentIsReportedAgain(v: View, v': View, id: Id, rec: CoinRecord, answer: Option<CoinRecord>)
    requires Valid(v.blocks) && Valid(v'.blocks) && v.blocks <= v'.blocks
    requires Reports(v, id, Some(rec)) && rec.IsSpent() && Reports(v', id, answer)
    ensures answer.Some? && answer.value.IsSpent()
  {
    var i := rec.spentHeight.value;
    var b :| IncludedAt(v.blocks, b, i) && rec.coin in b.spends;
    assert IncludedAt(v'.blocks, b, i);
    assert SpentAt(v'.blocks, rec.coin, i);
    CreatedIsKept(v.blocks, v'.blocks, rec.coin, rec.confirmedHeight.value);
    assert Exists(v'.blocks, rec.coin) && Spent(v'.blocks, rec.coin);
  }

  lemma CreatedIsKept(c: Blocks, c': Blocks, coin: Coin, i: nat)
    requires c <= c' && CreatedAt(c, coin, i)
    ensures CreatedAt(c', coin, i)
  {
    if coin !in c[i].rewards {
      var b :| IncludedAt(c, b, i) && coin in b.outputs;
      assert IncludedAt(c', b, i);
    }
  }

  /** A failed DID mint is dead: no chain that grows from this one ever includes its bundle, and
      every later answer is again `Failed`. */
  lemma MintFailedStays(v: View, v': View, pending: PendingMint, launch: Bundle, s: Source, s': Source)
    requires ValidView(v) && ValidView(v') && v.blocks <= v'.blocks && Honest(s, v) && Honest(s', v')
    requires pending.sourceCoinId.Of? && CoinOf(pending.sourceCoinId) in launch.spends
    requires pending.didCoinId.Of? && CoinOf(pending.didCoinId) in launch.outputs && pending.didCoinId.parent.Of?
    requires MintStatus(pending, s).Ok? && MintStatus(pending, s).value.Failed?
    ensures !Included(v'.blocks, launch)
    ensures OnlyBy(v', CoinOf(pending.didCoinId), launch) && MintStatus(pending, s').Ok?
            ==> MintStatus(pending, s') == MintStatus(pending, s)
  {
    var input, output := CoinOf(pending.sourceCoinId), CoinOf(pending.didCoinId);
    var rec := s.coin(2, pending.sourceCoinId).value.value;
    assert rec.coin == input && Spent(v.blocks, input);
    NeverIncluded(v.blocks, v'.blocks, launch, input, output);
    if OnlyBy(v', output, launch) && MintStatus(pending, s').Ok? {
      NeverReported(v, v', launch, input, output, s'.coin(1, pending.didCoinId).value);
      SpentIsReportedAgain(v, v', pending.sourceCoinId, rec, s'.coin(2, pending.sourceCoinId).value);
    }
  }

  ghost predicate LaunchOf(pending: PendingDistributor, launch: Bundle) {
    && ParentSpent(launch)
    && pending.fundingCoinId.Of? && CoinOf(pending.fundingCoinId) in launch.spends
    && pending.rewardCatCoinId.Of? && CoinOf(pending.rewardCatCoinId) in launch.spends
    && pending.distributorLauncherId.Of? && CoinOf(pending.distributorLauncherId) in launch.outputs
  }

  /** The same for a distributor, in all four ways it can fail. A proof of death names an input
      the chain shows spent with no launcher; the other two name a launcher the chain does carry. */
  lemma DistributorFailedStays(
    v: View, v': View, pending: PendingDistributor, launch: Bundle, s: Source, s': Source)
    requires ValidView(v) && ValidView(v') && v.blocks <= v'.blocks && Honest(s, v) && Honest(s', v')
    requires LaunchOf(pending, launch) && OnlyBy(v', CoinOf(pending.distributorLauncherId), launch)
    requires DistributorStatus(pending, s).Ok? && DistributorStatus(pending, s).value.Failed?
    ensures DistributorStatus(pending, s').Ok? ==> DistributorStatus(pending, s').value.Failed?
    ensures DistributorStatus(pending, s).value.reason in {FundingSpentElsewhere, RewardCatSpentElsewhere}
            ==> !Included(v'.blocks, launch)
  {
    var id := pending.distributorLauncherId;
    var output := CoinOf(id);
    var reason := DistributorStatus(pending, s).value.reason;
    if reason in {FundingSpentElsewhere, RewardCatSpentElsewhere} {
      var step, inputId := if reason == FundingSpentElsewhere then 2 else 3,
                           if reason == FundingSpentElsewhere then pending.fundingCoinId else pending.rewardCatCoinId;
      var rec := s.coin(step, inputId).value.value;
      assert rec.coin == CoinOf(inputId) && Spent(v.blocks, CoinOf(inputId));
      NeverIncluded(v.blocks, v'.blocks, launch, CoinOf(inputId), output);
      if DistributorStatus(pending, s').Ok? {
        NeverReported(v, v', launch, CoinOf(inputId), output, s'.coin(1, id).value);
        SpentIsReportedAgain(v, v', inputId, rec, s'.coin(step, inputId).value);
      }
    } else if DistributorStatus(pending, s').Ok? {
      var rec := s.coin(1, id).value.value;
      var i := rec.confirmedHeight.value;
      CreatedIsKept(v.blocks, v'.blocks, output, i);
      assert Exists(v'.blocks, output);
      CreatedOnce(v'.blocks, output, i, s'.coin(1, id).value.value.confirmedHeight.value);
      var b :| IncludedAt(v.blocks, b, i) && output in b.outputs;
      assert IncludedAt(v'.blocks, b, i);
      assert Included(v.blocks, b) && Included(v'.blocks, b);
    }
  }

  /** Once the launch is on chain and advertised, the status can still say `Failed`, and says so exactly
      of a launcher confirmed below the height it was pushed at: where a reorganisation can move it. */
  lemma LandedLauncherFailsExactlyBelowItsPush(v: View, pending: PendingDistributor, launch: Bundle, source: Source)
    requires Valid(v.blocks) && Honest(source, v) && LaunchOf(pending, launch) && Included(v.blocks, launch)
    requires pending.distributorLauncherId in launch.adverts
    requires launch.adverts[pending.distributorLauncherId] == pending.generation
    requires DistributorStatus(pending, source).Ok?
    ensures exists i: nat ::
              && CreatedAt(v.blocks, CoinOf(pending.distributorLauncherId), i)
              && match DistributorStatus(pending, source).value
                 case Failed(reason) => i < pending.pushedAtHeight && reason == Contradiction(PredatesPush)
                 case Awaiting(_) => pending.pushedAtHeight <= i && i + 5 > Peak(v.blocks)
                 case Confirmed(evidence) => pending.pushedAtHeight <= i && i + 5 <= Peak(v.blocks) && evidence.confirmedHeight == i
  {
    var launcher := CoinOf(pending.distributorLauncherId);
    var i: nat :| IncludedAt(v.blocks, launch, i);
    assert CreatedAt(v.blocks, launcher, i) && Exists(v.blocks, launcher);
    var rec := source.coin(1, pending.distributorLauncherId).value.value;
    CreatedOnce(v.blocks, launcher, i, rec.confirmedHeight.value);
    DepthTestIsBurial(Peak(v.blocks), i);
    assert i != 0;
  }

  /** And so it does say it: of a launch pushed when the peak was at 3, carried at 2 after a
      reorganisation of two blocks. */
  lemma LandedLauncherReadsAsFailed(rewards: set<Coin>, pending: PendingDistributor, launch: Bundle)
    requires Spendable(rewards, launch) && LaunchOf(pending, launch) && pending.pushedAtHeight == 3
    requires pending.distributorLauncherId in launch.adverts
    requires launch.adverts[pending.distributorLauncherId] == pending.generation
    ensures var pushedOn, later := OneBundle(rewards, launch)[..2] + Empties(2), OneBundle(rewards, launch) + Empties(1);
            && Valid(pushedOn) && Valid(later) && Follows(pushedOn, later) && Peak(pushedOn) == pending.pushedAtHeight
            && !Included(pushedOn, launch) && Included(later, launch)
            && DistributorStatus(pending, Oracle(later)) == Ok(Failed(Contradiction(PredatesPush)))
  {
    var start := OneBundle(rewards, launch);
    var later := start + Empties(1);
    OneBundleIsValid(rewards, launch);
    PadIsValid(start[..2], 2);
    PadIsValid(start, 1);
    var launcher := CoinOf(pending.distributorLauncherId);
    assert IncludedAt(later, launch, 2) && CreatedAt(later, launcher, 2) && Exists(later, launcher);
    OracleIsHonest(later);
    LandedLauncherFailsExactlyBelowItsPush(View(later, {}), pending, launch, Oracle(later));
    var i: nat :| CreatedAt(later, launcher, i);
    forall j: nat | CreatedAt(later, launcher, j) ensures j == 2 {
      CreatedOnce(later, launcher, j, 2);
    }
  }

  // ---------- what the verdicts do not promise ----------

  /** A block arriving between two reads of one call makes a mint that has just landed read as
      dead. */
  lemma StraddlingReadsMisreport(rewards: set<Coin>, pending: PendingMint, launch: Bundle)
    requires Spendable(rewards, launch)
    requires pending.sourceCoinId.Of? && CoinOf(pending.sourceCoinId) in rewards * launch.spends
    requires pending.didCoinId.Of? && CoinOf(pending.didCoinId) in launch.outputs
    ensures var c' := OneBundle(rewards, launch);
            && Valid(c') && Valid(c'[..2]) && Included(c', launch)
            && MintStatus(pending, ReadFrom([c'[..2], c'[..2], c'])) == Ok(Failed(FundingSpentElsewhere))
  {
    var c' := OneBundle(rewards, launch);
    OneBundleIsValid(rewards, launch);
    assert Exists(c', CoinOf(pending.sourceCoinId)) && Spent(c', CoinOf(pending.sourceCoinId));
    assert RecordOf(c', pending.sourceCoinId).Some?;
  }

  /** What makes a `Failed` sound however far the chain grew between its reads: the spend it reports
      is no later than the peak read first. Then no chain that grows from here carries the bundle. */
  lemma SplitFailedIsSound(
    pending: PendingMint, launch: Bundle, source: Source, v0: View, v1: View, v2: View, c': Blocks)
    requires Valid(v0.blocks) && Valid(v1.blocks) && Valid(v2.blocks) && Valid(c')
    requires v0.blocks <= v1.blocks <= v2.blocks <= c'
    requires HonestAt(source, 0, v0) && HonestAt(source, 1, v1) && HonestAt(source, 2, v2)
    requires pending.sourceCoinId.Of? && CoinOf(pending.sourceCoinId) in launch.spends
    requires pending.didCoinId.Of? && CoinOf(pending.didCoinId) in launch.outputs
    requires MintStatus(pending, source).Ok? && MintStatus(pending, source).value.Failed?
    requires source.coin(2, pending.sourceCoinId).value.value.spentHeight.value <= PeakHeight(source, 0).value
    ensures !Included(c', launch)
  {
    var input := CoinOf(pending.sourceCoinId);
    var s := source.coin(2, pending.sourceCoinId).value.value.spentHeight.value;
    var thief :| IncludedAt(v2.blocks, thief, s) && input in thief.spends;
    assert IncludedAt(v1.blocks, thief, s);
    assert SpentAt(v1.blocks, input, s);
    NeverIncluded(v1.blocks, c', launch, input, CoinOf(pending.didCoinId));
  }

  /** The three reads of one call, taken from `c0` and the chains it grew into, call a mint dead over
      a spend at height `s`. */
  ghost predicate SplitFailed(pending: PendingMint, c0: Blocks, c1: Blocks, c2: Blocks, s: nat)
    requires pending.sourceCoinId.Of?
  {
    && Valid(c0) && Valid(c1) && Valid(c2) && c0 <= c1 <= c2
    && SpentAt(c2, CoinOf(pending.sourceCoinId), s)
    && MintStatus(pending, ReadFrom([c0, c1, c2])) == Ok(Failed(FundingSpentElsewhere))
  }

  /** And that is exactly when: a spend later than the peak read first may be the mint's own. */
  lemma SplitFailedIsSoundExactlyWhenSpentByThePeak(pending: PendingMint, launch: Bundle, c0: Blocks, s: u32)
    requires pending.sourceCoinId.Of? && FundedBy(launch, {CoinOf(pending.sourceCoinId)})
    requires pending.didCoinId.Of? && CoinOf(pending.didCoinId) in launch.outputs
    requires Valid(c0) && Exists(c0, CoinOf(pending.sourceCoinId))
    requires Spent(c0, CoinOf(pending.sourceCoinId)) ==> SpentAt(c0, CoinOf(pending.sourceCoinId), s)
    ensures (forall c1, c2, c' :: SplitFailed(pending, c0, c1, c2, s) && c2 <= c' && Valid(c') ==> !Included(c', launch))
            <==> s <= Peak(c0)
  {
    var input, output := CoinOf(pending.sourceCoinId), CoinOf(pending.didCoinId);
    if s <= Peak(c0) {
      forall c1, c2, c' | SplitFailed(pending, c0, c1, c2, s) && c2 <= c' && Valid(c') ensures !Included(c', launch) {
        SplitFailedSpentByThePeak(pending, launch, c0, c1, c2, c', s);
      }
    } else {
      var waiting := c0 + Empties(s - |c0|);
      PadIsValid(c0, s - |c0|);
      assert Exists(waiting, input) && !Spent(waiting, input);
      CarriedIsValid(waiting, launch, {input});
      UnmadeWhileUnspent(c0, launch, {input}, output);
      var c2 := waiting + [Block({}, {launch})];
      JoinedIs(waiting, Block({}, {launch}));
      assert c0 <= c2 && SpentAt(c2, input, s) && Exists(c2, input) && Spent(c2, input);
      assert RecordOf(c2, pending.sourceCoinId).Some? && RecordOf(c0, pending.didCoinId).None?;
      assert SplitFailed(pending, c0, c0, c2, s) && Included(c2, launch);
    }
  }

  lemma SplitFailedSpentByThePeak(
    pending: PendingMint, launch: Bundle, c0: Blocks, c1: Blocks, c2: Blocks, c': Blocks, s: u32)
    requires pending.sourceCoinId.Of? && CoinOf(pending.sourceCoinId) in launch.spends
    requires pending.didCoinId.Of? && CoinOf(pending.didCoinId) in launch.outputs
    requires SplitFailed(pending, c0, c1, c2, s) && c2 <= c' && Valid(c') && s <= Peak(c0)
    ensures !Included(c', launch)
  {
    var source := ReadFrom([c0, c1, c2]);
    ReadFromIsHonest([c0, c1, c2], 0);
    ReadFromIsHonest([c0, c1, c2], 1);
    ReadFromIsHonest([c0, c1, c2], 2);
    var rec := source.coin(2, pending.sourceCoinId).value.value;
    SpentOnce(c2, rec.coin, rec.spentHeight.value, s);
    SplitFailedIsSound(pending, launch, source, View(c0, {}), View(c1, {}), View(c2, {}), c');
  }

  /** `Failed` has no burial behind it, so a reorganisation can undo it: the bundle another
      spend beat on one chain is included on the next. */
  lemma FailedIsNotFinal(rewards: set<Coin>, pending: PendingMint, launch: Bundle, thief: Bundle)
    requires Spendable(rewards, launch) && Spendable(rewards, thief)
    requires pending.sourceCoinId.Of? && CoinOf(pending.sourceCoinId) in rewards * launch.spends * thief.spends
    requires pending.didCoinId.Of? && CoinOf(pending.didCoinId) in launch.outputs - thief.outputs
    ensures var c, c' := OneBundle(rewards, thief), OneBundle(rewards, launch);
            && Valid(c) && Valid(c') && Follows(c, c')
            && MintStatus(pending, Oracle(c)) == Ok(Failed(FundingSpentElsewhere))
            && Included(c', launch)
  {
    var c := OneBundle(rewards, thief);
    OneBundleIsValid(rewards, launch);
    OneBundleIsValid(rewards, thief);
    assert Exists(c, CoinOf(pending.sourceCoinId)) && Spent(c, CoinOf(pending.sourceCoinId));
    assert RecordOf(c, pending.sourceCoinId).Some?;
  }

  /** Exactly when a `Failed` is final under reorganisations too: when the spend it rests on is under
      five blocks more. Then no later chain carries the bundle; short of that, some later chain does. */
  lemma FailedIsFinalExactlyWhenBuried(v: View, pending: PendingMint, launch: Bundle, source: Source)
    requires ValidView(v) && Honest(source, v)
    requires pending.sourceCoinId.Of? && FundedBy(launch, {CoinOf(pending.sourceCoinId)})
    requires pending.didCoinId.Of? && CoinOf(pending.didCoinId) in launch.outputs
    requires MintStatus(pending, source).Ok? && MintStatus(pending, source).value.Failed?
    ensures (forall h, k: nat :: History(h) && k < |h| && h[0] == v.blocks ==> !Included(h[k], launch))
            <==> source.coin(2, pending.sourceCoinId).value.value.spentHeight.value + 5 <= Peak(v.blocks)
  {
    assert HonestAt(source, 1, v) && HonestAt(source, 2, v);
    var input, output := CoinOf(pending.sourceCoinId), CoinOf(pending.didCoinId);
    var rec := source.coin(2, pending.sourceCoinId).value.value;
    var s := rec.spentHeight.value;
    assert rec.coin == input && SpentAt(v.blocks, input, s);
    if s + 5 <= Peak(v.blocks) {
      forall h, k: nat | History(h) && k < |h| && h[0] == v.blocks ensures !Included(h[k], launch) {
        BuriedThiefStays(v.blocks, h, k, launch, input, output, s);
      }
    } else {
      var c' := Rewritten(v.blocks, launch, input, s);
      RewrittenIsValid(v.blocks, launch, input, s);
      assert Settled(v.blocks) <= c';
      var h := [v.blocks, c'];
      assert Follows(h[0], h[1]) && History(h) && Included(h[1], launch);
    }
  }

  lemma BuriedThiefStays(c: Blocks, h: seq<Blocks>, k: nat, launch: Bundle, input: Coin, output: Coin, s: nat)
    requires History(h) && k < |h| && h[0] == c && SpentAt(c, input, s) && s + 5 <= Peak(c)
    requires input in launch.spends && output in launch.outputs && !Exists(c, output)
    ensures !Included(h[k], launch)
  {
    var thief :| IncludedAt(c, thief, s) && input in thief.spends;
    BuriedBundleStays(h, k, thief, s);
    assert output in thief.outputs ==> CreatedAt(c, output, s);
  }
}
