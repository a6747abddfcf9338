/**
  Resuming a persisted reward-distributor mint: the record is bytes, so ownership and descent
  are re-proved from chain answers. Acceptance is sound against any source whatever; over an
  honest view the verdict is characterised exactly. What later chains make of it is `ResumeFinality`.
*/
module Resume {
  import opened Base
  import opened Chain
  import opened Evidence
  import opened Status
  import Funding

  /** The stored form of a generation: the canonical launch comment, or text that parses as none. */
  datatype Comment = Canonical(generation: Generation) | Junk(text: nat)

  function ParseComment(text: Comment): Option<Generation> {
    match text
    case Canonical(g) => Some(g)
    case Junk(_) => None
  }

  datatype DistributorRecord = DistributorRecord(
    distributorLauncherId: Id, managerLauncherId: Id, fundingCoinId: Id, rewardCatCoinId: Id,
    generation: Comment, pushedAtHeight: u32)

  /** The serialisable mirror of a pending mint. */
  function RecordOfPending(p: PendingDistributor): DistributorRecord {
    DistributorRecord(
      p.distributorLauncherId, p.managerLauncherId, p.fundingCoinId, p.rewardCatCoinId,
      Canonical(p.generation), p.pushedAtHeight)
  }

  datatype RecordField =
    | DistributorLauncherField | ManagerLauncherField | FundingCoinField | RewardCatCoinField
    | GenerationField | PushedAtHeightField

  datatype OwnershipProof =
    | FundingCoinIsThisAccounts
    | RewardCatCoinIsThisAccounts
    | ManagerDescendsFromTheFundingCoin
    | DistributorDescendsFromTheFundingCoin

  datatype ResumeError =
    | Locked
    | Malformed(field: RecordField)
    | NotYours(proof: OwnershipProof)
    | Unproven
    | LaunchDead
    | Unreachable

  /** The account a record is measured against: whether its unlock is live, its wallet puzzle
      hash, and the amount its manager singletons are launched with. */
  datatype Minter = Minter(live: bool, puzzleHash: PuzzleHash, managerAmount: u64)

  function OfferedSettlementCoin(fundingCoinId: Id): Coin {
    Coin(fundingCoinId, Settlement, Funding.OFFER_XCH_AMOUNT)
  }

  function ManagerLauncherCoin(fundingCoinId: Id, amount: u64): Coin {
    Coin(fundingCoinId, SingletonLauncher, amount)
  }

  /** `parse_consistent_record`: what fails on the record's own bytes. */
  function ParseConsistentRecord(r: DistributorRecord): Result<Generation, ResumeError> {
    if r.distributorLauncherId == ZERO_ID then Err(Malformed(DistributorLauncherField))
    else if r.managerLauncherId == ZERO_ID then Err(Malformed(ManagerLauncherField))
    else if r.fundingCoinId == ZERO_ID then Err(Malformed(FundingCoinField))
    else if r.rewardCatCoinId == ZERO_ID then Err(Malformed(RewardCatCoinField))
    else if r.fundingCoinId == r.rewardCatCoinId then Err(Malformed(RewardCatCoinField))
    else if r.distributorLauncherId == r.managerLauncherId then Err(Malformed(ManagerLauncherField))
    else if r.pushedAtHeight == 0 then Err(Malformed(PushedAtHeightField))
    else match ParseComment(r.generation)
      case Some(g) => Ok(g)
      case None => Err(Malformed(GenerationField))
  }

  /** `read_coin`: an answer about another coin is no answer. */
  function ReadCoin(source: Source, step: nat, id: Id): Read<Option<CoinRecord>> {
    match source.coin(step, id)
    case Answer(Some(rec)) => if rec.coin.Id() != id then Unreadable else Answer(Some(rec))
    case other => other
  }

  /** `prove_coin_is_ours`. */
  function ProveCoinIsOurs(
    source: Source, step: nat, id: Id, expected: PuzzleHash, proof: OwnershipProof): Result<CoinRecord, ResumeError>
  {
    match ReadCoin(source, step, id)
    case Unreadable => Err(Unreachable)
    case Answer(None) => Err(NotYours(proof))
    case Answer(Some(rec)) => if rec.coin.puzzleHash != expected then Err(NotYours(proof)) else Ok(rec)
  }

  /** `unusable_spend_height`: a spend height the chain cannot have produced. */
  predicate UnusableSpendHeight(funding: CoinRecord, spentHeight: u32) {
    match funding.confirmedHeight
    case None => true
    case Some(createdAt) => createdAt == 0 || spentHeight < createdAt
  }

  /** `launcher_absent`: `Unproven` while the launch may land, `LaunchDead` once it cannot. */
  function LauncherAbsent(source: Source, funding: CoinRecord): ResumeError {
    if funding.spentHeight.None? then Unproven
    else if UnusableSpendHeight(funding, funding.spentHeight.value) then Unproven
    else match PeakHeight(source, 3)
      case None => Unreachable
      case Some(peak) => if Shallow(peak, funding.spentHeight.value) then Unproven else LaunchDead
  }

  /** `prove_launchers_descend_from_the_funding_coin`. */
  function ProveDescent(
    minter: Minter, source: Source, r: DistributorRecord, funding: CoinRecord): Result<(), ResumeError>
  {
    if r.managerLauncherId != ManagerLauncherCoin(r.fundingCoinId, minter.managerAmount).Id() then
      Err(NotYours(ManagerDescendsFromTheFundingCoin))
    else match ReadCoin(source, 2, r.distributorLauncherId)
      case Unreadable => Err(Unreachable)
      case Answer(None) => Err(LauncherAbsent(source, funding))
      case Answer(Some(launcher)) =>
        if launcher.confirmedHeight.None? then Err(Unproven)
        else match ReadCoin(source, 3, launcher.coin.parent)
          case Unreadable => Err(Unreachable)
          case Answer(None) => Err(NotYours(DistributorDescendsFromTheFundingCoin))
          case Answer(Some(security)) =>
            if security.coin.parent != OfferedSettlementCoin(r.fundingCoinId).Id() then
              Err(NotYours(DistributorDescendsFromTheFundingCoin))
            else Ok(())
  }

  /** `resume`. */
  function Resume(minter: Minter, r: DistributorRecord, source: Source): Result<PendingDistributor, ResumeError> {
    if !minter.live then Err(Locked)
    else match ParseConsistentRecord(r)
      case Err(e) => Err(e)
      case Ok(generation) =>
        match ProveCoinIsOurs(source, 0, r.fundingCoinId, minter.puzzleHash, FundingCoinIsThisAccounts)
        case Err(e) => Err(e)
        case Ok(funding) =>
          match ProveCoinIsOurs(
              source, 1, r.rewardCatCoinId, DigCat(minter.puzzleHash), RewardCatCoinIsThisAccounts)
          case Err(e) => Err(e)
          case Ok(_) =>
            match ProveDescent(minter, source, r, funding)
            case Err(e) => Err(e)
            case Ok(_) => Ok(PendingDistributor(
                               r.distributorLauncherId, r.managerLauncherId, r.fundingCoinId,
                               r.rewardCatCoinId, generation, r.pushedAtHeight))
  }

  // ---------- acceptance against an arbitrary source ----------

  /** What a resumed pending mint must satisfy, read off the ids alone. */
  predicate Owned(minter: Minter, p: PendingDistributor) {
    && p.fundingCoinId.Of? && p.fundingCoinId.puzzleHash == minter.puzzleHash
    && p.rewardCatCoinId.Of? && p.rewardCatCoinId.puzzleHash == DigCat(minter.puzzleHash)
    && p.managerLauncherId == ManagerLauncherCoin(p.fundingCoinId, minter.managerAmount).Id()
    && p.distributorLauncherId.Of?
    && p.distributorLauncherId.parent.Of?
    && p.distributorLauncherId.parent.parent == OfferedSettlementCoin(p.fundingCoinId).Id()
  }

  /** No source, however it answers each separate read, can get a record accepted unless both
      inputs are this account's, the manager launcher is the funding coin's own, and the
      distributor launcher is a grandchild of the settlement coin that funding coin creates. */
  lemma AcceptanceIsSound(minter: Minter, r: DistributorRecord, source: Source)
    requires Resume(minter, r, source).Ok?
    ensures var p := Resume(minter, r, source).value;
            && Owned(minter, p) && RecordOfPending(p) == r && minter.live
            && p.fundingCoinId != p.rewardCatCoinId && p.pushedAtHeight != 0
  {
    var launcher := ReadCoin(source, 2, r.distributorLauncherId).value.value;
    var security := ReadCoin(source, 3, launcher.coin.parent).value.value;
    assert launcher.coin.Id() == r.distributorLauncherId;
    assert security.coin.Id() == launcher.coin.parent;
  }

  /** One record is never resumed by two accounts, whatever their two sources claim. */
  lemma ResumedByOneAccount(m: Minter, m': Minter, r: DistributorRecord, s: Source, s': Source)
    requires Resume(m, r, s).Ok? && Resume(m', r, s').Ok?
    ensures m.puzzleHash == m'.puzzleHash
  {
    AcceptanceIsSound(m, r, s);
    AcceptanceIsSound(m', r, s');
  }

  /** A launch has one funding coin: two accepted records of one distributor agree on it. */
  lemma LauncherPinsItsFunding(m: Minter, r: DistributorRecord, r': DistributorRecord, s: Source, s': Source)
    requires Resume(m, r, s).Ok? && Resume(m, r', s').Ok?
    requires r.distributorLauncherId == r'.distributorLauncherId
    ensures r.fundingCoinId == r'.fundingCoinId && r.managerLauncherId == r'.managerLauncherId
  {
    AcceptanceIsSound(m, r, s);
    AcceptanceIsSound(m, r', s');
  }

  // ---------- the verdict over an honest view ----------

  function CatLayers(h: PuzzleHash): nat {
    match h
    case DigCat(inner) => 1 + CatLayers(inner)
    case _ => 0
  }

  /** An id is never its own ancestor, so a built record passes every check on its own bytes
      except the push height. */
  lemma BuiltRecordParses(minter: Minter, p: PendingDistributor)
    requires Owned(minter, p)
    ensures ParseConsistentRecord(RecordOfPending(p)) ==
            if p.pushedAtHeight == 0 then Err(Malformed(PushedAtHeightField)) else Ok(p.generation)
  {
    assert CatLayers(p.rewardCatCoinId.puzzleHash) == CatLayers(p.fundingCoinId.puzzleHash) + 1;
    assert IdSize(p.managerLauncherId) == IdSize(p.fundingCoinId) + 1;
    assert IdSize(p.distributorLauncherId) == IdSize(p.distributorLauncherId.parent.parent) + 2;
  }

  /** A launcher on chain brings with it everything it descends from. */
  lemma LauncherLeadsBack(c: Blocks, minter: Minter, p: PendingDistributor)
    requires Valid(c) && Owned(minter, p) && Exists(c, CoinOf(p.distributorLauncherId))
    ensures Exists(c, CoinOf(p.distributorLauncherId.parent)) && Exists(c, CoinOf(p.fundingCoinId))
  {
    ParentExists(c, CoinOf(p.distributorLauncherId));
    ParentExists(c, CoinOf(p.distributorLauncherId.parent));
    ParentExists(c, OfferedSettlementCoin(p.fundingCoinId));
  }

  /** Read against an honest view, the descent is walked exactly when the launcher is on chain. */
  lemma DescentVerdict(v: View, minter: Minter, p: PendingDistributor, source: Source, funding: CoinRecord)
    requires Valid(v.blocks) && Honest(source, v) && Owned(minter, p)
    ensures var launcher := CoinOf(p.distributorLauncherId);
            var verdict := ProveDescent(minter, source, RecordOfPending(p), funding);
            && (verdict.Ok? ==> Exists(v.blocks, launcher))
            && (verdict.Err? ==> verdict.error in {Unproven, LaunchDead, Unreachable})
            && (verdict.Err? && verdict.error == Unproven ==> !Exists(v.blocks, launcher))
            && (verdict == Err(LaunchDead) ==>
                  && !Exists(v.blocks, launcher)
                  && funding.spentHeight.Some? && funding.spentHeight.value + 5 <= Peak(v.blocks))
  {
    assert HonestAt(source, 2, v) && HonestAt(source, 3, v);
    var launcher := CoinOf(p.distributorLauncherId);
    var found := source.coin(2, p.distributorLauncherId);
    if found.Answer? && found.value.Some? && found.value.value.confirmedHeight.Some? {
      assert Exists(v.blocks, launcher);
      LauncherLeadsBack(v.blocks, minter, p);
    }
    if funding.spentHeight.Some? && PeakHeight(source, 3).Some? {
      DepthTestIsBurial(PeakHeight(source, 3).value, funding.spentHeight.value);
    }
  }

  /** For a record of this account's own mint, over one honest view: never malformed, unless pushed at
      height zero; somebody else's exactly when the source has no record of an input; accepted,
      unchanged, only once the launcher is on chain; dead only while the funding coin's spend is
      buried without a launcher; and everything else is "ask again". */
  lemma OwnRecordVerdict(v: View, minter: Minter, p: PendingDistributor, source: Source)
    requires minter.live && Owned(minter, p) && Valid(v.blocks) && Honest(source, v)
    ensures var verdict := Resume(minter, RecordOfPending(p), source);
            var launcher, funding := CoinOf(p.distributorLauncherId), CoinOf(p.fundingCoinId);
            && (verdict == Err(Malformed(PushedAtHeightField)) <==> p.pushedAtHeight == 0)
            && (p.pushedAtHeight != 0 ==>
                  && (verdict.Ok? ==> verdict.value == p && Exists(v.blocks, launcher))
                  && (verdict.Err? ==> verdict.error.NotYours? || verdict.error in {Unproven, LaunchDead, Unreachable})
                  && (verdict.Err? && verdict.error.NotYours? <==> Disowned(p, source))
                  && (verdict == Err(Unproven) ==> !Exists(v.blocks, launcher))
                  && (verdict == Err(LaunchDead) ==>
                        && !Exists(v.blocks, launcher)
                        && exists s: nat :: SpentAt(v.blocks, funding, s) && s + 5 <= Peak(v.blocks)))
  {
    BuiltRecordParses(minter, p);
    assert HonestAt(source, 0, v) && HonestAt(source, 1, v);
    var rec := source.coin(0, p.fundingCoinId);
    if p.pushedAtHeight != 0 && rec.Answer? && rec.value.Some? {
      assert Reports(v, p.fundingCoinId, rec.value);
      DescentVerdict(v, minter, p, source, rec.value.value);
      if rec.value.value.spentHeight.Some? {
        assert SpentAt(v.blocks, CoinOf(p.fundingCoinId), rec.value.value.spentHeight.value);
      }
    }
  }

  /** The source answers that it knows nothing of an input; the second is only asked about after the
      first is found. */
  predicate Disowned(p: PendingDistributor, source: Source) {
    || source.coin(0, p.fundingCoinId) == Answer(None)
    || (source.coin(0, p.fundingCoinId).Answer? && source.coin(1, p.rewardCatCoinId) == Answer(None))
  }

  ghost predicate Pending(v: View, coin: Coin) {
    exists b :: b in v.mempool && coin in b.outputs
  }

  /** So an own record is called somebody else's exactly when the chain carries one of its inputs no
      longer: nothing in a mint asks for a buried input, and a reorganisation can take one away. */
  lemma DisownedExactlyWhenAnInputIsGone(v: View, minter: Minter, p: PendingDistributor, source: Source)
    requires minter.live && Owned(minter, p) && Valid(v.blocks) && Honest(source, v) && p.pushedAtHeight != 0
    requires Resume(minter, RecordOfPending(p), source) != Err(Unreachable)
    requires !Pending(v, CoinOf(p.fundingCoinId)) && !Pending(v, CoinOf(p.rewardCatCoinId))
    ensures var verdict := Resume(minter, RecordOfPending(p), source);
            (verdict.Err? && verdict.error.NotYours?)
            <==> !Exists(v.blocks, CoinOf(p.fundingCoinId)) || !Exists(v.blocks, CoinOf(p.rewardCatCoinId))
  {
    OwnRecordVerdict(v, minter, p, source);
    BuiltRecordParses(minter, p);
    assert HonestAt(source, 0, v) && HonestAt(source, 1, v);
    GoneIsUnknown(v, source, 0, p.fundingCoinId);
    GoneIsUnknown(v, source, 1, p.rewardCatCoinId);
  }

  lemma GoneIsUnknown(v: View, source: Source, step: nat, id: Id)
    requires Valid(v.blocks) && HonestAt(source, step, v) && id.Of?
    ensures source.coin(step, id) == Answer(None) ==> !Exists(v.blocks, CoinOf(id))
    ensures source.coin(step, id).Answer? && !Exists(v.blocks, CoinOf(id)) && !Pending(v, CoinOf(id))
            ==> source.coin(step, id) == Answer(None)
  {
    if source.coin(step, id).Answer? && source.coin(step, id).value.Some? {
      var rec := source.coin(step, id).value.value;
      assert Reports(v, id, Some(rec)) && rec.coin == CoinOf(id);
      if rec.confirmedHeight.Some? {
        assert CreatedAt(v.blocks, rec.coin, rec.confirmedHeight.value);
      }
    }
  }

  /** And the other direction, for a source that answers: accepted exactly when the launcher is on
      chain and the reward CAT is known. */
  lemma AcceptedExactlyWhenLanded(v: View, minter: Minter, p: PendingDistributor, source: Source)
    requires minter.live && Owned(minter, p) && Valid(v.blocks) && Honest(source, v) && p.pushedAtHeight != 0
    requires Resume(minter, RecordOfPending(p), source) != Err(Unreachable)
    ensures Resume(minter, RecordOfPending(p), source) == Ok(p) <==>
              source.coin(1, p.rewardCatCoinId) != Answer(None) && Exists(v.blocks, CoinOf(p.distributorLauncherId))
  {
    OwnRecordVerdict(v, minter, p, source);
    BuiltRecordParses(minter, p);
    assert HonestAt(source, 0, v) && HonestAt(source, 1, v);
    if Exists(v.blocks, CoinOf(p.distributorLauncherId)) {
      LauncherLeadsBack(v.blocks, minter, p);
    }
  }

  /** Dead exactly when the launcher is not on chain, the spend is buried, and the CAT is known. */
  lemma DeadExactlyWhenBuried(v: View, minter: Minter, p: PendingDistributor, launch: Bundle, source: Source)
    requires minter.live && Owned(minter, p) && ValidView(v) && Honest(source, v) && p.pushedAtHeight != 0
    requires LaunchOf(p, launch) && OnlyBy(v, CoinOf(p.distributorLauncherId), launch)
    requires Resume(minter, RecordOfPending(p), source) != Err(Unreachable)
    ensures Resume(minter, RecordOfPending(p), source) == Err(LaunchDead) <==>
              && source.coin(1, p.rewardCatCoinId) != Answer(None)
              && !Exists(v.blocks, CoinOf(p.distributorLauncherId))
              && exists s: nat :: SpentAt(v.blocks, CoinOf(p.fundingCoinId), s) && s + 5 <= Peak(v.blocks)
  {
    var launcher, fundingCoin := CoinOf(p.distributorLauncherId), CoinOf(p.fundingCoinId);
    OwnRecordVerdict(v, minter, p, source);
    BuiltRecordParses(minter, p);
    assert HonestAt(source, 0, v) && HonestAt(source, 1, v) && HonestAt(source, 2, v) && HonestAt(source, 3, v);
    if source.coin(0, p.fundingCoinId).value.Some? {
      var funding := source.coin(0, p.fundingCoinId).value.value;
      assert Reports(v, p.fundingCoinId, Some(funding));
      if s: nat :| SpentAt(v.blocks, fundingCoin, s) && s + 5 <= Peak(v.blocks) && !Exists(v.blocks, launcher) {
        SpendIsUsable(v, p.fundingCoinId, funding, s);
        DepthTestIsBurial(Peak(v.blocks), s);
        LauncherIsNotPending(v, p, launch, source);
      }
    } else {
      assert forall s: nat :: SpentAt(v.blocks, fundingCoin, s) ==> Exists(v.blocks, fundingCoin);
    }
  }

  /** With its funding coin spent and no launcher on chain, the launch is in no mempool either. */
  lemma LauncherIsNotPending(v: View, p: PendingDistributor, launch: Bundle, source: Source)
    requires ValidView(v) && Honest(source, v) && LaunchOf(p, launch) && OnlyBy(v, CoinOf(p.distributorLauncherId), launch)
    requires Spent(v.blocks, CoinOf(p.fundingCoinId)) && !Exists(v.blocks, CoinOf(p.distributorLauncherId))
    ensures source.coin(2, p.distributorLauncherId) in {Unreadable, Answer(None)}
  {
    assert HonestAt(source, 2, v);
    assert launch !in v.mempool;
    assert forall b :: b in v.mempool ==> CoinOf(p.distributorLauncherId) !in b.outputs;
    assert forall i: nat :: !CreatedAt(v.blocks, CoinOf(p.distributorLauncherId), i);
  }

  /** An honest record of a spent coin gives its spend, at a height the floor accepts. */
  lemma SpendIsUsable(v: View, id: Id, rec: CoinRecord, s: nat)
    requires Valid(v.blocks) && Reports(v, id, Some(rec)) && SpentAt(v.blocks, rec.coin, s)
    ensures rec.spentHeight == Some(s) && !UnusableSpendHeight(rec, s)
  {
    assert Spent(v.blocks, rec.coin);
    var made: nat :| made <= s && CreatedAt(v.blocks, rec.coin, made);
    assert Exists(v.blocks, rec.coin);
    SpentOnce(v.blocks, rec.coin, s, rec.spentHeight.value);
    CreatedOnce(v.blocks, rec.coin, made, rec.confirmedHeight.value);
    assert made != 0 by {
      assert forall b :: !IncludedAt(v.blocks, b, 0);
    }
  }
}
