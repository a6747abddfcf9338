/**
  When the ceremony moves and when it does not: what one call may push, what only a stated
  refusal can take back, and what a chain that grows or reorganises can change about a status.
*/
module CeremonyProgress {
  import opened Base
  import opened Ceremony
  import opened CeremonySafety
  import opened Evidence
  import opened Funding
  import opened Journal
  import opened Reservations
  import Chain
  import Gates
  import Polled = Status
  import Push

  // ---------- what one call may push ----------

  /** An advance pushes only where the chain, read in that same call, proves the DID and the journal
      says the store was not launched; then it pushes one bundle, from that DID's coin. */
  lemma AdvancePushesOnEvidence(w: World, ix: Ix, source: Source, e: LaunchEnv)
    requires Advance(w, ix, source, e).0.log != w.log
    ensures ix in w.registry.inProgress && !w.registry.inProgress[ix].stage.StorePushed?
    ensures Status(w.registry, ix, source).Ok? && Status(w.registry, ix, source).value.DidConfirmed?
    ensures var did := Status(w.registry, ix, source).value.did;
            var log := Advance(w, ix, source, e).0.log;
            && (did.launcherId, did.coinId) == StageDid(w.registry.inProgress[ix].stage)
            && log == w.log + [log[|log| - 1]] && |log| == |w.log| + 1
            && log[|log| - 1].ix == ix && log[|log| - 1].answer == e.answer
            && log[|log| - 1].half.StoreHalf? && log[|log| - 1].half.store.didCoinId == did.coinId
            && log[|log| - 1].fee == w.registry.inProgress[ix].storeFee
  {
    var status := Status(w.registry, ix, source);
    StatusSpeaksOfItsStage(w.registry, ix, source);
    LaunchOutcome(w, ix, status.value.did, source, e);
  }

  /** The registry a launch leaves, once its bundle has been answered. */
  function Settled(r: Registry, ix: Ix, did: MintedDid, p: Pushed): Registry
    requires ix in r.inProgress && p.half.StoreHalf?
  {
    SetStage(r, ix, if p.Live() then StorePushed(MirrorDid(did), MirrorPendingStore(p.half.store))
                    else DidConfirmedStoreNotLaunched(MirrorDid(did))).value
  }

  ghost predicate PushedOneLaunch(w: World, w': World, ix: Ix, did: MintedDid, answer: Push.PushAnswer) {
    && ix in w.registry.inProgress
    && |w'.log| == |w.log| + 1
    && var p := w'.log[|w.log|];
       && w'.log == w.log + [p]
       && p.ix == ix && p.answer == answer && p.fee == w.registry.inProgress[ix].storeFee
       && p.half.StoreHalf? && p.half.store.didCoinId == did.coinId
       && w'.registry == Settled(w.registry, ix, did, p)
  }

  /** A launch either touches neither journal nor network, or pushes one bundle and settles it. */
  lemma LaunchOutcome(w: World, ix: Ix, did: MintedDid, source: Source, e: LaunchEnv)
    ensures var w' := Launch(w, ix, did, source, e).0;
            || (w'.registry == w.registry && w'.log == w.log)
            || PushedOneLaunch(w, w', ix, did, e.answer)
  {
    var inputs := LaunchInputs(w.registry, ix, did, e);
    if inputs.Ok? {
      var (root, fee, tip) := inputs.value;
      var (claimed, claim) := SelectAndReserve(w.holds, e.market, WalletAt(ix).puzzleHash, fee);
      if claim.Ok? {
        var (funding, hold) := claim.value;
        var signed := SignLaunch(WalletAt(ix), tip, did.coinId, funding, root, fee, source, e);
        if signed.Ok? {
          PushStoreSettles(w.(holds := claimed), ix, did, signed.value, fee, funding, hold, e.answer);
        }
      }
    }
  }

  function AdvanceEach(w: World, ix: Ix, calls: seq<(Source, LaunchEnv)>): World
    decreases |calls|
  {
    if calls == [] then w else AdvanceEach(Advance(w, ix, calls[0].0, calls[0].1).0, ix, calls[1..])
  }

  /** Once a launch is journalled as pushed, no number of advances, on any chain and under any
      answers, pushes or changes anything. */
  lemma {:induction false} APushedStoreIsOnlyWatched(w: World, ix: Ix, calls: seq<(Source, LaunchEnv)>)
    requires ix in w.registry.inProgress && w.registry.inProgress[ix].stage.StorePushed?
    ensures AdvanceEach(w, ix, calls) == w
    decreases |calls|
  {
    if calls != [] {
      var status := Status(w.registry, ix, calls[0].0);
      if status.Ok? {
        StatusSpeaksOfItsStage(w.registry, ix, calls[0].0);
      }
      assert Advance(w, ix, calls[0].0, calls[0].1).0 == w;
      APushedStoreIsOnlyWatched(w, ix, calls[1..]);
    }
  }

  /** So a store launch the network did not refuse is the last thing advancing ever pushes. */
  lemma LaunchedOnce(w: World, ix: Ix, source: Source, e: LaunchEnv, calls: seq<(Source, LaunchEnv)>)
    requires Advance(w, ix, source, e).0.log != w.log && e.answer != Push.Settled(Push.Rejected)
    ensures var launched := Advance(w, ix, source, e).0;
            AdvanceEach(launched, ix, calls) == launched
  {
    var status := Status(w.registry, ix, source);
    AdvancePushesOnEvidence(w, ix, source, e);
    LaunchOutcome(w, ix, status.value.did, source, e);
    APushedStoreIsOnlyWatched(Advance(w, ix, source, e).0, ix, calls);
  }

  // ---------- what a push has behind it ----------

  ghost predicate SignableBy(ix: Ix, required: Option<seq<Gates.Requirement>>, me: nat) {
    required.Some? && forall r :: r in required.value ==> Gates.Signable(r, {WalletAt(ix).key}, me)
  }

  /** A begin pushes only for an account unlocked at both checks, within the fee ceiling, under a
      signature that is this wallet's own throughout, and with the peak it just read as the floor
      of the evidence it will accept. Its answer says what was heard, and only a push is answered. */
  lemma BeginPushesOnlyWhatItMaySign(w: World, ix: Ix, e: BeginEnv)
    ensures var (w', r) := Begin(w, ix, e);
            && (w'.log != w.log ==>
                  && e.unlocked && e.stillUnlocked && e.fee <= MAX_MINT_FEE_MOJOS && SignableBy(ix, e.required, e.me)
                  && |w'.log| == |w.log| + 1 && w'.log[|w.log|].half.DidHalf?
                  && Some(w'.log[|w.log|].half.pending.pushedAtHeight) == PeakHeight(e.source, 0))
            && (r.Ok? <==> w'.log != w.log && e.answer.Settled? && e.answer.outcome != Push.Rejected)
            && (r == Err(MintError.Rejected) <==> w'.log != w.log && e.answer == Push.Settled(Push.Rejected))
  {
    var (claimed, prepared) := PrepareDid(w.holds, ix, e);
    if e.seedRoot.Some? && prepared.Ok? {
      Gates.RequirementsAccepted(e.required.value, {WalletAt(ix).key}, e.me);
      PushDidSettles(w.(holds := claimed), ix, prepared.value, e);
    }
  }

  lemma SignedLaunchMayBeSigned(
    ix: Ix, tip: Coin, didCoinId: Id, funding: Coin, root: nat, fee: u64, source: Source, e: LaunchEnv)
    requires SignLaunch(WalletAt(ix), tip, didCoinId, funding, root, fee, source, e).Ok?
    ensures e.stillUnlocked && SignableBy(ix, e.required, e.me)
    ensures Some(SignLaunch(WalletAt(ix), tip, didCoinId, funding, root, fee, source, e).value.pending.pushedAtHeight)
            == PeakHeight(source, 3)
  {
    Gates.RequirementsAccepted(e.required.value, {WalletAt(ix).key}, e.me);
  }

  /** So does a launch, from the chain's own tip of this DID and from no other coin. */
  lemma LaunchPushesOnlyWhatItMaySign(w: World, ix: Ix, did: MintedDid, source: Source, e: LaunchEnv)
    ensures var w' := Launch(w, ix, did, source, e).0;
            w'.log != w.log ==>
              && e.unlocked && e.stillUnlocked && SignableBy(ix, e.required, e.me)
              && e.tip(did.launcherId).Answer? && e.tip(did.launcherId).value.Some?
              && e.tip(did.launcherId).value.value.Id() == did.coinId
              && |w'.log| == |w.log| + 1 && w'.log[|w.log|].half.StoreHalf?
              && Some(w'.log[|w.log|].half.store.pushedAtHeight) == PeakHeight(source, 3)
  {
    var inputs := LaunchInputs(w.registry, ix, did, e);
    if inputs.Ok? {
      var (root, fee, tip) := inputs.value;
      var (claimed, claim) := SelectAndReserve(w.holds, e.market, WalletAt(ix).puzzleHash, fee);
      if claim.Ok? {
        var (funding, hold) := claim.value;
        var signed := SignLaunch(WalletAt(ix), tip, did.coinId, funding, root, fee, source, e);
        if signed.Ok? {
          SignedLaunchMayBeSigned(ix, tip, did.coinId, funding, root, fee, source, e);
          PushStoreSettles(w.(holds := claimed), ix, did, signed.value, fee, funding, hold, e.answer);
        }
      }
    }
  }

  /** The journal entry a begin leaves for a bundle that may still land. */
  ghost predicate JournalledBy(w: World, ix: Ix, e: BeginEnv, r: Registry) {
    && Begin(w, ix, e).0.log != w.log && ix in Begin(w, ix, e).0.registry.inProgress
    && ix in r.inProgress && r.inProgress[ix] == Begin(w, ix, e).0.registry.inProgress[ix]
  }

  lemma JournalledFloor(w: World, ix: Ix, e: BeginEnv, r: Registry)
    requires JournalledBy(w, ix, e, r)
    ensures r.inProgress[ix].stage.DidPushed?
    ensures Some(r.inProgress[ix].stage.pending.pushedAtHeight) == PeakHeight(e.source, 0)
    ensures r.inProgress[ix].stage.pending.didCoinId.Of?
  {
    var (claimed, prepared) := PrepareDid(w.holds, ix, e);
    PushDidSettles(w.(holds := claimed), ix, prepared.value, e);
    BeginPushesOnlyWhatItMaySign(w, ix, e);
  }

  /** No status, under any source, accepts a DID from below the block that was the tip when its bundle
      was pushed. It may accept one from that block itself, although the block was already there:
      an accepted DID postdates the push except exactly where its height is the floor. */
  lemma EvidenceIsNoOlderThanTheTip(w: World, ix: Ix, e: BeginEnv, v: Chain.View, r: Registry, later: Source)
    requires Chain.Valid(v.blocks) && Chain.Honest(e.source, v) && JournalledBy(w, ix, e, r)
    requires Status(r, ix, later).Ok? && Status(r, ix, later).value.DidConfirmed?
    ensures var height := Status(r, ix, later).value.did.confirmedHeight;
            && Chain.Peak(v.blocks) <= height
            && (height <= Chain.Peak(v.blocks) <==> height == r.inProgress[ix].stage.pending.pushedAtHeight)
  {
    JournalledFloor(w, ix, e, r);
    var pending := PendingMintFrom(r.inProgress[ix].stage.pending);
    DidEvidenceIff(pending, later.coin(1, pending.didCoinId).value.value, PeakHeight(later, 0).value);
  }

  ghost predicate AcceptedAt(r: Registry, ix: Ix, later: Source, height: u32) {
    && Status(r, ix, later).Ok? && Status(r, ix, later).value.DidConfirmed?
    && Status(r, ix, later).value.did.confirmedHeight == height
  }

  /** Some source does have a DID accepted from the block that was the tip, whenever there can be a
      chain five blocks longer: the floor test is `<`, not `<=`. */
  lemma TheTipItselfIsAccepted(w: World, ix: Ix, e: BeginEnv, v: Chain.View, r: Registry)
    requires Chain.Valid(v.blocks) && Chain.Honest(e.source, v) && JournalledBy(w, ix, e, r)
    ensures (exists later :: AcceptedAt(r, ix, later, Chain.Peak(v.blocks)))
            <==> 0 < Chain.Peak(v.blocks) && Chain.Peak(v.blocks) + 5 <= U32_MAX
  {
    JournalledFloor(w, ix, e, r);
    var pending := PendingMintFrom(r.inProgress[ix].stage.pending);
    var tip := Chain.Peak(v.blocks);
    if 0 < tip && tip + 5 <= U32_MAX {
      AcceptedAtTheTip(r, ix, tip);
    }
    forall later | AcceptedAt(r, ix, later, tip) ensures 0 < tip && tip + 5 <= U32_MAX {
      DidEvidenceIff(pending, later.coin(1, pending.didCoinId).value.value, PeakHeight(later, 0).value);
    }
  }

  lemma AcceptedAtTheTip(r: Registry, ix: Ix, tip: u32)
    requires ix in r.inProgress && r.inProgress[ix].stage.DidPushed? && r.inProgress[ix].stage.pending.didCoinId.Of?
    requires r.inProgress[ix].stage.pending.pushedAtHeight == tip && 0 < tip && tip + 5 <= U32_MAX
    ensures exists later :: AcceptedAt(r, ix, later, tip)
  {
    var pending := PendingMintFrom(r.inProgress[ix].stage.pending);
    var rec := CoinRecord(CoinOf(pending.didCoinId), Some(tip), None);
    var later := Source(
      (step: nat, id: Id) => Answer(Some(rec)), (step: nat) => Answer(Some(tip + 5)), (step: nat, id: Id) => Answer(None));
    DidEvidenceIff(pending, rec, tip + 5);
    assert AcceptedAt(r, ix, later, tip);
  }

  // ---------- the journal only moves forward ----------

  function Rank(stage: Stage): nat {
    match stage
    case DidPushed(_) => 0
    case DidConfirmedStoreNotLaunched(_) => 1
    case StorePushed(_, _) => 2
  }

  predicate MovedForward(m: Mint, m': Mint) {
    && m'.seedRoot == m.seedRoot && m'.storeFee == m.storeFee
    && StageDid(m'.stage) == StageDid(m.stage)
    && Rank(m.stage) <= Rank(m'.stage)
  }

  /** No call loses a mint, changes its seed, its fee or the DID it is about, or takes it back a
      stage: a refused launch ends where its DID's confirmation put it. Only the host's own record
      of a profile at that index ends it; a restart is no call, and finds what was saved. */
  lemma StagesOnlyMoveForward(w: World, s: Step, ix: Ix)
    requires ix in w.registry.inProgress
    ensures var r := Next(w, s).registry;
            if s.Restart? then r == s.saved
            else if ix in r.inProgress then MovedForward(w.registry.inProgress[ix], r.inProgress[ix])
            else s.RecordProfile? && s.ix == ix && ix in r.entries
  {
    match s
    case BeginMint(other, e) => BeginTouchesOnlyItsIndex(w, other, e, ix);
    case AdvanceMint(other, source, e) => AdvanceMovesForward(w, other, source, e, ix);
    case _ =>
  }

  lemma AdvanceMovesForward(w: World, other: Ix, source: Source, e: LaunchEnv, ix: Ix)
    requires ix in w.registry.inProgress
    ensures var r := Advance(w, other, source, e).0.registry;
            ix in r.inProgress && MovedForward(w.registry.inProgress[ix], r.inProgress[ix])
  {
    var status := Status(w.registry, other, source);
    if status.Ok? && status.value.DidConfirmed? {
      StatusSpeaksOfItsStage(w.registry, other, source);
      LaunchOutcome(w, other, status.value.did, source, e);
      var w' := Launch(w, other, status.value.did, source, e).0;
      if w'.log != w.log {
        SettledMovesForward(w.registry, other, status.value.did, w'.log[|w.log|], ix);
      }
    }
  }

  /** A begin never touches a mint already journalled, its own index included. */
  lemma BeginTouchesOnlyItsIndex(w: World, other: Ix, e: BeginEnv, ix: Ix)
    requires ix in w.registry.inProgress
    ensures var r := Begin(w, other, e).0.registry;
            ix in r.inProgress && r.inProgress[ix] == w.registry.inProgress[ix] && r.entries == w.registry.entries
  {
    var (claimed, prepared) := PrepareDid(w.holds, other, e);
    if e.seedRoot.Some? && prepared.Ok? {
      PushDidSettles(w.(holds := claimed), other, prepared.value, e);
    }
  }

  lemma SettledMovesForward(r: Registry, other: Ix, did: MintedDid, p: Pushed, ix: Ix)
    requires ix in r.inProgress && other in r.inProgress && p.half.StoreHalf?
    requires !r.inProgress[other].stage.StorePushed?
    requires (did.launcherId, did.coinId) == StageDid(r.inProgress[other].stage)
    ensures ix in Settled(r, other, did, p).inProgress
    ensures MovedForward(r.inProgress[ix], Settled(r, other, did, p).inProgress[ix])
  {
  }

  // ---------- only a stated refusal is acted on ----------

  ghost predicate StatedRefusal(body: Option<Push.Body>) {
    body.Some? && Push.StatesRefusal(body.value)
  }

  /** The hold of a push stands after its call exactly if the bundle may still land. */
  lemma BeginSettlesItsHold(w: World, ix: Ix, e: BeginEnv)
    requires Exclusive(w.holds) && Begin(w, ix, e).0.log != w.log
    ensures var w' := Begin(w, ix, e).0;
            |w'.log| == |w.log| + 1 && (w'.log[|w.log|].hold in w'.holds.entries <==> w'.log[|w.log|].Live())
  {
    var (claimed, prepared) := PrepareDid(w.holds, ix, e);
    SelectAndReserveIsClean(w.holds, e.market, WalletAt(ix).puzzleHash, e.fee);
    PushDidSettles(w.(holds := claimed), ix, prepared.value, e);
  }

  lemma LaunchSettlesItsHold(w: World, ix: Ix, did: MintedDid, source: Source, e: LaunchEnv)
    requires Exclusive(w.holds) && Launch(w, ix, did, source, e).0.log != w.log
    ensures var w' := Launch(w, ix, did, source, e).0;
            |w'.log| == |w.log| + 1 && (w'.log[|w.log|].hold in w'.holds.entries <==> w'.log[|w.log|].Live())
  {
    var (root, fee, tip) := LaunchInputs(w.registry, ix, did, e).value;
    var (claimed, claim) := SelectAndReserve(w.holds, e.market, WalletAt(ix).puzzleHash, fee);
    SelectAndReserveIsClean(w.holds, e.market, WalletAt(ix).puzzleHash, fee);
    var (funding, hold) := claim.value;
    var launch := SignLaunch(WalletAt(ix), tip, did.coinId, funding, root, fee, source, e).value;
    PushStoreSettles(w.(holds := claimed), ix, did, launch, fee, funding, hold, e.answer);
  }

  /** After a DID push the index stays reserved, and its coin stays held, exactly unless the response
      body states a refusal: no silence, transport failure or unread answer ever frees them. */
  lemma IndexReleasedOnlyOnAStatedRefusal(w: World, ix: Ix, e: BeginEnv, body: Option<Push.Body>)
    requires Exclusive(w.holds) && e.answer == Push.PushVia(body) && Begin(w, ix, e).0.log != w.log
    ensures var w' := Begin(w, ix, e).0;
            && |w'.log| == |w.log| + 1
            && ix !in w.registry.inProgress
            && (ix in w'.registry.inProgress <==> !StatedRefusal(body))
            && (w'.log[|w.log|].hold in w'.holds.entries <==> !StatedRefusal(body))
            && (StatedRefusal(body) ==> w'.registry == w.registry)
  {
    Push.RejectedIff(body);
    var (claimed, prepared) := PrepareDid(w.holds, ix, e);
    PushDidSettles(w.(holds := claimed), ix, prepared.value, e);
    BeginSettlesItsHold(w, ix, e);
  }

  /** After a store push the stage is rewound, and the coin freed, exactly on a stated refusal. */
  lemma StageRewoundOnlyOnAStatedRefusal(w: World, ix: Ix, source: Source, e: LaunchEnv, body: Option<Push.Body>)
    requires Exclusive(w.holds) && e.answer == Push.PushVia(body) && Advance(w, ix, source, e).0.log != w.log
    ensures var w' := Advance(w, ix, source, e).0;
            && |w'.log| == |w.log| + 1 && ix in w'.registry.inProgress
            && (w'.registry.inProgress[ix].stage.StorePushed? <==> !StatedRefusal(body))
            && (w'.registry.inProgress[ix].stage.DidConfirmedStoreNotLaunched? <==> StatedRefusal(body))
            && (w'.log[|w.log|].hold in w'.holds.entries <==> !StatedRefusal(body))
  {
    Push.RejectedIff(body);
    var status := Status(w.registry, ix, source);
    AdvancePushesOnEvidence(w, ix, source, e);
    LaunchOutcome(w, ix, status.value.did, source, e);
    LaunchSettlesItsHold(w, ix, status.value.did, source, e);
    var w' := Advance(w, ix, source, e).0;
    assert w'.log[|w.log|].answer == e.answer;
  }

  lemma RewoundReadsTheSame(r: Registry, ix: Ix, source: Source)
    requires Status(r, ix, source).Ok? && Status(r, ix, source).value.DidConfirmed?
    ensures var did := Status(r, ix, source).value.did;
            Status(SetStage(r, ix, DidConfirmedStoreNotLaunched(MirrorDid(did))).value, ix, source) == Ok(DidConfirmed(did))
  {
  }

  /** A refused launch is not the end: the same chain, read again, says to launch. */
  lemma RefusedLaunchIsRetried(w: World, ix: Ix, source: Source, e: LaunchEnv)
    requires Advance(w, ix, source, e).0.log != w.log && e.answer == Push.Settled(Push.Rejected)
    ensures Status(Advance(w, ix, source, e).0.registry, ix, source) == Status(w.registry, ix, source)
  {
    AdvancePushesOnEvidence(w, ix, source, e);
    LaunchOutcome(w, ix, Status(w.registry, ix, source).value.did, source, e);
    RewoundReadsTheSame(w.registry, ix, source);
  }

  // ---------- the registry's own check ----------

  predicate StageHeightsReal(stage: Stage) {
    stage.DidPushed? || stage.did.confirmedHeight != 0
  }

  /** The rules of the registry's `check` that speak of mints and anchors: it panics where one is broken. */
  ghost predicate Checks(r: Registry) {
    && (forall ix :: ix in r.inProgress ==>
          && ix !in r.entries
          && r.inProgress[ix].storeFee <= MAX_MINT_FEE_MOJOS && StageHeightsReal(r.inProgress[ix].stage))
    && (forall a, b :: a in r.entries && b in r.entries && r.entries[a].launcherId == r.entries[b].launcherId ==> a == b)
    && (forall ix :: ix in r.entries ==>
          var anchor := r.entries[ix];
          && anchor.didConfirmedHeight != 0 && anchor.storeConfirmedHeight != 0
          && anchor.storeLaunchedFrom == anchor.didCoinId)
  }

  /** Evidence is only ever built from a nonzero height. */
  predicate RecordsRealEvidence(s: Step) {
    s.RecordProfile? ==> s.did.confirmedHeight != 0 && s.store.confirmedHeight != 0
  }

  lemma StatusHeightsAreReal(r: Registry, ix: Ix, source: Source)
    requires Status(r, ix, source).Ok?
    ensures match Status(r, ix, source).value
            case DidConfirmed(did) => did.confirmedHeight != 0
            case Confirmed(did, store) => did.confirmedHeight != 0 && store.confirmedHeight != 0
            case _ => true
  {
  }

  lemma StepKeepsChecks(w: World, s: Step)
    requires Checks(w.registry) && RecordsRealEvidence(s) && !s.Restart?
    ensures Checks(Next(w, s).registry)
  {
    match s
    case BeginMint(ix, e) =>
      var (claimed, prepared) := PrepareDid(w.holds, ix, e);
      if e.seedRoot.Some? && prepared.Ok? {
        PushDidSettles(w.(holds := claimed), ix, prepared.value, e);
      }
    case AdvanceMint(ix, source, e) =>
      var status := Status(w.registry, ix, source);
      if status.Ok? && status.value.DidConfirmed? {
        StatusHeightsAreReal(w.registry, ix, source);
        LaunchOutcome(w, ix, status.value.did, source, e);
        var w' := Launch(w, ix, status.value.did, source, e).0;
        if w'.log != w.log {
          SettledKeepsChecks(w.registry, ix, status.value.did, w'.log[|w.log|]);
        }
      }
    case _ =>
  }

  lemma SettledKeepsChecks(r: Registry, ix: Ix, did: MintedDid, p: Pushed)
    requires Checks(r) && ix in r.inProgress && p.half.StoreHalf? && did.confirmedHeight != 0
    ensures Checks(Settled(r, ix, did, p))
  {
  }

  /** However a host drives it, restarts from any registry it saved included, these rules of the
      registry's own check hold. */
  lemma {:induction false} RegistryStaysValid(steps: seq<Step>)
    requires Kept(steps) && forall s :: s in steps ==> RecordsRealEvidence(s)
    ensures Checks(Run(steps).registry)
    decreases |steps|
  {
    if steps != [] {
      var before, last := steps[..|steps| - 1], steps[|steps| - 1];
      if last.Restart? {
        var k: nat :| SavedAt(before, k, last.saved);
        KeptBefore(before, k);
        RegistryStaysValid(before[..k]);
      } else {
        RegistryStaysValid(before);
        StepKeepsChecks(Run(before), last);
      }
    }
  }

  // ---------- what a later chain can change ----------

  /** A DID a status call found confirmed is found again, unchanged, by every later call that gets
      its answers, on every later chain: the mint never waits for it, or pays for it, again. */
  lemma ConfirmedDidIsNeverLost(
    r: Registry, ix: Ix, v: Chain.View, v': Chain.View, h: seq<Chain.Blocks>, k: nat, s: Source, s': Source)
    requires Chain.History(h) && k < |h| && h[0] == v.blocks && h[k] == v'.blocks
    requires Chain.Honest(s, v) && Chain.Honest(s', v')
    requires Status(r, ix, s).Ok? && Status(r, ix, s).value.DidConfirmed?
    ensures PeakHeight(s', 0).Some? && s'.coin(1, StageDid(r.inProgress[ix].stage).1).Answer? ==>
              Status(r, ix, s') == Status(r, ix, s)
  {
    StatusSpeaksOfItsStage(r, ix, s);
    var coinId := StageDid(r.inProgress[ix].stage).1;
    var rec := s.coin(1, coinId).value.value;
    var floor := match r.inProgress[ix].stage
      case DidPushed(p) => p.pushedAtHeight
      case DidConfirmedStoreNotLaunched(d) => d.confirmedHeight
      case StorePushed(d, _) => d.confirmedHeight;
    assert Buried(coinId, floor, rec, Chain.Peak(v.blocks));
    if PeakHeight(s', 0).Some? && s'.coin(1, coinId).Answer? {
      Polled.BuriedIsServedAgain(v, v', h, k, coinId, floor, rec, s'.coin(1, coinId).value);
    }
  }

  /** And a finished profile is finished for good: both coins stand in every later chain, at the
      heights reported, and every later call that gets its answers reports the same. */
  lemma ConfirmedProfileIsFinal(
    r: Registry, ix: Ix, v: Chain.View, v': Chain.View, h: seq<Chain.Blocks>, k: nat, s: Source, s': Source)
    requires Chain.History(h) && k < |h| && h[0] == v.blocks && h[k] == v'.blocks
    requires Chain.Honest(s, v) && Chain.Honest(s', v')
    requires Status(r, ix, s).Ok? && Status(r, ix, s).value.Confirmed?
    ensures var Confirmed(did, store) := Status(r, ix, s).value;
            && did.coinId.Of? && Chain.CreatedAt(h[k], CoinOf(did.coinId), did.confirmedHeight)
            && store.coinId.Of? && Chain.CreatedAt(h[k], CoinOf(store.coinId), store.confirmedHeight)
            && (PeakHeight(s', 0).Some? && s'.coin(1, did.coinId).Answer? && s'.coin(2, store.coinId).Answer?
                ==> Status(r, ix, s') == Status(r, ix, s))
  {
    StatusSpeaksOfItsStage(r, ix, s);
    var stage := r.inProgress[ix].stage;
    var did := s.coin(1, stage.did.coinId).value.value;
    var store := s.coin(2, stage.pendingStore.storeCoinId).value.value;
    BuriedIsFinal(v, h, k, stage.did.coinId, stage.did.confirmedHeight, did);
    BuriedIsFinal(v, h, k, stage.pendingStore.storeCoinId, stage.pendingStore.pushedAtHeight, store);
    if PeakHeight(s', 0).Some? && s'.coin(1, stage.did.coinId).Answer? && s'.coin(2, stage.pendingStore.storeCoinId).Answer? {
      Polled.BuriedIsServedAgain(v, v', h, k, stage.did.coinId, stage.did.confirmedHeight, did, s'.coin(1, stage.did.coinId).value);
      Polled.BuriedIsServedAgain(v, v', h, k, stage.pendingStore.storeCoinId, stage.pendingStore.pushedAtHeight, store,
                                 s'.coin(2, stage.pendingStore.storeCoinId).value);
    }
  }
}
