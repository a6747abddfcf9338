/**
  The two-bundle profile mint: begin journals and pushes the DID half, advance reads the chain
  and pushes the store half, status only reads. Each call is a function from the state it finds
  and the answers it is given to the state it leaves; the methods that update the registry, the
  coin holds and the publisher in place are proved equal to those functions.
*/
module Ceremony {
  import opened Base
  import opened Evidence
  import opened Funding
  import opened Journal
  import opened Reservations
  import Gates
  import Push

  datatype MintError =
    | Unseedable
    | Locked
    | FeeAboveCeiling
    | Reserved(required: u64, available: u64)
    | Short(required: u64, available: u64)
    | ReservationUnusable
    | Unreachable
    | Refused
    | Build
    | Rejected
    | Journalled(why: JournalError)

  datatype ProfileMintStatus =
    | DidPending(didCoinId: Id)
    | DidConfirmed(did: MintedDid)
    | StorePending(did: MintedDid, storeLauncherId: Id)
    | Confirmed(did: MintedDid, store: ConfirmedStore)

  /** Which half of a profile a bundle is, and what its confirmation will look like. */
  datatype Half = DidHalf(pending: PendingMint) | StoreHalf(store: PendingStoreLaunch)

  /** One push: the bundle, the fee it pays, the coin that funds it under which hold, and what the
      network was heard to answer. */
  datatype Pushed = Pushed(
    ix: Ix, half: Half, spends: seq<Spend>, fee: u64, funding: Coin, hold: nat, answer: Push.PushAnswer)
  {
    /** Not refused: some block may carry it. */
    predicate Live() {
      answer != Push.Settled(Push.Rejected)
    }
  }

  datatype World = World(registry: Registry, holds: Holds, log: seq<Pushed>)

  /** The wallet key of an index: one key per index, paying its own standard puzzle hash. */
  function WalletAt(ix: Ix): Gates.Wallet {
    Gates.Wallet(ix, Standard(ix))
  }

  /** Everything outside the minter's control during one begin call. */
  datatype BeginEnv = BeginEnv(
    seedRoot: Option<nat>, fee: u64, unlocked: bool, market: Market, source: Source, builds: bool,
    stillUnlocked: bool, required: Option<seq<Gates.Requirement>>, me: nat, answer: Push.PushAnswer)

  /** And during the launch half of one advance call; `tip` is the walk of a DID's lineage. */
  datatype LaunchEnv = LaunchEnv(
    unlocked: bool, tip: Id -> Read<Option<Coin>>, market: Market, stillUnlocked: bool, builds: bool,
    required: Option<seq<Gates.Requirement>>, me: nat, answer: Push.PushAnswer)

  function FromClaim(e: ClaimError): MintError {
    match e
    case TableUnusable => ReservationUnusable
    case Selecting(ChainUnreachable) => Unreachable
    case Selecting(CoinsReserved(required, available)) => Reserved(required, available)
    case Selecting(InsufficientFunds(required, available)) => Short(required, available)
  }

  // ---------- the DID half ----------

  datatype Prepared = Prepared(spends: seq<Spend>, pending: PendingMint, source: Coin, hold: nat)

  /** `prepare_did_mint`: every failure past the claim gives the coin back. */
  function PrepareDid(h: Holds, ix: Ix, e: BeginEnv): (Holds, Result<Prepared, MintError>) {
    var wallet := WalletAt(ix);
    if !e.unlocked then (h, Err(Locked))
    else if e.fee > MAX_MINT_FEE_MOJOS then (h, Err(FeeAboveCeiling))
    else
      var (claimed, claim) := SelectAndReserve(h, e.market, wallet.puzzleHash, e.fee);
      match claim
      case Err(why) => (claimed, Err(FromClaim(why)))
      case Ok((source, hold)) =>
        match SignDid(wallet, source, e)
        case Err(why) => (Release(claimed, hold), Err(why))
        case Ok(pending) => (claimed, Ok(Prepared(DidSpends(wallet.puzzleHash, source, e.fee), pending, source, hold)))
  }

  /** Peak, build, the second liveness check, and the gate. */
  function SignDid(wallet: Gates.Wallet, source: Coin, e: BeginEnv): Result<PendingMint, MintError> {
    match PeakHeight(e.source, 0)
    case None => Err(Unreachable)
    case Some(peak) =>
      if !e.builds then Err(Build)
      else if !e.stillUnlocked then Err(Locked)
      else if e.required.None? then Err(Build)
      else if Gates.GateDidMint(wallet, AsCoinSpends(DidSpends(wallet.puzzleHash, source, e.fee)), e.required.value, e.me).Err?
      then Err(Refused)
      else Ok(PendingDid(wallet.puzzleHash, source, peak))
  }

  function DidPush(ix: Ix, p: Prepared, e: BeginEnv): Pushed {
    Pushed(ix, DidHalf(p.pending), p.spends, e.fee, p.source, p.hold, e.answer)
  }

  /** Journal, push, and settle: the second half of `begin_profile_mint`. */
  function PushDid(w: World, ix: Ix, p: Prepared, e: BeginEnv): (World, Result<ProfileMintStatus, MintError>)
    requires e.seedRoot.Some?
  {
    match Reserve(w.registry, ix, Mint(DidPushed(MirrorPendingMint(p.pending)), e.seedRoot, e.fee))
    case Err(why) => (w.(holds := Release(w.holds, p.hold)), Err(Journalled(why)))
    case Ok(reserved) =>
      var log := w.log + [DidPush(ix, p, e)];
      match e.answer
      case Settled(Rejected) =>
        (World(Released(reserved, ix), Release(w.holds, p.hold), log), Err(MintError.Rejected))
      case Settled(_) => (World(reserved, w.holds, log), Ok(DidPending(p.pending.didCoinId)))
      case Unknown => (World(reserved, w.holds, log), Err(Unreachable))
  }

  /** `release_index_on_a_definitive_no`, once the answer is one. */
  function Released(r: Registry, ix: Ix): Registry {
    match Abandon(r, ix)
    case Ok(released) => released
    case Err(_) => r
  }

  /** `begin_profile_mint`. */
  function Begin(w: World, ix: Ix, e: BeginEnv): (World, Result<ProfileMintStatus, MintError>) {
    if e.seedRoot.None? then (w, Err(Unseedable))
    else
      var (claimed, prepared) := PrepareDid(w.holds, ix, e);
      match prepared
      case Err(why) => (w.(holds := claimed), Err(why))
      case Ok(p) => PushDid(w.(holds := claimed), ix, p, e)
  }

  // ---------- status ----------

  /** `reverified_did`: a journalled DID is proved again, or the chain is treated as silent. */
  function Reverified(source: Source, step: nat, did: MintedDidRecord, peak: u32): Result<MintedDid, MintError> {
    match source.coin(step, did.coinId)
    case Answer(Some(rec)) =>
      (match DidReverified(did.launcherId, did.coinId, did.confirmedHeight, rec, peak)
       case Some(minted) => Ok(minted)
       case None => Err(Unreachable))
    case _ => Err(Unreachable)
  }

  /** `profile_mint_status`. */
  function Status(r: Registry, ix: Ix, source: Source): Result<ProfileMintStatus, MintError> {
    if ix !in r.inProgress then Err(Journalled(NotJournalled))
    else match PeakHeight(source, 0)
      case None => Err(Unreachable)
      case Some(peak) =>
        match r.inProgress[ix].stage
        case DidPushed(pending) =>
          var did := source.coin(1, pending.didCoinId);
          if did.Unreadable? then Err(Unreachable)
          else if did.value.Some? && DidFromConfirmed(PendingMintFrom(pending), did.value.value, peak).Some? then
            Ok(DidConfirmed(DidFromConfirmed(PendingMintFrom(pending), did.value.value, peak).value))
          else Ok(DidPending(pending.didCoinId))
        case DidConfirmedStoreNotLaunched(did) =>
          (match Reverified(source, 1, did, peak)
           case Err(why) => Err(why)
           case Ok(minted) => Ok(DidConfirmed(minted)))
        case StorePushed(did, pendingStore) =>
          match Reverified(source, 1, did, peak)
          case Err(why) => Err(why)
          case Ok(minted) =>
            var store := source.coin(2, pendingStore.storeCoinId);
            if store.Unreadable? then Err(Unreachable)
            else if store.value.Some? && StoreFromConfirmed(PendingStoreFrom(pendingStore), store.value.value, peak).Some? then
              Ok(Confirmed(minted, StoreFromConfirmed(PendingStoreFrom(pendingStore), store.value.value, peak).value))
            else Ok(StorePending(minted, pendingStore.launcherId))
  }

  // ---------- the store half ----------

  /** A store launch, built and gated. */
  datatype Launched = Launched(spends: seq<Spend>, pending: PendingStoreLaunch)

  /** `build_and_sign_store_launch`, after the peak and the second liveness check. */
  function SignLaunch(
    wallet: Gates.Wallet, tip: Coin, didCoinId: Id, funding: Coin, root: nat, fee: u64, source: Source, e: LaunchEnv):
    Result<Launched, MintError>
  {
    match PeakHeight(source, 3)
    case None => Err(Unreachable)
    case Some(peak) =>
      if !e.stillUnlocked then Err(Locked)
      else if tip.Id() != didCoinId then Err(Refused)
      else if !e.builds then Err(Build)
      else match StoreChange(funding.amount, fee)
        case None => Err(Short(SatAdd64(LAUNCHER_AMOUNT, fee), funding.amount))
        case Some(change) =>
          var spends := StoreSpends(tip, funding, root, wallet.puzzleHash, change);
          if e.required.None? then Err(Build)
          else if Gates.GateStoreLaunch(wallet, AsCoinSpends(spends), e.required.value, didCoinId, e.me).Err? then Err(Refused)
          else Ok(Launched(spends, PendingStore(tip, root, wallet.puzzleHash, peak)))
  }

  /** What a launch checks before it takes a coin: the journal entry, its seed, the unlock, and
      that the chain's tip of this DID is the coin the mint itself recorded. */
  function LaunchInputs(r: Registry, ix: Ix, did: MintedDid, e: LaunchEnv): Result<(nat, u64, Coin), MintError> {
    if ix !in r.inProgress then Err(Journalled(NotJournalled))
    else if r.inProgress[ix].seedRoot.None? then Err(Journalled(NoProfileSeed))
    else if !e.unlocked then Err(Locked)
    else match e.tip(did.launcherId)
      case Answer(Some(tip)) =>
        if tip.Id() != did.coinId then Err(Refused)
        else Ok((r.inProgress[ix].seedRoot.value, r.inProgress[ix].storeFee, tip))
      case _ => Err(Unreachable)
  }

  /** Journal, push, and settle: the second half of `launch_store`. */
  function PushStore(
    w: World, ix: Ix, did: MintedDid, launch: Launched, fee: u64, funding: Coin, hold: nat, answer: Push.PushAnswer):
    (World, Result<ProfileMintStatus, MintError>)
  {
    match SetStage(w.registry, ix, StorePushed(MirrorDid(did), MirrorPendingStore(launch.pending)))
    case Err(why) => (w.(holds := Release(w.holds, hold)), Err(Journalled(why)))
    case Ok(journalled) =>
      var log := w.log + [StorePush(ix, launch, fee, funding, hold, answer)];
      match answer
      case Settled(Rejected) =>
        (World(Rewound(journalled, ix, did), Release(w.holds, hold), log), Err(MintError.Rejected))
      case Settled(_) => (World(journalled, w.holds, log), Ok(StorePending(did, launch.pending.launcherId)))
      case Unknown => (World(journalled, w.holds, log), Err(Unreachable))
  }

  function StorePush(ix: Ix, launch: Launched, fee: u64, funding: Coin, hold: nat, answer: Push.PushAnswer): Pushed {
    Pushed(ix, StoreHalf(launch.pending), launch.spends, fee, funding, hold, answer)
  }

  /** Claim a funding coin and launch; every failure before the push gives the coin back. */
  function LaunchFrom(
    w: World, ix: Ix, did: MintedDid, root: nat, fee: u64, tip: Coin, source: Source, e: LaunchEnv):
    (World, Result<ProfileMintStatus, MintError>)
  {
    var wallet := WalletAt(ix);
    var (claimed, claim) := SelectAndReserve(w.holds, e.market, wallet.puzzleHash, fee);
    match claim
    case Err(why) => (w.(holds := claimed), Err(FromClaim(why)))
    case Ok((funding, hold)) =>
      match SignLaunch(wallet, tip, did.coinId, funding, root, fee, source, e)
      case Err(why) => (w.(holds := Release(claimed, hold)), Err(why))
      case Ok(launch) => PushStore(w.(holds := claimed), ix, did, launch, fee, funding, hold, e.answer)
  }

  /** `launch_store`. */
  function Launch(w: World, ix: Ix, did: MintedDid, source: Source, e: LaunchEnv): (World, Result<ProfileMintStatus, MintError>) {
    match LaunchInputs(w.registry, ix, did, e)
    case Err(why) => (w, Err(why))
    case Ok((root, fee, tip)) => LaunchFrom(w, ix, did, root, fee, tip, source, e)
  }

  /** `rewind_to_an_unlaunched_store_on_a_definitive_no`, once the answer is one. */
  function Rewound(r: Registry, ix: Ix, did: MintedDid): Registry {
    match SetStage(r, ix, DidConfirmedStoreNotLaunched(MirrorDid(did)))
    case Ok(rewound) => rewound
    case Err(_) => r
  }

  /** `advance_profile_mint`. */
  function Advance(w: World, ix: Ix, source: Source, e: LaunchEnv): (World, Result<ProfileMintStatus, MintError>) {
    match Status(w.registry, ix, source)
    case Ok(DidConfirmed(did)) => Launch(w, ix, did, source, e)
    case settled => (w, settled)
  }

  // ---------- the ceremony in place ----------

  /** What has been broadcast, and what was heard back. */
  class Publisher {
    var log: seq<Pushed>

    constructor ()
      ensures log == []
    {
      log := [];
    }

    method Broadcast(p: Pushed) returns (answer: Push.PushAnswer)
      modifies this
      ensures log == old(log) + [p] && answer == p.answer
    {
      log := log + [p];
      answer := p.answer;
    }
  }

  class ProfileMinter {
    const registry: ProfileRegistry
    const reservations: LocalReservations
    const publisher: Publisher

    function View(): World
      reads registry, reservations, publisher
    {
      World(registry.View(), reservations.View(), publisher.log)
    }

    constructor (registry: ProfileRegistry, reservations: LocalReservations, publisher: Publisher)
      ensures this.registry == registry && this.reservations == reservations && this.publisher == publisher
    {
      this.registry := registry;
      this.reservations := reservations;
      this.publisher := publisher;
    }

    method PrepareDidMint(ix: Ix, e: BeginEnv) returns (r: Result<Prepared, MintError>)
      modifies reservations
      ensures (reservations.View(), r) == PrepareDid(old(reservations.View()), ix, e)
    {
      var wallet := WalletAt(ix);
      if !e.unlocked {
        return Err(Locked);
      }
      if e.fee > MAX_MINT_FEE_MOJOS {
        return Err(FeeAboveCeiling);
      }
      var claim := reservations.Claim(e.market, wallet.puzzleHash, e.fee);
      if claim.Err? {
        return Err(FromClaim(claim.error));
      }
      var (source, hold) := claim.value;
      var signed := SignDid(wallet, source, e);
      if signed.Err? {
        reservations.ReleaseHold(hold);
        return Err(signed.error);
      }
      return Ok(Prepared(DidSpends(wallet.puzzleHash, source, e.fee), signed.value, source, hold));
    }

    /** The journal entry goes in before the bundle goes out; only a definitive no takes it back. */
    method JournalAndPushDid(ix: Ix, p: Prepared, e: BeginEnv) returns (r: Result<ProfileMintStatus, MintError>)
      requires e.seedRoot.Some?
      modifies registry, reservations, publisher
      ensures (View(), r) == PushDid(old(View()), ix, p, e)
    {
      var journalled := registry.BeginSeededMint(ix, DidPushed(MirrorPendingMint(p.pending)), e.seedRoot.value, e.fee);
      if journalled.Err? {
        reservations.ReleaseHold(p.hold);
        return Err(Journalled(journalled.error));
      }
      var answer := publisher.Broadcast(DidPush(ix, p, e));
      if answer == Push.Settled(Push.Rejected) {
        var _ := registry.AbandonMint(ix);
        reservations.ReleaseHold(p.hold);
        return Err(MintError.Rejected);
      }
      return if answer.Unknown? then Err(Unreachable) else Ok(DidPending(p.pending.didCoinId));
    }

    method BeginProfileMint(ix: Ix, e: BeginEnv) returns (r: Result<ProfileMintStatus, MintError>)
      modifies registry, reservations, publisher
      ensures (View(), r) == Begin(old(View()), ix, e)
    {
      if e.seedRoot.None? {
        return Err(Unseedable);
      }
      var prepared := PrepareDidMint(ix, e);
      if prepared.Err? {
        return Err(prepared.error);
      }
      r := JournalAndPushDid(ix, prepared.value, e);
    }

    method JournalAndPushStore(ix: Ix, did: MintedDid, launch: Launched, fee: u64, funding: Coin, hold: nat, heard: Push.PushAnswer)
      returns (r: Result<ProfileMintStatus, MintError>)
      modifies registry, reservations, publisher
      ensures (View(), r) == PushStore(old(View()), ix, did, launch, fee, funding, hold, heard)
    {
      var journalled := registry.AdvanceMint(ix, StorePushed(MirrorDid(did), MirrorPendingStore(launch.pending)));
      if journalled.Err? {
        reservations.ReleaseHold(hold);
        return Err(Journalled(journalled.error));
      }
      var answer := publisher.Broadcast(StorePush(ix, launch, fee, funding, hold, heard));
      if answer == Push.Settled(Push.Rejected) {
        var _ := registry.AdvanceMint(ix, DidConfirmedStoreNotLaunched(MirrorDid(did)));
        reservations.ReleaseHold(hold);
        return Err(MintError.Rejected);
      }
      return if answer.Unknown? then Err(Unreachable) else Ok(StorePending(did, launch.pending.launcherId));
    }

    method LaunchStore(ix: Ix, did: MintedDid, source: Source, e: LaunchEnv) returns (r: Result<ProfileMintStatus, MintError>)
      modifies registry, reservations, publisher
      ensures (View(), r) == Launch(old(View()), ix, did, source, e)
    {
      var inputs := LaunchInputs(registry.View(), ix, did, e);
      if inputs.Err? {
        return Err(inputs.error);
      }
      var (root, fee, tip) := inputs.value;
      var wallet := WalletAt(ix);
      var claim := reservations.Claim(e.market, wallet.puzzleHash, fee);
      if claim.Err? {
        return Err(FromClaim(claim.error));
      }
      var (funding, hold) := claim.value;
      var signed := SignLaunch(wallet, tip, did.coinId, funding, root, fee, source, e);
      if signed.Err? {
        reservations.ReleaseHold(hold);
        return Err(signed.error);
      }
      r := JournalAndPushStore(ix, did, signed.value, fee, funding, hold, e.answer);
    }

    method AdvanceProfileMint(ix: Ix, source: Source, e: LaunchEnv) returns (r: Result<ProfileMintStatus, MintError>)
      modifies registry, reservations, publisher
      ensures (View(), r) == Advance(old(View()), ix, source, e)
    {
      r := Status(registry.View(), ix, source);
      if r.Ok? && r.value.DidConfirmed? {
        r := LaunchStore(ix, r.value.did, source, e);
      }
    }
  }
}
