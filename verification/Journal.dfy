/**
  The mint journal and the registry that owns it: one in-progress mint per profile index, its
  stage held as plain mirrors that are not evidence, and the entries of finished profiles.
*/
module Journal {
  import opened Base
  import opened Evidence
  import Funding

  type Ix = nat

  // Mirrors of evidence. Nothing converts a mirror of evidence back into evidence.

  datatype PendingMintRecord = PendingMintRecord(launcherId: Id, didCoinId: Id, sourceCoinId: Id, pushedAtHeight: u32)

  datatype MintedDidRecord = MintedDidRecord(launcherId: Id, coinId: Id, confirmedHeight: u32)

  datatype PendingStoreRecord = PendingStoreRecord(
    launcherId: Id, storeCoinId: Id, didCoinId: Id, committedRoot: nat, pushedAtHeight: u32)

  function MirrorPendingMint(p: PendingMint): PendingMintRecord {
    PendingMintRecord(p.launcherId, p.didCoinId, p.sourceCoinId, p.pushedAtHeight)
  }

  function MirrorDid(d: MintedDid): MintedDidRecord {
    MintedDidRecord(d.launcherId, d.coinId, d.confirmedHeight)
  }

  function MirrorPendingStore(p: PendingStoreLaunch): PendingStoreRecord {
    PendingStoreRecord(p.launcherId, p.storeCoinId, p.didCoinId, p.committedRoot, p.pushedAtHeight)
  }

  /** `pending_mint_from`: what to look for, rebuilt. */
  function PendingMintFrom(r: PendingMintRecord): PendingMint {
    PendingMint(r.launcherId, r.didCoinId, r.sourceCoinId, r.pushedAtHeight)
  }

  /** `pending_store_from`. */
  function PendingStoreFrom(r: PendingStoreRecord): PendingStoreLaunch {
    PendingStoreLaunch(r.launcherId, r.storeCoinId, r.didCoinId, r.committedRoot, r.pushedAtHeight)
  }

  datatype Stage =
    | DidPushed(pending: PendingMintRecord)
    | DidConfirmedStoreNotLaunched(did: MintedDidRecord)
    | StorePushed(did: MintedDidRecord, pendingStore: PendingStoreRecord)

  datatype Mint = Mint(stage: Stage, seedRoot: Option<nat>, storeFee: u64)

  datatype Anchor = Anchor(
    launcherId: Id, didCoinId: Id, didConfirmedHeight: u32,
    storeLauncherId: Id, storeConfirmedHeight: u32, storeLaunchedFrom: Id, storeCoinId: Id)

  datatype Registry = Registry(inProgress: map<Ix, Mint>, entries: map<Ix, Anchor>)

  datatype JournalError =
    | ProfileAlreadyRegistered
    | IdentityAlreadyRegistered
    | MintAlreadyInProgress
    | MintFeeAboveCeiling
    | MismatchedMintHalves
    | NotJournalled
    | NoProfileSeed

  /** `reserve`: an index takes one mint, ever. */
  function Reserve(r: Registry, ix: Ix, m: Mint): Result<Registry, JournalError> {
    if ix in r.entries then Err(ProfileAlreadyRegistered)
    else if ix in r.inProgress then Err(MintAlreadyInProgress)
    else if m.storeFee > Funding.MAX_MINT_FEE_MOJOS then Err(MintFeeAboveCeiling)
    else Ok(r.(inProgress := r.inProgress[ix := m]))
  }

  /** `advance_mint`. */
  function SetStage(r: Registry, ix: Ix, stage: Stage): Result<Registry, JournalError> {
    if ix !in r.inProgress then Err(NotJournalled)
    else Ok(r.(inProgress := r.inProgress[ix := r.inProgress[ix].(stage := stage)]))
  }

  /** `abandon_mint`. */
  function Abandon(r: Registry, ix: Ix): Result<Registry, JournalError> {
    if ix !in r.inProgress then Err(NotJournalled) else Ok(r.(inProgress := r.inProgress - {ix}))
  }

  /** `ProfileAnchor::from_confirmed`: only the two halves of one mint. */
  function AnchorFrom(did: MintedDid, store: ConfirmedStore): Result<Anchor, JournalError> {
    if store.didCoinId != did.coinId then Err(MismatchedMintHalves)
    else Ok(Anchor(did.launcherId, did.coinId, did.confirmedHeight,
                   store.launcherId, store.confirmedHeight, store.didCoinId, store.coinId))
  }

  predicate IdentityHeld(r: Registry, launcherId: Id) {
    exists ix :: ix in r.entries && r.entries[ix].launcherId == launcherId
  }

  /** `record_minted`: the host's step, which clears whatever was journalled at the index. */
  function RecordMinted(r: Registry, ix: Ix, did: MintedDid, store: ConfirmedStore): Result<Registry, JournalError> {
    if ix in r.entries then Err(ProfileAlreadyRegistered)
    else if IdentityHeld(r, did.launcherId) then Err(IdentityAlreadyRegistered)
    else match AnchorFrom(did, store)
      case Err(e) => Err(e)
      case Ok(anchor) => Ok(Registry(r.inProgress - {ix}, r.entries[ix := anchor]))
  }

  class ProfileRegistry {
    var inProgress: map<Ix, Mint>
    var entries: map<Ix, Anchor>

    function View(): Registry
      reads this
    {
      Registry(inProgress, entries)
    }

    constructor ()
      ensures View() == Registry(map[], map[])
    {
      inProgress := map[];
      entries := map[];
    }

    method BeginSeededMint(ix: Ix, stage: Stage, seedRoot: nat, storeFee: u64) returns (r: Result<(), JournalError>)
      modifies this
      ensures var reserved := Reserve(old(View()), ix, Mint(stage, Some(seedRoot), storeFee));
              && (reserved.Ok? ==> r == Ok(()) && View() == reserved.value)
              && (reserved.Err? ==> r == Err(reserved.error) && View() == old(View()))
    {
      if ix in entries {
        return Err(ProfileAlreadyRegistered);
      }
      if ix in inProgress {
        return Err(MintAlreadyInProgress);
      }
      if storeFee > Funding.MAX_MINT_FEE_MOJOS {
        return Err(MintFeeAboveCeiling);
      }
      inProgress := inProgress[ix := Mint(stage, Some(seedRoot), storeFee)];
      return Ok(());
    }

    method AdvanceMint(ix: Ix, stage: Stage) returns (r: Result<(), JournalError>)
      modifies this`inProgress
      ensures var moved := SetStage(old(View()), ix, stage);
              && (moved.Ok? ==> r == Ok(()) && View() == moved.value)
              && (moved.Err? ==> r == Err(moved.error) && View() == old(View()))
    {
      if ix !in inProgress {
        return Err(NotJournalled);
      }
      inProgress := inProgress[ix := inProgress[ix].(stage := stage)];
      return Ok(());
    }

    method AbandonMint(ix: Ix) returns (r: Result<(), JournalError>)
      modifies this`inProgress
      ensures var gone := Abandon(old(View()), ix);
              && (gone.Ok? ==> r == Ok(()) && View() == gone.value)
              && (gone.Err? ==> r == Err(gone.error) && View() == old(View()))
    {
      if ix !in inProgress {
        return Err(NotJournalled);
      }
      inProgress := inProgress - {ix};
      return Ok(());
    }

    method RecordMintedProfile(ix: Ix, did: MintedDid, store: ConfirmedStore) returns (r: Result<(), JournalError>)
      modifies this
      ensures var recorded := RecordMinted(old(View()), ix, did, store);
              && (recorded.Ok? ==> r == Ok(()) && View() == recorded.value)
              && (recorded.Err? ==> r == Err(recorded.error) && View() == old(View()))
    {
      if ix in entries {
        return Err(ProfileAlreadyRegistered);
      }
      if IdentityHeld(View(), did.launcherId) {
        return Err(IdentityAlreadyRegistered);
      }
      var anchor := AnchorFrom(did, store);
      if anchor.Err? {
        return Err(anchor.error);
      }
      inProgress := inProgress - {ix};
      entries := entries[ix := anchor.value];
      return Ok(());
    }
  }
}
