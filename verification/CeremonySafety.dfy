/**
  What every run of the ceremony keeps. A run is any sequence of begins, advances, host records,
  other callers' reservations, lapsing holds and restarts, under any chain answers, any race for
  coins and any push answer. A restart forgets every hold and finds the registry as it was last
  saved; a crash inside a call is that call, its answer never heard, and then a restart.
*/
module CeremonySafety {
  import opened Base
  import opened Ceremony
  import opened Evidence
  import opened Funding
  import opened Journal
  import opened Reservations
  import Chain
  import Gates
  import Push

  datatype Step =
    | BeginMint(ix: Ix, begin: BeginEnv)
    | AdvanceMint(ix: Ix, source: Source, launch: LaunchEnv)
    | RecordProfile(ix: Ix, did: MintedDid, store: ConfirmedStore)
    | RivalReserves(coins: seq<Id>)
    | RivalReleases(hold: nat)
    | Lapses(hold: nat)
    | Restart(saved: Registry)

  function Next(w: World, s: Step): World {
    match s
    case BeginMint(ix, e) => Begin(w, ix, e).0
    case AdvanceMint(ix, source, e) => Advance(w, ix, source, e).0
    case RecordProfile(ix, did, store) =>
      (match RecordMinted(w.registry, ix, did, store)
       case Ok(r) => w.(registry := r)
       case Err(_) => w)
    case RivalReserves(coins) => w.(holds := ReserveAll(w.holds, coins, false).0)
    case RivalReleases(hold) =>
      if hold in w.holds.entries && !w.holds.entries[hold].mine then w.(holds := Release(w.holds, hold)) else w
    case Lapses(hold) => w.(holds := Release(w.holds, hold))
    case Restart(saved) => World(saved, Holds(map[], 0), w.log)
  }

  function Run(steps: seq<Step>): World {
    if steps == [] then World(Registry(map[], map[]), Holds(map[], 0), [])
    else Next(Run(steps[..|steps| - 1]), steps[|steps| - 1])
  }

  // ---------- what a restart forgets ----------

  function NewlyLive(log: seq<Pushed>, more: seq<Pushed>): set<nat> {
    set i: nat | |log| <= i < |more| && more[i].Live()
  }

  function GuardedAfter(guarded: set<nat>, w: World, s: Step): set<nat> {
    match s
    case Lapses(hold) => set i | i in guarded && !(i < |w.log| && w.log[i].hold == hold)
    case Restart(_) => {}
    case _ => guarded + NewlyLive(w.log, Next(w, s).log)
  }

  /** The live bundles whose hold has neither lapsed nor been lost to a restart since their push. */
  function Guarded(steps: seq<Step>): set<nat> {
    if steps == [] then {}
    else
      var before := steps[..|steps| - 1];
      GuardedAfter(Guarded(before), Run(before), steps[|steps| - 1])
  }

  /** The registry still knows of every bundle that may land: its index is taken, and for a store its
      entry says that it was pushed. */
  ghost predicate Accounts(r: Registry, log: seq<Pushed>) {
    && (forall i: nat :: LiveDid(log, i) ==> log[i].ix in r.inProgress || log[i].ix in r.entries)
    && (forall i: nat :: LiveStore(log, i) ==>
          || log[i].ix in r.entries
          || (log[i].ix in r.inProgress && r.inProgress[log[i].ix].stage.StorePushed?))
  }

  ghost predicate SavedAt(steps: seq<Step>, k: nat, r: Registry) {
    k <= |steps| && Run(steps[..k]).registry == r
  }

  /** Whatever a restart finds was the registry at some point of the run, and accounts for every live
      bundle: the host saved it after the last push that was not refused. */
  ghost predicate Kept(steps: seq<Step>) {
    steps == [] ||
    var before, last := steps[..|steps| - 1], steps[|steps| - 1];
    && Kept(before)
    && (last.Restart? ==> (exists k: nat :: SavedAt(before, k, last.saved)) && Accounts(last.saved, Run(before).log))
  }

  lemma {:induction false} KeptBefore(steps: seq<Step>, k: nat)
    requires Kept(steps) && k <= |steps|
    ensures Kept(steps[..k])
  {
    if k == |steps| {
      assert steps[..k] == steps;
    } else {
      KeptBefore(steps[..|steps| - 1], k);
      assert steps[..|steps| - 1][..k] == steps[..k];
    }
  }

  // ---------- the invariant ----------

  ghost predicate LiveDid(log: seq<Pushed>, i: nat) {
    i < |log| && log[i].Live() && log[i].half.DidHalf?
  }

  ghost predicate LiveStore(log: seq<Pushed>, i: nat) {
    i < |log| && log[i].Live() && log[i].half.StoreHalf?
  }

  /** The push is of the bundle its half describes, paid for out of the coin it holds. */
  predicate Built(p: Pushed) {
    var owner := WalletAt(p.ix).puzzleHash;
    && p.fee <= MAX_MINT_FEE_MOJOS
    && p.funding.puzzleHash == owner && p.funding.amount >= RequiredCoinAmount(p.fee)
    && match p.half
       case DidHalf(pending) =>
         pending == PendingDid(owner, p.funding, pending.pushedAtHeight) && p.spends == DidSpends(owner, p.funding, p.fee)
       case StoreHalf(store) =>
         && store.didCoinId.Of?
         && store == PendingStore(CoinOf(store.didCoinId), store.committedRoot, owner, store.pushedAtHeight)
         && StoreChange(p.funding.amount, p.fee).Some?
         && p.spends == StoreSpends(CoinOf(store.didCoinId), p.funding, store.committedRoot, owner,
                                    StoreChange(p.funding.amount, p.fee).value)
  }

  ghost predicate HeldBy(log: seq<Pushed>, guarded: set<nat>, i: nat, hold: nat) {
    i in guarded && i < |log| && log[i].hold == hold
  }

  /** The minter's holds are exactly those of its guarded bundles, each on that bundle's funding coin. */
  ghost predicate HoldsTrack(h: Holds, log: seq<Pushed>, guarded: set<nat>) {
    && (forall i :: i in guarded ==>
          && i < |log| && log[i].Live()
          && log[i].hold in h.entries && h.entries[log[i].hold] == Hold([log[i].funding.Id()], true))
    && (forall i, j :: i in guarded && j in guarded && log[i].hold == log[j].hold ==> i == j)
    && (forall id :: id in h.entries && h.entries[id].mine ==> exists i: nat :: HeldBy(log, guarded, i, id))
  }

  ghost predicate OneLivePerHalf(log: seq<Pushed>) {
    && (forall i: nat, j: nat :: LiveDid(log, i) && LiveDid(log, j) && log[i].ix == log[j].ix ==> i == j)
    && (forall i: nat, j: nat :: LiveStore(log, i) && LiveStore(log, j) && log[i].ix == log[j].ix ==> i == j)
  }

  /** A live DID bundle at `ix`, at the disclosed fee, that produces this DID coin. */
  ghost predicate NamesDid(log: seq<Pushed>, i: nat, ix: Ix, fee: u64, launcherId: Id, coinId: Id) {
    && LiveDid(log, i) && log[i].ix == ix && log[i].fee == fee
    && log[i].half.pending.launcherId == launcherId && log[i].half.pending.didCoinId == coinId
  }

  /** The same, confirmed at a height its push allows and a chain can bury. */
  ghost predicate ConfirmsDid(log: seq<Pushed>, i: nat, ix: Ix, fee: u64, did: MintedDidRecord) {
    && NamesDid(log, i, ix, fee, did.launcherId, did.coinId)
    && log[i].half.pending.pushedAtHeight <= did.confirmedHeight && did.confirmedHeight + 5 <= U32_MAX
  }

  /** A live store bundle at `ix`, at the disclosed fee, that is exactly the journalled launch. */
  ghost predicate NamesStore(log: seq<Pushed>, i: nat, ix: Ix, fee: u64, rec: PendingStoreRecord) {
    && LiveStore(log, i) && log[i].ix == ix && log[i].fee == fee
    && MirrorPendingStore(log[i].half.store) == rec
  }

  /** A journal entry names live bundles, and its two halves pair. */
  ghost predicate StageNamed(log: seq<Pushed>, ix: Ix, m: Mint) {
    && m.seedRoot.Some? && m.storeFee <= MAX_MINT_FEE_MOJOS
    && match m.stage
       case DidPushed(rec) =>
         exists i: nat :: NamesDid(log, i, ix, m.storeFee, rec.launcherId, rec.didCoinId)
                          && MirrorPendingMint(log[i].half.pending) == rec
       case DidConfirmedStoreNotLaunched(did) =>
         exists i: nat :: ConfirmsDid(log, i, ix, m.storeFee, did)
       case StorePushed(did, pendingStore) =>
         && pendingStore.didCoinId == did.coinId && pendingStore.committedRoot == m.seedRoot.value
         && (exists i: nat :: ConfirmsDid(log, i, ix, m.storeFee, did))
         && (exists j: nat :: NamesStore(log, j, ix, m.storeFee, pendingStore))
  }

  ghost predicate JournalTracks(r: Registry, log: seq<Pushed>) {
    && (forall ix :: ix in r.inProgress ==> ix !in r.entries && StageNamed(log, ix, r.inProgress[ix]))
    && Accounts(r, log)
  }

  /** `log[i]` is the live DID bundle, at the same index and fee, whose coin `log[j]` launches from. */
  ghost predicate Launches(log: seq<Pushed>, i: nat, j: nat) {
    && LiveDid(log, i) && j < |log| && log[j].half.StoreHalf?
    && log[i].ix == log[j].ix && log[i].fee == log[j].fee
    && log[i].half.pending.didCoinId == log[j].half.store.didCoinId
    && log[i].half.pending.pushedAtHeight + 5 <= U32_MAX
  }

  ghost predicate StoresDescend(log: seq<Pushed>) {
    forall j: nat :: j < |log| && log[j].half.StoreHalf? ==> exists i: nat :: Launches(log, i, j)
  }

  ghost predicate Safe(w: World, guarded: set<nat>) {
    && Exclusive(w.holds)
    && (forall i :: 0 <= i < |w.log| ==> Built(w.log[i]))
    && HoldsTrack(w.holds, w.log, guarded)
    && OneLivePerHalf(w.log)
    && StoresDescend(w.log)
    && JournalTracks(w.registry, w.log)
  }

  // ---------- holds ----------

  lemma TracksAfterGrowth(h: Holds, h': Holds, log: seq<Pushed>, guarded: set<nat>)
    requires HoldsTrack(h, log, guarded) && OthersGrew(h, h')
    ensures HoldsTrack(h', log, guarded)
  {
    forall id | id in h'.entries && h'.entries[id].mine ensures exists i: nat :: HeldBy(log, guarded, i, id) {
      assert id in h.entries;
    }
  }

  /** A claim and a push: the hold stays exactly when the bundle may still land. */
  lemma TracksAfterPush(h: Holds, claimed: Holds, coin: Coin, id: nat, log: seq<Pushed>, guarded: set<nat>, p: Pushed)
    requires HoldsTrack(h, log, guarded) && Exclusive(h) && OthersGrew(h, Release(claimed, id)) && Exclusive(claimed)
    requires id in claimed.entries && claimed.entries[id] == Hold([coin.Id()], true) && h.nextId <= id
    requires p.hold == id && p.funding == coin
    ensures HoldsTrack(if p.Live() then claimed else Release(claimed, id), log + [p], guarded + NewlyLive(log, log + [p]))
  {
    var released := Release(claimed, id);
    var more := log + [p];
    var wider := guarded + NewlyLive(log, more);
    TracksAfterGrowth(h, released, log, guarded);
    var h' := if p.Live() then claimed else released;
    forall i | i in wider
      ensures i < |more| && more[i].Live()
      ensures more[i].hold in h'.entries && h'.entries[more[i].hold] == Hold([more[i].funding.Id()], true)
      ensures i in guarded ==> more[i].hold != id
    {
      if i in guarded {
        assert more[i] == log[i] && log[i].hold < h.nextId;
      }
    }
    forall k | k in h'.entries && h'.entries[k].mine ensures exists i: nat :: HeldBy(more, wider, i, k) {
      if k == id {
        assert HeldBy(more, wider, |log|, k);
      } else {
        assert k in released.entries && released.entries[k] == h'.entries[k];
        var i: nat :| HeldBy(log, guarded, i, k);
        assert HeldBy(more, wider, i, k);
      }
    }
  }

  /** A hold that lapses takes one bundle out of the guarded ones, if it was the minter's. */
  lemma TracksAfterLapse(h: Holds, hold: nat, log: seq<Pushed>, guarded: set<nat>)
    requires HoldsTrack(h, log, guarded)
    ensures HoldsTrack(Release(h, hold), log, set i | i in guarded && !(i < |log| && log[i].hold == hold))
  {
    var left := set i | i in guarded && !(i < |log| && log[i].hold == hold);
    var h' := Release(h, hold);
    forall id | id in h'.entries && h'.entries[id].mine ensures exists i: nat :: HeldBy(log, left, i, id) {
      var i: nat :| HeldBy(log, guarded, i, id);
      assert HeldBy(log, left, i, id);
    }
  }

  lemma TracksAfterRivalRelease(h: Holds, hold: nat, log: seq<Pushed>, guarded: set<nat>)
    requires HoldsTrack(h, log, guarded) && hold in h.entries && !h.entries[hold].mine
    ensures HoldsTrack(Release(h, hold), log, guarded)
  {
    var h' := Release(h, hold);
    forall id | id in h'.entries && h'.entries[id].mine ensures exists i: nat :: HeldBy(log, guarded, i, id) {
      assert id in h.entries;
    }
  }

  lemma ReleaseKeepsExclusive(h: Holds, id: nat)
    requires Exclusive(h)
    ensures Exclusive(Release(h, id))
  {
  }

  // ---------- the journal ----------

  /** What a journal entry names, a longer log still names. */
  lemma StillNamed(log: seq<Pushed>, more: seq<Pushed>, ix: Ix, m: Mint)
    requires log <= more && StageNamed(log, ix, m)
    ensures StageNamed(more, ix, m)
  {
    assert forall i: nat, fee, l, c :: NamesDid(log, i, ix, fee, l, c) ==> NamesDid(more, i, ix, fee, l, c) && more[i] == log[i];
    assert forall i: nat, fee, did :: ConfirmsDid(log, i, ix, fee, did) ==> ConfirmsDid(more, i, ix, fee, did);
    assert forall i: nat, fee, rec :: NamesStore(log, i, ix, fee, rec) ==> NamesStore(more, i, ix, fee, rec);
  }

  lemma LogGrows(log: seq<Pushed>, p: Pushed)
    ensures var more := log + [p];
            && (forall i: nat :: LiveDid(more, i) <==> LiveDid(log, i) || (i == |log| && p.Live() && p.half.DidHalf?))
            && (forall i: nat :: LiveStore(more, i) <==> LiveStore(log, i) || (i == |log| && p.Live() && p.half.StoreHalf?))
            && (forall i: nat :: i < |log| ==> more[i] == log[i]) && more[|log|] == p
  {
  }

  lemma StillDescend(log: seq<Pushed>, p: Pushed)
    requires StoresDescend(log)
    requires p.half.StoreHalf? ==>
               exists i: nat, did :: ConfirmsDid(log, i, p.ix, p.fee, did) && did.coinId == p.half.store.didCoinId
    ensures StoresDescend(log + [p])
  {
    var more := log + [p];
    forall j: nat | j < |more| && more[j].half.StoreHalf? ensures exists i: nat :: Launches(more, i, j) {
      if j < |log| {
        var i: nat :| Launches(log, i, j);
        assert Launches(more, i, j);
      } else {
        var i: nat, did :| ConfirmsDid(log, i, p.ix, p.fee, did) && did.coinId == p.half.store.didCoinId;
        assert Launches(more, i, j);
      }
    }
  }

  /** A refused bundle leaves every claim about live ones where it was. */
  lemma DeadPushChangesNothing(r: Registry, log: seq<Pushed>, p: Pushed)
    requires OneLivePerHalf(log) && JournalTracks(r, log) && !p.Live()
    ensures OneLivePerHalf(log + [p]) && JournalTracks(r, log + [p])
  {
    LogGrows(log, p);
    forall ix | ix in r.inProgress ensures StageNamed(log + [p], ix, r.inProgress[ix]) {
      StillNamed(log, log + [p], ix, r.inProgress[ix]);
    }
  }

  /** A stage moved without a push keeps the journal's claims if the new stage is itself named. */
  lemma Restaged(r: Registry, log: seq<Pushed>, ix: Ix, stage: Stage)
    requires JournalTracks(r, log) && ix in r.inProgress && !r.inProgress[ix].stage.StorePushed? && !stage.StorePushed?
    requires StageNamed(log, ix, r.inProgress[ix].(stage := stage))
    ensures JournalTracks(SetStage(r, ix, stage).value, log)
  {
  }

  lemma LiveDidPush(r: Registry, log: seq<Pushed>, ix: Ix, m: Mint, p: Pushed)
    requires OneLivePerHalf(log) && JournalTracks(r, log) && Reserve(r, ix, m).Ok?
    requires p.Live() && p.ix == ix && p.half.DidHalf? && p.fee == m.storeFee
    requires m.stage == DidPushed(MirrorPendingMint(p.half.pending)) && m.seedRoot.Some?
    ensures OneLivePerHalf(log + [p]) && JournalTracks(Reserve(r, ix, m).value, log + [p])
  {
    LogGrows(log, p);
    var reserved := Reserve(r, ix, m).value;
    forall k | k in reserved.inProgress ensures k !in reserved.entries && StageNamed(log + [p], k, reserved.inProgress[k]) {
      if k == ix {
        var rec := m.stage.pending;
        assert NamesDid(log + [p], |log|, ix, m.storeFee, rec.launcherId, rec.didCoinId);
      } else {
        StillNamed(log, log + [p], k, r.inProgress[k]);
      }
    }
  }

  lemma LiveStorePush(r: Registry, log: seq<Pushed>, ix: Ix, did: MintedDidRecord, p: Pushed)
    requires OneLivePerHalf(log) && JournalTracks(r, log)
    requires ix in r.inProgress && !r.inProgress[ix].stage.StorePushed?
    requires exists i: nat :: ConfirmsDid(log, i, ix, r.inProgress[ix].storeFee, did)
    requires p.Live() && p.ix == ix && p.half.StoreHalf? && p.fee == r.inProgress[ix].storeFee
    requires p.half.store.didCoinId == did.coinId && Some(p.half.store.committedRoot) == r.inProgress[ix].seedRoot
    ensures OneLivePerHalf(log + [p])
    ensures JournalTracks(SetStage(r, ix, StorePushed(did, MirrorPendingStore(p.half.store))).value, log + [p])
  {
    LogGrows(log, p);
    assert StageNamed(log, ix, r.inProgress[ix]);
    var r' := SetStage(r, ix, StorePushed(did, MirrorPendingStore(p.half.store))).value;
    forall k | k in r'.inProgress ensures k !in r'.entries && StageNamed(log + [p], k, r'.inProgress[k]) {
      if k == ix {
        LaunchIsNamed(log, ix, r'.inProgress[ix], did, p);
      } else {
        StillNamed(log, log + [p], k, r.inProgress[k]);
      }
    }
  }

  /** The stage a launch journals is named by its DID's bundle and by the launch itself. */
  lemma LaunchIsNamed(log: seq<Pushed>, ix: Ix, m: Mint, did: MintedDidRecord, p: Pushed)
    requires exists i: nat :: ConfirmsDid(log, i, ix, m.storeFee, did)
    requires p.Live() && p.ix == ix && p.half.StoreHalf? && p.fee == m.storeFee <= MAX_MINT_FEE_MOJOS
    requires p.half.store.didCoinId == did.coinId && Some(p.half.store.committedRoot) == m.seedRoot
    requires m.stage == StorePushed(did, MirrorPendingStore(p.half.store))
    ensures StageNamed(log + [p], ix, m)
  {
    var i: nat :| ConfirmsDid(log, i, ix, m.storeFee, did);
    assert ConfirmsDid(log + [p], i, ix, m.storeFee, did);
    assert NamesStore(log + [p], |log|, ix, m.storeFee, MirrorPendingStore(p.half.store));
  }

  // ---------- every step keeps it ----------

  /** Where nothing was pushed, nothing more is guarded. */
  lemma SafeAsBefore(w: World, guarded: set<nat>)
    requires Safe(w, guarded)
    ensures Safe(w, guarded + NewlyLive(w.log, w.log))
  {
    assert guarded + NewlyLive(w.log, w.log) == guarded;
  }

  /** A claim given back, or never won, leaves a safe world safe. */
  lemma SafeAfterDrop(w: World, guarded: set<nat>, released: Holds)
    requires Safe(w, guarded) && Exclusive(released) && OthersGrew(w.holds, released)
    ensures Safe(w.(holds := released), guarded + NewlyLive(w.log, w.log))
  {
    TracksAfterGrowth(w.holds, released, w.log, guarded);
    SafeAsBefore(w.(holds := released), guarded);
  }

  /** A claim and a push leave it safe if the journal, as updated, accounts for the push. */
  lemma SafeAfterPush(w: World, guarded: set<nat>, claimed: Holds, p: Pushed, r: Registry)
    requires Safe(w, guarded) && Built(p)
    requires CleanClaim(w.holds, claimed, Ok((p.funding, p.hold)), WalletAt(p.ix).puzzleHash, p.fee)
    requires OneLivePerHalf(w.log + [p]) && StoresDescend(w.log + [p]) && JournalTracks(r, w.log + [p])
    ensures Safe(World(r, if p.Live() then claimed else Release(claimed, p.hold), w.log + [p]),
                 guarded + NewlyLive(w.log, w.log + [p]))
  {
    ReleaseKeepsExclusive(claimed, p.hold);
    TracksAfterPush(w.holds, claimed, p.funding, p.hold, w.log, guarded, p);
  }

  lemma BeginKeepsSafe(w: World, guarded: set<nat>, ix: Ix, e: BeginEnv)
    requires Safe(w, guarded)
    ensures var w' := Begin(w, ix, e).0;
            Safe(w', guarded + NewlyLive(w.log, w'.log))
  {
    if e.seedRoot.None? || !e.unlocked || e.fee > MAX_MINT_FEE_MOJOS {
      SafeAsBefore(w, guarded);
    } else {
      var owner := WalletAt(ix).puzzleHash;
      var (claimed, claim) := SelectAndReserve(w.holds, e.market, owner, e.fee);
      SelectAndReserveIsClean(w.holds, e.market, owner, e.fee);
      match claim {
        case Err(_) => SafeAfterDrop(w, guarded, claimed);
        case Ok((source, hold)) =>
          var signed := SignDid(WalletAt(ix), source, e);
          if signed.Err? {
            ReleaseKeepsExclusive(claimed, hold);
            SafeAfterDrop(w, guarded, Release(claimed, hold));
          } else {
            PushDidKeepsSafe(w, guarded, claimed, ix, Prepared(DidSpends(owner, source, e.fee), signed.value, source, hold), e);
          }
      }
    }
  }

  /** What a DID push leaves behind. A refused one leaves the journal and the holds as if it had
      never been tried; anything else leaves both claims standing. */
  lemma PushDidSettles(w: World, ix: Ix, p: Prepared, e: BeginEnv)
    requires e.seedRoot.Some?
    ensures var w' := PushDid(w, ix, p, e).0;
            var reserved := Reserve(w.registry, ix, Mint(DidPushed(MirrorPendingMint(p.pending)), e.seedRoot, e.fee));
            var pushed := DidPush(ix, p, e);
            if reserved.Err? then w' == w.(holds := Release(w.holds, p.hold))
            else if pushed.Live() then w' == World(reserved.value, w.holds, w.log + [pushed])
            else w' == World(w.registry, Release(w.holds, p.hold), w.log + [pushed])
  {
    var reserved := Reserve(w.registry, ix, Mint(DidPushed(MirrorPendingMint(p.pending)), e.seedRoot, e.fee));
    if reserved.Ok? {
      assert Released(reserved.value, ix) == w.registry;
    }
  }

  /** What a store push leaves behind: a refused one rewinds the stage and frees the coin. */
  lemma PushStoreSettles(
    w: World, ix: Ix, did: MintedDid, launch: Launched, fee: u64, funding: Coin, hold: nat, answer: Push.PushAnswer)
    requires ix in w.registry.inProgress
    ensures var w' := PushStore(w, ix, did, launch, fee, funding, hold, answer).0;
            var pushed := StorePush(ix, launch, fee, funding, hold, answer);
            if pushed.Live() then
              w' == World(SetStage(w.registry, ix, StorePushed(MirrorDid(did), MirrorPendingStore(launch.pending))).value,
                          w.holds, w.log + [pushed])
            else w' == World(Rewound(w.registry, ix, did), Release(w.holds, hold), w.log + [pushed])
  {
    var journalled := SetStage(w.registry, ix, StorePushed(MirrorDid(did), MirrorPendingStore(launch.pending))).value;
    assert Rewound(journalled, ix, did) == Rewound(w.registry, ix, did);
  }

  lemma PushDidKeepsSafe(w: World, guarded: set<nat>, claimed: Holds, ix: Ix, p: Prepared, e: BeginEnv)
    requires Safe(w, guarded) && e.seedRoot.Some? && e.fee <= MAX_MINT_FEE_MOJOS
    requires CleanClaim(w.holds, claimed, Ok((p.source, p.hold)), WalletAt(ix).puzzleHash, e.fee)
    requires p.spends == DidSpends(WalletAt(ix).puzzleHash, p.source, e.fee)
    requires p.pending == PendingDid(WalletAt(ix).puzzleHash, p.source, p.pending.pushedAtHeight)
    ensures var w' := PushDid(w.(holds := claimed), ix, p, e).0;
            Safe(w', guarded + NewlyLive(w.log, w'.log))
  {
    var m := Mint(DidPushed(MirrorPendingMint(p.pending)), e.seedRoot, e.fee);
    var pushed := DidPush(ix, p, e);
    ReleaseKeepsExclusive(claimed, p.hold);
    PushDidSettles(w.(holds := claimed), ix, p, e);
    StillDescend(w.log, pushed);
    if Reserve(w.registry, ix, m).Err? {
      SafeAfterDrop(w, guarded, Release(claimed, p.hold));
    } else if pushed.Live() {
      LiveDidPush(w.registry, w.log, ix, m, pushed);
      SafeAfterPush(w, guarded, claimed, pushed, Reserve(w.registry, ix, m).value);
    } else {
      DeadPushChangesNothing(w.registry, w.log, pushed);
      SafeAfterPush(w, guarded, claimed, pushed, w.registry);
    }
  }

  /** The DID a stage speaks of: launcher and coin. */
  function StageDid(stage: Stage): (Id, Id) {
    match stage
    case DidPushed(rec) => (rec.launcherId, rec.didCoinId)
    case DidConfirmedStoreNotLaunched(did) => (did.launcherId, did.coinId)
    case StorePushed(did, _) => (did.launcherId, did.coinId)
  }

  /** Whatever a source answers, a status only ever speaks of the DID its stage names, and only ever
      says the store may be launched at a stage where it has not been. */
  lemma StatusSpeaksOfItsStage(r: Registry, ix: Ix, source: Source)
    requires Status(r, ix, source).Ok?
    ensures ix in r.inProgress
    ensures var (launcherId, coinId) := StageDid(r.inProgress[ix].stage);
            match Status(r, ix, source).value
            case DidPending(didCoinId) => didCoinId == coinId && r.inProgress[ix].stage.DidPushed?
            case DidConfirmed(did) =>
              did.launcherId == launcherId && did.coinId == coinId && !r.inProgress[ix].stage.StorePushed?
            case StorePending(did, _) =>
              did.launcherId == launcherId && did.coinId == coinId && r.inProgress[ix].stage.StorePushed?
            case Confirmed(did, store) =>
              && did.launcherId == launcherId && did.coinId == coinId
              && r.inProgress[ix].stage.StorePushed?
              && var rec := r.inProgress[ix].stage.pendingStore;
                 store == ConfirmedStore(rec.launcherId, rec.storeCoinId, store.confirmedHeight, rec.didCoinId, rec.committedRoot)
  {
  }

  /** A DID some source has confirmed for a journalled stage is that of a live bundle of its index,
      at a height the bundle's push allows. */
  lemma ConfirmedDidIsNamed(r: Registry, log: seq<Pushed>, ix: Ix, source: Source)
    requires JournalTracks(r, log)
    requires Status(r, ix, source).Ok? && Status(r, ix, source).value.DidConfirmed?
    ensures ix in r.inProgress && !r.inProgress[ix].stage.StorePushed?
    ensures exists i: nat :: ConfirmsDid(log, i, ix, r.inProgress[ix].storeFee, MirrorDid(Status(r, ix, source).value.did))
  {
    StatusSpeaksOfItsStage(r, ix, source);
    var m, did := r.inProgress[ix], Status(r, ix, source).value.did;
    assert StageNamed(log, ix, m);
    var rec := source.coin(1, did.coinId).value.value;
    match m.stage
    case DidPushed(pending) =>
      var i: nat :| NamesDid(log, i, ix, m.storeFee, pending.launcherId, pending.didCoinId)
                    && MirrorPendingMint(log[i].half.pending) == pending;
      DidEvidenceIff(PendingMintFrom(pending), rec, PeakHeight(source, 0).value);
      assert ConfirmsDid(log, i, ix, m.storeFee, MirrorDid(did));
    case DidConfirmedStoreNotLaunched(minted) =>
      var i: nat :| ConfirmsDid(log, i, ix, m.storeFee, minted);
      DidEvidenceIff(PendingMint(minted.launcherId, minted.coinId, minted.coinId, minted.confirmedHeight), rec, PeakHeight(source, 0).value);
      assert ConfirmsDid(log, i, ix, m.storeFee, MirrorDid(did));
  }

  lemma AdvanceKeepsSafe(w: World, guarded: set<nat>, ix: Ix, source: Source, e: LaunchEnv)
    requires Safe(w, guarded)
    ensures var w' := Advance(w, ix, source, e).0;
            Safe(w', guarded + NewlyLive(w.log, w'.log))
  {
    var status := Status(w.registry, ix, source);
    if status.Ok? && status.value.DidConfirmed? {
      ConfirmedDidIsNamed(w.registry, w.log, ix, source);
      LaunchKeepsSafe(w, guarded, ix, status.value.did, source, e);
    } else {
      SafeAsBefore(w, guarded);
    }
  }

  lemma LaunchKeepsSafe(w: World, guarded: set<nat>, ix: Ix, did: MintedDid, source: Source, e: LaunchEnv)
    requires Safe(w, guarded) && ix in w.registry.inProgress && !w.registry.inProgress[ix].stage.StorePushed?
    requires exists i: nat :: ConfirmsDid(w.log, i, ix, w.registry.inProgress[ix].storeFee, MirrorDid(did))
    ensures var w' := Launch(w, ix, did, source, e).0;
            Safe(w', guarded + NewlyLive(w.log, w'.log))
  {
    var inputs := LaunchInputs(w.registry, ix, did, e);
    if inputs.Ok? {
      var (root, fee, tip) := inputs.value;
      LaunchFromKeepsSafe(w, guarded, ix, did, root, fee, tip, source, e);
    } else {
      SafeAsBefore(w, guarded);
    }
  }

  lemma LaunchFromKeepsSafe(w: World, guarded: set<nat>, ix: Ix, did: MintedDid, root: nat, fee: u64, tip: Coin, source: Source, e: LaunchEnv)
    requires Safe(w, guarded) && ix in w.registry.inProgress && !w.registry.inProgress[ix].stage.StorePushed?
    requires exists i: nat :: ConfirmsDid(w.log, i, ix, w.registry.inProgress[ix].storeFee, MirrorDid(did))
    requires fee == w.registry.inProgress[ix].storeFee && Some(root) == w.registry.inProgress[ix].seedRoot
    ensures var w' := LaunchFrom(w, ix, did, root, fee, tip, source, e).0;
            Safe(w', guarded + NewlyLive(w.log, w'.log))
  {
    var owner := WalletAt(ix).puzzleHash;
    var (claimed, claim) := SelectAndReserve(w.holds, e.market, owner, fee);
    SelectAndReserveIsClean(w.holds, e.market, owner, fee);
    match claim {
      case Err(_) => SafeAfterDrop(w, guarded, claimed);
      case Ok((funding, hold)) =>
        var signed := SignLaunch(WalletAt(ix), tip, did.coinId, funding, root, fee, source, e);
        if signed.Err? {
          ReleaseKeepsExclusive(claimed, hold);
          SafeAfterDrop(w, guarded, Release(claimed, hold));
        } else {
          FeeIsBounded(w, guarded, ix);
          SignedLaunchIsBuilt(ix, did, tip, signed.value, root, fee, source, e, funding, hold);
          PushStoreKeepsSafe(w, guarded, claimed, ix, did, signed.value, fee, funding, hold, e.answer);
        }
    }
  }

  lemma FeeIsBounded(w: World, guarded: set<nat>, ix: Ix)
    requires Safe(w, guarded) && ix in w.registry.inProgress
    ensures w.registry.inProgress[ix].storeFee <= MAX_MINT_FEE_MOJOS
  {
    assert StageNamed(w.log, ix, w.registry.inProgress[ix]);
  }

  /** A signed launch is the bundle its half describes. */
  lemma SignedLaunchIsBuilt(
    ix: Ix, did: MintedDid, tip: Coin, launch: Launched, root: nat, fee: u64, source: Source, e: LaunchEnv,
    funding: Coin, hold: nat)
    requires fee <= MAX_MINT_FEE_MOJOS
    requires funding.puzzleHash == WalletAt(ix).puzzleHash && funding.amount >= RequiredCoinAmount(fee)
    requires SignLaunch(WalletAt(ix), tip, did.coinId, funding, root, fee, source, e) == Ok(launch)
    ensures Built(StorePush(ix, launch, fee, funding, hold, e.answer))
    ensures launch.pending.didCoinId == did.coinId && launch.pending.committedRoot == root
  {
  }

  lemma PushStoreKeepsSafe(
    w: World, guarded: set<nat>, claimed: Holds, ix: Ix, did: MintedDid, launch: Launched, fee: u64, funding: Coin, hold: nat,
    answer: Push.PushAnswer)
    requires Safe(w, guarded) && ix in w.registry.inProgress && !w.registry.inProgress[ix].stage.StorePushed?
    requires exists i: nat :: ConfirmsDid(w.log, i, ix, w.registry.inProgress[ix].storeFee, MirrorDid(did))
    requires CleanClaim(w.holds, claimed, Ok((funding, hold)), WalletAt(ix).puzzleHash, fee)
    requires fee == w.registry.inProgress[ix].storeFee && Some(launch.pending.committedRoot) == w.registry.inProgress[ix].seedRoot
    requires launch.pending.didCoinId == did.coinId
    requires Built(StorePush(ix, launch, fee, funding, hold, answer))
    ensures var w' := PushStore(w.(holds := claimed), ix, did, launch, fee, funding, hold, answer).0;
            Safe(w', guarded + NewlyLive(w.log, w'.log))
  {
    var p := StorePush(ix, launch, fee, funding, hold, answer);
    var journalled := SetStage(w.registry, ix, StorePushed(MirrorDid(did), MirrorPendingStore(launch.pending))).value;
    PushStoreSettles(w.(holds := claimed), ix, did, launch, fee, funding, hold, answer);
    StillDescend(w.log, p);
    if p.Live() {
      LiveStorePush(w.registry, w.log, ix, MirrorDid(did), p);
      SafeAfterPush(w, guarded, claimed, p, journalled);
    } else {
      RewindIsNamed(w, guarded, ix, did);
      DeadPushChangesNothing(Rewound(w.registry, ix, did), w.log, p);
      SafeAfterPush(w, guarded, claimed, p, Rewound(w.registry, ix, did));
    }
  }

  lemma RewindIsNamed(w: World, guarded: set<nat>, ix: Ix, did: MintedDid)
    requires Safe(w, guarded) && ix in w.registry.inProgress && !w.registry.inProgress[ix].stage.StorePushed?
    requires exists i: nat :: ConfirmsDid(w.log, i, ix, w.registry.inProgress[ix].storeFee, MirrorDid(did))
    ensures JournalTracks(Rewound(w.registry, ix, did), w.log)
  {
    assert StageNamed(w.log, ix, w.registry.inProgress[ix]);
    Restaged(w.registry, w.log, ix, DidConfirmedStoreNotLaunched(MirrorDid(did)));
  }

  lemma RecordKeepsSafe(w: World, guarded: set<nat>, ix: Ix, did: MintedDid, store: ConfirmedStore)
    requires Safe(w, guarded) && RecordMinted(w.registry, ix, did, store).Ok?
    ensures Safe(w.(registry := RecordMinted(w.registry, ix, did, store).value), guarded)
  {
  }

  lemma LapseKeepsSafe(w: World, guarded: set<nat>, hold: nat)
    requires Safe(w, guarded)
    ensures Safe(Next(w, Lapses(hold)), GuardedAfter(guarded, w, Lapses(hold)))
  {
    ReleaseKeepsExclusive(w.holds, hold);
    TracksAfterLapse(w.holds, hold, w.log, guarded);
  }

  lemma RivalReleaseKeepsSafe(w: World, guarded: set<nat>, hold: nat)
    requires Safe(w, guarded) && hold in w.holds.entries && !w.holds.entries[hold].mine
    ensures Safe(w.(holds := Release(w.holds, hold)), guarded)
  {
    ReleaseKeepsExclusive(w.holds, hold);
    TracksAfterRivalRelease(w.holds, hold, w.log, guarded);
  }

  lemma QuietStepKeepsSafe(w: World, guarded: set<nat>, s: Step)
    requires Safe(w, guarded) && (s.RecordProfile? || s.RivalReserves? || s.RivalReleases?)
    ensures Safe(Next(w, s), guarded + NewlyLive(w.log, Next(w, s).log))
  {
    match s
    case RecordProfile(ix, did, store) =>
      if RecordMinted(w.registry, ix, did, store).Ok? {
        RecordKeepsSafe(w, guarded, ix, did, store);
      }
      SafeAsBefore(Next(w, s), guarded);
    case RivalReserves(coins) =>
      RivalGrows(w.holds, coins);
      SafeAfterDrop(w, guarded, ReserveAll(w.holds, coins, false).0);
    case RivalReleases(hold) =>
      if hold in w.holds.entries && !w.holds.entries[hold].mine {
        RivalReleaseKeepsSafe(w, guarded, hold);
      }
      SafeAsBefore(Next(w, s), guarded);
  }

  /** A restart that finds a registry saved earlier in the run keeps it too, if that registry
      accounts for what may still land: what it names is still named. */
  lemma RestartKeepsSafe(w: World, guarded: set<nat>, earlier: World, before: set<nat>)
    requires Safe(w, guarded) && Safe(earlier, before) && earlier.log <= w.log && Accounts(earlier.registry, w.log)
    ensures Safe(Next(w, Restart(earlier.registry)), {})
  {
    var r := earlier.registry;
    forall ix | ix in r.inProgress ensures ix !in r.entries && StageNamed(w.log, ix, r.inProgress[ix]) {
      StillNamed(earlier.log, w.log, ix, r.inProgress[ix]);
    }
  }

  lemma StepKeepsSafe(w: World, guarded: set<nat>, s: Step)
    requires Safe(w, guarded) && !s.Restart?
    ensures Safe(Next(w, s), GuardedAfter(guarded, w, s))
  {
    match s
    case BeginMint(ix, e) => BeginKeepsSafe(w, guarded, ix, e);
    case AdvanceMint(ix, source, e) => AdvanceKeepsSafe(w, guarded, ix, source, e);
    case Lapses(hold) => LapseKeepsSafe(w, guarded, hold);
    case _ => QuietStepKeepsSafe(w, guarded, s);
  }

  // ---------- the log ----------

  /** No step takes a push back: what was broadcast was broadcast. */
  lemma StepOnlyAddsToTheLog(w: World, s: Step)
    ensures w.log <= Next(w, s).log && |Next(w, s).log| <= |w.log| + 1
  {
    match s
    case BeginMint(ix, e) =>
      var (claimed, prepared) := PrepareDid(w.holds, ix, e);
      if e.seedRoot.Some? && prepared.Ok? {
        PushDidSettles(w.(holds := claimed), ix, prepared.value, e);
      }
    case AdvanceMint(ix, source, e) =>
    case _ =>
  }

  lemma {:induction false} LogOnlyGrows(steps: seq<Step>, k: nat)
    requires k <= |steps|
    ensures Run(steps[..k]).log <= Run(steps).log
  {
    if k == |steps| {
      assert steps[..k] == steps;
    } else {
      var before := steps[..|steps| - 1];
      assert before[..k] == steps[..k];
      LogOnlyGrows(before, k);
      StepOnlyAddsToTheLog(Run(before), steps[|steps| - 1]);
    }
  }

  lemma {:induction false} EveryRunIsSafe(steps: seq<Step>)
    requires Kept(steps)
    ensures Safe(Run(steps), Guarded(steps))
    decreases |steps|
  {
    if steps != [] {
      var before, last := steps[..|steps| - 1], steps[|steps| - 1];
      EveryRunIsSafe(before);
      if last.Restart? {
        var k: nat :| SavedAt(before, k, last.saved);
        KeptBefore(before, k);
        EveryRunIsSafe(before[..k]);
        LogOnlyGrows(before, k);
        RestartKeepsSafe(Run(before), Guarded(before), Run(before[..k]), Guarded(before[..k]));
      } else {
        StepKeepsSafe(Run(before), Guarded(before), last);
      }
    }
  }
}
