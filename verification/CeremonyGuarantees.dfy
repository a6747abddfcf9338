/**
  What the invariant of `CeremonySafety` means to someone paying for a profile, through any restart
  that finds its registry saved in time: nothing is bought twice, the coins still held are those of
  bundles that may land, and the two halves always pair.
*/
module CeremonyGuarantees {
  import opened Base
  import opened Ceremony
  import opened CeremonyProgress
  import opened CeremonySafety
  import opened Evidence
  import opened Funding
  import opened Journal
  import opened Reservations
  import Chain
  import Push

  // ---------- nothing is bought twice ----------

  predicate SameHalf(p: Pushed, q: Pushed) {
    p.ix == q.ix && p.half.DidHalf? == q.half.DidHalf?
  }

  /** In every such run, an index has at most one bundle per half that may still land. */
  lemma OneLiveBundlePerHalf(steps: seq<Step>, i: nat, j: nat)
    requires Kept(steps)
    ensures var log := Run(steps).log;
            i < |log| && j < |log| && log[i].Live() && log[j].Live() && SameHalf(log[i], log[j]) ==> i == j
  {
    EveryRunIsSafe(steps);
    var log := Run(steps).log;
    if i < |log| && j < |log| && log[i].Live() && log[j].Live() && SameHalf(log[i], log[j]) {
      assert (LiveDid(log, i) && LiveDid(log, j)) || (LiveStore(log, i) && LiveStore(log, j));
    }
  }

  /** The network keeps its word: a bundle it carries is one that some push was not refused. */
  ghost predicate RespectsRefusals(c: Chain.Blocks, log: seq<Pushed>) {
    forall i: nat :: i < |log| && Chain.Included(c, AsBundle(log[i].spends)) ==> exists k: nat :: Unrefused(log, i, k)
  }

  ghost predicate Unrefused(log: seq<Pushed>, i: nat, k: nat) {
    i < |log| && k < |log| && log[k].Live() && SameHalf(log[i], log[k]) && log[k].spends == log[i].spends
  }

  /** So however often a half was pushed, one bundle of it at most is ever paid for. */
  lemma PaidOnce(steps: seq<Step>, c: Chain.Blocks, i: nat, j: nat)
    requires Kept(steps)
    requires var log := Run(steps).log;
             && i < |log| && j < |log| && SameHalf(log[i], log[j]) && RespectsRefusals(c, log)
             && Chain.Included(c, AsBundle(log[i].spends)) && Chain.Included(c, AsBundle(log[j].spends))
    ensures Run(steps).log[i].spends == Run(steps).log[j].spends
  {
    var log := Run(steps).log;
    var k: nat :| Unrefused(log, i, k);
    var k': nat :| Unrefused(log, j, k');
    OneLiveBundlePerHalf(steps, k, k');
  }

  /** What a push pays: its fee, or for a DID bundle one mojo more, never past the ceiling by more
      than that mojo. */
  lemma EveryPushPaysItsFee(steps: seq<Step>, i: nat)
    requires Kept(steps) && i < |Run(steps).log|
    ensures var p := Run(steps).log[i];
            var paid := TotalSpent(p.spends) - TotalCreated(p.spends);
            && (paid == p.fee || (p.half.DidHalf? && paid == p.fee + 1))
            && paid <= MAX_MINT_FEE_MOJOS + 1
            && forall s :: s in p.spends ==> Clean(s)
  {
    EveryRunIsSafe(steps);
    var log := Run(steps).log;
    var p := log[i];
    var owner := WalletAt(p.ix).puzzleHash;
    assert Built(p);
    match p.half
    case DidHalf(pending) =>
      DidBundleBalances(owner, p.funding, p.fee);
      PaidFee(p.funding.amount, p.fee);
    case StoreHalf(store) =>
      var d: nat :| Launches(log, d, i);
      assert Built(log[d]);
      StoreBundleBalances(CoinOf(store.didCoinId), p.funding, store.committedRoot, owner, p.fee);
  }

  // ---------- the minter holds what it guards ----------

  ghost predicate FundsALiveBundle(log: seq<Pushed>, i: nat, id: Id) {
    i < |log| && log[i].Live() && log[i].funding.Id() == id
  }

  ghost predicate MinterHolds(h: Holds, hold: nat, id: Id) {
    hold in h.entries && h.entries[hold].mine && id in h.entries[hold].coins
  }

  /** The minter holds a coin exactly while some bundle it funds may still land and neither a restart
      nor the clock has taken that bundle's hold. */
  lemma HeldExactlyWhileGuarded(steps: seq<Step>, id: Id)
    requires Kept(steps)
    ensures (exists hold :: MinterHolds(Run(steps).holds, hold, id))
            <==> exists i: nat :: i in Guarded(steps) && FundsALiveBundle(Run(steps).log, i, id)
  {
    EveryRunIsSafe(steps);
    var w := Run(steps);
    if hold :| MinterHolds(w.holds, hold, id) {
      var i: nat :| HeldBy(w.log, Guarded(steps), i, hold);
      assert FundsALiveBundle(w.log, i, id);
    }
    if i: nat :| i in Guarded(steps) && FundsALiveBundle(w.log, i, id) {
      assert MinterHolds(w.holds, w.log[i].hold, id);
    }
  }

  ghost predicate Undisturbed(steps: seq<Step>) {
    forall s :: s in steps ==> !s.Lapses? && !s.Restart?
  }

  /** While no hold lapses and nothing restarts, that is every bundle that may still land. */
  lemma {:induction false} UndisturbedIsGuarded(steps: seq<Step>)
    requires Undisturbed(steps)
    ensures Kept(steps) && Guarded(steps) == NewlyLive([], Run(steps).log)
  {
    if steps != [] {
      var before, last := steps[..|steps| - 1], steps[|steps| - 1];
      UndisturbedIsGuarded(before);
      StepOnlyAddsToTheLog(Run(before), last);
    }
  }

  /** So in such a run the minter holds a coin exactly while some bundle it funds may still land. */
  lemma HeldIffItMayLand(steps: seq<Step>, id: Id)
    requires Undisturbed(steps)
    ensures (exists hold :: MinterHolds(Run(steps).holds, hold, id))
            <==> exists i: nat :: FundsALiveBundle(Run(steps).log, i, id)
  {
    UndisturbedIsGuarded(steps);
    HeldExactlyWhileGuarded(steps, id);
    assert forall i: nat :: FundsALiveBundle(Run(steps).log, i, id) ==> i in Guarded(steps);
  }

  /** No other caller holds the coin of a guarded bundle, and no other guarded bundle spends it. */
  lemma GuardedCoinsAreNotShared(steps: seq<Step>, i: nat)
    requires Kept(steps) && i in Guarded(steps)
    ensures forall j :: j in Guarded(steps) ==> j < |Run(steps).log| && Run(steps).log[j].Live()
    ensures var (log, holds) := (Run(steps).log, Run(steps).holds);
            && (forall j :: j in Guarded(steps) && log[j].funding.Id() == log[i].funding.Id() ==> i == j)
            && (forall hold :: hold in holds.entries && log[i].funding.Id() in holds.entries[hold].coins
                               ==> hold == log[i].hold && holds.entries[hold].mine)
  {
    EveryRunIsSafe(steps);
    var w := Run(steps);
    assert w.log[i].funding.Id() in w.holds.entries[w.log[i].hold].coins;
    forall j | j in Guarded(steps) && w.log[j].funding.Id() == w.log[i].funding.Id() ensures i == j {
      assert w.log[i].funding.Id() in w.holds.entries[w.log[j].hold].coins;
    }
  }

  // ---------- the halves pair ----------

  /** Any `Confirmed` any source can produce, at any point of any run, joins the two halves of one
      mint: the anchor cannot refuse it, the store commits the seed the mint began with, and both
      halves are bundles this index pushed and the network did not refuse. */
  lemma ConfirmedHalvesPair(steps: seq<Step>, ix: Ix, source: Source)
    requires Kept(steps)
    requires Status(Run(steps).registry, ix, source).Ok? && Status(Run(steps).registry, ix, source).value.Confirmed?
    ensures var w := Run(steps);
            var (did, store) := (Status(w.registry, ix, source).value.did, Status(w.registry, ix, source).value.store);
            && ix in w.registry.inProgress && ix !in w.registry.entries
            && store.didCoinId == did.coinId && AnchorFrom(did, store).Ok?
            && Some(store.committedRoot) == w.registry.inProgress[ix].seedRoot
            && (exists i: nat :: NamesDid(w.log, i, ix, w.registry.inProgress[ix].storeFee, did.launcherId, did.coinId))
            && (exists j: nat :: LiveStore(w.log, j) && w.log[j].ix == ix
                                 && w.log[j].half.store.storeCoinId == store.coinId
                                 && w.log[j].half.store.launcherId == store.launcherId)
  {
    EveryRunIsSafe(steps);
    var w := Run(steps);
    var m := w.registry.inProgress[ix];
    StatusSpeaksOfItsStage(w.registry, ix, source);
    assert StageNamed(w.log, ix, m);
    var i: nat :| ConfirmsDid(w.log, i, ix, m.storeFee, m.stage.did);
    var j: nat :| NamesStore(w.log, j, ix, m.storeFee, m.stage.pendingStore);
    assert LiveStore(w.log, j) && w.log[j].half.store.storeCoinId == m.stage.pendingStore.storeCoinId;
  }

  /** A DID bundle creates, and the launch from it spends, the one coin both of them name. */
  lemma LaunchSpendsWhatItsDidCreates(p: Pushed, q: Pushed)
    requires Built(p) && Built(q) && p.half.DidHalf? && q.half.StoreHalf?
    requires p.half.pending.didCoinId == q.half.store.didCoinId
    ensures CoinOf(q.half.store.didCoinId) in AsBundle(p.spends).outputs
    ensures CoinOf(q.half.store.didCoinId) in AsBundle(q.spends).spends
  {
    DidBundleIsItsPending(WalletAt(p.ix).puzzleHash, p.funding, p.fee, p.half.pending.pushedAtHeight);
    assert q.spends[2].coin == CoinOf(q.half.store.didCoinId) && q.spends[2] in q.spends;
  }

  ghost predicate JoinedBy(log: seq<Pushed>, i: nat, j: nat, did: Coin) {
    && LiveDid(log, i) && j < |log| && log[j].half.StoreHalf? && log[i].ix == log[j].ix
    && did.Id() == log[j].half.store.didCoinId
    && did in AsBundle(log[i].spends).outputs && did in AsBundle(log[j].spends).spends
  }

  /** Every store bundle spends the coin its own index's DID bundle creates. */
  lemma StoreSpendsItsOwnDid(steps: seq<Step>, j: nat)
    requires Kept(steps) && j < |Run(steps).log| && Run(steps).log[j].half.StoreHalf?
    ensures exists i: nat, did :: JoinedBy(Run(steps).log, i, j, did)
  {
    EveryRunIsSafe(steps);
    var log := Run(steps).log;
    var i: nat :| Launches(log, i, j);
    LaunchSpendsWhatItsDidCreates(log[i], log[j]);
    assert JoinedBy(log, i, j, CoinOf(log[j].half.store.didCoinId));
  }

  // ---------- the handoff ----------

  ghost predicate Answered(steps: seq<Step>, k: nat, ix: Ix, source: Source, did: MintedDid, store: ConfirmedStore) {
    k <= |steps| && Status(Run(steps[..k]).registry, ix, source) == Ok(Confirmed(did, store))
  }

  /** The host records only what a status call answered, at the index it was answered for. */
  ghost predicate FollowsTheObviousPath(steps: seq<Step>) {
    steps == [] ||
    var before := steps[..|steps| - 1];
    && FollowsTheObviousPath(before)
    && match steps[|steps| - 1]
       case RecordProfile(ix, did, store) => exists k: nat, source :: Answered(before, k, ix, source, did, store)
       case _ => true
  }

  ghost predicate EntryNamed(log: seq<Pushed>, i: nat, ix: Ix, launcherId: Id) {
    LiveDid(log, i) && log[i].ix == ix && log[i].half.pending.launcherId == launcherId
  }

  /** What a status call once answered stays named for the rest of the run. */
  lemma AnsweredStaysNamed(steps: seq<Step>, k: nat, ix: Ix, source: Source, did: MintedDid, store: ConfirmedStore)
    requires Kept(steps) && Answered(steps, k, ix, source, did, store)
    ensures exists i: nat :: EntryNamed(Run(steps).log, i, ix, did.launcherId)
  {
    KeptBefore(steps, k);
    ConfirmedHalvesPair(steps[..k], ix, source);
    LogOnlyGrows(steps, k);
    var w := Run(steps[..k]);
    var fee := w.registry.inProgress[ix].storeFee;
    var i: nat :| NamesDid(w.log, i, ix, fee, did.launcherId, did.coinId);
    assert EntryNamed(Run(steps).log, i, ix, did.launcherId);
  }

  lemma StillEntryNamed(log: seq<Pushed>, more: seq<Pushed>, ix: Ix, launcherId: Id)
    requires log <= more && exists i: nat :: EntryNamed(log, i, ix, launcherId)
    ensures exists i: nat :: EntryNamed(more, i, ix, launcherId)
  {
    var i: nat :| EntryNamed(log, i, ix, launcherId);
    assert EntryNamed(more, i, ix, launcherId);
  }

  /** Only a record adds an entry, under the identity it was given. */
  lemma EntriesComeFromRecords(w: World, s: Step, ix: Ix)
    requires ix in Next(w, s).registry.entries && !s.Restart?
    ensures if ix in w.registry.entries then Next(w, s).registry.entries[ix] == w.registry.entries[ix]
            else s.RecordProfile? && s.ix == ix && Next(w, s).registry.entries[ix].launcherId == s.did.launcherId
  {
    match s
    case BeginMint(other, e) =>
      var (claimed, prepared) := PrepareDid(w.holds, other, e);
      if e.seedRoot.Some? && prepared.Ok? {
        PushDidSettles(w.(holds := claimed), other, prepared.value, e);
      }
    case AdvanceMint(other, source, e) =>
      var status := Status(w.registry, other, source);
      if status.Ok? && status.value.DidConfirmed? {
        LaunchOutcome(w, other, status.value.did, source, e);
      }
    case _ =>
  }

  lemma {:induction false} ObviousPathBefore(steps: seq<Step>, k: nat)
    requires FollowsTheObviousPath(steps) && k <= |steps|
    ensures FollowsTheObviousPath(steps[..k])
  {
    if k == |steps| {
      assert steps[..k] == steps;
    } else {
      ObviousPathBefore(steps[..|steps| - 1], k);
      assert steps[..|steps| - 1][..k] == steps[..k];
    }
  }

  lemma {:induction false} EntriesNameTheirDids(steps: seq<Step>, ix: Ix)
    requires Kept(steps) && FollowsTheObviousPath(steps) && ix in Run(steps).registry.entries
    ensures exists i: nat :: EntryNamed(Run(steps).log, i, ix, Run(steps).registry.entries[ix].launcherId)
    decreases |steps|
  {
    var before, last := steps[..|steps| - 1], steps[|steps| - 1];
    var launcherId := Run(steps).registry.entries[ix].launcherId;
    StepOnlyAddsToTheLog(Run(before), last);
    if last.Restart? {
      var k: nat :| SavedAt(before, k, last.saved);
      KeptBefore(before, k);
      ObviousPathBefore(before, k);
      EntriesNameTheirDids(before[..k], ix);
      LogOnlyGrows(before, k);
      StillEntryNamed(Run(before[..k]).log, Run(before).log, ix, launcherId);
    } else {
      EntriesComeFromRecords(Run(before), last, ix);
      if ix in Run(before).registry.entries {
        EntriesNameTheirDids(before, ix);
      } else {
        var k: nat, source :| Answered(before, k, ix, source, last.did, last.store);
        AnsweredStaysNamed(before, k, ix, source, last.did, last.store);
      }
    }
    StillEntryNamed(Run(before).log, Run(steps).log, ix, launcherId);
  }

  /** Two live DID bundles are two identities: each commits to its funding coin, and so to its index. */
  lemma LiveDidsAreDistinct(steps: seq<Step>, i: nat, j: nat)
    requires Kept(steps) && LiveDid(Run(steps).log, i) && LiveDid(Run(steps).log, j)
    requires Run(steps).log[i].half.pending.launcherId == Run(steps).log[j].half.pending.launcherId
    ensures i == j
  {
    EveryRunIsSafe(steps);
    var log := Run(steps).log;
    assert Built(log[i]) && Built(log[j]);
    assert log[i].funding.Id() == log[j].funding.Id();
    assert WalletAt(log[i].ix).puzzleHash == WalletAt(log[j].ix).puzzleHash;
  }

  /** A host following the obvious path never fails on its own success value: what status calls
      confirmed, the registry records. */
  lemma HandoffSucceeds(steps: seq<Step>, ix: Ix, source: Source)
    requires Kept(steps) && FollowsTheObviousPath(steps)
    requires Status(Run(steps).registry, ix, source).Ok? && Status(Run(steps).registry, ix, source).value.Confirmed?
    ensures var confirmed := Status(Run(steps).registry, ix, source).value;
            RecordMinted(Run(steps).registry, ix, confirmed.did, confirmed.store).Ok?
  {
    var w := Run(steps);
    var did := Status(w.registry, ix, source).value.did;
    ConfirmedHalvesPair(steps, ix, source);
    var fee := w.registry.inProgress[ix].storeFee;
    var j: nat :| NamesDid(w.log, j, ix, fee, did.launcherId, did.coinId);
    forall other | other in w.registry.entries ensures w.registry.entries[other].launcherId == did.launcherId ==> other == ix {
      EntriesNameTheirDids(steps, other);
      var i: nat :| EntryNamed(w.log, i, other, w.registry.entries[other].launcherId);
      if w.registry.entries[other].launcherId == did.launcherId {
        LiveDidsAreDistinct(steps, i, j);
      }
    }
  }
}
