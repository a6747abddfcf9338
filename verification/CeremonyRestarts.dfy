/**
  What a restart costs the ceremony. Its holds are gone, so a coin that already funds a bundle can be
  taken again; its registry is the one last saved, so a push the save missed can be made again. Here
  is exactly when either happens, and what the chain itself still prevents.
*/
module CeremonyRestarts {
  import opened Base
  import opened Ceremony
  import opened CeremonyGuarantees
  import opened CeremonyProgress
  import opened CeremonySafety
  import opened Evidence
  import opened Funding
  import opened Journal
  import opened Reservations
  import Chain
  import Gates
  import Push

  // ---------- calls that go through ----------

  function Listed(coin: Coin): CoinRecord {
    CoinRecord(coin, Some(1), None)
  }

  /** A market that offers one coin, with nobody else about. */
  function OneCoin(coin: Coin): Market {
    Market((_: nat) => Answer([Listed(coin)]), (_: nat, _: Id) => Answer(Some(Listed(coin))), (_: nat) => [], (_: nat) => true)
  }

  lemma OneCoinIsClaimed(h: Holds, coin: Coin, fee: u64)
    requires coin.Id() !in h.Held() && coin.amount >= RequiredCoinAmount(fee)
    ensures SelectAndReserve(h, OneCoin(coin), coin.puzzleHash, fee)
            == (Holds(h.entries[h.nextId + 1 := Hold([coin.Id()], true)], h.nextId + 2), Ok((coin, h.nextId + 1)))
  {
    var listing := [Listed(coin)];
    assert listing[..0] == [];
    assert Scan(listing, coin.puzzleHash, RequiredCoinAmount(fee), h.Held()).best == Some(coin);
    var contested := ReserveAll(h, [], false).0;
    assert contested.Held() == h.Held();
    assert FirstClash([coin.Id()], h.Held()) == None;
  }

  function Answering(rec: CoinRecord): Source {
    Source((_: nat, _: Id) => Answer(Some(rec)), (_: nat) => Answer(Some(U32_MAX)), (_: nat, _: Id) => Answer(None))
  }

  function BeginWith(coin: Coin): BeginEnv {
    BeginEnv(Some(0), 0, true, OneCoin(coin), Answering(Listed(coin)), true, true, Some([]), 0, Push.Unknown)
  }

  ghost predicate PushesOne(w: World, w': World, ix: Ix, funding: Coin) {
    && |w'.log| == |w.log| + 1 && w.log <= w'.log
    && w'.log[|w.log|].Live() && w'.log[|w.log|].ix == ix && w'.log[|w.log|].funding == funding
  }

  /** At a free index, a free coin of its wallet is all a begin needs. */
  lemma BeginGoesThrough(w: World, ix: Ix, coin: Coin)
    requires ix !in w.registry.inProgress && ix !in w.registry.entries
    requires coin.Id() !in w.holds.Held() && coin.puzzleHash == WalletAt(ix).puzzleHash && coin.amount >= RequiredCoinAmount(0)
    ensures var w' := Begin(w, ix, BeginWith(coin)).0;
            PushesOne(w, w', ix, coin) && w'.log[|w.log|].half.DidHalf?
  {
    var e := BeginWith(coin);
    OneCoinIsClaimed(w.holds, coin, 0);
    DidBundlePassesItsGate(WalletAt(ix), coin, 0, [], 0);
    var (claimed, prepared) := PrepareDid(w.holds, ix, e);
    PushDidSettles(w.(holds := claimed), ix, prepared.value, e);
  }

  function Latest(a: u32, b: u32): u32 {
    if a < b then b else a
  }

  /** The height at which a stage's DID would be accepted soonest. */
  function Soonest(stage: Stage): u32
    requires !stage.StorePushed?
  {
    match stage
    case DidPushed(pending) => Latest(1, pending.pushedAtHeight)
    case DidConfirmedStoreNotLaunched(did) => Latest(1, did.confirmedHeight)
  }

  function Confirming(m: Mint): Source
    requires !m.stage.StorePushed? && StageDid(m.stage).1.Of?
  {
    Answering(CoinRecord(CoinOf(StageDid(m.stage).1), Some(Soonest(m.stage)), None))
  }

  function LaunchWith(did: Coin, coin: Coin): LaunchEnv {
    LaunchEnv(true, (_: Id) => Answer(Some(did)), OneCoin(coin), true, true, Some([]), 0, Push.Unknown)
  }

  /** Some source confirms the DID of a mint whose store was not launched. */
  lemma SomeSourceConfirms(m: Mint, ix: Ix, r: Registry)
    requires ix in r.inProgress && r.inProgress[ix] == m && !m.stage.StorePushed? && StageDid(m.stage).1.Of?
    requires Soonest(m.stage) + 5 <= U32_MAX
    ensures Status(r, ix, Confirming(m)).Ok? && Status(r, ix, Confirming(m)).value.DidConfirmed?
    ensures Status(r, ix, Confirming(m)).value.did.coinId == StageDid(m.stage).1
  {
    DepthTestIsBurial(U32_MAX, Soonest(m.stage));
  }

  /** The gate lets a launch be funded by any coin of the wallet older than the DID itself. */
  lemma OlderCoinPassesTheGate(wallet: Gates.Wallet, source: Coin, funding: Coin, root: nat, change: u64)
    requires wallet.puzzleHash.Standard? && funding.puzzleHash == wallet.puzzleHash
    requires IdSize(funding.Id()) <= IdSize(source.Id())
    ensures var did := DidCoin(source, wallet.puzzleHash);
            Gates.GateStoreLaunch(wallet, AsCoinSpends(StoreSpends(did, funding, root, wallet.puzzleHash, change)), [], did.Id(), 0).Ok?
  {
    var did := DidCoin(source, wallet.puzzleHash);
    var spends := StoreSpends(did, funding, root, wallet.puzzleHash, change);
    var coinSpends := AsCoinSpends(spends);
    DidIsYounger(source, wallet.puzzleHash);
    ChildIsLonger(did, IntermediateCoin(did.Id()));
    ChildIsLonger(IntermediateCoin(did.Id()), StoreLauncher(did.Id()));
    assert IdSize(funding.Id()) == IdSize(funding.parent) + 1;
    assert Gates.SpentIds(coinSpends) == {IntermediateCoin(did.Id()).Id(), StoreLauncher(did.Id()).Id(), did.Id(), funding.Id()} by {
      assert coinSpends == [Gates.CoinSpend(spends[0].coin, true), Gates.CoinSpend(spends[1].coin, true),
                            Gates.CoinSpend(spends[2].coin, true), Gates.CoinSpend(spends[3].coin, true)];
    }
    StoreBundlePassesItsGate(wallet, did, funding, root, change, [], 0);
  }

  lemma DidIsYounger(source: Coin, owner: PuzzleHash)
    ensures var did := DidCoin(source, owner);
            IdSize(did.Id()) == IdSize(source.Id()) + 4 && IdSize(did.parent) == IdSize(source.Id()) + 3
  {
    var funding := FundingCoin(source, owner);
    var launcher := LauncherOf(funding);
    var eve := SingletonChild(launcher, launcher, DidState(owner));
    ChildIsLonger(source, funding);
    ChildIsLonger(funding, launcher);
    ChildIsLonger(launcher, eve);
    ChildIsLonger(eve, DidCoin(source, owner));
  }

  /** The live DID bundle `log[i]` has a journal entry that would still launch its store. */
  ghost predicate Unlaunched(w: World, i: nat) {
    && OneLivePerHalf(w.log) && LiveDid(w.log, i) && Built(w.log[i])
    && w.log[i].ix in w.registry.inProgress && !w.registry.inProgress[w.log[i].ix].stage.StorePushed?
    && StageNamed(w.log, w.log[i].ix, w.registry.inProgress[w.log[i].ix])
    && w.log[i].half.pending.pushedAtHeight + 5 <= U32_MAX
  }

  lemma UnlaunchedStage(w: World, i: nat)
    requires Unlaunched(w, i)
    ensures var (ix, p) := (w.log[i].ix, w.log[i]);
            var m := w.registry.inProgress[ix];
            && m.seedRoot.Some? && m.storeFee == p.fee && p.fee <= MAX_MINT_FEE_MOJOS
            && StageDid(m.stage).1 == DidCoin(p.funding, WalletAt(ix).puzzleHash).Id()
            && Soonest(m.stage) + 5 <= U32_MAX
  {
    var ix := w.log[i].ix;
    var m := w.registry.inProgress[ix];
    assert StageNamed(w.log, ix, m);
    match m.stage
    case DidPushed(rec) =>
      var d: nat :| NamesDid(w.log, d, ix, m.storeFee, rec.launcherId, rec.didCoinId) && MirrorPendingMint(w.log[d].half.pending) == rec;
      assert d == i;
    case DidConfirmedStoreNotLaunched(did) =>
      var d: nat :| ConfirmsDid(w.log, d, ix, m.storeFee, did);
      assert d == i;
  }

  /** Such a mint launches out of any free coin of its wallet that can pay and is no younger than the
      coin its DID was minted from. */
  lemma LaunchGoesThrough(w: World, i: nat, coin: Coin)
    requires Unlaunched(w, i)
    requires coin.Id() !in w.holds.Held() && coin.puzzleHash == WalletAt(w.log[i].ix).puzzleHash
    requires coin.amount >= RequiredCoinAmount(w.log[i].fee) && IdSize(coin.Id()) <= IdSize(w.log[i].funding.Id())
    ensures var ix := w.log[i].ix;
            var m := w.registry.inProgress[ix];
            && StageDid(m.stage).1.Of?
            && var w' := Advance(w, ix, Confirming(m), LaunchWith(CoinOf(StageDid(m.stage).1), coin)).0;
               PushesOne(w, w', ix, coin) && w'.log[|w.log|].half.StoreHalf?
  {
    var ix, p := w.log[i].ix, w.log[i];
    var m := w.registry.inProgress[ix];
    UnlaunchedStage(w, i);
    SomeSourceConfirms(m, ix, w.registry);
    LaunchIsPushed(w, ix, Status(w.registry, ix, Confirming(m)).value.did, p.funding, coin, Confirming(m));
  }

  lemma LaunchIsPushed(w: World, ix: Ix, did: MintedDid, minted: Coin, coin: Coin, source: Source)
    requires ix in w.registry.inProgress && w.registry.inProgress[ix].seedRoot.Some? && PeakHeight(source, 3).Some?
    requires did.coinId == DidCoin(minted, WalletAt(ix).puzzleHash).Id()
    requires coin.Id() !in w.holds.Held() && coin.puzzleHash == WalletAt(ix).puzzleHash
    requires w.registry.inProgress[ix].storeFee <= MAX_MINT_FEE_MOJOS
    requires coin.amount >= RequiredCoinAmount(w.registry.inProgress[ix].storeFee) && IdSize(coin.Id()) <= IdSize(minted.Id())
    ensures var w' := Launch(w, ix, did, source, LaunchWith(CoinOf(did.coinId), coin)).0;
            PushesOne(w, w', ix, coin) && w'.log[|w.log|].half.StoreHalf?
  {
    var wallet, m := WalletAt(ix), w.registry.inProgress[ix];
    var e := LaunchWith(CoinOf(did.coinId), coin);
    OneCoinIsClaimed(w.holds, coin, m.storeFee);
    LaunchIsSigned(wallet, minted, coin, m.seedRoot.value, m.storeFee, source);
    var launch := SignLaunch(wallet, CoinOf(did.coinId), did.coinId, coin, m.seedRoot.value, m.storeFee, source, e).value;
    var (claimed, claim) := SelectAndReserve(w.holds, e.market, wallet.puzzleHash, m.storeFee);
    PushStoreSettles(w.(holds := claimed), ix, did, launch, m.storeFee, coin, claim.value.1, e.answer);
  }

  lemma LaunchIsSigned(wallet: Gates.Wallet, minted: Coin, coin: Coin, root: nat, fee: u64, source: Source)
    requires wallet.puzzleHash.Standard? && coin.puzzleHash == wallet.puzzleHash && fee <= MAX_MINT_FEE_MOJOS
    requires coin.amount >= RequiredCoinAmount(fee) && IdSize(coin.Id()) <= IdSize(minted.Id()) && PeakHeight(source, 3).Some?
    ensures var did := DidCoin(minted, wallet.puzzleHash);
            SignLaunch(wallet, did, did.Id(), coin, root, fee, source, LaunchWith(did, coin)).Ok?
  {
    SelectedCoversTheLaunch(coin.amount, fee);
    OlderCoinPassesTheGate(wallet, minted, coin, root, StoreChange(coin.amount, fee).value);
  }

  // ---------- what a save may not miss ----------

  ghost predicate NoRestart(steps: seq<Step>) {
    forall s :: s in steps ==> !s.Restart?
  }

  /** However a run goes on from a registry, no half of a mint is bought twice. */
  ghost predicate BuysOnceAfter(steps: seq<Step>, saved: Registry) {
    forall more :: NoRestart(more) ==> OneLivePerHalf(Run(steps + [Restart(saved)] + more).log)
  }

  /** A restart is harmless exactly if the registry it finds, one of the run's own, accounts for every
      bundle that may still land. Any other lets some later call buy a half again. */
  lemma RestartIsSafeExactlyWhenAccounted(steps: seq<Step>, saved: Registry)
    requires Kept(steps) && exists k: nat :: SavedAt(steps, k, saved)
    ensures BuysOnceAfter(steps, saved) <==> Accounts(saved, Run(steps).log)
  {
    if Accounts(saved, Run(steps).log) {
      forall more | NoRestart(more) ensures OneLivePerHalf(Run(steps + [Restart(saved)] + more).log) {
        KeptThrough(steps, saved, more);
        EveryRunIsSafe(steps + [Restart(saved)] + more);
      }
    } else {
      UnaccountedBuysTwice(steps, saved);
    }
  }

  lemma {:induction false} KeptThrough(steps: seq<Step>, saved: Registry, more: seq<Step>)
    requires Kept(steps) && (exists k: nat :: SavedAt(steps, k, saved)) && Accounts(saved, Run(steps).log) && NoRestart(more)
    ensures Kept(steps + [Restart(saved)] + more)
  {
    var all := steps + [Restart(saved)] + more;
    if more == [] {
      assert all == steps + [Restart(saved)] && all[..|all| - 1] == steps;
    } else {
      var n := |more| - 1;
      KeptThrough(steps, saved, more[..n]);
      assert all[..|all| - 1] == steps + [Restart(saved)] + more[..n];
    }
  }

  lemma RunOneMore(steps: seq<Step>, s: Step)
    ensures Run(steps + [s]) == Next(Run(steps), s)
  {
    var all := steps + [s];
    assert all[..|all| - 1] == steps && all[|all| - 1] == s;
  }

  lemma Restarted(w: World, saved: Registry)
    ensures Next(w, Restart(saved)) == World(saved, Holds(map[], 0), w.log)
  {
  }

  lemma UnaccountedBuysTwice(steps: seq<Step>, saved: Registry)
    requires Kept(steps) && (exists k: nat :: SavedAt(steps, k, saved)) && !Accounts(saved, Run(steps).log)
    ensures !BuysOnceAfter(steps, saved)
  {
    var log := Run(steps).log;
    RunKeeps(steps);
    SavedIsStillNamed(steps, saved);
    var s := BoughtAgain(log, saved);
    AfterRestart(steps, saved);
    OneStepTooMany(steps, saved, s);
  }

  lemma AfterRestart(steps: seq<Step>, saved: Registry)
    ensures Run(steps + [Restart(saved)]) == World(saved, Holds(map[], 0), Run(steps).log)
  {
    var w := Run(steps);
    RunOneMore(steps, Restart(saved));
    Restarted(w, saved);
  }

  lemma OneStepTooMany(steps: seq<Step>, saved: Registry, s: Step)
    requires !s.Restart? && !OneLivePerHalf(Next(Run(steps + [Restart(saved)]), s).log)
    ensures !BuysOnceAfter(steps, saved)
  {
    var more := [s];
    RunOneMore(steps + [Restart(saved)], s);
    assert NoRestart(more) && !OneLivePerHalf(Run(steps + [Restart(saved)] + more).log);
  }

  lemma RunKeeps(steps: seq<Step>)
    requires Kept(steps)
    ensures var w := Run(steps);
            && OneLivePerHalf(w.log) && StoresDescend(w.log) && JournalTracks(w.registry, w.log) && Exclusive(w.holds)
            && forall i :: 0 <= i < |w.log| ==> Built(w.log[i])
  {
    EveryRunIsSafe(steps);
  }

  lemma BoughtAgain(log: seq<Pushed>, saved: Registry) returns (s: Step)
    requires OneLivePerHalf(log) && StoresDescend(log) && !Accounts(saved, log)
    requires forall i :: 0 <= i < |log| ==> Built(log[i])
    requires forall ix :: ix in saved.inProgress ==> StageNamed(log, ix, saved.inProgress[ix])
    ensures !s.Restart? && !OneLivePerHalf(Next(World(saved, Holds(map[], 0), log), s).log)
  {
    var found := World(saved, Holds(map[], 0), log);
    if i: nat :| LiveDid(log, i) && log[i].ix !in saved.inProgress && log[i].ix !in saved.entries {
      s := DidBoughtAgain(found, i);
    } else {
      var j: nat :| LiveStore(log, j) && log[j].ix !in saved.entries
                    && !(log[j].ix in saved.inProgress && saved.inProgress[log[j].ix].stage.StorePushed?);
      var i: nat :| Launches(log, i, j);
      s := StoreBoughtAgain(found, i, j);
    }
  }

  /** What a registry of the run names, the run's whole log still names. */
  lemma SavedIsStillNamed(steps: seq<Step>, saved: Registry)
    requires Kept(steps) && exists k: nat :: SavedAt(steps, k, saved)
    ensures forall ix :: ix in saved.inProgress ==> ix !in saved.entries && StageNamed(Run(steps).log, ix, saved.inProgress[ix])
  {
    var k: nat :| SavedAt(steps, k, saved);
    KeptBefore(steps, k);
    EveryRunIsSafe(steps[..k]);
    LogOnlyGrows(steps, k);
    forall ix | ix in saved.inProgress ensures ix !in saved.entries && StageNamed(Run(steps).log, ix, saved.inProgress[ix]) {
      StillNamed(Run(steps[..k]).log, Run(steps).log, ix, saved.inProgress[ix]);
    }
  }

  /** A coin no chain has to know: as old as a coin can be. */
  function FreshCoin(ix: Ix, fee: u64): Coin {
    Coin(Raw(0), WalletAt(ix).puzzleHash, RequiredCoinAmount(fee))
  }

  lemma DidBoughtAgain(w: World, i: nat) returns (s: Step)
    requires w.holds == Holds(map[], 0) && LiveDid(w.log, i)
    requires w.log[i].ix !in w.registry.inProgress && w.log[i].ix !in w.registry.entries
    ensures !s.Restart? && !OneLivePerHalf(Next(w, s).log)
  {
    var ix := w.log[i].ix;
    s := BeginMint(ix, BeginWith(FreshCoin(ix, 0)));
    BeginGoesThrough(w, ix, FreshCoin(ix, 0));
    var log := Next(w, s).log;
    assert LiveDid(log, i) && LiveDid(log, |w.log|) && log[i].ix == log[|w.log|].ix;
  }

  lemma StoreBoughtAgain(w: World, i: nat, j: nat) returns (s: Step)
    requires w.holds == Holds(map[], 0) && LiveStore(w.log, j) && Launches(w.log, i, j)
    requires OneLivePerHalf(w.log) && Built(w.log[i])
    requires w.log[j].ix in w.registry.inProgress && !w.registry.inProgress[w.log[j].ix].stage.StorePushed?
    requires StageNamed(w.log, w.log[j].ix, w.registry.inProgress[w.log[j].ix])
    ensures !s.Restart? && !OneLivePerHalf(Next(w, s).log)
  {
    var ix, coin := w.log[j].ix, FreshCoin(w.log[j].ix, w.log[i].fee);
    var m := w.registry.inProgress[ix];
    assert IdSize(coin.Id()) == 1 && IdSize(w.log[i].funding.Id()) >= 1;
    LaunchGoesThrough(w, i, coin);
    s := AdvanceMint(ix, Confirming(m), LaunchWith(CoinOf(StageDid(m.stage).1), coin));
    var log := Next(w, s).log;
    assert LiveStore(log, j) && LiveStore(log, |w.log|) && log[j].ix == log[|w.log|].ix;
  }

  /** A call needs saving exactly if it pushed something that may land: the registry from before it
      accounts for everything else. */
  lemma SaveIsNeededExactlyAfterALivePush(steps: seq<Step>, s: Step)
    requires Kept(steps) && !s.Restart?
    ensures Accounts(Run(steps).registry, Run(steps + [s]).log) <==> NewlyLive(Run(steps).log, Run(steps + [s]).log) == {}
  {
    RunKeeps(steps);
    RunOneMore(steps, s);
    AccountsAfterStep(Run(steps), s);
  }

  lemma AccountsAfterStep(w: World, s: Step)
    requires JournalTracks(w.registry, w.log)
    ensures Accounts(w.registry, Next(w, s).log) <==> NewlyLive(w.log, Next(w, s).log) == {}
  {
    StepOnlyAddsToTheLog(w, s);
    if |Next(w, s).log| > |w.log| {
      var p := Next(w, s).log[|w.log|];
      assert Next(w, s).log == w.log + [p];
      PushIsUnknownBefore(w, s);
      AccountsAfterPush(w.registry, w.log, p);
    } else {
      assert Next(w, s).log == w.log;
    }
  }

  ghost predicate UnknownTo(r: Registry, p: Pushed) {
    && p.ix !in r.entries
    && if p.half.DidHalf? then p.ix !in r.inProgress else p.ix in r.inProgress && !r.inProgress[p.ix].stage.StorePushed?
  }

  lemma AccountsAfterPush(r: Registry, log: seq<Pushed>, p: Pushed)
    requires Accounts(r, log) && UnknownTo(r, p)
    ensures Accounts(r, log + [p]) <==> !p.Live()
    ensures NewlyLive(log, log + [p]) == {} <==> !p.Live()
  {
    LogGrows(log, p);
    assert p.Live() ==> |log| in NewlyLive(log, log + [p]);
    assert p.Live() ==> LiveDid(log + [p], |log|) || LiveStore(log + [p], |log|);
  }

  /** Nothing in the registry before a call speaks of the half the call pushes. */
  lemma PushIsUnknownBefore(w: World, s: Step)
    requires JournalTracks(w.registry, w.log) && |Next(w, s).log| > |w.log|
    ensures UnknownTo(w.registry, Next(w, s).log[|w.log|])
  {
    match s
    case BeginMint(ix, e) =>
      var (claimed, prepared) := PrepareDid(w.holds, ix, e);
      if e.seedRoot.Some? && prepared.Ok? {
        PushDidSettles(w.(holds := claimed), ix, prepared.value, e);
      }
    case AdvanceMint(ix, source, e) => AdvancePushesOnEvidence(w, ix, source, e);
    case _ =>
  }

  /** So a crash between a push and the save after it buys that half twice, journalled first or not. */
  lemma CrashBeforeTheSaveBuysTwice(steps: seq<Step>, s: Step)
    requires Kept(steps) && !s.Restart? && NewlyLive(Run(steps).log, Run(steps + [s]).log) != {}
    ensures !BuysOnceAfter(steps + [s], Run(steps).registry)
  {
    var all := steps + [s];
    assert all[..|steps|] == steps;
    assert SavedAt(all, |steps|, Run(steps).registry);
    SaveIsNeededExactlyAfterALivePush(steps, s);
    RestartIsSafeExactlyWhenAccounted(all, Run(steps).registry);
  }

  /** And saving after every call is enough: the registry as it is accounts for its own log. */
  lemma SavingEachCallIsEnough(steps: seq<Step>)
    requires Kept(steps)
    ensures Kept(steps + [Restart(Run(steps).registry)]) && BuysOnceAfter(steps, Run(steps).registry)
  {
    var now := Run(steps).registry;
    RunKeeps(steps);
    assert steps[..|steps|] == steps;
    assert SavedAt(steps, |steps|, now);
    KeptThrough(steps, now, []);
    assert steps + [Restart(now)] + [] == steps + [Restart(now)];
    RestartIsSafeExactlyWhenAccounted(steps, now);
  }

  // ---------- who may share a coin ----------

  /** A push is funded by a coin nobody held when its call began. */
  lemma PushTakesAFreeCoin(w: World, s: Step)
    requires Exclusive(w.holds) && |Next(w, s).log| > |w.log|
    ensures Next(w, s).log[|w.log|].funding.Id() !in w.holds.Held()
  {
    match s
    case BeginMint(ix, e) =>
      var (claimed, prepared) := PrepareDid(w.holds, ix, e);
      ClaimTakesAFreeCoin(w.holds, e.market, WalletAt(ix).puzzleHash, e.fee);
      PushDidSettles(w.(holds := claimed), ix, prepared.value, e);
    case AdvanceMint(ix, source, e) =>
      LaunchTakesAFreeCoin(w, ix, Status(w.registry, ix, source).value.did, source, e);
    case _ =>
  }

  lemma LaunchTakesAFreeCoin(w: World, ix: Ix, did: MintedDid, source: Source, e: LaunchEnv)
    requires Exclusive(w.holds) && |Launch(w, ix, did, source, e).0.log| > |w.log|
    ensures Launch(w, ix, did, source, e).0.log[|w.log|].funding.Id() !in w.holds.Held()
  {
    var (root, fee, tip) := LaunchInputs(w.registry, ix, did, e).value;
    var (claimed, claim) := SelectAndReserve(w.holds, e.market, WalletAt(ix).puzzleHash, fee);
    ClaimTakesAFreeCoin(w.holds, e.market, WalletAt(ix).puzzleHash, fee);
    var (funding, hold) := claim.value;
    var launch := SignLaunch(WalletAt(ix), tip, did.coinId, funding, root, fee, source, e).value;
    PushStoreSettles(w.(holds := claimed), ix, did, launch, fee, funding, hold, e.answer);
  }

  lemma ClaimTakesAFreeCoin(h: Holds, m: Market, puzzleHash: PuzzleHash, fee: u64)
    requires Exclusive(h)
    ensures var claim := SelectAndReserve(h, m, puzzleHash, fee).1;
            claim.Ok? ==> claim.value.0.Id() !in h.Held()
  {
    SelectAndReserveIsClean(h, m, puzzleHash, fee);
  }

  ghost predicate PushedIn(steps: seq<Step>, k: nat, j: nat) {
    k < |steps| && |Run(steps[..k]).log| <= j < |Run(steps[..k + 1]).log|
  }

  /** `log[i]` and a later `log[j]` share a coin the one way that can happen: the older is a DID's, the
      newer its own store's, pushed when the older's hold had lapsed or been lost to a restart. */
  ghost predicate SharedOverAForgottenHold(steps: seq<Step>, i: nat, j: nat) {
    && LiveDid(Run(steps).log, i) && LiveStore(Run(steps).log, j) && Run(steps).log[i].ix == Run(steps).log[j].ix
    && exists k: nat :: PushedIn(steps, k, j) && i !in Guarded(steps[..k])
  }

  /** Two bundles that may both land share a funding coin in that way only. */
  lemma {:induction false} SharedCoinWasForgotten(steps: seq<Step>, i: nat, j: nat, id: Id)
    requires Kept(steps) && i < j && FundsALiveBundle(Run(steps).log, i, id) && FundsALiveBundle(Run(steps).log, j, id)
    ensures SharedOverAForgottenHold(steps, i, j)
  {
    var before, last := steps[..|steps| - 1], steps[|steps| - 1];
    StepOnlyAddsToTheLog(Run(before), last);
    if j < |Run(before).log| {
      SharedCoinWasForgotten(before, i, j, id);
      StillShared(steps, i, j);
    } else {
      NewlyShared(steps, i, j);
    }
  }

  lemma StillShared(steps: seq<Step>, i: nat, j: nat)
    requires steps != [] && SharedOverAForgottenHold(steps[..|steps| - 1], i, j)
    ensures SharedOverAForgottenHold(steps, i, j)
  {
    var before := steps[..|steps| - 1];
    StepOnlyAddsToTheLog(Run(before), steps[|steps| - 1]);
    var k: nat :| PushedIn(before, k, j) && i !in Guarded(before[..k]);
    assert before[..k] == steps[..k] && before[..k + 1] == steps[..k + 1];
    assert PushedIn(steps, k, j);
  }

  lemma NewlyShared(steps: seq<Step>, i: nat, j: nat)
    requires Kept(steps) && steps != [] && |Run(steps[..|steps| - 1]).log| == j == |Run(steps).log| - 1 && i < j
    requires Run(steps).log[i].Live() && Run(steps).log[j].Live() && Run(steps).log[i].funding == Run(steps).log[j].funding
    ensures SharedOverAForgottenHold(steps, i, j)
  {
    var before, last := steps[..|steps| - 1], steps[|steps| - 1];
    StepOnlyAddsToTheLog(Run(before), last);
    NewSharerIsAStore(before, last, i);
    NewCoinWasFree(before, last, i);
    assert steps[..|before|] == before && steps[..|before| + 1] == steps;
    assert PushedIn(steps, |before|, j);
  }

  lemma NewCoinWasFree(steps: seq<Step>, s: Step, i: nat)
    requires Kept(steps) && i < |Run(steps).log| < |Next(Run(steps), s).log|
    requires Next(Run(steps), s).log[|Run(steps).log|].funding == Run(steps).log[i].funding
    ensures i !in Guarded(steps)
  {
    RunKeeps(steps);
    PushTakesAFreeCoin(Run(steps), s);
    if i in Guarded(steps) {
      GuardedCoinIsHeld(steps, i);
    }
  }

  lemma GuardedCoinIsHeld(steps: seq<Step>, i: nat)
    requires Kept(steps) && i in Guarded(steps)
    ensures i < |Run(steps).log| && Run(steps).log[i].funding.Id() in Run(steps).holds.Held()
  {
    EveryRunIsSafe(steps);
    var w := Run(steps);
    assert w.log[i].funding.Id() in w.holds.entries[w.log[i].hold].coins;
  }

  lemma NewSharerIsAStore(steps: seq<Step>, s: Step, i: nat)
    requires Kept(steps) && i < |Run(steps).log| < |Next(Run(steps), s).log|
    requires Run(steps).log[i].Live() && Next(Run(steps), s).log[|Run(steps).log|].Live()
    requires Next(Run(steps), s).log[|Run(steps).log|].funding == Run(steps).log[i].funding
    ensures var p := Next(Run(steps), s).log[|Run(steps).log|];
            LiveDid(Run(steps).log, i) && p.half.StoreHalf? && p.ix == Run(steps).log[i].ix
  {
    RunKeeps(steps);
    NextKeeps(steps, s);
    StepOnlyAddsToTheLog(Run(steps), s);
    LastSharer(Run(steps).log, Next(Run(steps), s).log, i);
  }

  lemma LastSharer(log: seq<Pushed>, more: seq<Pushed>, i: nat)
    requires log <= more && |more| == |log| + 1 && i < |log| && StoresDescend(log) && OneLivePerHalf(more)
    requires forall k :: 0 <= k < |more| ==> Built(more[k])
    requires more[i].Live() && more[|log|].Live() && more[i].funding == more[|log|].funding
    ensures LiveDid(log, i) && more[|log|].half.StoreHalf? && more[|log|].ix == log[i].ix
  {
    assert more == log + [more[|log|]];
    NewSharer(log, more[|log|], i);
  }

  lemma NewSharer(log: seq<Pushed>, p: Pushed, i: nat)
    requires StoresDescend(log) && OneLivePerHalf(log + [p]) && i < |log| && Built(log[i]) && Built(p)
    requires log[i].Live() && p.Live() && log[i].funding == p.funding
    ensures LiveDid(log, i) && p.half.StoreHalf? && log[i].ix == p.ix
  {
    var last: nat := |log|;
    assert LiveStore(log + [p], last) || LiveDid(log + [p], last);
    assert WalletAt(log[i].ix).puzzleHash == WalletAt(p.ix).puzzleHash;
    LogGrows(log, p);
    StoreHasItsDid(log, i);
  }

  lemma StoreHasItsDid(log: seq<Pushed>, i: nat)
    requires StoresDescend(log)
    ensures LiveStore(log, i) ==> exists d: nat :: LiveDid(log, d) && log[d].ix == log[i].ix
  {
    if LiveStore(log, i) {
      var d: nat :| Launches(log, d, i);
      assert LiveDid(log, d);
    }
  }

  ghost predicate TakesTheCoinOf(w: World, i: nat, source: Source, e: LaunchEnv) {
    i < |w.log| && PushesOne(w, Advance(w, w.log[i].ix, source, e).0, w.log[i].ix, w.log[i].funding)
  }

  /** And it is possible exactly when the coin is free: some answers then make the launch spend the
      very coin that its DID's bundle spends. */
  lemma LaunchMaySpendItsDidsCoinExactlyWhenFree(steps: seq<Step>, i: nat)
    requires Kept(steps) && Unlaunched(Run(steps), i)
    ensures (exists source, e :: TakesTheCoinOf(Run(steps), i, source, e))
            <==> Run(steps).log[i].funding.Id() !in Run(steps).holds.Held()
  {
    var w := Run(steps);
    var ix, coin := w.log[i].ix, w.log[i].funding;
    RunKeeps(steps);
    if coin.Id() !in w.holds.Held() {
      LaunchGoesThrough(w, i, coin);
      var m := w.registry.inProgress[ix];
      assert TakesTheCoinOf(w, i, Confirming(m), LaunchWith(CoinOf(StageDid(m.stage).1), coin));
    }
    forall source, e | TakesTheCoinOf(w, i, source, e) ensures coin.Id() !in w.holds.Held() {
      PushTakesAFreeCoin(w, AdvanceMint(ix, source, e));
    }
  }

  // ---------- the chain is the backstop ----------

  /** Whatever a selection is told of a coin by name is true of one chain state. */
  ghost predicate HonestByName(m: Market, v: Chain.View) {
    forall attempt, id :: m.byName(attempt, id).Answer? ==> Chain.Reports(v, id, m.byName(attempt, id).value)
  }

  lemma {:induction false} ClaimedIsUnspent(h: Holds, m: Market, puzzleHash: PuzzleHash, fee: u64, attempt: nat, excluded: set<Id>, v: Chain.View)
    requires HonestByName(m, v)
    ensures var claim := ClaimFrom(h, m, puzzleHash, fee, attempt, excluded).1;
            claim.Ok? ==> !Chain.Spent(v.blocks, claim.value.0)
    decreases MAX_RESERVATION_ATTEMPTS - attempt
  {
    if attempt < MAX_RESERVATION_ATTEMPTS {
      var selected := Select(m.listing(attempt), ByName(m, attempt), puzzleHash, fee, excluded);
      if selected.Ok? {
        var coin := selected.value;
        assert m.byName(attempt, coin.Id()).Answer? && Chain.Reports(v, coin.Id(), m.byName(attempt, coin.Id()).value);
        var contested := ReserveAll(h, m.rival(attempt), false).0;
        var (h', claim) := ReserveAll(contested, [coin.Id()], true);
        if claim.Err? {
          ClaimedIsUnspent(h', m, puzzleHash, fee, attempt + 1, excluded + {claim.error.coin}, v);
        }
      }
    }
  }

  /** A chain that carries a DID has spent the coin it was minted from. */
  lemma DidSpentItsSource(c: Chain.Blocks, source: Coin, owner: PuzzleHash)
    requires Chain.Valid(c) && Chain.Exists(c, DidCoin(source, owner))
    ensures Chain.Spent(c, source)
  {
    var funding := FundingCoin(source, owner);
    var launcher := LauncherOf(funding);
    Chain.ParentExists(c, DidCoin(source, owner));
    Chain.ParentExists(c, SingletonChild(launcher, launcher, DidState(owner)));
    Chain.ParentExists(c, launcher);
    Chain.ParentExists(c, funding);
  }

  /** What no table remembers the chain still does: an advance whose reads are all of one chain state
      never spends the coin of a bundle that may still land, whatever restarts went before it. */
  lemma OneChainNeverSharesACoin(steps: seq<Step>, ix: Ix, source: Source, e: LaunchEnv, v: Chain.View, i: nat)
    requires Chain.Valid(v.blocks) && Chain.Honest(source, v) && HonestByName(e.market, v)
    requires Kept(steps) && i < |Run(steps).log| && Run(steps).log[i].Live()
    requires Advance(Run(steps), ix, source, e).0.log != Run(steps).log && e.answer != Push.Settled(Push.Rejected)
    ensures var log := Advance(Run(steps), ix, source, e).0.log;
            |log| == |Run(steps).log| + 1 && log[|log| - 1].funding != Run(steps).log[i].funding
  {
    var w := Run(steps);
    var p := Advance(w, ix, source, e).0.log[|w.log|];
    AdvancePushesOnEvidence(w, ix, source, e);
    RunKeeps(steps);
    NextKeeps(steps, AdvanceMint(ix, source, e));
    if p.funding == w.log[i].funding {
      NewSharer(w.log, p, i);
      LaunchSpendsAnotherCoin(w, ix, source, e, v, i);
    }
  }

  lemma NextKeeps(steps: seq<Step>, s: Step)
    requires Kept(steps) && !s.Restart?
    ensures var log := Next(Run(steps), s).log; OneLivePerHalf(log) && forall i :: 0 <= i < |log| ==> Built(log[i])
  {
    EveryRunIsSafe(steps);
    StepKeepsSafe(Run(steps), Guarded(steps), s);
  }

  lemma LaunchSpendsAnotherCoin(w: World, ix: Ix, source: Source, e: LaunchEnv, v: Chain.View, i: nat)
    requires Chain.Valid(v.blocks) && Chain.Honest(source, v) && HonestByName(e.market, v)
    requires JournalTracks(w.registry, w.log) && OneLivePerHalf(w.log) && LiveDid(w.log, i) && Built(w.log[i])
    requires Advance(w, ix, source, e).0.log != w.log && w.log[i].ix == ix
    ensures var log := Advance(w, ix, source, e).0.log;
            |log| == |w.log| + 1 && log[|w.log|].funding != w.log[i].funding
  {
    AdvancePushesOnEvidence(w, ix, source, e);
    ConfirmedDidIsNamed(w.registry, w.log, ix, source);
    var did := Status(w.registry, ix, source).value.did;
    var d: nat :| ConfirmsDid(w.log, d, ix, w.registry.inProgress[ix].storeFee, MirrorDid(did));
    assert d == i;
    ConfirmedDidIsOnChain(w.registry, ix, source, v);
    DidSpentItsSource(v.blocks, w.log[i].funding, WalletAt(ix).puzzleHash);
    LaunchFundingIsUnspent(w, ix, did, source, e, v);
  }

  lemma ConfirmedDidIsOnChain(r: Registry, ix: Ix, source: Source, v: Chain.View)
    requires Chain.Valid(v.blocks) && Chain.Honest(source, v)
    requires Status(r, ix, source).Ok? && Status(r, ix, source).value.DidConfirmed?
    ensures var id := Status(r, ix, source).value.did.coinId; id.Of? && Chain.Exists(v.blocks, CoinOf(id))
  {
    StatusSpeaksOfItsStage(r, ix, source);
    var id := Status(r, ix, source).value.did.coinId;
    assert Chain.Reports(v, id, source.coin(1, id).value);
  }

  lemma LaunchFundingIsUnspent(w: World, ix: Ix, did: MintedDid, source: Source, e: LaunchEnv, v: Chain.View)
    requires HonestByName(e.market, v) && |Launch(w, ix, did, source, e).0.log| > |w.log|
    ensures !Chain.Spent(v.blocks, Launch(w, ix, did, source, e).0.log[|w.log|].funding)
  {
    var (root, fee, tip) := LaunchInputs(w.registry, ix, did, e).value;
    var (claimed, claim) := SelectAndReserve(w.holds, e.market, WalletAt(ix).puzzleHash, fee);
    ClaimedIsUnspent(w.holds, e.market, WalletAt(ix).puzzleHash, fee, 0, w.holds.Held(), v);
    var (funding, hold) := claim.value;
    var launch := SignLaunch(WalletAt(ix), tip, did.coinId, funding, root, fee, source, e).value;
    PushStoreSettles(w.(holds := claimed), ix, did, launch, fee, funding, hold, e.answer);
  }

  // ---------- other callers ----------

  ghost predicate HeldByAnother(h: Holds, id: Id) {
    exists hold :: hold in h.entries && !h.entries[hold].mine && id in h.entries[hold].coins
  }

  lemma RivalTakesExactlyTheFree(h: Holds, id: Id)
    requires Exclusive(h)
    ensures var h' := ReserveAll(h, [id], false).0;
            HeldByAnother(h', id) <==> HeldByAnother(h, id) || id !in h.Held()
  {
    ReserveIsAtomic(h, [id], false);
    NoClash([id], h.Held());
    var (h', r) := ReserveAll(h, [id], false);
    if r.Ok? {
      assert r.value in h'.entries && !h'.entries[r.value].mine && id in h'.entries[r.value].coins;
      assert id !in h.Held();
    }
  }

  /** Another caller can take a coin exactly when nobody else has it and every bundle it funds has lost
      its hold to a restart or to the clock. */
  lemma RivalTakesACoinExactlyWhenUnguarded(steps: seq<Step>, id: Id)
    requires Kept(steps)
    ensures var h := Run(steps).holds;
            var h' := Next(Run(steps), RivalReserves([id])).holds;
            !HeldByAnother(h, id) ==>
              (HeldByAnother(h', id) <==> forall i: nat :: FundsALiveBundle(Run(steps).log, i, id) ==> i !in Guarded(steps))
  {
    var h := Run(steps).holds;
    RunKeeps(steps);
    RivalTakesExactlyTheFree(h, id);
    HeldExactlyWhileGuarded(steps, id);
    HeldIsSomebodys(h, id);
    assert Next(Run(steps), RivalReserves([id])).holds == ReserveAll(h, [id], false).0;
  }

  lemma HeldIsSomebodys(h: Holds, id: Id)
    ensures id in h.Held() <==> HeldByAnother(h, id) || exists hold :: MinterHolds(h, hold, id)
  {
    if id in h.Held() && !HeldByAnother(h, id) {
      var hold :| hold in h.entries && id in h.entries[hold].coins;
      assert MinterHolds(h, hold, id);
    }
  }

  /** After a restart every live bundle's coin is there to be taken, whatever the registry kept. */
  lemma RestartUnguardsEverything(w: World, saved: Registry, i: nat)
    requires i < |w.log| && w.log[i].Live()
    ensures var id := w.log[i].funding.Id();
            var after := Next(Next(w, Restart(saved)), RivalReserves([id]));
            FundsALiveBundle(after.log, i, id) && HeldByAnother(after.holds, id)
  {
    RivalTakesExactlyTheFree(Holds(map[], 0), w.log[i].funding.Id());
  }
}
