/**
  What a source that only withholds spends can make of a resolution. The completeness check sees a
  lineage coin whose spend is missing; a launch whose own spend is missing it does not, and that store
  is read as absent. Here is exactly when the answer is still the true one.
*/
module WithheldSpends {
  import opened Base
  import opened Funding
  import opened Resolver

  /** `served` says what `truth` says, except that it may not serve, or fail to read, some spends. */
  ghost predicate Withholds(served: Served, truth: Served) {
    && served.clvm == truth.clvm && served.order == truth.order
    && served.lineage == truth.lineage && served.record == truth.record
    && forall id :: served.spend(id) in {truth.spend(id), Answer(None), Unreadable}
  }

  /** Both spends behind a store are served as they are: its intermediate's, and the DID coin's that
      created the intermediate. */
  ghost predicate LaunchServed(served: Served, truth: Served, store: Id)
    requires store.Of? && store.parent.Of?
  {
    served.spend(store.parent) == truth.spend(store.parent) && served.spend(store.parent.parent) == truth.spend(store.parent.parent)
  }

  lemma CreatesWhereServed(served: Served, truth: Served, parent: Id, child: Coin)
    requires Withholds(served, truth)
    ensures Creates(served, parent, child) <==> Creates(truth, parent, child) && served.spend(parent) == truth.spend(parent)
  {
    if parent.Of? {
      assert CoinOf(parent).Id() == parent;
      assert served.spend(parent) in {truth.spend(parent), Answer(None), Unreadable};
    }
  }

  /** A withholding source shows exactly the live stores whose launches it serves. */
  lemma LiveWhereServed(served: Served, truth: Served, members: set<Id>, store: Id)
    requires Withholds(served, truth)
    ensures IsLiveStore(served, members, store)
            <==> IsLiveStore(truth, members, store) && LaunchServed(served, truth, store)
  {
    if store.Of? && store.parent.Of? {
      CreatesWhereServed(served, truth, store.parent, CoinOf(store));
      CreatesWhereServed(served, truth, store.parent.parent, CoinOf(store.parent));
    }
  }

  lemma SomeElement(s: seq<Id>)
    ensures s == [] || exists x :: x in s
  {
    if s != [] {
      assert s[0] in s;
    }
  }

  /** One set, listed in ascending order, is one list. */
  lemma {:induction false} AscendingIsUnique(a: seq<Id>, b: seq<Id>, order: Id -> nat)
    requires forall i, j :: 0 <= i < j < |a| ==> order(a[i]) < order(a[j])
    requires forall i, j :: 0 <= i < j < |b| ==> order(b[i]) < order(b[j])
    requires forall x :: x in a <==> x in b
    ensures a == b
  {
    SomeElement(a);
    SomeElement(b);
    if a != [] && b != [] {
      var m, n := |a| - 1, |b| - 1;
      assert a[m] in b && b[n] in a;
      var i :| 0 <= i < |b| && b[i] == a[m];
      var j :| 0 <= j < |a| && a[j] == b[n];
      assert a[m] == b[n];
      forall x ensures x in a[..m] <==> x in b[..n] {
        assert x in a[..m] ==> x != a[m];
        assert x in b[..n] ==> x != b[n];
        assert x in a <==> x in a[..m] || x == a[m];
        assert x in b <==> x in b[..n] || x == b[n];
      }
      AscendingIsUnique(a[..m], b[..n], order);
    }
  }

  /** An answer is determined by the live stores it is of. */
  lemma SameStoresSameAnswer(a: Served, b: Served, did: Id, members: set<Id>)
    requires Injective(a.order) && a.order == b.order && did in members
    requires a.lineage(did) == Answer(Some(members)) && b.lineage(did) == Answer(Some(members))
    requires Resolve(a, did).Ok? && Resolve(b, did).Ok?
    ensures Resolve(a, did) == Resolve(b, did)
            <==> forall store :: IsLiveStore(a, members, store) <==> IsLiveStore(b, members, store)
  {
    ResolutionIsExact(a, did, members);
    ResolutionIsExact(b, did, members);
    var x, y := Resolve(a, did).value, Resolve(b, did).value;
    if forall store :: IsLiveStore(a, members, store) <==> IsLiveStore(b, members, store) {
      assert x.Resolved? ==> IsLiveStore(a, members, x.storeLauncherId);
      assert y.Resolved? ==> IsLiveStore(b, members, y.storeLauncherId);
      assert x.Ambiguous? ==> x.stores[0] in x.stores && x.stores[1] in x.stores && x.stores[0] != x.stores[1];
      assert y.Ambiguous? ==> y.stores[0] in y.stores && y.stores[1] in y.stores && y.stores[0] != y.stores[1];
      if x.Ambiguous? && y.Ambiguous? {
        AscendingIsUnique(x.stores, y.stores, a.order);
      }
    }
  }

  /** So over a complete lineage, a withholding source gets the true answer exactly if it serves the
      launch of every live store. */
  lemma TrueExactlyWhenLaunchesAreServed(served: Served, truth: Served, did: Id, members: set<Id>)
    requires Withholds(served, truth) && Injective(truth.order)
    requires truth.lineage(did) == Answer(Some(members)) && did in members
    requires Resolve(served, did).Ok? && Resolve(truth, did).Ok?
    ensures Resolve(served, did) == Resolve(truth, did)
            <==> forall store :: IsLiveStore(truth, members, store) ==> LaunchServed(served, truth, store)
  {
    SameStoresSameAnswer(served, truth, did, members);
    forall store
      ensures IsLiveStore(served, members, store) <==> IsLiveStore(truth, members, store) && LaunchServed(served, truth, store)
    {
      LiveWhereServed(served, truth, members, store);
    }
  }

  /** A DID coin the lineage goes on from is one whose spend a successful resolution was served. */
  lemma LeftCoinIsServed(served: Served, truth: Served, did: Id, members: set<Id>, member: Id)
    requires Withholds(served, truth) && truth.lineage(did) == Answer(Some(members)) && did in members
    requires Resolve(served, did).Ok? && member in members && member != did && member.Of?
    ensures served.spend(member.parent) == truth.spend(member.parent)
  {
    var launcher := served.record(did).value.value;
    EnumerationIsComplete(served, members, launcher);
    WalkEstablishes(served, members, launcher, Start(launcher), |members|);
    CreatesWhereServed(served, truth, member.parent, CoinOf(member));
  }

  ghost predicate LeftBehind(members: set<Id>, did: Id, coin: Id) {
    exists member :: member in members && member != did && member.Of? && member.parent == coin
  }

  /** Where every launching DID coin has its successor in the lineage, as on an unspent tip's, that is
      down to the intermediates: their spends nothing checks for. */
  lemma TrueExactlyWhenIntermediatesAreServed(served: Served, truth: Served, did: Id, members: set<Id>)
    requires Withholds(served, truth) && Injective(truth.order)
    requires truth.lineage(did) == Answer(Some(members)) && did in members
    requires Resolve(served, did).Ok? && Resolve(truth, did).Ok?
    requires forall store :: IsLiveStore(truth, members, store) ==> LeftBehind(members, did, store.parent.parent)
    ensures Resolve(served, did) == Resolve(truth, did)
            <==> forall store :: IsLiveStore(truth, members, store) ==> served.spend(store.parent) == truth.spend(store.parent)
  {
    TrueExactlyWhenLaunchesAreServed(served, truth, did, members);
    forall store | IsLiveStore(truth, members, store)
      ensures served.spend(store.parent.parent) == truth.spend(store.parent.parent)
    {
      var member :| member in members && member != did && member.Of? && member.parent == store.parent.parent;
      LeftCoinIsServed(served, truth, did, members, member);
    }
  }

  // ---------- the failing input ----------

  const DID_LAUNCHER := Coin(Raw(1), SingletonLauncher, 1)
  const DID_COIN := Coin(DID_LAUNCHER.Id(), Standard(0), 1)
  const DID_TIP := Coin(DID_COIN.Id(), Standard(0), 1)

  /** A DID whose first coin launched a store; `whole` is whether the intermediate's spend is served. */
  function OneLaunch(whole: bool): Served {
    var intermediate := IntermediateCoin(DID_COIN.Id());
    Served(
      Clvm((p: Puzzle) => if p.text == 0 then Standard(0) else if p.text == 1 then ProfileIntermediate else SingletonLauncher,
           (p: Puzzle, solution: nat) =>
             if p.text == 0 then Some([(Standard(0), 1), (ProfileIntermediate, 0)])
             else if p.text == 1 then Some([(SingletonLauncher, 1)])
             else Some([(Standard(0), 1)])),
      (id: Id) => IdSize(id),
      (id: Id) => Answer(Some({DID_LAUNCHER.Id(), DID_COIN.Id(), DID_TIP.Id()})),
      (id: Id) => if id.Of? then Answer(Some(CoinOf(id))) else Answer(None),
      (id: Id) =>
        if id == DID_LAUNCHER.Id() then Answer(Some(ServedSpend(DID_LAUNCHER, Puzzle(2), 0)))
        else if id == DID_COIN.Id() then Answer(Some(ServedSpend(DID_COIN, Puzzle(0), 0)))
        else if id == intermediate.Id() && whole then Answer(Some(ServedSpend(intermediate, Puzzle(1), 0)))
        else Answer(None))
  }

  /** Withheld, that one spend turns a store into none, over a lineage that is served whole. */
  lemma WithheldIntermediateReadsAsNoStore()
    ensures Withholds(OneLaunch(false), OneLaunch(true))
    ensures Resolve(OneLaunch(true), DID_LAUNCHER.Id()) == Ok(Resolved(StoreLauncher(DID_COIN.Id()).Id(), DID_COIN.Id()))
    ensures Resolve(OneLaunch(false), DID_LAUNCHER.Id()) == Ok(NoProfileStore)
  {
    OneLaunchWalk(true);
    OneLaunchWalk(false);
  }

  lemma OneLaunchWalk(whole: bool)
    ensures var served := OneLaunch(whole);
            var launches := [(DID_COIN.Id(), IntermediateCoin(DID_COIN.Id()))];
            && ProfileIntermediates(served, {DID_LAUNCHER.Id(), DID_COIN.Id(), DID_TIP.Id()}, DID_LAUNCHER) == Ok(launches)
            && CollectLive(served, launches)
               == Ok(if whole then [(StoreLauncher(DID_COIN.Id()).Id(), DID_COIN.Id())] else [])
  {
    var served, members := OneLaunch(whole), {DID_LAUNCHER.Id(), DID_COIN.Id(), DID_TIP.Id()};
    var launches := [(DID_COIN.Id(), IntermediateCoin(DID_COIN.Id()))];
    OneLaunchSpends(whole);
    OneLaunchTurns(whole);
    TwoOnThenStop(served, members, Start(DID_LAUNCHER), Walk([], {DID_LAUNCHER.Id(), DID_COIN.Id()}, DID_COIN), Walk(launches, members, DID_TIP));
    assert |members| == 3;
    OneLaunchCollects(whole);
  }

  lemma TwoOnThenStop(served: Served, members: set<Id>, a: Walk, b: Walk, c: Walk)
    requires TakeTurn(served, members, a) == Ok(GoOn(b)) && TakeTurn(served, members, b) == Ok(GoOn(c))
    requires TakeTurn(served, members, c) == Ok(Stop(c))
    ensures WalkFrom(served, members, a, 3) == Ok(c)
  {
    assert WalkFrom(served, members, c, 1) == Ok(c);
    assert WalkFrom(served, members, b, 2) == Ok(c);
  }

  lemma OneLaunchTurns(whole: bool)
    ensures var served, members := OneLaunch(whole), {DID_LAUNCHER.Id(), DID_COIN.Id(), DID_TIP.Id()};
            var first := Walk([], {DID_LAUNCHER.Id(), DID_COIN.Id()}, DID_COIN);
            var second := Walk([(DID_COIN.Id(), IntermediateCoin(DID_COIN.Id()))], members, DID_TIP);
            && TakeTurn(served, members, Start(DID_LAUNCHER)) == Ok(GoOn(first))
            && TakeTurn(served, members, first) == Ok(GoOn(second))
            && TakeTurn(served, members, second) == Ok(Stop(second))
  {
    var served, members := OneLaunch(whole), {DID_LAUNCHER.Id(), DID_COIN.Id(), DID_TIP.Id()};
    var first := Walk([], {DID_LAUNCHER.Id(), DID_COIN.Id()}, DID_COIN);
    OneLaunchSpends(whole);
    GoesOn(served, members, Start(DID_LAUNCHER), DID_COIN, []);
    GoesOn(served, members, first, DID_TIP, [IntermediateCoin(DID_COIN.Id())]);
    assert Tagged(DID_LAUNCHER, []) == [];
    assert Tagged(DID_COIN, [IntermediateCoin(DID_COIN.Id())]) == [(DID_COIN.Id(), IntermediateCoin(DID_COIN.Id()))];
    assert {DID_LAUNCHER.Id()} + {DID_COIN.Id()} == first.visited && first.visited + {DID_TIP.Id()} == members;
  }

  /** The turn at a coin that recreates itself and launches at most once beside. */
  lemma GoesOn(served: Served, members: set<Id>, w: Walk, next: Coin, launch: seq<Coin>)
    requires Children(served, w.current) == Ok(Some([next] + launch)) && w.launches == [] && next.Id() !in w.visited
    requires !IsIntermediate(next) && next.Id() in members
    requires |launch| <= 1 && forall c :: c in launch ==> IsIntermediate(c) && c.Id() !in members
    ensures TakeTurn(served, members, w)
            == Ok(GoOn(Walk(Tagged(w.current, launch), w.visited + {next.Id()}, next)))
  {
    Sifted(next, launch, members);
    assert w.launches + Tagged(w.current, launch) == Tagged(w.current, launch);
  }

  /** A singleton's recreation and the launch beside it, told apart. */
  lemma Sifted(next: Coin, launch: seq<Coin>, members: set<Id>)
    requires !IsIntermediate(next) && next.Id() in members
    requires |launch| <= 1 && forall c :: c in launch ==> IsIntermediate(c) && c.Id() !in members
    ensures Intermediates([next] + launch) == launch && Successors([next] + launch, members) == [next]
  {
    assert [next][..0] == [];
    assert Intermediates([next]) == [] && Successors([next], members) == [next];
    if launch == [] {
      assert [next] + launch == [next];
    } else {
      assert ([next] + launch)[..1] == [next] && launch == [launch[0]];
    }
  }

  lemma OneLaunchCollects(whole: bool)
    ensures CollectLive(OneLaunch(whole), [(DID_COIN.Id(), IntermediateCoin(DID_COIN.Id()))])
            == Ok(if whole then [(StoreLauncher(DID_COIN.Id()).Id(), DID_COIN.Id())] else [])
  {
    var served, intermediate := OneLaunch(whole), IntermediateCoin(DID_COIN.Id());
    var launches := [(DID_COIN.Id(), intermediate)];
    OneLaunchSpends(whole);
    assert launches[..0] == [] && [StoreLauncher(DID_COIN.Id())][..0] == [];
    assert LauncherCreatedBy(served, intermediate) == Ok(if whole then Some(StoreLauncher(DID_COIN.Id()).Id()) else None);
    assert CollectLive(served, []) == Ok([]);
  }

  lemma OneLaunchIds()
    ensures var intermediate := IntermediateCoin(DID_COIN.Id());
            && DID_LAUNCHER.Id() != DID_COIN.Id() && DID_COIN.Id() != DID_TIP.Id() && DID_LAUNCHER.Id() != DID_TIP.Id()
            && intermediate.Id() !in {DID_LAUNCHER.Id(), DID_COIN.Id(), DID_TIP.Id()}
  {
    ChildIsLonger(DID_LAUNCHER, DID_COIN);
    ChildIsLonger(DID_COIN, DID_TIP);
    ChildIsLonger(DID_COIN, IntermediateCoin(DID_COIN.Id()));
  }

  /** What a coin's served spend creates. */
  lemma ServedChildren(served: Served, spend: ServedSpend, created: seq<(PuzzleHash, u64)>, children: seq<Coin>)
    requires served.spend(spend.coin.Id()) == Answer(Some(spend))
    requires served.clvm.treeHash(spend.puzzle) == spend.coin.puzzleHash
    requires served.clvm.run(spend.puzzle, spend.solution) == Some(created) && |created| == |children|
    requires forall i :: 0 <= i < |created| ==> children[i] == Coin(spend.coin.Id(), created[i].0, created[i].1)
    ensures Children(served, spend.coin) == Ok(Some(children))
  {
    assert Children(served, spend.coin).value.value == children;
  }

  lemma OneLaunchSpends(whole: bool)
    ensures var served, intermediate := OneLaunch(whole), IntermediateCoin(DID_COIN.Id());
            && DID_LAUNCHER.Id() != DID_COIN.Id() && DID_COIN.Id() != DID_TIP.Id() && DID_LAUNCHER.Id() != DID_TIP.Id()
            && intermediate.Id() !in {DID_LAUNCHER.Id(), DID_COIN.Id(), DID_TIP.Id()}
            && Children(served, DID_LAUNCHER) == Ok(Some([DID_COIN] + []))
            && Children(served, DID_COIN) == Ok(Some([DID_TIP] + [intermediate]))
            && Children(served, DID_TIP) == Ok(None)
            && Children(served, intermediate) == Ok(if whole then Some([StoreLauncher(DID_COIN.Id())]) else None)
  {
    var served, intermediate := OneLaunch(whole), IntermediateCoin(DID_COIN.Id());
    OneLaunchIds();
    ServedChildren(served, ServedSpend(DID_LAUNCHER, Puzzle(2), 0), [(Standard(0), 1)], [DID_COIN] + []);
    ServedChildren(served, ServedSpend(DID_COIN, Puzzle(0), 0), [(Standard(0), 1), (ProfileIntermediate, 0)], [DID_TIP] + [intermediate]);
    if whole {
      ServedChildren(served, ServedSpend(intermediate, Puzzle(1), 0), [(SingletonLauncher, 1)], [StoreLauncher(DID_COIN.Id())]);
    }
  }
}
