/**
  Resolving a profile's store from its DID by lineage: a bounded walk over spends an untrusted
  source serves, admitted against the canonical lineage, and proved equal to a declarative set.
*/
module Resolver {
  import opened Base
  import opened Funding

  const MAX_PROFILE_LAUNCHES_PER_DID: nat := 8

  /** A puzzle reveal and a solution, as the source serves them; neither is trusted. */
  datatype Puzzle = Puzzle(text: nat)

  datatype ServedSpend = ServedSpend(coin: Coin, puzzle: Puzzle, solution: nat)

  /** The evaluator: the hash a reveal has, and the `(puzzle hash, amount)` pairs running it on a
      solution creates, or nothing when it is oversized, does not decode or does not evaluate. */
  datatype Clvm = Clvm(
    treeHash: Puzzle -> PuzzleHash,
    run: (Puzzle, nat) -> Option<seq<(PuzzleHash, u64)>>)

  /** The reads the resolver makes. A lineage is the set of coin ids the canonical walk vouches
      for; `order` is the numeric value of an id's bytes, by which ids compare. */
  datatype Served = Served(
    clvm: Clvm,
    order: Id -> nat,
    lineage: Id -> Read<Option<set<Id>>>,
    record: Id -> Read<Option<Coin>>,
    spend: Id -> Read<Option<ServedSpend>>)

  datatype Untrusted =
    | LauncherUnknown | WrongSpend | BadReveal | TwoSuccessors | Cycle | PartialLineage | TwoLaunchers

  datatype ResolveError =
    | NoIdentitySingleton
    | Unreachable
    | Unparseable(why: Untrusted)
    | TooManyLaunches

  datatype Resolution =
    | Resolved(storeLauncherId: Id, didCoinId: Id)
    | NoProfileStore
    | Ambiguous(stores: seq<Id>)

  // ---------- the reads ----------

  /** `created_coins`: the reveal is bound to the coin before it is run. */
  function CreatedCoins(clvm: Clvm, spend: ServedSpend): Result<seq<(PuzzleHash, u64)>, ResolveError> {
    if clvm.treeHash(spend.puzzle) != spend.coin.puzzleHash then Err(Unparseable(BadReveal))
    else match clvm.run(spend.puzzle, spend.solution)
      case None => Err(Unparseable(BadReveal))
      case Some(created) => Ok(created)
  }

  /** `read_spend_of`. */
  function ReadSpendOf(served: Served, coin: Coin): Result<Option<ServedSpend>, ResolveError> {
    match served.spend(coin.Id())
    case Unreadable => Err(Unreachable)
    case Answer(None) => Ok(None)
    case Answer(Some(spend)) => if spend.coin != coin then Err(Unparseable(WrongSpend)) else Ok(Some(spend))
  }

  /** The children of `coin`, or none when no spend of it is served. */
  function Children(served: Served, coin: Coin): Result<Option<seq<Coin>>, ResolveError> {
    match ReadSpendOf(served, coin)
    case Err(e) => Err(e)
    case Ok(None) => Ok(None)
    case Ok(Some(spend)) =>
      match CreatedCoins(served.clvm, spend)
      case Err(e) => Err(e)
      case Ok(created) =>
        Ok(Some(seq(|created|, i requires 0 <= i < |created| => Coin(coin.Id(), created[i].0, created[i].1))))
  }

  predicate IsIntermediate(c: Coin) {
    c.puzzleHash == ProfileIntermediate && c.amount == INTERMEDIATE_AMOUNT
  }

  predicate IsLauncher(c: Coin) {
    c.puzzleHash == SingletonLauncher && c.amount == LAUNCHER_AMOUNT
  }

  /** The profile intermediates among `children`, in order. */
  function Intermediates(children: seq<Coin>): seq<Coin> {
    if children == [] then []
    else
      var n := |children| - 1;
      Intermediates(children[..n]) + if IsIntermediate(children[n]) then [children[n]] else []
  }

  /** The children the canonical walk vouches for, in order. */
  function Successors(children: seq<Coin>, members: set<Id>): seq<Coin> {
    if children == [] then []
    else
      var n := |children| - 1;
      Successors(children[..n], members) + if children[n].Id() in members then [children[n]] else []
  }

  lemma {:induction false} IntermediatesAre(children: seq<Coin>, c: Coin)
    ensures c in Intermediates(children) <==> c in children && IsIntermediate(c)
  {
    if children != [] {
      var n := |children| - 1;
      IntermediatesAre(children[..n], c);
      assert c in children <==> c in children[..n] || c == children[n];
    }
  }

  lemma {:induction false} SuccessorsAre(children: seq<Coin>, members: set<Id>, c: Coin)
    ensures c in Successors(children, members) <==> c in children && c.Id() in members
  {
    if children != [] {
      var n := |children| - 1;
      SuccessorsAre(children[..n], members, c);
      assert c in children <==> c in children[..n] || c == children[n];
    }
  }

  lemma {:induction false} IntermediatesGrow(children: seq<Coin>, n: nat)
    requires n <= |children|
    ensures |Intermediates(children[..n])| <= |Intermediates(children)|
  {
    if n == |children| {
      assert children[..n] == children;
    } else {
      var m := |children| - 1;
      assert children[..n] == children[..m][..n];
      IntermediatesGrow(children[..m], n);
    }
  }

  // ---------- the walk ----------

  datatype Walk = Walk(launches: seq<(Id, Coin)>, visited: set<Id>, current: Coin)

  function Tagged(coin: Coin, intermediates: seq<Coin>): seq<(Id, Coin)> {
    seq(|intermediates|, i requires 0 <= i < |intermediates| => (coin.Id(), intermediates[i]))
  }

  /** One turn of the loop: stop with what is known, or go on from a successor. */
  datatype Turn = Stop(walk: Walk) | GoOn(walk: Walk)

  function TakeTurn(served: Served, members: set<Id>, w: Walk): Result<Turn, ResolveError> {
    match Children(served, w.current)
    case Err(e) => Err(e)
    case Ok(None) => Ok(Stop(w))
    case Ok(Some(children)) =>
      var launches := w.launches + Tagged(w.current, Intermediates(children));
      var next := Successors(children, members);
      if |launches| > MAX_PROFILE_LAUNCHES_PER_DID then Err(TooManyLaunches)
      else if |next| == 0 then Ok(Stop(w.(launches := launches)))
      else if |next| > 1 then Err(Unparseable(TwoSuccessors))
      else if next[0].Id() in w.visited then Err(Unparseable(Cycle))
      else Ok(GoOn(Walk(launches, w.visited + {next[0].Id()}, next[0])))
  }

  /** The enumeration, at most `steps` coins further. */
  function WalkFrom(served: Served, members: set<Id>, w: Walk, steps: nat): Result<Walk, ResolveError>
    decreases steps
  {
    if steps == 0 then Ok(w)
    else match TakeTurn(served, members, w)
      case Err(e) => Err(e)
      case Ok(Stop(ended)) => Ok(ended)
      case Ok(GoOn(onward)) => WalkFrom(served, members, onward, steps - 1)
  }

  function Start(launcher: Coin): Walk {
    Walk([], {launcher.Id()}, launcher)
  }

  /** `profile_intermediates`: the walk, and the completeness check that makes an absence one. */
  function ProfileIntermediates(served: Served, members: set<Id>, launcher: Coin): Result<seq<(Id, Coin)>, ResolveError> {
    match WalkFrom(served, members, Start(launcher), |members|)
    case Err(e) => Err(e)
    case Ok(w) => if |w.visited| != |members| then Err(Unparseable(PartialLineage)) else Ok(w.launches)
  }

  method EnumerateIntermediates(served: Served, members: set<Id>, launcher: Coin)
    returns (r: Result<seq<(Id, Coin)>, ResolveError>)
    ensures r == ProfileIntermediates(served, members, launcher)
  {
    var intermediates: seq<(Id, Coin)> := [];
    var visited := {launcher.Id()};
    var current := launcher;
    var left: nat := |members|;
    while left > 0
      invariant WalkFrom(served, members, Start(launcher), |members|)
                == WalkFrom(served, members, Walk(intermediates, visited, current), left)
      invariant |intermediates| <= MAX_PROFILE_LAUNCHES_PER_DID
    {
      var children := Children(served, current);
      if children.Err? {
        return Err(children.error);
      }
      if children.value.None? {
        break;
      }
      var created := children.value.value;
      var before := intermediates;
      var successors: seq<Coin> := [];
      for i := 0 to |created|
        invariant intermediates == before + Tagged(current, Intermediates(created[..i]))
        invariant successors == Successors(created[..i], members)
        invariant |intermediates| <= MAX_PROFILE_LAUNCHES_PER_DID
      {
        var child := created[i];
        assert created[..i + 1][..i] == created[..i];
        if IsIntermediate(child) {
          if |intermediates| == MAX_PROFILE_LAUNCHES_PER_DID {
            IntermediatesGrow(created, i + 1);
            return Err(TooManyLaunches);
          }
          intermediates := intermediates + [(current.Id(), child)];
        }
        if child.Id() in members {
          successors := successors + [child];
        }
      }
      assert created[..|created|] == created;
      if |successors| == 0 {
        break;
      }
      if |successors| > 1 {
        return Err(Unparseable(TwoSuccessors));
      }
      if successors[0].Id() in visited {
        return Err(Unparseable(Cycle));
      }
      visited := visited + {successors[0].Id()};
      current := successors[0];
      left := left - 1;
    }
    assert WalkFrom(served, members, Start(launcher), |members|) == Ok(Walk(intermediates, visited, current));
    if |visited| != |members| {
      return Err(Unparseable(PartialLineage));
    }
    return Ok(intermediates);
  }


  // ---------- what the walk establishes ----------

  /** The source serves a spend of `parent` that creates `child`. */
  predicate Creates(served: Served, parent: Id, child: Coin) {
    && parent.Of?
    && Children(served, CoinOf(parent)).Ok? && Children(served, CoinOf(parent)).value.Some?
    && child in Children(served, CoinOf(parent)).value.value
  }

  /** `launch` is an intermediate created by a coin in `coins`. */
  predicate Launches(served: Served, coins: set<Id>, launch: (Id, Coin)) {
    launch.0 in coins && Creates(served, launch.0, launch.1) && IsIntermediate(launch.1)
  }

  /** Every visited coin but the launcher was created by the served spend of another visited coin,
      ids grow along the walk, and the launches listed are those of every coin already left. */
  ghost predicate OnPath(served: Served, members: set<Id>, launcher: Coin, w: Walk) {
    && launcher.Id() in w.visited && w.current.Id() in w.visited
    && w.visited <= members + {launcher.Id()}
    && (forall id :: id in w.visited ==> id.Of? && IdSize(id) <= IdSize(w.current.Id()))
    && (forall id :: id in w.visited && id != launcher.Id() ==>
          id.parent in w.visited && Creates(served, id.parent, CoinOf(id)))
    && |w.launches| <= MAX_PROFILE_LAUNCHES_PER_DID
  }

  ghost predicate Collected(served: Served, coins: set<Id>, launches: seq<(Id, Coin)>) {
    forall l :: l in launches <==> Launches(served, coins, l)
  }

  lemma TaggedAre(coin: Coin, intermediates: seq<Coin>, l: (Id, Coin))
    ensures l in Tagged(coin, intermediates) <==> l.0 == coin.Id() && l.1 in intermediates
  {
    if l.0 == coin.Id() && l.1 in intermediates {
      var i :| 0 <= i < |intermediates| && intermediates[i] == l.1;
      assert Tagged(coin, intermediates)[i] == l;
    }
  }

  /** Leaving `current` adds exactly its own launches. */
  lemma LeavingCollects(served: Served, w: Walk, children: seq<Coin>)
    requires Children(served, w.current) == Ok(Some(children)) && w.current.Id() in w.visited
    requires Collected(served, Left(w), w.launches)
    ensures Collected(served, w.visited, w.launches + Tagged(w.current, Intermediates(children)))
  {
    var launches := w.launches + Tagged(w.current, Intermediates(children));
    forall l ensures l in launches <==> Launches(served, w.visited, l) {
      TaggedAre(w.current, Intermediates(children), l);
      IntermediatesAre(children, l.1);
    }
  }

  /** An unserved spend contributes nothing. */
  lemma StoppingCollects(served: Served, w: Walk)
    requires Children(served, w.current) == Ok(None)
    requires Collected(served, Left(w), w.launches)
    ensures Collected(served, w.visited, w.launches)
  {
    forall l ensures Launches(served, w.visited, l) <==> Launches(served, Left(w), l) {
    }
  }

  /** The visited coins the walk has already left. */
  function Left(w: Walk): set<Id> {
    w.visited - {w.current.Id()}
  }

  /** The walk after stepping onto `next`. */
  function Step(w: Walk, children: seq<Coin>, next: Coin): Walk {
    Walk(w.launches + Tagged(w.current, Intermediates(children)), w.visited + {next.Id()}, next)
  }

  /** A successor is a child of the current coin, hence a longer id than any visited one. */
  lemma StepStaysOnPath(served: Served, members: set<Id>, launcher: Coin, w: Walk, children: seq<Coin>, next: Coin)
    requires OnPath(served, members, launcher, w)
    requires Children(served, w.current) == Ok(Some(children)) && next in Successors(children, members)
    requires |Step(w, children, next).launches| <= MAX_PROFILE_LAUNCHES_PER_DID
    ensures next.Id() !in w.visited && Left(Step(w, children, next)) == w.visited
    ensures OnPath(served, members, launcher, Step(w, children, next))
  {
    SuccessorsAre(children, members, next);
    assert Creates(served, w.current.Id(), next);
    assert next.parent == w.current.Id();
    assert IdSize(next.Id()) == IdSize(w.current.Id()) + 1;
  }

  /** What a finished walk guarantees; only one that ran out of steps may have work left. */
  ghost predicate Finished(served: Served, members: set<Id>, launcher: Coin, limit: nat, w: Walk) {
    && OnPath(served, members, launcher, w)
    && |w.visited| <= limit
    && (|w.visited| < limit ==> Collected(served, w.visited, w.launches))
  }

  /** A turn never meets a coin twice; stopping, it has collected everything visited; going on, it
      has collected everything behind it. */
  lemma TurnEstablishes(served: Served, members: set<Id>, launcher: Coin, w: Walk)
    requires OnPath(served, members, launcher, w) && Collected(served, Left(w), w.launches)
    ensures match TakeTurn(served, members, w)
            case Err(e) => e != Unparseable(Cycle)
            case Ok(Stop(ended)) => forall limit :: |w.visited| <= limit ==> Finished(served, members, launcher, limit, ended)
            case Ok(GoOn(onward)) =>
              && |onward.visited| == |w.visited| + 1
              && OnPath(served, members, launcher, onward) && Collected(served, Left(onward), onward.launches)
  {
    var children := Children(served, w.current);
    if children.Ok? && children.value.None? {
      StoppingCollects(served, w);
    } else if children.Ok? {
      var kids := children.value.value;
      var next := Successors(kids, members);
      LeavingCollects(served, w, kids);
      if |w.launches + Tagged(w.current, Intermediates(kids))| <= MAX_PROFILE_LAUNCHES_PER_DID && |next| == 1 {
        StepStaysOnPath(served, members, launcher, w, kids, next[0]);
        assert Step(w, kids, next[0]).visited == w.visited + {next[0].Id()};
      }
    }
  }

  lemma {:induction false} WalkEstablishes(served: Served, members: set<Id>, launcher: Coin, w: Walk, steps: nat)
    requires OnPath(served, members, launcher, w) && Collected(served, Left(w), w.launches)
    ensures var r := WalkFrom(served, members, w, steps);
            && r != Err(Unparseable(Cycle))
            && (r.Ok? ==> Finished(served, members, launcher, |w.visited| + steps, r.value))
    decreases steps
  {
    if steps > 0 {
      TurnEstablishes(served, members, launcher, w);
      var turn := TakeTurn(served, members, w);
      if turn.Ok? && turn.value.GoOn? {
        WalkEstablishes(served, members, launcher, turn.value.walk, steps - 1);
        assert WalkFrom(served, members, w, steps) == WalkFrom(served, members, turn.value.walk, steps - 1);
      }
    } else {
      assert Finished(served, members, launcher, |w.visited|, w);
    }
  }

  /** When the enumeration succeeds it has visited exactly the lineage, and its list is exactly the
      profile launches of the lineage's coins: nothing invented, nothing missed. */
  lemma EnumerationIsComplete(served: Served, members: set<Id>, launcher: Coin)
    requires launcher.Id() in members && ProfileIntermediates(served, members, launcher).Ok?
    ensures Collected(served, members, ProfileIntermediates(served, members, launcher).value)
    ensures |ProfileIntermediates(served, members, launcher).value| <= MAX_PROFILE_LAUNCHES_PER_DID
    ensures WalkFrom(served, members, Start(launcher), |members|).value.visited == members
  {
    WalkEstablishes(served, members, launcher, Start(launcher), |members|);
    var w := WalkFrom(served, members, Start(launcher), |members|).value;
    assert w.visited <= members;
    SameSizeSubset(w.visited, members);
  }

  lemma SameSizeSubset(a: set<Id>, b: set<Id>)
    requires a <= b && |a| == |b|
    ensures a == b
  {
    assert b == a + (b - a);
    assert |b| == |a| + |b - a|;
  }

  /** Ids commit to their ancestors, so the walk can never meet a coin twice: the cycle branch is
      unreachable against any source. */
  lemma NoCycle(served: Served, members: set<Id>, launcher: Coin)
    ensures ProfileIntermediates(served, members, launcher) != Err(Unparseable(Cycle))
  {
    WalkEstablishes(served, members, launcher, Start(launcher), |members|);
  }

  /** A withheld spend is never an absence: if any member's parent spend is not served, the
      enumeration refuses. */
  lemma WithheldSpendRefuses(served: Served, members: set<Id>, launcher: Coin, member: Id)
    requires launcher.Id() in members && member in members && member != launcher.Id() && member.Of?
    requires served.spend(member.parent) == Answer(None)
    ensures ProfileIntermediates(served, members, launcher).Err?
  {
    assert !Creates(served, member.parent, CoinOf(member));
    WalkEstablishes(served, members, launcher, Start(launcher), |members|);
    if ProfileIntermediates(served, members, launcher).Ok? {
      EnumerationIsComplete(served, members, launcher);
    }
  }

  // ---------- the resolution ----------

  /** `launcher_created_by`. */
  function LauncherCreatedBy(served: Served, intermediate: Coin): Result<Option<Id>, ResolveError> {
    match Children(served, intermediate)
    case Err(e) => Err(e)
    case Ok(None) => Ok(None)
    case Ok(Some(children)) =>
      var launchers := Launchers(children);
      if |launchers| == 0 then Ok(None)
      else if |launchers| == 1 then Ok(Some(launchers[0].Id()))
      else Err(Unparseable(TwoLaunchers))
  }

  function Launchers(children: seq<Coin>): seq<Coin> {
    if children == [] then []
    else
      var n := |children| - 1;
      Launchers(children[..n]) + if IsLauncher(children[n]) then [children[n]] else []
  }

  lemma {:induction false} LaunchersAre(children: seq<Coin>, c: Coin)
    ensures c in Launchers(children) <==> c in children && IsLauncher(c)
  {
    if children != [] {
      var n := |children| - 1;
      LaunchersAre(children[..n], c);
      assert c in children <==> c in children[..n] || c == children[n];
    }
  }

  /** An ordered map, as the ascending list of its entries. */
  type Entries = seq<(Id, Id)>

  function Insert(m: Entries, order: Id -> nat, key: Id, value: Id): Entries {
    if m == [] then [(key, value)]
    else if m[0].0 == key then [(key, value)] + m[1..]
    else if order(key) < order(m[0].0) then [(key, value)] + m
    else [m[0]] + Insert(m[1..], order, key, value)
  }

  predicate Ascending(m: Entries, order: Id -> nat) {
    |m| < 2 || (order(m[0].0) < order(m[1].0) && Ascending(m[1..], order))
  }

  lemma {:induction false} AscendingThroughout(m: Entries, order: Id -> nat, i: nat, j: nat)
    requires Ascending(m, order) && i < j < |m|
    ensures order(m[i].0) < order(m[j].0)
  {
    if i > 0 {
      AscendingThroughout(m[1..], order, i - 1, j - 1);
    } else if j > 1 {
      AscendingThroughout(m[1..], order, 0, j - 1);
    }
  }

  ghost predicate Injective(order: Id -> nat) {
    forall a, b :: order(a) == order(b) ==> a == b
  }

  lemma {:induction false} InsertHolds(m: Entries, order: Id -> nat, key: Id, value: Id, e: (Id, Id))
    requires Ascending(m, order) && Injective(order)
    ensures e in Insert(m, order, key, value) <==> e == (key, value) || (e in m && e.0 != key)
  {
    if m != [] {
      assert e in m <==> e == m[0] || e in m[1..];
      InsertHolds(m[1..], order, key, value, e);
      if i :| 0 < i < |m| && m[i] == e {
        AscendingThroughout(m, order, 0, i);
      }
    }
  }

  lemma {:induction false} InsertKeepsOrder(m: Entries, order: Id -> nat, key: Id, value: Id)
    requires Ascending(m, order) && Injective(order)
    ensures Ascending(Insert(m, order, key, value), order)
  {
    if m != [] {
      InsertKeepsOrder(m[1..], order, key, value);
      var m' := Insert(m, order, key, value);
      if m[0].0 != key && order(key) >= order(m[0].0) {
        assert order(key) != order(m[0].0);
        assert m'[1..] == Insert(m[1..], order, key, value);
      } else {
        assert m'[1..] == if m[0].0 == key then m[1..] else m;
      }
    }
  }

  /** One launch's contribution: its launcher, if it was created and still names a live singleton. */
  function LiveStore(served: Served, launch: (Id, Coin)): Result<Option<Id>, ResolveError> {
    match LauncherCreatedBy(served, launch.1)
    case Err(e) => Err(e)
    case Ok(None) => Ok(None)
    case Ok(Some(store)) =>
      match served.lineage(store)
      case Unreadable => Err(Unreachable)
      case Answer(None) => Ok(None)
      case Answer(Some(_)) => Ok(Some(store))
  }

  function CollectLive(served: Served, launches: seq<(Id, Coin)>): Result<Entries, ResolveError> {
    if launches == [] then Ok([])
    else
      var n := |launches| - 1;
      match CollectLive(served, launches[..n])
      case Err(e) => Err(e)
      case Ok(live) =>
        match LiveStore(served, launches[n])
        case Err(e) => Err(e)
        case Ok(None) => Ok(live)
        case Ok(Some(store)) => Ok(Insert(live, served.order, store, launches[n].0))
  }

  function Keys(m: Entries): seq<Id> {
    seq(|m|, i requires 0 <= i < |m| => m[i].0)
  }

  function Answered(live: Entries): Resolution {
    if |live| == 0 then NoProfileStore
    else if |live| == 1 then Resolved(live[0].0, live[0].1)
    else Ambiguous(Keys(live))
  }

  /** `resolve_profile_store`. */
  function Resolve(served: Served, did: Id): Result<Resolution, ResolveError> {
    match served.lineage(did)
    case Unreadable => Err(Unreachable)
    case Answer(None) => Err(NoIdentitySingleton)
    case Answer(Some(members)) =>
      match served.record(did)
      case Unreadable => Err(Unreachable)
      case Answer(None) => Err(Unparseable(LauncherUnknown))
      case Answer(Some(launcher)) =>
        if launcher.Id() != did then Err(Unparseable(LauncherUnknown))
        else match ProfileIntermediates(served, members, launcher)
          case Err(e) => Err(e)
          case Ok(launches) =>
            match CollectLive(served, launches)
            case Err(e) => Err(e)
            case Ok(live) => Ok(Answered(live))
  }

  method ResolveProfileStore(served: Served, did: Id) returns (r: Result<Resolution, ResolveError>)
    ensures r == Resolve(served, did)
  {
    var lineage := served.lineage(did);
    if lineage.Unreadable? {
      return Err(Unreachable);
    }
    if lineage.value.None? {
      return Err(NoIdentitySingleton);
    }
    var launcher := served.record(did);
    if launcher.Unreadable? {
      return Err(Unreachable);
    }
    if launcher.value.None? || launcher.value.value.Id() != did {
      return Err(Unparseable(LauncherUnknown));
    }
    var launches := EnumerateIntermediates(served, lineage.value.value, launcher.value.value);
    if launches.Err? {
      return Err(launches.error);
    }
    var live: Entries := [];
    for i := 0 to |launches.value|
      invariant CollectLive(served, launches.value[..i]) == Ok(live)
    {
      assert launches.value[..i + 1][..i] == launches.value[..i];
      var (didCoinId, intermediate) := launches.value[i];
      var store := LauncherCreatedBy(served, intermediate);
      if store.Err? {
        CollectFails(served, launches.value, i);
        return Err(store.error);
      }
      if store.value.None? {
        continue;
      }
      var alive := served.lineage(store.value.value);
      if alive.Unreadable? {
        CollectFails(served, launches.value, i);
        return Err(Unreachable);
      }
      if alive.value.None? {
        continue;
      }
      live := Insert(live, served.order, store.value.value, didCoinId);
    }
    assert launches.value[..|launches.value|] == launches.value;
    return Ok(Answered(live));
  }

  /** The first launch that cannot be read decides the whole collection. */
  lemma {:induction false} CollectFails(served: Served, launches: seq<(Id, Coin)>, i: nat)
    requires i < |launches| && CollectLive(served, launches[..i]).Ok? && LiveStore(served, launches[i]).Err?
    ensures CollectLive(served, launches) == Err(LiveStore(served, launches[i]).error)
    decreases |launches|
  {
    var n := |launches| - 1;
    if i < n {
      assert launches[..n][..i] == launches[..i];
      CollectFails(served, launches[..n], i);
    }
  }

  /** The declarative answer: `store` is a live launcher two derived hops below a lineage coin. */
  ghost predicate IsLiveStore(served: Served, members: set<Id>, store: Id) {
    && store.Of? && IsLauncher(CoinOf(store))
    && store.parent.Of? && IsIntermediate(CoinOf(store.parent))
    && store.parent.parent in members
    && Creates(served, store.parent.parent, CoinOf(store.parent))
    && Creates(served, store.parent, CoinOf(store))
    && served.lineage(store).Answer? && served.lineage(store).value.Some?
  }

  lemma ChildrenKnowTheirParent(served: Served, parent: Id, child: Coin)
    requires Creates(served, parent, child)
    ensures child.parent == parent
  {
  }

  /** A launch contributes exactly the live store below it, and that store names its DID coin. */
  lemma LiveStoreIs(served: Served, members: set<Id>, launch: (Id, Coin), store: Id)
    requires Launches(served, members, launch) && LiveStore(served, launch).Ok?
    ensures LiveStore(served, launch).value == Some(store)
            <==> IsLiveStore(served, members, store) && store.parent == launch.1.Id()
    ensures LiveStore(served, launch).value == Some(store) ==> store.parent.parent == launch.0
  {
    ChildrenKnowTheirParent(served, launch.0, launch.1);
    var children := Children(served, launch.1);
    if children.value.Some? {
      var launchers := Launchers(children.value.value);
      if |launchers| == 1 {
        LaunchersAre(children.value.value, launchers[0]);
      }
      if store.Of? {
        LaunchersAre(children.value.value, CoinOf(store));
      }
    }
  }

  lemma {:induction false} CollectedStores(served: Served, members: set<Id>, launches: seq<(Id, Coin)>)
    requires Injective(served.order) && CollectLive(served, launches).Ok?
    requires forall l :: l in launches ==> Launches(served, members, l)
    ensures var live := CollectLive(served, launches).value;
            && Ascending(live, served.order)
            && forall e: (Id, Id) {:trigger e in live} :: e in live <==>
                 && IsLiveStore(served, members, e.0) && e.1 == e.0.parent.parent
                 && (e.1, CoinOf(e.0.parent)) in launches
  {
    if launches != [] {
      var n := |launches| - 1;
      var front, last := launches[..n], launches[n];
      assert forall l :: l in launches <==> l in front || l == last;
      CollectedStores(served, members, front);
      var live, live' := CollectLive(served, front).value, CollectLive(served, launches).value;
      assert Launches(served, members, last);
      if LiveStore(served, last).value.Some? {
        InsertKeepsOrder(live, served.order, LiveStore(served, last).value.value, last.0);
      }
      forall e: (Id, Id)
        ensures e in live' <==>
                && IsLiveStore(served, members, e.0) && e.1 == e.0.parent.parent
                && (e.1, CoinOf(e.0.parent)) in launches
      {
        if LiveStore(served, last).value.Some? {
          InsertHolds(live, served.order, LiveStore(served, last).value.value, last.0, e);
        }
        LiveStoreIs(served, members, last, e.0);
        if LiveStore(served, last).value.Some? {
          LiveStoreIs(served, members, last, LiveStore(served, last).value.value);
        }
        ChildrenKnowTheirParent(served, last.0, last.1);
      }
    }
  }

  lemma LiveStoresAreKeys(served: Served, members: set<Id>, launches: seq<(Id, Coin)>, live: Entries, s: Id)
    requires Collected(served, members, launches)
    requires forall e: (Id, Id) {:trigger e in live} :: e in live <==>
               && IsLiveStore(served, members, e.0) && e.1 == e.0.parent.parent
               && (e.1, CoinOf(e.0.parent)) in launches
    ensures IsLiveStore(served, members, s) <==> s in Keys(live)
  {
    if IsLiveStore(served, members, s) {
      assert Launches(served, members, (s.parent.parent, CoinOf(s.parent)));
      assert (s, s.parent.parent) in live;
      var i :| 0 <= i < |live| && live[i] == (s, s.parent.parent);
      assert Keys(live)[i] == s;
    }
    if s in Keys(live) {
      var i :| 0 <= i < |live| && Keys(live)[i] == s;
      assert live[i] in live;
    }
  }

  /** The resolver equals its declarative answer. Over a lineage that contains the DID's launcher,
      success means: no store exactly when no live store descends from the lineage; one store
      exactly when one does, with the DID coin that launched it; and otherwise the complete set of
      them, two or more, in strictly ascending order. */
  lemma ResolutionIsExact(served: Served, did: Id, members: set<Id>)
    requires Injective(served.order)
    requires served.lineage(did) == Answer(Some(members)) && did in members
    requires Resolve(served, did).Ok?
    ensures match Resolve(served, did).value
            case NoProfileStore => forall s :: !IsLiveStore(served, members, s)
            case Resolved(store, didCoinId) =>
              && (forall s :: IsLiveStore(served, members, s) <==> s == store)
              && store.Of? && store.parent.Of? && didCoinId == store.parent.parent && didCoinId in members
            case Ambiguous(stores) =>
              && |stores| >= 2
              && (forall s :: IsLiveStore(served, members, s) <==> s in stores)
              && forall i, j :: 0 <= i < j < |stores| ==> served.order(stores[i]) < served.order(stores[j])
  {
    var launcher := served.record(did).value.value;
    var launches := ProfileIntermediates(served, members, launcher).value;
    EnumerationIsComplete(served, members, launcher);
    CollectedStores(served, members, launches);
    var live := CollectLive(served, launches).value;
    forall s ensures IsLiveStore(served, members, s) <==> s in Keys(live) {
      LiveStoresAreKeys(served, members, launches, live, s);
    }
    forall i, j | 0 <= i < j < |live| ensures served.order(live[i].0) < served.order(live[j].0) {
      AscendingThroughout(live, served.order, i, j);
    }
    if |live| == 1 {
      assert live[0] in live && Keys(live) == [live[0].0];
    }
  }

  /** A source that omits the spend behind any lineage coin but the launcher gets no answer at
      all out of the resolver: an absence is never read off a partial lineage. Off a partial launch it
      is; see `WithheldSpends`. */
  lemma WithheldMemberSpendIsAnError(served: Served, did: Id, members: set<Id>, member: Id)
    requires served.lineage(did) == Answer(Some(members)) && did in members
    requires member in members && member != did && member.Of? && served.spend(member.parent) == Answer(None)
    ensures Resolve(served, did).Err?
  {
    var launcher := served.record(did);
    if launcher.Answer? && launcher.value.Some? && launcher.value.value.Id() == did {
      WithheldSpendRefuses(served, members, launcher.value.value, member);
    }
  }

  /** The store a profile mint launches is found again: whoever serves the DID coin's spend with
      the mint's intermediate, and that intermediate's spend with the mint's launcher, can only be
      answered with that store, alone or among the ones to choose from. */
  lemma MintedStoreIsFound(served: Served, did: Id, members: set<Id>, didCoin: Coin)
    requires Injective(served.order)
    requires served.lineage(did) == Answer(Some(members)) && did in members && didCoin.Id() in members
    requires Creates(served, didCoin.Id(), IntermediateCoin(didCoin.Id()))
    requires Creates(served, IntermediateCoin(didCoin.Id()).Id(), StoreLauncher(didCoin.Id()))
    requires served.lineage(StoreLauncher(didCoin.Id()).Id()).Answer?
    requires served.lineage(StoreLauncher(didCoin.Id()).Id()).value.Some?
    requires Resolve(served, did).Ok?
    ensures match Resolve(served, did).value
            case NoProfileStore => false
            case Resolved(store, launchedFrom) =>
              store == StoreLauncher(didCoin.Id()).Id() && launchedFrom == didCoin.Id()
            case Ambiguous(stores) => StoreLauncher(didCoin.Id()).Id() in stores
  {
    ResolutionIsExact(served, did, members);
    assert IsLiveStore(served, members, StoreLauncher(didCoin.Id()).Id());
  }

  // ---------- the launch bound ----------

  predicate Distinct<T(==)>(s: seq<T>) {
    forall i, j :: 0 <= i < j < |s| ==> s[i] != s[j]
  }

  lemma {:induction false} DistinctFits<T>(s: seq<T>, all: set<T>)
    requires Distinct(s) && forall x :: x in s ==> x in all
    ensures |s| <= |all|
  {
    if s != [] {
      var n := |s| - 1;
      DistinctFits(s[..n], all - {s[n]});
    }
  }

  /** Consensus refuses a spend that creates one coin twice. */
  ghost predicate NoDuplicateOutputs(served: Served) {
    forall coin :: Children(served, coin).Ok? && Children(served, coin).value.Some?
                   ==> Distinct(Children(served, coin).value.value)
  }

  lemma {:induction false} IntermediatesDistinct(children: seq<Coin>)
    requires Distinct(children)
    ensures Distinct(Intermediates(children))
  {
    if children != [] {
      var n := |children| - 1;
      IntermediatesDistinct(children[..n]);
      IntermediatesAre(children[..n], children[n]);
    }
  }

  /** The launches found so far are real and all different. */
  ghost predicate Found(served: Served, coins: set<Id>, launches: seq<(Id, Coin)>) {
    Distinct(launches) && forall l :: l in launches ==> Launches(served, coins, l)
  }

  lemma LeavingFinds(served: Served, coins: set<Id>, w: Walk, children: seq<Coin>)
    requires NoDuplicateOutputs(served) && Children(served, w.current) == Ok(Some(children))
    requires Found(served, coins, w.launches) && w.current.Id() !in coins
    ensures Found(served, coins + {w.current.Id()}, w.launches + Tagged(w.current, Intermediates(children)))
  {
    var own := Tagged(w.current, Intermediates(children));
    IntermediatesDistinct(children);
    forall l | l in w.launches + own ensures Launches(served, coins + {w.current.Id()}, l) {
      TaggedAre(w.current, Intermediates(children), l);
      IntermediatesAre(children, l.1);
    }
    assert forall i :: 0 <= i < |w.launches| ==> w.launches[i] in w.launches;
  }

  lemma {:induction false} TooManyAreReal(served: Served, members: set<Id>, launcher: Coin, w: Walk, steps: nat, all: set<(Id, Coin)>)
    requires NoDuplicateOutputs(served) && OnPath(served, members, launcher, w) && launcher.Id() in members
    requires Found(served, Left(w), w.launches)
    requires forall l :: Launches(served, members, l) ==> l in all
    requires |all| <= MAX_PROFILE_LAUNCHES_PER_DID
    ensures WalkFrom(served, members, w, steps) != Err(TooManyLaunches)
    decreases steps
  {
    var children := Children(served, w.current);
    if steps > 0 && children.Ok? && children.value.Some? {
      var kids := children.value.value;
      var next := Successors(kids, members);
      var launches := w.launches + Tagged(w.current, Intermediates(kids));
      LeavingFinds(served, Left(w), w, kids);
      assert Left(w) + {w.current.Id()} == w.visited;
      DistinctFits(launches, all);
      if |next| == 1 {
        StepStaysOnPath(served, members, launcher, w, kids, next[0]);
        TooManyAreReal(served, members, launcher, Step(w, kids, next[0]), steps - 1, all);
      }
    }
  }

  /** How many profile intermediates the walk meets, repetitions counted, if nothing bounds it. */
  function Met(served: Served, members: set<Id>, visited: set<Id>, coin: Coin, steps: nat): nat
    decreases steps
  {
    if steps == 0 then 0
    else match Children(served, coin)
      case Ok(Some(children)) =>
        var next := Successors(children, members);
        |Intermediates(children)|
        + (if |next| == 1 && next[0].Id() !in visited
           then Met(served, members, visited + {next[0].Id()}, next[0], steps - 1) else 0)
      case _ => 0
  }

  lemma ReadsNeverMeetTheBound(served: Served, coin: Coin)
    ensures Children(served, coin) != Err(TooManyLaunches)
  {
  }

  /** The bound refuses exactly the lineages whose walk meets more than eight. */
  lemma {:induction false} RefusedExactlyWhenMoreAreMet(served: Served, members: set<Id>, w: Walk, steps: nat)
    requires |w.launches| <= MAX_PROFILE_LAUNCHES_PER_DID
    ensures WalkFrom(served, members, w, steps) == Err(TooManyLaunches)
            <==> |w.launches| + Met(served, members, w.visited, w.current, steps) > MAX_PROFILE_LAUNCHES_PER_DID
    decreases steps
  {
    if steps > 0 {
      ReadsNeverMeetTheBound(served, w.current);
      var turn := TakeTurn(served, members, w);
      if turn.Ok? && turn.value.GoOn? {
        RefusedExactlyWhenMoreAreMet(served, members, turn.value.walk, steps - 1);
      }
    }
  }

  /** So the enumeration answers `TooManyLaunches` of exactly those lineages. */
  lemma TooManyExactlyWhenMet(served: Served, members: set<Id>, launcher: Coin)
    ensures ProfileIntermediates(served, members, launcher) == Err(TooManyLaunches)
            <==> Met(served, members, {launcher.Id()}, launcher, |members|) > MAX_PROFILE_LAUNCHES_PER_DID
  {
    RefusedExactlyWhenMoreAreMet(served, members, Start(launcher), |members|);
  }

  /** Where no spend creates one coin twice, as consensus requires, what is met is what was launched:
      up to eight launches are always answerable. */
  lemma EightLaunchesAreAnswerable(served: Served, members: set<Id>, launcher: Coin, all: set<(Id, Coin)>)
    requires NoDuplicateOutputs(served) && launcher.Id() in members
    requires forall l :: Launches(served, members, l) ==> l in all
    requires |all| <= MAX_PROFILE_LAUNCHES_PER_DID
    ensures ProfileIntermediates(served, members, launcher) != Err(TooManyLaunches)
    ensures Met(served, members, {launcher.Id()}, launcher, |members|) <= MAX_PROFILE_LAUNCHES_PER_DID
  {
    TooManyAreReal(served, members, launcher, Start(launcher), |members|, all);
    TooManyExactlyWhenMet(served, members, launcher);
  }

  /** A source that serves the launcher's spend with a solution that creates one intermediate nine
      times over: no chain carries such a spend, and the walk does not ask one. */
  function Repeating(launcher: Coin): Served {
    Served(
      Clvm((p: Puzzle) => launcher.puzzleHash,
           (p: Puzzle, solution: nat) => Some(seq(9, i => (ProfileIntermediate, INTERMEDIATE_AMOUNT)))),
      (id: Id) => 0,
      (id: Id) => Answer(Some({launcher.Id()})),
      (id: Id) => Answer(Some(launcher)),
      (id: Id) => Answer(Some(ServedSpend(launcher, Puzzle(0), 0))))
  }

  /** Nine times one launch is refused as nine launches. */
  lemma RepetitionIsCounted(launcher: Coin)
    ensures forall l :: Launches(Repeating(launcher), {launcher.Id()}, l) ==> l == (launcher.Id(), IntermediateCoin(launcher.Id()))
    ensures ProfileIntermediates(Repeating(launcher), {launcher.Id()}, launcher) == Err(TooManyLaunches)
  {
    var served := Repeating(launcher);
    var children := Children(served, launcher).value.value;
    assert |children| == 9 && forall i :: 0 <= i < 9 ==> children[i] == IntermediateCoin(launcher.Id());
    AllIntermediates(children);
    assert Met(served, {launcher.Id()}, {launcher.Id()}, launcher, 1) >= 9;
    TooManyExactlyWhenMet(served, {launcher.Id()}, launcher);
  }

  lemma {:induction false} AllIntermediates(children: seq<Coin>)
    requires forall i :: 0 <= i < |children| ==> IsIntermediate(children[i])
    ensures Intermediates(children) == children
  {
    if children != [] {
      AllIntermediates(children[..|children| - 1]);
    }
  }

  // ---------- the assumption the code leaves to the canonical walk ----------

  /** The completeness check counts coins. It pins the visited set to the lineage exactly when the
      lineage contains the launcher the walk starts from, which nothing in the code checks. */
  lemma CompleteIffLauncherIsAMember(served: Served, members: set<Id>, launcher: Coin)
    requires ProfileIntermediates(served, members, launcher).Ok?
    ensures WalkFrom(served, members, Start(launcher), |members|).value.visited == members
            <==> launcher.Id() in members
  {
    WalkEstablishes(served, members, launcher, Start(launcher), |members|);
    if launcher.Id() in members {
      EnumerationIsComplete(served, members, launcher);
    }
  }

  /** A source whose lineage of the DID leaves the launcher out, and withholds its spend. */
  ghost function LauncherLeftOut(): Served {
    var didCoin := Coin(Of(Raw(1), SingletonLauncher, 1), Standard(0), 1);
    var intermediate := IntermediateCoin(didCoin.Id());
    Served(
      Clvm((p: Puzzle) => if p.text == 0 then Standard(0) else ProfileIntermediate,
           (p: Puzzle, solution: nat) =>
             if p.text == 0 then Some([(ProfileIntermediate, 0)]) else Some([(SingletonLauncher, 1)])),
      (id: Id) => IdSize(id),
      (id: Id) => Answer(Some({didCoin.Id()})),
      (id: Id) => if id.Of? then Answer(Some(CoinOf(id))) else Answer(None),
      (id: Id) =>
        if id == didCoin.Id() then Answer(Some(ServedSpend(didCoin, Puzzle(0), 0)))
        else if id == intermediate.Id() then Answer(Some(ServedSpend(intermediate, Puzzle(1), 0)))
        else Answer(None))
  }

  /** Such a source makes the resolver report that a DID with a live store has none. */
  lemma LauncherLeftOutMisleads()
    ensures var did := Of(Raw(1), SingletonLauncher, 1);
            var didCoin := Coin(did, Standard(0), 1);
            && Resolve(LauncherLeftOut(), did) == Ok(NoProfileStore)
            && IsLiveStore(LauncherLeftOut(), {didCoin.Id()}, StoreLauncher(didCoin.Id()).Id())
  {
    var served := LauncherLeftOut();
    var did := Of(Raw(1), SingletonLauncher, 1);
    var launcher := CoinOf(did);
    var didCoin := Coin(did, Standard(0), 1);
    var intermediate := IntermediateCoin(didCoin.Id());
    assert IdSize(didCoin.Id()) == IdSize(did) + 1 && IdSize(intermediate.Id()) == IdSize(did) + 2;
    assert Children(served, launcher) == Ok(None);
    assert WalkFrom(served, {didCoin.Id()}, Start(launcher), 1) == Ok(Start(launcher));
    assert CollectLive(served, []) == Ok([]);
    assert Children(served, didCoin).value.value == [intermediate];
    assert Children(served, intermediate).value.value == [StoreLauncher(didCoin.Id())];
  }
}
