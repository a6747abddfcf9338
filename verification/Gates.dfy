/**
  The pre-signing whitelists. Five root gates decide which pre-existing coins a bundle may
  reach; the signing loop then discharges every requirement exactly once. What a gate's
  acceptance means is stated over lineages, for bundles of any size.
*/
module Gates {
  import opened Base

  datatype Requirement = Bls(key: nat, domain: Option<nat>, message: nat) | Secp

  /** A coin spend, and whether its delegated puzzle is the canonical quote. */
  datatype CoinSpend = CoinSpend(coin: Coin, quoteForm: bool)

  datatype Wallet = Wallet(key: nat, puzzleHash: PuzzleHash)

  datatype Refusal =
    | ForeignKey | NotAggSigMe | SecpRequirement | NotQuoteForm
    | RootNotThisWallets | WrongRootCount(count: nat) | NotThisDidCoin | UnexpectedRoots(count: nat)

  datatype BuildError = Refused(why: Refusal) | SecurityRequirementAbsent | AggregateDoesNotVerify

  // ---------- signature requirements ----------

  /** The loop over requirements: the first one this account must not sign refuses. */
  function CheckRequirements(required: seq<Requirement>, keys: set<nat>, me: nat): Result<(), Refusal> {
    if required == [] then Ok(())
    else match required[0]
      case Secp => Err(SecpRequirement)
      case Bls(key, domain, _) =>
        if key !in keys then Err(ForeignKey)
        else if domain != Some(me) then Err(NotAggSigMe)
        else CheckRequirements(required[1..], keys, me)
  }

  predicate Signable(r: Requirement, keys: set<nat>, me: nat) {
    r.Bls? && r.key in keys && r.domain == Some(me)
  }

  lemma {:induction false} RequirementsAccepted(required: seq<Requirement>, keys: set<nat>, me: nat)
    ensures CheckRequirements(required, keys, me).Ok? <==> forall r :: r in required ==> Signable(r, keys, me)
  {
    if required != [] {
      RequirementsAccepted(required[1..], keys, me);
      assert forall r :: r in required <==> r == required[0] || r in required[1..];
      assert CheckRequirements(required, keys, me).Ok?
             <==> Signable(required[0], keys, me) && CheckRequirements(required[1..], keys, me).Ok?;
    }
  }

  // ---------- roots and lineages ----------

  function SpentIds(spends: seq<CoinSpend>): set<Id> {
    set s | s in spends :: s.coin.Id()
  }

  /** The spends whose parent this bundle does not also spend, in bundle order. */
  function Roots(spends: seq<CoinSpend>, spent: set<Id>): seq<Coin> {
    if spends == [] then []
    else (if spends[0].coin.parent in spent then [] else [spends[0].coin]) + Roots(spends[1..], spent)
  }

  function RootIds(spends: seq<CoinSpend>): set<Id> {
    set c | c in Roots(spends, SpentIds(spends)) :: c.Id()
  }

  /** `id` is reached from a member of `from` through coins that are all spent. */
  predicate Descends(spent: set<Id>, from: set<Id>, id: Id)
    decreases id
  {
    id in spent && (id in from || (id.Of? && Descends(spent, from, id.parent)))
  }

  lemma {:induction false} RootsAre(spends: seq<CoinSpend>, spent: set<Id>, c: Coin)
    ensures c in Roots(spends, spent) <==> c.parent !in spent && exists s :: s in spends && s.coin == c
  {
    if spends != [] {
      RootsAre(spends[1..], spent, c);
      assert spends == [spends[0]] + spends[1..];
    }
  }

  /** A bundle's root set is `permitted` exactly when every spent coin descends from a permitted
      coin and the permitted coins are themselves spent with unspent parents. */
  lemma RootSetIsLineage(spends: seq<CoinSpend>, permitted: set<Id>)
    requires forall p :: p in permitted ==> p.Of?
    ensures RootIds(spends) == permitted <==>
              && (forall id :: id in SpentIds(spends) ==> Descends(SpentIds(spends), permitted, id))
              && (forall p :: p in permitted ==> p in SpentIds(spends) && p.parent !in SpentIds(spends))
  {
    var spent := SpentIds(spends);
    forall id: Id ensures id in RootIds(spends) <==> id in spent && id.Of? && id.parent !in spent {
      if id.Of? { RootsAre(spends, spent, CoinOf(id)); }
    }
    if RootIds(spends) == permitted {
      forall id | id in spent ensures Descends(spent, permitted, id) {
        ReachesARoot(spends, id);
      }
    }
    if (forall id :: id in spent ==> Descends(spent, permitted, id)) &&
       (forall p :: p in permitted ==> p in spent && p.parent !in spent) {
      forall id ensures id in RootIds(spends) <==> id in permitted {
        if id in RootIds(spends) {
          assert Descends(spent, permitted, id);
          assert !Descends(spent, permitted, id.parent);
        }
      }
      assert RootIds(spends) == permitted;
    }
  }

  /** Coin ids are well-founded, so walking up from any spent coin ends at a root. */
  lemma {:induction false} ReachesARoot(spends: seq<CoinSpend>, id: Id)
    requires id in SpentIds(spends)
    ensures Descends(SpentIds(spends), RootIds(spends), id)
    decreases id
  {
    var spent := SpentIds(spends);
    RootsAre(spends, spent, CoinOf(id));
    if id.parent in spent {
      ReachesARoot(spends, id.parent);
    }
  }

  // ---------- the five gates ----------

  /** `mint::did::gate`. */
  function GateDidMint(wallet: Wallet, spends: seq<CoinSpend>, required: seq<Requirement>, me: nat): Result<(), Refusal> {
    match CheckRequirements(required, {wallet.key}, me)
    case Err(e) => Err(e)
    case Ok(_) =>
      var roots := Roots(spends, SpentIds(spends));
      if |roots| == 1 then
        if roots[0].puzzleHash == wallet.puzzleHash then Ok(()) else Err(RootNotThisWallets)
      else Err(WrongRootCount(|roots|))
  }

  /** `gate_store_launch`. */
  function GateStoreLaunch(
    wallet: Wallet, spends: seq<CoinSpend>, required: seq<Requirement>, didCoinId: Id, me: nat): Result<(), Refusal>
  {
    match CheckRequirements(required, {wallet.key}, me)
    case Err(e) => Err(e)
    case Ok(_) =>
      var roots := Roots(spends, SpentIds(spends));
      if |roots| != 2 then Err(WrongRootCount(|roots|))
      else if roots[0].Id() == didCoinId then
        if roots[1].puzzleHash != wallet.puzzleHash then Err(RootNotThisWallets) else Ok(())
      else if roots[1].Id() == didCoinId then
        if roots[0].puzzleHash != wallet.puzzleHash then Err(RootNotThisWallets) else Ok(())
      else Err(NotThisDidCoin)
  }

  /** `require_quote_form_wallet_spends`. */
  predicate QuoteForm(spends: seq<CoinSpend>, wallet: Wallet) {
    forall s :: s in spends && s.coin.puzzleHash == wallet.puzzleHash ==> s.quoteForm
  }

  /** The root check the distributor doors share in form: the roots are the permitted set. */
  function GateRoots(spends: seq<CoinSpend>, permitted: set<Id>): Result<(), Refusal> {
    if RootIds(spends) != permitted then Err(UnexpectedRoots(|RootIds(spends)|)) else Ok(())
  }

  /** `gate_reward_distributor_launch`. */
  function GateDistributorLaunch(
    wallet: Wallet, spends: seq<CoinSpend>, required: seq<Requirement>, securityKey: nat,
    fundingCoinId: Id, rewardCatCoinId: Id, me: nat): Result<(), Refusal>
  {
    match CheckRequirements(required, {wallet.key, securityKey}, me)
    case Err(e) => Err(e)
    case Ok(_) =>
      if !QuoteForm(spends, wallet) then Err(NotQuoteForm)
      else GateRoots(spends, {fundingCoinId, rewardCatCoinId})
  }

  /** `gate_reward_distributor_refill_roots`: four named coins. */
  function GateRefillRoots(spends: seq<CoinSpend>, distributor: Id, reserve: Id, slot: Id, fundingCat: Id): Result<(), Refusal> {
    GateRoots(spends, {distributor, reserve, slot, fundingCat})
  }

  /** `gate_reward_distributor_clawback_roots`: five named coins. */
  function GateClawbackRoots(
    spends: seq<CoinSpend>, distributor: Id, reserve: Id, commitment: Id, slot: Id, clawback: Id): Result<(), Refusal>
  {
    GateRoots(spends, {distributor, reserve, commitment, slot, clawback})
  }

  /** Every spent coin descends from `from`, whose members the bundle did not create. */
  ghost predicate Confined(spends: seq<CoinSpend>, from: set<Id>) {
    && (forall id :: id in SpentIds(spends) ==> Descends(SpentIds(spends), from, id))
    && (forall p :: p in from ==> p.Of? && p in SpentIds(spends) && p.parent !in SpentIds(spends))
  }

  lemma RootsConfine(spends: seq<CoinSpend>)
    ensures Confined(spends, RootIds(spends))
    ensures forall c :: c in Roots(spends, SpentIds(spends)) ==> c.Id() in RootIds(spends)
  {
    RootSetIsLineage(spends, RootIds(spends));
  }

  /** An accepted DID mint signs only as this wallet, and everything it spends descends from one
      coin at this wallet's own puzzle hash. */
  lemma DidGateConfines(wallet: Wallet, spends: seq<CoinSpend>, required: seq<Requirement>, me: nat)
    requires GateDidMint(wallet, spends, required, me).Ok?
    ensures forall r :: r in required ==> Signable(r, {wallet.key}, me)
    ensures exists root: Id :: root.Of? && root.puzzleHash == wallet.puzzleHash && Confined(spends, {root})
  {
    RequirementsAccepted(required, {wallet.key}, me);
    RootsConfine(spends);
    var root := Roots(spends, SpentIds(spends))[0];
    assert RootIds(spends) == {root.Id()};
  }

  /** And for bundles that spend no coin twice, nothing else is needed. */
  lemma {:induction false} DidGateAdmits(wallet: Wallet, spends: seq<CoinSpend>, required: seq<Requirement>, me: nat, root: Id)
    requires forall i, j :: 0 <= i < j < |spends| ==> spends[i].coin != spends[j].coin
    requires forall r :: r in required ==> Signable(r, {wallet.key}, me)
    requires root.Of? && root.puzzleHash == wallet.puzzleHash && Confined(spends, {root})
    ensures GateDidMint(wallet, spends, required, me).Ok?
  {
    RequirementsAccepted(required, {wallet.key}, me);
    RootSetIsLineage(spends, {root});
    var roots := Roots(spends, SpentIds(spends));
    RootsDistinct(spends, SpentIds(spends));
    assert |roots| > 1 ==> roots[0] != roots[1];
    assert CoinOf(root) in roots by {
      var c :| c in roots && c.Id() == root;
    }
    forall c | c in roots ensures c == CoinOf(root) {
      assert c.Id() in RootIds(spends);
    }
    forall i | 0 <= i < |roots| ensures roots[i] == CoinOf(root) {
      assert roots[i] in roots;
    }
    assert |roots| == 1;
  }

  lemma {:induction false} RootsDistinct(spends: seq<CoinSpend>, spent: set<Id>)
    requires forall i, j :: 0 <= i < j < |spends| ==> spends[i].coin != spends[j].coin
    ensures forall i, j :: 0 <= i < j < |Roots(spends, spent)| ==> Roots(spends, spent)[i] != Roots(spends, spent)[j]
  {
    if spends != [] {
      RootsDistinct(spends[1..], spent);
      RootsAre(spends[1..], spent, spends[0].coin);
      assert spends[0].coin !in Roots(spends[1..], spent);
    }
  }

  predicate SpentTwice(spends: seq<CoinSpend>, id: Id) {
    exists i, j :: 0 <= i < j < |spends| && spends[i].coin.Id() == id && spends[j].coin.Id() == id
  }

  predicate TwiceIn(coins: seq<Coin>, c: Coin) {
    exists i, j :: 0 <= i < j < |coins| && coins[i] == c && coins[j] == c
  }

  /** A root is among the roots as often as it is spent. */
  lemma {:induction false} RootsTwice(spends: seq<CoinSpend>, spent: set<Id>, c: Coin)
    requires c.parent !in spent
    ensures TwiceIn(Roots(spends, spent), c) <==> SpentTwice(spends, c.Id())
  {
    if spends != [] {
      var rest, roots := spends[1..], Roots(spends[1..], spent);
      RootsTwice(rest, spent, c);
      RootsAre(rest, spent, c);
      if spends[0].coin.parent in spent {
        assert [] + roots == roots;
      } else {
        TwiceInRest(spends[0].coin, roots, c);
      }
      SpentTwiceInRest(spends, c);
    }
  }

  lemma TwiceInRest(first: Coin, rest: seq<Coin>, c: Coin)
    ensures TwiceIn([first] + rest, c) <==> TwiceIn(rest, c) || (first == c && c in rest)
  {
    var all := [first] + rest;
    if i, j :| 0 <= i < j < |all| && all[i] == c && all[j] == c {
      assert rest[j - 1] == c;
      assert i > 0 ==> rest[i - 1] == c;
    }
    if i, j :| 0 <= i < j < |rest| && rest[i] == c && rest[j] == c {
      assert all[i + 1] == c && all[j + 1] == c;
    }
    if k :| 0 <= k < |rest| && first == c && rest[k] == c {
      assert all[0] == c && all[k + 1] == c;
    }
  }

  lemma SpentTwiceInRest(spends: seq<CoinSpend>, c: Coin)
    requires spends != []
    ensures SpentTwice(spends, c.Id())
            <==> SpentTwice(spends[1..], c.Id()) || (spends[0].coin == c && exists s :: s in spends[1..] && s.coin == c)
  {
    var rest := spends[1..];
    assert forall k :: 0 <= k < |rest| ==> spends[1 + k] == rest[k];
    if SpentTwice(spends, c.Id()) {
      var i, j :| 0 <= i < j < |spends| && spends[i].coin.Id() == c.Id() && spends[j].coin.Id() == c.Id();
      assert rest[j - 1].coin == c && rest[j - 1] in rest;
      assert i > 0 ==> rest[i - 1].coin.Id() == c.Id();
    }
  }

  /** An accepted store launch spends this mint's own DID coin and one coin at this wallet's puzzle
      hash, and everything else descends from those. The second is the DID coin again exactly when
      the bundle spends that coin twice. */
  lemma StoreGateConfines(wallet: Wallet, spends: seq<CoinSpend>, required: seq<Requirement>, didCoinId: Id, me: nat)
    requires GateStoreLaunch(wallet, spends, required, didCoinId, me).Ok?
    ensures forall r :: r in required ==> Signable(r, {wallet.key}, me)
    ensures exists funding: Id ::
              StoreFunding(wallet, spends, didCoinId, funding) && (funding == didCoinId <==> SpentTwice(spends, didCoinId))
  {
    RequirementsAccepted(required, {wallet.key}, me);
    RootsConfine(spends);
    var roots := Roots(spends, SpentIds(spends));
    assert RootIds(spends) == {roots[0].Id(), roots[1].Id()};
    var first := roots[0].Id() == didCoinId;
    var did, funding := if first then roots[0] else roots[1], if first then roots[1] else roots[0];
    assert RootIds(spends) == {didCoinId, funding.Id()};
    RootsAre(spends, SpentIds(spends), did);
    RootsTwice(spends, SpentIds(spends), did);
    assert StoreFunding(wallet, spends, didCoinId, funding.Id());
  }

  /** So the roots of an accepted launch are the DID coin alone exactly when it is spent twice. */
  lemma StoreRootsCoincideExactlyWhenDoubled(
    wallet: Wallet, spends: seq<CoinSpend>, required: seq<Requirement>, didCoinId: Id, me: nat)
    requires GateStoreLaunch(wallet, spends, required, didCoinId, me).Ok?
    ensures RootIds(spends) == {didCoinId} <==> SpentTwice(spends, didCoinId)
  {
    StoreGateConfines(wallet, spends, required, didCoinId, me);
    var funding: Id :| StoreFunding(wallet, spends, didCoinId, funding) && (funding == didCoinId <==> SpentTwice(spends, didCoinId));
    RootSetIsLineage(spends, {didCoinId, funding});
    assert funding in RootIds(spends);
  }

  /** `funding` is at this wallet's puzzle hash and, with the DID coin, is where all the rest comes from. */
  ghost predicate StoreFunding(wallet: Wallet, spends: seq<CoinSpend>, didCoinId: Id, funding: Id) {
    funding.Of? && funding.puzzleHash == wallet.puzzleHash && Confined(spends, {didCoinId, funding})
  }

  predicate SpendsDistinct(spends: seq<CoinSpend>) {
    forall i, j :: 0 <= i < j < |spends| ==> spends[i].coin != spends[j].coin
  }

  /** For bundles that spend no coin twice, nothing else is needed. */
  lemma StoreGateAdmits(wallet: Wallet, spends: seq<CoinSpend>, required: seq<Requirement>, didCoinId: Id, funding: Id, me: nat)
    requires SpendsDistinct(spends) && forall r :: r in required ==> Signable(r, {wallet.key}, me)
    requires StoreFunding(wallet, spends, didCoinId, funding) && funding != didCoinId
    ensures GateStoreLaunch(wallet, spends, required, didCoinId, me).Ok?
  {
    RequirementsAccepted(required, {wallet.key}, me);
    RootSetIsLineage(spends, {didCoinId, funding});
    RootsDistinct(spends, SpentIds(spends));
    TwoRoots(spends, didCoinId, funding);
  }

  lemma TwoRoots(spends: seq<CoinSpend>, a: Id, b: Id)
    requires SpendsDistinct(spends) && RootIds(spends) == {a, b} && a != b
    ensures var roots := Roots(spends, SpentIds(spends));
            |roots| == 2 && ((roots[0].Id() == a && roots[1].Id() == b) || (roots[0].Id() == b && roots[1].Id() == a))
  {
    var roots := Roots(spends, SpentIds(spends));
    RootsDistinct(spends, SpentIds(spends));
    forall c | c in roots ensures c.Id() in {a, b} {
      assert c.Id() in RootIds(spends);
    }
    AtMostTwo(roots, a, b);
    assert a in RootIds(spends) && b in RootIds(spends);
    var x :| x in roots && x.Id() == a;
    var y :| y in roots && y.Id() == b;
  }

  lemma AtMostTwo(roots: seq<Coin>, a: Id, b: Id)
    requires forall i, j :: 0 <= i < j < |roots| ==> roots[i] != roots[j]
    requires forall c :: c in roots ==> c.Id() in {a, b}
    ensures |roots| <= 2
  {
    if roots != [] {
      var other := if roots[0].Id() == a then b else a;
      forall c | c in roots[1..] ensures c.Id() == other {
        assert c in roots && c != roots[0];
      }
      Alike(roots[1..], other);
    }
  }

  lemma Alike(roots: seq<Coin>, id: Id)
    requires forall i, j :: 0 <= i < j < |roots| ==> roots[i] != roots[j]
    requires forall c :: c in roots ==> c.Id() == id
    ensures |roots| <= 1
  {
    assert |roots| > 1 ==> roots[0] in roots && roots[1] in roots && roots[0] != roots[1];
    assert forall c, d :: c in roots && d in roots ==> c == d by {
      assert forall c: Coin, d: Coin :: c.Id() == d.Id() ==> c == d;
    }
  }

  /** Spent twice, a DID coin at the wallet's own puzzle hash stands in for the funding coin: consensus,
      not this gate, is what refuses that bundle. */
  lemma DoubledDidPassesTheStoreGate(wallet: Wallet, did: Coin, required: seq<Requirement>, me: nat)
    requires did.puzzleHash == wallet.puzzleHash && forall r :: r in required ==> Signable(r, {wallet.key}, me)
    ensures GateStoreLaunch(wallet, [CoinSpend(did, true), CoinSpend(did, true)], required, did.Id(), me).Ok?
  {
    var spends := [CoinSpend(did, true), CoinSpend(did, true)];
    RequirementsAccepted(required, {wallet.key}, me);
    assert SpentIds(spends) == {did.Id()} && IdSize(did.Id()) == IdSize(did.parent) + 1;
    assert spends[1..] == [CoinSpend(did, true)] && spends[1..][1..] == [];
    assert Roots(spends[1..], SpentIds(spends)) == [did];
    assert Roots(spends, SpentIds(spends)) == [did, did];
  }

  /** The distributor doors accept exactly the bundles confined to the coins they name. */
  lemma DistributorGateIff(
    wallet: Wallet, spends: seq<CoinSpend>, required: seq<Requirement>, securityKey: nat,
    fundingCoinId: Id, rewardCatCoinId: Id, me: nat)
    requires fundingCoinId.Of? && rewardCatCoinId.Of?
    ensures GateDistributorLaunch(wallet, spends, required, securityKey, fundingCoinId, rewardCatCoinId, me).Ok? <==>
              && (forall r :: r in required ==> Signable(r, {wallet.key, securityKey}, me))
              && QuoteForm(spends, wallet)
              && Confined(spends, {fundingCoinId, rewardCatCoinId})
  {
    RequirementsAccepted(required, {wallet.key, securityKey}, me);
    RootSetIsLineage(spends, {fundingCoinId, rewardCatCoinId});
  }

  lemma RefillGateIff(spends: seq<CoinSpend>, distributor: Id, reserve: Id, slot: Id, fundingCat: Id)
    requires distributor.Of? && reserve.Of? && slot.Of? && fundingCat.Of?
    ensures GateRefillRoots(spends, distributor, reserve, slot, fundingCat).Ok?
            <==> Confined(spends, {distributor, reserve, slot, fundingCat})
  {
    RootSetIsLineage(spends, {distributor, reserve, slot, fundingCat});
  }

  lemma ClawbackGateIff(spends: seq<CoinSpend>, distributor: Id, reserve: Id, commitment: Id, slot: Id, clawback: Id)
    requires distributor.Of? && reserve.Of? && commitment.Of? && slot.Of? && clawback.Of?
    ensures GateClawbackRoots(spends, distributor, reserve, commitment, slot, clawback).Ok?
            <==> Confined(spends, {distributor, reserve, commitment, slot, clawback})
  {
    RootSetIsLineage(spends, {distributor, reserve, commitment, slot, clawback});
  }

  // ---------- one spend more ----------

  /** The roots that stay roots when `id` is spent too. */
  function Survivors(roots: seq<Coin>, id: Id): seq<Coin> {
    if roots == [] then []
    else (if roots[0].parent == id then [] else [roots[0]]) + Survivors(roots[1..], id)
  }

  lemma {:induction false} RootsWithOneMore(spends: seq<CoinSpend>, extra: CoinSpend, spent: set<Id>)
    ensures Roots(spends + [extra], spent + {extra.coin.Id()})
            == Survivors(Roots(spends, spent), extra.coin.Id())
               + (if extra.coin.parent in spent + {extra.coin.Id()} then [] else [extra.coin])
  {
    if spends == [] {
      assert [extra][1..] == [] && spends + [extra] == [extra];
    } else {
      RootsWithOneMore(spends[1..], extra, spent);
      assert (spends + [extra])[1..] == spends[1..] + [extra];
      SurvivorsOfOneMore(spends[0].coin, Roots(spends[1..], spent), spent, extra.coin.Id());
    }
  }

  lemma SurvivorsOfOneMore(first: Coin, rest: seq<Coin>, spent: set<Id>, id: Id)
    ensures Survivors((if first.parent in spent then [] else [first]) + rest, id)
            == (if first.parent in spent + {id} then [] else [first]) + Survivors(rest, id)
  {
    assert ([first] + rest)[1..] == rest && [] + rest == rest && [] + Survivors(rest, id) == Survivors(rest, id);
  }

  /** A bundle's roots after one more spend: those it is not the parent of, and itself if its own
      parent is not spent. */
  lemma RootsAfter(spends: seq<CoinSpend>, extra: CoinSpend)
    ensures SpentIds(spends + [extra]) == SpentIds(spends) + {extra.coin.Id()}
    ensures Roots(spends + [extra], SpentIds(spends + [extra]))
            == Survivors(Roots(spends, SpentIds(spends)), extra.coin.Id())
               + (if extra.coin.parent in SpentIds(spends) then [] else [extra.coin])
  {
    assert extra in spends + [extra];
    assert SpentIds(spends + [extra]) == SpentIds(spends) + {extra.coin.Id()};
    assert IdSize(extra.coin.Id()) == IdSize(extra.coin.parent) + 1;
    RootsWithOneMore(spends, extra, SpentIds(spends));
  }

  lemma {:induction false} SurvivorsAre(roots: seq<Coin>, id: Id, c: Coin)
    ensures c in Survivors(roots, id) <==> c in roots && c.parent != id
  {
    if roots != [] {
      SurvivorsAre(roots[1..], id, c);
      assert c in roots <==> c == roots[0] || c in roots[1..];
    }
  }

  lemma FewSurvivors(a: Coin, b: Coin, id: Id)
    ensures Survivors([a], id) == if a.parent == id then [] else [a]
    ensures Survivors([a, b], id) == (if a.parent == id then [] else [a]) + (if b.parent == id then [] else [b])
  {
    assert [a][1..] == [] && [b][1..] == [] && [a, b][1..] == [b];
    assert Survivors([b], id) == if b.parent == id then [] else [b];
  }

  /** A coin that descends from `root` through spent coins is no ancestor of it. */
  lemma {:induction false} DescendantIsNotTheParent(spent: set<Id>, root: Id, id: Id)
    requires Descends(spent, {root}, id)
    ensures IdSize(id) >= IdSize(root)
    decreases id
  {
    if id != root {
      DescendantIsNotTheParent(spent, root, id.parent);
    }
  }

  /** What one more spend does to a bundle the DID gate accepts: it is accepted still exactly when the
      spend continues a lineage the bundle has, or puts under it the parent of its one root, a coin
      at this wallet's own puzzle hash. */
  lemma DidGateAfterOneMore(
    wallet: Wallet, spends: seq<CoinSpend>, required: seq<Requirement>, extra: CoinSpend, required': seq<Requirement>, me: nat)
    requires GateDidMint(wallet, spends, required, me).Ok?
    ensures var root := Roots(spends, SpentIds(spends))[0];
            GateDidMint(wallet, spends + [extra], required', me).Ok? <==>
              && (forall r :: r in required' ==> Signable(r, {wallet.key}, me))
              && (|| extra.coin.parent in SpentIds(spends)
                  || (root.parent == extra.coin.Id() && extra.coin.puzzleHash == wallet.puzzleHash))
  {
    var root := Roots(spends, SpentIds(spends))[0];
    RequirementsAccepted(required', {wallet.key}, me);
    RootsAfter(spends, extra);
    assert Roots(spends, SpentIds(spends)) == [root];
    FewSurvivors(root, root, extra.coin.Id());
    if extra.coin.parent in SpentIds(spends) {
      GrandchildIsNotTheParent(spends, root, extra.coin);
    }
  }

  lemma GrandchildIsNotTheParent(spends: seq<CoinSpend>, root: Coin, extra: Coin)
    requires Roots(spends, SpentIds(spends)) == [root] && extra.parent in SpentIds(spends)
    ensures root.parent != extra.Id()
  {
    RootsConfine(spends);
    assert RootIds(spends) == {root.Id()};
    DescendantIsNotTheParent(SpentIds(spends), root.Id(), extra.parent);
    assert IdSize(extra.Id()) > IdSize(root.parent);
  }

  /** The spend a store launch takes for the wallet's, given that the gate accepts. */
  function FundingRoot(roots: seq<Coin>, didCoinId: Id): Coin
    requires |roots| == 2
  {
    if roots[0].Id() == didCoinId then roots[1] else roots[0]
  }

  function DidRoot(roots: seq<Coin>, didCoinId: Id): Coin
    requires |roots| == 2
  {
    if roots[0].Id() == didCoinId then roots[0] else roots[1]
  }

  /** What the store gate asks of its roots. */
  predicate StorePair(wallet: Wallet, roots: seq<Coin>, didCoinId: Id) {
    |roots| == 2 && didCoinId in {roots[0].Id(), roots[1].Id()} && FundingRoot(roots, didCoinId).puzzleHash == wallet.puzzleHash
  }

  lemma StoreGateIsItsPair(wallet: Wallet, spends: seq<CoinSpend>, required: seq<Requirement>, didCoinId: Id, me: nat)
    ensures GateStoreLaunch(wallet, spends, required, didCoinId, me).Ok? <==>
              (forall r :: r in required ==> Signable(r, {wallet.key}, me)) && StorePair(wallet, Roots(spends, SpentIds(spends)), didCoinId)
  {
    RequirementsAccepted(required, {wallet.key}, me);
  }

  lemma PairAfterOneMore(wallet: Wallet, roots: seq<Coin>, didCoinId: Id, extra: Coin, continues: bool)
    requires StorePair(wallet, roots, didCoinId)
    ensures var did, funding := DidRoot(roots, didCoinId), FundingRoot(roots, didCoinId);
            StorePair(wallet, Survivors(roots, extra.Id()) + (if continues then [] else [extra]), didCoinId) <==>
              && did.parent != extra.Id()
              && if continues then funding.parent != extra.Id()
                 else funding.parent == extra.Id() && extra.puzzleHash == wallet.puzzleHash
  {
    assert roots == [roots[0], roots[1]];
    FewSurvivors(roots[0], roots[1], extra.Id());
    ParentIsAnother(roots[0], extra);
    ParentIsAnother(roots[1], extra);
  }

  lemma ParentIsAnother(coin: Coin, parent: Coin)
    ensures coin.parent == parent.Id() ==> coin.Id() != parent.Id()
  {
    assert IdSize(coin.Id()) == IdSize(coin.parent) + 1;
  }

  /** The same for the store gate: the spend continues a lineage without being either root's parent, or
      it is the funding root's parent, not the DID's, at this wallet's own puzzle hash. */
  lemma StoreGateAfterOneMore(
    wallet: Wallet, spends: seq<CoinSpend>, required: seq<Requirement>, didCoinId: Id, extra: CoinSpend,
    required': seq<Requirement>, me: nat)
    requires GateStoreLaunch(wallet, spends, required, didCoinId, me).Ok?
    ensures var roots := Roots(spends, SpentIds(spends));
            var did, funding, id := DidRoot(roots, didCoinId), FundingRoot(roots, didCoinId), extra.coin.Id();
            GateStoreLaunch(wallet, spends + [extra], required', didCoinId, me).Ok? <==>
              && (forall r :: r in required' ==> Signable(r, {wallet.key}, me))
              && did.parent != id
              && if extra.coin.parent in SpentIds(spends) then funding.parent != id
                 else funding.parent == id && extra.coin.puzzleHash == wallet.puzzleHash
  {
    StoreGateIsItsPair(wallet, spends, required, didCoinId, me);
    StoreGateIsItsPair(wallet, spends + [extra], required', didCoinId, me);
    RootsAfter(spends, extra);
    PairAfterOneMore(wallet, Roots(spends, SpentIds(spends)), didCoinId, extra.coin, extra.coin.parent in SpentIds(spends));
  }

  /** And for the three doors that name their roots: the spend repeats a permitted one, or continues a
      lineage without being any root's parent. */
  lemma RootGateAfterOneMore(spends: seq<CoinSpend>, permitted: set<Id>, extra: CoinSpend)
    requires GateRoots(spends, permitted).Ok?
    ensures GateRoots(spends + [extra], permitted).Ok? <==>
              || extra.coin.Id() in permitted
              || (extra.coin.parent in SpentIds(spends) && forall p :: p in permitted ==> p.Of? && p.parent != extra.coin.Id())
  {
    var id := extra.coin.Id();
    RootsAfter(spends, extra);
    var roots, more := Roots(spends, SpentIds(spends)), Roots(spends + [extra], SpentIds(spends + [extra]));
    forall c ensures c in more <==> (c in roots && c.parent != id) || (c == extra.coin && extra.coin.parent !in SpentIds(spends)) {
      SurvivorsAre(roots, id, c);
    }
    forall c | c in roots ensures c.parent !in SpentIds(spends) && c.Id() in permitted {
      RootsAre(spends, SpentIds(spends), c);
      assert c.Id() in RootIds(spends);
    }
    if id in permitted {
      assert id in RootIds(spends);
      var c :| c in roots && c.Id() == id;
      assert c == extra.coin;
      assert id in SpentIds(spends) by {
        RootsAre(spends, SpentIds(spends), c);
      }
      forall x ensures x in more <==> x in roots {
      }
      assert RootIds(spends + [extra]) == RootIds(spends);
    } else if extra.coin.parent !in SpentIds(spends) {
      assert extra.coin in more;
      assert id in RootIds(spends + [extra]);
    } else {
      StillTheRoots(spends, permitted, extra);
    }
  }

  lemma StillTheRoots(spends: seq<CoinSpend>, permitted: set<Id>, extra: CoinSpend)
    requires RootIds(spends) == permitted && extra.coin.parent in SpentIds(spends)
    ensures RootIds(spends + [extra]) == permitted <==> forall p :: p in permitted ==> p.Of? && p.parent != extra.coin.Id()
  {
    var id := extra.coin.Id();
    RootsAfter(spends, extra);
    var roots, more := Roots(spends, SpentIds(spends)), Roots(spends + [extra], SpentIds(spends + [extra]));
    forall c ensures c in more <==> c in roots && c.parent != id {
      SurvivorsAre(roots, id, c);
    }
    forall p | p in permitted ensures p in RootIds(spends + [extra]) <==> p.parent != id {
      assert p in RootIds(spends);
      var c :| c in roots && c.Id() == p;
      assert CoinOf(p) == c;
    }
  }

  /** A spend outside every lineage of the bundle, under which nothing of the bundle lies, is refused
      at every one of the five doors; the last clause is the refill's and the clawback's. */
  lemma ExtraSpendIsRefused(wallet: Wallet, spends: seq<CoinSpend>, extra: CoinSpend, required: seq<Requirement>, me: nat,
                            didCoinId: Id, permitted: set<Id>, securityKey: nat, fundingCoinId: Id, rewardCatCoinId: Id)
    requires extra.coin.parent !in SpentIds(spends) && forall s :: s in spends ==> s.coin.parent != extra.coin.Id()
    ensures GateDidMint(wallet, spends, required, me).Ok? ==> GateDidMint(wallet, spends + [extra], required, me).Err?
    ensures GateStoreLaunch(wallet, spends, required, didCoinId, me).Ok?
            ==> GateStoreLaunch(wallet, spends + [extra], required, didCoinId, me).Err?
    ensures GateDistributorLaunch(wallet, spends, required, securityKey, fundingCoinId, rewardCatCoinId, me).Ok?
            && extra.coin.Id() !in {fundingCoinId, rewardCatCoinId}
            ==> GateDistributorLaunch(wallet, spends + [extra], required, securityKey, fundingCoinId, rewardCatCoinId, me).Err?
    ensures GateRoots(spends, permitted).Ok? && extra.coin.Id() !in permitted ==> GateRoots(spends + [extra], permitted).Err?
  {
    forall c | c in Roots(spends, SpentIds(spends)) ensures c.parent != extra.coin.Id() {
      RootsAre(spends, SpentIds(spends), c);
    }
    if GateDidMint(wallet, spends, required, me).Ok? {
      DidGateAfterOneMore(wallet, spends, required, extra, required, me);
    }
    if GateStoreLaunch(wallet, spends, required, didCoinId, me).Ok? {
      StoreGateAfterOneMore(wallet, spends, required, didCoinId, extra, required, me);
    }
    if GateRoots(spends, permitted).Ok? {
      RootGateAfterOneMore(spends, permitted, extra);
    }
    if GateRoots(spends, {fundingCoinId, rewardCatCoinId}).Ok? {
      RootGateAfterOneMore(spends, {fundingCoinId, rewardCatCoinId}, extra);
    }
  }

  /** The second condition is needed: the parent of the spent root, at this wallet's puzzle hash, is a
      coin outside every lineage that the DID gate lets in underneath. */
  lemma ParentOfTheRootIsLetIn(wallet: Wallet, parent: Coin, amount: u64, required: seq<Requirement>, me: nat)
    requires parent.puzzleHash == wallet.puzzleHash && forall r :: r in required ==> Signable(r, {wallet.key}, me)
    ensures var root := CoinSpend(Coin(parent.Id(), wallet.puzzleHash, amount), true);
            && parent.parent !in SpentIds([root])
            && GateDidMint(wallet, [root], required, me).Ok?
            && GateDidMint(wallet, [root] + [CoinSpend(parent, true)], required, me).Ok?
  {
    var root := CoinSpend(Coin(parent.Id(), wallet.puzzleHash, amount), true);
    RequirementsAccepted(required, {wallet.key}, me);
    assert SpentIds([root]) == {root.coin.Id()};
    assert IdSize(root.coin.Id()) == IdSize(parent.Id()) + 1 && IdSize(parent.Id()) == IdSize(parent.parent) + 1;
    assert [root][1..] == [];
    assert Roots([root], SpentIds([root])) == [root.coin];
    DidGateAfterOneMore(wallet, [root], required, CoinSpend(parent, true), required, me);
  }

  // ---------- the signing loop ----------

  /** An aggregate signature, as the multiset of what was signed under which key. */
  type Aggregate = multiset<(nat, nat)>

  /** Every requirement, as the pair its signature must contribute. */
  function Discharged(required: seq<Requirement>): seq<(nat, nat)> {
    seq(|required|, i requires 0 <= i < |required| =>
      if required[i].Bls? then (required[i].key, required[i].message) else (0, 0))
  }

  predicate SignedUnder(signed: seq<(nat, nat)>, key: nat) {
    exists pair :: pair in signed && pair.0 == key
  }

  predicate Requires(required: seq<Requirement>, key: nat) {
    exists q :: q in required && q.Bls? && q.key == key
  }

  lemma DischargedUnder(required: seq<Requirement>, key: nat)
    requires forall q :: q in required ==> q.Bls?
    ensures SignedUnder(Discharged(required), key) <==> Requires(required, key)
  {
    var signed := Discharged(required);
    if SignedUnder(signed, key) {
      var i :| 0 <= i < |signed| && signed[i].0 == key;
      assert required[i] in required;
    }
    if Requires(required, key) {
      var i :| 0 <= i < |required| && required[i].Bls? && required[i].key == key;
      assert signed[i] in signed;
    }
  }

  /** `verify_aggregate_discharges`. */
  function VerifyAggregateDischarges(signature: Aggregate, signed: seq<(nat, nat)>, securityKey: nat): Result<(), BuildError> {
    if !SignedUnder(signed, securityKey) then Err(SecurityRequirementAbsent)
    else if signature != multiset(signed) then Err(AggregateDoesNotVerify)
    else Ok(())
  }

  /** The gated signing of a distributor launch. A signature comes back only if it discharges
      every requirement exactly once, the launch's own security coin's among them; and it does
      come back whenever the gate accepts and that requirement is listed. */
  method SignDistributorLaunch(
    wallet: Wallet, spends: seq<CoinSpend>, required: seq<Requirement>, securityKey: nat,
    fundingCoinId: Id, rewardCatCoinId: Id, me: nat) returns (r: Result<Aggregate, BuildError>)
    ensures var gate := GateDistributorLaunch(wallet, spends, required, securityKey, fundingCoinId, rewardCatCoinId, me);
            r == if gate.Err? then Err(Refused(gate.error))
                 else if Requires(required, securityKey) then Ok(multiset(Discharged(required)))
                 else Err(SecurityRequirementAbsent)
  {
    var gate := GateDistributorLaunch(wallet, spends, required, securityKey, fundingCoinId, rewardCatCoinId, me);
    if gate.Err? {
      return Err(Refused(gate.error));
    }
    RequirementsAccepted(required, {wallet.key, securityKey}, me);
    DischargedUnder(required, securityKey);
    var signature: Aggregate := multiset{};
    var signed: seq<(nat, nat)> := [];
    for i := 0 to |required|
      invariant signed == Discharged(required)[..i]
      invariant signature == multiset(signed)
    {
      var requirement := required[i];
      assert Signable(requirement, {wallet.key, securityKey}, me);
      // The gate has refused every requirement under a third key.
      var signer := if requirement.key == wallet.key then wallet.key else securityKey;
      signature := signature + multiset{(signer, requirement.message)};
      signed := signed + [(requirement.key, requirement.message)];
    }
    assert signed == Discharged(required);
    var verdict := VerifyAggregateDischarges(signature, signed, securityKey);
    if verdict.Err? {
      return Err(verdict.error);
    }
    return Ok(signature);
  }
}
