/**
  Coin selection and the money arithmetic: which coin a mint spends, how its value is split,
  and that every bundle built from it balances to the fee it pays.
*/
module Funding {
  import opened Base
  import opened Gates
  import Chain
  import Evidence

  const SINGLETON_AMOUNT: u64 := 1
  const LAUNCHER_AMOUNT: u64 := 1
  const INTERMEDIATE_AMOUNT: u64 := 0
  const OFFER_XCH_AMOUNT: u64 := 1
  const MAX_MINT_FEE_MOJOS: u64 := 10_000_000_000

  /** `required_coin_amount`: the singleton mojo plus the fee. */
  function RequiredCoinAmount(fee: u64): u64 {
    SatAdd64(SINGLETON_AMOUNT, fee)
  }

  // ---------- selection ----------

  datatype SelectError =
    | ChainUnreachable
    | CoinsReserved(required: u64, available: u64)
    | InsufficientFunds(required: u64, available: u64)

  /** A coin this wallet can spend now: its own puzzle hash, confirmed, unspent. */
  predicate Own(rec: CoinRecord, puzzleHash: PuzzleHash) {
    rec.coin.puzzleHash == puzzleHash && rec.confirmedHeight.Some? && !rec.IsSpent()
  }

  predicate Covers(rec: CoinRecord, puzzleHash: PuzzleHash, required: u64) {
    Own(rec, puzzleHash) && rec.coin.amount >= required
  }

  predicate Candidate(rec: CoinRecord, puzzleHash: PuzzleHash, required: u64, reserved: set<Id>) {
    Covers(rec, puzzleHash, required) && rec.coin.Id() !in reserved
  }

  /** What one pass over the listing accumulates. */
  datatype Tally = Tally(best: Option<Coin>, available: u64, ownsACoveringCoin: bool)

  function Count(t: Tally, rec: CoinRecord, puzzleHash: PuzzleHash, required: u64, reserved: set<Id>): Tally {
    if !Own(rec, puzzleHash) then t
    else
      var seen := t.(available := if rec.coin.amount > t.available then rec.coin.amount else t.available);
      if rec.coin.amount < required then seen
      else if rec.coin.Id() in reserved then seen.(ownsACoveringCoin := true)
      else seen.(ownsACoveringCoin := true,
                 best := if t.best.None? || rec.coin.amount < t.best.value.amount then Some(rec.coin) else t.best)
  }

  function Scan(listing: seq<CoinRecord>, puzzleHash: PuzzleHash, required: u64, reserved: set<Id>): Tally {
    if listing == [] then Tally(None, 0, false)
    else
      var n := |listing| - 1;
      Count(Scan(listing[..n], puzzleHash, required, reserved), listing[n], puzzleHash, required, reserved)
  }

  /** `confirm_spendable_by_name`. */
  predicate ConfirmedByName(answer: Read<Option<CoinRecord>>, id: Id) {
    match answer
    case Answer(Some(rec)) => rec.coin.Id() == id && rec.confirmedHeight.Some? && !rec.IsSpent()
    case _ => false
  }

  /** `select_funding_coin`, as a function of the two reads it makes. */
  function Select(
    listing: Read<seq<CoinRecord>>, byName: Id -> Read<Option<CoinRecord>>,
    puzzleHash: PuzzleHash, fee: u64, reserved: set<Id>): Result<Coin, SelectError>
  {
    if listing.Unreadable? then Err(ChainUnreachable)
    else
      var required := RequiredCoinAmount(fee);
      var tally := Scan(listing.value, puzzleHash, required, reserved);
      if tally.best.None? then
        if tally.ownsACoveringCoin then Err(CoinsReserved(required, tally.available))
        else Err(InsufficientFunds(required, tally.available))
      else if ConfirmedByName(byName(tally.best.value.Id()), tally.best.value.Id()) then Ok(tally.best.value)
      else Err(ChainUnreachable)
  }

  method SelectFundingCoin(
    listing: Read<seq<CoinRecord>>, byName: Id -> Read<Option<CoinRecord>>,
    puzzleHash: PuzzleHash, fee: u64, reserved: set<Id>) returns (r: Result<Coin, SelectError>)
    ensures r == Select(listing, byName, puzzleHash, fee, reserved)
  {
    if listing.Unreadable? {
      return Err(ChainUnreachable);
    }
    var records := listing.value;
    var required := RequiredCoinAmount(fee);
    var best: Option<Coin> := None;
    var available := 0;
    var ownsACoveringCoin := false;
    for i := 0 to |records|
      invariant Tally(best, available, ownsACoveringCoin) == Scan(records[..i], puzzleHash, required, reserved)
    {
      var coin := records[i].coin;
      assert records[..i + 1][..i] == records[..i];
      if Own(records[i], puzzleHash) {
        if coin.amount > available {
          available := coin.amount;
        }
        if coin.amount >= required {
          ownsACoveringCoin := true;
          if coin.Id() !in reserved && (best.None? || coin.amount < best.value.amount) {
            best := Some(coin);
          }
        }
      }
    }
    assert records[..|records|] == records;
    if best.None? {
      return Err(if ownsACoveringCoin then CoinsReserved(required, available) else InsufficientFunds(required, available));
    }
    if !ConfirmedByName(byName(best.value.Id()), best.value.Id()) {
      return Err(ChainUnreachable);
    }
    return Ok(best.value);
  }

  /** The record at `i` is the earliest of the smallest candidates. */
  predicate EarliestSmallest(
    listing: seq<CoinRecord>, i: nat, puzzleHash: PuzzleHash, required: u64, reserved: set<Id>)
  {
    && i < |listing| && Candidate(listing[i], puzzleHash, required, reserved)
    && (forall j :: 0 <= j < |listing| && Candidate(listing[j], puzzleHash, required, reserved)
          ==> listing[i].coin.amount <= listing[j].coin.amount)
    && (forall j :: 0 <= j < i && Candidate(listing[j], puzzleHash, required, reserved)
          ==> listing[i].coin.amount < listing[j].coin.amount)
  }

  /** One more record that does not beat the best leaves it the earliest smallest. */
  lemma StillEarliest(listing: seq<CoinRecord>, i: nat, puzzleHash: PuzzleHash, required: u64, reserved: set<Id>)
    requires listing != [] && EarliestSmallest(listing[..|listing| - 1], i, puzzleHash, required, reserved)
    requires Candidate(listing[|listing| - 1], puzzleHash, required, reserved)
             ==> listing[i].coin.amount <= listing[|listing| - 1].coin.amount
    ensures EarliestSmallest(listing, i, puzzleHash, required, reserved)
  {
    assert forall j :: 0 <= j < |listing| - 1 ==> listing[..|listing| - 1][j] == listing[j];
  }

  /** A candidate below every earlier one is the new earliest smallest. */
  lemma NewlyEarliest(listing: seq<CoinRecord>, puzzleHash: PuzzleHash, required: u64, reserved: set<Id>)
    requires listing != [] && Candidate(listing[|listing| - 1], puzzleHash, required, reserved)
    requires forall r :: r in listing[..|listing| - 1] && Candidate(r, puzzleHash, required, reserved)
                         ==> listing[|listing| - 1].coin.amount < r.coin.amount
    ensures EarliestSmallest(listing, |listing| - 1, puzzleHash, required, reserved)
  {
    assert forall j :: 0 <= j < |listing| - 1 ==> listing[j] in listing[..|listing| - 1];
  }

  lemma SmallestBounds(listing: seq<CoinRecord>, i: nat, puzzleHash: PuzzleHash, required: u64, reserved: set<Id>)
    requires EarliestSmallest(listing, i, puzzleHash, required, reserved)
    ensures forall r :: r in listing && Candidate(r, puzzleHash, required, reserved) ==> listing[i].coin.amount <= r.coin.amount
  {
  }

  /** The pass keeps the earliest smallest candidate, and keeps none only when there is none. */
  lemma {:induction false} ScanBest(listing: seq<CoinRecord>, puzzleHash: PuzzleHash, required: u64, reserved: set<Id>)
    ensures var best := Scan(listing, puzzleHash, required, reserved).best;
            && (best.None? <==> forall r :: r in listing ==> !Candidate(r, puzzleHash, required, reserved))
            && (best.Some? ==> exists i: nat ::
                  EarliestSmallest(listing, i, puzzleHash, required, reserved) && listing[i].coin == best.value)
  {
    if listing != [] {
      var n := |listing| - 1;
      var front, last := listing[..n], listing[n];
      ScanBest(front, puzzleHash, required, reserved);
      assert forall r :: r in listing <==> r in front || r == last;
      var before := Scan(front, puzzleHash, required, reserved).best;
      if before.Some? {
        var i: nat :| EarliestSmallest(front, i, puzzleHash, required, reserved) && front[i].coin == before.value;
        SmallestBounds(front, i, puzzleHash, required, reserved);
        if Candidate(last, puzzleHash, required, reserved) && last.coin.amount < before.value.amount {
          NewlyEarliest(listing, puzzleHash, required, reserved);
        } else {
          StillEarliest(listing, i, puzzleHash, required, reserved);
        }
      } else if Candidate(last, puzzleHash, required, reserved) {
        NewlyEarliest(listing, puzzleHash, required, reserved);
      }
    }
  }

  /** It knows whether any own coin covers the mint, and the largest own coin, reserved or not. */
  lemma {:induction false} ScanTotals(listing: seq<CoinRecord>, puzzleHash: PuzzleHash, required: u64, reserved: set<Id>)
    ensures var t := Scan(listing, puzzleHash, required, reserved);
            && (t.ownsACoveringCoin <==> exists r :: r in listing && Covers(r, puzzleHash, required))
            && (forall r :: r in listing && Own(r, puzzleHash) ==> r.coin.amount <= t.available)
            && (t.available == 0 || exists r :: r in listing && Own(r, puzzleHash) && r.coin.amount == t.available)
  {
    if listing != [] {
      var n := |listing| - 1;
      ScanTotals(listing[..n], puzzleHash, required, reserved);
      assert forall r :: r in listing <==> r in listing[..n] || r == listing[n];
    }
  }

  /** Selection returns the earliest smallest sufficient unreserved own coin. It blames
      reservations exactly when sufficient own coins exist and all are reserved, blames the
      balance exactly when none exists, and reports the largest own coin, reserved or not. */
  lemma SelectionIsExact(
    records: seq<CoinRecord>, byName: Id -> Read<Option<CoinRecord>>, puzzleHash: PuzzleHash, fee: u64, reserved: set<Id>)
    ensures var r := Select(Answer(records), byName, puzzleHash, fee, reserved);
            var required := RequiredCoinAmount(fee);
            && (r.Ok? ==> exists i: nat ::
                  EarliestSmallest(records, i, puzzleHash, required, reserved) && records[i].coin == r.value)
            && (r.Err? && r.error.CoinsReserved? <==>
                  && (exists rec :: rec in records && Covers(rec, puzzleHash, required))
                  && (forall rec :: rec in records && Covers(rec, puzzleHash, required) ==> rec.coin.Id() in reserved))
            && (r.Err? && r.error.InsufficientFunds? <==>
                  forall rec :: rec in records ==> !Covers(rec, puzzleHash, required))
            && (r.Err? && !r.error.ChainUnreachable? ==>
                  && r.error.required == required
                  && (forall rec :: rec in records && Own(rec, puzzleHash) ==> rec.coin.amount <= r.error.available)
                  && (r.error.available == 0 ||
                      exists rec :: rec in records && Own(rec, puzzleHash) && rec.coin.amount == r.error.available))
  {
    ScanBest(records, puzzleHash, RequiredCoinAmount(fee), reserved);
    ScanTotals(records, puzzleHash, RequiredCoinAmount(fee), reserved);
  }

  /** A record that is not a spendable coin of this wallet's changes nothing, wherever in the
      listing it is inserted: a stranger cannot steer or block a mint with dust. */
  lemma {:induction false} NoiseIsInert(
    a: seq<CoinRecord>, noise: CoinRecord, b: seq<CoinRecord>, puzzleHash: PuzzleHash, required: u64, reserved: set<Id>)
    requires !Own(noise, puzzleHash)
    ensures Scan(a + [noise] + b, puzzleHash, required, reserved) == Scan(a + b, puzzleHash, required, reserved)
  {
    if b == [] {
      assert (a + [noise] + b)[..|a|] == a && a + b == a;
    } else {
      var n := |b| - 1;
      NoiseIsInert(a, noise, b[..n], puzzleHash, required, reserved);
      assert (a + [noise] + b)[..|a| + 1 + n] == a + [noise] + b[..n];
      assert (a + b)[..|a| + n] == a + b[..n];
    }
  }

  lemma SelectedIsFree(
    listing: Read<seq<CoinRecord>>, byName: Id -> Read<Option<CoinRecord>>, puzzleHash: PuzzleHash, fee: u64, reserved: set<Id>)
    requires Select(listing, byName, puzzleHash, fee, reserved).Ok?
    ensures var coin := Select(listing, byName, puzzleHash, fee, reserved).value;
            coin.Id() !in reserved && coin.puzzleHash == puzzleHash && coin.amount >= RequiredCoinAmount(fee)
  {
    ScanBest(listing.value, puzzleHash, RequiredCoinAmount(fee), reserved);
  }

  // ---------- what a bundle creates ----------

  /** One spend of a bundle and the coins it creates. */
  datatype Spend = Spend(coin: Coin, outputs: seq<Coin>)

  function Amounts(coins: seq<Coin>): nat {
    if coins == [] then 0 else coins[0].amount + Amounts(coins[1..])
  }

  function TotalSpent(spends: seq<Spend>): nat {
    if spends == [] then 0 else spends[0].coin.amount + TotalSpent(spends[1..])
  }

  function TotalCreated(spends: seq<Spend>): nat {
    if spends == [] then 0 else Amounts(spends[0].outputs) + TotalCreated(spends[1..])
  }

  lemma FewAmounts(a: Coin, b: Coin, c: Coin)
    ensures Amounts([]) == 0 && Amounts([a]) == a.amount
    ensures Amounts([a, b]) == a.amount + b.amount
    ensures Amounts([a, b, c]) == a.amount + b.amount + c.amount
  {
    assert Amounts([b]) == b.amount && Amounts([c]) == c.amount;
    assert [a, b][1..] == [b] && [b, c][1..] == [c] && [a, b, c][1..] == [b, c];
    assert Amounts([b, c]) == b.amount + c.amount;
  }

  lemma FourTotals(s: seq<Spend>)
    requires |s| == 4
    ensures TotalSpent(s) == s[0].coin.amount + s[1].coin.amount + s[2].coin.amount + s[3].coin.amount
    ensures TotalCreated(s) ==
            Amounts(s[0].outputs) + Amounts(s[1].outputs) + Amounts(s[2].outputs) + Amounts(s[3].outputs)
  {
    assert s[1..] == [s[1], s[2], s[3]];
    ThreeTotals(s[1..]);
  }

  lemma ThreeTotals(s: seq<Spend>)
    requires |s| == 3
    ensures TotalSpent(s) == s[0].coin.amount + s[1].coin.amount + s[2].coin.amount
    ensures TotalCreated(s) == Amounts(s[0].outputs) + Amounts(s[1].outputs) + Amounts(s[2].outputs)
  {
    assert s[1..] == [s[1], s[2]] && s[1..][1..] == [s[2]] && s[1..][1..][1..] == [];
  }

  /** Children of the spent coin, no two alike: consensus refuses a duplicate output. */
  predicate Clean(s: Spend) {
    && (forall o :: o in s.outputs ==> o.parent == s.coin.Id())
    && (forall i, j :: 0 <= i < j < |s.outputs| ==> s.outputs[i] != s.outputs[j])
  }

  function AsBundle(spends: seq<Spend>): Chain.Bundle {
    Chain.Bundle(set s | s in spends :: s.coin, set s, o | s in spends && o in s.outputs :: o, map[])
  }

  function AsCoinSpends(spends: seq<Spend>): seq<CoinSpend> {
    seq(|spends|, i requires 0 <= i < |spends| => CoinSpend(spends[i].coin, true))
  }

  // ---------- the DID bundle ----------

  /** `split_change_and_fee`: a change that would collide with the funding coin goes to the fee. */
  function SplitChangeAndFee(sourceAmount: u64, requestedFee: u64): (u64, u64) {
    var change := SatSub(SatSub(sourceAmount, SINGLETON_AMOUNT), requestedFee);
    if change == SINGLETON_AMOUNT then (0, SatAdd64(requestedFee, change)) else (change, requestedFee)
  }

  /** The paid fee is the requested one, or one mojo more exactly when the source coin holds
      two mojos beyond it. */
  lemma PaidFee(sourceAmount: u64, fee: u64)
    requires fee <= MAX_MINT_FEE_MOJOS && sourceAmount >= RequiredCoinAmount(fee)
    ensures var (change, paid) := SplitChangeAndFee(sourceAmount, fee);
            && SINGLETON_AMOUNT + change + paid == sourceAmount
            && change != SINGLETON_AMOUNT
            && paid == (if sourceAmount == fee + 2 then fee + 1 else fee)
            && paid <= MAX_MINT_FEE_MOJOS + 1
  {
  }

  /** A DID's inner puzzle is fixed by its owner. */
  function DidState(owner: PuzzleHash): PuzzleHash {
    owner
  }

  function FundingCoin(source: Coin, owner: PuzzleHash): Coin {
    Coin(source.Id(), owner, SINGLETON_AMOUNT)
  }

  function LauncherOf(funding: Coin): Coin {
    Coin(funding.Id(), SingletonLauncher, SINGLETON_AMOUNT)
  }

  function SingletonChild(parent: Coin, launcher: Coin, state: PuzzleHash): Coin {
    Coin(parent.Id(), Singleton(launcher.Id(), state), SINGLETON_AMOUNT)
  }

  /** The DID coin a mint from `source` produces: funding coin, launcher, eve, settled DID. */
  function DidCoin(source: Coin, owner: PuzzleHash): Coin {
    var launcher := LauncherOf(FundingCoin(source, owner));
    SingletonChild(SingletonChild(launcher, launcher, DidState(owner)), launcher, DidState(owner))
  }

  /** `build_mint_spends`. */
  function DidSpends(owner: PuzzleHash, source: Coin, fee: u64): seq<Spend>
  {
    var (change, _) := SplitChangeAndFee(source.amount, fee);
    var funding := FundingCoin(source, owner);
    var launcher := LauncherOf(funding);
    var eve := SingletonChild(launcher, launcher, DidState(owner));
    [ Spend(source, [funding] + if change > 0 then [Coin(source.Id(), owner, change)] else []),
      Spend(funding, [launcher]),
      Spend(launcher, [eve]),
      Spend(eve, [DidCoin(source, owner)]) ]
  }

  function PendingDid(owner: PuzzleHash, source: Coin, pushedAtHeight: u32): Evidence.PendingMint {
    Evidence.PendingMint(
      LauncherOf(FundingCoin(source, owner)).Id(), DidCoin(source, owner).Id(), source.Id(), pushedAtHeight)
  }

  /** Everything the source coin held is a DID mojo, change or fee, and no two outputs collide. */
  lemma DidBundleBalances(owner: PuzzleHash, source: Coin, fee: u64)
    requires fee <= MAX_MINT_FEE_MOJOS && source.amount >= RequiredCoinAmount(fee)
    ensures var spends := DidSpends(owner, source, fee);
            && TotalSpent(spends) == TotalCreated(spends) + SplitChangeAndFee(source.amount, fee).1
            && forall s :: s in spends ==> Clean(s)
  {
    PaidFee(source.amount, fee);
    var spends := DidSpends(owner, source, fee);
    FourTotals(spends);
    FewAmounts(spends[0].outputs[0], Coin(source.Id(), owner, SplitChangeAndFee(source.amount, fee).0), source);
    FewAmounts(spends[1].outputs[0], source, source);
    FewAmounts(spends[2].outputs[0], source, source);
    FewAmounts(spends[3].outputs[0], source, source);
  }

  /** The bundle is the one its pending mint describes: it consumes the named source and creates
      the named DID coin, which is what makes a spent source without that coin a proof of death. */
  lemma DidBundleIsItsPending(owner: PuzzleHash, source: Coin, fee: u64, pushedAtHeight: u32)
    ensures var b, pending := AsBundle(DidSpends(owner, source, fee)), PendingDid(owner, source, pushedAtHeight);
            && Chain.ParentSpent(b)
            && CoinOf(pending.sourceCoinId) in b.spends
            && CoinOf(pending.didCoinId) in b.outputs && pending.didCoinId.parent.Of?
  {
    var spends := DidSpends(owner, source, fee);
    var b := AsBundle(spends);
    assert forall i :: 0 <= i < 4 ==> spends[i] in spends;
    forall o | o in b.outputs ensures o.parent.Of? && CoinOf(o.parent) in b.spends {
      var s :| s in spends && o in s.outputs;
      assert o.parent == s.coin.Id();
    }
    assert DidCoin(source, owner) in spends[3].outputs;
  }

  lemma ChildIsLonger(parent: Coin, child: Coin)
    requires child.parent == parent.Id()
    ensures IdSize(child.Id()) == IdSize(parent.Id()) + 1
  {
  }

  /** The coins of a DID mint are a line of descent from its source. */
  lemma DidCoinsDescend(owner: PuzzleHash, source: Coin, fee: u64, i: nat)
    requires i < 4
    ensures var spends := DidSpends(owner, source, fee);
            && IdSize(spends[i].coin.Id()) == IdSize(source.Id()) + i
            && (i > 0 ==> spends[i].coin in spends[i - 1].outputs)
  {
    var spends := DidSpends(owner, source, fee);
    ChildIsLonger(source, spends[1].coin);
    ChildIsLonger(spends[1].coin, spends[2].coin);
    ChildIsLonger(spends[2].coin, spends[3].coin);
  }

  /** And it needs nothing from the chain but that source coin. */
  lemma DidBundleNeedsOneCoin(owner: PuzzleHash, source: Coin, fee: u64)
    ensures Chain.FundedBy(AsBundle(DidSpends(owner, source, fee)), {source})
  {
    var spends := DidSpends(owner, source, fee);
    var b := AsBundle(spends);
    DidBundleIsItsPending(owner, source, fee, 0);
    forall o | o in b.outputs ensures o != source {
      var s :| s in spends && o in s.outputs;
      var i :| 0 <= i < 4 && spends[i] == s;
      DidCoinsDescend(owner, source, fee, i);
      ChildIsLonger(s.coin, o);
    }
    forall c | c in b.spends && c != source ensures c in b.outputs {
      var s :| s in spends && s.coin == c;
      var i :| 0 <= i < 4 && spends[i] == s;
      DidCoinsDescend(owner, source, fee, i);
      assert spends[i - 1] in spends;
    }
  }

  /** The mint's own bundle always passes the mint's own gate. */
  lemma DidBundlePassesItsGate(wallet: Wallet, source: Coin, fee: u64, required: seq<Requirement>, me: nat)
    requires source.puzzleHash == wallet.puzzleHash
    requires forall r :: r in required ==> Signable(r, {wallet.key}, me)
    ensures GateDidMint(wallet, AsCoinSpends(DidSpends(wallet.puzzleHash, source, fee)), required, me).Ok?
  {
    var spends := AsCoinSpends(DidSpends(wallet.puzzleHash, source, fee));
    var funding := FundingCoin(source, wallet.puzzleHash);
    var launcher := LauncherOf(funding);
    var eve := SingletonChild(launcher, launcher, DidState(wallet.puzzleHash));
    assert spends == [CoinSpend(source, true), CoinSpend(funding, true), CoinSpend(launcher, true), CoinSpend(eve, true)];
    var ids := SpentIds(spends);
    assert ids == {source.Id(), funding.Id(), launcher.Id(), eve.Id()};
    assert IdSize(source.Id()) == IdSize(source.parent) + 1;
    assert IdSize(funding.Id()) == IdSize(source.parent) + 2;
    assert IdSize(launcher.Id()) == IdSize(source.parent) + 3;
    assert IdSize(eve.Id()) == IdSize(source.parent) + 4;
    assert source.parent !in ids;
    RequirementsAccepted(required, {wallet.key}, me);
    assert spends[1..] == [spends[1], spends[2], spends[3]] && spends[2..] == [spends[2], spends[3]] && spends[3..] == [spends[3]];
    assert Roots(spends[3..], ids) == [];
    assert Roots(spends[2..], ids) == [] by { assert spends[2..][1..] == spends[3..]; }
    assert Roots(spends[1..], ids) == [] by { assert spends[1..][1..] == spends[2..]; }
    assert Roots(spends, ids) == [source];
  }

  // ---------- the store bundle ----------

  function IntermediateCoin(didCoinId: Id): Coin {
    Coin(didCoinId, ProfileIntermediate, INTERMEDIATE_AMOUNT)
  }

  function StoreLauncher(didCoinId: Id): Coin {
    Coin(IntermediateCoin(didCoinId).Id(), SingletonLauncher, LAUNCHER_AMOUNT)
  }

  function StoreCoin(didCoinId: Id, root: nat, owner: PuzzleHash): Coin {
    SingletonChild(StoreLauncher(didCoinId), StoreLauncher(didCoinId), StoreState(root, owner))
  }

  /** `spend_funding_coin`: the change, if the coin covers the launcher's mojo and the fee. */
  function StoreChange(fundingAmount: u64, fee: u64): Option<u64> {
    if fundingAmount < LAUNCHER_AMOUNT || fundingAmount - LAUNCHER_AMOUNT < fee then None
    else Some(fundingAmount - LAUNCHER_AMOUNT - fee)
  }

  /** The spends of a store launch: the intermediate, the launcher, the DID with its own
      recreation, and the coin that pays the launcher's mojo. */
  function StoreSpends(did: Coin, funding: Coin, root: nat, owner: PuzzleHash, change: u64): seq<Spend> {
    var launcher := StoreLauncher(did.Id());
    [ Spend(IntermediateCoin(did.Id()), [launcher]),
      Spend(launcher, [StoreCoin(did.Id(), root, owner)]),
      Spend(did, [Coin(did.Id(), did.puzzleHash, did.amount), IntermediateCoin(did.Id())]),
      Spend(funding, if change > 0 then [Coin(funding.Id(), owner, change)] else []) ]
  }

  function PendingStore(did: Coin, root: nat, owner: PuzzleHash, pushedAtHeight: u32): Evidence.PendingStoreLaunch {
    Evidence.PendingStoreLaunch(
      StoreLauncher(did.Id()).Id(), StoreCoin(did.Id(), root, owner).Id(), did.Id(), root, pushedAtHeight)
  }

  /** The intermediate has no mojo of its own and the launcher needs one: the funding coin leaves
      exactly that behind, so the bundle balances to the fee. */
  lemma StoreBundleBalances(did: Coin, funding: Coin, root: nat, owner: PuzzleHash, fee: u64)
    requires StoreChange(funding.amount, fee).Some?
    requires did.puzzleHash != ProfileIntermediate
    ensures var spends := StoreSpends(did, funding, root, owner, StoreChange(funding.amount, fee).value);
            && TotalSpent(spends) == TotalCreated(spends) + fee
            && forall s :: s in spends ==> Clean(s)
  {
    var change := StoreChange(funding.amount, fee).value;
    var spends := StoreSpends(did, funding, root, owner, change);
    FourTotals(spends);
    FewAmounts(spends[0].outputs[0], did, did);
    FewAmounts(spends[1].outputs[0], did, did);
    FewAmounts(spends[2].outputs[0], IntermediateCoin(did.Id()), did);
    FewAmounts(Coin(funding.Id(), owner, change), did, did);
  }

  /** Selection never hands the launch a coin that cannot pay for it. */
  lemma SelectedCoversTheLaunch(amount: u64, fee: u64)
    requires fee <= MAX_MINT_FEE_MOJOS
    ensures amount >= RequiredCoinAmount(fee) <==> StoreChange(amount, fee).Some?
  {
  }

  /** The launcher's lineage is legible: the store coin names the DID coin three ids up, and the
      launcher hangs off the even-amount intermediate, never off the DID itself. */
  lemma StoreDescendsFromItsDid(did: Coin, root: nat, owner: PuzzleHash, height: u32)
    ensures var pending := PendingStore(did, root, owner, height);
            && pending.storeCoinId.parent == pending.launcherId
            && pending.launcherId.parent == Of(did.Id(), ProfileIntermediate, 0)
            && pending.launcherId.parent.parent == pending.didCoinId
            && pending.launcherId != Of(did.Id(), SingletonLauncher, LAUNCHER_AMOUNT)
  {
    assert IdSize(IntermediateCoin(did.Id()).Id()) == IdSize(did.Id()) + 1;
  }

  /** The launch's own bundle passes its gate exactly when the funding coin is at this wallet's
      puzzle hash and neither input is a child of another coin the bundle spends. */
  lemma StoreBundlePassesItsGate(
    wallet: Wallet, did: Coin, funding: Coin, root: nat, change: u64, required: seq<Requirement>, me: nat)
    requires forall r :: r in required ==> Signable(r, {wallet.key}, me)
    requires did.puzzleHash.Singleton? && wallet.puzzleHash.Standard?
    ensures var spends := AsCoinSpends(StoreSpends(did, funding, root, wallet.puzzleHash, change));
            GateStoreLaunch(wallet, spends, required, did.Id(), me).Ok? <==>
              && funding.puzzleHash == wallet.puzzleHash
              && did.parent !in SpentIds(spends) && funding.parent !in SpentIds(spends)
  {
    var launch := StoreSpends(did, funding, root, wallet.puzzleHash, change);
    var spends := AsCoinSpends(launch);
    var intermediate, launcher := CoinSpend(IntermediateCoin(did.Id()), true), CoinSpend(StoreLauncher(did.Id()), true);
    assert spends == [intermediate, launcher, CoinSpend(did, true), CoinSpend(funding, true)];
    var ids := SpentIds(spends);
    assert ids == {intermediate.coin.Id(), launcher.coin.Id(), did.Id(), funding.Id()};
    RequirementsAccepted(required, {wallet.key}, me);
    assert spends[3..] == [spends[3]];
    assert Roots(spends[3..], ids) == if funding.parent in ids then [] else [funding];
    assert Roots(spends[2..], ids) == (if did.parent in ids then [] else [did]) + Roots(spends[3..], ids) by {
      assert spends[2..][1..] == spends[3..];
    }
    assert Roots(spends[1..], ids) == Roots(spends[2..], ids) by { assert spends[1..][1..] == spends[2..]; }
    assert Roots(spends, ids) == Roots(spends[2..], ids);
  }

  // ---------- the distributor's funding spend ----------

  /** `required_xch`, with its checked additions. */
  function RequiredXch(managerAmount: u64, fee: u64): Option<u64> {
    if OFFER_XCH_AMOUNT + managerAmount + fee > U64_MAX then None else Some(OFFER_XCH_AMOUNT + managerAmount + fee)
  }

  datatype RewardError = RewardFundsShort(required: u64, available: u64)

  function RewardChange(fundingAmount: u64, managerAmount: u64, fee: u64): Result<u64, RewardError> {
    match RequiredXch(managerAmount, fee)
    case None => Err(RewardFundsShort(U64_MAX, fundingAmount))
    case Some(required) =>
      if fundingAmount < required then Err(RewardFundsShort(required, fundingAmount)) else Ok(fundingAmount - required)
  }

  /** The XCH side of a launch: the funding coin pays the manager's launcher and the offer, the
      offer's mojo passes through the security coin to the distributor's launcher. */
  function RewardSpends(funding: Coin, managerAmount: u64, change: u64, securityKey: nat): seq<Spend> {
    var manager := Coin(funding.Id(), SingletonLauncher, managerAmount);
    var settlement := Coin(funding.Id(), Settlement, OFFER_XCH_AMOUNT);
    var security := Coin(settlement.Id(), Standard(securityKey), OFFER_XCH_AMOUNT);
    [ Spend(funding, [manager, settlement] + if change > 0 then [Coin(funding.Id(), funding.puzzleHash, change)] else []),
      Spend(settlement, [security]),
      Spend(security, [Coin(security.Id(), SingletonLauncher, OFFER_XCH_AMOUNT)]) ]
  }

  /** Change is exact or refused, and the launch's XCH balances to the fee with clean outputs. */
  lemma RewardBundleBalances(funding: Coin, managerAmount: u64, fee: u64, securityKey: nat)
    requires funding.puzzleHash.Standard?
    ensures RewardChange(funding.amount, managerAmount, fee).Ok?
            <==> OFFER_XCH_AMOUNT + managerAmount + fee <= funding.amount
    ensures RewardChange(funding.amount, managerAmount, fee).Ok? ==>
              var spends := RewardSpends(funding, managerAmount, RewardChange(funding.amount, managerAmount, fee).value, securityKey);
              && TotalSpent(spends) == TotalCreated(spends) + fee
              && forall s :: s in spends ==> Clean(s)
  {
    if RewardChange(funding.amount, managerAmount, fee).Ok? {
      var change := RewardChange(funding.amount, managerAmount, fee).value;
      var spends := RewardSpends(funding, managerAmount, change, securityKey);
      var outputs := spends[0].outputs;
      ThreeTotals(spends);
      FewAmounts(outputs[0], outputs[1], Coin(funding.Id(), funding.puzzleHash, change));
      FewAmounts(spends[1].outputs[0], funding, funding);
      FewAmounts(spends[2].outputs[0], funding, funding);
    }
  }
}
