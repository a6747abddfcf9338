/**
  A chain as a sequence of blocks, the consensus rules the arguments rest on, what an
  honest source reports about one chain state, and the reorganisations a burial of
  `MIN_CONFIRMATION_DEPTH` blocks survives.
*/
module Chain {
  import opened Base

  /** An atomic bundle: the coins it consumes, the coins it creates, and the distributor
      generation the creating spend of each launcher advertises. */
  datatype Bundle = Bundle(spends: set<Coin>, outputs: set<Coin>, adverts: map<Id, Generation>)

  datatype Block = Block(rewards: set<Coin>, bundles: set<Bundle>)

  type Blocks = seq<Block>

  const MIN_CONFIRMATION_DEPTH: u32 := 6

  /** The deepest reorganisation a buried block survives. */
  const MAX_REORG: nat := MIN_CONFIRMATION_DEPTH - 1

  ghost predicate IncludedAt(c: Blocks, b: Bundle, i: nat) {
    i < |c| && b in c[i].bundles
  }

  ghost predicate Included(c: Blocks, b: Bundle) {
    exists i: nat :: IncludedAt(c, b, i)
  }

  ghost predicate CreatedAt(c: Blocks, coin: Coin, i: nat) {
    i < |c| && (coin in c[i].rewards || exists b :: IncludedAt(c, b, i) && coin in b.outputs)
  }

  ghost predicate SpentAt(c: Blocks, coin: Coin, i: nat) {
    exists b :: IncludedAt(c, b, i) && coin in b.spends
  }

  ghost predicate Exists(c: Blocks, coin: Coin) {
    exists i: nat :: CreatedAt(c, coin, i)
  }

  ghost predicate Spent(c: Blocks, coin: Coin) {
    exists i: nat :: SpentAt(c, coin, i)
  }

  /** The parent of every output is a coin the same bundle spends. */
  ghost predicate ParentSpent(b: Bundle) {
    forall o :: o in b.outputs ==> o.parent.Of? && CoinOf(o.parent) in b.spends
  }

  ghost predicate SingleSpend(c: Blocks) {
    forall b, i: nat, b', j: nat, coin ::
      IncludedAt(c, b, i) && IncludedAt(c, b', j) && coin in b.spends && coin in b'.spends
      ==> i == j && b == b'
  }

  ghost predicate SpentAfterCreation(c: Blocks) {
    forall coin, i: nat :: SpentAt(c, coin, i) ==> exists j: nat :: j <= i && CreatedAt(c, coin, j)
  }

  /** A farmer's reward has no parent coin, and no two blocks pay the same one. */
  ghost predicate RewardsAreFresh(c: Blocks) {
    && (forall i: nat, r :: i < |c| && r in c[i].rewards ==> r.parent.Raw?)
    && (forall i: nat, j: nat, r ::
          i < |c| && j < |c| && r in c[i].rewards && r in c[j].rewards ==> i == j)
  }

  ghost predicate Valid(c: Blocks) {
    && 0 < |c| <= U32_MAX + 1
    && c[0] == Block({}, {})
    && (forall b, i: nat :: IncludedAt(c, b, i) ==> ParentSpent(b))
    && SingleSpend(c)
    && SpentAfterCreation(c)
    && RewardsAreFresh(c)
  }

  function Peak(c: Blocks): u32
    requires 0 < |c| <= U32_MAX + 1
  {
    |c| - 1
  }

  /** A coin is created at one height only: its parent can be spent but once. */
  lemma CreatedOnce(c: Blocks, coin: Coin, i: nat, j: nat)
    requires Valid(c) && CreatedAt(c, coin, i) && CreatedAt(c, coin, j)
    ensures i == j
  {
    assert forall b, k: nat :: IncludedAt(c, b, k) && coin in b.outputs ==> ParentSpent(b);
    if coin !in c[i].rewards && coin !in c[j].rewards {
      var b :| IncludedAt(c, b, i) && coin in b.outputs;
      var b' :| IncludedAt(c, b', j) && coin in b'.outputs;
      assert CoinOf(coin.parent) in b.spends && CoinOf(coin.parent) in b'.spends;
    }
  }

  /** What a chain carries, unless a farmer was paid it, is there because its parent was spent. */
  lemma ParentExists(c: Blocks, coin: Coin)
    requires Valid(c) && Exists(c, coin) && coin.parent.Of?
    ensures Exists(c, CoinOf(coin.parent)) && Spent(c, CoinOf(coin.parent))
  {
    var i: nat :| CreatedAt(c, coin, i);
    var maker :| IncludedAt(c, maker, i) && coin in maker.outputs;
    assert ParentSpent(maker);
    assert SpentAt(c, CoinOf(coin.parent), i);
  }

  lemma SpentOnce(c: Blocks, coin: Coin, i: nat, j: nat)
    requires Valid(c) && SpentAt(c, coin, i) && SpentAt(c, coin, j)
    ensures i == j
  {
    var b :| IncludedAt(c, b, i) && coin in b.spends;
    var b' :| IncludedAt(c, b', j) && coin in b'.spends;
  }

  // ---------- the smallest chain with a bundle on it ----------

  /** `b` can be included on farmers' rewards alone. */
  ghost predicate Spendable(rewards: set<Coin>, b: Bundle) {
    && (forall r :: r in rewards ==> r.parent.Raw?)
    && ParentSpent(b)
    && b.spends <= rewards + b.outputs
  }

  function OneBundle(rewards: set<Coin>, b: Bundle): Blocks {
    [Block({}, {}), Block(rewards, {}), Block({}, {b})]
  }

  lemma OneBundleIsValid(rewards: set<Coin>, b: Bundle)
    requires Spendable(rewards, b)
    ensures Valid(OneBundle(rewards, b)) && Valid(OneBundle(rewards, b)[..2])
    ensures IncludedAt(OneBundle(rewards, b), b, 2)
    ensures forall s :: s in b.spends ==> SpentAt(OneBundle(rewards, b), s, 2)
    ensures forall r :: r in rewards ==> CreatedAt(OneBundle(rewards, b), r, 1)
    ensures forall o :: o in b.outputs ==> CreatedAt(OneBundle(rewards, b), o, 2)
    ensures forall o: Coin :: o.parent.Of? && o !in b.outputs ==> !Exists(OneBundle(rewards, b), o)
    ensures forall o: Coin :: o.parent.Of? ==> !Exists(OneBundle(rewards, b)[..2], o)
  {
    var c := OneBundle(rewards, b);
    assert forall b', i: nat :: IncludedAt(c, b', i) <==> b' == b && i == 2;
    assert forall b', i: nat :: !IncludedAt(c[..2], b', i);
    assert forall s, i: nat :: SpentAt(c, s, i) <==> s in b.spends && i == 2;
    assert forall r :: r in rewards ==> CreatedAt(c, r, 1);
    assert forall o :: o in b.outputs ==> CreatedAt(c, o, 2);
  }

  function Empties(n: nat): Blocks {
    seq(n, i => Block({}, {}))
  }

  lemma PadIsValid(c: Blocks, n: nat)
    requires Valid(c) && |c| + n <= U32_MAX + 1
    ensures Valid(c + Empties(n))
    ensures forall b, i: nat :: IncludedAt(c + Empties(n), b, i) <==> IncludedAt(c, b, i)
    ensures forall coin, i: nat :: CreatedAt(c + Empties(n), coin, i) <==> CreatedAt(c, coin, i)
    ensures forall coin, i: nat :: SpentAt(c + Empties(n), coin, i) <==> SpentAt(c, coin, i)
  {
    var c' := c + Empties(n);
    assert forall b, i: nat :: IncludedAt(c', b, i) <==> IncludedAt(c, b, i);
    assert forall coin, i: nat :: SpentAt(c', coin, i) <==> SpentAt(c, coin, i);
    assert forall coin, i: nat :: CreatedAt(c, coin, i) <==> CreatedAt(c', coin, i);
  }

  // ---------- what an honest source says about one chain state ----------

  /** What one node holds at one instant: a chain, and bundles that could still join it. */
  datatype View = View(blocks: Blocks, mempool: set<Bundle>)

  ghost predicate ValidView(v: View) {
    && Valid(v.blocks)
    && forall b, s :: b in v.mempool && s in b.spends ==> !Spent(v.blocks, s)
  }

  /** `b` is the only bundle, on chain or waiting, that creates `coin`. */
  ghost predicate OnlyBy(v: View, coin: Coin, b: Bundle) {
    forall b' :: (Included(v.blocks, b') || b' in v.mempool) && coin in b'.outputs ==> b' == b
  }

  /** An honest answer about `id`. A coin no block carries is unknown or, at most, seen in the
      mempool: present, with no height at all. */
  ghost predicate Reports(v: View, id: Id, answer: Option<CoinRecord>) {
    match answer
    case None => id.Of? ==> !Exists(v.blocks, CoinOf(id))
    case Some(rec) =>
      && rec.coin.Id() == id
      && match rec.confirmedHeight
         case None =>
           && !Exists(v.blocks, rec.coin) && rec.spentHeight == None
           && exists b :: b in v.mempool && rec.coin in b.outputs
         case Some(h) =>
           && CreatedAt(v.blocks, rec.coin, h)
           && match rec.spentHeight
              case None => !Spent(v.blocks, rec.coin)
              case Some(s) => SpentAt(v.blocks, rec.coin, s)
  }

  /** What the spend that created the launcher `id` advertises. */
  ghost predicate Advertises(v: View, id: Id, answer: Option<(Id, Generation)>) {
    id.Of? ==>
      forall b :: Included(v.blocks, b) && CoinOf(id) in b.outputs ==>
        answer == AdvertIn(b, id)
  }

  function AdvertIn(b: Bundle, id: Id): Option<(Id, Generation)> {
    if id in b.adverts then Some((id, b.adverts[id])) else None
  }

  /** The read at position `step` of a call is answered from `v`, if it is answered. */
  ghost predicate HonestAt(source: Source, step: nat, v: View)
    requires Valid(v.blocks)
  {
    && (forall id :: source.coin(step, id).Answer? ==> Reports(v, id, source.coin(step, id).value))
    && (source.peak(step).Answer? && source.peak(step).value.Some? ==> source.peak(step).value.value == Peak(v.blocks))
    && (forall id :: source.discover(step, id).Answer? ==> Advertises(v, id, source.discover(step, id).value))
  }

  /** One view answers every read of a call; any read may still fail. */
  ghost predicate Honest(source: Source, v: View)
    requires Valid(v.blocks)
  {
    && (forall step, id :: source.coin(step, id).Answer? ==> Reports(v, id, source.coin(step, id).value))
    && (forall step :: source.peak(step).Answer? && source.peak(step).value.Some?
          ==> source.peak(step).value.value == Peak(v.blocks))
    && (forall step, id :: source.discover(step, id).Answer? ==> Advertises(v, id, source.discover(step, id).value))
  }

  // A source that answers every read from the chain alone, so that `Honest` is no empty promise.

  ghost function RecordOf(c: Blocks, id: Id): Option<CoinRecord>
    requires Valid(c)
  {
    if id.Raw? || !Exists(c, CoinOf(id)) then None
    else
      var coin := CoinOf(id);
      var h: nat :| CreatedAt(c, coin, h);
      if !Spent(c, coin) then Some(CoinRecord(coin, Some(h), None))
      else
        var s: nat :| SpentAt(c, coin, s);
        assert exists b :: IncludedAt(c, b, s) && coin in b.spends;
        Some(CoinRecord(coin, Some(h), Some(s)))
  }

  ghost function AdvertOf(c: Blocks, id: Id): Option<(Id, Generation)> {
    if id.Of? && exists b :: Included(c, b) && CoinOf(id) in b.outputs then
      var b :| Included(c, b) && CoinOf(id) in b.outputs;
      AdvertIn(b, id)
    else None
  }

  ghost function Oracle(c: Blocks): Source
    requires Valid(c)
  {
    Source(
      (step: nat, id: Id) => Answer(RecordOf(c, id)),
      (step: nat) => Answer(Some(Peak(c))),
      (step: nat, id: Id) => Answer(AdvertOf(c, id)))
  }

  lemma CreatedByOne(c: Blocks, coin: Coin, b: Bundle, b': Bundle)
    requires Valid(c) && Included(c, b) && Included(c, b') && coin in b.outputs && coin in b'.outputs
    ensures b == b'
  {
    var i: nat :| IncludedAt(c, b, i);
    var j: nat :| IncludedAt(c, b', j);
    assert ParentSpent(b) && ParentSpent(b');
    assert CoinOf(coin.parent) in b.spends && CoinOf(coin.parent) in b'.spends;
  }

  lemma OracleIsHonest(c: Blocks)
    requires Valid(c)
    ensures Honest(Oracle(c), View(c, {}))
  {
    var v := View(c, {});
    forall id ensures Reports(v, id, RecordOf(c, id)) {
    }
    forall id ensures Advertises(v, id, AdvertOf(c, id)) {
      if id.Of? {
        forall b | Included(c, b) && CoinOf(id) in b.outputs ensures AdvertOf(c, id) == AdvertIn(b, id) {
          var b' :| Included(c, b') && CoinOf(id) in b'.outputs && AdvertOf(c, id) == AdvertIn(b', id);
          CreatedByOne(c, CoinOf(id), b, b');
        }
      }
    }
  }

  // A call whose reads straddle changes of the chain: the first read is answered from the first
  // chain, the next from the next, and every read past the end from the last.

  function At(chains: seq<Blocks>, step: nat): Blocks
    requires chains != []
  {
    chains[if step < |chains| then step else |chains| - 1]
  }

  ghost function ReadFrom(chains: seq<Blocks>): Source
    requires chains != [] && forall i :: 0 <= i < |chains| ==> Valid(chains[i])
  {
    Source(
      (step: nat, id: Id) => Answer(RecordOf(At(chains, step), id)),
      (step: nat) =>
        assert Valid(At(chains, step));
        Answer(Some(Peak(At(chains, step)))),
      (step: nat, id: Id) => Answer(AdvertOf(At(chains, step), id)))
  }

  lemma ReadFromIsHonest(chains: seq<Blocks>, step: nat)
    requires chains != [] && forall i :: 0 <= i < |chains| ==> Valid(chains[i])
    ensures HonestAt(ReadFrom(chains), step, View(At(chains, step), {}))
  {
    OracleIsHonest(At(chains, step));
  }

  // ---------- reorganisations ----------

  /** The blocks no reorganisation of at most `MAX_REORG` blocks can reach. */
  function Settled(c: Blocks): Blocks {
    if |c| <= MAX_REORG then [] else c[..|c| - MAX_REORG]
  }

  /** One step of the chain: growth, or a reorganisation that drops at most `MAX_REORG` tip
      blocks and never leaves a shorter chain. */
  ghost predicate Follows(c: Blocks, c': Blocks) {
    |c| <= |c'| && Settled(c) <= c'
  }

  ghost predicate History(h: seq<Blocks>) {
    && 0 < |h|
    && (forall k :: 0 <= k < |h| ==> Valid(h[k]))
    && (forall k :: 0 <= k < |h| - 1 ==> Follows(h[k], h[k + 1]))
  }

  /** Settled blocks stay in every later chain, however many reorganisations pass. */
  lemma {:induction false} SettledStays(h: seq<Blocks>, k: nat)
    requires History(h) && k < |h|
    ensures |h[0]| <= |h[k]| && Settled(h[0]) <= h[k]
  {
    if k > 0 {
      SettledStays(h, k - 1);
      assert Follows(h[k - 1], h[k - 1 + 1]);
      assert Settled(h[0]) <= Settled(h[k - 1]);
    }
  }

  lemma SettledBlock(h: seq<Blocks>, k: nat, i: nat)
    requires History(h) && k < |h| && i + MAX_REORG < |h[0]|
    ensures i < |h[k]| && h[k][i] == h[0][i]
  {
    SettledStays(h, k);
    assert Settled(h[0])[i] == h[0][i];
  }

  lemma BuriedCreationStays(h: seq<Blocks>, k: nat, coin: Coin, i: nat)
    requires History(h) && k < |h| && i + MAX_REORG < |h[0]| && CreatedAt(h[0], coin, i)
    ensures CreatedAt(h[k], coin, i)
  {
    SettledBlock(h, k, i);
    if coin !in h[0][i].rewards {
      var b :| IncludedAt(h[0], b, i) && coin in b.outputs;
      assert IncludedAt(h[k], b, i);
    }
  }

  lemma BuriedBundleStays(h: seq<Blocks>, k: nat, b: Bundle, i: nat)
    requires History(h) && k < |h| && i + MAX_REORG < |h[0]| && IncludedAt(h[0], b, i)
    ensures IncludedAt(h[k], b, i)
  {
    SettledBlock(h, k, i);
  }

  // ---------- chains cut short, and chains carried on ----------

  lemma PrefixIsValid(c: Blocks, n: nat)
    requires Valid(c) && 0 < n <= |c|
    ensures Valid(c[..n])
    ensures forall b, i: nat :: IncludedAt(c[..n], b, i) <==> i < n && IncludedAt(c, b, i)
    ensures forall coin, i: nat :: CreatedAt(c[..n], coin, i) <==> i < n && CreatedAt(c, coin, i)
    ensures forall coin, i: nat :: SpentAt(c[..n], coin, i) <==> i < n && SpentAt(c, coin, i)
  {
    var c' := c[..n];
    assert forall b, i: nat :: IncludedAt(c', b, i) <==> i < n && IncludedAt(c, b, i);
    forall coin, i: nat ensures CreatedAt(c', coin, i) <==> i < n && CreatedAt(c, coin, i) {
      if i < n && CreatedAt(c, coin, i) && coin !in c[i].rewards {
        var b :| IncludedAt(c, b, i) && coin in b.outputs;
        assert IncludedAt(c', b, i);
      }
    }
    forall coin, i: nat ensures SpentAt(c', coin, i) <==> i < n && SpentAt(c, coin, i) {
      if i < n && SpentAt(c, coin, i) {
        var b :| IncludedAt(c, b, i) && coin in b.spends;
        assert IncludedAt(c', b, i);
      }
    }
    forall coin, i: nat | SpentAt(c', coin, i) ensures exists j: nat :: j <= i && CreatedAt(c', coin, j) {
      var j: nat :| j <= i && CreatedAt(c, coin, j);
      assert CreatedAt(c', coin, j);
    }
  }

  /** `coin` is there to be spent by a bundle of the block that follows `c`. */
  ghost predicate Available(c: Blocks, block: Block, coin: Coin) {
    && !Spent(c, coin)
    && (Exists(c, coin) || coin in block.rewards || exists b :: b in block.bundles && coin in b.outputs)
  }

  /** `block` can follow `c`. */
  ghost predicate Joins(c: Blocks, block: Block) {
    && (forall b :: b in block.bundles ==> ParentSpent(b))
    && (forall b, coin :: b in block.bundles && coin in b.spends ==> Available(c, block, coin))
    && (forall b, b', coin :: b in block.bundles && b' in block.bundles && coin in b.spends && coin in b'.spends ==> b == b')
    && (forall r :: r in block.rewards ==> r.parent.Raw? && forall i: nat :: i < |c| ==> r !in c[i].rewards)
  }

  lemma JoinedIs(c: Blocks, block: Block)
    ensures var c' := c + [block];
            && (forall b, i: nat :: IncludedAt(c', b, i) <==> IncludedAt(c, b, i) || (i == |c| && b in block.bundles))
            && (forall coin, i: nat :: CreatedAt(c, coin, i) ==> CreatedAt(c', coin, i))
            && (forall coin, i: nat :: SpentAt(c, coin, i) ==> SpentAt(c', coin, i))
            && (forall b, coin :: b in block.bundles && coin in b.spends ==> SpentAt(c', coin, |c|))
            && (forall b, coin :: b in block.bundles && coin in b.outputs ==> CreatedAt(c', coin, |c|))
            && (forall coin :: coin in block.rewards ==> CreatedAt(c', coin, |c|))
  {
    var c' := c + [block];
    assert c'[|c|] == block;
    assert forall i :: 0 <= i < |c| ==> c'[i] == c[i];
    assert forall b, i: nat :: IncludedAt(c, b, i) ==> IncludedAt(c', b, i);
    assert forall b :: b in block.bundles ==> IncludedAt(c', b, |c|);
  }

  lemma JoinedIsValid(c: Blocks, block: Block)
    requires Valid(c) && |c| <= U32_MAX && Joins(c, block)
    ensures Valid(c + [block])
  {
    var c' := c + [block];
    JoinedIs(c, block);
    forall b, coin | b in block.bundles && coin in b.spends ensures !Spent(c, coin) {
      assert Available(c, block, coin);
    }
    assert forall b, i: nat, coin :: IncludedAt(c, b, i) && coin in b.spends ==> SpentAt(c, coin, i) && Spent(c, coin);
    assert SingleSpend(c');
    forall coin, i: nat | SpentAt(c', coin, i) ensures exists j: nat :: j <= i && CreatedAt(c', coin, j) {
      var b :| IncludedAt(c', b, i) && coin in b.spends;
      if i < |c| {
        assert SpentAt(c, coin, i);
        var j: nat :| j <= i && CreatedAt(c, coin, j);
        assert CreatedAt(c', coin, j);
      } else {
        assert Available(c, block, coin);
        if Exists(c, coin) {
          var j: nat :| CreatedAt(c, coin, j);
          assert CreatedAt(c', coin, j);
        } else {
          assert CreatedAt(c', coin, |c|);
        }
      }
    }
  }

  /** A coin not yet under five blocks can be reorganised away, and nothing older goes with it. */
  lemma Forgotten(c: Blocks, coin: Coin, i: nat)
    requires Valid(c) && CreatedAt(c, coin, i) && i + MAX_REORG > Peak(c)
    ensures var c' := c[..i] + Empties(|c| - i);
            && Valid(c') && Follows(c, c') && History([c, c']) && !Exists(c', coin)
            && (forall b :: Included(c', b) ==> Included(c, b))
            && (forall x, j: nat :: j < i && CreatedAt(c, x, j) ==> CreatedAt(c', x, j))
  {
    assert i != 0 by {
      assert !exists x :: IncludedAt(c, x, 0);
    }
    PrefixIsValid(c, i);
    PadIsValid(c[..i], |c| - i);
    var c' := c[..i] + Empties(|c| - i);
    if j: nat :| CreatedAt(c', coin, j) {
      CreatedOnce(c, coin, i, j);
    }
    forall b | Included(c', b) ensures Included(c, b) {
      var j: nat :| IncludedAt(c', b, j);
      assert IncludedAt(c, b, j);
    }
    assert Settled(c) <= c';
  }

  // ---------- what a reorganisation can bring back ----------

  /** `b` needs `inputs` from the chain; the rest of what it spends, it creates. */
  ghost predicate FundedBy(b: Bundle, inputs: set<Coin>) {
    && ParentSpent(b)
    && inputs <= b.spends && inputs !! b.outputs && b.spends <= inputs + b.outputs
  }

  /** While its inputs are unspent, no coin of the bundle is spent. */
  lemma UntouchedWhileUnspent(c: Blocks, b: Bundle, inputs: set<Coin>, coin: Coin)
    requires Valid(c) && FundedBy(b, inputs) && forall x :: x in inputs ==> !Spent(c, x)
    requires coin in b.spends
    ensures !Spent(c, coin)
    decreases IdSize(coin.Id())
  {
    if i: nat :| SpentAt(c, coin, i) {
      assert Spent(c, coin);
      assert coin in b.outputs && coin.parent.Of? && CoinOf(coin.parent) in b.spends;
      var j: nat :| j <= i && CreatedAt(c, coin, j);
      var maker :| IncludedAt(c, maker, j) && coin in maker.outputs;
      assert ParentSpent(maker);
      UntouchedWhileUnspent(c, b, inputs, CoinOf(coin.parent));
      assert SpentAt(c, CoinOf(coin.parent), j);
    }
  }

  /** Nor is any made. */
  lemma UnmadeWhileUnspent(c: Blocks, b: Bundle, inputs: set<Coin>, output: Coin)
    requires Valid(c) && FundedBy(b, inputs) && forall x :: x in inputs ==> !Spent(c, x)
    requires output in b.outputs
    ensures !Exists(c, output)
  {
    var parent := CoinOf(output.parent);
    UntouchedWhileUnspent(c, b, inputs, parent);
    if i: nat :| CreatedAt(c, output, i) {
      var maker :| IncludedAt(c, maker, i) && output in maker.outputs;
      assert ParentSpent(maker);
      assert SpentAt(c, parent, i);
    }
  }

  /** A bundle whose inputs are there and unspent can be in the next block. */
  lemma CarriedIsValid(c: Blocks, b: Bundle, inputs: set<Coin>)
    requires Valid(c) && |c| <= U32_MAX && FundedBy(b, inputs)
    requires forall x :: x in inputs ==> Exists(c, x) && !Spent(c, x)
    ensures Valid(c + [Block({}, {b})])
    ensures IncludedAt(c + [Block({}, {b})], b, |c|)
    ensures forall coin :: coin in b.spends ==> SpentAt(c + [Block({}, {b})], coin, |c|)
  {
    var block := Block({}, {b});
    JoinedIs(c, block);
    forall coin | coin in b.spends ensures Available(c, block, coin) {
      UntouchedWhileUnspent(c, b, inputs, coin);
      assert b in block.bundles;
    }
    JoinedIsValid(c, block);
  }

  /** The line of coins made and spent within block `s` that leads down to `coin`, as one bundle:
      empty when the coin was there before. */
  ghost function Line(c: Blocks, coin: Coin, s: nat): Bundle
    requires Valid(c) && s < |c|
    decreases IdSize(coin.Id())
  {
    if coin.parent.Of? && CreatedAt(c, coin, s) then
      var above := Line(c, CoinOf(coin.parent), s);
      Bundle(above.spends + {CoinOf(coin.parent)}, above.outputs + {coin}, map[])
    else Bundle({}, {}, map[])
  }

  /** `coin` was there before block `s`, or is paid or made in it. */
  ghost predicate MadeBy(c: Blocks, b: Bundle, coin: Coin, s: nat)
    requires s < |c|
  {
    (exists j: nat :: j < s && CreatedAt(c, coin, j)) || coin in c[s].rewards || coin in b.outputs
  }

  lemma LineLeadsTo(c: Blocks, coin: Coin, s: nat)
    requires Valid(c) && s < |c| && exists j: nat :: j <= s && CreatedAt(c, coin, j)
    ensures var b := Line(c, coin, s);
            && ParentSpent(b) && MadeBy(c, b, coin, s)
            && forall x :: x in b.spends ==> IdSize(x.Id()) < IdSize(coin.Id()) && SpentAt(c, x, s) && MadeBy(c, b, x, s)
    decreases IdSize(coin.Id())
  {
    var j: nat :| j <= s && CreatedAt(c, coin, j);
    if coin.parent.Of? && CreatedAt(c, coin, s) {
      var parent := CoinOf(coin.parent);
      var maker :| IncludedAt(c, maker, s) && coin in maker.outputs;
      assert ParentSpent(maker);
      assert SpentAt(c, parent, s);
      LineLeadsTo(c, parent, s);
    }
  }

  /** The chain reorganised at height `s`: what leads to `input`, then `b` in place of whatever
      spent it, and nothing after. */
  ghost function Rewritten(c: Blocks, b: Bundle, input: Coin, s: nat): Blocks
    requires Valid(c) && s < |c|
  {
    c[..s] + [Block(c[s].rewards, {Line(c, input, s), b})] + Empties(|c| - s - 1)
  }

  lemma DescendsFromItsInput(b: Bundle, input: Coin, coin: Coin)
    requires FundedBy(b, {input}) && coin in b.spends
    ensures IdSize(coin.Id()) >= IdSize(input.Id())
    decreases IdSize(coin.Id())
  {
    if coin != input {
      DescendsFromItsInput(b, input, CoinOf(coin.parent));
    }
  }

  /** A bundle beaten to its input can be carried after all if a reorganisation reaches back to the
      block that beat it. */
  lemma RewrittenIsValid(c: Blocks, b: Bundle, input: Coin, s: nat)
    requires Valid(c) && FundedBy(b, {input}) && SpentAt(c, input, s) && s < |c|
    ensures Valid(Rewritten(c, b, input, s)) && Included(Rewritten(c, b, input, s), b)
    ensures |Rewritten(c, b, input, s)| == |c| && c[..s] <= Rewritten(c, b, input, s)
  {
    var line := Line(c, input, s);
    var block := Block(c[s].rewards, {line, b});
    LineLeadsTo(c, input, s);
    assert s != 0 by {
      assert !exists x :: IncludedAt(c, x, 0);
    }
    PrefixIsValid(c, s);
    RewrittenJoins(c, b, input, s);
    JoinedIs(c[..s], block);
    JoinedIsValid(c[..s], block);
    PadIsValid(c[..s] + [block], |c| - s - 1);
    assert IncludedAt(c[..s] + [block], b, s);
    assert IncludedAt(Rewritten(c, b, input, s), b, s);
  }

  lemma RewrittenJoins(c: Blocks, b: Bundle, input: Coin, s: nat)
    requires Valid(c) && FundedBy(b, {input}) && SpentAt(c, input, s) && 0 < s < |c|
    ensures Joins(c[..s], Block(c[s].rewards, {Line(c, input, s), b}))
  {
    var front, line := c[..s], Line(c, input, s);
    var block := Block(c[s].rewards, {line, b});
    PrefixIsValid(c, s);
    LineLeadsTo(c, input, s);
    assert line in block.bundles && b in block.bundles;
    forall coin | SpentAt(c, coin, s) ensures !Spent(front, coin) {
      if i: nat :| SpentAt(front, coin, i) {
        SpentOnce(c, coin, i, s);
      }
    }
    forall coin | MadeBy(c, line, coin, s) && SpentAt(c, coin, s) ensures Available(front, block, coin) {
      if j: nat :| j < s && CreatedAt(c, coin, j) {
        assert CreatedAt(front, coin, j);
      }
    }
    forall coin | coin in b.spends ensures Available(front, block, coin) {
      if coin != input {
        UntouchedWhileUnspent(front, b, {input}, coin);
      }
    }
    forall coin | coin in line.spends ensures coin !in b.spends {
      if coin in b.spends {
        DescendsFromItsInput(b, input, coin);
      }
    }
  }
}
