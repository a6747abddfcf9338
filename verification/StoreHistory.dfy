/**
  A profile store over the chain: its lineage of singleton coins, the one unspent coin a tip can be,
  and so what the three ways of saying "confirmed" mean for blocks, and for how long.
*/
module StoreHistory {
  import opened Base
  import opened Chain
  import opened ProfileBody
  import opened ProfileEditor
  import Gates

  /** The number a root is, as a store's puzzle commits it: two roots are never the same number. */
  type Commitment = Root -> nat

  ghost predicate Binding(commit: Commitment) {
    forall a, b :: commit(a) == commit(b) ==> a == b
  }

  predicate OfStore(coin: Coin, launcherId: Id) {
    coin.puzzleHash.Singleton? && coin.puzzleHash.launcher == launcherId
  }

  /** `coin` comes down from the launcher through coins of the same singleton. */
  predicate InLineage(coin: Coin, launcherId: Id)
    decreases IdSize(coin.parent)
  {
    && OfStore(coin, launcherId)
    && (coin.parent == launcherId || (coin.parent.Of? && InLineage(CoinOf(coin.parent), launcherId)))
  }

  predicate Siblings(b: Bundle, x: Coin, y: Coin) {
    x in b.outputs && y in b.outputs && x.parent == y.parent
  }

  /** The singleton rule: one spend creates at most one coin of the store. */
  ghost predicate OneSuccessor(c: Blocks, launcherId: Id) {
    forall b, i: nat, x, y ::
      IncludedAt(c, b, i) && Siblings(b, x, y) && OfStore(x, launcherId) && OfStore(y, launcherId) ==> x == y
  }

  /** `coin` is the store's tip on `c`, with nothing spent since. */
  ghost predicate IsTip(c: Blocks, coin: Coin, launcherId: Id) {
    InLineage(coin, launcherId) && Exists(c, coin) && !Spent(c, coin)
  }

  predicate Commits(coin: Coin, launcherId: Id, root: Root, commit: Commitment) {
    OfStore(coin, launcherId) && coin.puzzleHash.state.StoreState? && coin.puzzleHash.state.root == commit(root)
  }

  /** An honest answer to a tip read: the unspent coin of the lineage, hydrated as its puzzle commits,
      or, where there is none, nothing. */
  ghost predicate TipReported(c: Blocks, launcherId: Id, commit: Commitment, answer: Read<TipAnswer>) {
    match answer
    case Answer(Tip(store)) =>
      IsTip(c, store.coin, launcherId) && store.launcherId == launcherId && Commits(store.coin, launcherId, store.root, commit)
    case Answer(NoTip) => forall coin :: !IsTip(c, coin, launcherId)
    case _ => true
  }

  // ---------- there is one tip ----------

  lemma LineageIsBelow(coin: Coin, launcherId: Id)
    requires InLineage(coin, launcherId)
    ensures IdSize(coin.Id()) > IdSize(launcherId)
    decreases IdSize(coin.parent)
  {
    if coin.parent != launcherId {
      LineageIsBelow(CoinOf(coin.parent), launcherId);
    }
  }

  lemma OneChild(c: Blocks, launcherId: Id, x: Coin, y: Coin)
    requires Valid(c) && OneSuccessor(c, launcherId) && Exists(c, x) && Exists(c, y)
    requires x.parent == y.parent && x.parent.Of? && OfStore(x, launcherId) && OfStore(y, launcherId)
    ensures x == y
  {
    var i: nat :| CreatedAt(c, x, i);
    var j: nat :| CreatedAt(c, y, j);
    var b :| IncludedAt(c, b, i) && x in b.outputs;
    var b' :| IncludedAt(c, b', j) && y in b'.outputs;
    assert ParentSpent(b) && ParentSpent(b');
    assert CoinOf(x.parent) in b.spends && CoinOf(x.parent) in b'.spends;
    assert Siblings(b, x, y);
  }

  /** Two coins of the lineage as far from the launcher are one coin. */
  lemma OneCoinPerGeneration(c: Blocks, launcherId: Id, x: Coin, y: Coin)
    requires Valid(c) && OneSuccessor(c, launcherId) && launcherId.Of?
    requires InLineage(x, launcherId) && InLineage(y, launcherId) && Exists(c, x) && Exists(c, y)
    requires IdSize(x.Id()) == IdSize(y.Id())
    ensures x == y
    decreases IdSize(x.Id())
  {
    if x.parent != launcherId {
      LineageIsBelow(CoinOf(x.parent), launcherId);
    }
    if y.parent != launcherId {
      LineageIsBelow(CoinOf(y.parent), launcherId);
    }
    if x.parent != launcherId && y.parent != launcherId {
      ParentExists(c, x);
      ParentExists(c, y);
      OneCoinPerGeneration(c, launcherId, CoinOf(x.parent), CoinOf(y.parent));
    }
    OneChild(c, launcherId, x, y);
  }

  lemma EarlierIsSpent(c: Blocks, launcherId: Id, x: Coin, y: Coin)
    requires Valid(c) && OneSuccessor(c, launcherId) && launcherId.Of?
    requires InLineage(x, launcherId) && InLineage(y, launcherId) && Exists(c, x) && Exists(c, y)
    requires IdSize(x.Id()) < IdSize(y.Id())
    ensures Spent(c, x)
    decreases IdSize(y.Id())
  {
    LineageIsBelow(x, launcherId);
    assert y.parent != launcherId;
    ParentExists(c, y);
    if IdSize(y.parent) == IdSize(x.Id()) {
      OneCoinPerGeneration(c, launcherId, x, CoinOf(y.parent));
    } else {
      EarlierIsSpent(c, launcherId, x, CoinOf(y.parent));
    }
  }

  lemma OneTip(c: Blocks, launcherId: Id, x: Coin, y: Coin)
    requires Valid(c) && OneSuccessor(c, launcherId) && launcherId.Of?
    requires IsTip(c, x, launcherId) && IsTip(c, y, launcherId)
    ensures x == y
  {
    if IdSize(x.Id()) == IdSize(y.Id()) {
      OneCoinPerGeneration(c, launcherId, x, y);
    } else if IdSize(x.Id()) < IdSize(y.Id()) {
      EarlierIsSpent(c, launcherId, x, y);
    } else {
      EarlierIsSpent(c, launcherId, y, x);
    }
  }

  // ---------- what "confirmed" means on chain ----------

  /** A poll that is answered says confirmed exactly while the chain's one tip commits that root. */
  lemma PolledExactlyWhileTheTipCommitsIt(
    c: Blocks, launcherId: Id, commit: Commitment, root: Root, tip: Coin, e: EditEnv)
    requires Valid(c) && OneSuccessor(c, launcherId) && launcherId.Of? && Binding(commit)
    requires TipReported(c, launcherId, commit, e.tip(0)) && IsTip(c, tip, launcherId)
    ensures Poll(root, e).Ok? ==>
              Poll(root, e) == Ok(if Commits(tip, launcherId, root, commit) then EditConfirmed(root) else EditPushed(root))
    ensures Poll(root, e) != Err(NoStore)
  {
    if Poll(root, e).Ok? {
      OneTip(c, launcherId, tip, e.tip(0).value.store.coin);
    }
  }

  /** Whoever says confirmed, of whatever root, the chain carries an unspent coin of the store that
      commits it. */
  lemma ConfirmedIsOnChain(
    c: Blocks, launcherId: Id, commit: Commitment, wallet: Gates.Wallet, edit: ProfileEdit, profile: Body, root: Root, e: EditEnv)
    requires TipReported(c, launcherId, commit, e.tip(0))
    ensures Poll(root, e) == Ok(EditConfirmed(root)) ==> OnChain(c, launcherId, commit, root)
    ensures ConfirmedOnChain(c, launcherId, commit, CommitEdit(wallet, launcherId, edit, e))
    ensures ConfirmedOnChain(c, launcherId, commit, PublishProfile(wallet, launcherId, profile, e))
  {
    CommittedIsAnchored(wallet, launcherId, edit, e);
    PublishedIsAnchored(wallet, launcherId, profile, e);
    if ResolveStoreTip(e, 0).Ok? {
      var store := ResolveStoreTip(e, 0).value;
      assert IsTip(c, store.coin, launcherId) && Commits(store.coin, launcherId, store.root, commit);
    }
  }

  ghost predicate OnChain(c: Blocks, launcherId: Id, commit: Commitment, root: Root) {
    exists coin :: IsTip(c, coin, launcherId) && Commits(coin, launcherId, root, commit)
  }

  ghost predicate ConfirmedOnChain(c: Blocks, launcherId: Id, commit: Commitment, outcome: Outcome) {
    outcome.result.Ok? && outcome.result.value.status.EditConfirmed? ==>
      OnChain(c, launcherId, commit, outcome.result.value.status.root)
  }

  /** The coin an update's spend creates: the store again, committing the new root. */
  function Recreation(update: Update, commit: Commitment): Coin {
    Coin(update.spent.Id(),
         Singleton(update.recreated.launcherId, StoreState(commit(update.recreated.root), update.recreated.owner)),
         update.spent.amount)
  }

  /** A broadcast edit's coin is the store's next, and commits the edited body. */
  lemma RecreationContinuesTheStore(
    c: Blocks, commit: Commitment, wallet: Gates.Wallet, launcherId: Id, edit: ProfileEdit, e: EditEnv)
    requires CommitEdit(wallet, launcherId, edit, e).pushed.Some? && TipReported(c, launcherId, commit, e.tip(1))
    ensures ReadProfile(e).Ok?
    ensures var coin := Recreation(CommitEdit(wallet, launcherId, edit, e).pushed.value, commit);
            && InLineage(coin, launcherId)
            && Commits(coin, launcherId, RootOf(ApplyAll(ReadProfile(e).value.body, SlotEdits(edit))), commit)
            && coin.puzzleHash.state.owner == wallet.puzzleHash
  {
    PushedEditRecreatesOurStore(wallet, launcherId, edit, e);
    var update := CommitEdit(wallet, launcherId, edit, e).pushed.value;
    assert IsTip(c, update.spent, launcherId);
    assert CoinOf(update.spent.Id()) == update.spent;
  }

  /** Once the block that carries a broadcast edit is buried, every later poll that is answered says
      confirmed, through any growth and any reorganisation, until the recreated coin is spent; and
      committing that edit again pushes nothing. */
  lemma CarriedEditStaysConfirmed(
    c: Blocks, h: seq<Blocks>, k: nat, i: nat, commit: Commitment, wallet: Gates.Wallet, launcherId: Id, edit: ProfileEdit,
    e: EditEnv, later: EditEnv)
    requires CommitEdit(wallet, launcherId, edit, e).pushed.Some? && TipReported(c, launcherId, commit, e.tip(1))
    requires History(h) && k < |h| && OneSuccessor(h[k], launcherId) && launcherId.Of? && Binding(commit)
    requires CreatedAt(h[0], Recreation(CommitEdit(wallet, launcherId, edit, e).pushed.value, commit), i) && i + 5 <= Peak(h[0])
    requires !Spent(h[k], Recreation(CommitEdit(wallet, launcherId, edit, e).pushed.value, commit))
    requires TipReported(h[k], launcherId, commit, later.tip(0))
    ensures ReadProfile(e).Ok?
    ensures var root := RootOf(ApplyAll(ReadProfile(e).value.body, SlotEdits(edit)));
            && (Poll(root, later).Ok? ==> Poll(root, later) == Ok(EditConfirmed(root)))
            && CommitEdit(wallet, launcherId, edit, later).pushed.None?
  {
    var coin := Recreation(CommitEdit(wallet, launcherId, edit, e).pushed.value, commit);
    var body := ReadProfile(e).value.body;
    var root := RootOf(ApplyAll(body, SlotEdits(edit)));
    RecreationContinuesTheStore(c, commit, wallet, launcherId, edit, e);
    BuriedCreationStays(h, k, coin, i);
    assert IsTip(h[k], coin, launcherId);
    PolledExactlyWhileTheTipCommitsIt(h[k], launcherId, commit, root, coin, later);
    if Poll(root, later).Ok? {
      AnchoredEditIsNotPushedAgain(wallet, launcherId, edit, body, later, later.tip(0).value.store);
    }
  }

  /** So a retry on an unmoved tip is a second spend of the same coin, into the same next coin; of the
      two bundles, as of any that spend that tip, no chain carries both. */
  lemma RetryOnAnUnmovedTipSpendsItAgain(
    wallet: Gates.Wallet, launcherId: Id, edit: ProfileEdit, e: EditEnv, later: EditEnv, c: Blocks, b: Bundle, b': Bundle)
    requires CommitEdit(wallet, launcherId, edit, e).pushed.Some?
    requires later.unlocked && ReadProfile(later).Ok? && MaySign(wallet, launcherId, later)
    requires later.fits(ApplyAll(ReadProfile(later).value.body, SlotEdits(edit)))
    requires later.tip(0) == e.tip(0) && later.tip(1) == e.tip(1)
    ensures CommitEdit(wallet, launcherId, edit, later).pushed == CommitEdit(wallet, launcherId, edit, e).pushed
    ensures var tip := CommitEdit(wallet, launcherId, edit, e).pushed.value.spent;
            Valid(c) && Included(c, b) && Included(c, b') && tip in b.spends && tip in b'.spends ==> b == b'
  {
    PushedEditRecreatesOurStore(wallet, launcherId, edit, e);
    RetryPushesExactlyUntilAnchored(wallet, launcherId, edit, e, later);
    CommitIsExact(wallet, launcherId, edit, e);
  }

  // ---------- an edit that is edited over ----------

  /** The store's next coin after `tip`, committing `root`. */
  function NextCoin(tip: Coin, launcherId: Id, root: Root, commit: Commitment, owner: PuzzleHash): Coin {
    Coin(tip.Id(), Singleton(launcherId, StoreState(commit(root), owner)), tip.amount)
  }

  /** `c`, with one block that carries the store from `tip` to `next`. */
  function Advanced(c: Blocks, tip: Coin, next: Coin): Blocks {
    c + [Block({}, {Bundle({tip}, {next}, map[])})]
  }

  lemma AdvancedIs(c: Blocks, launcherId: Id, tip: Coin, root: Root, commit: Commitment, owner: PuzzleHash)
    requires Valid(c) && |c| <= U32_MAX && OneSuccessor(c, launcherId) && IsTip(c, tip, launcherId)
    ensures var next := NextCoin(tip, launcherId, root, commit, owner);
            var c' := Advanced(c, tip, next);
            && Valid(c') && Follows(c, c') && OneSuccessor(c', launcherId)
            && IsTip(c', next, launcherId) && Commits(next, launcherId, root, commit)
            && (forall coin :: Exists(c, coin) ==> Exists(c', coin))
  {
    var next := NextCoin(tip, launcherId, root, commit, owner);
    var b := Bundle({tip}, {next}, map[]);
    var c' := Advanced(c, tip, next);
    assert IdSize(next.Id()) == IdSize(tip.Id()) + 1 && CoinOf(next.parent) == tip;
    CarriedIsValid(c, b, {tip});
    JoinedIs(c, Block({}, {b}));
    assert CreatedAt(c', next, |c|);
    UnmadeWhileUnspent(c, b, {tip}, next);
    assert !Spent(c, next) by {
      assert forall i: nat :: SpentAt(c, next, i) ==> exists j: nat :: j <= i && CreatedAt(c, next, j);
    }
    forall i: nat ensures !SpentAt(c', next, i) {
      assert SpentAt(c', next, i) ==> i < |c| && SpentAt(c, next, i);
    }
    forall coin | Exists(c, coin) ensures Exists(c', coin) {
      var i: nat :| CreatedAt(c, coin, i);
      assert CreatedAt(c', coin, i);
    }
  }

  /** An edit committing `root` landed on `c`: a coin of the store's lineage that commits it is there. */
  ghost predicate Landed(c: Blocks, launcherId: Id, root: Root, commit: Commitment) {
    exists coin :: Exists(c, coin) && InLineage(coin, launcherId) && Commits(coin, launcherId, root, commit)
  }

  ghost predicate PollsAs(c: Blocks, launcherId: Id, commit: Commitment, root: Root, status: EditStatus) {
    forall e: EditEnv :: TipReported(c, launcherId, commit, e.tip(0)) && Poll(root, e).Ok? ==> Poll(root, e) == Ok(status)
  }

  /** `Pushed` does not mean "not yet". Any store whose tip is on chain can have an edit land, which is
      then polled as confirmed, and be edited over, after which the same edit is polled as pushed. */
  lemma SupersededReadsAsPushed(
    c: Blocks, launcherId: Id, commit: Commitment, tip: Coin, root: Root, later: Root, owner: PuzzleHash)
    requires Valid(c) && |c| < U32_MAX && OneSuccessor(c, launcherId) && launcherId.Of? && Binding(commit)
    requires IsTip(c, tip, launcherId) && later != root
    ensures var first := NextCoin(tip, launcherId, root, commit, owner);
            var once := Advanced(c, tip, first);
            var twice := Advanced(once, first, NextCoin(first, launcherId, later, commit, owner));
            && Valid(once) && Valid(twice) && Follows(c, once) && Follows(once, twice)
            && Landed(once, launcherId, root, commit) && PollsAs(once, launcherId, commit, root, EditConfirmed(root))
            && Landed(twice, launcherId, root, commit) && PollsAs(twice, launcherId, commit, root, EditPushed(root))
  {
    var first := NextCoin(tip, launcherId, root, commit, owner);
    var once := Advanced(c, tip, first);
    var second := NextCoin(first, launcherId, later, commit, owner);
    var twice := Advanced(once, first, second);
    AdvancedIs(c, launcherId, tip, root, commit, owner);
    AdvancedIs(once, launcherId, first, later, commit, owner);
    assert Exists(twice, first);
    forall e: EditEnv | TipReported(once, launcherId, commit, e.tip(0)) && Poll(root, e).Ok?
      ensures Poll(root, e) == Ok(EditConfirmed(root))
    {
      PolledExactlyWhileTheTipCommitsIt(once, launcherId, commit, root, first, e);
    }
    forall e: EditEnv | TipReported(twice, launcherId, commit, e.tip(0)) && Poll(root, e).Ok?
      ensures Poll(root, e) == Ok(EditPushed(root))
    {
      PolledExactlyWhileTheTipCommitsIt(twice, launcherId, commit, root, second, e);
    }
  }
}
