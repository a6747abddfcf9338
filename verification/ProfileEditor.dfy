/**
  Reading a profile against the root its store commits, and committing an edit to it: nothing is
  built on content the chain does not vouch for, nothing is signed for a store this wallet does
  not own, and nothing is spent to commit a root the store already has.
*/
module ProfileEditor {
  import opened Base
  import opened ProfileBody
  import Gates
  import Push

  /** A committed root: the hash of one body, or bytes that are the hash of none. */
  datatype Root = RootOf(body: Body) | Unbacked(bytes: nat)

  /** A store at its current tip, as hydrated from the spend that created it. */
  datatype StoreTip = StoreTip(
    coin: Coin, launcherId: Id, owner: PuzzleHash, delegated: nat, root: Root, description: nat)

  datatype EditError =
    | ChainUnreachable
    | NetworkRejected
    | NoStore
    | StaleOrTamperedContent
    | ContentUnavailable
    | Format
    | Build
    | Locked
    | Refused

  /** What `resolve_store_tip` finds: no lineage or creating spend, one that does not hydrate, or a tip. */
  datatype TipAnswer = NoTip | Unhydratable | Tip(store: StoreTip)

  /** One encoded slot a content source answers with; `None` is a value that does not decode. */
  datatype Slot = Slot(id: nat, value: Option<Value>)

  datatype EditEnv = EditEnv(
    unlocked: bool,
    tip: nat -> Read<TipAnswer>,
    content: Root -> Read<seq<Slot>>,
    fits: Body -> bool,
    drained: seq<Coin>,
    builds: bool,
    required: Option<seq<Gates.Requirement>>,
    me: nat,
    answer: Push.PushAnswer)

  // ---------- reading ----------

  function ResolveStoreTip(e: EditEnv, step: nat): Result<StoreTip, EditError> {
    match e.tip(step)
    case Unreadable => Err(ChainUnreachable)
    case Answer(NoTip) => Err(NoStore)
    case Answer(Unhydratable) => Err(Format)
    case Answer(Tip(store)) => Ok(store)
  }

  /** `sort_by_key`, one pair at a time: stable, by slot id. */
  function InsertPair(sorted: seq<(nat, Value)>, pair: (nat, Value)): seq<(nat, Value)> {
    if sorted == [] then [pair]
    else if sorted[|sorted| - 1].0 <= pair.0 then sorted + [pair]
    else InsertPair(sorted[..|sorted| - 1], pair) + [sorted[|sorted| - 1]]
  }

  function SortPairs(pairs: seq<(nat, Value)>): seq<(nat, Value)> {
    if pairs == [] then [] else InsertPair(SortPairs(pairs[..|pairs| - 1]), pairs[|pairs| - 1])
  }

  predicate Ascending(pairs: seq<(nat, Value)>) {
    forall i, j :: 0 <= i < j < |pairs| ==> pairs[i].0 < pairs[j].0
  }

  function BodyOf(pairs: seq<(nat, Value)>): Body {
    if pairs == [] then map[] else BodyOf(pairs[..|pairs| - 1])[pairs[|pairs| - 1].0 := pairs[|pairs| - 1].1]
  }

  function Decoded(slots: seq<Slot>): Option<seq<(nat, Value)>> {
    if slots == [] then Some([])
    else match (Decoded(slots[..|slots| - 1]), slots[|slots| - 1].value)
      case (Some(pairs), Some(value)) => Some(pairs + [(slots[|slots| - 1].id, value)])
      case _ => None
  }

  /** `assemble_body`: decode, sort, and the body format's own acceptance rules. */
  function AssembleBody(slots: seq<Slot>, fits: Body -> bool): Result<Body, EditError> {
    match Decoded(slots)
    case None => Err(Format)
    case Some(pairs) =>
      var sorted := SortPairs(pairs);
      if Ascending(sorted) && fits(BodyOf(sorted)) then Ok(BodyOf(sorted)) else Err(Format)
  }

  datatype Snapshot = Snapshot(root: Root, body: Body, fields: Fields)

  /** `read_profile`: the chain's root first, then a body under that root. */
  function ReadProfile(e: EditEnv): Result<Snapshot, EditError> {
    match ResolveStoreTip(e, 0)
    case Err(why) => Err(why)
    case Ok(store) =>
      match e.content(store.root)
      case Unreadable => Err(ContentUnavailable)
      case Answer(slots) =>
        match AssembleBody(slots, e.fits)
        case Err(why) => Err(why)
        case Ok(body) =>
          if RootOf(body) != store.root then Err(StaleOrTamperedContent)
          else Ok(Snapshot(store.root, body, Project(body)))
  }

  // ---------- committing ----------

  datatype EditStatus = EditPushed(newRoot: Root) | EditConfirmed(root: Root)

  datatype CommittedEdit = CommittedEdit(status: EditStatus, body: Body)

  /** The store recreation a push carries: which coin is spent, and what the store becomes. */
  datatype Update = Update(spent: Coin, recreated: StoreTip)

  /** `gate_store_identity`. */
  predicate StoreIsOurs(wallet: Gates.Wallet, launcherId: Id, store: StoreTip) {
    store.owner == wallet.puzzleHash && store.launcherId == launcherId && store.delegated == 0
  }

  /** `gate_edit`. */
  predicate EditIsAllowed(wallet: Gates.Wallet, store: StoreTip, drained: seq<Coin>, required: seq<Gates.Requirement>, me: nat) {
    && |drained| == 1 && drained[0] == store.coin
    && Gates.CheckRequirements(required, {wallet.key}, me).Ok?
  }

  /** `build_and_sign_update`: the tip is resolved again, and only the root of its metadata advances. */
  function BuildAndSignUpdate(wallet: Gates.Wallet, launcherId: Id, newRoot: Root, e: EditEnv): Result<Update, EditError> {
    match ResolveStoreTip(e, 1)
    case Err(why) => Err(why)
    case Ok(store) =>
      if !StoreIsOurs(wallet, launcherId, store) then Err(Refused)
      else if !e.builds || e.required.None? then Err(Build)
      else if !EditIsAllowed(wallet, store, e.drained, e.required.value, e.me) then Err(Refused)
      else Ok(Update(store.coin, store.(root := newRoot)))
  }

  /** One call's outcome: the bundle it broadcast, if any, and what it returned. */
  datatype Outcome = Outcome(pushed: Option<Update>, result: Result<CommittedEdit, EditError>)

  function PushUpdate(update: Update, body: Body, e: EditEnv): Outcome {
    Outcome(Some(update),
            match e.answer
            case Unknown => Err(ChainUnreachable)
            case Settled(Rejected) => Err(NetworkRejected)
            case Settled(_) => Ok(CommittedEdit(EditPushed(RootOf(body)), body)))
  }

  predicate RemovesSchemaVersion(edit: ProfileEdit) {
    RemoveSlot(SCHEMA_VERSION) in SlotEdits(edit)
  }

  /** `commit_edit`. */
  function CommitEdit(wallet: Gates.Wallet, launcherId: Id, edit: ProfileEdit, e: EditEnv): Outcome {
    if edit == map[] then Outcome(None, Err(Refused))
    else if RemovesSchemaVersion(edit) then Outcome(None, Err(Refused))
    else if !e.unlocked then Outcome(None, Err(Locked))
    else match ReadProfile(e)
      case Err(why) => Outcome(None, Err(why))
      case Ok(snapshot) =>
        var next := ApplyAll(snapshot.body, SlotEdits(edit));
        if !e.fits(next) then Outcome(None, Err(Format))
        else if RootOf(next) == snapshot.root then Outcome(None, Ok(CommittedEdit(EditConfirmed(RootOf(next)), next)))
        else match BuildAndSignUpdate(wallet, launcherId, RootOf(next), e)
          case Err(why) => Outcome(None, Err(why))
          case Ok(update) => PushUpdate(update, next, e)
  }

  /** `Profile::schema_version`: readable only as a number. */
  predicate HasSchemaVersion(profile: Body) {
    SCHEMA_VERSION in profile && profile[SCHEMA_VERSION].U16?
  }

  /** `publish_profile`: no body is read, so the root comparison is against the chain alone. */
  function PublishProfile(wallet: Gates.Wallet, launcherId: Id, profile: Body, e: EditEnv): Outcome {
    if !HasSchemaVersion(profile) then Outcome(None, Err(Refused))
    else if !e.unlocked then Outcome(None, Err(Locked))
    else if !e.fits(profile) then Outcome(None, Err(Format))
    else match ResolveStoreTip(e, 0)
      case Err(why) => Outcome(None, Err(why))
      case Ok(store) =>
        if store.root == RootOf(profile) then
          Outcome(None, Ok(CommittedEdit(EditConfirmed(store.root), profile)))
        else match BuildAndSignUpdate(wallet, launcherId, RootOf(profile), e)
          case Err(why) => Outcome(None, Err(why))
          case Ok(update) => PushUpdate(update, profile, e)
  }

  /** `edit_status`. */
  function Poll(newRoot: Root, e: EditEnv): Result<EditStatus, EditError> {
    match ResolveStoreTip(e, 0)
    case Err(why) => Err(why)
    case Ok(store) => if store.root == newRoot then Ok(EditConfirmed(newRoot)) else Ok(EditPushed(newRoot))
  }

  // ---------- what a source may answer ----------

  predicate NonDescending(pairs: seq<(nat, Value)>) {
    forall i, j :: 0 <= i < j < |pairs| ==> pairs[i].0 <= pairs[j].0
  }

  predicate Carries(pairs: seq<(nat, Value)>, id: nat) {
    exists p :: p in pairs && p.0 == id
  }

  predicate DistinctIds(pairs: seq<(nat, Value)>) {
    forall i, j :: 0 <= i < j < |pairs| ==> pairs[i].0 != pairs[j].0
  }

  lemma {:induction false} InsertHolds(sorted: seq<(nat, Value)>, pair: (nat, Value))
    ensures forall p :: p in InsertPair(sorted, pair) <==> p in sorted || p == pair
  {
    if sorted != [] && sorted[|sorted| - 1].0 > pair.0 {
      var front, last := sorted[..|sorted| - 1], sorted[|sorted| - 1];
      InsertHolds(front, pair);
      assert sorted == front + [last];
    }
  }

  lemma {:induction false} InsertKeepsOrder(sorted: seq<(nat, Value)>, pair: (nat, Value))
    requires NonDescending(sorted)
    ensures NonDescending(InsertPair(sorted, pair))
    ensures Ascending(InsertPair(sorted, pair)) <==> Ascending(sorted) && !Carries(sorted, pair.0)
  {
    if sorted == [] || sorted[|sorted| - 1].0 <= pair.0 {
      AppendKeepsOrder(sorted, pair);
    } else {
      var front, last := sorted[..|sorted| - 1], sorted[|sorted| - 1];
      var more := InsertPair(front, pair);
      assert sorted == front + [last] && InsertPair(sorted, pair) == more + [last];
      FrontKeepsOrder(sorted);
      InsertKeepsOrder(front, pair);
      InsertHolds(front, pair);
      InsertBelow(front, more, last, pair);
    }
  }

  /** Inserting below the last pair is inserting into what comes before it. */
  lemma InsertBelow(front: seq<(nat, Value)>, more: seq<(nat, Value)>, last: (nat, Value), pair: (nat, Value))
    requires NonDescending(front) && NonDescending(more) && pair.0 < last.0
    requires forall p :: p in front ==> p.0 <= last.0
    requires forall p :: p in more <==> p in front || p == pair
    requires Ascending(more) <==> Ascending(front) && !Carries(front, pair.0)
    ensures NonDescending(more + [last])
    ensures Ascending(more + [last]) <==> Ascending(front + [last]) && !Carries(front + [last], pair.0)
  {
    AppendKeepsOrder(more, last);
    AppendKeepsOrder(front, last);
    OtherSlotsCarry(front, more, pair, last.0);
    OtherSlotsCarry(front, front + [last], last, pair.0);
  }

  lemma FrontKeepsOrder(sorted: seq<(nat, Value)>)
    requires sorted != [] && NonDescending(sorted)
    ensures NonDescending(sorted[..|sorted| - 1])
    ensures forall p :: p in sorted[..|sorted| - 1] ==> p.0 <= sorted[|sorted| - 1].0
  {
  }

  lemma OtherSlotsCarry(before: seq<(nat, Value)>, more: seq<(nat, Value)>, extra: (nat, Value), id: nat)
    requires forall p :: p in more <==> p in before || p == extra
    requires extra.0 != id
    ensures Carries(more, id) <==> Carries(before, id)
  {
  }

  /** Appending a pair no lower than any before keeps the order, strictly so for a new slot id. */
  lemma AppendKeepsOrder(pairs: seq<(nat, Value)>, last: (nat, Value))
    requires NonDescending(pairs) && (pairs == [] || pairs[|pairs| - 1].0 <= last.0 || forall p :: p in pairs ==> p.0 <= last.0)
    ensures NonDescending(pairs + [last])
    ensures Ascending(pairs + [last]) <==> Ascending(pairs) && !Carries(pairs, last.0)
  {
    var more := pairs + [last];
    forall i | 0 <= i < |pairs| ensures pairs[i].0 <= last.0 {
      assert pairs[i] in pairs;
    }
    if Ascending(more) {
      assert forall i :: 0 <= i < |pairs| ==> more[i] == pairs[i];
      forall p | p in pairs ensures p.0 != last.0 {
        var i :| 0 <= i < |pairs| && pairs[i] == p;
        assert more[i].0 < more[|pairs|].0;
      }
    }
    if Ascending(pairs) && !Carries(pairs, last.0) {
      forall i, j | 0 <= i < j < |more| ensures more[i].0 < more[j].0 {
        assert pairs[i] in pairs;
      }
    }
  }

  /** `sorted` is an ordering of `pairs`, strict exactly when no slot repeats. */
  ghost predicate Orders(sorted: seq<(nat, Value)>, pairs: seq<(nat, Value)>) {
    && (forall p :: p in sorted <==> p in pairs)
    && NonDescending(sorted)
    && (Ascending(sorted) <==> DistinctIds(pairs))
  }

  lemma InsertOrders(sorted: seq<(nat, Value)>, front: seq<(nat, Value)>, last: (nat, Value))
    requires Orders(sorted, front)
    ensures Orders(InsertPair(sorted, last), front + [last])
  {
    InsertHolds(sorted, last);
    InsertKeepsOrder(sorted, last);
    CarryAlike(sorted, front, last.0);
    OneMoreId(front, last);
  }

  lemma {:induction false} SortHolds(pairs: seq<(nat, Value)>)
    ensures Orders(SortPairs(pairs), pairs)
  {
    if pairs != [] {
      SortHolds(pairs[..|pairs| - 1]);
      InsertOrders(SortPairs(pairs[..|pairs| - 1]), pairs[..|pairs| - 1], pairs[|pairs| - 1]);
      assert pairs == pairs[..|pairs| - 1] + [pairs[|pairs| - 1]];
    }
  }

  lemma CarryAlike(a: seq<(nat, Value)>, b: seq<(nat, Value)>, id: nat)
    requires forall p :: p in a <==> p in b
    ensures Carries(a, id) <==> Carries(b, id)
  {
  }

  lemma OneMoreId(front: seq<(nat, Value)>, last: (nat, Value))
    ensures DistinctIds(front + [last]) <==> DistinctIds(front) && !Carries(front, last.0)
  {
    var pairs := front + [last];
    if DistinctIds(pairs) {
      assert forall i :: 0 <= i < |front| ==> pairs[i] == front[i];
      forall p | p in front ensures p.0 != last.0 {
        var i :| 0 <= i < |front| && front[i] == p;
        assert pairs[i].0 != pairs[|front|].0;
      }
    }
    if DistinctIds(front) && !Carries(front, last.0) {
      forall i, j | 0 <= i < j < |pairs| ensures pairs[i].0 != pairs[j].0 {
        assert front[i] in front;
      }
    }
  }

  lemma {:induction false} BodyHolds(pairs: seq<(nat, Value)>)
    requires DistinctIds(pairs)
    ensures forall id :: id in BodyOf(pairs) <==> Carries(pairs, id)
    ensures forall p :: p in pairs ==> p.0 in BodyOf(pairs) && BodyOf(pairs)[p.0] == p.1
  {
    if pairs != [] {
      var front, last := pairs[..|pairs| - 1], pairs[|pairs| - 1];
      assert pairs == front + [last];
      OneMoreId(front, last);
      BodyHolds(front);
      assert forall id :: Carries(pairs, id) <==> Carries(front, id) || id == last.0 by {
        assert forall p :: p in pairs <==> p in front || p == last;
      }
    }
  }

  lemma {:induction false} DecodedAre(slots: seq<Slot>)
    ensures Decoded(slots).Some? <==> forall s :: s in slots ==> s.value.Some?
    ensures Decoded(slots).Some? ==>
              && |Decoded(slots).value| == |slots|
              && forall i :: 0 <= i < |slots| ==> slots[i].value.Some? && Decoded(slots).value[i] == (slots[i].id, slots[i].value.value)
  {
    if slots != [] {
      DecodedAre(slots[..|slots| - 1]);
      assert slots == slots[..|slots| - 1] + [slots[|slots| - 1]];
    }
  }

  /** The slots a source answered are the body: every one decodes, none repeats, nothing is missing. */
  ghost predicate AreTheBody(slots: seq<Slot>, body: Body) {
    && (forall i, j :: 0 <= i < j < |slots| ==> slots[i].id != slots[j].id)
    && (forall s :: s in slots ==> s.id in body && s.value == Some(body[s.id]))
    && (forall id :: id in body ==> exists s :: s in slots && s.id == id)
  }

  /** A body is assembled exactly when the answered slots are that body, in any order at all, and the
      format accepts it. */
  lemma AssemblyIsExact(slots: seq<Slot>, fits: Body -> bool, body: Body)
    ensures AssembleBody(slots, fits) == Ok(body) <==> AreTheBody(slots, body) && fits(body)
  {
    DecodedAre(slots);
    if Decoded(slots).Some? {
      var pairs := Decoded(slots).value;
      SortHolds(pairs);
      if DistinctIds(pairs) {
        AscendingIsDistinct(SortPairs(pairs));
        BodyHolds(SortPairs(pairs));
        assert forall s :: s in slots ==> (s.id, s.value.value) in pairs;
        SortedBody(slots, pairs, BodyOf(SortPairs(pairs)));
        if AreTheBody(slots, body) {
          SameContents(slots, body, BodyOf(SortPairs(pairs)));
        }
      }
    }
  }

  lemma AscendingIsDistinct(pairs: seq<(nat, Value)>)
    requires Ascending(pairs)
    ensures DistinctIds(pairs)
  {
  }

  lemma SortedBody(slots: seq<Slot>, pairs: seq<(nat, Value)>, body: Body)
    requires |pairs| == |slots| && DistinctIds(pairs)
    requires forall i :: 0 <= i < |slots| ==> slots[i].value.Some? && pairs[i] == (slots[i].id, slots[i].value.value)
    requires forall id :: id in body ==> Carries(SortPairs(pairs), id)
    requires forall p :: p in SortPairs(pairs) ==> p.0 in body && body[p.0] == p.1
    requires forall p :: p in SortPairs(pairs) <==> p in pairs
    ensures AreTheBody(slots, body)
  {
    forall i, j | 0 <= i < j < |slots| ensures slots[i].id != slots[j].id {
      assert pairs[i].0 != pairs[j].0;
    }
    forall s | s in slots ensures s.id in body && s.value == Some(body[s.id]) {
      var i :| 0 <= i < |slots| && slots[i] == s;
      assert pairs[i] in pairs;
    }
    forall id | id in body ensures exists s :: s in slots && s.id == id {
      assert Carries(SortPairs(pairs), id);
      var p :| p in SortPairs(pairs) && p.0 == id;
      var i :| 0 <= i < |pairs| && pairs[i] == p;
      assert slots[i] in slots;
    }
  }

  lemma SameContents(slots: seq<Slot>, a: Body, b: Body)
    requires AreTheBody(slots, a) && AreTheBody(slots, b)
    ensures a == b
  {
    forall id: nat ensures id in a <==> id in b {
    }
    forall id | id in a ensures a[id] == b[id] {
      var s :| s in slots && s.id == id;
    }
  }

  // ---------- what a read and a commit guarantee ----------

  /** A profile is read exactly when the source answers the slots of the committed body, in any order,
      and the format accepts them; then that body is what is read, whoever served it. */
  lemma ReadIsExact(e: EditEnv, body: Body)
    ensures ReadProfile(e) == Ok(Snapshot(RootOf(body), body, Project(body))) <==>
              && ResolveStoreTip(e, 0).Ok? && ResolveStoreTip(e, 0).value.root == RootOf(body)
              && e.content(RootOf(body)).Answer? && AreTheBody(e.content(RootOf(body)).value, body) && e.fits(body)
    ensures ReadProfile(e).Ok? && ReadProfile(e).value.body == body ==>
              ReadProfile(e) == Ok(Snapshot(RootOf(body), body, Project(body)))
  {
    if ResolveStoreTip(e, 0).Ok? && e.content(ResolveStoreTip(e, 0).value.root).Answer? {
      AssemblyIsExact(e.content(ResolveStoreTip(e, 0).value.root).value, e.fits, body);
    }
  }

  /** No batch can remove the schema version, so the guard against it never fires. */
  lemma SchemaVersionIsUnremovable(edit: ProfileEdit, k: nat)
    requires k <= |ALL|
    ensures RemoveSlot(SCHEMA_VERSION) !in SlotEditsTo(edit, k)
  {
    if k > 0 {
      SchemaVersionIsUnremovable(edit, k - 1);
      SlotsAreDistinct(ALL[k - 1], ALL[k - 1]);
    }
  }

  /** What a commit that succeeds hands back: the edited body, and where its root stands. */
  lemma CommittedBody(wallet: Gates.Wallet, launcherId: Id, edit: ProfileEdit, e: EditEnv)
    requires CommitEdit(wallet, launcherId, edit, e).result.Ok?
    ensures ReadProfile(e).Ok?
    ensures var body := ApplyAll(ReadProfile(e).value.body, SlotEdits(edit));
            CommitEdit(wallet, launcherId, edit, e).result.value == CommittedEdit(
              if CommitEdit(wallet, launcherId, edit, e).pushed.Some? then EditPushed(RootOf(body)) else EditConfirmed(RootOf(body)),
              body)
  {
  }

  /** What the person was shown is what they committed: whatever the preview of the fields they read
      came out as, it is exactly the standard slots of the body handed back. */
  lemma CommitIsWhatWasShown(wallet: Gates.Wallet, launcherId: Id, edit: ProfileEdit, e: EditEnv, shown: Fields)
    requires CommitEdit(wallet, launcherId, edit, e).result.Ok?
    requires ReadProfile(e).Ok? && IsPreview(edit, ReadProfile(e).value.fields, shown)
    ensures Project(CommitEdit(wallet, launcherId, edit, e).result.value.body) == shown
  {
    var body := ReadProfile(e).value.body;
    CommittedBody(wallet, launcherId, edit, e);
    CommitAgreesWithPreview(body, edit);
    PreviewIsUnique(edit, Project(body), Project(ApplyAll(body, SlotEdits(edit))), shown);
  }

  /** And nothing else was: every slot the batch does not name is as it was read, the schema version
      among them. */
  lemma CommitKeepsTheRest(wallet: Gates.Wallet, launcherId: Id, edit: ProfileEdit, e: EditEnv, id: nat)
    requires CommitEdit(wallet, launcherId, edit, e).result.Ok? && (!Names(edit, id) || id == SCHEMA_VERSION)
    ensures ReadProfile(e).Ok?
    ensures Same(ReadProfile(e).value.body, CommitEdit(wallet, launcherId, edit, e).result.value.body, id)
  {
    var body := ReadProfile(e).value.body;
    CommittedBody(wallet, launcherId, edit, e);
    if id == SCHEMA_VERSION {
      SchemaVersionSurvives(body, edit);
    } else {
      SlotEffect(body, edit, id);
    }
  }

  /** Nothing is signed away: a broadcast edit spends the tip of the store the anchor names, owned by
      this wallet with nothing delegated, signs only as this wallet, and changes only the root. */
  lemma PushedEditRecreatesOurStore(wallet: Gates.Wallet, launcherId: Id, edit: ProfileEdit, e: EditEnv)
    requires CommitEdit(wallet, launcherId, edit, e).pushed.Some?
    ensures ReadProfile(e).Ok? && ResolveStoreTip(e, 1).Ok? && e.required.Some?
    ensures var update := CommitEdit(wallet, launcherId, edit, e).pushed.value;
            var store := ResolveStoreTip(e, 1).value;
            && StoreIsOurs(wallet, launcherId, store)
            && update.spent == store.coin && e.drained == [store.coin]
            && update.recreated == store.(root := RootOf(ApplyAll(ReadProfile(e).value.body, SlotEdits(edit))))
            && forall r :: r in e.required.value ==> Gates.Signable(r, {wallet.key}, e.me)
  {
    Gates.RequirementsAccepted(e.required.value, {wallet.key}, e.me);
  }

  /** The exact condition for an edit to push, and what its caller is then told: a refusal only of a
      stated one, and a silence never as either. */
  lemma CommitIsExact(wallet: Gates.Wallet, launcherId: Id, edit: ProfileEdit, e: EditEnv)
    ensures var outcome := CommitEdit(wallet, launcherId, edit, e);
            && (outcome.pushed.Some? <==>
                  && edit != map[] && e.unlocked && ReadProfile(e).Ok?
                  && var next := ApplyAll(ReadProfile(e).value.body, SlotEdits(edit));
                     && next != ReadProfile(e).value.body && e.fits(next)
                     && MaySign(wallet, launcherId, e))
            && (outcome.pushed.Some? ==>
                  && (outcome.result.Ok? <==> e.answer.Settled? && e.answer.outcome != Push.Rejected)
                  && (outcome.result == Err(NetworkRejected) <==> e.answer == Push.Settled(Push.Rejected)))
  {
    SchemaVersionIsUnremovable(edit, |ALL|);
    if e.required.Some? {
      Gates.RequirementsAccepted(e.required.value, {wallet.key}, e.me);
    }
  }

  /** The second resolution of the tip finds this wallet's own store, and the bundle built from it
      spends that tip alone under this wallet's key alone. */
  ghost predicate MaySign(wallet: Gates.Wallet, launcherId: Id, e: EditEnv) {
    && ResolveStoreTip(e, 1).Ok? && StoreIsOurs(wallet, launcherId, ResolveStoreTip(e, 1).value)
    && e.builds && e.required.Some? && e.drained == [ResolveStoreTip(e, 1).value.coin]
    && forall r :: r in e.required.value ==> Gates.Signable(r, {wallet.key}, e.me)
  }

  /** An edit pushes only if it changes the body: given a readable profile, a batch that leaves it as
      it was is confirmed on the spot. */
  lemma OnlyAChangeIsPushed(wallet: Gates.Wallet, launcherId: Id, edit: ProfileEdit, e: EditEnv)
    requires edit != map[] && e.unlocked && ReadProfile(e).Ok?
    ensures var body := ReadProfile(e).value.body;
            var outcome := CommitEdit(wallet, launcherId, edit, e);
            && (ApplyAll(body, SlotEdits(edit)) == body <==>
                  outcome == Outcome(None, Ok(CommittedEdit(EditConfirmed(RootOf(body)), body))))
            && (outcome.pushed.Some? ==> ApplyAll(body, SlotEdits(edit)) != body)
  {
    SchemaVersionIsUnremovable(edit, |ALL|);
  }

  /** Retrying is safe: once the store anchors what an edit of `body` commits, committing that edit
      again broadcasts nothing, whatever the content source now answers, and confirms that very body
      whenever it is served. */
  lemma AnchoredEditIsNotPushedAgain(wallet: Gates.Wallet, launcherId: Id, edit: ProfileEdit, body: Body, e: EditEnv, store: StoreTip)
    requires e.tip(0) == Answer(Tip(store)) && store.root == RootOf(ApplyAll(body, SlotEdits(edit)))
    ensures CommitEdit(wallet, launcherId, edit, e).pushed.None?
    ensures var committed := ApplyAll(body, SlotEdits(edit));
            edit != map[] && e.unlocked && ReadProfile(e).Ok? ==>
              CommitEdit(wallet, launcherId, edit, e).result == Ok(CommittedEdit(EditConfirmed(store.root), committed))
  {
    EditIsIdempotent(body, edit);
    if edit != map[] && e.unlocked && ReadProfile(e).Ok? {
      OnlyAChangeIsPushed(wallet, launcherId, edit, e);
    }
  }

  /** A push that was answered, and one that was not, are retried alike: after either, once a later
      call finds the pushed root anchored, polling confirms it and committing pushes nothing. */
  lemma AnchoredPushIsNotRepeated(
    wallet: Gates.Wallet, launcherId: Id, edit: ProfileEdit, e: EditEnv, later: EditEnv, store: StoreTip)
    requires CommitEdit(wallet, launcherId, edit, e).pushed.Some?
    requires later.tip(0) == Answer(Tip(store))
    requires store.root == CommitEdit(wallet, launcherId, edit, e).pushed.value.recreated.root
    ensures CommitEdit(wallet, launcherId, edit, later).pushed.None?
    ensures Poll(store.root, later) == Ok(EditConfirmed(store.root))
  {
    AnchoredEditIsNotPushedAgain(wallet, launcherId, edit, ReadProfile(e).value.body, later, store);
  }

  /** Until then it pushes again: a retry that may sign and reads the profile where the push found it,
      or where the push left it, broadcasts exactly unless the pushed root is anchored. Nothing read
      off an unmoved chain tells it that a bundle is already out. */
  lemma RetryPushesExactlyUntilAnchored(
    wallet: Gates.Wallet, launcherId: Id, edit: ProfileEdit, e: EditEnv, later: EditEnv)
    requires CommitEdit(wallet, launcherId, edit, e).pushed.Some?
    requires later.unlocked && ReadProfile(later).Ok? && MaySign(wallet, launcherId, later)
    requires later.fits(ApplyAll(ReadProfile(later).value.body, SlotEdits(edit)))
    requires ReadProfile(later).value.root in
               {ReadProfile(e).value.root, CommitEdit(wallet, launcherId, edit, e).pushed.value.recreated.root}
    ensures var (first, again) := (CommitEdit(wallet, launcherId, edit, e).pushed.value, CommitEdit(wallet, launcherId, edit, later));
            && (again.pushed.Some? <==> ReadProfile(later).value.root != first.recreated.root)
            && (again.pushed.Some? ==> again.pushed.value == Update(
                  ResolveStoreTip(later, 1).value.coin, ResolveStoreTip(later, 1).value.(root := first.recreated.root)))
  {
    var body, body' := ReadProfile(e).value.body, ReadProfile(later).value.body;
    PushedEditRecreatesOurStore(wallet, launcherId, edit, e);
    ReadRoot(e);
    ReadRoot(later);
    EditIsIdempotent(body, edit);
    assert body' == body || body' == ApplyAll(body, SlotEdits(edit));
    RetryPushes(wallet, launcherId, edit, later);
  }

  lemma ReadRoot(e: EditEnv)
    requires ReadProfile(e).Ok?
    ensures ReadProfile(e).value.root == RootOf(ReadProfile(e).value.body)
  {
  }

  lemma RetryPushes(wallet: Gates.Wallet, launcherId: Id, edit: ProfileEdit, e: EditEnv)
    requires edit != map[] && e.unlocked && ReadProfile(e).Ok? && MaySign(wallet, launcherId, e)
    requires e.fits(ApplyAll(ReadProfile(e).value.body, SlotEdits(edit)))
    ensures var (body, pushed) := (ReadProfile(e).value.body, CommitEdit(wallet, launcherId, edit, e).pushed);
            var store := ResolveStoreTip(e, 1).value;
            && (pushed.Some? <==> ApplyAll(body, SlotEdits(edit)) != body)
            && (pushed.Some? ==> pushed.value == Update(store.coin, store.(root := RootOf(ApplyAll(body, SlotEdits(edit))))))
  {
    CommitIsExact(wallet, launcherId, edit, e);
    if CommitEdit(wallet, launcherId, edit, e).pushed.Some? {
      PushedEditRecreatesOurStore(wallet, launcherId, edit, e);
    }
  }

  /** Confirmed is never said of a root the store does not anchor, and never said of a push. */
  predicate ConfirmedOnlyIfAnchored(outcome: Outcome, e: EditEnv) {
    outcome.result.Ok? && outcome.result.value.status.EditConfirmed? ==>
      && outcome.pushed.None? && ResolveStoreTip(e, 0).Ok?
      && ResolveStoreTip(e, 0).value.root == outcome.result.value.status.root == RootOf(outcome.result.value.body)
  }

  lemma CommittedIsAnchored(wallet: Gates.Wallet, launcherId: Id, edit: ProfileEdit, e: EditEnv)
    ensures ConfirmedOnlyIfAnchored(CommitEdit(wallet, launcherId, edit, e), e)
  {
  }

  lemma PublishedIsAnchored(wallet: Gates.Wallet, launcherId: Id, profile: Body, e: EditEnv)
    ensures ConfirmedOnlyIfAnchored(PublishProfile(wallet, launcherId, profile, e), e)
  {
  }

  /** Publishing wholesale commits exactly the given profile, never one no reader can interpret, and
      pushes it exactly when the store does not anchor it already and the gates allow it. */
  lemma PublishIsExact(wallet: Gates.Wallet, launcherId: Id, profile: Body, e: EditEnv)
    ensures var outcome := PublishProfile(wallet, launcherId, profile, e);
            && (outcome.pushed.Some? <==>
                  && HasSchemaVersion(profile) && e.unlocked && e.fits(profile)
                  && ResolveStoreTip(e, 0).Ok? && ResolveStoreTip(e, 0).value.root != RootOf(profile)
                  && MaySign(wallet, launcherId, e))
            && (outcome.pushed.Some? ==>
                  outcome.pushed.value.recreated == ResolveStoreTip(e, 1).value.(root := RootOf(profile)))
            && (outcome.result.Ok? ==> outcome.result.value.body == profile && HasSchemaVersion(profile))
  {
    if e.required.Some? {
      Gates.RequirementsAccepted(e.required.value, {wallet.key}, e.me);
    }
  }

  // ---------- the assembling loop ----------

  /** `assemble_body` as it runs: decode in the order given, sort, accept. */
  method Assemble(slots: seq<Slot>, fits: Body -> bool) returns (r: Result<Body, EditError>)
    ensures r == AssembleBody(slots, fits)
  {
    var pairs: seq<(nat, Value)> := [];
    for k := 0 to |slots|
      invariant Decoded(slots[..k]) == Some(pairs)
    {
      assert slots[..k + 1][..k] == slots[..k];
      if slots[k].value.None? {
        UndecodableStays(slots, k + 1);
        return Err(Format);
      }
      pairs := pairs + [(slots[k].id, slots[k].value.value)];
    }
    assert slots[..|slots|] == slots;
    var sorted := SortPairs(pairs);
    return if Ascending(sorted) && fits(BodyOf(sorted)) then Ok(BodyOf(sorted)) else Err(Format);
  }

  lemma {:induction false} UndecodableStays(slots: seq<Slot>, k: nat)
    requires k <= |slots| && Decoded(slots[..k]).None?
    ensures Decoded(slots).None?
    decreases |slots| - k
  {
    if k == |slots| {
      assert slots[..k] == slots;
    } else {
      assert slots[..k + 1][..k] == slots[..k];
      UndecodableStays(slots, k + 1);
    }
  }
}
