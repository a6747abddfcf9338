/**
  A profile's published body, the batch of changes a person makes to its standard slots, and the
  two ways of applying that batch: the preview a form shows and the edit the root commits.
*/
module ProfileBody {

  datatype ProfileSlot =
    | DisplayName | Bio | Avatar | Banner | Pronouns | Location | Links | XchAddress | AvatarImage | BannerImage
  {
    function Id(): nat {
      match this
      case DisplayName => 0x01
      case Bio => 0x02
      case Avatar => 0x03
      case Banner => 0x04
      case Pronouns => 0x05
      case Location => 0x06
      case Links => 0x07
      case XchAddress => 0x08
      case AvatarImage => 0x20
      case BannerImage => 0x21
    }

    function Position(): (k: nat)
      ensures k < |ALL| && ALL[k] == this
    {
      match this
      case AvatarImage => 8
      case BannerImage => 9
      case _ => Id() - 1
    }
  }

  /** Every standard slot, in schema order. */
  const ALL: seq<ProfileSlot> :=
    [DisplayName, Bio, Avatar, Banner, Pronouns, Location, Links, XchAddress, AvatarImage, BannerImage]

  /** The slot that says which schema a body speaks. Its number is the schema crate's; all that
      matters here is that no standard slot has it. */
  const SCHEMA_VERSION: nat := 0

  datatype Value = Utf8(text: string) | U16(number: nat) | Encoded(bytes: seq<nat>)

  type Body = map<nat, Value>

  type Fields = map<ProfileSlot, string>

  datatype SlotChange = Set(text: string) | Remove

  /** A batch: at most one change per slot. */
  type ProfileEdit = map<ProfileSlot, SlotChange>

  datatype SlotEdit = SetSlot(id: nat, value: Value) | RemoveSlot(id: nat)

  // ---------- the two readings of a batch ----------

  /** The fields a form shows, slot by slot. */
  ghost predicate IsPreview(edit: ProfileEdit, current: Fields, next: Fields) {
    forall slot: ProfileSlot ::
      && (slot in next <==> if slot in edit then edit[slot].Set? else slot in current)
      && (slot in next ==> next[slot] == if slot in edit then edit[slot].text else current[slot])
  }

  /** `ProfileEdit::preview`. */
  method Preview(edit: ProfileEdit, current: Fields) returns (next: Fields)
    ensures IsPreview(edit, current, next)
  {
    next := current;
    for k := 0 to |ALL|
      invariant forall slot: ProfileSlot :: slot.Position() >= k ==>
                  (slot in next <==> slot in current) && (slot in next ==> next[slot] == current[slot])
      invariant forall slot: ProfileSlot :: slot.Position() < k ==>
                  && (slot in next <==> if slot in edit then edit[slot].Set? else slot in current)
                  && (slot in next ==> next[slot] == if slot in edit then edit[slot].text else current[slot])
    {
      var slot := ALL[k];
      assert forall other: ProfileSlot :: other.Position() == k <==> other == slot;
      if slot in edit {
        match edit[slot]
        case Set(text) => next := next[slot := text];
        case Remove => next := next - {slot};
      }
    }
  }

  lemma PreviewIsUnique(edit: ProfileEdit, current: Fields, a: Fields, b: Fields)
    requires IsPreview(edit, current, a) && IsPreview(edit, current, b)
    ensures a == b
  {
    assert forall slot :: slot in a <==> slot in b;
  }

  function ToSlotEdit(slot: ProfileSlot, change: SlotChange): SlotEdit {
    match change
    case Set(text) => SetSlot(slot.Id(), Utf8(text))
    case Remove => RemoveSlot(slot.Id())
  }

  /** `slot_edits`, up to the `k`-th standard slot. */
  function SlotEditsTo(edit: ProfileEdit, k: nat): seq<SlotEdit>
    requires k <= |ALL|
  {
    if k == 0 then []
    else SlotEditsTo(edit, k - 1) + if ALL[k - 1] in edit then [ToSlotEdit(ALL[k - 1], edit[ALL[k - 1]])] else []
  }

  function SlotEdits(edit: ProfileEdit): seq<SlotEdit> {
    SlotEditsTo(edit, |ALL|)
  }

  function Apply(body: Body, change: SlotEdit): Body {
    match change
    case SetSlot(id, value) => body[id := value]
    case RemoveSlot(id) => body - {id}
  }

  /** `apply_all`, over the whole body. */
  function ApplyAll(body: Body, changes: seq<SlotEdit>): Body {
    if changes == [] then body
    else Apply(ApplyAll(body, changes[..|changes| - 1]), changes[|changes| - 1])
  }

  /** The standard slots a body publishes as text. */
  function Project(body: Body): Fields {
    map slot | slot in ALL && slot.Id() in body && body[slot.Id()].Utf8? :: body[slot.Id()].text
  }

  /** `project_standard_slots`. */
  method ProjectStandardSlots(body: Body) returns (fields: Fields)
    ensures fields == Project(body)
  {
    fields := map[];
    for k := 0 to |ALL|
      invariant forall slot :: slot in fields <==> slot in ALL[..k] && slot.Id() in body && body[slot.Id()].Utf8?
      invariant forall slot :: slot in fields ==> fields[slot] == body[slot.Id()].text
    {
      var slot := ALL[k];
      if slot.Id() in body && body[slot.Id()].Utf8? {
        fields := fields[slot := body[slot.Id()].text];
      }
    }
    assert ALL[..|ALL|] == ALL;
  }

  // ---------- they agree ----------

  lemma SlotsAreDistinct(a: ProfileSlot, b: ProfileSlot)
    ensures a.Id() == b.Id() <==> a == b
    ensures a.Position() == b.Position() <==> a == b
    ensures a.Id() != SCHEMA_VERSION
  {
  }

  lemma OneMoreSlot(body: Body, edit: ProfileEdit, k: nat)
    requires 0 < k <= |ALL|
    ensures var before := ApplyAll(body, SlotEditsTo(edit, k - 1));
            var last := ALL[k - 1];
            ApplyAll(body, SlotEditsTo(edit, k)) == if last in edit then Apply(before, ToSlotEdit(last, edit[last])) else before
  {
    var before, last := SlotEditsTo(edit, k - 1), ALL[k - 1];
    if last in edit {
      var change := ToSlotEdit(last, edit[last]);
      assert SlotEditsTo(edit, k) == before + [change];
      assert (before + [change])[..|before|] == before;
    } else {
      assert SlotEditsTo(edit, k) == before;
    }
  }

  lemma AtPosition(slot: ProfileSlot, k: nat)
    requires k < |ALL|
    ensures ALL[k] == slot <==> slot.Position() == k
    ensures ALL[k].Id() == slot.Id() <==> ALL[k] == slot
  {
    assert ALL[ALL[k].Position()] == ALL[k];
    SlotsAreDistinct(ALL[k], slot);
  }

  predicate Same(body: Body, next: Body, id: nat) {
    (id in next <==> id in body) && (id in next ==> next[id] == body[id])
  }

  lemma SameEverywhere(body: Body, next: Body)
    requires forall id: nat :: Same(body, next, id)
    ensures next == body
  {
    forall id: nat ensures (id in next <==> id in body) && (id in next ==> next[id] == body[id]) {
      assert Same(body, next, id);
    }
  }

  predicate Changed(next: Body, id: nat, change: SlotChange) {
    match change
    case Set(text) => id in next && next[id] == Utf8(text)
    case Remove => id !in next
  }

  lemma ApplyAt(body: Body, next: Body, slot: ProfileSlot, change: SlotChange, id: nat)
    requires next == Apply(body, ToSlotEdit(slot, change))
    ensures if slot.Id() == id then Changed(next, id, change) else Same(body, next, id)
  {
  }

  /** What a batch does to one slot of a body, wherever the slot is in the batch's order. */
  lemma {:induction false} EditedTo(body: Body, edit: ProfileEdit, k: nat, slot: ProfileSlot)
    requires k <= |ALL|
    ensures var next := ApplyAll(body, SlotEditsTo(edit, k));
            if slot in edit && slot.Position() < k then Changed(next, slot.Id(), edit[slot])
            else Same(body, next, slot.Id())
  {
    if k > 0 {
      EditedTo(body, edit, k - 1, slot);
      OneMoreSlot(body, edit, k);
      AtPosition(slot, k - 1);
      var last, id := ALL[k - 1], slot.Id();
      if last in edit {
        ApplyAt(ApplyAll(body, SlotEditsTo(edit, k - 1)), ApplyAll(body, SlotEditsTo(edit, k)), last, edit[last], id);
      }
    }
  }

  /** A slot the batch does not name, standard or not, is carried through untouched. */
  lemma {:induction false} UnnamedSlotIsUntouched(body: Body, edit: ProfileEdit, k: nat, id: nat)
    requires k <= |ALL| && forall slot :: slot in edit ==> slot.Id() != id
    ensures Same(body, ApplyAll(body, SlotEditsTo(edit, k)), id)
  {
    if k > 0 {
      UnnamedSlotIsUntouched(body, edit, k - 1, id);
      OneMoreSlot(body, edit, k);
    }
  }

  /** What the form shows is what the root will commit, for every body and every batch. */
  lemma CommitAgreesWithPreview(body: Body, edit: ProfileEdit)
    ensures IsPreview(edit, Project(body), Project(ApplyAll(body, SlotEdits(edit))))
  {
    var now, next := Project(body), Project(ApplyAll(body, SlotEdits(edit)));
    forall slot: ProfileSlot
      ensures slot in next <==> if slot in edit then edit[slot].Set? else slot in now
      ensures slot in next ==> next[slot] == if slot in edit then edit[slot].text else now[slot]
    {
      EditedTo(body, edit, |ALL|, slot);
      assert ALL[slot.Position()] == slot;
    }
  }

  lemma SchemaVersionSurvives(body: Body, edit: ProfileEdit)
    ensures Same(body, ApplyAll(body, SlotEdits(edit)), SCHEMA_VERSION)
  {
    UnnamedSlotIsUntouched(body, edit, |ALL|, SCHEMA_VERSION);
  }

  predicate Names(edit: ProfileEdit, id: nat) {
    exists slot :: slot in edit && slot.Id() == id
  }

  lemma SlotEffect(body: Body, edit: ProfileEdit, id: nat)
    ensures var next := ApplyAll(body, SlotEdits(edit));
            if Names(edit, id) then
              forall slot :: slot in edit && slot.Id() == id ==> Changed(next, id, edit[slot])
            else Same(body, next, id)
  {
    if Names(edit, id) {
      forall slot | slot in edit && slot.Id() == id {
        EditedTo(body, edit, |ALL|, slot);
      }
    } else {
      UnnamedSlotIsUntouched(body, edit, |ALL|, id);
    }
  }

  /** Applying a batch twice is applying it once. */
  lemma EditIsIdempotent(body: Body, edit: ProfileEdit)
    ensures ApplyAll(ApplyAll(body, SlotEdits(edit)), SlotEdits(edit)) == ApplyAll(body, SlotEdits(edit))
  {
    var once := ApplyAll(body, SlotEdits(edit));
    var twice := ApplyAll(once, SlotEdits(edit));
    forall id: nat ensures Same(once, twice, id) {
      SlotEffect(body, edit, id);
      SlotEffect(once, edit, id);
    }
    SameEverywhere(once, twice);
  }

  // ---------- building a batch ----------

  /** `set` and `remove`, as one keystroke: the later change to a slot replaces the earlier. */
  function WithChange(edit: ProfileEdit, slot: ProfileSlot, change: SlotChange): ProfileEdit {
    edit[slot := change]
  }

  function Batch(changes: seq<(ProfileSlot, SlotChange)>): ProfileEdit {
    if changes == [] then map[]
    else
      var (slot, change) := changes[|changes| - 1];
      WithChange(Batch(changes[..|changes| - 1]), slot, change)
  }

  function Keystrokes(changes: seq<(ProfileSlot, SlotChange)>): seq<SlotEdit> {
    seq(|changes|, i requires 0 <= i < |changes| => ToSlotEdit(changes[i].0, changes[i].1))
  }

  /** A batch is the profile's next state, not a log: committing it leaves exactly the body that
      making every change one after the other would have left. */
  lemma {:induction false} BatchIsItsKeystrokes(body: Body, changes: seq<(ProfileSlot, SlotChange)>)
    ensures ApplyAll(body, SlotEdits(Batch(changes))) == ApplyAll(body, Keystrokes(changes))
  {
    var batch := Batch(changes);
    var committed := ApplyAll(body, SlotEdits(batch));
    if changes == [] {
      forall id: nat ensures Same(body, committed, id) {
        SlotEffect(body, batch, id);
      }
      SameEverywhere(body, committed);
    } else {
      var n := |changes| - 1;
      var (slot, change) := changes[n];
      var earlier := Batch(changes[..n]);
      BatchIsItsKeystrokes(body, changes[..n]);
      assert Keystrokes(changes)[..n] == Keystrokes(changes[..n]);
      var before := ApplyAll(body, SlotEdits(earlier));
      var after := Apply(before, ToSlotEdit(slot, change));
      forall id: nat ensures Same(after, committed, id) {
        LastChangeWins(body, earlier, slot, change, id);
      }
      SameEverywhere(after, committed);
    }
  }

  lemma LastChangeWins(body: Body, earlier: ProfileEdit, slot: ProfileSlot, change: SlotChange, id: nat)
    ensures var committed := ApplyAll(body, SlotEdits(WithChange(earlier, slot, change)));
            var after := Apply(ApplyAll(body, SlotEdits(earlier)), ToSlotEdit(slot, change));
            Same(after, committed, id)
  {
    var edit := WithChange(earlier, slot, change);
    SlotEffect(body, edit, id);
    SlotEffect(body, earlier, id);
    if id == slot.Id() {
      assert slot in edit && Names(edit, id);
    } else {
      assert forall s :: s in edit && s.Id() == id <==> s in earlier && s.Id() == id by {
        forall s: ProfileSlot {
          SlotsAreDistinct(s, slot);
        }
      }
      assert Names(edit, id) <==> Names(earlier, id);
      assert forall s :: s in edit && s.Id() == id ==> edit[s] == earlier[s];
    }
  }
}
