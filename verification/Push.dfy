/**
  Reading a push answer. Two positions mean opposite things: the network said no, or the
  outcome is unknown. Only a recognisable mempool decision is ever the first.
*/
module Push {
  import opened Base

  const MEMPOOL_REFUSAL_MARKER: string := "failed to include transaction"
  const ALREADY_INCLUDING: string := "already_including_transaction"
  const PENDING_ASSERTIONS: seq<string> := [
    "ASSERT_HEIGHT_ABSOLUTE_FAILED",
    "ASSERT_HEIGHT_RELATIVE_FAILED",
    "ASSERT_SECONDS_ABSOLUTE_FAILED",
    "ASSERT_SECONDS_RELATIVE_FAILED"]

  /** A response body: not JSON at all, or JSON with whatever strings it carries under `error` and
      `status`. The HTTP status code is never consulted. */
  datatype Body = NotJson | Json(error: Option<string>, status: Option<string>)

  datatype PushOutcome = Accepted | AlreadyInMempool | Rejected

  datatype PushAnswer = Settled(outcome: PushOutcome) | Unknown

  predicate OccursAt(text: string, part: string, i: int) {
    0 <= i <= |text| - |part| && text[i..i + |part|] == part
  }

  predicate Contains(text: string, part: string) {
    exists i :: 0 <= i <= |text| && OccursAt(text, part, i)
  }

  function Lower(c: char): char {
    if 'A' <= c <= 'Z' then c - 'A' + 'a' else c
  }

  function Lowered(text: string): string {
    seq(|text|, i requires 0 <= i < |text| => Lower(text[i]))
  }

  predicate NamesPendingAssertion(reason: string) {
    exists k :: 0 <= k < |PENDING_ASSERTIONS| && Contains(reason, PENDING_ASSERTIONS[k])
  }

  /** `classify_error`. */
  function ClassifyError(reason: string): PushAnswer {
    var lowered := Lowered(reason);
    if Contains(lowered, ALREADY_INCLUDING) then Settled(AlreadyInMempool)
    else if NamesPendingAssertion(reason) then Unknown
    else if Contains(lowered, MEMPOOL_REFUSAL_MARKER) then Settled(Rejected)
    else Unknown
  }

  /** `interpret_push_answer`. */
  function Interpret(body: Body): PushAnswer {
    match body
    case NotJson => Unknown
    case Json(Some(reason), _) => ClassifyError(reason)
    case Json(None, Some(status)) =>
      if status == "SUCCESS" then Settled(Accepted)
      else if status == "FAILED" then Settled(Rejected)
      else Unknown
    case Json(None, None) => Unknown
  }

  /** The seam's whole answer: a transport failure never means no. */
  function PushVia(body: Option<Body>): PushAnswer {
    match body
    case None => Unknown
    case Some(b) => Interpret(b)
  }

  /** The body states a refusal: status FAILED and no error, or an error that carries the refusal
      marker and neither says the bundle is already held nor names an assertion it may yet meet. */
  predicate StatesRefusal(body: Body) {
    body.Json? &&
    match body.error
    case None => body.status == Some("FAILED")
    case Some(reason) =>
      && Contains(Lowered(reason), MEMPOOL_REFUSAL_MARKER)
      && !Contains(Lowered(reason), ALREADY_INCLUDING)
      && !NamesPendingAssertion(reason)
  }

  /** No answer but a stated refusal is ever read as one. */
  lemma RejectedIff(body: Option<Body>)
    ensures PushVia(body) == Settled(Rejected) <==> body.Some? && StatesRefusal(body.value)
  {
  }

  // ---------- the case of a pending assertion ----------

  /** A pending assertion named in whatever case, as the refusal marker is looked for. */
  predicate NamesPendingInAnyCase(reason: string) {
    exists k :: 0 <= k < |PENDING_ASSERTIONS| && Contains(Lowered(reason), Lowered(PENDING_ASSERTIONS[k]))
  }

  /** `classify_error`, with the assertions matched as the markers are. */
  function ClassifiedInAnyCase(reason: string): PushAnswer {
    var lowered := Lowered(reason);
    if Contains(lowered, ALREADY_INCLUDING) then Settled(AlreadyInMempool)
    else if NamesPendingInAnyCase(reason) then Unknown
    else if Contains(lowered, MEMPOOL_REFUSAL_MARKER) then Settled(Rejected)
    else Unknown
  }

  lemma LoweredStillNames(reason: string)
    requires NamesPendingAssertion(reason)
    ensures NamesPendingInAnyCase(reason)
  {
    var k :| 0 <= k < |PENDING_ASSERTIONS| && Contains(reason, PENDING_ASSERTIONS[k]);
    LoweredContains(reason, PENDING_ASSERTIONS[k]);
  }

  lemma LoweredContains(text: string, part: string)
    requires Contains(text, part)
    ensures Contains(Lowered(text), Lowered(part))
  {
    var i :| 0 <= i <= |text| && OccursAt(text, part, i);
    forall j | 0 <= j < |part| ensures Lowered(text)[i..i + |part|][j] == Lowered(part)[j] {
      assert text[i..i + |part|][j] == text[i + j];
    }
    assert OccursAt(Lowered(text), Lowered(part), i);
  }

  /** The pending assertions are matched case-sensitively, unlike the markers. That makes a difference
      to exactly the refusals that name one in another case, and it makes them final. */
  lemma MisreadExactlyWhenOnlyTheCaseDiffers(reason: string)
    ensures ClassifyError(reason) != ClassifiedInAnyCase(reason) <==>
              && Contains(Lowered(reason), MEMPOOL_REFUSAL_MARKER) && !Contains(Lowered(reason), ALREADY_INCLUDING)
              && NamesPendingInAnyCase(reason) && !NamesPendingAssertion(reason)
    ensures ClassifyError(reason) != ClassifiedInAnyCase(reason) ==>
              ClassifyError(reason) == Settled(Rejected) && ClassifiedInAnyCase(reason) == Unknown
  {
    if NamesPendingAssertion(reason) {
      LoweredStillNames(reason);
    }
  }

  const LOWERCASE_REFUSAL: string := MEMPOOL_REFUSAL_MARKER + " " + Lowered(PENDING_ASSERTIONS[0])

  /** Such a refusal is one in lower case throughout. */
  lemma LowercaseAssertionIsReadAsRejected()
    ensures NamesPendingInAnyCase(LOWERCASE_REFUSAL)
    ensures PushVia(Some(Json(Some(LOWERCASE_REFUSAL), None))) == Settled(Rejected)
  {
    var reason := LOWERCASE_REFUSAL;
    LowercaseRefusalIsPlain();
    LowercaseRefusalContains(MEMPOOL_REFUSAL_MARKER, Lowered(PENDING_ASSERTIONS[0]));
    assert Lowered(reason) == reason;
    assert ALREADY_INCLUDING[6] == 'y';
    NeverOccurs(reason, ALREADY_INCLUDING, 6);
    forall k | 0 <= k < |PENDING_ASSERTIONS| ensures !Contains(reason, PENDING_ASSERTIONS[k]) {
      assert PENDING_ASSERTIONS[k][0] == 'A';
      NeverOccurs(reason, PENDING_ASSERTIONS[k], 0);
    }
  }

  lemma LowercaseRefusalContains(marker: string, part: string)
    ensures Contains(marker + " " + part, marker) && Contains(marker + " " + part, part)
  {
    var reason, at := marker + " " + part, |marker| + 1;
    assert reason[0..|marker|] == marker && OccursAt(reason, marker, 0);
    assert reason[at..at + |part|] == part && OccursAt(reason, part, at);
  }

  lemma LowercaseRefusalIsPlain()
    ensures forall i :: 0 <= i < |LOWERCASE_REFUSAL| ==> Unremarkable(LOWERCASE_REFUSAL[i])
  {
    var marker, part := MEMPOOL_REFUSAL_MARKER, PENDING_ASSERTIONS[0];
    assert forall i :: 0 <= i < |marker| ==> Unremarkable(marker[i]);
    assert forall i :: 0 <= i < |part| ==> part[i] != 'y' && part[i] != 'Y';
    assert forall i :: 0 <= i < |part| ==> Unremarkable(Lowered(part)[i]);
  }

  /** Neither a capital nor a `y`. */
  predicate Unremarkable(c: char) {
    c != 'y' && !('A' <= c <= 'Z')
  }

  lemma NeverOccurs(text: string, part: string, k: nat)
    requires k < |part| && forall i :: 0 <= i < |text| ==> text[i] != part[k]
    ensures !Contains(text, part)
  {
    forall i ensures !OccursAt(text, part, i) {
      assert 0 <= i <= |text| - |part| ==> text[i..i + |part|][k] == text[i + k];
    }
  }

  // ---------- the request body ----------

  /** A request body as a JSON tree. Every text leaf is a hex byte string. */
  datatype Json = Text(hex: string) | Items(items: seq<Json>) | Fields(fields: seq<(string, Json)>) | Plain(n: nat)

  predicate Prefixed(hex: string) {
    |hex| >= 2 && hex[..2] == "0x"
  }

  /** `prefix_every_byte_string`. */
  function PrefixAll(v: Json): Json
    decreases v
  {
    match v
    case Text(hex) => Text(if Prefixed(hex) then hex else "0x" + hex)
    case Items(items) => Items(seq(|items|, i requires 0 <= i < |items| => PrefixAll(items[i])))
    case Fields(fields) =>
      Fields(seq(|fields|, i requires 0 <= i < |fields| => (fields[i].0, PrefixAll(fields[i].1))))
    case Plain(_) => v
  }

  /** The wire contract a node enforces: no text leaf without its prefix, at any depth. */
  predicate MeetsTheWireContract(v: Json)
    decreases v
  {
    match v
    case Text(hex) => Prefixed(hex)
    case Items(items) => forall i :: 0 <= i < |items| ==> MeetsTheWireContract(items[i])
    case Fields(fields) => forall i :: 0 <= i < |fields| ==> MeetsTheWireContract(fields[i].1)
    case Plain(_) => true
  }

  /** What a reader that takes the prefix as optional makes of a tree. */
  function Lenient(v: Json): Json
    decreases v
  {
    match v
    case Text(hex) => Text(if Prefixed(hex) then hex[2..] else hex)
    case Items(items) => Items(seq(|items|, i requires 0 <= i < |items| => Lenient(items[i])))
    case Fields(fields) => Fields(seq(|fields|, i requires 0 <= i < |fields| => (fields[i].0, Lenient(fields[i].1))))
    case Plain(_) => v
  }

  /** Whatever the bundle, the body sent meets the contract and still reads as the bundle encoded;
      and a body that already meets it is sent as it is. */
  lemma {:induction false} PrefixingIsExact(v: Json)
    ensures MeetsTheWireContract(PrefixAll(v))
    ensures Lenient(PrefixAll(v)) == Lenient(v)
    ensures MeetsTheWireContract(v) <==> PrefixAll(v) == v
    decreases v
  {
    match v
    case Text(hex) =>
      assert ("0x" + hex)[..2] == "0x" && ("0x" + hex)[2..] == hex;
    case Items(items) =>
      forall i | 0 <= i < |items|
        ensures MeetsTheWireContract(PrefixAll(items[i])) && Lenient(PrefixAll(items[i])) == Lenient(items[i])
        ensures MeetsTheWireContract(items[i]) <==> PrefixAll(items[i]) == items[i]
      {
        PrefixingIsExact(items[i]);
      }
      assert PrefixAll(v) == v <==> forall i :: 0 <= i < |items| ==> PrefixAll(v).items[i] == items[i];
      assert Lenient(PrefixAll(v)).items == Lenient(v).items;
    case Fields(fields) =>
      forall i | 0 <= i < |fields|
        ensures MeetsTheWireContract(PrefixAll(fields[i].1)) && Lenient(PrefixAll(fields[i].1)) == Lenient(fields[i].1)
        ensures MeetsTheWireContract(fields[i].1) <==> PrefixAll(fields[i].1) == fields[i].1
      {
        PrefixingIsExact(fields[i].1);
      }
      assert PrefixAll(v) == v <==> forall i :: 0 <= i < |fields| ==> PrefixAll(v).fields[i] == fields[i];
      assert Lenient(PrefixAll(v)).fields == Lenient(v).fields;
    case Plain(_) =>
  }
}
