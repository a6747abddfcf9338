/**
  The unlock lifecycle: liveness tokens shared by every handle of one unlock, an idle deadline
  on a monotone clock, and a gate whose next unlock supersedes the last. One gate call is one
  step at one clock instant.
*/
module Unlock {
  import opened Base

  // ---------- the lifecycle as a state machine ----------

  /** A gate-issued token: the revocation flag, and the instant its quiet window runs out. */
  datatype Token = Token(live: bool, deadline: nat) {
    predicate IsLive(now: nat) {
      live && now < deadline
    }
  }

  /** Every token a gate ever issued, oldest first, and the one it holds. */
  datatype GateState = GateState(tokens: seq<Token>, held: Option<nat>, timeout: nat)

  datatype Event =
    | Unlocked            // an unlock that was authorized and opened
    | UnlockRefused       // one the policy or the keystore refused
    | Access
    | Lock
    | DropGate
    | HandleLock(token: nat)   // `lock()` on a handle of that token's unlock

  datatype Timed = Timed(at: nat, event: Event)

  predicate WellFormed(s: GateState) {
    s.held.Some? ==> s.held.value < |s.tokens|
  }

  function Revoke(s: GateState, k: nat): GateState {
    if k < |s.tokens| then s.(tokens := s.tokens[k := s.tokens[k].(live := false)]) else s
  }

  /** `end_unlock`. */
  function EndUnlock(s: GateState): GateState {
    if s.held.None? then s else Revoke(s, s.held.value).(held := None)
  }

  predicate IsUnlocked(s: GateState, now: nat)
    requires WellFormed(s)
  {
    s.held.Some? && s.tokens[s.held.value].IsLive(now)
  }

  function Step(s: GateState, e: Timed): (s': GateState)
    requires WellFormed(s)
    ensures WellFormed(s') && s'.timeout == s.timeout
  {
    match e.event
    case Unlocked =>
      var ended := EndUnlock(s);
      ended.(tokens := ended.tokens + [Token(true, e.at + s.timeout)], held := Some(|s.tokens|))
    case UnlockRefused => s
    case Access =>
      if !IsUnlocked(s, e.at) then EndUnlock(s)
      else
        var k := s.held.value;
        s.(tokens := s.tokens[k := s.tokens[k].(deadline := e.at + s.timeout)])
    case Lock => EndUnlock(s)
    case DropGate => EndUnlock(s)
    case HandleLock(k) => Revoke(s, k)
  }

  function Run(timeout: nat, h: seq<Timed>): (s: GateState)
    ensures WellFormed(s) && s.timeout == timeout
  {
    if h == [] then GateState([], None, timeout)
    else Step(Run(timeout, h[..|h| - 1]), h[|h| - 1])
  }

  predicate Monotone(h: seq<Timed>) {
    forall i, j :: 0 <= i <= j < |h| ==> h[i].at <= h[j].at
  }

  // ---------- at most one token lives, and it is the one held ----------

  ghost predicate OnlyHeldLives(s: GateState) {
    forall k :: 0 <= k < |s.tokens| && s.tokens[k].live ==> s.held == Some(k)
  }

  lemma {:induction false} OnlyTheHeldTokenLives(timeout: nat, h: seq<Timed>)
    ensures OnlyHeldLives(Run(timeout, h))
  {
    if h != [] {
      OnlyTheHeldTokenLives(timeout, h[..|h| - 1]);
    }
  }

  /** Over every gate history at most one token ever issued is live, the gate holds it, and
      `is_unlocked` is true exactly when there is one. */
  lemma {:induction false} AtMostOneLives(timeout: nat, h: seq<Timed>, now: nat)
    ensures var s := Run(timeout, h);
            && (forall j, k ::
                  (0 <= j < |s.tokens| && 0 <= k < |s.tokens| && s.tokens[j].IsLive(now) && s.tokens[k].IsLive(now))
                  ==> j == k && s.held == Some(k))
            && (IsUnlocked(s, now) <==> exists k :: 0 <= k < |s.tokens| && s.tokens[k].IsLive(now))
  {
    OnlyTheHeldTokenLives(timeout, h);
  }

  // ---------- once dead, dead ----------

  /** No step at or after an instant revives a token that was dead at it. */
  lemma DeadStaysDeadOneStep(s: GateState, e: Timed, k: nat, now: nat)
    requires WellFormed(s) && k < |s.tokens| && !s.tokens[k].IsLive(now) && now <= e.at
    ensures k < |Step(s, e).tokens| && !Step(s, e).tokens[k].IsLive(e.at)
  {
  }

  /** A token dead at one instant is dead at every later one, whatever the gate does since. */
  lemma {:induction false} DeadStaysDead(timeout: nat, h: seq<Timed>, more: seq<Timed>, k: nat, now: nat, later: nat)
    requires Monotone(h + more) && k < |Run(timeout, h).tokens| && !Run(timeout, h).tokens[k].IsLive(now)
    requires now <= later && forall i :: 0 <= i < |more| ==> now <= more[i].at <= later
    ensures k < |Run(timeout, h + more).tokens| && !Run(timeout, h + more).tokens[k].IsLive(later)
  {
    if more == [] {
      assert h + more == h;
    } else {
      var n := |more| - 1;
      assert (h + more)[..|h| + n] == h + more[..n];
      var before := if n == 0 then now else more[n - 1].at;
      assert n > 0 ==> (h + more)[|h| + n - 1].at <= (h + more)[|h| + n].at;
      forall i | 0 <= i < n ensures more[i].at <= before {
        assert (h + more)[|h| + i].at <= (h + more)[|h| + n - 1].at;
      }
      DeadStaysDead(timeout, h, more[..n], k, now, before);
      DeadStaysDeadOneStep(Run(timeout, h + more[..n]), more[n], k, before);
    }
  }

  // ---------- liveness, read off the history alone ----------

  function UnlocksIn(h: seq<Timed>): nat {
    if h == [] then 0
    else UnlocksIn(h[..|h| - 1]) + if h[|h| - 1].event.Unlocked? then 1 else 0
  }

  /** Token `k` was issued by the event at `p`. */
  predicate IssuedAt(h: seq<Timed>, k: nat, p: nat) {
    p < |h| && h[p].event.Unlocked? && UnlocksIn(h[..p]) == k
  }

  /** A relock, a drop, a superseding unlock, or a `lock()` on one of this token's own handles. */
  predicate Ends(e: Event, k: nat) {
    e.Unlocked? || e.Lock? || e.DropGate? || e == HandleLock(k)
  }

  predicate Revoked(h: seq<Timed>, k: nat, p: nat) {
    exists j :: p < j < |h| && Ends(h[j].event, k)
  }

  /** The instants that grant another quiet window: the unlock and each access after it. */
  predicate Beat(h: seq<Timed>, p: nat, i: int) {
    p <= i < |h| && (i == p || h[i].event.Access?)
  }

  /** When the beat after `i` comes, or `now` if none has. */
  function NextBeat(h: seq<Timed>, i: nat, now: nat): nat
    requires i < |h|
    decreases |h| - i
  {
    if i + 1 == |h| then now
    else if h[i + 1].event.Access? then h[i + 1].at
    else NextBeat(h, i + 1, now)
  }

  /** Never revoked, and every quiet gap up to `now` strictly below the timeout. */
  ghost predicate AliveByHistory(timeout: nat, h: seq<Timed>, k: nat, p: nat, now: nat) {
    && !Revoked(h, k, p)
    && forall i :: Beat(h, p, i) ==> NextBeat(h, i, now) < h[i].at + timeout
  }

  /** The latest beat at or before the end of `h`. */
  function LastBeat(h: seq<Timed>, p: nat): (last: nat)
    requires p < |h|
    ensures p <= last < |h|
    decreases |h|
  {
    if |h| == p + 1 || h[|h| - 1].event.Access? then |h| - 1 else LastBeat(h[..|h| - 1], p)
  }

  lemma {:induction false} LastBeatIsLast(h: seq<Timed>, p: nat)
    requires p < |h|
    ensures Beat(h, p, LastBeat(h, p))
    ensures forall i :: LastBeat(h, p) < i < |h| ==> !h[i].event.Access?
    decreases |h|
  {
    if !(|h| == p + 1 || h[|h| - 1].event.Access?) {
      LastBeatIsLast(h[..|h| - 1], p);
    }
  }

  lemma {:induction false} NextBeatOfLast(h: seq<Timed>, i: nat, now: nat)
    requires i < |h| && forall j :: i < j < |h| ==> !h[j].event.Access?
    ensures NextBeat(h, i, now) == now
    decreases |h| - i
  {
    if i + 1 < |h| {
      NextBeatOfLast(h, i + 1, now);
    }
  }

  /** Appending an event supplies the next beat if it is an access, and postpones it otherwise. */
  lemma {:induction false} NextBeatSplits(h: seq<Timed>, i: nat, now: nat)
    requires i + 1 < |h|
    ensures var n := |h| - 1;
            NextBeat(h, i, now) == NextBeat(h[..n], i, if h[n].event.Access? then h[n].at else now)
    decreases |h| - i
  {
    if i + 2 < |h| {
      NextBeatSplits(h, i + 1, now);
    }
  }

  /** Only the gap after the last beat depends on `now`. */
  lemma {:induction false} NextBeatFixed(h: seq<Timed>, i: nat, j: nat, now: nat, now': nat)
    requires i < j < |h| && h[j].event.Access?
    ensures NextBeat(h, i, now) == NextBeat(h, i, now')
    decreases |h| - i
  {
    if i + 1 < j {
      NextBeatFixed(h, i + 1, j, now, now');
    }
  }

  /** The flag is up exactly when no revocation came and every closed gap was short; the deadline
      is then one timeout past the last beat. */
  ghost predicate Tracks(timeout: nat, h: seq<Timed>, k: nat, p: nat)
    requires p < |h|
  {
    var s := Run(timeout, h);
    && k < |s.tokens|
    && (s.tokens[k].live <==> ClosedGapsShort(timeout, h, k, p))
    && (s.tokens[k].live ==> s.held == Some(k) && s.tokens[k].deadline == h[LastBeat(h, p)].at + timeout)
  }

  ghost predicate ClosedGapsShort(timeout: nat, h: seq<Timed>, k: nat, p: nat)
    requires p < |h|
  {
    && !Revoked(h, k, p)
    && forall i :: Beat(h, p, i) && i < LastBeat(h, p) ==> NextBeat(h, i, 0) < h[i].at + timeout
  }

  lemma {:induction false} TokensAreUnlocks(timeout: nat, h: seq<Timed>)
    ensures |Run(timeout, h).tokens| == UnlocksIn(h)
  {
    if h != [] {
      TokensAreUnlocks(timeout, h[..|h| - 1]);
    }
  }

  /** The declarative condition over one more event. */
  lemma ClosedGapsStep(timeout: nat, h: seq<Timed>, k: nat, p: nat)
    requires p + 1 < |h|
    ensures var n := |h| - 1;
            ClosedGapsShort(timeout, h, k, p) <==>
              && ClosedGapsShort(timeout, h[..n], k, p)
              && !Ends(h[n].event, k)
              && (h[n].event.Access? ==> h[n].at < h[LastBeat(h[..n], p)].at + timeout)
  {
    var n := |h| - 1;
    var front := h[..n];
    LastBeatIsLast(front, p);
    LastBeatIsLast(h, p);
    assert forall j :: 0 <= j < n ==> front[j] == h[j];
    assert Revoked(h, k, p) <==> Revoked(front, k, p) || Ends(h[n].event, k) by {
      if Revoked(front, k, p) {
        var j :| p < j < n && Ends(front[j].event, k);
        assert Ends(h[j].event, k);
      }
      if Revoked(h, k, p) && !Ends(h[n].event, k) {
        var j :| p < j < |h| && Ends(h[j].event, k);
        assert Ends(front[j].event, k);
      }
    }
    var last := LastBeat(front, p);
    forall i | Beat(front, p, i) && i < last
      ensures NextBeat(h, i, 0) == NextBeat(front, i, 0)
    {
      NextBeatSplits(h, i, 0);
      NextBeatFixed(front, i, last, 0, h[n].at);
    }
    if h[n].event.Access? {
      NextBeatSplits(h, last, 0);
      NextBeatOfLast(front, last, h[n].at);
      assert forall i :: Beat(h, p, i) && i < n ==> Beat(front, p, i) && i <= last;
      assert Beat(h, p, last);
    }
    assert forall i :: Beat(front, p, i) ==> Beat(h, p, i);
  }

  lemma TracksStep(timeout: nat, h: seq<Timed>, k: nat, p: nat)
    requires IssuedAt(h, k, p) && p + 1 < |h| && Tracks(timeout, h[..|h| - 1], k, p)
    ensures Tracks(timeout, h, k, p)
  {
    ClosedGapsStep(timeout, h, k, p);
    OnlyTheHeldTokenLives(timeout, h[..|h| - 1]);
  }

  lemma {:induction false} TokenTracks(timeout: nat, h: seq<Timed>, k: nat, p: nat)
    requires IssuedAt(h, k, p)
    ensures Tracks(timeout, h, k, p)
    decreases |h|
  {
    var n := |h| - 1;
    TokensAreUnlocks(timeout, h[..n]);
    if p == n {
      assert h[..n] == h[..p];
    } else {
      assert h[..n][..p] == h[..p];
      TokenTracks(timeout, h[..n], k, p);
      TracksStep(timeout, h, k, p);
    }
  }

  /** A gate-issued token is live at `now` exactly when the history never revoked it and every gap
      from its unlock through each access to `now` is strictly below the timeout. */
  lemma LivenessIsHistory(timeout: nat, h: seq<Timed>, k: nat, p: nat, now: nat)
    requires IssuedAt(h, k, p)
    ensures k < |Run(timeout, h).tokens|
    ensures Run(timeout, h).tokens[k].IsLive(now) <==> AliveByHistory(timeout, h, k, p, now)
  {
    TokenTracks(timeout, h, k, p);
    LastBeatIsLast(h, p);
    var last := LastBeat(h, p);
    NextBeatOfLast(h, last, now);
    forall i | Beat(h, p, i) && i < last ensures NextBeat(h, i, now) == NextBeat(h, i, 0) {
      NextBeatFixed(h, i, last, now, 0);
    }
  }

  /** Touching a token: the clock is read once to see that it lives, and again for its new deadline. */
  function TouchOver(t: Token, read: nat, write: nat, timeout: nat): Token {
    if t.IsLive(read) then t.(deadline := write + timeout) else t
  }

  /** Seen dead between the two reads, and alive after the second. */
  ghost predicate Revives(t: Token, read: nat, seen: nat, write: nat, later: nat, timeout: nat) {
    read <= seen <= write <= later && !t.IsLive(seen) && TouchOver(t, read, write, timeout).IsLive(later)
  }

  /** At one instant touching never undoes a lapse. Across two, it does exactly when the deadline falls
      between them: then some observer sees the token dead and, later, alive. */
  lemma TouchRevivesExactlyAcrossTheDeadline(t: Token, read: nat, write: nat, timeout: nat)
    requires read <= write && 0 < timeout
    ensures (exists seen, later :: Revives(t, read, seen, write, later, timeout))
            <==> t.live && read < t.deadline <= write
  {
    if t.live && read < t.deadline <= write {
      assert Revives(t, read, t.deadline, write, write, timeout);
    }
  }

  /** Locking, dropping or unlocking again kills every token issued before. */
  lemma EndingKillsEarlierTokens(timeout: nat, h: seq<Timed>, e: Timed, k: nat, now: nat)
    requires e.event.Lock? || e.event.DropGate? || e.event.Unlocked?
    requires k < |Run(timeout, h).tokens|
    ensures k < |Run(timeout, h + [e]).tokens| && !Run(timeout, h + [e]).tokens[k].IsLive(now)
  {
    assert (h + [e])[..|h|] == h;
    OnlyTheHeldTokenLives(timeout, h);
  }

  // ---------- the objects ----------

  class Clock {
    var now: nat

    constructor (start: nat)
      ensures now == start
    {
      now := start;
    }
  }

  /** The liveness of one unlock, shared by every capability derived from it. */
  class Residency {
    var live: bool
    var deadline: nat
    const bounded: bool
    const clock: Clock
    const timeout: nat

    /** `Residency::new`: no idle window at all. */
    constructor Unbounded(clock: Clock)
      ensures live && !bounded && this.clock == clock
    {
      this.live := true;
      this.bounded := false;
      this.clock := clock;
      this.timeout := 0;
      this.deadline := 0;
    }

    constructor IdleBounded(clock: Clock, timeout: nat)
      ensures live && bounded && this.clock == clock && this.timeout == timeout
      ensures deadline == clock.now + timeout
    {
      this.live := true;
      this.bounded := true;
      this.clock := clock;
      this.timeout := timeout;
      this.deadline := clock.now + timeout;
    }

    predicate IsLive()
      reads this, clock
    {
      live && (bounded ==> clock.now < deadline)
    }

    /** A window that has lapsed is a relock, and touching never undoes one. */
    method Touch()
      modifies this`deadline
      ensures deadline == if old(IsLive()) && bounded then clock.now + timeout else old(deadline)
      ensures IsLive() ==> old(IsLive())
    {
      if !IsLive() {
        return;
      }
      if bounded {
        deadline := clock.now + timeout;
      }
    }

    method Revoke()
      modifies this`live
      ensures !live && !IsLive()
    {
      live := false;
    }
  }

  datatype UnlockError = Unauthorized | KeystoreRefused

  /** A handle over one unlock: it shares the unlock's token and keeps none of its own. */
  class UnlockedAccount {
    const residency: Residency

    constructor (residency: Residency)
      ensures this.residency == residency
    {
      this.residency := residency;
    }

    /** `lock()`: one step of the lifecycle of the gate that issued the token. */
    method Lock(ghost gate: UnlockGate, ghost k: nat)
      requires gate.Valid() && k < |gate.issued| && gate.issued[k] == residency
      modifies residency`live
      ensures gate.Valid() && gate.issued == old(gate.issued)
      ensures gate.View() == Step(old(gate.View()), Timed(gate.clock.now, HandleLock(k)))
    {
      residency.Revoke();
    }
  }

  class UnlockGate {
    const clock: Clock
    const timeout: nat
    var held: Residency?
    ghost var issued: seq<Residency>
    ghost var heldAt: Option<nat>

    ghost predicate Valid()
      reads this
    {
      && (forall i :: 0 <= i < |issued| ==> issued[i].bounded && issued[i].clock == clock && issued[i].timeout == timeout)
      && (forall i, j :: 0 <= i < j < |issued| ==> issued[i] != issued[j])
      && match heldAt
         case None => held == null
         case Some(k) => k < |issued| && issued[k] == held
    }

    ghost function View(): (s: GateState)
      reads this, issued
      requires Valid()
      ensures WellFormed(s)
    {
      GateState(seq(|issued|, i requires 0 <= i < |issued| reads this, issued => Token(issued[i].live, issued[i].deadline)),
                heldAt, timeout)
    }

    constructor (clock: Clock, timeout: nat)
      ensures Valid() && fresh(this) && this.clock == clock && View() == Run(timeout, [])
    {
      this.clock := clock;
      this.timeout := timeout;
      this.held := null;
      this.issued := [];
      this.heldAt := None;
    }

    predicate Unlocked()
      reads this, held, if held == null then {} else {held.clock}
    {
      held != null && held.IsLive()
    }

    method EndHeld()
      requires Valid()
      modifies this`held, this`heldAt, held
      ensures Valid() && issued == old(issued) && held == null
      ensures View() == EndUnlock(old(View()))
    {
      if held != null {
        held.Revoke();
      }
      held := null;
      heldAt := None;
    }

    /** The policy first, then the keystore; only a success supersedes the previous unlock. */
    method Unlock(authorized: bool, keystoreOpens: bool) returns (r: Result<UnlockedAccount, UnlockError>)
      requires Valid()
      modifies this, held
      ensures Valid()
      ensures r.Ok? <==> authorized && keystoreOpens
      ensures r.Ok? ==> issued == old(issued) + [r.value.residency] && fresh(r.value.residency)
      ensures r.Err? ==> issued == old(issued) && held == old(held)
      ensures View() == Step(old(View()), Timed(clock.now, if authorized && keystoreOpens then Event.Unlocked else UnlockRefused))
    {
      if !authorized {
        return Err(Unauthorized);
      }
      if !keystoreOpens {
        return Err(KeystoreRefused);
      }
      EndHeld();
      var residency := new Residency.IdleBounded(clock, timeout);
      var handle := new UnlockedAccount(residency);
      held := residency;
      heldAt := Some(|issued|);
      issued := issued + [residency];
      return Ok(handle);
    }

    /** A live handle on the held unlock with its window refreshed, or a relock. */
    method Access() returns (r: Option<UnlockedAccount>)
      requires Valid()
      modifies this, held
      ensures Valid() && issued == old(issued)
      ensures r.Some? <==> old(Unlocked())
      ensures r.Some? ==> r.value.residency == old(held) == held
      ensures View() == Step(old(View()), Timed(clock.now, Event.Access))
    {
      if !Unlocked() {
        EndHeld();
        return None;
      }
      held.Touch();
      var handle := new UnlockedAccount(held);
      return Some(handle);
    }

    method LockNow()
      requires Valid()
      modifies this, held
      ensures Valid() && issued == old(issued) && held == null
      ensures View() == Step(old(View()), Timed(clock.now, Event.Lock))
    {
      EndHeld();
    }
  }
}
