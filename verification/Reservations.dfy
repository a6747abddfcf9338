/**
  In-flight coin holds: a compare-and-set table shared with other callers, and the selection
  loop that re-selects when another caller wins the coin between its choice and its claim.
*/
module Reservations {
  import opened Base
  import opened Funding

  const MAX_RESERVATION_ATTEMPTS: nat := 16

  /** One hold, and whether the minter or some other caller of the same table took it. */
  datatype Hold = Hold(coins: seq<Id>, mine: bool)

  datatype Holds = Holds(entries: map<nat, Hold>, nextId: nat) {
    function Held(): set<Id> {
      set id, c | id in entries && c in entries[id].coins :: c
    }
  }

  datatype ReserveError = Conflict(coin: Id)

  /** The first of `coins` that is already held. */
  function FirstClash(coins: seq<Id>, held: set<Id>): Option<Id> {
    if coins == [] then None
    else if coins[0] in held then Some(coins[0])
    else FirstClash(coins[1..], held)
  }

  /** `reserve_all`: every coin or none. */
  function ReserveAll(h: Holds, coins: seq<Id>, mine: bool): (Holds, Result<nat, ReserveError>) {
    if coins == [] then (h.(nextId := h.nextId + 1), Ok(h.nextId))
    else match FirstClash(coins, h.Held())
      case Some(c) => (h, Err(Conflict(c)))
      case None => (Holds(h.entries[h.nextId := Hold(coins, mine)], h.nextId + 1), Ok(h.nextId))
  }

  function Release(h: Holds, id: nat): Holds {
    h.(entries := h.entries - {id})
  }

  lemma {:induction false} NoClash(coins: seq<Id>, held: set<Id>)
    ensures FirstClash(coins, held).None? <==> forall c :: c in coins ==> c !in held
    ensures FirstClash(coins, held).Some? ==> FirstClash(coins, held).value in coins && FirstClash(coins, held).value in held
  {
    if coins != [] {
      NoClash(coins[1..], held);
      assert forall c :: c in coins <==> c == coins[0] || c in coins[1..];
    }
  }

  /** No coin is in two holds, and handles are never reused. */
  ghost predicate Exclusive(h: Holds) {
    && (forall id :: id in h.entries ==> id < h.nextId)
    && (forall a, b, c :: a in h.entries && b in h.entries && c in h.entries[a].coins && c in h.entries[b].coins ==> a == b)
  }

  /** A claim takes every coin or leaves the table alone, and never a coin someone else holds. */
  lemma ReserveIsAtomic(h: Holds, coins: seq<Id>, mine: bool)
    requires Exclusive(h)
    ensures var (h', r) := ReserveAll(h, coins, mine);
            && Exclusive(h')
            && (r.Err? ==> h' == h && r.error.coin in coins && r.error.coin in h.Held())
            && (r.Ok? ==>
                  && r.value !in h.entries && r.value < h'.nextId
                  && (forall c :: c in coins ==> c !in h.Held())
                  && h'.entries == if coins == [] then h.entries else h.entries[r.value := Hold(coins, mine)])
  {
    NoClash(coins, h.Held());
  }

  /** The reads of one selection: a listing and by-name answers per attempt, what another caller
      claims before this one's claim, and whether the table itself can be read. */
  datatype Market = Market(
    listing: nat -> Read<seq<CoinRecord>>,
    byName: (nat, Id) -> Read<Option<CoinRecord>>,
    rival: nat -> seq<Id>,
    readable: nat -> bool)

  function ByName(m: Market, attempt: nat): Id -> Read<Option<CoinRecord>> {
    (id: Id) => m.byName(attempt, id)
  }

  datatype ClaimError = TableUnusable | Selecting(error: SelectError)

  /** The loop from `attempt` on: select outside `excluded`, let a rival in, claim. */
  function ClaimFrom(h: Holds, m: Market, puzzleHash: PuzzleHash, fee: u64, attempt: nat, excluded: set<Id>):
    (Holds, Result<(Coin, nat), ClaimError>)
    decreases MAX_RESERVATION_ATTEMPTS - attempt
  {
    if attempt >= MAX_RESERVATION_ATTEMPTS then (h, Err(TableUnusable))
    else match Select(m.listing(attempt), ByName(m, attempt), puzzleHash, fee, excluded)
      case Err(e) => (h, Err(Selecting(e)))
      case Ok(coin) =>
        var contested := ReserveAll(h, m.rival(attempt), false).0;
        if !m.readable(attempt + 1) then (contested, Err(TableUnusable))
        else
          var (h', claim) := ReserveAll(contested, [coin.Id()], true);
          match claim
          case Ok(id) => (h', Ok((coin, id)))
          case Err(Conflict(taken)) => ClaimFrom(h', m, puzzleHash, fee, attempt + 1, excluded + {taken})
  }

  /** `select_and_reserve`. */
  function SelectAndReserve(h: Holds, m: Market, puzzleHash: PuzzleHash, fee: u64): (Holds, Result<(Coin, nat), ClaimError>) {
    if !m.readable(0) then (h, Err(TableUnusable)) else ClaimFrom(h, m, puzzleHash, fee, 0, h.Held())
  }

  /** What callers other than the minter may do to the table while it selects: only add. */
  ghost predicate OthersGrew(h: Holds, h': Holds) {
    && h.nextId <= h'.nextId
    && (forall id :: id in h.entries ==> id in h'.entries && h'.entries[id] == h.entries[id])
    && (forall id :: id in h'.entries && id !in h.entries ==> h.nextId <= id && !h'.entries[id].mine)
  }

  /** A successful claim is a fresh hold on exactly the chosen coin, which nobody held; a failed one
      leaves nothing of the minter's behind. Rivals may have taken other coins meanwhile. */
  ghost predicate CleanClaim(h: Holds, h': Holds, r: Result<(Coin, nat), ClaimError>, puzzleHash: PuzzleHash, fee: u64) {
    && Exclusive(h')
    && match r
       case Err(_) => OthersGrew(h, h')
       case Ok((coin, id)) =>
         && id in h'.entries && h'.entries[id] == Hold([coin.Id()], true) && h.nextId <= id
         && OthersGrew(h, Release(h', id))
         && coin.puzzleHash == puzzleHash && coin.amount >= RequiredCoinAmount(fee)
  }

  lemma RivalGrows(h: Holds, coins: seq<Id>)
    requires Exclusive(h)
    ensures var h' := ReserveAll(h, coins, false).0;
            Exclusive(h') && OthersGrew(h, h')
  {
    ReserveIsAtomic(h, coins, false);
  }

  lemma CleanAfterGrowth(
    h: Holds, grown: Holds, h': Holds, r: Result<(Coin, nat), ClaimError>, puzzleHash: PuzzleHash, fee: u64)
    requires OthersGrew(h, grown) && CleanClaim(grown, h', r, puzzleHash, fee)
    ensures CleanClaim(h, h', r, puzzleHash, fee)
  {
    match r
    case Err(_) =>
    case Ok((coin, id)) =>
      assert OthersGrew(grown, Release(h', id));
  }

  /** The winning attempt: nothing stands between the free coin and the fresh hold on it. */
  lemma WonClaimIsClean(h: Holds, coin: Coin, fee: u64)
    requires Exclusive(h) && coin.amount >= RequiredCoinAmount(fee)
    ensures var (h', claim) := ReserveAll(h, [coin.Id()], true);
            if claim.Ok? then CleanClaim(h, h', Ok((coin, claim.value)), coin.puzzleHash, fee) else h' == h
  {
    ReserveIsAtomic(h, [coin.Id()], true);
    var (h', claim) := ReserveAll(h, [coin.Id()], true);
    if claim.Ok? {
      assert h'.entries[claim.value] == Hold([coin.Id()], true);
      assert Release(h', claim.value).entries == h.entries;
    }
  }

  lemma {:induction false} ClaimIsClean(h: Holds, m: Market, puzzleHash: PuzzleHash, fee: u64, attempt: nat, excluded: set<Id>)
    requires Exclusive(h)
    ensures var (h', r) := ClaimFrom(h, m, puzzleHash, fee, attempt, excluded);
            CleanClaim(h, h', r, puzzleHash, fee)
    decreases MAX_RESERVATION_ATTEMPTS - attempt
  {
    if attempt < MAX_RESERVATION_ATTEMPTS {
      var selected := Select(m.listing(attempt), ByName(m, attempt), puzzleHash, fee, excluded);
      if selected.Ok? {
        SelectedIsFree(m.listing(attempt), ByName(m, attempt), puzzleHash, fee, excluded);
        var contested := ReserveAll(h, m.rival(attempt), false).0;
        RivalGrows(h, m.rival(attempt));
        WonClaimIsClean(contested, selected.value, fee);
        var (h', claim) := ReserveAll(contested, [selected.value.Id()], true);
        var (h'', r) := ClaimFrom(h, m, puzzleHash, fee, attempt, excluded);
        if m.readable(attempt + 1) {
          if claim.Err? {
            ClaimIsClean(h', m, puzzleHash, fee, attempt + 1, excluded + {claim.error.coin});
          }
          CleanAfterGrowth(h, contested, h'', r, puzzleHash, fee);
        }
      }
    }
  }

  /** The whole of `select_and_reserve`, from any table state and under any interference. */
  lemma SelectAndReserveIsClean(h: Holds, m: Market, puzzleHash: PuzzleHash, fee: u64)
    requires Exclusive(h)
    ensures var (h', r) := SelectAndReserve(h, m, puzzleHash, fee);
            CleanClaim(h, h', r, puzzleHash, fee)
  {
    ClaimIsClean(h, m, puzzleHash, fee, 0, h.Held());
  }

  // ---------- the table as an object ----------

  class LocalReservations {
    var entries: map<nat, Hold>
    var nextId: nat

    function View(): Holds
      reads this
    {
      Holds(entries, nextId)
    }

    constructor ()
      ensures View() == Holds(map[], 0)
    {
      entries := map[];
      nextId := 0;
    }

    method Reserve(coins: seq<Id>, mine: bool) returns (r: Result<nat, ReserveError>)
      modifies this
      ensures (View(), r) == ReserveAll(old(View()), coins, mine)
    {
      if coins == [] {
        nextId := nextId + 1;
        return Ok(nextId - 1);
      }
      var held := View().Held();
      var clash: Option<Id> := None;
      var i := 0;
      while i < |coins| && clash.None?
        invariant 0 <= i <= |coins|
        invariant clash.None? ==> FirstClash(coins, held) == FirstClash(coins[i..], held)
        invariant clash.Some? ==> FirstClash(coins, held) == clash
      {
        if coins[i] in held {
          clash := Some(coins[i]);
        }
        i := i + 1;
      }
      if clash.Some? {
        return Err(Conflict(clash.value));
      }
      var id := nextId;
      nextId := nextId + 1;
      entries := entries[id := Hold(coins, mine)];
      return Ok(id);
    }

    method ReleaseHold(id: nat)
      modifies this
      ensures View() == Release(old(View()), id)
    {
      entries := entries - {id};
    }

    /** Select a coin and hold it, re-selecting on a lost race. */
    method Claim(m: Market, puzzleHash: PuzzleHash, fee: u64) returns (r: Result<(Coin, nat), ClaimError>)
      modifies this
      ensures (View(), r) == SelectAndReserve(old(View()), m, puzzleHash, fee)
    {
      if !m.readable(0) {
        return Err(TableUnusable);
      }
      var excluded := View().Held();
      ghost var start := View();
      for attempt := 0 to MAX_RESERVATION_ATTEMPTS
        invariant ClaimFrom(start, m, puzzleHash, fee, 0, start.Held())
                  == ClaimFrom(View(), m, puzzleHash, fee, attempt, excluded)
      {
        var selected := SelectFundingCoin(m.listing(attempt), ByName(m, attempt), puzzleHash, fee, excluded);
        if selected.Err? {
          return Err(Selecting(selected.error));
        }
        var coin := selected.value;
        var _ := Reserve(m.rival(attempt), false);
        if !m.readable(attempt + 1) {
          return Err(TableUnusable);
        }
        var claim := Reserve([coin.Id()], true);
        if claim.Ok? {
          return Ok((coin, claim.value));
        }
        excluded := excluded + {claim.error.coin};
      }
      return Err(TableUnusable);
    }
  }
}
