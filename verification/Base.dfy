/**
  The vocabulary every other module shares: machine integers with the saturating
  arithmetic the source uses, puzzle hashes and coin ids as free terms, and the
  records a chain source answers with.

  Hashing is modelled by free constructors: a coin id commits to its parent, puzzle
  hash and amount and to nothing else, and two different puzzles never share a hash.
*/
module Base {

  datatype Option<+T> = None | Some(value: T)

  datatype Result<+T, +E> = Ok(value: T) | Err(error: E)

  /** One chain read: an answer, or a failure to ask. A failure is never an absence. */
  datatype Read<+T> = Answer(value: T) | Unreadable

  const U32_MAX: int := 0xFFFF_FFFF
  const U64_MAX: int := 0xFFFF_FFFF_FFFF_FFFF

  type u32 = n: int | 0 <= n <= U32_MAX
  type u64 = n: int | 0 <= n <= U64_MAX

  function SatSub(a: nat, b: nat): nat {
    if a < b then 0 else a - b
  }

  function SatAdd32(a: u32, b: u32): u32 {
    if a + b > U32_MAX then U32_MAX else a + b
  }

  function SatAdd64(a: u64, b: u64): u64 {
    if a + b > U64_MAX then U64_MAX else a + b
  }

  /** A 32-byte puzzle hash, named by the puzzle that hashes to it. */
  datatype PuzzleHash =
    | Standard(key: nat)                             // a wallet's standard layer
    | DigCat(inner: PuzzleHash)                      // $DIG curried around an inner puzzle
    | SingletonLauncher                              // SINGLETON_LAUNCHER_HASH
    | ProfileIntermediate                            // PROFILE_INTERMEDIATE_PUZZLE_HASH
    | Settlement                                     // SETTLEMENT_PAYMENT_HASH
    | Singleton(launcher: Id, state: PuzzleHash)     // the singleton layer over an inner state
    | StoreState(root: nat, owner: PuzzleHash)       // a dig-store committing `root`
    | Otherwise(name: nat)

  /** A 32-byte id: the hash of a coin's contents, or bytes that name no coin. */
  datatype Id = Raw(bytes: nat) | Of(parent: Id, puzzleHash: PuzzleHash, amount: u64)

  const ZERO_ID := Raw(0)

  datatype Coin = Coin(parent: Id, puzzleHash: PuzzleHash, amount: u64) {
    function Id(): Id {
      Of(parent, puzzleHash, amount)
    }
  }

  /** How many ancestors an id commits to: no id is its own ancestor. */
  function IdSize(id: Id): nat {
    match id
    case Raw(_) => 0
    case Of(parent, _, _) => 1 + IdSize(parent)
  }

  /** The only coin an id can name. */
  function CoinOf(id: Id): Coin
    requires id.Of?
  {
    Coin(id.parent, id.puzzleHash, id.amount)
  }

  datatype CoinRecord = CoinRecord(coin: Coin, confirmedHeight: Option<u32>, spentHeight: Option<u32>) {
    predicate IsSpent() {
      spentHeight.Some?
    }
  }

  /** The generation a reward distributor pays mirrors of: `store_id:root`. */
  datatype Generation = Generation(storeId: Id, root: nat)

  /**
    The reads a `ChainSource` answers. The first argument of each read is its position in
    the call, so that a source may answer the same question differently a moment later;
    a call that sees one chain state is a source that ignores that argument.
  */
  datatype Source = Source(
    coin: (nat, Id) -> Read<Option<CoinRecord>>,
    peak: nat -> Read<Option<u32>>,
    discover: (nat, Id) -> Read<Option<(Id, Generation)>>
  )

  /** `peak_height`: a source with no peak cannot bound a height, so it counts as unreachable. */
  function PeakHeight(source: Source, step: nat): Option<u32> {
    match source.peak(step)
    case Answer(Some(peak)) => Some(peak)
    case _ => None
  }
}
