/** Shared vocabulary: fixed-width integers, byte strings, failure values. */
module Prelude {
  const MAX_U32 := 0xFFFF_FFFF

  type u32 = n: int | 0 <= n <= 0xFFFF_FFFF
  type byte = n: int | 0 <= n < 256
  type bytes = seq<byte>

  datatype Option<+T> = None | Some(value: T)

  /** The error values the modelled code can return, one per sentinel error. */
  datatype Error =
    | UnexpectedEOF | Overflow | NonCanonical | InvalidReadSize
    | InvalidLength | StructOverflow | RangeOverflow | InvalidSliceOffset
    | UnsupportedContentSlice | UnknownContentRef | UnknownTypeRef | InvalidParentInfo
    | InvalidParentRoot | MissingParent | UnknownAnyTag | CollectionTooLarge
    | TrailingBytes | UnsupportedFeature | UnknownProtocol | UnknownMessageType
    | InvalidJson | UnknownFormat | AmbiguousFormat | MismatchedFormats | DeleteSetBeforeStructsEnd
    | InvalidDocumentKey | InvalidShard | InvalidOwner | InvalidLeaseToken | InvalidLeaseExpiry
    | LeaseConflict | LeaseStaleEpoch | LeaseNotFound | AuthorityLost | SnapshotNotFound
    | OffsetsOutOfOrder | EpochRegression | CheckpointMismatch | InvalidPlan | InvalidCount
    | StreamLimit | NoLocalClient | ConnectionClosed | InvalidPayload
    | LeaseHeld | InvalidLeaseRequest | OwnerNotFound | LeaseExpired | LeaseTokenMismatch | InvalidLease
    | PlacementNotFound | InvalidPlacement

  /** A value or the reason there is none. */
  datatype Result<+T> = Ok(value: T) | Err(error: Error) {
    predicate IsFailure() {
      Err?
    }

    function PropagateFailure<U>(): Result<U>
      requires Err?
    {
      Err(error)
    }

    function Extract(): T
      requires Ok?
    {
      value
    }
  }

  /** The conversion `uint32(n)` of an unbounded length. */
  function AsU32(n: int): (r: u32)
    ensures 0 <= n <= 0xFFFF_FFFF ==> r == n
  {
    n % 0x1_0000_0000
  }

  function Min(a: int, b: int): int {
    if a < b then a else b
  }

  function Max(a: int, b: int): int {
    if a > b then a else b
  }

  lemma Assoc<T>(a: seq<T>, b: seq<T>, c: seq<T>)
    ensures (a + b) + c == a + (b + c)
  {
  }
}
