/** Names shared by all modules: identities, ids and the C++ integer conversions. */
module Types {

  datatype Option<+T> = None | Some(value: T)

  datatype Result<+T, +E> = Ok(value: T) | Err(error: E)

  /** The identity of a C++ object that others hold through a `weak_ptr`. Which objects are
      still owned (not expired) is not part of any table: the operations that look at it take
      the set of live identities as a parameter. */
  type Obj = nat

  /** An id handed out by the storage: an `unsigned long` no greater than `INVALID_ID`. */
  type Id = nat

  const INVALID_ID: Id := 0xFFFF_FFFF

  /** The number of values of an `unsigned int`. */
  const UINT_RANGE: nat := 0x1_0000_0000

  const INT_MAX: int := 0x7FFF_FFFF

  /** `static_cast<unsigned int>` of any integer. */
  function ToUint(x: int): (r: nat)
    ensures r < UINT_RANGE
    ensures 0 <= x < UINT_RANGE ==> r == x
  {
    x % UINT_RANGE
  }

  /** `static_cast<int>` of any integer, two's complement. */
  function ToInt(x: int): (r: int)
    ensures -INT_MAX - 1 <= r <= INT_MAX
    ensures -INT_MAX - 1 <= x <= INT_MAX ==> r == x
  {
    var u := ToUint(x);
    if u <= INT_MAX then u else u - UINT_RANGE
  }

  /** Counting in an `unsigned int` is counting, modulo its range. */
  lemma UintSuccessor(x: int)
    ensures ToUint(ToUint(x) + 1) == ToUint(x + 1)
  {
  }

  /** Both casts change a value by a multiple of the range only. */
  lemma CastsWrap(x: int)
    ensures (ToUint(x) - x) % UINT_RANGE == 0
    ensures (ToInt(x) - x) % UINT_RANGE == 0
  {
  }

  /** A value sent through a signed 32-bit field comes back whole. */
  lemma SignedTransportKeepsUint(x: nat)
    requires x < UINT_RANGE
    ensures ToUint(ToInt(x)) == x
    ensures ToInt(ToInt(x)) == ToInt(x)
  {
  }
}
