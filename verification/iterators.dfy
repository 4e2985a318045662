/** The random-access cursor of a span (`SpanIterator<T>`).

    Its only state is the address it refers to. Every move is plain address
    arithmetic; moving outside the storage is not checked, only
    dereferencing requires an element slot. */
module Iterators {
  import opened Memory

  datatype SpanIterator = SpanIterator(current: Pointer)

  /** Two cursors may be subtracted: both are null or both are addresses. */
  predicate Compatible(a: SpanIterator, b: SpanIterator) {
    Comparable(a.current, b.current)
  }

  /** The cursor refers to an element of the storage. */
  predicate Dereferenceable<T>(it: SpanIterator, storage: seq<T>) {
    it.current.At? && 0 <= it.current.addr < |storage|
  }

  /** `it - other`: the signed number of elements from `other` to `it`. */
  function Distance(it: SpanIterator, other: SpanIterator): (d: int)
    requires Compatible(it, other)
    ensures CanOffset(other.current, d) && Offset(other.current, d) == it.current
  {
    Diff(it.current, other.current)
  }

  /** The default constructor: the null cursor. */
  function Default(): (r: SpanIterator)
    ensures r.current.Null?
    ensures forall n :: CanOffset(r.current, n) ==> n == 0
  {
    SpanIterator(Null)
  }

  /** The explicit constructor from a raw pointer. */
  function FromPointer(p: Pointer): (r: SpanIterator)
    ensures r.current == p
  {
    SpanIterator(p)
  }

  /** `operator->`: the raw pointer, from which the cursor is rebuilt. */
  function Arrow(it: SpanIterator): (p: Pointer)
    ensures FromPointer(p) == it
  {
    it.current
  }

  /** `operator*`: the element the cursor refers to. */
  function Deref<T>(it: SpanIterator, storage: seq<T>): (r: T)
    requires Dereferenceable(it, storage)
    ensures r in storage
    ensures r == storage[Arrow(it).addr]
  {
    storage[it.current.addr]
  }

  /** `++it`: one element forward. */
  function Increment(it: SpanIterator): (r: SpanIterator)
    requires it.current.At?
    ensures Compatible(r, it) && Distance(r, it) == 1
  {
    SpanIterator(Offset(it.current, 1))
  }

  /** `--it`: one element back. */
  function Decrement(it: SpanIterator): (r: SpanIterator)
    requires it.current.At?
    ensures Compatible(r, it) && Distance(r, it) == -1
  {
    SpanIterator(Offset(it.current, -1))
  }

  /** `it += n`. */
  function AddAssign(it: SpanIterator, n: int): (r: SpanIterator)
    requires CanOffset(it.current, n)
    ensures Compatible(r, it) && Distance(r, it) == n
  {
    SpanIterator(Offset(it.current, n))
  }

  /** `it + n`: a copy of the cursor, advanced with `+=`. */
  function Plus(it: SpanIterator, n: int): (r: SpanIterator)
    requires CanOffset(it.current, n)
    ensures Compatible(r, it) && Distance(r, it) == n
  {
    AddAssign(it, n)
  }

  /** `it -= n`. */
  function SubAssign(it: SpanIterator, n: int): (r: SpanIterator)
    requires CanOffset(it.current, -n)
    ensures Compatible(r, it) && Distance(it, r) == n
  {
    SpanIterator(Offset(it.current, -n))
  }

  /** `it - n`: a copy of the cursor, moved back with `-=`. */
  function Minus(it: SpanIterator, n: int): (r: SpanIterator)
    requires CanOffset(it.current, -n)
    ensures Compatible(r, it) && Distance(it, r) == n
  {
    SubAssign(it, n)
  }

  /** `it[n]`: the element `n` positions away from the cursor. */
  function Subscript<T>(it: SpanIterator, n: int, storage: seq<T>): (r: T)
    requires CanOffset(it.current, n) && Dereferenceable(Plus(it, n), storage)
    ensures r == Deref(Plus(it, n), storage)
  {
    storage[it.current.addr + n]
  }

  /** `a == b`: the cursors refer to the same address. */
  function Equal(a: SpanIterator, b: SpanIterator): (r: bool)
    ensures r <==> Compatible(a, b) && Distance(a, b) == 0
  {
    a.current == b.current
  }

  /** `a != b`. */
  function NotEqual(a: SpanIterator, b: SpanIterator): (r: bool)
    ensures r <==> !Equal(a, b)
  {
    !(a.current == b.current)
  }

  /** `k` successive pre-increments. */
  function Advance(it: SpanIterator, k: nat): (r: SpanIterator)
    requires CanOffset(it.current, k)
    ensures r == Plus(it, k)
    decreases k
  {
    if k == 0 then it else Increment(Advance(it, k - 1))
  }

  // ---------------------------------------------------------------------
  // Iterator laws

  /** The default cursor refers to nothing, equals every other default
      cursor, and differs from every cursor at an address. */
  lemma DefaultIsSentinel<T>(storage: seq<T>)
    ensures !Dereferenceable(Default(), storage)
    ensures Equal(Default(), Default()) && Distance(Default(), Default()) == 0
    ensures forall a :: !Equal(Default(), FromPointer(At(a)))
  {
  }

  /** Equality of cursors is equality of the values: nothing but the address
      distinguishes two cursors. */
  lemma EqualIsIdentity(a: SpanIterator, b: SpanIterator)
    ensures Equal(a, b) <==> a == b
    ensures NotEqual(a, b) <==> a != b
  {
  }

  /** `++` and `--` undo each other, and agree with `+ 1` and `- 1`. */
  lemma IncrementDecrementInverse(it: SpanIterator)
    requires it.current.At?
    ensures Decrement(Increment(it)) == it
    ensures Increment(Decrement(it)) == it
    ensures Increment(it) == Plus(it, 1)
    ensures Decrement(it) == Minus(it, 1)
  {
  }

  /** `(it + n) - n == it` and `(it - n) + n == it`. */
  lemma PlusMinusRoundTrip(it: SpanIterator, n: int)
    requires CanOffset(it.current, n) && CanOffset(it.current, -n)
    ensures CanOffset(Plus(it, n).current, -n) && Minus(Plus(it, n), n) == it
    ensures CanOffset(Minus(it, n).current, n) && Plus(Minus(it, n), n) == it
  {
  }

  /** `b + (a - b) == a`: adding a distance inverts taking it. */
  lemma PlusDistance(a: SpanIterator, b: SpanIterator)
    requires Compatible(a, b)
    ensures CanOffset(b.current, Distance(a, b)) && Plus(b, Distance(a, b)) == a
  {
  }

  /** `it - n` is `it + (-n)`, and jumps compose additively. */
  lemma PlusCompose(it: SpanIterator, m: int, n: int)
    requires CanOffset(it.current, m) && CanOffset(it.current, n)
    ensures Minus(it, -m) == Plus(it, m)
    ensures CanOffset(Plus(it, m).current, n) && Plus(Plus(it, m), n) == Plus(it, m + n)
  {
  }
}
