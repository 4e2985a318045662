/** Addresses into the borrowed storage and the machine integer widths the
    span works with.

    The storage a span borrows is modelled as one immutable sequence; a raw
    `T*` becomes either the null pointer or the index of an element slot in
    that sequence (one-past-the-end and out-of-range indices are addresses
    too: forming them is not checked, dereferencing them is forbidden). */
module Memory {

  /** 2^64: the values of `std::size_t` are the residues modulo this number. */
  const SIZE_T_MODULUS: int := 0x1_0000_0000_0000_0000

  /** `std::size_t`. */
  type SizeT = x: int | 0 <= x < SIZE_T_MODULUS

  /** `std::dynamic_extent`, which is `std::size_t(-1)`. */
  const DYNAMIC_EXTENT: SizeT := SIZE_T_MODULUS - 1

  /** The implicit conversion of a signed value to `std::size_t`: reduction
      modulo 2^64, which leaves every representable value unchanged. */
  function ToSizeT(x: int): (r: SizeT)
    ensures (r - x) % SIZE_T_MODULUS == 0
    ensures 0 <= x < SIZE_T_MODULUS ==> r == x
  {
    x % SIZE_T_MODULUS
  }

  /** A raw pointer: null, or the address of an element slot. */
  datatype Pointer = Null | At(addr: int)

  /** Pointer arithmetic on null is undefined except for adding zero. */
  predicate CanOffset(p: Pointer, n: int) {
    p.At? || n == 0
  }

  /** Two pointers may be subtracted when both are null or both point into
      the storage. */
  predicate Comparable(p: Pointer, q: Pointer) {
    p.Null? == q.Null?
  }

  /** `p - q`, the signed element distance. */
  function Diff(p: Pointer, q: Pointer): (d: int)
    requires Comparable(p, q)
  {
    match p
    case Null => 0
    case At(a) => a - q.addr
  }

  /** `p + n`: the pointer `n` elements further on. */
  function Offset(p: Pointer, n: int): (r: Pointer)
    requires CanOffset(p, n)
    ensures r.Null? <==> p.Null?
    ensures Comparable(r, p) && Diff(r, p) == n
  {
    match p
    case Null => Null
    case At(a) => At(a + n)
  }

  /** `count` live elements start at `p`: a null pointer only for an empty
      run, otherwise a run that lies inside the storage. */
  predicate Live<T>(p: Pointer, count: int, storage: seq<T>) {
    match p
    case Null => count == 0
    case At(a) => 0 <= a && 0 <= count && a + count <= |storage|
  }

  /** The elements of a live run, in address order. */
  function Run<T>(p: Pointer, count: int, storage: seq<T>): (r: seq<T>)
    requires Live(p, count, storage)
    ensures |r| == count
    ensures p.At? ==> forall i :: 0 <= i < count ==> r[i] == storage[p.addr + i]
  {
    match p
    case Null => []
    case At(a) => storage[a .. a + count]
  }
}
