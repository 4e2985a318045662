/** The non-owning view `span<T, Extent>`: a base pointer and an element
    count over storage that someone else owns.

    The count lives in the value only for a dynamic extent; a static extent
    fixes it in the type. Construction checks nothing except that a range
    is long enough for a static extent; every other misuse (an index past
    the end, a count that overruns the storage) is a precondition. */
module Spans {
  import opened Memory
  import opened Iterators
  import opened Results

  /** Every `std::size_t` template argument except `std::dynamic_extent`. */
  type StaticExtent = x: int | 0 <= x < DYNAMIC_EXTENT

  /** The `Extent` template argument. */
  datatype Extent = Dynamic | Static(n: StaticExtent)

  /** The length member: a runtime `size_type` count for a dynamic extent,
      an empty `std::integral_constant` that holds no count for a static
      one. */
  datatype LengthField = Stored(count: SizeT) | Constant(extent: StaticExtent)

  datatype Span = Span(ptr: Pointer, length: LengthField)

  /** The only runtime-reported failure: a range shorter than the static
      extent. */
  datatype LengthError = LengthError(what: string)

  const RANGE_TOO_SHORT: string := "Range size is smaller than static extent -> UB"

  /** A source of contiguous elements: what `data()` and `size()` of a
      container report. */
  datatype ContiguousRange = ContiguousRange(data: Pointer, size: SizeT)

  // ---------------------------------------------------------------------
  // The extent tag

  /** `span::extent`, the template argument as a `std::size_t`. */
  function ExtentValue(e: Extent): (v: SizeT)
    ensures v == DYNAMIC_EXTENT <==> e.Dynamic?
  {
    match e
    case Dynamic => DYNAMIC_EXTENT
    case Static(n) => n
  }

  /** The extent tag a `std::size_t` template argument denotes. */
  function ExtentFromValue(v: SizeT): (e: Extent)
    ensures ExtentValue(e) == v
  {
    if v == DYNAMIC_EXTENT then Dynamic else Static(v)
  }

  /** Tag and value determine each other. */
  lemma ExtentRoundTrip(e: Extent)
    ensures ExtentFromValue(ExtentValue(e)) == e
  {
  }

  /** The extent a span was instantiated with. */
  function ExtentOf(s: Span): (e: Extent) {
    match s.length
    case Stored(_) => Dynamic
    case Constant(n) => Static(n)
  }

  // ---------------------------------------------------------------------
  // Accessors

  /** `data()`. */
  function Data(s: Span): (p: Pointer) {
    s.ptr
  }

  /** `size()`: the extent itself for a static span, the stored count for a
      dynamic one. */
  function Size(s: Span): (n: SizeT)
    ensures ExtentOf(s).Static? ==> n == ExtentValue(ExtentOf(s))
    ensures ExtentOf(s).Dynamic? ==> n == s.length.count
  {
    match s.length
    case Stored(count) => count
    case Constant(extent) => extent
  }

  /** The span describes live storage: `size()` elements start at `data()`,
      and `data()` is null only for an empty span. */
  predicate Valid<T>(s: Span, storage: seq<T>) {
    Live(Data(s), Size(s), storage)
  }

  /** The elements the view shows, in order. */
  function Elements<T>(s: Span, storage: seq<T>): (view: seq<T>)
    requires Valid(s, storage)
    ensures |view| == Size(s)
  {
    Run(Data(s), Size(s), storage)
  }

  /** `data()` of a live span: null only when the span is empty, and
      otherwise the address of its first element. */
  lemma DataAddressesView<T>(s: Span, storage: seq<T>)
    requires Valid(s, storage)
    ensures Data(s).Null? ==> Size(s) == 0
    ensures Size(s) > 0 ==>
      && Dereferenceable(FromPointer(Data(s)), storage)
      && Deref(FromPointer(Data(s)), storage) == Elements(s, storage)[0]
  {
  }

  /** `begin()`: a cursor at `data()`. */
  function Begin(s: Span): (it: SpanIterator)
    ensures Arrow(it) == Data(s)
  {
    FromPointer(s.ptr)
  }

  /** `end()`: the one-past-the-end cursor, `size()` elements after
      `begin()`. */
  function End(s: Span): (it: SpanIterator)
    requires CanOffset(Data(s), Size(s))
    ensures Compatible(it, Begin(s)) && Distance(it, Begin(s)) == Size(s)
  {
    FromPointer(Offset(s.ptr, Size(s)))
  }

  /** `s[index]`: element `index` of the view, which is also what
      `*(begin() + index)` reads. */
  function Index<T>(s: Span, storage: seq<T>, index: SizeT): (r: T)
    requires Valid(s, storage) && index < Size(s)
    ensures r == Elements(s, storage)[index]
    ensures CanOffset(Begin(s).current, index) && r == Deref(Plus(Begin(s), index), storage)
  {
    storage[s.ptr.addr + index]
  }

  /** `front()`: the first element of a non-empty view. */
  function Front<T>(s: Span, storage: seq<T>): (r: T)
    requires Valid(s, storage) && Size(s) > 0
    ensures r == Elements(s, storage)[0]
    ensures r == Index(s, storage, 0)
  {
    storage[s.ptr.addr]
  }

  /** `back()`: the last element of a non-empty view. */
  function Back<T>(s: Span, storage: seq<T>): (r: T)
    requires Valid(s, storage) && Size(s) > 0
    ensures r == Elements(s, storage)[Size(s) - 1]
    ensures r == Index(s, storage, Size(s) - 1)
  {
    storage[s.ptr.addr + Size(s) - 1]
  }

  // ---------------------------------------------------------------------
  // Construction. The count and pair forms exist for a dynamic extent only:
  // with a static extent they would initialise a `std::integral_constant`
  // from a runtime value. The single-cursor form exists for a static extent
  // only: with a dynamic extent it would leave the stored count
  // uninitialised.

  /** `span(first, count)`. */
  function FromCount(first: Pointer, count: SizeT): (s: Span)
    ensures ExtentOf(s) == Dynamic
    ensures Data(s) == first && Size(s) == count
  {
    Span(first, Stored(count))
  }

  /** `span(first, end)`: the count is `end - first` converted to
      `std::size_t`, so a reversed pair wraps round to a huge count. */
  function FromPair(first: Pointer, end: Pointer): (s: Span)
    requires Comparable(end, first)
    ensures ExtentOf(s) == Dynamic && Data(s) == first
    ensures 0 <= Diff(end, first) < SIZE_T_MODULUS ==> Size(s) == Diff(end, first)
    ensures (Size(s) - Diff(end, first)) % SIZE_T_MODULUS == 0
  {
    Span(first, Stored(ToSizeT(Diff(end, first))))
  }

  /** `span(first)`: the next `extent` elements from `first`. */
  function FromFirst(extent: StaticExtent, first: Pointer): (s: Span)
    ensures ExtentOf(s) == Static(extent)
    ensures Data(s) == first && Size(s) == extent
  {
    Span(first, Constant(extent))
  }

  /** `span(range)`: adopts the range's `data()`; a dynamic span takes the
      range's `size()`, a static span takes its extent and is rejected with
      a length error when the range is shorter than that. */
  function FromRange(extent: Extent, range: ContiguousRange): (r: Result<Span, LengthError>)
    ensures r.Failure? <==> extent.Static? && extent.n > range.size
    ensures r.Failure? ==> r.error == LengthError(RANGE_TOO_SHORT)
    ensures r.Success? ==> ExtentOf(r.value) == extent && Data(r.value) == range.data
    ensures r.Success? && extent.Dynamic? ==> Size(r.value) == range.size
    ensures r.Success? && extent.Static? ==> Size(r.value) == extent.n <= range.size
  {
    match extent
    case Static(n) =>
      if n > range.size then Failure(LengthError(RANGE_TOO_SHORT))
      else Success(Span(range.data, Constant(n)))
    case Dynamic =>
      Success(Span(range.data, Stored(range.size)))
  }

  // ---------------------------------------------------------------------
  // Properties of whole spans

  /** A span from `(first, count)` describes live storage exactly when
      `count` elements starting at `first` are live, and then shows them. */
  lemma FromCountView<T>(first: Pointer, count: SizeT, storage: seq<T>)
    ensures Valid(FromCount(first, count), storage) <==> Live(first, count, storage)
    ensures Live(first, count, storage) ==> Elements(FromCount(first, count), storage) == Run(first, count, storage)
  {
  }

  /** A span from an ordered pair of addresses into the storage is valid,
      and its `begin()` and `end()` give back the two addresses. */
  lemma FromPairBounds<T>(first: Pointer, end: Pointer, storage: seq<T>)
    requires Comparable(end, first) && Live(first, Diff(end, first), storage)
    requires |storage| < SIZE_T_MODULUS
    ensures Valid(FromPair(first, end), storage)
    ensures CanOffset(first, Size(FromPair(first, end)))
    ensures Begin(FromPair(first, end)) == FromPointer(first)
    ensures End(FromPair(first, end)) == FromPointer(end)
  {
  }

  /** A pair given in the wrong order never describes live storage: the
      wrapped count exceeds every storage that fits in memory. */
  lemma ReversedPairIsInvalid<T>(first: Pointer, end: Pointer, storage: seq<T>)
    requires first.At? && end.At?
    requires 0 <= end.addr < first.addr <= |storage| < SIZE_T_MODULUS
    ensures Size(FromPair(first, end)) == SIZE_T_MODULUS - (first.addr - end.addr)
    ensures !Valid(FromPair(first, end), storage)
  {
  }

  /** A single-cursor static span is not checked: it describes live storage
      only when `extent` elements really follow `first`. */
  lemma FromFirstView<T>(extent: StaticExtent, first: Pointer, storage: seq<T>)
    ensures Valid(FromFirst(extent, first), storage) <==> Live(first, extent, storage)
  {
  }

  /** The runtime check of the range constructor is what makes it safe: a
      span built from a live range is live, and shows the range's elements,
      or the first `extent` of them for a static extent. */
  lemma FromRangeIsSafe<T>(extent: Extent, range: ContiguousRange, storage: seq<T>)
    requires Live(range.data, range.size, storage)
    ensures FromRange(extent, range).Success? ==>
      && Valid(FromRange(extent, range).value, storage)
      && Elements(FromRange(extent, range).value, storage)
         == Run(range.data, range.size, storage)[..Size(FromRange(extent, range).value)]
  {
  }

  /** `end() - begin() == size()`, `begin()` sits at `data()`, and `size()`
      pre-increments of `begin()` reach `end()`. */
  lemma BeginEndBracketView(s: Span)
    requires CanOffset(Data(s), Size(s))
    ensures Arrow(Begin(s)) == Data(s)
    ensures Compatible(End(s), Begin(s)) && Distance(End(s), Begin(s)) == Size(s)
    ensures Advance(Begin(s), Size(s)) == End(s)
  {
  }

  /** The range-based `for` loop: walks from `begin()` with `++` until the
      cursor compares equal to `end()`, reading each element with `*`. */
  method Traverse<T>(s: Span, storage: seq<T>) returns (visited: seq<T>)
    requires Valid(s, storage)
    ensures visited == Elements(s, storage)
  {
    var it := Begin(s);
    var last := End(s);
    visited := [];
    while NotEqual(it, last)
      invariant |visited| <= Size(s)
      invariant it == Plus(Begin(s), |visited|)
      invariant visited == Elements(s, storage)[..|visited|]
      decreases Size(s) - |visited|
    {
      visited := visited + [Deref(it, storage)];
      it := Increment(it);
    }
  }
}
