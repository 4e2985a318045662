# span: a non-owning contiguous view and its random-access cursor

This project models `stdImpl::span<T, Extent>` and `stdImpl::SpanIterator<T>`
from `ds/span/span.hpp`. A span is a base pointer plus an element count over
storage it does not own. The count is stored at run time for a dynamic
extent and fixed by the type for a static extent. The iterator is a bare
address with pointer arithmetic.

How the C++ notions become Dafny:

- The borrowed storage is one immutable `seq<T>`. A raw pointer is
  `Memory.Pointer`: `Null`, or `At(addr)`, an element index into that
  sequence. Indices outside the sequence are still addresses; only
  dereferencing needs a real element.
- `std::size_t` is `Memory.SizeT`, the integers in `[0, 2^64)`.
  `std::dynamic_extent` is `2^64 - 1`. Converting a signed difference to
  `size_t` is reduction modulo `2^64` (`Memory.ToSizeT`).
- The `Extent` template argument is `Spans.Extent = Dynamic | Static(n)`.
  The length member is `Stored(count)` for a dynamic span and `Constant(n)`
  for a static one, matching the `std::conditional_t` member.
- Undefined behaviour by contract becomes a `requires`. Examples: an index
  past `size()`, `front()` of an empty span, `++` on a null cursor,
  subtracting a null cursor from a non-null one.
- The one runtime check is the static-extent range constructor, which
  throws `std::length_error`. It is modelled as a `Result` with the error
  `LengthError` carrying the message that `span.hpp` throws.
- A "contiguous range" is `Spans.ContiguousRange(data, size)`: what the
  container's `data()` and `size()` report.
- `Spans.Valid(s, storage)` says `size()` elements starting at `data()` are
  live. `Spans.Elements` is the sequence of elements the view shows; it is
  the reference that indexing and traversal are proved against.

The count and pair constructors are modelled for a dynamic extent only.
With a static extent they would initialise a `std::integral_constant` from
a runtime value, which does not compile. The single-cursor constructor is
modelled for a static extent only. With a dynamic extent it would leave the
stored count uninitialised.

A span cannot be built from another span through the range constructor.
That constructor requires its argument's iterators to satisfy
`contiguous_iterator`, which uses `std::iterator_traits<It>::reference`.
`SpanIterator` declares no `value_type`, so that trait is empty for it and
a span is not a `contiguous_range`.

A copy of a span is the same immutable value in the model, so copying
preserves `size()`, `data()` and the viewed elements trivially.

## Model

| member | source | states |
|---|---|---|
| Iterators.Default | ds/span/span.hpp:121 | the default cursor holds the null address, which admits no move other than by zero |
| Iterators.DefaultIsSentinel | ds/span/span.hpp:171 | the default cursor dereferences nothing, equals another default cursor at distance 0, and differs from every real address |
| Iterators.FromPointer | ds/span/span.hpp:122 | the explicit constructor holds the given address |
| Iterators.Arrow | ds/span/span.hpp:126 | `operator->` yields the address from which the same cursor is rebuilt |
| Iterators.Deref | ds/span/span.hpp:125 | `*it` on an in-bounds cursor is the storage element at the cursor's address |
| Iterators.Increment | ds/span/span.hpp:129-132 | `++` on a non-null cursor moves it exactly one element forward (distance +1) |
| Iterators.Decrement | ds/span/span.hpp:133-136 | `--` on a non-null cursor moves it exactly one element back (distance -1) |
| Iterators.AddAssign | ds/span/span.hpp:139-142 | `+= n` gives a cursor at distance `n` from the original; only `n == 0` is allowed on null |
| Iterators.Plus | ds/span/span.hpp:143-147 | `it + n` gives a cursor at distance `n` from `it` |
| Iterators.SubAssign | ds/span/span.hpp:148-151 | `-= n` gives a cursor that lies `n` elements before the original |
| Iterators.Minus | ds/span/span.hpp:152-156 | `it - n` gives a cursor that lies `n` elements before `it` |
| Iterators.Distance | ds/span/span.hpp:159-161 | `a - b` is the offset that moves `b` onto `a` |
| Iterators.Subscript | ds/span/span.hpp:164 | `it[n]` reads the same element as `*(it + n)` |
| Iterators.Equal | ds/span/span.hpp:167 | `a == b` holds iff the cursors are subtractable and their distance is 0 |
| Iterators.NotEqual | ds/span/span.hpp:168 | `a != b` is the exact negation of `a == b` |
| Iterators.EqualIsIdentity | ds/span/span.hpp:167-171 | `==` coincides with equality of cursor values, and `!=` with inequality, since the address is the only state |
| Iterators.Advance | ds/span/span.hpp:129-132 | `k` successive `++` land where a single `+ k` does |
| Iterators.IncrementDecrementInverse | ds/span/span.hpp:129-136 | `++` and `--` undo each other and agree with `+ 1` and `- 1` |
| Iterators.PlusMinusRoundTrip | ds/span/span.hpp:143-156 | `(it + n) - n == it` and `(it - n) + n == it` |
| Iterators.PlusDistance | ds/span/span.hpp:143-161 | `b + (a - b) == a` for every two subtractable cursors; `(b + n) - b == n` is the contract of `Iterators.Plus` |
| Iterators.PlusCompose | ds/span/span.hpp:139-156 | `it - (-m) == it + m`, and `(it + m) + n == it + (m + n)` |
| Spans.ExtentValue | ds/span/span.hpp:52 | `span::extent` is `std::dynamic_extent` exactly for the dynamic tag |
| Spans.ExtentFromValue | ds/span/span.hpp:41 | every `size_t` template argument denotes a tag whose `extent` is that argument |
| Spans.ExtentRoundTrip | ds/span/span.hpp:41-52 | tag to `extent` value and back is the identity |
| Spans.Size | ds/span/span.hpp:93-99 | a static span reports its extent; a dynamic span reports its stored count |
| Spans.DataAddressesView | ds/span/span.hpp:90 | `data()` (`Spans.Data`) of a live span is null only when the span is empty, and otherwise addresses the first viewed element |
| Spans.Begin | ds/span/span.hpp:102 | `begin()` is a cursor at `data()` |
| Spans.End | ds/span/span.hpp:103 | `end() - begin() == size()` |
| Spans.BeginEndBracketView | ds/span/span.hpp:102-103 | `begin()` sits at `data()`, `end() - begin() == size()`, and `size()` increments of `begin()` reach `end()` |
| Spans.Index | ds/span/span.hpp:87 | for `i < size()` on a live span, `s[i]` is element `i` of the view and equals `*(begin() + i)` |
| Spans.Front | ds/span/span.hpp:88 | `front()` of a non-empty live span is the first viewed element, `s[0]` |
| Spans.Back | ds/span/span.hpp:89 | `back()` of a non-empty live span is the last viewed element, `s[size() - 1]` |
| Spans.FromCount | ds/span/span.hpp:61-63 | `span(first, count)` is dynamic, with `data() == first` and `size() == count` |
| Spans.FromCountView | ds/span/span.hpp:61-63 | that span is live iff `count` elements at `first` are live, and it then shows exactly them |
| Spans.FromPair | ds/span/span.hpp:64-66 | `span(first, end)` is dynamic with `data() == first`; `size()` is `end - first` modulo 2^64, so it equals `end - first` when that is non-negative |
| Spans.FromPairBounds | ds/span/span.hpp:64-66 | for an ordered pair inside the storage the span is live and its `begin()`/`end()` are the two given addresses |
| Spans.ReversedPairIsInvalid | ds/span/span.hpp:64-66 | for a reversed pair the count wraps to `2^64 - (first - end)` and the span is never live |
| Spans.FromFirst | ds/span/span.hpp:67-68 | `span(first)` has the static extent, `data() == first` and `size() == extent` |
| Spans.FromFirstView | ds/span/span.hpp:67-68 | that span is unchecked: it is live iff `extent` elements at `first` are live |
| Spans.FromRange | ds/span/span.hpp:70-79 | construction from a range fails with the length error iff the extent is static and larger than `range.size()`; otherwise `data() == range.data()`, and `size()` is the range's size (dynamic) or the extent (static, at most the range's size) |
| Spans.FromRangeIsSafe | ds/span/span.hpp:70-79 | a span built from a live range is live and shows the range's elements, or their first `extent` for a static extent |
| Spans.Traverse | ds/span/main.cpp:11-13 | walking from `begin()` with `++` until `== end()` and reading with `*` visits exactly the view's elements in order |
| Scenarios.Driver | ds/span/main.cpp:8-15 | the span over `{1,2,3,4,5}` iterates 1..5 and `s[2] == 3` |
| Scenarios.PairScenario | ds/span/span.hpp:64-66 | the pair `(&buf[1], &buf[4])` views `{2,3,4}` with `front() == 2` and `back() == 4` |
| Scenarios.StaticScenario | ds/span/span.hpp:72-75 | a static extent of 3 accepts a three-element range and rejects a two-element one with the length error |
| Scenarios.UncheckedStaticOverrun | ds/span/span.hpp:67-75 | `span(first)` with extent 3 over the last two elements overruns the buffer; the range constructor rejects the same request |

## Left out

- The C++20 concepts `begin_end_iterators`, `contiguous_iterator`, `data_and_size_member` and `contiguous_range` (lines 11-35). They are compile-time checks; a range is just its `data()` and `size()`.
- `explicit(...)`, `noexcept`, `constexpr`, `std::to_address` and the object layout of the empty `std::integral_constant` member. They are type-system and layout details without behaviour; the model keeps only the fact that a static span holds no count.
- The dynamic-extent form of `span(first)`, which leaves the count uninitialised, and the static-extent forms of `span(first, count)` and `span(first, end)`, which do not compile.
- `difference_type` width: iterator offsets and distances are unbounded integers. A `std::ptrdiff_t` argument cannot be out of range, and an out-of-range distance is undefined behaviour that the model does not flag.
- Forming a cursor outside the storage is not flagged. Only dereferencing it is a precondition, so the model accepts some arithmetic that C++ leaves undefined.
- All cursors point into one storage sequence. Subtracting or ordering cursors of two different allocations cannot be expressed.
- Memory lifetime, dangling views and concurrent mutation of the storage. The storage is a fixed sequence.
- The printing in `ds/span/main.cpp` and its `float` element type. Only its data and its loop are modelled.
- `ds/span.hpp`, an unfinished earlier draft of the same class. It has no constructors and refers to an undeclared `N`.
