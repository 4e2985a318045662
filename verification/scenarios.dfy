/** Concrete views over the five-element buffer `{1, 2, 3, 4, 5}` of the
    repository's driver program (its `float` values are written here as
    integers; only their order matters). */
module Scenarios {
  import opened Memory
  import opened Results
  import opened Spans

  const Buffer: seq<int> := [1, 2, 3, 4, 5]

  /** The buffer as a container: its `data()` and `size()`. */
  const BufferRange: ContiguousRange := ContiguousRange(At(0), 5)

  /** The driver: a dynamic span over the whole buffer, walked with a
      range-based `for`, then indexed at 2. */
  method Driver() returns (visited: seq<int>, third: int)
    ensures visited == [1, 2, 3, 4, 5]
    ensures third == 3
  {
    var built := FromRange(Dynamic, BufferRange);
    var s := built.value;
    assert Elements(s, Buffer) == Buffer;
    visited := Traverse(s, Buffer);
    third := Index(s, Buffer, 2);
  }

  /** The pair `(&buf[1], &buf[4])` views `{2, 3, 4}`. */
  lemma PairScenario()
    ensures Valid(FromPair(At(1), At(4)), Buffer)
    ensures Size(FromPair(At(1), At(4))) == 3
    ensures Elements(FromPair(At(1), At(4)), Buffer) == [2, 3, 4]
    ensures Front(FromPair(At(1), At(4)), Buffer) == 2
    ensures Back(FromPair(At(1), At(4)), Buffer) == 4
  {
  }

  /** A static extent of 3 accepts a three-element array and rejects a
      two-element one. */
  lemma StaticScenario()
    ensures FromRange(Static(3), ContiguousRange(At(0), 3)).Success?
    ensures FromRange(Static(3), ContiguousRange(At(0), 2)) == Failure(LengthError(RANGE_TOO_SHORT))
  {
  }

  /** Without the range check, a static extent of 3 over the last two
      elements would overrun the buffer. */
  lemma UncheckedStaticOverrun()
    ensures !Valid(FromFirst(3, At(3)), Buffer)
    ensures FromRange(Static(3), ContiguousRange(At(3), 2)).Failure?
  {
  }
}
