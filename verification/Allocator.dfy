/** The log-structured allocator: grain-aligned extents, one segment after the other, round and round the device. */
module Allocator {
  import opened Multiples

  /** A size padded to whole grains. */
  function RoundUp(size: nat, g: nat): (r: nat)
    requires 0 < g
    ensures size <= r < size + g
  {
    if size % g != 0 then size + (g - size % g) else size
  }

  lemma RoundUpIsMultiple(size: nat, g: nat)
    requires 0 < g
    ensures RoundUp(size, g) % g == 0
  {
    Quotient(size, g);
    if size % g != 0 {
      assert RoundUp(size, g) == g * (size / g + 1);
      Remainder(g, size / g + 1, 0);
    }
  }

  /** Padding never crosses a grain-aligned limit. */
  lemma RoundUpFits(size: nat, limit: nat, g: nat)
    requires 0 < g && limit % g == 0 && size <= limit
    ensures RoundUp(size, g) <= limit
  {
    RoundUpIsMultiple(size, g);
    Quotient(RoundUp(size, g), g);
    Quotient(limit, g);
    var q, l := RoundUp(size, g) / g, limit / g;
    if q > l { Gap(g, l, q); }
  }

  // ---------- Allocation

  /** Bytes per grain, bytes per segment, number of segments. */
  datatype Shape = Shape(grain: nat, segSize: nat, segs: nat)

  type Geometry = g: Shape | 0 < g.grain && 0 < g.segSize && g.segSize % g.grain == 0 && 0 < g.segs
    witness Shape(1, 1, 1)

  /** How many segments have been staged before the current one, and how many bytes of it are taken. */
  datatype State = State(turn: nat, used: nat)

  /** Index on the device of the segment staged in a turn. */
  function Seg(g: Geometry, turn: nat): (i: nat)
    ensures i < g.segs
  {
    turn % g.segs
  }

  /** An extent: the turn it was handed out in, its place in the segment and its length in bytes. */
  datatype Extent = Extent(turn: nat, start: nat, len: nat)

  function Next(g: Geometry, s: State, size: nat): (r: (State, Extent)) {
    var t := if s.used + size > g.segSize then State(s.turn + 1, 0) else s;
    (t.(used := t.used + RoundUp(size, g.grain)), Extent(t.turn, t.used, RoundUp(size, g.grain)))
  }

  /** First byte of an extent on the device, and the address handed to the caller. */
  function Addr(g: Geometry, e: Extent): (r: nat) { Seg(g, e.turn) * g.segSize + e.start }
  function Pba(g: Geometry, e: Extent): (r: nat) { Addr(g, e) / g.grain }

  ghost predicate Aligned(g: Geometry, s: State) { s.used % g.grain == 0 }

  lemma NextIsAligned(g: Geometry, s: State, size: nat)
    requires Aligned(g, s)
    ensures var (s', e) := Next(g, s, size);
      Aligned(g, s') && e.start % g.grain == 0 && e.len % g.grain == 0
  {
    hide RoundUp;
    RoundUpIsMultiple(size, g.grain);
    SumWithMultiple(s.used, RoundUp(size, g.grain), g.grain);
  }

  /** The address names the extent's first byte exactly. */
  lemma PbaIsExact(g: Geometry, e: Extent)
    requires e.start % g.grain == 0
    ensures Pba(g, e) * g.grain == Addr(g, e)
  {
    ProductOfMultiple(Seg(g, e.turn), g.segSize, g.grain);
    SumWithMultiple(Seg(g, e.turn) * g.segSize, e.start, g.grain);
    Quotient(Addr(g, e), g.grain);
  }

  /**
   The fit check compares the unrounded size; still an extent lies inside its segment exactly when the
   request is not larger than a segment.
   */
  lemma StaysInSegment(g: Geometry, s: State, size: nat)
    requires Aligned(g, s)
    ensures var (s', e) := Next(g, s, size);
      && (e.start + e.len <= g.segSize <==> size <= g.segSize)
      && s'.used == e.start + e.len && size <= e.len && s'.turn == e.turn
  {
    var (s', e) := Next(g, s, size);
    if size <= g.segSize {
      RoundUpIsMultiple(size, g.grain);
      if s.used + size <= g.segSize {
        RoundUpOfSum(s.used, size, g.grain);
        RoundUpFits(s.used + size, g.segSize, g.grain);
      } else {
        RoundUpFits(size, g.segSize, g.grain);
      }
    }
  }

  lemma RoundUpOfSum(x: nat, size: nat, g: nat)
    requires 0 < g && x % g == 0
    ensures RoundUp(x + size, g) == x + RoundUp(size, g)
  {
    SumWithMultiple(x, size, g);
  }

  /**
   Nothing is given away: a segment is left exactly when the request does not fit behind what is taken of it, and
   then for the next one's first byte; an extent takes up where the last one ended, and its padding is less than a
   grain.
   */
  lemma NextIsTight(g: Geometry, s: State, size: nat)
    requires Aligned(g, s)
    ensures var (s', e) := Next(g, s, size);
      && (if s.used + size <= g.segSize then e.turn == s.turn && e.start == s.used
          else e.turn == s.turn + 1 && e.start == 0)
      && size <= e.len < size + g.grain && e.len % g.grain == 0
      && s'.turn == e.turn && s'.used == e.start + e.len
  {
    RoundUpIsMultiple(size, g.grain);
  }

  // ---------- Any sequence of requests

  ghost function Extents(g: Geometry, s: State, sizes: seq<nat>): (r: seq<Extent>)
    ensures |r| == |sizes|
    decreases |sizes|
  {
    if sizes == [] then [] else [Next(g, s, sizes[0]).1] + Extents(g, Next(g, s, sizes[0]).0, sizes[1..])
  }

  /** Every extent of a run begins after the allocator's position at its start, in a later turn or further on. */
  lemma {:induction false} ExtentsAreLater(g: Geometry, s: State, sizes: seq<nat>, j: nat)
    requires j < |sizes|
    ensures var e := Extents(g, s, sizes)[j];
      s.turn < e.turn || (s.turn == e.turn && s.used <= e.start)
    decreases |sizes|
  {
    if j > 0 {
      ExtentsAreLater(g, Next(g, s, sizes[0]).0, sizes[1..], j - 1);
    }
  }

  lemma {:induction false} ExtentsInOrder(g: Geometry, s: State, sizes: seq<nat>, i: nat, j: nat)
    requires i < j < |sizes|
    ensures var x, y := Extents(g, s, sizes)[i], Extents(g, s, sizes)[j];
      x.turn < y.turn || (x.turn == y.turn && x.start + x.len <= y.start)
    decreases |sizes|
  {
    if i == 0 {
      ExtentsAreLater(g, Next(g, s, sizes[0]).0, sizes[1..], j - 1);
    } else {
      ExtentsInOrder(g, Next(g, s, sizes[0]).0, sizes[1..], i - 1, j - 1);
    }
  }

  lemma {:induction false} ExtentsAreShaped(g: Geometry, s: State, sizes: seq<nat>, j: nat)
    requires Aligned(g, s) && j < |sizes| && sizes[j] <= g.segSize
    ensures var e := Extents(g, s, sizes)[j];
      && e.start % g.grain == 0 && e.start + e.len <= g.segSize && sizes[j] <= e.len
      && Pba(g, e) * g.grain == Addr(g, e)
    decreases |sizes|
  {
    NextIsAligned(g, s, sizes[0]);
    if j == 0 {
      StaysInSegment(g, s, sizes[0]);
      PbaIsExact(g, Extents(g, s, sizes)[0]);
    } else {
      ExtentsAreShaped(g, Next(g, s, sizes[0]).0, sizes[1..], j - 1);
    }
  }

  /** Of two extents handed out one after the other the second adjoins the first, unless its request did not fit there. */
  lemma {:induction false} ExtentsAdjoin(g: Geometry, s: State, sizes: seq<nat>, i: nat)
    requires Aligned(g, s) && i + 1 < |sizes|
    ensures var x, y := Extents(g, s, sizes)[i], Extents(g, s, sizes)[i + 1];
      && (if x.start + x.len + sizes[i + 1] <= g.segSize then y.turn == x.turn && y.start == x.start + x.len
          else y.turn == x.turn + 1 && y.start == 0)
      && sizes[i] <= x.len < sizes[i] + g.grain && sizes[i + 1] <= y.len < sizes[i + 1] + g.grain
    decreases |sizes|
  {
    hide Next, Aligned;
    NextIsAligned(g, s, sizes[0]);
    if i == 0 {
      var s1 := Next(g, s, sizes[0]).0;
      NextIsTight(g, s, sizes[0]);
      NextIsTight(g, s1, sizes[1]);
      assert Extents(g, s, sizes)[1] == Extents(g, s1, sizes[1..])[0] == Next(g, s1, sizes[1]).1;
    } else {
      ExtentsAdjoin(g, Next(g, s, sizes[0]).0, sizes[1..], i - 1);
    }
  }

  /** The segment of turn x has been staged once more by turn y. */
  ghost predicate StagedAgain(g: Geometry, x: nat, y: nat) {
    exists t :: x < t <= y && Seg(g, t) == Seg(g, x)
  }

  /** Two extents of any run are disjoint on the device unless the first one's segment was staged again in between. */
  lemma ExtentsAreDisjoint(g: Geometry, s: State, sizes: seq<nat>, i: nat, j: nat)
    requires Aligned(g, s) && i < j < |sizes| && sizes[i] <= g.segSize && sizes[j] <= g.segSize
    ensures var x, y := Extents(g, s, sizes)[i], Extents(g, s, sizes)[j];
      StagedAgain(g, x.turn, y.turn) || Addr(g, x) + x.len <= Addr(g, y) || Addr(g, y) + y.len <= Addr(g, x)
  {
    var x, y := Extents(g, s, sizes)[i], Extents(g, s, sizes)[j];
    ExtentsInOrder(g, s, sizes, i, j);
    ExtentsAreShaped(g, s, sizes, i);
    ExtentsAreShaped(g, s, sizes, j);
    if x.turn < y.turn {
      if Seg(g, x.turn) < Seg(g, y.turn) {
        LaterSegment(g, Seg(g, x.turn), Seg(g, y.turn));
      } else if Seg(g, y.turn) < Seg(g, x.turn) {
        LaterSegment(g, Seg(g, y.turn), Seg(g, x.turn));
      }
    }
  }

  lemma LaterSegment(g: Geometry, i: nat, j: nat)
    requires i < j
    ensures i * g.segSize + g.segSize <= j * g.segSize
  {
    Gap(g.segSize, i, j);
  }
}
