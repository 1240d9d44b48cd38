/** When the flushes of one segment overlap: which completion orders lose data, and exactly when none does. */
module DeviceFlushes {
  import opened Common
  import opened Multiples
  import opened Allocator
  import opened DeviceModel

  /** The data stands at position off. */
  predicate Has(bytes: seq<Byte>, off: nat, data: seq<Byte>) {
    off + |data| <= |bytes| && bytes[off..off + |data|] == data
  }

  /** Every flush of the segment that is under way brings the data. */
  ghost predicate AllBring(m: Image, s: nat, off: nat, data: seq<Byte>) {
    forall i :: 0 <= i < |m.pending| && m.pending[i].seg == s ==> Has(m.pending[i].data, off, data)
  }

  /** The segment of an earlier turn has not been staged since. */
  ghost predicate Past(g: Geometry, m: Image, turn: nat) {
    turn < m.alloc.turn && !StagedAgain(g, turn, m.alloc.turn)
  }

  ghost predicate ReadsAs(g: Geometry, m: Image, s: nat, off: nat, data: seq<Byte>) {
    Shaped(g, m) && s < g.segs && off + |data| <= g.segSize && ReadBytes(g, m, s, off, |data|) == data
  }

  /**
   Whatever happens, short of touching the extent or staging its segment again, and in whatever order flushes
   complete: once none of the segment's is under way, the data is read.
   */
  ghost predicate AlwaysReadsBack(g: Geometry, m: Image, h: Shadow, turn: nat, off: nat, data: seq<Byte>) {
    forall es :: Possible(g, m, h, es) && LeavesAlone(g, m, h, es, turn, off, |data|)
                 && !OnItsWay(Run(g, m, h, es).0, Seg(g, turn)) ==>
      ReadsAs(g, Run(g, m, h, es).0, Seg(g, turn), off, data)
  }

  // ---------- Agreeing flushes lose nothing

  lemma PastIsNotStaged(g: Geometry, m: Image, turn: nat)
    requires Past(g, m, turn)
    ensures Seg(g, m.alloc.turn) != Seg(g, turn)
  {
  }

  ghost predicate OnDiskOrBrought(g: Geometry, m: Image, turn: nat, off: nat, data: seq<Byte>) {
    && Shaped(g, m) && Past(g, m, turn) && AllBring(m, Seg(g, turn), off, data)
    && (OnItsWay(m, Seg(g, turn)) || Has(m.disk[Seg(g, turn)], off, data))
  }

  lemma StepBrings(g: Geometry, m: Image, h: Shadow, e: Event, turn: nat, off: nat, data: seq<Byte>)
    requires OnDiskOrBrought(g, m, turn, off, data) && Legal(g, m, e)
    requires !StagedAgain(g, turn, Step(g, m, h, e).0.alloc.turn)
    ensures OnDiskOrBrought(g, Step(g, m, h, e).0, turn, off, data)
  {
    var m' := Step(g, m, h, e).0;
    var s := Seg(g, turn);
    PastIsNotStaged(g, m, turn);
    hide Seg, StagedAgain, RoundUp, Has, ShadowAllocated, ShadowWritten;
    match e {
      case Alloc(size, clean) =>
        assert forall i :: 0 <= i < |m.pending| ==> m'.pending[i] == m.pending[i];
      case Put(at, bytes) =>
      case Done(i) =>
        assert forall j :: 0 <= j < |m'.pending| ==> m'.pending[j] == m.pending[if j < i then j else j + 1];
        if m.pending[i].seg != s && OnItsWay(m, s) { OthersStayOnTheirWay(m, i, s); }
    }
  }

  lemma {:induction false} RunBrings(g: Geometry, m: Image, h: Shadow, es: seq<Event>, turn: nat, off: nat, data: seq<Byte>)
    requires OnDiskOrBrought(g, m, turn, off, data)
    requires Possible(g, m, h, es) && LeavesAlone(g, m, h, es, turn, off, |data|)
    ensures OnDiskOrBrought(g, Run(g, m, h, es).0, turn, off, data)
    decreases |es|
  {
    hide OnDiskOrBrought, Legal, Step;
    if es != [] {
      StepBrings(g, m, h, es[0], turn, off, data);
      RunBrings(g, Step(g, m, h, es[0]).0, Step(g, m, h, es[0]).1, es[1..], turn, off, data);
    }
  }

  // ---------- Any flush may be the last to complete

  /** An order of completions that leaves nothing under way and finishes with the i-th flush. */
  lemma {:induction false} LastToFinish(g: Geometry, m: Image, h: Shadow, i: nat, turn: nat, off: nat, n: nat)
    returns (es: seq<Event>)
    requires Shaped(g, m) && i < |m.pending| && !StagedAgain(g, turn, m.alloc.turn)
    ensures Possible(g, m, h, es) && LeavesAlone(g, m, h, es, turn, off, n)
    ensures var m' := Run(g, m, h, es).0;
      && Shaped(g, m') && m'.pending == [] && m'.alloc == m.alloc
      && m'.disk[m.pending[i].seg] == m.pending[i].data
    decreases |m.pending|
  {
    var j := if |m.pending| == 1 || i > 0 then 0 else 1;
    var m' := Completed(m, j);
    hide StagedAgain, Seg;
    assert forall k :: 0 <= k < |m'.pending| ==> m'.pending[k] == m.pending[if k < j then k else k + 1];
    assert Shaped(g, m');
    assert Step(g, m, h, Done(j)) == (m', h);
    var rest: seq<Event> := [];
    if |m.pending| > 1 {
      var i' := if i > 0 then i - 1 else 0;
      assert m'.pending[i'] == m.pending[i];
      rest := LastToFinish(g, m', h, i', turn, off, n);
    }
    es := [Done(j)] + rest;
    assert es[1..] == rest;
  }

  /**
   The exact condition: a segment that was handed to the disk gives its data back in every completion order iff
   every one of its flushes under way brings that data, or none is under way and the disk has it.
   */
  lemma FlushOrderDecides(g: Geometry, m: Image, h: Shadow, turn: nat, off: nat, data: seq<Byte>)
    requires Shaped(g, m) && Past(g, m, turn) && off + |data| <= g.segSize
    ensures AlwaysReadsBack(g, m, h, turn, off, data) <==>
      if OnItsWay(m, Seg(g, turn)) then AllBring(m, Seg(g, turn), off, data)
      else Has(m.disk[Seg(g, turn)], off, data)
  {
    var s := Seg(g, turn);
    if AllBring(m, s, off, data) && (OnItsWay(m, s) || Has(m.disk[s], off, data)) {
      forall es | Possible(g, m, h, es) && LeavesAlone(g, m, h, es, turn, off, |data|) && !OnItsWay(Run(g, m, h, es).0, s)
        ensures ReadsAs(g, Run(g, m, h, es).0, s, off, data)
      {
        RunBrings(g, m, h, es, turn, off, data);
        PastIsNotStaged(g, Run(g, m, h, es).0, turn);
      }
    } else if !OnItsWay(m, s) {
      PastIsNotStaged(g, m, turn);
      assert Possible(g, m, h, []) && !ReadsAs(g, Run(g, m, h, []).0, s, off, data);
    } else {
      var i :| 0 <= i < |m.pending| && m.pending[i].seg == s && !Has(m.pending[i].data, off, data);
      var es := LastToFinish(g, m, h, i, turn, off, |data|);
      PastIsNotStaged(g, m, turn);
      assert !OnItsWay(Run(g, m, h, es).0, s);
      assert !ReadsAs(g, Run(g, m, h, es).0, s, off, data);
    }
  }

  lemma {:induction false} RunKeepsTurn(g: Geometry, m: Image, h: Shadow, es: seq<Event>, turn: nat, off: nat, n: nat)
    requires Possible(g, m, h, es) && LeavesAlone(g, m, h, es, turn, off, n)
    requires turn <= m.alloc.turn && !StagedAgain(g, turn, m.alloc.turn)
    ensures var m' := Run(g, m, h, es).0; turn <= m'.alloc.turn && !StagedAgain(g, turn, m'.alloc.turn)
    decreases |es|
  {
    hide StagedAgain, RoundUp, ShadowAllocated, ShadowWritten;
    if es != [] {
      RunKeepsTurn(g, Step(g, m, h, es[0]).0, Step(g, m, h, es[0]).1, es[1..], turn, off, n);
    }
  }

  /**
   What is written to an extent, after any run that leaves it alone: while its segment is staged it is read back;
   from then on it is read back in every completion order iff the flushes of its segment under way agree on it.
   */
  lemma ExtentReadsBackIff(g: Geometry, m: Image, h: Shadow, off: nat, data: seq<Byte>, es: seq<Event>)
    requires Inv(g, m, h) && Legal(g, m, Put(off, data))
    requires var (m1, h1) := Step(g, m, h, Put(off, data));
      Possible(g, m1, h1, es) && LeavesAlone(g, m1, h1, es, m.alloc.turn, off, |data|)
    ensures var (m1, h1) := Step(g, m, h, Put(off, data));
      var (m', h') := Run(g, m1, h1, es);
      var s := Seg(g, m.alloc.turn);
      && Shaped(g, m')
      && (s == Seg(g, m'.alloc.turn) ==> ReadsAs(g, m', s, off, data))
      && (s != Seg(g, m'.alloc.turn) ==>
           (AlwaysReadsBack(g, m', h', m.alloc.turn, off, data) <==>
              if OnItsWay(m', s) then AllBring(m', s, off, data) else Has(m'.disk[s], off, data)))
  {
    var (m1, h1) := Step(g, m, h, Put(off, data));
    ExtentReadsBack(g, m, h, off, data, es);
    assert !StagedAgain(g, m.alloc.turn, m.alloc.turn);
    assert m1.alloc == m.alloc && off + |data| <= g.segSize;
    hide Step, Legal, StagedAgain, Seg, Inv, AlwaysReadsBack, AllBring, Has, Settled;
    RunKeepsTurn(g, m1, h1, es, m.alloc.turn, off, |data|);
    var (m', h') := Run(g, m1, h1, es);
    if Seg(g, m.alloc.turn) != Seg(g, m'.alloc.turn) {
      FlushOrderDecides(g, m', h', m.alloc.turn, off, data);
    }
  }

  /**
   What can be checked before an allocation hands the staged segment over: its data will come back in every
   completion order iff every earlier flush of the same segment still under way brings the same bytes.
   */
  lemma HandOverDecides(g: Geometry, m: Image, h: Shadow, size: nat, clean: seq<Byte>, off: nat, data: seq<Byte>)
    requires Shaped(g, m) && |clean| == g.segSize && NeedsStaging(g, m, size) && 1 < g.segs
    requires Has(m.buf, off, data)
    ensures var (m', h') := Step(g, m, h, Alloc(size, clean));
      AlwaysReadsBack(g, m', h', m.alloc.turn, off, data) <==> AllBring(m, Seg(g, m.alloc.turn), off, data)
  {
    var turn := m.alloc.turn;
    var (m', h') := Step(g, m, h, Alloc(size, clean));
    NextSegmentDiffers(g, turn);
    hide Seg, StagedAgain, RoundUp, Has;
    var s := Seg(g, turn);
    assert m'.pending[|m.pending|] == Flush(s, m.buf);
    assert forall i :: 0 <= i < |m.pending| ==> m'.pending[i] == m.pending[i];
    FlushOrderDecides(g, m', h', turn, off, data);
  }

  lemma NextSegmentDiffers(g: Geometry, turn: nat)
    requires 1 < g.segs
    ensures !StagedAgain(g, turn, turn + 1)
  {
    Quotient(turn, g.segs);
    Quotient(turn + 1, g.segs);
    if Seg(g, turn) == Seg(g, turn + 1) {
      assert g.segs * ((turn + 1) / g.segs) == g.segs * (turn / g.segs) + 1;
      if turn / g.segs < (turn + 1) / g.segs { Gap(g.segs, turn / g.segs, (turn + 1) / g.segs); }
      if (turn + 1) / g.segs < turn / g.segs { Gap(g.segs, (turn + 1) / g.segs, turn / g.segs); }
    }
  }

  // ---------- A run that loses data

  lemma Unroll(g: Geometry, m: Image, h: Shadow, es: seq<Event>, m': Image, h': Shadow)
    requires es != [] && Legal(g, m, es[0]) && Step(g, m, h, es[0]) == (m', h') && Possible(g, m', h', es[1..])
    ensures Possible(g, m, h, es) && Run(g, m, h, es) == Run(g, m', h', es[1..])
  {
  }

  /** Up to the second staging of segment 0, with the flush of its first contents still under way. */
  const PRELUDE: seq<Event> := [Alloc(1, [0]), Put(0, [7]), Alloc(1, [0]), Alloc(1, [0])]

  /** Its second contents are handed over, and the three flushes complete in reverse order. */
  const REVERSED: seq<Event> := [Alloc(1, [0]), Done(2), Done(1), Done(0)]

  /** The pieces of the image that the run changes. */
  function At(turn: nat, buf: Byte, pending: seq<Flush>, disk0: Byte): (m: Image) {
    Image(State(turn, 1), [buf], pending, [[disk0], [0]])
  }

  lemma PreludeRuns(g: Geometry)
    requires g == Shape(1, 1, 2)
    ensures Possible(g, Initial(g), Shadow(map[], {}), PRELUDE)
    ensures Run(g, Initial(g), Shadow(map[], {}), PRELUDE).0 == At(2, 0, [Flush(0, [7]), Flush(1, [0])], 0)
  {
    var h := Shadow(map[], {});
    var m0 := Initial(g);
    var (m1, h1) := Step(g, m0, h, PRELUDE[0]);
    var (m2, h2) := Step(g, m1, h1, PRELUDE[1]);
    var (m3, h3) := Step(g, m2, h2, PRELUDE[2]);
    var (m4, h4) := Step(g, m3, h3, PRELUDE[3]);
    assert m1 == At(0, 0, [], 0);
    assert m2 == At(0, 7, [], 0);
    assert m3 == At(1, 0, [Flush(0, [7])], 0);
    assert m4 == At(2, 0, [Flush(0, [7]), Flush(1, [0])], 0);
    hide Step, Legal;
    Unroll(g, m3, h3, PRELUDE[3..], m4, h4);
    Unroll(g, m2, h2, PRELUDE[2..], m3, h3);
    Unroll(g, m1, h1, PRELUDE[1..], m2, h2);
    Unroll(g, m0, h, PRELUDE, m1, h1);
  }

  lemma ReversedRuns(g: Geometry, h: Shadow)
    requires g == Shape(1, 1, 2)
    ensures var m := At(2, 9, [Flush(0, [7]), Flush(1, [0])], 0);
      && Possible(g, m, h, REVERSED) && LeavesAlone(g, m, h, REVERSED, 2, 0, 1)
      && Run(g, m, h, REVERSED).0 == At(3, 0, [], 7)
      && ((0, 0) in h.flat ==> (0, 0) in Run(g, m, h, REVERSED).1.flat)
      && ((0, 0) in h.flat ==> Run(g, m, h, REVERSED).1.flat[(0, 0)] == h.flat[(0, 0)])
  {
    var m0 := At(2, 9, [Flush(0, [7]), Flush(1, [0])], 0);
    var (m1, h1) := Step(g, m0, h, REVERSED[0]);
    var (m2, h2) := Step(g, m1, h1, REVERSED[1]);
    var (m3, h3) := Step(g, m2, h2, REVERSED[2]);
    var (m4, h4) := Step(g, m3, h3, REVERSED[3]);
    assert m1 == At(3, 0, [Flush(0, [7]), Flush(1, [0]), Flush(0, [9])], 0);
    assert m2 == At(3, 0, [Flush(0, [7]), Flush(1, [0])], 9);
    assert m3 == At(3, 0, [Flush(0, [7])], 9);
    assert m4 == At(3, 0, [], 7);
    assert !StagedAgain(g, 2, 3) by { assert Seg(g, 2) == 0 && Seg(g, 3) == 1; }
    assert (0, 0) in h.flat ==> (0, 0) in h1.flat && h1.flat[(0, 0)] == h.flat[(0, 0)] by { assert Seg(g, 3) == 1; }
    hide Step, Legal, StagedAgain, Seg;
    assert LeavesAlone(g, m4, h4, REVERSED[4..], 2, 0, 1);
    Unroll(g, m3, h3, REVERSED[3..], m4, h4);
    Unroll(g, m2, h2, REVERSED[2..], m3, h3);
    Unroll(g, m1, h1, REVERSED[1..], m2, h2);
    Unroll(g, m0, h, REVERSED, m1, h1);
  }

  lemma SecondContents(g: Geometry, h: Shadow)
    requires g == Shape(1, 1, 2)
    ensures var m := At(2, 0, [Flush(0, [7]), Flush(1, [0])], 0);
      && Legal(g, m, Put(0, [9]))
      && var (m1, h1) := Step(g, m, h, Put(0, [9]));
      && m1 == At(2, 9, m.pending, 0) && (0, 0) in h1.flat && h1.flat[(0, 0)] == 9
    ensures ReadsAs(g, At(3, 0, [], 7), 0, 0, [7])
  {
    assert Seg(g, 2) == 0 && Seg(g, 3) == 1;
  }

  /**
   A run from the fresh device that loses data: both flushes of segment 0 are under way at once and complete in
   the wrong order. Nothing is pending any more, and the disk holds the older byte.
   */
  lemma RacingFlushesLoseData(g: Geometry)
    requires g == Shape(1, 1, 2)
    ensures Possible(g, Initial(g), Shadow(map[], {}), PRELUDE)
    ensures var (m, h) := Run(g, Initial(g), Shadow(map[], {}), PRELUDE);
      && Legal(g, m, Put(0, [9]))
      && var (m1, h1) := Step(g, m, h, Put(0, [9]));
      && Possible(g, m1, h1, REVERSED) && LeavesAlone(g, m1, h1, REVERSED, m.alloc.turn, 0, 1)
      && var (m2, h2) := Run(g, m1, h1, REVERSED);
      && m2.pending == [] && (0, 0) in h2.flat && h2.flat[(0, 0)] == 9
      && ReadsAs(g, m2, 0, 0, [7])
  {
    hide Run, Possible, LeavesAlone, ShadowWritten, ReadsAs;
    PreludeRuns(g);
    var (m, h) := Run(g, Initial(g), Shadow(map[], {}), PRELUDE);
    SecondContents(g, h);
    var (m1, h1) := Step(g, m, h, Put(0, [9]));
    hide Step, Legal, At;
    ReversedRuns(g, h1);
  }
}
