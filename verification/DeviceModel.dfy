/**
 What the staged buffer, the flushes under way and the disk hold together: reads of settled segments
 return what was last written. Bytes are addressed by segment and position.
 */
module DeviceModel {
  import opened Common
  import opened Multiples
  import opened Allocator

  /** A segment buffer handed to the asynchronous write, not yet on disk. */
  datatype Flush = Flush(seg: nat, data: seq<Byte>)

  /** The allocator's position, the staged buffer, the flushes under way, the segments on disk. */
  datatype Image = Image(alloc: State, buf: seq<Byte>, pending: seq<Flush>, disk: seq<seq<Byte>>)

  /** The reference: each byte last written since its segment was staged, and the segments whose flushes raced. */
  datatype Shadow = Shadow(flat: map<(nat, nat), Byte>, raced: set<nat>)

  function Initial(g: Geometry): (r: Image) {
    Image(State(0, 0), seq(g.segSize, _ => 0), [], seq(g.segs, _ => seq(g.segSize, _ => 0)))
  }

  // ---------- Operations on the image

  /** The staged buffer is submitted for writing. */
  function Submitted(g: Geometry, m: Image): (r: Image) {
    m.(pending := m.pending + [Flush(Seg(g, m.alloc.turn), m.buf)])
  }

  /** The next segment is staged with a fresh buffer. */
  function Staged(m: Image, clean: seq<Byte>): (r: Image) {
    m.(alloc := State(m.alloc.turn + 1, 0), buf := clean)
  }

  predicate NeedsStaging(g: Geometry, m: Image, size: nat) { m.alloc.used + size > g.segSize }

  function Allocated(g: Geometry, m: Image, size: nat, clean: seq<Byte>): (r: Image) {
    var n := if NeedsStaging(g, m, size) then Staged(Submitted(g, m), clean) else m;
    n.(alloc := n.alloc.(used := n.alloc.used + RoundUp(size, g.grain)))
  }

  /** Bytes written into the staged segment at position off. */
  function Written(m: Image, off: nat, data: seq<Byte>): (r: Image)
    requires off + |data| <= |m.buf|
  {
    m.(buf := m.buf[..off] + data + m.buf[off + |data|..])
  }

  /** The i-th flush under way reaches the disk; the order is the device's choice. */
  function Completed(m: Image, i: nat): (r: Image)
    requires i < |m.pending| && m.pending[i].seg < |m.disk|
  {
    m.(pending := m.pending[..i] + m.pending[i + 1..], disk := m.disk[m.pending[i].seg := m.pending[i].data])
  }

  /** n bytes at position off of segment s: from the buffer when below the staged offset, else from disk. */
  function ReadBytes(g: Geometry, m: Image, s: nat, off: nat, n: nat): (r: seq<Byte>)
    requires off + n <= g.segSize == |m.buf| && s < |m.disk| && |m.disk[s]| == g.segSize
    ensures |r| == n
  {
    if s == Seg(g, m.alloc.turn) && off < m.alloc.used then m.buf[off..off + n] else m.disk[s][off..off + n]
  }

  // ---------- The same operations on the reference

  ghost predicate OnItsWay(m: Image, s: nat) {
    exists i :: 0 <= i < |m.pending| && m.pending[i].seg == s
  }

  ghost function ShadowSubmitted(g: Geometry, m: Image, h: Shadow): (r: Shadow) {
    var s := Seg(g, m.alloc.turn);
    h.(raced := if OnItsWay(m, s) then h.raced + {s} else h.raced - {s})
  }

  ghost function ShadowStaged(g: Geometry, m: Image, h: Shadow): (r: Shadow) {
    h.(flat := map x | x in h.flat && x.0 != Seg(g, m.alloc.turn + 1) :: h.flat[x])
  }

  ghost function ShadowAllocated(g: Geometry, m: Image, h: Shadow, size: nat): (r: Shadow) {
    if NeedsStaging(g, m, size) then ShadowStaged(g, m, ShadowSubmitted(g, m, h)) else h
  }

  ghost function ShadowWritten(g: Geometry, m: Image, h: Shadow, off: nat, data: seq<Byte>): (r: Shadow)
    ensures r.raced == h.raced
    ensures forall s: nat, o: nat :: (s, o) in r.flat <==>
      (s, o) in h.flat || (s == Seg(g, m.alloc.turn) && off <= o < off + |data|)
    ensures forall s: nat, o: nat :: (s, o) in r.flat ==>
      (r.flat[(s, o)] ==
         if s == Seg(g, m.alloc.turn) && off <= o < off + |data| then data[o - off] else h.flat[(s, o)])
  {
    var s := Seg(g, m.alloc.turn);
    h.(flat := h.flat + map o: nat | off <= o < off + |data| :: (s, o) := data[o - off])
  }

  // ---------- Invariant

  ghost predicate Shaped(g: Geometry, m: Image) {
    && |m.buf| == g.segSize && |m.disk| == g.segs
    && (forall s :: 0 <= s < |m.disk| ==> |m.disk[s]| == g.segSize)
    && (forall i :: 0 <= i < |m.pending| ==> m.pending[i].seg < g.segs && |m.pending[i].data| == g.segSize)
  }

  /** The bytes agree with everything the reference knows about segment s. */
  ghost predicate Carries(h: Shadow, s: nat, data: seq<Byte>) {
    forall o: nat :: (s, o) in h.flat ==> o < |data| && data[o] == h.flat[(s, o)]
  }

  /** Nothing is on its way to the segment, and the last flush that arrived was its last one. */
  ghost predicate Settled(m: Image, h: Shadow, s: nat) { s !in h.raced && !OnItsWay(m, s) }

  ghost predicate StagedOk(g: Geometry, m: Image, h: Shadow) {
    && Carries(h, Seg(g, m.alloc.turn), m.buf)
    && forall o: nat :: (Seg(g, m.alloc.turn), o) in h.flat ==> o < m.alloc.used
  }

  ghost predicate PendingOk(g: Geometry, m: Image, h: Shadow) {
    && (forall i, j :: 0 <= i < |m.pending| && 0 <= j < |m.pending| && m.pending[i].seg == m.pending[j].seg ==>
         i == j || m.pending[i].seg in h.raced)
    && (forall i :: 0 <= i < |m.pending| && m.pending[i].seg != Seg(g, m.alloc.turn) && m.pending[i].seg !in h.raced ==>
         Carries(h, m.pending[i].seg, m.pending[i].data))
  }

  ghost predicate DiskOk(g: Geometry, m: Image, h: Shadow) {
    forall s :: 0 <= s < |m.disk| && s != Seg(g, m.alloc.turn) && Settled(m, h, s) ==> Carries(h, s, m.disk[s])
  }

  ghost predicate Inv(g: Geometry, m: Image, h: Shadow) {
    Shaped(g, m) && Aligned(g, m.alloc) && StagedOk(g, m, h) && PendingOk(g, m, h) && DiskOk(g, m, h)
  }

  lemma InitialInv(g: Geometry)
    ensures Inv(g, Initial(g), Shadow(map[], {}))
  {
  }

  // ---------- Each operation keeps it

  /** Once submitted, the staged segment is covered by its flush, unless two of them race. */
  ghost predicate Covered(g: Geometry, m: Image, h: Shadow) {
    && OnItsWay(m, Seg(g, m.alloc.turn))
    && forall i :: 0 <= i < |m.pending| && m.pending[i].seg == Seg(g, m.alloc.turn) && m.pending[i].seg !in h.raced ==>
         Carries(h, m.pending[i].seg, m.pending[i].data)
  }

  lemma SubmitKeepsInv(g: Geometry, m: Image, h: Shadow)
    requires Inv(g, m, h)
    ensures Inv(g, Submitted(g, m), ShadowSubmitted(g, m, h))
    ensures Covered(g, Submitted(g, m), ShadowSubmitted(g, m, h))
  {
    hide Seg;
    var m', h' := Submitted(g, m), ShadowSubmitted(g, m, h);
    assert m'.pending[|m.pending|].seg == Seg(g, m.alloc.turn);
    assert forall i :: 0 <= i < |m.pending| ==> m'.pending[i] == m.pending[i];
    forall s: nat | Settled(m', h', s)
      ensures Settled(m, h, s)
    {
      assert !OnItsWay(m', s);
    }
  }

  lemma StageKeepsInv(g: Geometry, m: Image, h: Shadow, clean: seq<Byte>)
    requires Inv(g, m, h) && Covered(g, m, h) && |clean| == g.segSize
    ensures Inv(g, Staged(m, clean), ShadowStaged(g, m, h))
  {
    hide Seg;
    var m', h' := Staged(m, clean), ShadowStaged(g, m, h);
    assert forall s: nat, d :: Carries(h, s, d) ==> Carries(h', s, d);
  }

  lemma AdvanceKeepsInv(g: Geometry, m: Image, h: Shadow, used: nat)
    requires Inv(g, m, h) && m.alloc.used <= used && used % g.grain == 0
    ensures Inv(g, m.(alloc := m.alloc.(used := used)), h)
  {
    hide Seg, Carries;
  }

  lemma AllocateKeepsInv(g: Geometry, m: Image, h: Shadow, size: nat, clean: seq<Byte>)
    requires Inv(g, m, h) && Aligned(g, m.alloc) && |clean| == g.segSize
    ensures Inv(g, Allocated(g, m, size, clean), ShadowAllocated(g, m, h, size))
  {
    hide Seg, RoundUp, Inv, Covered;
    NextIsAligned(g, m.alloc, size);
    if NeedsStaging(g, m, size) {
      SubmitKeepsInv(g, m, h);
      StageKeepsInv(g, Submitted(g, m), ShadowSubmitted(g, m, h), clean);
      AdvanceKeepsInv(g, Staged(Submitted(g, m), clean), ShadowAllocated(g, m, h, size), RoundUp(size, g.grain));
    } else {
      AdvanceKeepsInv(g, m, h, m.alloc.used + RoundUp(size, g.grain));
    }
  }

  /** A write says nothing about other segments. */
  lemma WriteElsewhere(g: Geometry, m: Image, h: Shadow, off: nat, data: seq<Byte>, s: nat, d: seq<Byte>)
    requires s != Seg(g, m.alloc.turn) && Carries(h, s, d)
    ensures Carries(ShadowWritten(g, m, h, off, data), s, d)
  {
    hide Seg;
  }

  lemma WriteStaged(g: Geometry, m: Image, h: Shadow, off: nat, data: seq<Byte>)
    requires StagedOk(g, m, h) && |m.buf| == g.segSize
    requires off + |data| <= m.alloc.used && off + |data| <= g.segSize
    ensures StagedOk(g, Written(m, off, data), ShadowWritten(g, m, h, off, data))
  {
    hide Seg;
    var buf := Written(m, off, data).buf;
    assert forall o :: 0 <= o < |buf| ==> buf[o] == if off <= o < off + |data| then data[o - off] else m.buf[o];
    hide Written;
  }

  lemma WritePending(g: Geometry, m: Image, h: Shadow, off: nat, data: seq<Byte>)
    requires PendingOk(g, m, h) && off + |data| <= |m.buf|
    ensures PendingOk(g, Written(m, off, data), ShadowWritten(g, m, h, off, data))
  {
    hide Seg, Carries;
    forall i | 0 <= i < |m.pending| && m.pending[i].seg != Seg(g, m.alloc.turn) && m.pending[i].seg !in h.raced
      ensures Carries(ShadowWritten(g, m, h, off, data), m.pending[i].seg, m.pending[i].data)
    {
      WriteElsewhere(g, m, h, off, data, m.pending[i].seg, m.pending[i].data);
    }
  }

  lemma WriteDisk(g: Geometry, m: Image, h: Shadow, off: nat, data: seq<Byte>)
    requires DiskOk(g, m, h) && off + |data| <= |m.buf|
    ensures DiskOk(g, Written(m, off, data), ShadowWritten(g, m, h, off, data))
  {
    hide Seg, Carries;
    var m', h' := Written(m, off, data), ShadowWritten(g, m, h, off, data);
    assert m'.pending == m.pending && m'.disk == m.disk && m'.alloc == m.alloc && h'.raced == h.raced;
    forall s: nat | s < |m.disk| && s != Seg(g, m.alloc.turn) && Settled(m', h', s)
      ensures Carries(h', s, m.disk[s])
    {
      assert Settled(m, h, s);
      WriteElsewhere(g, m, h, off, data, s, m.disk[s]);
    }
  }

  lemma WriteKeepsInv(g: Geometry, m: Image, h: Shadow, off: nat, data: seq<Byte>)
    requires Inv(g, m, h) && off + |data| <= m.alloc.used && off + |data| <= g.segSize
    ensures Inv(g, Written(m, off, data), ShadowWritten(g, m, h, off, data))
  {
    hide Seg, StagedOk, PendingOk, DiskOk, ShadowWritten;
    WriteStaged(g, m, h, off, data);
    WritePending(g, m, h, off, data);
    WriteDisk(g, m, h, off, data);
  }

  /** A finished flush leaves those of other segments under way. */
  lemma OthersStayOnTheirWay(m: Image, i: nat, s: nat)
    requires i < |m.pending| && m.pending[i].seg < |m.disk| && s != m.pending[i].seg && OnItsWay(m, s)
    ensures OnItsWay(Completed(m, i), s)
  {
    var j :| 0 <= j < |m.pending| && m.pending[j].seg == s;
    assert Completed(m, i).pending[if j < i then j else j - 1] == m.pending[j];
  }

  lemma CompletePending(g: Geometry, m: Image, h: Shadow, i: nat)
    requires Shaped(g, m) && PendingOk(g, m, h) && i < |m.pending|
    ensures PendingOk(g, Completed(m, i), h)
    ensures m.pending[i].seg !in h.raced ==> !OnItsWay(Completed(m, i), m.pending[i].seg)
  {
    hide Seg, Carries;
    var m' := Completed(m, i);
    assert forall j :: 0 <= j < |m'.pending| ==> m'.pending[j] == m.pending[if j < i then j else j + 1];
  }

  lemma CompleteDisk(g: Geometry, m: Image, h: Shadow, i: nat)
    requires Shaped(g, m) && PendingOk(g, m, h) && DiskOk(g, m, h) && i < |m.pending|
    ensures DiskOk(g, Completed(m, i), h)
  {
    hide Seg, Carries, OnItsWay;
    var m' := Completed(m, i);
    forall s: nat | s < |m'.disk| && s != Seg(g, m.alloc.turn) && Settled(m', h, s)
      ensures Carries(h, s, m'.disk[s])
    {
      if s != m.pending[i].seg {
        if OnItsWay(m, s) { OthersStayOnTheirWay(m, i, s); }
        assert Settled(m, h, s);
      }
    }
  }

  lemma CompleteKeepsInv(g: Geometry, m: Image, h: Shadow, i: nat)
    requires Inv(g, m, h) && i < |m.pending|
    ensures Inv(g, Completed(m, i), h)
  {
    CompletePending(g, m, h, i);
    CompleteDisk(g, m, h, i);
    hide Seg, Carries, PendingOk, DiskOk, OnItsWay;
  }

  // ---------- What reads return

  /** A read of the staged segment, or of a settled one, returns every byte last written there. */
  lemma ReadIsLastWritten(g: Geometry, m: Image, h: Shadow, s: nat, off: nat, n: nat, k: nat)
    requires Inv(g, m, h) && s < g.segs && off + n <= g.segSize && k < n
    requires s == Seg(g, m.alloc.turn) || Settled(m, h, s)
    requires (s, off + k) in h.flat
    ensures ReadBytes(g, m, s, off, n)[k] == h.flat[(s, off + k)]
  {
    assert Carries(h, s, if s == Seg(g, m.alloc.turn) then m.buf else m.disk[s]);
  }

  // ---------- Runs

  /** An allocation with the buffer that staging would bring in, a write below the offset, a finished flush. */
  datatype Event = Alloc(size: nat, clean: seq<Byte>) | Put(off: nat, data: seq<Byte>) | Done(i: nat)

  ghost predicate Legal(g: Geometry, m: Image, e: Event) {
    match e
    case Alloc(_, clean) => |clean| == g.segSize
    case Put(off, data) => off + |data| <= m.alloc.used && off + |data| <= |m.buf|
    case Done(i) => i < |m.pending| && m.pending[i].seg < |m.disk|
  }

  ghost function Step(g: Geometry, m: Image, h: Shadow, e: Event): (r: (Image, Shadow))
    requires Legal(g, m, e)
  {
    match e
    case Alloc(size, clean) => (Allocated(g, m, size, clean), ShadowAllocated(g, m, h, size))
    case Put(off, data) => (Written(m, off, data), ShadowWritten(g, m, h, off, data))
    case Done(i) => (Completed(m, i), h)
  }

  lemma StepKeepsInv(g: Geometry, m: Image, h: Shadow, e: Event)
    requires Inv(g, m, h) && Legal(g, m, e)
    ensures Inv(g, Step(g, m, h, e).0, Step(g, m, h, e).1)
  {
    match e
    case Alloc(size, clean) => AllocateKeepsInv(g, m, h, size, clean);
    case Put(off, data) => WriteKeepsInv(g, m, h, off, data);
    case Done(i) => CompleteKeepsInv(g, m, h, i);
  }

  ghost predicate Possible(g: Geometry, m: Image, h: Shadow, es: seq<Event>)
    decreases |es|
  {
    es == [] ||
      (Legal(g, m, es[0]) && Possible(g, Step(g, m, h, es[0]).0, Step(g, m, h, es[0]).1, es[1..]))
  }

  ghost function Run(g: Geometry, m: Image, h: Shadow, es: seq<Event>): (r: (Image, Shadow))
    requires Possible(g, m, h, es)
    decreases |es|
  {
    if es == [] then (m, h) else Run(g, Step(g, m, h, es[0]).0, Step(g, m, h, es[0]).1, es[1..])
  }

  /** The event writes some byte of the extent handed out in the given turn. */
  ghost predicate Touches(m: Image, e: Event, turn: nat, off: nat, n: nat) {
    e.Put? && m.alloc.turn == turn && e.off < off + n && off < e.off + |e.data|
  }

  /** No event of the run touches the extent or stages its segment again. */
  ghost predicate LeavesAlone(g: Geometry, m: Image, h: Shadow, es: seq<Event>, turn: nat, off: nat, n: nat)
    requires Possible(g, m, h, es)
    decreases |es|
  {
    es == [] ||
      (!Touches(m, es[0], turn, off, n)
       && !StagedAgain(g, turn, Step(g, m, h, es[0]).0.alloc.turn)
       && LeavesAlone(g, Step(g, m, h, es[0]).0, Step(g, m, h, es[0]).1, es[1..], turn, off, n))
  }

  /** The reference remembers the bytes of an extent that nobody touches. */
  ghost predicate Remembers(h: Shadow, s: nat, off: nat, data: seq<Byte>) {
    forall o: nat :: off <= o < off + |data| ==> (s, o) in h.flat && h.flat[(s, o)] == data[o - off]
  }

  lemma WriteRemembers(g: Geometry, m: Image, h: Shadow, at: nat, bytes: seq<Byte>, s: nat, off: nat, data: seq<Byte>)
    requires Remembers(h, s, off, data)
    requires s != Seg(g, m.alloc.turn) || at + |bytes| <= off || off + |data| <= at || bytes == [] || data == []
    ensures Remembers(ShadowWritten(g, m, h, at, bytes), s, off, data)
  {
    hide Seg, ShadowWritten;
  }

  lemma StageRemembers(g: Geometry, m: Image, h: Shadow, size: nat, s: nat, off: nat, data: seq<Byte>)
    requires Remembers(h, s, off, data) && (NeedsStaging(g, m, size) ==> s != Seg(g, m.alloc.turn + 1))
    ensures Remembers(ShadowAllocated(g, m, h, size), s, off, data)
  {
    hide Seg;
  }

  lemma StepRemembers(g: Geometry, m: Image, h: Shadow, e: Event, turn: nat, off: nat, data: seq<Byte>)
    requires Inv(g, m, h) && Legal(g, m, e) && !Touches(m, e, turn, off, |data|) && turn <= m.alloc.turn
    requires !StagedAgain(g, turn, Step(g, m, h, e).0.alloc.turn)
    requires Remembers(h, Seg(g, turn), off, data)
    ensures Remembers(Step(g, m, h, e).1, Seg(g, turn), off, data) && turn <= Step(g, m, h, e).0.alloc.turn
  {
    var m' := Step(g, m, h, e).0;
    assert turn < m'.alloc.turn ==> Seg(g, m'.alloc.turn) != Seg(g, turn);
    hide Seg, Inv, RoundUp, Remembers, ShadowWritten, ShadowAllocated, StagedAgain;
    match e
    case Alloc(size, clean) => StageRemembers(g, m, h, size, Seg(g, turn), off, data);
    case Put(at, bytes) => WriteRemembers(g, m, h, at, bytes, Seg(g, turn), off, data);
    case Done(i) =>
  }

  /** Remembered bytes of a readable segment are read back. */
  lemma RememberedIsRead(g: Geometry, m: Image, h: Shadow, s: nat, off: nat, data: seq<Byte>)
    requires Inv(g, m, h) && s < g.segs && off + |data| <= g.segSize && Remembers(h, s, off, data)
    requires s == Seg(g, m.alloc.turn) || Settled(m, h, s)
    ensures ReadBytes(g, m, s, off, |data|) == data
  {
    hide Seg, StagedOk, PendingOk, DiskOk;
    forall k | 0 <= k < |data|
      ensures ReadBytes(g, m, s, off, |data|)[k] == data[k]
    {
      var o := off + k;
      assert (s, o) in h.flat;
      ReadIsLastWritten(g, m, h, s, off, |data|, k);
    }
  }

  lemma {:induction false} RunRemembers(g: Geometry, m: Image, h: Shadow, es: seq<Event>, turn: nat, off: nat, data: seq<Byte>)
    requires Inv(g, m, h) && turn <= m.alloc.turn && Remembers(h, Seg(g, turn), off, data)
    requires Possible(g, m, h, es) && LeavesAlone(g, m, h, es, turn, off, |data|)
    ensures var (m', h') := Run(g, m, h, es);
      Inv(g, m', h') && Remembers(h', Seg(g, turn), off, data)
    decreases |es|
  {
    hide Seg, Inv, Step, Legal, Remembers;
    if es != [] {
      StepKeepsInv(g, m, h, es[0]);
      StepRemembers(g, m, h, es[0], turn, off, data);
      RunRemembers(g, Step(g, m, h, es[0]).0, Step(g, m, h, es[0]).1, es[1..], turn, off, data);
    }
  }

  /**
   What is written to an extent is read back from it after any number of allocations, writes elsewhere and
   finished flushes, as long as its segment is not staged again: from the staged buffer, or from the disk
   once its flush has completed and did not overlap with an earlier flush of the same segment.
   */
  lemma ExtentReadsBack(g: Geometry, m: Image, h: Shadow, off: nat, data: seq<Byte>, es: seq<Event>)
    requires Inv(g, m, h) && Legal(g, m, Put(off, data))
    requires var (m1, h1) := Step(g, m, h, Put(off, data));
      Possible(g, m1, h1, es) && LeavesAlone(g, m1, h1, es, m.alloc.turn, off, |data|)
    ensures var (m1, h1) := Step(g, m, h, Put(off, data));
      var (m', h') := Run(g, m1, h1, es);
      var s := Seg(g, m.alloc.turn);
      && Inv(g, m', h')
      && Shaped(g, m')
      && (s == Seg(g, m'.alloc.turn) || Settled(m', h', s) ==> ReadBytes(g, m', s, off, |data|) == data)
  {
    hide Seg, LeavesAlone, Settled, StagedOk, PendingOk, DiskOk;
    var (m1, h1) := Step(g, m, h, Put(off, data));
    var s := Seg(g, m.alloc.turn);
    StepKeepsInv(g, m, h, Put(off, data));
    assert Remembers(h1, s, off, data);
    RunRemembers(g, m1, h1, es, m.alloc.turn, off, data);
    var (m', h') := Run(g, m1, h1, es);
    if s == Seg(g, m'.alloc.turn) || Settled(m', h', s) {
      RememberedIsRead(g, m', h', s, off, data);
    }
  }

  // ---------- Addresses

  /** The address a write or a read is given names its extent's first byte, counted from its segment's start. */
  lemma AddressInSegment(g: Geometry, s: nat, off: nat)
    requires s < g.segs && off < g.segSize
    ensures (s * g.segSize + off) / g.segSize == s && (s * g.segSize + off) % g.segSize == off
  {
    assert s * g.segSize == g.segSize * s;
    Remainder(g.segSize, s, off);
  }

  /**
   The block written right after its allocation, no longer than what was asked for (the indexes write whole
   grains, rounded down), lies within its own extent and inside the staged segment.
   */
  lemma BlockFitsItsExtent(g: Geometry, m: Image, size: nat, clean: seq<Byte>, data: seq<Byte>)
    requires Aligned(g, m.alloc) && |data| <= size <= g.segSize
    ensures var m', e := Allocated(g, m, size, clean), Next(g, m.alloc, size).1;
      && m'.alloc == Next(g, m.alloc, size).0
      && e.start + |data| <= e.start + e.len == m'.alloc.used <= g.segSize
      && e.turn == m'.alloc.turn && Pba(g, e) * g.grain == Seg(g, e.turn) * g.segSize + e.start
      && (|clean| == |m.buf| == g.segSize ==> Legal(g, m', Put(e.start, data)))
  {
    hide Seg, RoundUp, Aligned;
    StaysInSegment(g, m.alloc, size);
    assert Next(g, m.alloc, size).1.start % g.grain == 0 by { NextIsAligned(g, m.alloc, size); }
    PbaIsExact(g, Next(g, m.alloc, size).1);
    hide Pba;
  }
}
