/** The device abstraction as the program keeps it: segments with absolute offsets, one staged buffer, a disk. */
module Device {
  import opened Common
  import opened Multiples
  import opened Allocator
  import opened DeviceModel

  datatype SegState = Free | InStage | Used

  datatype Segment = Segment(state: SegState, start: nat, end: nat, offset: nat)

  /** First byte of a segment. */
  function SegStart(g: Geometry, i: nat): (r: nat) { i * g.segSize }

  /** An allocation, once there is room in the staged segment: the address it hands out and what it takes. */
  lemma AllocationIs(g: Geometry, m: Image, size: nat, clean: seq<Byte>)
    ensures var n := if NeedsStaging(g, m, size) then Staged(Submitted(g, m), clean) else m;
      && Allocated(g, m, size, clean) == n.(alloc := State(n.alloc.turn, n.alloc.used + RoundUp(size, g.grain)))
      && Pba(g, Next(g, m.alloc, size).1) == (SegStart(g, Seg(g, n.alloc.turn)) + n.alloc.used) / g.grain
  {
    hide Seg, RoundUp;
  }

  lemma NextTurn(g: Geometry, turn: nat)
    ensures (Seg(g, turn) + 1) % g.segs == Seg(g, turn + 1)
  {
    Quotient(turn, g.segs);
    Remainder(g.segs, turn / g.segs, 0);
    SumWithMultiple(g.segs * (turn / g.segs), turn % g.segs + 1, g.segs);
  }

  /** In the first round the segment staged in a turn is the one of that number. */
  lemma TurnIsUsed(g: Geometry, turn: nat)
    ensures Seg(g, turn) <= turn && (turn < g.segs ==> Seg(g, turn) == turn)
  {
    Quotient(turn, g.segs);
  }

  class Dev {
    const g: Geometry
    const seg: array<Segment>
    const disk: array<seq<Byte>>
    var idx: nat
    var buf: array<Byte>
    var pending: seq<Flush>
    /** Number of stagings so far. */
    ghost var turn: nat

    /** The segments in their places on the device, and the one staged in this turn. */
    ghost predicate Layout()
      reads this, seg
    {
      && seg.Length == g.segs && disk.Length == g.segs && buf.Length == g.segSize
      && idx == Seg(g, turn)
      && forall i :: 0 <= i < seg.Length ==>
           seg[i].start == SegStart(g, i) && seg[i].end == seg[i].start + g.segSize && seg[i].start <= seg[i].offset
    }

    /** The segment of this turn is in the given state, those of earlier turns are used, and the rest is free. */
    ghost predicate States(current: SegState)
      reads this, seg
    {
      forall i :: 0 <= i < seg.Length ==>
        seg[i].state == if i == idx then current else if i < turn then Used else Free
    }

    ghost predicate Valid()
      reads this, seg
    {
      Layout() && States(InStage)
    }

    /** What the model sees of this device. */
    ghost function View(): (r: Image)
      requires Layout()
      reads this, seg, buf, disk
    {
      Image(State(turn, seg[idx].offset - seg[idx].start), buf[..], pending, disk[..])
    }

    constructor (g: Geometry)
      ensures Valid() && fresh(seg) && fresh(disk) && fresh(buf)
      ensures this.g == g && View() == Initial(g)
    {
      this.g := g;
      seg := new Segment[g.segs](i requires 0 <= i =>
        Segment(if i == 0 then InStage else Free, SegStart(g, i), SegStart(g, i) + g.segSize, SegStart(g, i)));
      disk := new seq<Byte>[g.segs](_ => seq(g.segSize, _ => 0));
      buf := new Byte[g.segSize](_ => 0);
      idx, turn, pending := 0, 0, [];
    }

    /** 0 when the address lies in the written part of the staged segment, else -1 or 1. */
    method IsStaged(pba: nat) returns (r: int)
      requires Valid()
      ensures r == -1 <==> pba * g.grain < SegStart(g, idx)
      ensures r == 1 <==> SegStart(g, idx) + View().alloc.used <= pba * g.grain
      ensures r == 0 <==> SegStart(g, idx) <= pba * g.grain < SegStart(g, idx) + View().alloc.used
    {
      hide SegStart;
      var addr := pba * g.grain;
      if addr < seg[idx].start { return -1; }
      else if addr >= seg[idx].offset { return 1; }
      else { return 0; }
    }

    /** Stages the segment after this one, round the device, with a new buffer. */
    method StageNextSegment()
      requires Layout() && States(Used)
      modifies this`idx, this`turn, this`buf, seg
      ensures Valid() && fresh(buf)
      ensures View() == Staged(old(View()), buf[..])
    {
      hide SegStart, Seg;
      NextTurn(g, turn);
      TurnIsUsed(g, turn);
      idx, turn := (idx + 1) % g.segs, turn + 1;
      seg[idx] := seg[idx].(state := InStage, offset := seg[idx].start);
      buf := new Byte[g.segSize](_ => 0);
    }

    /** The full segment's buffer goes to the asynchronous write, and the next segment is staged. */
    method FlushAndStage()
      requires Valid()
      modifies this`idx, this`turn, this`buf, this`pending, seg
      ensures Valid() && fresh(buf)
      ensures View() == Staged(Submitted(g, old(View())), buf[..])
    {
      seg[idx] := seg[idx].(state := Used);
      pending := pending + [Flush(idx, buf[..])];
      StageNextSegment();
    }

    /** The size padded to whole grains. */
    method Pad(size: nat) returns (padded: nat)
      ensures padded == RoundUp(size, g.grain)
    {
      padded := size;
      if size % g.grain != 0 { padded := size + (g.grain - size % g.grain); }
    }

    /** A segment that cannot take the request is flushed, and the next one staged. */
    method MakeRoom(size: nat)
      requires Valid()
      modifies this`idx, this`turn, this`buf, this`pending, seg
      ensures Valid() && (buf == old(buf) || fresh(buf))
      ensures View() == if NeedsStaging(g, old(View()), size) then Staged(Submitted(g, old(View())), buf[..]) else old(View())
    {
      hide Seg, States, SegStart;
      if seg[idx].offset + size > seg[idx].end {
        FlushAndStage();
      }
    }

    /** Hands out the next extent; a segment that cannot take it is flushed and the next one staged. */
    method GetNextPba(size: nat) returns (pba: nat)
      requires Valid()
      modifies this`idx, this`turn, this`buf, this`pending, seg
      ensures Valid() && (buf == old(buf) || fresh(buf))
      ensures View() == Allocated(g, old(View()), size, buf[..])
      ensures pba == Pba(g, Next(g, old(View()).alloc, size).1)
    {
      hide Seg, RoundUp, States, SegStart, Pba, Next, Allocated, NeedsStaging, Staged, Submitted;
      ghost var before := View();
      MakeRoom(size);
      AllocationIs(g, before, size, buf[..]);
      pba := seg[idx].offset / g.grain;
      var padded := Pad(size);
      Take(padded);
    }

    /** The next bytes of the staged segment are given away. */
    method Take(size: nat)
      requires Valid()
      modifies seg
      ensures Valid() && View() == old(View()).(alloc := State(turn, old(View()).alloc.used + size))
    {
      hide SegStart, Seg;
      seg[idx] := seg[idx].(offset := seg[idx].offset + size);
    }

    /** Copies a block into the staged buffer; the caller's extent must lie there. */
    method Write(pba: nat, grains: nat, data: array<Byte>, ghost off: nat)
      requires Valid() && data != buf && data.Length == grains * g.grain
      requires pba * g.grain == SegStart(g, idx) + off && off + data.Length <= g.segSize
      modifies buf
      ensures Valid() && View() == Written(old(View()), off, data[..])
    {
      hide SegStart, Seg;
      var size := grains * g.grain;
      var at := pba * g.grain - seg[idx].start;
      for i := 0 to size
        invariant forall j :: 0 <= j < buf.Length ==>
          buf[j] == if at <= j < at + i then data[j - at] else old(buf[j])
      {
        buf[at + i] := data[i];
      }
    }

    /**
     How both indexes store a record or a table: allocate, then write whole grains, no more than asked for, at
     the address just obtained. The write always lands inside the staged buffer.
     */
    method Append(size: nat, grains: nat, data: array<Byte>) returns (pba: nat, ghost clean: seq<Byte>)
      requires Valid() && Aligned(g, View().alloc) && size <= g.segSize
      requires data != buf && data.Length == grains * g.grain <= size
      modifies this`idx, this`turn, this`buf, this`pending, seg, buf
      ensures Valid() && |clean| == g.segSize
      ensures var e := Next(g, old(View()).alloc, size).1;
        && pba == Pba(g, e)
        && e.start + data.Length <= g.segSize
        && View() == Written(Allocated(g, old(View()), size, clean), e.start, data[..])
    {
      ghost var e := Next(g, View().alloc, size).1;
      BlockFitsItsExtent(g, View(), size, buf[..], data[..]);
      hide RoundUp, Seg, Pba, Next, Aligned, Legal;
      pba := GetNextPba(size);
      clean := buf[..];
      Write(pba, grains, data, e.start);
    }

    /** Reads a block from the staged buffer, or from the disk when it is not in the written part of it. */
    method Read(pba: nat, grains: nat, ghost s: nat, ghost off: nat) returns (data: seq<Byte>)
      requires Valid() && Shaped(g, View()) && View().alloc.used <= g.segSize && s < g.segs && off < g.segSize
      requires pba * g.grain == SegStart(g, s) + off && off + grains * g.grain <= g.segSize
      ensures data == ReadBytes(g, View(), s, off, grains * g.grain)
    {
      var size := grains * g.grain;
      var addr := pba * g.grain;
      AddressInSegment(g, s, off);
      assert s < idx ==> SegStart(g, s) + g.segSize <= SegStart(g, idx) by { if s < idx { LaterSegment(g, s, idx); } }
      assert idx < s ==> SegStart(g, idx) + g.segSize <= SegStart(g, s) by { if idx < s { LaterSegment(g, idx, s); } }
      assert addr / g.segSize == s && addr % g.segSize == off;
      hide SegStart, Seg;
      var staged := IsStaged(pba);
      if staged == 0 {
        data := buf[addr - seg[idx].start..addr - seg[idx].start + size];
      } else {
        data := disk[addr / g.segSize][addr % g.segSize..addr % g.segSize + size];
      }
    }

    /** The i-th flush under way has completed. */
    method FlushDone(i: nat)
      requires Valid() && i < |pending| && pending[i].seg < disk.Length
      modifies this`pending, disk
      ensures Valid() && View() == Completed(old(View()), i)
    {
      disk[pending[i].seg] := pending[i].data;
      pending := pending[..i] + pending[i + 1..];
    }
  }
}
