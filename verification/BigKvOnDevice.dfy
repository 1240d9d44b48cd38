/**
 The BigKV index on the log-structured device: what it writes goes to the extent that the allocator hands out in
 the same dispatch, and what it reads are the bytes that the device has there at that moment.
 */
module BigKvOnDevice {
  import opened Common
  import A = Allocator
  import M = Multiples
  import D = DeviceModel
  import T = PartTable
  import B = TableBytes
  import K = KeyRecord
  import Sets = Bucket
  import S = BigKvStep
  import Cache = BigKvCache
  import R = BigKvRun

  /** The sizes of the index and of the device. */
  datatype Machine = Machine(index: S.Geometry, dev: A.Geometry)

  function Grains(d: A.Geometry): (n: nat) { d.segs * (d.segSize / d.grain) }

  /** One grain size, tables of whole grains, and a device whose grains the address field can count. */
  ghost predicate Fits(c: Machine) {
    c.index.grain == c.dev.grain && B.SLOT_BYTES * c.index.slots % c.dev.grain == 0 && Grains(c.dev) <= T.PBA_INVALID
  }

  /** What the index wrote, and where, is history: neither the index nor the device reads it. */
  datatype World = World(index: S.State, image: D.Image, shadow: D.Shadow, places: map<nat, A.Extent>)

  /** A dispatch, with the bytes it asks the allocator for and the next segment's buffer; or a finished flush. */
  datatype Event = Request(ev: R.Event, size: nat, clean: seq<Byte>) | Done(i: nat)

  function Initial(c: Machine): (w: World) {
    World(R.Initial(c.index), D.Initial(c.dev), D.Shadow(map[], {}), map[])
  }

  /** The extent that the allocator hands out next. */
  function NextExtent(c: Machine, w: World, size: nat): (e: A.Extent) { A.Next(c.dev, w.image.alloc, size).1 }

  // ---------- Reads

  /** What the device returns from a byte on, up to the end of its segment. */
  function ReadFrom(d: A.Geometry, m: D.Image, addr: nat): (r: seq<Byte>) {
    var s, off := addr / d.segSize, addr % d.segSize;
    if s == A.Seg(d, m.alloc.turn) && off < m.alloc.used then (if off <= |m.buf| then m.buf[off..] else [])
    else if s < |m.disk| && off <= |m.disk[s]| then m.disk[s][off..] else []
  }

  /** Flash as the index sees it at this moment: at every address of the device, the bytes read from there on. */
  function Seen(d: A.Geometry, m: D.Image): (flash: S.Store) {
    map a: nat | a < Grains(d) :: ReadFrom(d, m, a * d.grain)
  }

  function Sight(c: Machine, w: World): (s: S.State) { S.State(w.index.parts, Seen(c.dev, w.image)) }

  // ---------- Steps

  /** The image and the reference after bytes were appended. */
  ghost function Appended(c: Machine, w: World, size: nat, clean: seq<Byte>, data: seq<Byte>): (r: (D.Image, D.Shadow))
    requires |clean| == c.dev.segSize
    requires D.Legal(c.dev, D.Step(c.dev, w.image, w.shadow, D.Alloc(size, clean)).0, D.Put(NextExtent(c, w, size).start, data))
  {
    var (m, h) := D.Step(c.dev, w.image, w.shadow, D.Alloc(size, clean));
    D.Step(c.dev, m, h, D.Put(NextExtent(c, w, size).start, data))
  }

  /**
   A dispatch is serial, its address is the allocator's next one and not beyond the last segment, and what it
   writes fits the bytes asked for. Nothing is assumed about the address being unused. The last condition only
   makes the step defined: AppendIsDefined shows that it always holds.
   */
  ghost predicate Legal(c: Machine, keys: set<S.Key>, w: World, e: Event) {
    match e
    case Request(ev, size, clean) =>
      && R.Serial(c.index, keys, w.index, ev)
      && 0 < size <= c.dev.segSize && |clean| == c.dev.segSize
      && A.Next(c.dev, w.image.alloc, size).0.turn < c.dev.segs
      && ev.a == A.Pba(c.dev, NextExtent(c, w, size))
      && var o := R.Dispatch(c.index, Sight(c, w), ev);
        (o.wrote.Some? ==>
          && |o.wrote.value| <= size
          && D.Legal(c.dev, D.Step(c.dev, w.image, w.shadow, D.Alloc(size, clean)).0,
               D.Put(NextExtent(c, w, size).start, o.wrote.value)))
    case Done(i) => D.Legal(c.dev, w.image, D.Done(i))
  }

  /** A dispatch decides on what the device shows it. */
  ghost function Step(c: Machine, keys: set<S.Key>, w: World, e: Event): (r: (World, S.Reply))
    requires Legal(c, keys, w, e)
  {
    match e
    case Request(ev, size, clean) =>
      var o := R.Dispatch(c.index, Sight(c, w), ev);
      var s := S.State(w.index.parts[R.Home(c.index, ev) := o.part], S.Wrote(w.index.store, o, ev.a));
      if o.wrote.None? then (w.(index := s), o.reply)
      else
        var (m, h) := Appended(c, w, size, clean, o.wrote.value);
        (World(s, m, h, w.places[ev.a := NextExtent(c, w, size)]), o.reply)
    case Done(i) =>
      var (m, h) := D.Step(c.dev, w.image, w.shadow, D.Done(i));
      (w.(image := m, shadow := h), S.Working)
  }

  // ---------- Invariant

  /** The bytes of an extent are remembered there, in a part of the log that has been handed out. */
  ghost predicate PlaceOk(c: Machine, m: D.Image, h: D.Shadow, a: nat, e: A.Extent, data: seq<Byte>) {
    && A.Pba(c.dev, e) == a && e.start % c.dev.grain == 0
    && 0 < e.len && e.start + e.len <= c.dev.segSize && |data| <= e.len
    && (e.turn < m.alloc.turn || (e.turn == m.alloc.turn && e.start + e.len <= m.alloc.used))
    && D.Remembers(h, A.Seg(c.dev, e.turn), e.start, data)
  }

  ghost predicate PlacesOk(c: Machine, w: World) {
    && w.places.Keys == w.index.store.Keys
    && forall a :: a in w.places ==> PlaceOk(c, w.image, w.shadow, a, w.places[a], w.index.store[a])
  }

  predicate Zeros(data: seq<Byte>) { forall i :: 0 <= i < |data| ==> data[i] == 0 }

  /** Until the log wraps no segment is flushed twice, and the disk is as it was where no flush has arrived. */
  ghost predicate NoRaces(c: Machine, m: D.Image, h: D.Shadow) {
    && m.alloc.turn < c.dev.segs && h.raced == {}
    && (forall i :: 0 <= i < |m.pending| ==> m.pending[i].seg < m.alloc.turn)
    && (forall s :: 0 <= s < |m.disk| && (m.alloc.turn <= s || D.OnItsWay(m, s)) ==> Zeros(m.disk[s]))
  }

  ghost predicate Inv(c: Machine, w: World) {
    D.Inv(c.dev, w.image, w.shadow) && NoRaces(c, w.image, w.shadow) && PlacesOk(c, w)
  }

  lemma InitialInv(c: Machine)
    ensures Inv(c, Initial(c))
  {
    D.InitialInv(c.dev);
  }

  // ---------- Addresses are fresh

  lemma SegOfTurn(d: A.Geometry, turn: nat)
    requires turn < d.segs
    ensures A.Seg(d, turn) == turn
  {
  }

  /** A later extent begins further on. */
  lemma LaterByte(d: A.Geometry, x: A.Extent, y: A.Extent)
    requires x.turn <= y.turn < d.segs && 0 < x.len && x.start + x.len <= d.segSize
    requires x.turn == y.turn ==> x.start + x.len <= y.start
    ensures A.Addr(d, x) < A.Addr(d, y)
  {
    SegOfTurn(d, x.turn);
    SegOfTurn(d, y.turn);
    if x.turn < y.turn { A.LaterSegment(d, x.turn, y.turn); }
    hide A.Seg;
  }

  lemma LaterAddress(d: A.Geometry, x: A.Extent, y: A.Extent)
    requires x.turn <= y.turn < d.segs && 0 < x.len && x.start + x.len <= d.segSize
    requires x.turn == y.turn ==> x.start + x.len <= y.start
    requires x.start % d.grain == 0 && y.start % d.grain == 0
    ensures A.Pba(d, x) != A.Pba(d, y)
  {
    hide A.Pba, A.Addr;
    A.PbaIsExact(d, x);
    A.PbaIsExact(d, y);
    LaterByte(d, x, y);
  }

  lemma MoreGrains(limit: nat, n: nat, grain: nat)
    requires limit <= n
    ensures limit * grain <= n * grain
  {
    assert n * grain == limit * grain + (n - limit) * grain;
  }

  lemma BytesOfDevice(d: A.Geometry, e: A.Extent)
    requires e.turn < d.segs && e.start < d.segSize
    ensures A.Addr(d, e) < Grains(d) * d.grain
  {
    SegOfTurn(d, e.turn);
    A.LaterSegment(d, e.turn, d.segs);
    M.Quotient(d.segSize, d.grain);
    var perSeg := d.segSize / d.grain;
    assert d.segSize == perSeg * d.grain;
    hide A.Seg;
    assert d.segs * perSeg * d.grain == d.segs * d.segSize;
  }

  /** Addresses of the device stay below the one that stands for none. */
  lemma AddressInField(c: Machine, e: A.Extent)
    requires Fits(c) && e.turn < c.dev.segs && e.start < c.dev.segSize && e.start % c.dev.grain == 0
    ensures A.Pba(c.dev, e) < T.PBA_INVALID
  {
    hide A.Pba, A.Addr;
    var d := c.dev;
    A.PbaIsExact(d, e);
    BytesOfDevice(d, e);
    var grains := Grains(d);
    if grains <= A.Pba(d, e) { MoreGrains(grains, A.Pba(d, e), d.grain); }
  }

  lemma NextIsFresh(c: Machine, w: World, size: nat)
    requires Fits(c) && Inv(c, w) && 0 < size <= c.dev.segSize
    requires A.Next(c.dev, w.image.alloc, size).0.turn < c.dev.segs
    ensures R.Fresh(w.index.store, A.Pba(c.dev, NextExtent(c, w, size)))
  {
    var d, s := c.dev, w.image.alloc;
    var e := NextExtent(c, w, size);
    A.NextIsAligned(d, s, size);
    A.StaysInSegment(d, s, size);
    hide D.Inv, A.Seg, A.RoundUp, D.Remembers;
    AddressInField(c, e);
    var a := A.Pba(d, e);
    if a in w.places {
      assert PlaceOk(c, w.image, w.shadow, a, w.places[a], w.index.store[a]);
      LaterAddress(d, w.places[a], e);
    }
  }

  // ---------- Every step keeps the invariant

  lemma AppendIsDefined(c: Machine, w: World, size: nat, clean: seq<Byte>, data: seq<Byte>)
    requires Inv(c, w) && |data| <= size <= c.dev.segSize && |clean| == c.dev.segSize
    ensures var m := D.Step(c.dev, w.image, w.shadow, D.Alloc(size, clean)).0;
      && m.alloc == A.Next(c.dev, w.image.alloc, size).0
      && D.Legal(c.dev, m, D.Put(NextExtent(c, w, size).start, data))
  {
    D.BlockFitsItsExtent(c.dev, w.image, size, clean, data);
  }

  lemma AllocKeepsNoRaces(d: A.Geometry, c: Machine, m: D.Image, h: D.Shadow, size: nat, clean: seq<Byte>)
    requires d == c.dev && NoRaces(c, m, h) && |clean| == d.segSize && A.Next(d, m.alloc, size).0.turn < d.segs
    ensures var (m', h') := D.Step(d, m, h, D.Alloc(size, clean)); NoRaces(c, m', h')
  {
    SegOfTurn(d, m.alloc.turn);
    hide A.Seg, A.RoundUp;
    var m' := D.Step(d, m, h, D.Alloc(size, clean)).0;
    assert forall i :: 0 <= i < |m.pending| ==> m'.pending[i] == m.pending[i];
  }

  /** Appending a block leaves what other extents hold. */
  lemma OtherPlaceKept(c: Machine, w: World, size: nat, clean: seq<Byte>, data: seq<Byte>, a: nat, e: A.Extent, kept: seq<Byte>)
    requires Inv(c, w) && 0 < size <= c.dev.segSize && |data| <= size && |clean| == c.dev.segSize
    requires A.Next(c.dev, w.image.alloc, size).0.turn < c.dev.segs
    requires PlaceOk(c, w.image, w.shadow, a, e, kept)
    requires D.Legal(c.dev, D.Step(c.dev, w.image, w.shadow, D.Alloc(size, clean)).0, D.Put(NextExtent(c, w, size).start, data))
    ensures var (m, h) := Appended(c, w, size, clean, data); PlaceOk(c, m, h, a, e, kept)
  {
    var d := c.dev;
    AppendIsDefined(c, w, size, clean, data);
    A.StaysInSegment(d, w.image.alloc, size);
    SegOfTurn(d, e.turn);
    SegOfTurn(d, w.image.alloc.turn);
    SegOfTurn(d, A.Next(d, w.image.alloc, size).0.turn);
    hide A.Seg, A.RoundUp, A.Pba, D.Inv, D.Remembers;
    var (m1, h1) := D.Step(d, w.image, w.shadow, D.Alloc(size, clean));
    D.StageRemembers(d, w.image, w.shadow, size, A.Seg(d, e.turn), e.start, kept);
    D.WriteRemembers(d, m1, h1, NextExtent(c, w, size).start, data, A.Seg(d, e.turn), e.start, kept);
  }

  lemma NewPlaceOk(c: Machine, w: World, size: nat, clean: seq<Byte>, data: seq<Byte>)
    requires Inv(c, w) && 0 < size <= c.dev.segSize && |data| <= size && |clean| == c.dev.segSize
    requires D.Legal(c.dev, D.Step(c.dev, w.image, w.shadow, D.Alloc(size, clean)).0, D.Put(NextExtent(c, w, size).start, data))
    ensures var (m, h) := Appended(c, w, size, clean, data);
      PlaceOk(c, m, h, A.Pba(c.dev, NextExtent(c, w, size)), NextExtent(c, w, size), data)
  {
    var d := c.dev;
    AppendIsDefined(c, w, size, clean, data);
    A.StaysInSegment(d, w.image.alloc, size);
    A.NextIsAligned(d, w.image.alloc, size);
    hide A.Seg, A.RoundUp, A.Pba, D.Inv, D.ShadowWritten, D.ShadowAllocated;
  }

  lemma AppendKeepsImage(c: Machine, w: World, size: nat, clean: seq<Byte>, data: seq<Byte>)
    requires Inv(c, w) && |data| <= size <= c.dev.segSize && |clean| == c.dev.segSize
    requires A.Next(c.dev, w.image.alloc, size).0.turn < c.dev.segs
    requires D.Legal(c.dev, D.Step(c.dev, w.image, w.shadow, D.Alloc(size, clean)).0, D.Put(NextExtent(c, w, size).start, data))
    ensures var (m, h) := Appended(c, w, size, clean, data); D.Inv(c.dev, m, h) && NoRaces(c, m, h)
  {
    var d := c.dev;
    assert A.Aligned(d, w.image.alloc);
    hide D.Inv, D.Step, NoRaces, PlacesOk, A.Next;
    var (m1, h1) := D.Step(d, w.image, w.shadow, D.Alloc(size, clean));
    D.StepKeepsInv(d, w.image, w.shadow, D.Alloc(size, clean));
    D.StepKeepsInv(d, m1, h1, D.Put(NextExtent(c, w, size).start, data));
    AllocKeepsNoRaces(d, c, w.image, w.shadow, size, clean);
    PutKeepsNoRaces(c, m1, h1, NextExtent(c, w, size).start, data);
  }

  lemma AppendKeepsPlaces(c: Machine, w: World, size: nat, clean: seq<Byte>, data: seq<Byte>, a: nat)
    requires Fits(c) && Inv(c, w) && 0 < size <= c.dev.segSize && |data| <= size && |clean| == c.dev.segSize
    requires A.Next(c.dev, w.image.alloc, size).0.turn < c.dev.segs && a == A.Pba(c.dev, NextExtent(c, w, size))
    requires D.Legal(c.dev, D.Step(c.dev, w.image, w.shadow, D.Alloc(size, clean)).0, D.Put(NextExtent(c, w, size).start, data))
    ensures var (m, h) := Appended(c, w, size, clean, data);
      forall b :: b in w.places || b == a ==>
        PlaceOk(c, m, h, b, if b == a then NextExtent(c, w, size) else w.places[b], if b == a then data else w.index.store[b])
  {
    hide D.Inv, NoRaces, PlaceOk, A.Next, A.Pba, D.Step, D.Legal, Appended, Fits;
    NewPlaceOk(c, w, size, clean, data);
    var (m, h) := Appended(c, w, size, clean, data);
    forall b | b in w.places && b != a
      ensures PlaceOk(c, m, h, b, w.places[b], w.index.store[b])
    {
      OtherPlaceKept(c, w, size, clean, data, b, w.places[b], w.index.store[b]);
    }
  }

  lemma SightDispatches(c: Machine, keys: set<S.Key>, w: World, ev: R.Event)
    requires R.Serial(c.index, keys, w.index, ev)
    ensures R.CanDispatch(c.index, w.index, ev) && R.CanDispatch(c.index, Sight(c, w), ev)
    ensures R.Home(c.index, ev) < |w.index.parts|
  {
  }

  lemma AppendKeepsInv(c: Machine, keys: set<S.Key>, w: World, ev: R.Event, size: nat, clean: seq<Byte>)
    requires Fits(c) && Inv(c, w) && Legal(c, keys, w, Request(ev, size, clean))
    requires R.Dispatch(c.index, Sight(c, w), ev).wrote.Some?
    ensures Inv(c, Step(c, keys, w, Request(ev, size, clean)).0)
  {
    hide D.Inv, A.Pba, A.Next, R.Dispatch, R.CanDispatch, R.Serial, D.Step, D.Legal, PlaceOk, NoRaces, Seen, Appended, Fits;
    SightDispatches(c, keys, w, ev);
    var data := R.Dispatch(c.index, Sight(c, w), ev).wrote.value;
    AppendKeepsImage(c, w, size, clean, data);
    AppendKeepsPlaces(c, w, size, clean, data, ev.a);
    var w' := Step(c, keys, w, Request(ev, size, clean)).0;
    assert (w'.image, w'.shadow) == Appended(c, w, size, clean, data);
    assert w'.places == w.places[ev.a := NextExtent(c, w, size)];
    assert w'.index.store == w.index.store[ev.a := data];
    hide Step, Legal;
    assert w'.places.Keys == w'.index.store.Keys;
    forall b | b in w'.places
      ensures PlaceOk(c, w'.image, w'.shadow, b, w'.places[b], w'.index.store[b])
    {
      assert b in w.places || b == ev.a;
    }
  }

  lemma PutKeepsNoRaces(c: Machine, m: D.Image, h: D.Shadow, off: nat, data: seq<Byte>)
    requires NoRaces(c, m, h) && D.Legal(c.dev, m, D.Put(off, data))
    ensures NoRaces(c, D.Step(c.dev, m, h, D.Put(off, data)).0, D.Step(c.dev, m, h, D.Put(off, data)).1)
  {
  }

  lemma DoneKeepsInv(c: Machine, keys: set<S.Key>, w: World, i: nat)
    requires Inv(c, w) && Legal(c, keys, w, Done(i))
    ensures Inv(c, Step(c, keys, w, Done(i)).0)
  {
    hide A.Seg, A.Pba, D.Remembers, D.StagedOk, D.DiskOk, D.Shaped, PlacesOk, PlaceOk;
    var m' := D.Step(c.dev, w.image, w.shadow, D.Done(i)).0;
    D.StepKeepsInv(c.dev, w.image, w.shadow, D.Done(i));
    DoneKeepsNoRaces(c, w.image, w.shadow, i);
    hide D.Inv, NoRaces;
    DoneKeepsPlaces(c, w, i);
  }

  lemma DoneKeepsNoRaces(c: Machine, m: D.Image, h: D.Shadow, i: nat)
    requires NoRaces(c, m, h) && D.PendingOk(c.dev, m, h) && D.Legal(c.dev, m, D.Done(i))
    ensures NoRaces(c, D.Completed(m, i), h)
  {
    hide A.Seg, Zeros;
    var m' := D.Completed(m, i);
    assert forall j :: 0 <= j < |m'.pending| ==> m'.pending[j] == m.pending[if j < i then j else j + 1];
  }

  lemma DoneKeepsPlaces(c: Machine, w: World, i: nat)
    requires PlacesOk(c, w) && D.Legal(c.dev, w.image, D.Done(i))
    ensures PlacesOk(c, w.(image := D.Completed(w.image, i)))
  {
    hide A.Seg, A.Pba, D.Remembers;
    var m' := D.Completed(w.image, i);
    forall a | a in w.places
      ensures PlaceOk(c, m', w.shadow, a, w.places[a], w.index.store[a])
    {
      assert PlaceOk(c, w.image, w.shadow, a, w.places[a], w.index.store[a]);
    }
  }

  lemma NothingWritten(c: Machine, keys: set<S.Key>, w: World, ev: R.Event, size: nat, clean: seq<Byte>)
    requires Inv(c, w) && Legal(c, keys, w, Request(ev, size, clean))
    requires R.Dispatch(c.index, Sight(c, w), ev).wrote.None?
    ensures Inv(c, Step(c, keys, w, Request(ev, size, clean)).0)
  {
    assert R.CanDispatch(c.index, w.index, ev);
    hide D.Inv, PlaceOk, NoRaces, R.Dispatch, R.Serial, R.CanDispatch, D.Legal, D.Step, A.Pba, A.Next;
  }

  lemma StepKeepsInv(c: Machine, keys: set<S.Key>, w: World, e: Event)
    requires Fits(c) && Inv(c, w) && Legal(c, keys, w, e)
    ensures Inv(c, Step(c, keys, w, e).0)
    ensures e.Request? ==> R.Legal(c.index, keys, w.index, e.ev)
  {
    assert e.Request? ==> R.CanDispatch(c.index, w.index, e.ev);
    hide D.Inv, PlacesOk, NoRaces, R.Dispatch, R.Serial, R.CanDispatch, Step, D.Legal, D.Step, A.Pba, A.Next;
    match e
    case Request(ev, size, clean) =>
      NextIsFresh(c, w, size);
      if R.Dispatch(c.index, Sight(c, w), ev).wrote.Some? {
        AppendKeepsInv(c, keys, w, ev, size, clean);
      } else {
        NothingWritten(c, keys, w, ev, size, clean);
      }
    case Done(i) => DoneKeepsInv(c, keys, w, i);
  }

  // ---------- What a read returns

  /** The read of an address does not have to wait for a flush: its segment is staged, or none of it is under way. */
  ghost predicate Readable(d: A.Geometry, m: D.Image, a: nat) {
    var s := a * d.grain / d.segSize;
    s == A.Seg(d, m.alloc.turn) || !D.OnItsWay(m, s)
  }

  /** The address of an extent names its segment and its first byte. */
  lemma AddressOfPlace(d: A.Geometry, e: A.Extent)
    requires e.start < d.segSize && e.start % d.grain == 0
    ensures var a := A.Pba(d, e);
      a * d.grain / d.segSize == A.Seg(d, e.turn) && a * d.grain % d.segSize == e.start
  {
    A.PbaIsExact(d, e);
    hide A.Pba;
    D.AddressInSegment(d, A.Seg(d, e.turn), e.start);
  }

  lemma PlaceInDevice(c: Machine, m: D.Image, h: D.Shadow, a: nat, e: A.Extent, data: seq<Byte>)
    requires PlaceOk(c, m, h, a, e, data) && m.alloc.turn < c.dev.segs
    ensures a < Grains(c.dev)
  {
    hide A.Pba, A.Addr;
    A.PbaIsExact(c.dev, e);
    BytesOfDevice(c.dev, e);
    if Grains(c.dev) <= a { MoreGrains(Grains(c.dev), a, c.dev.grain); }
  }

  /** A readable block: the index sees its bytes at its address. */
  lemma SeenBlock(c: Machine, w: World, a: nat)
    requires Inv(c, w) && a in w.index.store && Readable(c.dev, w.image, a)
    ensures a in Seen(c.dev, w.image) && w.index.store[a] <= Seen(c.dev, w.image)[a]
  {
    var d, m := c.dev, w.image;
    assert a in w.index.store.Keys && a in w.places.Keys;
    var e, data := w.places[a], w.index.store[a];
    assert PlaceOk(c, m, w.shadow, a, e, data);
    PlaceInDevice(c, m, w.shadow, a, e, data);
    AddressOfPlace(d, e);
    hide A.Seg, A.Pba, D.Remembers, D.StagedOk, D.PendingOk, D.DiskOk, D.OnItsWay;
    var s := A.Seg(d, e.turn);
    D.RememberedIsRead(d, m, w.shadow, s, e.start, data);
    assert ReadFrom(d, m, a * d.grain)[..|data|] == D.ReadBytes(d, m, s, e.start, |data|);
  }

  /** A block whose segment's flush is under way: all that the index sees at its address is zeros. */
  lemma SeenTooEarly(c: Machine, w: World, a: nat)
    requires Inv(c, w) && a in w.index.store && !Readable(c.dev, w.image, a)
    ensures a in Seen(c.dev, w.image) && Zeros(Seen(c.dev, w.image)[a])
    ensures |w.index.store[a]| <= |Seen(c.dev, w.image)[a]|
  {
    var d, m := c.dev, w.image;
    assert a in w.index.store.Keys && a in w.places.Keys;
    var e, data := w.places[a], w.index.store[a];
    assert PlaceOk(c, m, w.shadow, a, e, data);
    PlaceInDevice(c, m, w.shadow, a, e, data);
    AddressOfPlace(d, e);
    hide A.Pba, D.Remembers, D.StagedOk, D.PendingOk, D.DiskOk, D.OnItsWay;
    assert Zeros(m.disk[A.Seg(d, e.turn)]);
  }

  // ---------- A dispatch whose reads are settled

  /** The address that the label "bi_get_entry" reads a table from. */
  function TableRead(g: S.Geometry, part: S.Part, put: S.Put): (r: Option<nat>)
    requires |part.buckets| == S.BUCKETS_IN_PART
  {
    if Sets.Target(part.buckets[S.BucketOf(g, put.key)], put.key.low) < Sets.NR_SET || part.pba == T.PBA_INVALID then None
    else Some(part.pba)
  }

  /** The one address that a dispatch reads from, if any. */
  function Reads(g: S.Geometry, s: S.State, ev: R.Event): (r: Option<nat>)
    requires R.CanDispatch(g, s, ev)
  {
    var part := s.parts[R.Home(g, ev)];
    match ev
    case GetReq(k, _) =>
      var b := part.buckets[S.BucketOf(g, k)];
      var i := Sets.Match(b, k.low, 0);
      if i < Sets.NR_SET then Some(b[i].pba) else if part.pba == T.PBA_INVALID then None else Some(part.pba)
    case SetReq(put, _) => if part.flying then None else TableRead(g, part, put)
    case Continue(_, _) =>
      match part.pending
      case GetTable(k, buf) =>
        var r := T.FirstMatch(buf, g.hops, k.low, 0);
        if r < g.hops then Some(buf[T.Probe(buf, k.low, r)].pba) else None
      case SetKv(put) => TableRead(g, part, put)
      case _ => None
  }

  ghost predicate Settled(c: Machine, keys: set<S.Key>, w: World, e: Event)
    requires Legal(c, keys, w, e)
  {
    e.Request? ==>
      var a := Reads(c.index, w.index, e.ev);
      a.Some? ==> Readable(c.dev, w.image, a.value)
  }

  lemma SameCompare(c: Machine, keys: set<S.Key>, w: World, p: nat, fp: nat, loc: T.Loc, k: S.Key)
    requires Inv(c, w) && Cache.Holds(c.index, w.index.store, keys, p, fp, loc) && Readable(c.dev, w.image, loc.pba)
    ensures S.Compare(c.index, Seen(c.dev, w.image), loc, k) == S.Compare(c.index, w.index.store, loc, k)
  {
    SeenBlock(c, w, loc.pba);
    hide Inv, Readable, Seen, K.NameAt;
    var n, data := loc.kvSize * c.index.grain, w.index.store[loc.pba];
    assert Seen(c.dev, w.image)[loc.pba][..n] == data == data[..n];
  }

  lemma SameTable(c: Machine, keys: set<S.Key>, w: World, p: nat, pba: nat)
    requires Inv(c, w) && Cache.TableOk(c.index, w.index.store, keys, p, pba) && pba != T.PBA_INVALID
    requires Readable(c.dev, w.image, pba)
    ensures pba in w.index.store && pba in Seen(c.dev, w.image)
    ensures B.TableAt(c.index.slots, Seen(c.dev, w.image)[pba]) == B.TableAt(c.index.slots, w.index.store[pba])
  {
    SeenBlock(c, w, pba);
    hide Inv, Readable, Seen, T.WellFormed, B.TableAt, Cache.TableMap, Cache.Holds;
    B.TableOfPrefix(c.index.slots, w.index.store[pba], Seen(c.dev, w.image)[pba]);
  }

  lemma SameStartGet(c: Machine, keys: set<S.Key>, w: World, p: nat, k: S.Key, a: nat)
    requires Inv(c, w) && p < |w.index.parts| && R.PartInv(c.index, w.index.store, keys, p, w.index.parts[p])
    requires k in keys && S.PartOf(c.index, k) == p
    requires var r := Reads(c.index, w.index, R.GetReq(k, a)); r.Some? ==> Readable(c.dev, w.image, r.value)
    ensures S.StartGet(c.index, Seen(c.dev, w.image), w.index.parts[p], k)
         == S.StartGet(c.index, w.index.store, w.index.parts[p], k)
  {
    hide Inv, Readable, Seen, Cache.TableOk, Cache.Holds, Sets.Match, Sets.Sound, S.BucketIdx, B.TableAt, S.Compare, Sets.Install;
    var part := w.index.parts[p];
    var b := S.BucketOf(c.index, k);
    var i := Sets.Match(part.buckets[b], k.low, 0);
    if i < Sets.NR_SET {
      var e := part.buckets[b][i];
      assert Cache.EntryOk(c.index, w.index.store, keys, p, part.pba, b, e);
      SameCompare(c, keys, w, p, e.fingerprint, e.Where(), k);
    } else if part.pba != T.PBA_INVALID {
      SameTable(c, keys, w, p, part.pba);
    }
  }

  /** The comparison of the record it found is all that the second dispatch of a GET takes from flash. */
  lemma ComparesOnly(g: S.Geometry, x: S.Store, y: S.Store, part: S.Part, k: S.Key, buf: T.Table, a: nat)
    requires |part.buckets| == S.BUCKETS_IN_PART && T.Sized(buf, g.hops)
    requires var r := T.FirstMatch(buf, g.hops, k.low, 0);
      r < g.hops ==> var loc := buf[T.Probe(buf, k.low, r)].Where(); S.Compare(g, x, loc, k) == S.Compare(g, y, loc, k)
    ensures S.ResumeGet(g, x, part, k, buf, a) == S.ResumeGet(g, y, part, k, buf, a)
  {
    hide S.Compare, Sets.Target, Sets.Install, T.InsertAll, T.Probe, S.BucketIdx, S.Merged, S.Flushed, T.FirstMatch;
  }

  lemma SameAnswer(c: Machine, keys: set<S.Key>, w: World, p: nat, k: S.Key, buf: T.Table)
    requires Inv(c, w) && p < |w.index.parts| && R.PartInv(c.index, w.index.store, keys, p, w.index.parts[p])
    requires w.index.parts[p].pending == S.GetTable(k, buf) && T.Sized(buf, c.index.hops)
    requires var r := T.FirstMatch(buf, c.index.hops, k.low, 0);
      r < c.index.hops && Readable(c.dev, w.image, buf[T.Probe(buf, k.low, r)].pba)
    ensures var loc := buf[T.Probe(buf, k.low, T.FirstMatch(buf, c.index.hops, k.low, 0))].Where();
      S.Compare(c.index, Seen(c.dev, w.image), loc, k) == S.Compare(c.index, w.index.store, loc, k)
  {
    var part := w.index.parts[p];
    R.TableAnswers(c.index, w.index.store, keys, p, part);
    R.ViewHolds(c.index, w.index.store, keys, p, part, k);
    hide Inv, Readable, Seen, Cache.Holds, R.PartInv, T.WellFormed, Cache.TableMap, R.ViewOf, S.Compare, T.Probe, T.FirstMatch;
    SameCompare(c, keys, w, p, k.low, buf[T.Probe(buf, k.low, T.FirstMatch(buf, c.index.hops, k.low, 0))].Where(), k);
  }

  lemma SameResumeGet(c: Machine, keys: set<S.Key>, w: World, p: nat, a: nat)
    requires Inv(c, w) && p < |w.index.parts| && R.PartInv(c.index, w.index.store, keys, p, w.index.parts[p])
    requires w.index.parts[p].pending.GetTable? && T.Sized(w.index.parts[p].pending.buf, c.index.hops)
    requires var r := Reads(c.index, w.index, R.Continue(p, a)); r.Some? ==> Readable(c.dev, w.image, r.value)
    ensures var part := w.index.parts[p];
      S.ResumeGet(c.index, Seen(c.dev, w.image), part, part.pending.key, part.pending.buf, a)
      == S.ResumeGet(c.index, w.index.store, part, part.pending.key, part.pending.buf, a)
  {
    var part := w.index.parts[p];
    assert |part.buckets| == S.BUCKETS_IN_PART;
    hide Inv, Readable, Seen, R.PartInv, S.Compare, S.ResumeGet, T.Probe, T.FirstMatch;
    var k, buf := part.pending.key, part.pending.buf;
    if T.FirstMatch(buf, c.index.hops, k.low, 0) < c.index.hops { SameAnswer(c, keys, w, p, k, buf); }
    ComparesOnly(c.index, Seen(c.dev, w.image), w.index.store, part, k, buf, a);
  }

  lemma SameGetEntry(c: Machine, keys: set<S.Key>, w: World, p: nat, part: S.Part, put: S.Put, a: nat)
    requires Inv(c, w) && p < |w.index.parts| && Cache.CacheOk(c.index, w.index.store, keys, p, part)
    requires var r := TableRead(c.index, part, put); r.Some? ==> Readable(c.dev, w.image, r.value)
    ensures S.GetEntry(c.index, Seen(c.dev, w.image), part, put, a) == S.GetEntry(c.index, w.index.store, part, put, a)
  {
    assert |part.buckets| == S.BUCKETS_IN_PART;
    hide Inv, Readable, Seen, Cache.TableOk, Cache.BucketsOk, Sets.Target, Sets.Install, B.TableAt, T.InsertAll, S.BucketIdx;
    if part.pba != T.PBA_INVALID && TableRead(c.index, part, put).Some? {
      SameTable(c, keys, w, p, part.pba);
    }
  }

  /** A dispatch whose read is settled does on the device what it does on the record of all writes. */
  lemma SameDispatch(c: Machine, keys: set<S.Key>, w: World, ev: R.Event)
    requires Inv(c, w) && R.Inv(c.index, keys, w.index) && R.Serial(c.index, keys, w.index, ev)
    requires var r := Reads(c.index, w.index, ev); r.Some? ==> Readable(c.dev, w.image, r.value)
    ensures R.CanDispatch(c.index, Sight(c, w), ev)
    ensures R.Dispatch(c.index, Sight(c, w), ev) == R.Dispatch(c.index, w.index, ev)
  {
    var p := R.Home(c.index, ev);
    var part := w.index.parts[p];
    assert R.PartInv(c.index, w.index.store, keys, p, part);
    assert Cache.CacheOk(c.index, w.index.store, keys, p, part);
    assert Cache.CacheOk(c.index, w.index.store, keys, p, part.(pending := S.Idle));
    hide Inv, Readable, Seen, R.PartInv, Cache.CacheOk, S.StartGet, S.ResumeGet, S.GetEntry, TableRead, S.WriteTable;
    match ev {
      case GetReq(k, a) => SameStartGet(c, keys, w, p, k, a);
      case SetReq(put, a) => if !part.flying { SameGetEntry(c, keys, w, p, part, put, a); }
      case Continue(_, a) =>
        match w.index.parts[p].pending {
          case GetTable(k, buf) => SameResumeGet(c, keys, w, p, a);
          case SetKv(put) => SameGetEntry(c, keys, w, p, part.(pending := S.Idle), put, a);
          case _ =>
        }
    }
  }

  // ---------- Runs

  /** A run of legal events; nothing follows an abort. */
  ghost predicate Possible(c: Machine, keys: set<S.Key>, w: World, es: seq<Event>)
    decreases |es|
  {
    es == [] ||
      (Legal(c, keys, w, es[0]) &&
       if Step(c, keys, w, es[0]).1.Crash? then |es| == 1
       else Possible(c, keys, Step(c, keys, w, es[0]).0, es[1..]))
  }

  /** No dispatch of the run reads from a segment whose flush is under way. */
  ghost predicate ReadsSettled(c: Machine, keys: set<S.Key>, w: World, es: seq<Event>)
    requires Possible(c, keys, w, es)
    decreases |es|
  {
    es == [] ||
      (Settled(c, keys, w, es[0]) &&
       (Step(c, keys, w, es[0]).1.Crash? || ReadsSettled(c, keys, Step(c, keys, w, es[0]).0, es[1..])))
  }

  ghost function Last(c: Machine, keys: set<S.Key>, w: World, es: seq<Event>): (r: World)
    requires Possible(c, keys, w, es)
    decreases |es|
  {
    if es == [] then w
    else if Step(c, keys, w, es[0]).1.Crash? then Step(c, keys, w, es[0]).0
    else Last(c, keys, Step(c, keys, w, es[0]).0, es[1..])
  }

  /** The dispatches of a run. */
  ghost function Requests(es: seq<Event>): (r: seq<R.Event>) {
    if es == [] then [] else (if es[0].Request? then [es[0].ev] else []) + Requests(es[1..])
  }

  /** What came of each of them, on the device. */
  ghost function Replies(c: Machine, keys: set<S.Key>, w: World, es: seq<Event>): (r: seq<S.Reply>)
    requires Possible(c, keys, w, es)
    decreases |es|
  {
    if es == [] then []
    else
      var (w', reply) := Step(c, keys, w, es[0]);
      (if es[0].Request? then [reply] else []) + if reply.Crash? then [] else Replies(c, keys, w', es[1..])
  }

  /** One settled dispatch on the device is one step of the index over the record of all writes. */
  lemma SettledStep(c: Machine, keys: set<S.Key>, w: World, e: Event)
    requires Fits(c) && Inv(c, w) && R.Inv(c.index, keys, w.index) && Cache.KeysOk(c.index, keys)
    requires Legal(c, keys, w, e) && Settled(c, keys, w, e)
    ensures Inv(c, Step(c, keys, w, e).0)
    ensures e.Request? ==>
      && R.Legal(c.index, keys, w.index, e.ev)
      && (Step(c, keys, w, e).0.index, Step(c, keys, w, e).1) == R.Step(c.index, w.index, e.ev)
    ensures e.Done? ==> Step(c, keys, w, e).0.index == w.index && !Step(c, keys, w, e).1.Crash?
    ensures !Step(c, keys, w, e).1.Crash? ==> R.Inv(c.index, keys, Step(c, keys, w, e).0.index)
  {
    StepKeepsInv(c, keys, w, e);
    hide Inv, R.Inv, Readable, R.Dispatch, D.Legal, D.Step, A.Pba, A.Next, Cache.KeysOk, Fits, Seen, Appended;
    match e {
      case Request(ev, size, clean) =>
        SameDispatch(c, keys, w, ev);
        if !Step(c, keys, w, e).1.Crash? { R.StepKeepsInv(c.index, keys, w.index, ev); }
      case Done(i) =>
    }
  }

  /** A run of the index, one step unrolled. */
  lemma UnrollIndex(g: S.Geometry, keys: set<S.Key>, s: S.State, evs: seq<R.Event>)
    requires evs != [] && R.Legal(g, keys, s, evs[0])
    requires var (s', reply) := R.Step(g, s, evs[0]);
      if reply.Crash? then |evs| == 1 else R.RunsSerially(g, keys, s', evs[1..])
    ensures R.RunsSerially(g, keys, s, evs)
    ensures var (s', reply) := R.Step(g, s, evs[0]);
      R.Replies(g, keys, s, evs) == [reply] + if reply.Crash? then [] else R.Replies(g, keys, s', evs[1..])
  {
    hide R.Legal, R.Step;
  }

  /** A run over the device, one step unrolled. */
  lemma UnrollDevice(c: Machine, keys: set<S.Key>, w: World, es: seq<Event>)
    requires es != [] && Possible(c, keys, w, es) && ReadsSettled(c, keys, w, es)
    ensures Legal(c, keys, w, es[0]) && Settled(c, keys, w, es[0])
    ensures Requests(es) == (if es[0].Request? then [es[0].ev] else []) + Requests(es[1..])
    ensures var (w', reply) := Step(c, keys, w, es[0]);
      && (reply.Crash? ==> es[1..] == [] && Requests(es[1..]) == [] && Last(c, keys, w, es) == w')
      && (!reply.Crash? ==>
           && Possible(c, keys, w', es[1..]) && ReadsSettled(c, keys, w', es[1..])
           && Last(c, keys, w, es) == Last(c, keys, w', es[1..]))
      && Replies(c, keys, w, es) ==
           (if es[0].Request? then [reply] else []) + if reply.Crash? then [] else Replies(c, keys, w', es[1..])
  {
    hide Legal, Settled, Step;
  }

  lemma {:induction false} RunAgrees(c: Machine, keys: set<S.Key>, w: World, es: seq<Event>)
    requires Fits(c) && Inv(c, w) && R.Inv(c.index, keys, w.index) && Cache.KeysOk(c.index, keys)
    requires Possible(c, keys, w, es) && ReadsSettled(c, keys, w, es)
    ensures Inv(c, Last(c, keys, w, es))
    ensures R.RunsSerially(c.index, keys, w.index, Requests(es))
    ensures Replies(c, keys, w, es) == R.Replies(c.index, keys, w.index, Requests(es))
    decreases |es|
  {
    hide Inv, Legal, R.Legal, Settled, Step, R.Step, R.Inv, Cache.KeysOk, Fits;
    if es != [] {
      hide Possible, ReadsSettled, Requests, Replies, Last, R.RunsSerially, R.Replies;
      UnrollDevice(c, keys, w, es);
      SettledStep(c, keys, w, es[0]);
      var (w', reply) := Step(c, keys, w, es[0]);
      if !reply.Crash? { RunAgrees(c, keys, w', es[1..]); }
      if es[0].Request? {
        assert Requests(es)[1..] == Requests(es[1..]);
        UnrollIndex(c.index, keys, w.index, Requests(es));
      } else {
        assert Requests(es) == Requests(es[1..]);
      }
    }
  }

  /** At the addresses that need not wait for a flush the device shows what was written, elsewhere zeros. */
  ghost predicate ShowsWrites(c: Machine, w: World) {
    forall a :: a in w.index.store ==>
      && a in Seen(c.dev, w.image)
      && if Readable(c.dev, w.image, a) then w.index.store[a] <= Seen(c.dev, w.image)[a]
         else Zeros(Seen(c.dev, w.image)[a])
  }

  /**
   Every partition-serial run of the index over the device, until the log wraps, with flushes completing in any
   order and every read made when its segment is staged or has no flush under way: each dispatch decides on the
   bytes the device returns, the allocator's addresses are fresh, and the replies are those of one plain map.
   */
  lemma DeviceRunIsMap(c: Machine, keys: set<S.Key>, es: seq<Event>)
    requires Fits(c) && Cache.KeysOk(c.index, keys)
    requires Possible(c, keys, Initial(c), es) && ReadsSettled(c, keys, Initial(c), es)
    ensures R.RunsSerially(c.index, keys, R.Initial(c.index), Requests(es))
    ensures R.Explained(c.index, map[], Replies(c, keys, Initial(c), es))
    ensures ShowsWrites(c, Last(c, keys, Initial(c), es))
  {
    InitialInv(c);
    R.InitialOk(c.index, keys);
    RunAgrees(c, keys, Initial(c), es);
    hide Inv, Possible, R.RunsSerially, R.Inv, ReadsSettled, Seen, Readable;
    R.SerialRunIsMap(c.index, keys, Requests(es));
    var w := Last(c, keys, Initial(c), es);
    forall a | a in w.index.store
      ensures a in Seen(c.dev, w.image)
      ensures if Readable(c.dev, w.image, a) then w.index.store[a] <= Seen(c.dev, w.image)[a]
              else Zeros(Seen(c.dev, w.image)[a])
    {
      if Readable(c.dev, w.image, a) { SeenBlock(c, w, a); } else { SeenTooEarly(c, w, a); }
    }
  }

  // ---------- Reads that come too early

  /** A GET that hits in its bucket is answered exactly when the record's segment has no flush under way. */
  lemma HitAnswersIff(c: Machine, keys: set<S.Key>, w: World, p: nat, k: S.Key)
    requires Inv(c, w) && Cache.KeysOk(c.index, keys) && k in keys && S.PartOf(c.index, k) == p && k.name != []
    requires p < |w.index.parts| && R.PartInv(c.index, w.index.store, keys, p, w.index.parts[p])
    requires Sets.Match(w.index.parts[p].buckets[S.BucketOf(c.index, k)], k.low, 0) < Sets.NR_SET
    ensures var part := w.index.parts[p];
      var e := part.buckets[S.BucketOf(c.index, k)][Sets.Match(part.buckets[S.BucketOf(c.index, k)], k.low, 0)];
      var reply := S.StartGet(c.index, Seen(c.dev, w.image), part, k).reply;
      && e.pba in w.index.store
      && (reply == S.GetDone(k, Some(w.index.store[e.pba])) <==> Readable(c.dev, w.image, e.pba))
      && (reply == S.Foreign(k) <==> !Readable(c.dev, w.image, e.pba))
  {
    var part := w.index.parts[p];
    var b := S.BucketOf(c.index, k);
    var e := part.buckets[b][Sets.Match(part.buckets[b], k.low, 0)];
    assert Cache.EntryOk(c.index, w.index.store, keys, p, part.pba, b, e);
    R.CompareOwn(c.index, w.index.store, keys, p, k, e.Where());
    hide Inv, Readable, Seen, Cache.TableOk, Sets.Match, Sets.Sound, Sets.Install, Cache.KeysOk, Cache.BucketsOk;
    if Readable(c.dev, w.image, e.pba) {
      SameCompare(c, keys, w, p, k.low, e.Where(), k);
    } else {
      SeenTooEarly(c, w, e.pba);
      ZerosSpellNoKey(Seen(c.dev, w.image)[e.pba], e.kvSize * c.index.grain, k.name);
    }
  }

  lemma ZerosSpellNoKey(data: seq<Byte>, n: nat, k: K.Name)
    requires Zeros(data) && k != []
    ensures K.NameAt(S.FirstBytes(data, n)) != Some(k)
  {
  }

  lemma ZerosAreNumberZero(bytes: seq<Byte>)
    requires Zeros(bytes)
    ensures B.Number(bytes) == 0
  {
    if bytes != [] { ZerosAreNumberZero(bytes[1..]); }
  }

  lemma ZerosAreZeroSlots(n: nat, bytes: seq<Byte>)
    requires Zeros(bytes)
    ensures forall i :: 0 <= i < n ==> B.TableAt(n, bytes)[i] == T.Slot(0, 0, 0, 0)
  {
    forall i | 0 <= i < n
      ensures B.TableAt(n, bytes)[i] == T.Slot(0, 0, 0, 0)
    {
      var at := B.SLOT_BYTES * i;
      if at + B.SLOT_BYTES <= |bytes| {
        var slot := bytes[at..at + B.SLOT_BYTES];
        ZerosAreNumberZero(slot[..8]);
        ZerosAreNumberZero(slot[8..]);
      }
    }
  }

  /**
   A GET that misses in its bucket is handed the partition table exactly when that table's segment has no flush
   under way. Otherwise it is handed zeros, and is told that its key does not exist, whatever was stored.
   */
  lemma TableFetchIff(c: Machine, keys: set<S.Key>, w: World, p: nat, k: S.Key)
    requires Inv(c, w) && k in keys && S.PartOf(c.index, k) == p && k.low != 0
    requires p < |w.index.parts| && R.PartInv(c.index, w.index.store, keys, p, w.index.parts[p])
    requires Sets.Match(w.index.parts[p].buckets[S.BucketOf(c.index, k)], k.low, 0) == Sets.NR_SET
    requires w.index.parts[p].pba != T.PBA_INVALID
    ensures var part := w.index.parts[p];
      var fetched := S.StartGet(c.index, Seen(c.dev, w.image), part, k).part.pending;
      && part.pba in w.index.store && fetched.GetTable? && T.Sized(fetched.buf, c.index.hops)
      && (fetched.buf == B.TableAt(c.index.slots, w.index.store[part.pba]) <==> Readable(c.dev, w.image, part.pba))
      && (!Readable(c.dev, w.image, part.pba) ==> forall later, a ::
           S.ResumeGet(c.index, later, part, k, fetched.buf, a).reply == S.GetDone(k, None))
  {
    var part := w.index.parts[p];
    var stored := B.TableAt(c.index.slots, w.index.store[part.pba]);
    hide Inv, Readable, Seen, Sets.Match, Sets.Sound, Sets.Install, B.TableAt, Cache.TableMap, Cache.BucketsOk;
    if Readable(c.dev, w.image, part.pba) {
      SameTable(c, keys, w, p, part.pba);
    } else {
      SeenTooEarly(c, w, part.pba);
      var fetched := B.TableAt(c.index.slots, Seen(c.dev, w.image)[part.pba]);
      ZerosAreZeroSlots(c.index.slots, Seen(c.dev, w.image)[part.pba]);
      assert T.FirstMatch(fetched, c.index.hops, k.low, 0) == c.index.hops;
      assert stored[0] != T.Slot(0, 0, 0, 0) by { SlotIsNotZero(c, keys, w, p, part.pba); }
    }
  }

  /** No slot of a stored table is all zeros. */
  lemma SlotIsNotZero(c: Machine, keys: set<S.Key>, w: World, p: nat, pba: nat)
    requires Cache.TableOk(c.index, w.index.store, keys, p, pba) && pba != T.PBA_INVALID
    ensures pba in w.index.store && B.TableAt(c.index.slots, w.index.store[pba])[0] != T.Slot(0, 0, 0, 0)
  {
    var t := B.TableAt(c.index.slots, w.index.store[pba]);
    if t[0].Occupied() {
      assert t[0].fingerprint in Cache.TableMap(c.index, w.index.store, pba);
    }
  }
}
