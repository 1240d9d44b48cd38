/**
 The hopscotch index: an open-addressing table whose entries stay within a bounded neighbourhood of
 their key's home slot, carry an eight-bit tag, and point to a record in the log that holds the full key.
 */
module Hopscotch {
  import opened Common
  import opened KeyRecord
  import opened Multiples
  import opened Ring

  /** Address of a free slot, and the width of the address field. */
  const PBA_INVALID: nat := 0xffffffffff
  const PBA_LIMIT: nat := 0x10000000000
  const OFFSET_LIMIT: nat := 32
  const TAG_LIMIT: nat := 256
  const SIZE_LIMIT: nat := 2048

  /** Number of slots, size of a neighbourhood, bytes of a grain, and the hash of a key. */
  datatype Shape = Shape(n: nat, hops: nat, grain: nat, hash: Name -> nat)

  type Config = c: Shape | 0 < c.hops <= c.n && c.hops <= OFFSET_LIMIT && 0 < c.grain
    witness Shape(1, 1, 1, _ => 0)

  /** The low hash bits choose the home slot. */
  function Home(c: Config, k: Name): (h: nat)
    ensures h < c.n
  {
    c.hash(k) % c.n
  }

  /** The next eight hash bits are the tag. */
  function Tag(c: Config, k: Name): (t: nat)
    ensures t < TAG_LIMIT
  {
    c.hash(k) / c.n % TAG_LIMIT
  }

  /** Keys share home slot and tag exactly when their hashes agree modulo the number of slots times that of tags. */
  lemma HomesAndTagsAreSpread(c: Config, x: Name, y: Name)
    ensures Home(c, x) == Home(c, y) && Tag(c, x) == Tag(c, y) <==>
      c.hash(x) % (c.n * TAG_LIMIT) == c.hash(y) % (c.n * TAG_LIMIT)
  {
    TwoDigits(c.hash(x), c.n, TAG_LIMIT);
    TwoDigits(c.hash(y), c.n, TAG_LIMIT);
    Remainder(c.n, Tag(c, x), Home(c, x));
    Remainder(c.n, Tag(c, y), Home(c, y));
  }

  datatype Slot = Slot(neighOff: nat, tag: nat, kvSize: nat, pba: nat) {
    predicate Occupied() { pba != PBA_INVALID }
  }

  const BLANK := Slot(0, 0, 0, PBA_INVALID)

  type Table = seq<Slot>

  /** A record in the log: its key and its length in grains. The log is write-once. */
  datatype Record = Record(key: Name, grains: nat)
  type Log = map<nat, Record>

  // ---------- The map a table stands for

  ghost predicate HoldsRecord(c: Config, t: Table, log: Log, j: nat)
    requires j < |t| == c.n
  {
    t[j].Occupied() ==>
      && t[j].pba in log && t[j].pba < PBA_LIMIT && t[j].neighOff < c.hops
      && At(c.n, Home(c, log[t[j].pba].key), t[j].neighOff) == j
      && t[j].tag == Tag(c, log[t[j].pba].key)
      && t[j].kvSize == log[t[j].pba].grains && 0 < t[j].kvSize < SIZE_LIMIT
  }

  ghost predicate Holds(t: Table, log: Log, j: nat, k: Name)
    requires j < |t|
  {
    t[j].Occupied() && t[j].pba in log && log[t[j].pba].key == k
  }

  /** No key occupies two slots. */
  ghost predicate Unique(t: Table, log: Log) {
    forall i, j, k :: 0 <= i < |t| && 0 <= j < |t| && Holds(t, log, i, k) && Holds(t, log, j, k) ==> i == j
  }

  ghost predicate WellFormed(c: Config, t: Table, log: Log) {
    && |t| == c.n
    && Unique(t, log)
    && (forall j :: 0 <= j < |t| ==> HoldsRecord(c, t, log, j))
    && (forall j :: 0 <= j < |t| && !t[j].Occupied() ==> t[j] == BLANK)
  }

  ghost predicate Present(t: Table, log: Log, k: Name) {
    exists j :: 0 <= j < |t| && Holds(t, log, j, k)
  }

  ghost function SlotOf(t: Table, log: Log, k: Name): (j: nat)
    requires Present(t, log, k)
    ensures j < |t| && Holds(t, log, j, k)
  {
    var j :| 0 <= j < |t| && Holds(t, log, j, k);
    j
  }

  /** Latest log address of a key. */
  ghost function Latest(t: Table, log: Log, k: Name): (r: Option<nat>) {
    if Present(t, log, k) then Some(t[SlotOf(t, log, k)].pba) else None
  }

  lemma LatestAt(t: Table, log: Log, j: nat, k: Name)
    requires Unique(t, log) && j < |t| && Holds(t, log, j, k)
    ensures Present(t, log, k) && SlotOf(t, log, k) == j && Latest(t, log, k) == Some(t[j].pba)
  {
  }

  function Empty(c: Config): (t: Table) { seq(c.n, _ => BLANK) }

  lemma EmptyIsWellFormed(c: Config, log: Log, k: Name)
    ensures WellFormed(c, Empty(c), log) && Latest(Empty(c), log, k) == None
  {
  }

  // ---------- Scans

  /** First offset at or after off whose slot carries the tag; hops when there is none. */
  function FirstTag(c: Config, t: Table, home: nat, off: nat, tag: nat): (r: nat)
    requires |t| == c.n && home < c.n && off <= c.hops
    ensures off <= r <= c.hops
    ensures r < c.hops ==> t[At(c.n, home, r)].tag == tag
    ensures forall o: nat :: off <= o < r ==> t[At(c.n, home, o)].tag != tag
    decreases c.hops - off
  {
    if off == c.hops then c.hops
    else if t[At(c.n, home, off)].tag == tag then off
    else FirstTag(c, t, home, off + 1, tag)
  }

  /** The key at the head of a request's buffer after the read of a slot: a record's key, or what was there before. */
  function ReadInto(log: Log, s: Slot, buf: Option<Name>): (r: Option<Name>) {
    if s.kvSize > 0 && s.pba in log then Some(log[s.pba].key) else buf
  }

  /**
   The key comparison, on the key that the head of the buffer spells. A buffer that no read has filled is all
   zeros and spells the empty key.
   */
  predicate Matches(buf: Option<Name>, k: Name) { buf == Some(k) }

  /** Offset of the first tagged slot whose record has the key; hops when there is none. */
  function FindKey(c: Config, t: Table, log: Log, k: Name, off: nat, buf: Option<Name>): (r: nat)
    requires |t| == c.n && off <= c.hops
    ensures off <= r <= c.hops
    decreases c.hops - off
  {
    var o := FirstTag(c, t, Home(c, k), off, Tag(c, k));
    if o == c.hops then c.hops
    else
      var buf' := ReadInto(log, t[At(c.n, Home(c, k), o)], buf);
      if Matches(buf', k) then o else FindKey(c, t, log, k, o + 1, buf')
  }

  /** The slot of a key lies in its neighbourhood, at the offset it records, under its tag. */
  lemma OwnSlot(c: Config, t: Table, log: Log, k: Name)
    requires WellFormed(c, t, log) && Present(t, log, k)
    ensures var s := t[SlotOf(t, log, k)];
      && s.neighOff < c.hops && At(c.n, Home(c, k), s.neighOff) == SlotOf(t, log, k)
      && s.tag == Tag(c, k) && s.kvSize > 0
  {
    assert HoldsRecord(c, t, log, SlotOf(t, log, k));
  }

  /** A tag hit on a free slot reads nothing, so a buffer without the key never turns into a match. */
  lemma HitIsOwnSlot(c: Config, t: Table, log: Log, k: Name, o: nat, buf: Option<Name>)
    requires WellFormed(c, t, log) && o < c.hops && !Matches(buf, k)
    requires Matches(ReadInto(log, t[At(c.n, Home(c, k), o)], buf), k)
    ensures Present(t, log, k) && At(c.n, Home(c, k), o) == SlotOf(t, log, k)
    ensures t[SlotOf(t, log, k)].neighOff == o
  {
    var j := At(c.n, Home(c, k), o);
    LatestAt(t, log, j, k);
    OwnSlot(c, t, log, k);
  }

  /** The scan finds exactly the key's own slot, as long as it starts no later than there. */
  lemma {:induction false} FindKeyIsLookup(c: Config, t: Table, log: Log, k: Name, off: nat, buf: Option<Name>)
    requires WellFormed(c, t, log) && off <= c.hops && !Matches(buf, k)
    requires Present(t, log, k) ==> off <= t[SlotOf(t, log, k)].neighOff
    ensures FindKey(c, t, log, k, off, buf) ==
      if Present(t, log, k) then t[SlotOf(t, log, k)].neighOff else c.hops
    ensures FindKey(c, t, log, k, off, buf) < c.hops <==> Present(t, log, k)
    decreases c.hops - off
  {
    var o := FirstTag(c, t, Home(c, k), off, Tag(c, k));
    if Present(t, log, k) { OwnSlot(c, t, log, k); }
    if o < c.hops {
      var buf' := ReadInto(log, t[At(c.n, Home(c, k), o)], buf);
      if Matches(buf', k) {
        HitIsOwnSlot(c, t, log, k, o, buf);
      } else {
        FindKeyIsLookup(c, t, log, k, o + 1, buf');
      }
    }
  }

  /**
   The empty key, in a request whose buffer no read has filled yet: its scan goes right exactly unless the first
   slot with its tag is free. Then the scan ends at that slot, as if it had found the key there.
   */
  lemma EmptyKeyIff(c: Config, t: Table, log: Log)
    requires WellFormed(c, t, log)
    ensures var o := FirstTag(c, t, Home(c, []), 0, Tag(c, []));
      var free := o < c.hops && !t[At(c.n, Home(c, []), o)].Occupied();
      var r := FindKey(c, t, log, [], 0, Some([]));
      && (r == (if Present(t, log, []) then t[SlotOf(t, log, [])].neighOff else c.hops) <==> !free)
      && (free ==> r == o)
  {
    hide Home, Tag;
    var o := FirstTag(c, t, Home(c, []), 0, Tag(c, []));
    if Present(t, log, []) { OwnSlot(c, t, log, []); }
    if o < c.hops {
      var slot := t[At(c.n, Home(c, []), o)];
      if slot.Occupied() {
        assert HoldsRecord(c, t, log, At(c.n, Home(c, []), o));
        var buf := ReadInto(log, slot, Some([]));
        if Matches(buf, []) {
          LatestAt(t, log, At(c.n, Home(c, []), o), []);
        } else {
          FindKeyIsLookup(c, t, log, [], o + 1, buf);
        }
      }
    }
  }

  /** In the empty table the empty key is "found" as soon as its tag is 0. */
  lemma EmptyKeyMatchesFreeSlot(c: Config, log: Log)
    requires Tag(c, []) == 0
    ensures !Present(Empty(c), log, []) && FindKey(c, Empty(c), log, [], 0, Some([])) == 0
  {
  }

  // ---------- Finding room

  function FirstFree(c: Config, t: Table, home: nat, off: nat): (r: nat)
    requires |t| == c.n && home < c.n && off <= c.hops
    ensures off <= r <= c.hops
    ensures r < c.hops ==> !t[At(c.n, home, r)].Occupied()
    ensures forall o: nat :: off <= o < r ==> t[At(c.n, home, o)].Occupied()
    decreases c.hops - off
  {
    if off == c.hops then c.hops
    else if !t[At(c.n, home, off)].Occupied() then off
    else FirstFree(c, t, home, off + 1)
  }

  /** Home slot of the entry in slot j, recovered from its offset. */
  function Origin(c: Config, t: Table, j: nat): (h: nat)
    requires j < |t| == c.n
    ensures h < c.n
  {
    (c.n + j - t[j].neighOff) % c.n
  }

  /** A free slot to which the entry in slot j may move: the first later one in its own neighbourhood. */
  function Spare(c: Config, t: Table, j: nat): (d: nat)
    requires j < |t| == c.n
    ensures d <= c.hops
    ensures d < c.hops ==> t[j].neighOff < d && !t[At(c.n, Origin(c, t, j), d)].Occupied()
    ensures forall o: nat :: t[j].neighOff < o < d ==> t[At(c.n, Origin(c, t, j), o)].Occupied()
  {
    if t[j].neighOff + 1 <= c.hops then FirstFree(c, t, Origin(c, t, j), t[j].neighOff + 1) else c.hops
  }

  /** Largest offset below off whose entry can move; hops when none can. */
  function Movable(c: Config, t: Table, home: nat, off: nat): (r: nat)
    requires |t| == c.n && home < c.n && off <= c.hops
    ensures r < off || r == c.hops
    ensures r < c.hops ==> Spare(c, t, At(c.n, home, r)) < c.hops
    ensures forall o: nat :: o < off && (r == c.hops || r < o) ==> Spare(c, t, At(c.n, home, o)) == c.hops
  {
    hide Spare, At, FirstFree, Origin;
    if off == 0 then c.hops
    else if Spare(c, t, At(c.n, home, off - 1)) < c.hops then off - 1
    else Movable(c, t, home, off - 1)
  }

  datatype Room = NoRoom | Room(offset: nat, table: Table)

  /** The entry in slot j copied to its spare slot. */
  function Copied(c: Config, t: Table, j: nat): (r: Table)
    requires j < |t| == c.n && Spare(c, t, j) < c.hops
    ensures |r| == |t|
  {
    var d := Spare(c, t, j);
    t[At(c.n, Origin(c, t, j), d) := Slot(d % OFFSET_LIMIT, t[j].tag, t[j].kvSize, t[j].pba % PBA_LIMIT)]
  }

  function FindFree(c: Config, t: Table, home: nat): (r: Room)
    requires |t| == c.n && home < c.n
    ensures r.Room? ==> r.offset < c.hops && |r.table| == |t|
  {
    var free := FirstFree(c, t, home, 0);
    if free < c.hops then Room(free, t)
    else
      var o := Movable(c, t, home, c.hops);
      if o == c.hops then NoRoom else Room(o, Copied(c, t, At(c.n, home, o)))
  }

  /** Complete for one hop: no room iff the window is full and nothing in it has a free later slot of its own. */
  lemma NoRoomIff(c: Config, t: Table, home: nat)
    requires |t| == c.n && home < c.n
    ensures FindFree(c, t, home).NoRoom? <==>
      && (forall o: nat :: o < c.hops ==> t[At(c.n, home, o)].Occupied())
      && (forall o: nat, d: nat :: o < c.hops && t[At(c.n, home, o)].neighOff < d < c.hops ==>
           t[At(c.n, Origin(c, t, At(c.n, home, o)), d)].Occupied())
  {
    if FindFree(c, t, home).NoRoom? {
      forall o: nat, d: nat | o < c.hops && t[At(c.n, home, o)].neighOff < d < c.hops
        ensures t[At(c.n, Origin(c, t, At(c.n, home, o)), d)].Occupied()
      {
        assert Spare(c, t, At(c.n, home, o)) == c.hops;
      }
    }
  }

  /** Offset d of its own neighbourhood is a free slot that the entry in slot j may move to. */
  predicate CanMove(c: Config, t: Table, j: nat, d: nat)
    requires j < |t| == c.n
  {
    t[j].neighOff < d < c.hops && !t[At(c.n, Origin(c, t, j), d)].Occupied()
  }

  /** No slot of the window is free before offset end. */
  ghost predicate FullUpTo(c: Config, t: Table, home: nat, end: nat)
    requires |t| == c.n && home < c.n && end <= c.hops
  {
    forall o: nat :: o < end ==> t[At(c.n, home, o)].Occupied()
  }

  /**
   Which slot is chosen: the first free one of the window, or else that of the last entry in it that can move; the
   entry is copied to the first slot that it may move to.
   */
  lemma RoomIsNearest(c: Config, t: Table, home: nat, o: nat)
    requires |t| == c.n && home < c.n && o < c.hops
    ensures FullUpTo(c, t, home, o) && !t[At(c.n, home, o)].Occupied() ==> FindFree(c, t, home) == Room(o, t)
    ensures FullUpTo(c, t, home, c.hops) && FindFree(c, t, home).Room? ==>
      var room, j := FindFree(c, t, home), At(c.n, home, FindFree(c, t, home).offset);
      && (room.offset < o ==> forall d: nat :: !CanMove(c, t, At(c.n, home, o), d))
      && exists d: nat :: CanMove(c, t, j, d) && (forall i: nat :: i < d ==> !CanMove(c, t, j, i))
           && room.table == t[At(c.n, Origin(c, t, j), d) := Slot(d, t[j].tag, t[j].kvSize, t[j].pba % PBA_LIMIT)]
  {
    hide Origin, FirstFree;
    var room := FindFree(c, t, home);
    if FullUpTo(c, t, home, c.hops) && room.Room? {
      var j := At(c.n, home, room.offset);
      assert CanMove(c, t, j, Spare(c, t, j));
      if room.offset < o { assert Spare(c, t, At(c.n, home, o)) == c.hops; }
    }
  }

  /** For a well-formed entry, Origin is the home of its key. */
  lemma OriginIsHome(c: Config, t: Table, log: Log, j: nat)
    requires WellFormed(c, t, log) && j < |t| && t[j].Occupied()
    ensures t[j].pba in log && Origin(c, t, j) == Home(c, log[t[j].pba].key)
  {
    assert HoldsRecord(c, t, log, j);
    BackIsModulo(c.n, Home(c, log[t[j].pba].key), t[j].neighOff);
  }

  // ---------- A whole SET

  datatype Put = Put(key: Name, grains: nat)

  function Filled(off: nat, tag: nat, grains: nat, a: nat): (s: Slot) {
    Slot(off % OFFSET_LIMIT, tag % TAG_LIMIT, grains % SIZE_LIMIT, a % PBA_LIMIT)
  }

  /** The table after a SET ran to completion, its record at address a; None when the code aborts. */
  function SetResult(c: Config, t: Table, log: Log, put: Put, a: nat): (r: Option<Table>)
    requires |t| == c.n
    ensures r.Some? ==> |r.value| == |t|
  {
    var home, tag := Home(c, put.key), Tag(c, put.key);
    var o := FindKey(c, t, log, put.key, 0, Some([]));
    if o < c.hops then Some(t[At(c.n, home, o) := Filled(o, tag, put.grains, a)])
    else
      var room := FindFree(c, t, home);
      if room.NoRoom? then None
      else Some(room.table[At(c.n, home, room.offset) := Filled(room.offset, tag, put.grains, a)])
  }

  ghost predicate PutOk(log: Log, put: Put, a: nat) {
    put.key != [] && 0 < put.grains < SIZE_LIMIT && a !in log && a < PBA_INVALID
  }

  /** The log after the record was written; a write of no grains writes nothing. */
  function Logged(log: Log, put: Put, a: nat): (r: Log) {
    if put.grains % SIZE_LIMIT == 0 then log else log[a := Record(put.key, put.grains % SIZE_LIMIT)]
  }

  // ---------- What a SET does to the map

  /** A record written into a slot that is free or holds its own key: only that key's binding changes. */
  lemma FillOk(c: Config, t: Table, log: Log, put: Put, o: nat, a: nat)
    requires WellFormed(c, t, log) && PutOk(log, put, a) && o < c.hops
    requires forall j :: 0 <= j < |t| && Holds(t, log, j, put.key) ==> j == At(c.n, Home(c, put.key), o)
    requires !t[At(c.n, Home(c, put.key), o)].Occupied() || Holds(t, log, At(c.n, Home(c, put.key), o), put.key)
    ensures var t' := t[At(c.n, Home(c, put.key), o) := Filled(o, Tag(c, put.key), put.grains, a)];
      WellFormed(c, t', Logged(log, put, a))
  {
    hide Home, Tag;
    var p := At(c.n, Home(c, put.key), o);
    var t', log' := t[p := Filled(o, Tag(c, put.key), put.grains, a)], Logged(log, put, a);
    assert t'[p] == Slot(o, Tag(c, put.key), put.grains, a);
    forall j | 0 <= j < |t'|
      ensures HoldsRecord(c, t', log', j)
    {
      assert HoldsRecord(c, t, log, j);
    }
    forall i, j, k | 0 <= i < |t'| && 0 <= j < |t'| && Holds(t', log', i, k) && Holds(t', log', j, k)
      ensures i == j
    {
      assert HoldsRecord(c, t, log, i) && HoldsRecord(c, t, log, j);
      assert i != p ==> Holds(t, log, i, k);
      assert j != p ==> Holds(t, log, j, k);
    }
  }

  lemma FillLatest(c: Config, t: Table, log: Log, put: Put, o: nat, a: nat, k: Name)
    requires WellFormed(c, t, log) && PutOk(log, put, a) && o < c.hops
    requires forall j :: 0 <= j < |t| && Holds(t, log, j, put.key) ==> j == At(c.n, Home(c, put.key), o)
    requires !t[At(c.n, Home(c, put.key), o)].Occupied() || Holds(t, log, At(c.n, Home(c, put.key), o), put.key)
    ensures var t' := t[At(c.n, Home(c, put.key), o) := Filled(o, Tag(c, put.key), put.grains, a)];
      && Latest(t', Logged(log, put, a), k) == (if k == put.key then Some(a) else Latest(t, log, k))
      && (k != put.key && Present(t, log, k) ==> SlotOf(t', Logged(log, put, a), k) == SlotOf(t, log, k))
      && Present(t', Logged(log, put, a), put.key)
      && SlotOf(t', Logged(log, put, a), put.key) == At(c.n, Home(c, put.key), o)
  {
    hide Home, Tag;
    var p := At(c.n, Home(c, put.key), o);
    var t', log' := t[p := Filled(o, Tag(c, put.key), put.grains, a)], Logged(log, put, a);
    FillOk(c, t, log, put, o, a);
    assert t'[p].pba == a;
    LatestAt(t', log', p, put.key);
    if k != put.key {
      if Present(t, log, k) {
        assert Holds(t', log', SlotOf(t, log, k), k);
        LatestAt(t', log', SlotOf(t, log, k), k);
      } else if Present(t', log', k) {
        var j := SlotOf(t', log', k);
        assert HoldsRecord(c, t, log, j);
        var same := Holds(t, log, j, k);
      }
    }
  }

  /** The entry of slot j moved to its spare slot, with slot j given up. */
  ghost function Moved(c: Config, t: Table, j: nat): (r: Table)
    requires j < |t| == c.n && Spare(c, t, j) < c.hops
    ensures |r| == |t|
  {
    Copied(c, t, j)[j := BLANK]
  }

  /** A displaced entry lands in its own neighbourhood, further from its home than before. */
  lemma MovedSlot(c: Config, t: Table, log: Log, j: nat)
    requires WellFormed(c, t, log) && j < |t| && t[j].Occupied()
    requires Spare(c, t, j) < c.hops
    ensures t[j].pba in log
    ensures var k, d := log[t[j].pba].key, Spare(c, t, j);
      var q := At(c.n, Home(c, k), d);
      && t[j].neighOff < d && !t[q].Occupied() && q != j
      && Moved(c, t, j) == t[q := Slot(d, t[j].tag, t[j].kvSize, t[j].pba)][j := BLANK]
  {
    hide Home, Tag, Origin, Unique, FirstFree;
    OriginIsHome(c, t, log, j);
    assert HoldsRecord(c, t, log, j);
  }

  lemma MovedOk(c: Config, t: Table, log: Log, j: nat)
    requires WellFormed(c, t, log) && j < |t| && t[j].Occupied()
    requires Spare(c, t, j) < c.hops
    ensures WellFormed(c, Moved(c, t, j), log)
  {
    hide Home, Tag, Spare, Copied, Moved, Origin;
    MovedSlot(c, t, log, j);
    var q := At(c.n, Home(c, log[t[j].pba].key), Spare(c, t, j));
    var t' := Moved(c, t, j);
    forall i | 0 <= i < |t'|
      ensures HoldsRecord(c, t', log, i)
    {
      assert HoldsRecord(c, t, log, i) && HoldsRecord(c, t, log, j);
    }
    forall i, i', k | 0 <= i < |t'| && 0 <= i' < |t'| && Holds(t', log, i, k) && Holds(t', log, i', k)
      ensures i == i'
    {
      assert Holds(t, log, if i == q then j else i, k);
      assert Holds(t, log, if i' == q then j else i', k);
    }
  }

  /** Displacement moves a key forward and changes no binding. */
  lemma MovedLatest(c: Config, t: Table, log: Log, j: nat, k: Name)
    requires WellFormed(c, t, log) && j < |t| && t[j].Occupied()
    requires Spare(c, t, j) < c.hops
    ensures Latest(Moved(c, t, j), log, k) == Latest(t, log, k)
    ensures Present(t, log, k) ==>
      && Present(Moved(c, t, j), log, k)
      && t[SlotOf(t, log, k)].neighOff <= Moved(c, t, j)[SlotOf(Moved(c, t, j), log, k)].neighOff
  {
    hide Home, Tag, Spare, Copied, Moved, Origin, HoldsRecord;
    MovedSlot(c, t, log, j);
    MovedOk(c, t, log, j);
    var q := At(c.n, Home(c, log[t[j].pba].key), Spare(c, t, j));
    var t' := Moved(c, t, j);
    if Present(t, log, k) {
      var i := SlotOf(t, log, k);
      LatestAt(t', log, if i == j then q else i, k);
    } else if Present(t', log, k) {
      var i := SlotOf(t', log, k);
      var same := Holds(t, log, if i == q then j else i, k);
    }
  }

  // ---------- The three ways a SET ends

  /** Where a SET puts its record, and the table just before: nothing else holds its key there. */
  ghost function Landing(c: Config, t: Table, log: Log, put: Put): (r: Option<(nat, Table)>)
    requires |t| == c.n
  {
    var home := Home(c, put.key);
    var o := FindKey(c, t, log, put.key, 0, Some([]));
    var free := FirstFree(c, t, home, 0);
    var m := Movable(c, t, home, c.hops);
    if o < c.hops then Some((o, t))
    else if free < c.hops then Some((free, t))
    else if m < c.hops then Some((m, Moved(c, t, At(c.n, home, m))))
    else None
  }

  lemma SetLands(c: Config, t: Table, log: Log, put: Put, a: nat)
    requires WellFormed(c, t, log)
    ensures SetResult(c, t, log, put, a).Some? <==> Landing(c, t, log, put).Some?
    ensures SetResult(c, t, log, put, a).Some? ==>
      var (o, t') := Landing(c, t, log, put).value;
      && o < c.hops && |t'| == c.n
      && SetResult(c, t, log, put, a).value
           == t'[At(c.n, Home(c, put.key), o) := Filled(o, Tag(c, put.key), put.grains, a)]
  {
    hide Home, Tag, Spare, Filled, FindKey, FirstFree, Movable;
  }

  /** A slot that may take the key's record: free, or the key's own; nothing visible differs from before. */
  ghost predicate LandsOk(c: Config, before: Table, t: Table, log: Log, put: Put, o: nat, k: Name)
    requires |before| == |t| == c.n
  {
    && o < c.hops && WellFormed(c, t, log)
    && var p := At(c.n, Home(c, put.key), o);
    && (!t[p].Occupied() || Holds(t, log, p, put.key))
    && (Present(t, log, put.key) ==> SlotOf(t, log, put.key) == p)
    && Latest(t, log, k) == Latest(before, log, k)
    && (Present(before, log, k) ==>
         Present(t, log, k) && before[SlotOf(before, log, k)].neighOff <= t[SlotOf(t, log, k)].neighOff)
  }

  lemma LandingMoved(c: Config, t: Table, log: Log, put: Put, m: nat, k: Name)
    requires WellFormed(c, t, log) && m < c.hops
    requires FirstFree(c, t, Home(c, put.key), 0) == c.hops && !Present(t, log, put.key)
    requires Spare(c, t, At(c.n, Home(c, put.key), m)) < c.hops
    ensures LandsOk(c, t, Moved(c, t, At(c.n, Home(c, put.key), m)), log, put, m, k)
  {
    hide Home, Tag, Spare, FindKey, Movable, HoldsRecord, Moved, Unique;
    var j := At(c.n, Home(c, put.key), m);
    assert t[j].Occupied();
    hide FirstFree;
    MovedOk(c, t, log, j);
    MovedLatest(c, t, log, j, k);
    MovedLatest(c, t, log, j, put.key);
    MovedFrees(c, t, j);
  }

  lemma LandingMatch(c: Config, t: Table, log: Log, put: Put, k: Name)
    requires WellFormed(c, t, log) && Present(t, log, put.key)
    ensures LandsOk(c, t, t, log, put, t[SlotOf(t, log, put.key)].neighOff, k)
  {
    hide Home, Tag, Unique;
    OwnSlot(c, t, log, put.key);
  }

  /** Before the final fill no other slot holds the key, nothing visible has changed, keys only moved forward. */
  lemma LandingOk(c: Config, t: Table, log: Log, put: Put, k: Name)
    requires WellFormed(c, t, log) && put.key != [] && Landing(c, t, log, put).Some?
    ensures var (o, t') := Landing(c, t, log, put).value;
      |t'| == c.n && LandsOk(c, t, t', log, put, o, k)
  {
    FindKeyIsLookup(c, t, log, put.key, 0, Some([]));
    var home := Home(c, put.key);
    var o, free, m := FindKey(c, t, log, put.key, 0, Some([])), FirstFree(c, t, home, 0), Movable(c, t, home, c.hops);
    hide Home, Tag, Spare, FindKey, FirstFree, Movable, WellFormed, Moved, LandsOk;
    if o < c.hops {
      LandingMatch(c, t, log, put, k);
    } else if free < c.hops {
      LandingFree(c, t, log, put, k);
    } else {
      LandingMoved(c, t, log, put, m, k);
    }
  }

  lemma LandingFree(c: Config, t: Table, log: Log, put: Put, k: Name)
    requires WellFormed(c, t, log) && !Present(t, log, put.key)
    requires FirstFree(c, t, Home(c, put.key), 0) < c.hops
    ensures LandsOk(c, t, t, log, put, FirstFree(c, t, Home(c, put.key), 0), k)
  {
    hide Home, Unique, FirstFree, HoldsRecord;
  }

  lemma MovedFrees(c: Config, t: Table, j: nat)
    requires j < |t| == c.n && Spare(c, t, j) < c.hops
    ensures Moved(c, t, j)[j] == BLANK
  {
  }

  /** A SET that finds room keeps the table well formed and rebinds its own key, no other. */
  lemma SetUpdatesMap(c: Config, t: Table, log: Log, put: Put, a: nat, k: Name)
    requires WellFormed(c, t, log) && PutOk(log, put, a)
    requires SetResult(c, t, log, put, a).Some?
    ensures var t', log' := SetResult(c, t, log, put, a).value, Logged(log, put, a);
      && WellFormed(c, t', log')
      && Latest(t', log', k) == if k == put.key then Some(a) else Latest(t, log, k)
  {
    hide Home, Tag, Spare, FindKey, FirstFree, Movable, HoldsRecord, Moved, Landing, SetResult, WellFormed;
    SetLands(c, t, log, put, a);
    LandingOk(c, t, log, put, k);
    var (o, t') := Landing(c, t, log, put).value;
    OnlySlot(c, t', log, put.key);
    FillOk(c, t', log, put, o, a);
    FillLatest(c, t', log, put, o, a, k);
  }

  lemma OnlySlot(c: Config, t: Table, log: Log, k: Name)
    requires WellFormed(c, t, log)
    ensures forall j :: 0 <= j < |t| && Holds(t, log, j, k) ==> Present(t, log, k) && j == SlotOf(t, log, k)
  {
  }

  /** Whatever SETs happen, a key that is present stays present and never moves back towards its home. */
  lemma SetMovesForward(c: Config, t: Table, log: Log, put: Put, a: nat, k: Name)
    requires WellFormed(c, t, log) && PutOk(log, put, a)
    requires SetResult(c, t, log, put, a).Some? && Present(t, log, k)
    ensures var t', log' := SetResult(c, t, log, put, a).value, Logged(log, put, a);
      Present(t', log', k) && t[SlotOf(t, log, k)].neighOff <= t'[SlotOf(t', log', k)].neighOff
  {
    hide Home, Tag, Spare, FindKey, FirstFree, Movable, HoldsRecord, Moved, Landing, SetResult, WellFormed;
    SetLands(c, t, log, put, a);
    LandingOk(c, t, log, put, k);
    var (o, t') := Landing(c, t, log, put).value;
    OnlySlot(c, t', log, put.key);
    FillLatest(c, t', log, put, o, a, k);
    if k == put.key {
      OwnSlotLanding(c, t', log, put, o);
    }
  }

  lemma OwnSlotLanding(c: Config, t: Table, log: Log, put: Put, o: nat)
    requires WellFormed(c, t, log) && Present(t, log, put.key) && o < c.hops
    requires SlotOf(t, log, put.key) == At(c.n, Home(c, put.key), o)
    ensures t[SlotOf(t, log, put.key)].neighOff == o && o % OFFSET_LIMIT == o
  {
    OwnSlot(c, t, log, put.key);
  }

  /** A SET aborts exactly when its key is new and its window has no room, even after one displacement. */
  lemma SetAbortsIff(c: Config, t: Table, log: Log, put: Put, a: nat)
    requires WellFormed(c, t, log) && put.key != []
    ensures SetResult(c, t, log, put, a).None? <==>
      !Present(t, log, put.key) && FindFree(c, t, Home(c, put.key)).NoRoom?
  {
    FindKeyIsLookup(c, t, log, put.key, 0, Some([]));
    hide FindKey, WellFormed, FindFree, Home, Tag, Filled;
  }
}
