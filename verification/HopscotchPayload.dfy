/**
 What a hopscotch SET writes behind its key. The comparison reads of its scan go into the request's own value
 buffer, so what reaches the log behind the key is the client's only if the scan read no record.
 */
module HopscotchPayload {
  import opened Common
  import opened KeyRecord
  import opened Multiples
  import opened Ring
  import opened Hopscotch

  /** The bytes of the log's records, by address. */
  type Contents = map<nat, seq<Byte>>

  /** Every record has its whole grains, at least one, and spells its key at the head of the first. */
  ghost predicate HasContents(c: Config, log: Log, contents: Contents) {
    forall a :: a in log ==>
      && a in contents && 0 < log[a].grains && |contents[a]| == log[a].grains * c.grain
      && |log[a].key| < c.grain && NameAt(contents[a]) == Some(log[a].key)
  }

  /** Number of grains that the size field of a value of that many bytes says. */
  function SizeField(c: Config, len: nat): (n: nat)
    ensures n * c.grain <= len
  {
    WholeGrains(len / c.grain % SIZE_LIMIT, len, c.grain);
    len / c.grain % SIZE_LIMIT
  }

  /** What a SET writes of its value buffer: the key over the head, and as many grains as the size field says. */
  function Written(c: Config, k: Name, data: seq<Byte>): (r: seq<Byte>)
    ensures |r| == SizeField(c, |data|) * c.grain
  {
    (if |k| < |data| then WithKey(k, data) else data)[..SizeField(c, |data|) * c.grain]
  }

  /** The contents after a SET; a write of no grains writes nothing. */
  function Stored(c: Config, contents: Contents, k: Name, a: nat, data: seq<Byte>): (r: Contents) {
    if SizeField(c, |data|) == 0 then contents else contents[a := Written(c, k, data)]
  }

  lemma SetKeepsContents(c: Config, log: Log, contents: Contents, put: Put, a: nat, data: seq<Byte>)
    requires HasContents(c, log, contents) && put.grains == |data| / c.grain && |put.key| < c.grain
    ensures HasContents(c, Logged(log, put, a), Stored(c, contents, put.key, a, data))
  {
    var n := SizeField(c, |data|);
    assert n == put.grains % SIZE_LIMIT;
    if n > 0 {
      OneGrain(n, c.grain);
      NameAtHead(put.key, data);
      NameAtPrefix(WithKey(put.key, data), n * c.grain, put.key);
    }
    hide SizeField, NameAt, WithKey;
  }

  /** The buffer after a read into its head; what would run over its end is cut off. */
  function Overlaid(data: seq<Byte>, read: seq<Byte>): (r: seq<Byte>)
    ensures |r| == |data|
    ensures forall i :: 0 <= i < |data| ==> r[i] == if i < |read| then read[i] else data[i]
  {
    if |read| <= |data| then read + data[|read|..] else read[..|data|]
  }

  /** Whether the read of a slot brings a record. */
  predicate BringsRecord(log: Log, s: Slot) { s.kvSize > 0 && s.pba in log }

  function DataAfter(log: Log, contents: Contents, s: Slot, data: seq<Byte>): (r: seq<Byte>)
    ensures |r| == |data|
  {
    if BringsRecord(log, s) && s.pba in contents then Overlaid(data, contents[s.pba]) else data
  }

  /** What the buffer spells after a read, as the table scans take it. */
  lemma ReadSpells(c: Config, log: Log, contents: Contents, s: Slot, data: seq<Byte>)
    requires HasContents(c, log, contents) && c.grain <= |data|
    ensures NameAt(DataAfter(log, contents, s, data)) == ReadInto(log, s, NameAt(data))
  {
    if BringsRecord(log, s) {
      var k, read := log[s.pba].key, contents[s.pba];
      OneGrain(log[s.pba].grains, c.grain);
      assert Overlaid(data, read)[1..1 + |k|] == read[1..1 + |k|];
    }
  }

  /** The value buffer when the scan of a SET ends, at a match or for want of another tag hit. */
  function FinalData(c: Config, t: Table, log: Log, contents: Contents, k: Name, off: nat, buf: Option<Name>,
                     data: seq<Byte>): (r: seq<Byte>)
    requires |t| == c.n && off <= c.hops
    ensures |r| == |data|
    decreases c.hops - off
  {
    var o := FirstTag(c, t, Home(c, k), off, Tag(c, k));
    if o == c.hops then data
    else
      var s := t[At(c.n, Home(c, k), o)];
      var buf' := ReadInto(log, s, buf);
      var data' := DataAfter(log, contents, s, data);
      if Matches(buf', k) then data' else FinalData(c, t, log, contents, k, o + 1, buf', data')
  }

  /** The scan reads some record. */
  predicate ReadsRecord(c: Config, t: Table, log: Log, k: Name, off: nat, buf: Option<Name>)
    requires |t| == c.n && off <= c.hops
    decreases c.hops - off
  {
    var o := FirstTag(c, t, Home(c, k), off, Tag(c, k));
    o < c.hops &&
      var s := t[At(c.n, Home(c, k), o)];
      var buf' := ReadInto(log, s, buf);
      BringsRecord(log, s) || (!Matches(buf', k) && ReadsRecord(c, t, log, k, o + 1, buf'))
  }

  // ---------- What a SET leaves in the log

  /** The log after a SET: what the scan left in the client's buffer, with the key over its head, is at address a. */
  function LogAfter(c: Config, t: Table, log: Log, contents: Contents, k: Name, a: nat, data: seq<Byte>): (r: Contents)
    requires |t| == c.n
  {
    Stored(c, contents, k, a, FinalData(c, t, log, contents, k, 0, NameAt(data), data))
  }

  /** Addresses of the records under the key's tag at the offsets from off to end of its window. */
  function RecordsWithin(c: Config, t: Table, k: Name, off: nat, end: nat): (addresses: seq<nat>)
    requires |t| == c.n && off <= end <= c.hops
    decreases end - off
  {
    if off == end then []
    else
      var s := t[At(c.n, Home(c, k), off)];
      (if s.Occupied() && s.tag == Tag(c, k) then [s.pba] else []) + RecordsWithin(c, t, k, off + 1, end)
  }

  /** The offset behind the part of its window that the scan of a key goes through. */
  ghost function ScanEnd(c: Config, t: Table, log: Log, k: Name): (end: nat)
    requires |t| == c.n
    ensures end <= c.hops
  {
    if Present(t, log, k) && t[SlotOf(t, log, k)].neighOff < c.hops then t[SlotOf(t, log, k)].neighOff + 1 else c.hops
  }

  /** The records that stand between the home slot of a key and its own slot or the end of the window. */
  ghost function RecordsInTheWay(c: Config, t: Table, log: Log, k: Name): (addresses: seq<nat>)
    requires |t| == c.n
  {
    RecordsWithin(c, t, k, 0, ScanEnd(c, t, log, k))
  }

  /** Byte i of a buffer after the records at the given addresses were read into its head one after the other. */
  function ByteLeft(contents: Contents, addresses: seq<nat>, data: seq<Byte>, i: nat): (r: Byte)
    requires i < |data|
  {
    if addresses == [] then data[i]
    else
      var last := |addresses| - 1;
      if addresses[last] in contents && i < |contents[addresses[last]]| then contents[addresses[last]][i]
      else ByteLeft(contents, addresses[..last], data, i)
  }

  /**
   From one state of the log to the next, a record of key k went to address a: as many whole grains as the size field
   counts, the key at the head, and behind it the bytes that the records read left in the buffer. Nothing is written
   if the size field counts no grain.
   */
  ghost predicate LogsRecord(c: Config, before: Contents, after: Contents, k: Name, a: nat, read: seq<nat>, data: seq<Byte>) {
    var n := |data| / c.grain % SIZE_LIMIT * c.grain;
    if n == 0 then after == before
    else
      && a in after && after == before[a := after[a]]
      && |k| < |after[a]| == n <= |data|
      && after[a][0] == |k| && after[a][1..1 + |k|] == k
      && forall i :: |k| < i < n ==> after[a][i] == ByteLeft(before, read, data, i)
  }

  lemma {:induction false} FirstReadFirst(contents: Contents, a: nat, rest: seq<nat>, data: seq<Byte>, i: nat)
    requires i < |data| && a in contents
    ensures ByteLeft(contents, [a] + rest, data, i) == ByteLeft(contents, rest, Overlaid(data, contents[a]), i)
    decreases |rest|
  {
    hide Overlaid;
    var all, last := [a] + rest, |rest| - 1;
    if rest == [] {
      assert all[..0] == [];
    } else {
      assert all[|all| - 1] == rest[last] && all[..|all| - 1] == [a] + rest[..last];
      FirstReadFirst(contents, a, rest[..last], data, i);
    }
  }

  /** Between two offsets without an occupied slot under the tag there is nothing to read. */
  lemma {:induction false} SkipTo(c: Config, t: Table, k: Name, off: nat, next: nat, end: nat)
    requires |t| == c.n && off <= next <= end <= c.hops
    requires forall o: nat :: off <= o < next ==>
      t[At(c.n, Home(c, k), o)].tag != Tag(c, k) || !t[At(c.n, Home(c, k), o)].Occupied()
    ensures RecordsWithin(c, t, k, off, end) == RecordsWithin(c, t, k, next, end)
    decreases next - off
  {
    hide Home, Tag, At;
    if off < next { SkipTo(c, t, k, off + 1, next, end); }
  }

  /** The next tag hit of the scan is the first record in the way, or a free slot that is none, or there is none at all. */
  lemma NextInTheWay(c: Config, t: Table, k: Name, off: nat, end: nat)
    requires |t| == c.n && off <= end <= c.hops
    ensures var o := FirstTag(c, t, Home(c, k), off, Tag(c, k));
      if end <= o then RecordsWithin(c, t, k, off, end) == []
      else
        var s := t[At(c.n, Home(c, k), o)];
        RecordsWithin(c, t, k, off, end) == (if s.Occupied() then [s.pba] else []) + RecordsWithin(c, t, k, o + 1, end)
  {
    hide Home, Tag, At;
    var o := FirstTag(c, t, Home(c, k), off, Tag(c, k));
    SkipTo(c, t, k, off, if end <= o then end else o, end);
  }

  /** The next tag hit of a scan that has not passed its key: a match is the key's own slot, otherwise that lies ahead. */
  lemma HitCases(c: Config, t: Table, log: Log, k: Name, off: nat, buf: Option<Name>)
    requires WellFormed(c, t, log) && off <= c.hops && !Matches(buf, k)
    requires Present(t, log, k) ==> off <= t[SlotOf(t, log, k)].neighOff
    ensures ScanEnd(c, t, log, k) == if Present(t, log, k) then t[SlotOf(t, log, k)].neighOff + 1 else c.hops
    ensures var o := FirstTag(c, t, Home(c, k), off, Tag(c, k));
      if o == c.hops then !Present(t, log, k)
      else if Matches(ReadInto(log, t[At(c.n, Home(c, k), o)], buf), k) then
        Present(t, log, k) && t[SlotOf(t, log, k)].neighOff == o
      else Present(t, log, k) ==> o < t[SlotOf(t, log, k)].neighOff
  {
    hide Home, Tag, Unique, Present;
    var o := FirstTag(c, t, Home(c, k), off, Tag(c, k));
    if Present(t, log, k) { OwnSlot(c, t, log, k); }
    if o < c.hops && Matches(ReadInto(log, t[At(c.n, Home(c, k), o)], buf), k) { HitIsOwnSlot(c, t, log, k, o, buf); }
  }

  /** What the records in the way leave of one byte, from one tag hit of the scan to the next. */
  lemma NextByte(c: Config, t: Table, log: Log, contents: Contents, k: Name, off: nat, end: nat, data: seq<Byte>, i: nat)
    requires WellFormed(c, t, log) && HasContents(c, log, contents) && off <= end <= c.hops && i < |data|
    ensures var o := FirstTag(c, t, Home(c, k), off, Tag(c, k));
      ByteLeft(contents, RecordsWithin(c, t, k, off, end), data, i) ==
        if end <= o then data[i]
        else
          var read := DataAfter(log, contents, t[At(c.n, Home(c, k), o)], data);
          ByteLeft(contents, RecordsWithin(c, t, k, o + 1, end), read, i)
  {
    hide Home, Tag, At, RecordsWithin, FirstTag, Overlaid, Unique;
    NextInTheWay(c, t, k, off, end);
    var o := FirstTag(c, t, Home(c, k), off, Tag(c, k));
    if o < end {
      var j := At(c.n, Home(c, k), o);
      assert HoldsRecord(c, t, log, j);
      if t[j].Occupied() {
        FirstReadFirst(contents, t[j].pba, RecordsWithin(c, t, k, o + 1, end), data, i);
      } else {
        assert [] + RecordsWithin(c, t, k, o + 1, end) == RecordsWithin(c, t, k, o + 1, end);
      }
    }
  }

  lemma NextFinal(c: Config, t: Table, log: Log, contents: Contents, k: Name, off: nat, buf: Option<Name>, data: seq<Byte>)
    requires |t| == c.n && off <= c.hops
    ensures var o := FirstTag(c, t, Home(c, k), off, Tag(c, k));
      FinalData(c, t, log, contents, k, off, buf, data) ==
        if o == c.hops then data
        else
          var s := t[At(c.n, Home(c, k), o)];
          var buf', read := ReadInto(log, s, buf), DataAfter(log, contents, s, data);
          if Matches(buf', k) then read else FinalData(c, t, log, contents, k, o + 1, buf', read)
  {
    hide Home, Tag, At, ReadInto, DataAfter, Matches, FirstTag;
  }

  /** What the scan leaves in the buffer: of every byte, what the last record in the way that reaches it has there. */
  lemma {:induction false} ScanLeaves(c: Config, t: Table, log: Log, contents: Contents, k: Name, off: nat,
                                      buf: Option<Name>, data: seq<Byte>, i: nat)
    requires WellFormed(c, t, log) && HasContents(c, log, contents) && !Matches(buf, k)
    requires off <= ScanEnd(c, t, log, k) && i < |data|
    requires Present(t, log, k) ==> off <= t[SlotOf(t, log, k)].neighOff
    ensures FinalData(c, t, log, contents, k, off, buf, data)[i]
         == ByteLeft(contents, RecordsWithin(c, t, k, off, ScanEnd(c, t, log, k)), data, i)
    decreases c.hops - off
  {
    assert |t| == c.n;
    hide Home, Tag, At, ByteLeft, RecordsWithin, WellFormed, FirstTag, Present, HasContents, ScanEnd, SlotOf, ReadInto,
      DataAfter, Matches, FinalData;
    var o, end := FirstTag(c, t, Home(c, k), off, Tag(c, k)), ScanEnd(c, t, log, k);
    HitCases(c, t, log, k, off, buf);
    NextByte(c, t, log, contents, k, off, end, data, i);
    NextFinal(c, t, log, contents, k, off, buf, data);
    if o < c.hops {
      var s := t[At(c.n, Home(c, k), o)];
      var buf', read := ReadInto(log, s, buf), DataAfter(log, contents, s, data);
      if Matches(buf', k) {
        NothingRead(c, t, contents, k, end, read, i);
      } else {
        ScanLeaves(c, t, log, contents, k, o + 1, buf', read, i);
      }
    }
  }

  lemma NothingRead(c: Config, t: Table, contents: Contents, k: Name, end: nat, data: seq<Byte>, i: nat)
    requires |t| == c.n && end <= c.hops && i < |data|
    ensures RecordsWithin(c, t, k, end, end) == [] && ByteLeft(contents, [], data, i) == data[i]
  {
  }

  /** What is written of a buffer that has a grain to write: the key at the head, the buffer's bytes behind it. */
  lemma WrittenBytes(c: Config, k: Name, data: seq<Byte>)
    requires |k| < c.grain && 0 < |data| / c.grain % SIZE_LIMIT
    ensures var r := Written(c, k, data);
      && |r| == |data| / c.grain % SIZE_LIMIT * c.grain <= |data| && c.grain <= |r|
      && r[0] == |k| && r[1..1 + |k|] == k
      && forall i :: |k| < i < |r| ==> r[i] == data[i]
  {
    OneGrain(SizeField(c, |data|), c.grain);
    WithKeyBytes(k, data);
    hide WithKey;
  }

  /** The write at the end of a SET: the buffer's own bytes behind the key. */
  lemma BufferIsLogged(c: Config, contents: Contents, k: Name, a: nat, data: seq<Byte>)
    requires |k| < c.grain
    ensures LogsRecord(c, contents, Stored(c, contents, k, a, data), k, a, [], data)
  {
    hide Written;
    if 0 < |data| / c.grain % SIZE_LIMIT { WrittenBytes(c, k, data); }
  }

  lemma ScanLeavesAll(c: Config, t: Table, log: Log, contents: Contents, k: Name, data: seq<Byte>)
    requires WellFormed(c, t, log) && HasContents(c, log, contents) && NameAt(data) != Some(k)
    ensures |t| == c.n
    ensures forall i :: 0 <= i < |data| ==>
      FinalData(c, t, log, contents, k, 0, NameAt(data), data)[i] == ByteLeft(contents, RecordsInTheWay(c, t, log, k), data, i)
  {
    assert |t| == c.n;
    hide WellFormed, HasContents, FinalData, ByteLeft, RecordsWithin, NameAt, ScanEnd;
    forall i | 0 <= i < |data|
      ensures FinalData(c, t, log, contents, k, 0, NameAt(data), data)[i]
           == ByteLeft(contents, RecordsInTheWay(c, t, log, k), data, i)
    {
      ScanLeaves(c, t, log, contents, k, 0, NameAt(data), data, i);
    }
  }

  /**
   Byte by byte what a SET puts into the log, whatever the client's buffer holds, as long as its head does not spell
   the key already.
   */
  lemma SetLogsRecord(c: Config, t: Table, log: Log, contents: Contents, k: Name, a: nat, data: seq<Byte>)
    requires WellFormed(c, t, log) && HasContents(c, log, contents)
    requires |k| < c.grain <= |data| && NameAt(data) != Some(k)
    ensures LogsRecord(c, contents, LogAfter(c, t, log, contents, k, a, data), k, a, RecordsInTheWay(c, t, log, k), data)
  {
    hide WellFormed, HasContents, FinalData, ByteLeft, RecordsInTheWay, NameAt, Written;
    ScanLeavesAll(c, t, log, contents, k, data);
    if 0 < |data| / c.grain % SIZE_LIMIT {
      WrittenBytes(c, k, FinalData(c, t, log, contents, k, 0, NameAt(data), data));
    }
  }

  // ---------- Without a read the value survives, with one its head is lost

  lemma {:induction false} UntouchedWithoutRead(c: Config, t: Table, log: Log, contents: Contents, k: Name, off: nat,
                                                buf: Option<Name>, data: seq<Byte>)
    requires |t| == c.n && off <= c.hops && !ReadsRecord(c, t, log, k, off, buf)
    ensures FinalData(c, t, log, contents, k, off, buf, data) == data
    decreases c.hops - off
  {
    hide Home, Tag, Matches, FirstTag;
    var o := FirstTag(c, t, Home(c, k), off, Tag(c, k));
    if o < c.hops {
      var buf' := ReadInto(log, t[At(c.n, Home(c, k), o)], buf);
      if !Matches(buf', k) { UntouchedWithoutRead(c, t, log, contents, k, o + 1, buf', data); }
    }
  }

  /** No byte of the first grain that a scan with a read leaves depends on what the client sent. */
  lemma {:induction false} FirstGrainIsOverwritten(c: Config, t: Table, log: Log, contents: Contents, k: Name, off: nat,
                                                   buf: Option<Name>, x: seq<Byte>, y: seq<Byte>, i: nat)
    requires WellFormed(c, t, log) && HasContents(c, log, contents) && off <= c.hops
    requires i < c.grain && i < |x| == |y|
    requires ReadsRecord(c, t, log, k, off, buf) || x[i] == y[i]
    ensures FinalData(c, t, log, contents, k, off, buf, x)[i] == FinalData(c, t, log, contents, k, off, buf, y)[i]
    decreases c.hops - off
  {
    hide Home, Tag, Matches, FirstTag, Unique;
    var o := FirstTag(c, t, Home(c, k), off, Tag(c, k));
    if o < c.hops {
      var s := t[At(c.n, Home(c, k), o)];
      var buf' := ReadInto(log, s, buf);
      if BringsRecord(log, s) { OneGrain(log[s.pba].grains, c.grain); }
      if !Matches(buf', k) {
        FirstGrainIsOverwritten(c, t, log, contents, k, o + 1, buf',
          DataAfter(log, contents, s, x), DataAfter(log, contents, s, y), i);
      }
    }
  }

  /** A zero-filled buffer, as every request starts with, but for what the client put behind the key. */
  predicate Unread(data: seq<Byte>) { NameAt(data) == Some([]) }

  /** Whatever the client sent behind the key stands behind the key in the log, as far as the record goes. */
  ghost predicate TailSurvives(c: Config, t: Table, log: Log, contents: Contents, k: Name, a: nat, n: nat)
    requires |t| == c.n
  {
    forall data :: |data| == n && Unread(data) ==>
      TailLogged(LogAfter(c, t, log, contents, k, a, data), k, a, data)
  }

  /** The record at address a has the buffer's bytes behind the key. */
  predicate TailLogged(after: Contents, k: Name, a: nat, data: seq<Byte>) {
    a in after && |k| < |after[a]| <= |data| && after[a][1 + |k|..] == data[1 + |k|..|after[a]|]
  }

  lemma TailByte(after: Contents, k: Name, a: nat, data: seq<Byte>)
    requires a in after && 1 + |k| < |after[a]| <= |data| && after[a][1 + |k|] != data[1 + |k|]
    ensures !TailLogged(after, k, a, data)
  {
    assert after[a][1 + |k|..][0] != data[1 + |k|..|after[a]|][0];
  }

  /** What reaches the log behind the key is what the scan left in the buffer there. */
  lemma LoggedTail(c: Config, t: Table, log: Log, contents: Contents, k: Name, a: nat, data: seq<Byte>)
    requires |t| == c.n && |k| < c.grain <= |data| && 0 < |data| / c.grain % SIZE_LIMIT
    ensures var after := LogAfter(c, t, log, contents, k, a, data);
      var final := FinalData(c, t, log, contents, k, 0, NameAt(data), data);
      && a in after && c.grain <= |after[a]| <= |data|
      && forall i :: |k| < i < |after[a]| ==> after[a][i] == final[i]
  {
    var final := FinalData(c, t, log, contents, k, 0, NameAt(data), data);
    WrittenBytes(c, k, final);
    hide FinalData, NameAt, Written;
  }

  /**
   The client's value reaches the log behind the key, whatever it is, exactly when the scan reads no record; for
   every buffer that the size field gives a grain.
   */
  lemma PayloadSurvivesIff(c: Config, t: Table, log: Log, contents: Contents, k: Name, a: nat, n: nat)
    requires WellFormed(c, t, log) && HasContents(c, log, contents)
    requires 1 + |k| < c.grain <= n && 0 < n / c.grain % SIZE_LIMIT
    ensures TailSurvives(c, t, log, contents, k, a, n) <==> !ReadsRecord(c, t, log, k, 0, Some([]))
  {
    hide FinalData, ReadsRecord, HoldsRecord, Unique, HasContents, LogAfter;
    if ReadsRecord(c, t, log, k, 0, Some([])) {
      ClientIsNotHeard(c, t, log, contents, k, a, n);
    } else {
      forall data: seq<Byte> | |data| == n && Unread(data)
        ensures TailLogged(LogAfter(c, t, log, contents, k, a, data), k, a, data)
      {
        UntouchedWithoutRead(c, t, log, contents, k, 0, Some([]), data);
        LoggedTail(c, t, log, contents, k, a, data);
      }
    }
  }

  /** Of two buffers that differ behind the key the log shows the same there. */
  lemma ClientIsNotHeard(c: Config, t: Table, log: Log, contents: Contents, k: Name, a: nat, n: nat)
    requires WellFormed(c, t, log) && HasContents(c, log, contents)
    requires 1 + |k| < c.grain <= n && 0 < n / c.grain % SIZE_LIMIT && ReadsRecord(c, t, log, k, 0, Some([]))
    ensures !TailSurvives(c, t, log, contents, k, a, n)
  {
    hide FinalData, ReadsRecord, HoldsRecord, Unique, HasContents, LogAfter;
    var p := 1 + |k|;
    var x := seq(n, _ => 0);
    var y := x[p := 1];
    assert Unread(x) && Unread(y);
    FirstGrainIsOverwritten(c, t, log, contents, k, 0, Some([]), x, y, p);
    LoggedTail(c, t, log, contents, k, a, x);
    LoggedTail(c, t, log, contents, k, a, y);
    if LogAfter(c, t, log, contents, k, a, x)[a][p] != 0 {
      TailByte(LogAfter(c, t, log, contents, k, a, x), k, a, x);
    } else {
      TailByte(LogAfter(c, t, log, contents, k, a, y), k, a, y);
    }
  }

  // ---------- When a record is read

  /** From one tag hit of the scan to the next: a record there is read, a free slot is passed over. */
  lemma NextReads(c: Config, t: Table, log: Log, k: Name, off: nat, buf: Option<Name>)
    requires WellFormed(c, t, log) && off <= c.hops && !Matches(buf, k)
    ensures var o := FirstTag(c, t, Home(c, k), off, Tag(c, k));
      ReadsRecord(c, t, log, k, off, buf) <==>
        o < c.hops && (t[At(c.n, Home(c, k), o)].Occupied() || ReadsRecord(c, t, log, k, o + 1, buf))
    ensures var o := FirstTag(c, t, Home(c, k), off, Tag(c, k));
      o < c.hops && !t[At(c.n, Home(c, k), o)].Occupied() ==> ReadInto(log, t[At(c.n, Home(c, k), o)], buf) == buf
  {
    hide Home, Tag, Unique, FirstTag;
    var o := FirstTag(c, t, Home(c, k), off, Tag(c, k));
    if o < c.hops { assert HoldsRecord(c, t, log, At(c.n, Home(c, k), o)); }
  }

  /** What can be seen in the table before the SET: the scan reads a record iff one with its tag is in the way. */
  lemma {:induction false} ReadsRecordIff(c: Config, t: Table, log: Log, k: Name, off: nat, buf: Option<Name>)
    requires WellFormed(c, t, log) && off <= ScanEnd(c, t, log, k) && k != [] && !Matches(buf, k)
    requires Present(t, log, k) ==> off <= t[SlotOf(t, log, k)].neighOff
    ensures ReadsRecord(c, t, log, k, off, buf) <==> RecordsWithin(c, t, k, off, ScanEnd(c, t, log, k)) != []
    decreases c.hops - off
  {
    assert |t| == c.n;
    var o, end := FirstTag(c, t, Home(c, k), off, Tag(c, k)), ScanEnd(c, t, log, k);
    hide Home, Tag, WellFormed, Present, ScanEnd, FirstTag, At, RecordsWithin, ReadsRecord, SlotOf, ReadInto, Matches;
    HitCases(c, t, log, k, off, buf);
    NextReads(c, t, log, k, off, buf);
    NextInTheWay(c, t, k, off, end);
    if o < c.hops {
      if !t[At(c.n, Home(c, k), o)].Occupied() {
        assert [] + RecordsWithin(c, t, k, o + 1, end) == RecordsWithin(c, t, k, o + 1, end);
        ReadsRecordIff(c, t, log, k, o + 1, buf);
      }
    }
  }

  /**
   The client's value reaches the log behind the key, whatever it is, exactly when no slot with the key's tag holds
   a record in the part of the window that the scan goes through.
   */
  lemma ValueReachesLogIff(c: Config, t: Table, log: Log, contents: Contents, k: Name, a: nat, n: nat)
    requires WellFormed(c, t, log) && HasContents(c, log, contents) && k != []
    requires 1 + |k| < c.grain <= n && 0 < n / c.grain % SIZE_LIMIT
    ensures TailSurvives(c, t, log, contents, k, a, n) <==> RecordsInTheWay(c, t, log, k) == []
  {
    PayloadSurvivesIff(c, t, log, contents, k, a, n);
    ReadsRecordIff(c, t, log, k, 0, Some([]));
    hide TailSurvives, ReadsRecord, HoldsRecord, Unique, HasContents, RecordsWithin;
  }

  // ---------- Updates

  /** The scan of a present key ends with the read of its own record. */
  lemma {:induction false} EndsWithOwnRecord(c: Config, t: Table, log: Log, contents: Contents, k: Name, off: nat,
                                             buf: Option<Name>, data: seq<Byte>)
    requires WellFormed(c, t, log) && HasContents(c, log, contents) && off <= c.hops && k != [] && !Matches(buf, k)
    requires Present(t, log, k) && off <= t[SlotOf(t, log, k)].neighOff
    ensures var own := t[SlotOf(t, log, k)].pba;
      own in contents && forall i :: 0 <= i < |data| && i < |contents[own]| ==>
        FinalData(c, t, log, contents, k, off, buf, data)[i] == contents[own][i]
    decreases c.hops - off
  {
    hide Home, Tag, Unique;
    OwnSlot(c, t, log, k);
    var o := FirstTag(c, t, Home(c, k), off, Tag(c, k));
    var s := t[At(c.n, Home(c, k), o)];
    var buf' := ReadInto(log, s, buf);
    if Matches(buf', k) {
      HitIsOwnSlot(c, t, log, k, o, buf);
    } else {
      EndsWithOwnRecord(c, t, log, contents, k, o + 1, buf', DataAfter(log, contents, s, data));
    }
  }

  /** An update that is no longer than the record it replaces logs the bytes of that record once more. */
  lemma UpdateKeepsOldContent(c: Config, t: Table, log: Log, contents: Contents, k: Name, a: nat, data: seq<Byte>)
    requires WellFormed(c, t, log) && HasContents(c, log, contents) && k != [] && Present(t, log, k) && Unread(data)
    requires t[SlotOf(t, log, k)].pba in contents && c.grain <= |data| <= |contents[t[SlotOf(t, log, k)].pba]|
    ensures var own, n := contents[t[SlotOf(t, log, k)].pba], |data| / c.grain % SIZE_LIMIT * c.grain;
      && n <= |data|
      && LogAfter(c, t, log, contents, k, a, data) == if n == 0 then contents else contents[a := own[..n]]
  {
    EndsWithOwnRecord(c, t, log, contents, k, 0, Some([]), data);
    var own := contents[t[SlotOf(t, log, k)].pba];
    var final := FinalData(c, t, log, contents, k, 0, Some([]), data);
    assert NameAt(own) == Some(k) && |k| < c.grain;
    hide FinalData, WellFormed, HasContents;
    assert final == own[..|data|];
    NameAtPrefix(own, |data|, k);
    HeadIsKept(k, final);
    hide NameAt, WithKey;
    assert Written(c, k, final) == own[..SizeField(c, |data|) * c.grain];
  }
}
