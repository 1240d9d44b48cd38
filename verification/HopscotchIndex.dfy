/** The hopscotch index as the program keeps it: an entry array updated in place, one dispatch at a time. */
module HopscotchIndex {
  import opened Common
  import opened KeyRecord
  import opened Ring
  import opened Hopscotch
  import opened HopscotchRun
  import opened HopscotchPayload
  import opened HopscotchBytes

  datatype Progress = Init | KeyMatch | KeyMismatch

  datatype SetReply = Working | Done | Abort

  /** A request with the parameters that survive between its dispatches. */
  class Request {
    const put: Put
    var offset: nat
    var lookupStep: Progress
    var insertStep: Progress
    /** The value buffer; the reads of the scan go there too. */
    var data: seq<Byte>

    constructor (c: Config, key: Name, data: seq<Byte>)
      ensures put == Put(key, |data| / c.grain) && this.data == data
      ensures lookupStep == Init && insertStep == Init && offset == 0
    {
      this.put, this.data := Put(key, |data| / c.grain), data;
      offset, lookupStep, insertStep := 0, Init, Init;
    }

    /** The key that the head of the buffer spells. */
    function Spelled(): (r: Option<Name>)
      reads this
    {
      NameAt(data)
    }

    /** The buffer takes a grain, and so do the key and its length byte. */
    predicate Fits(c: Config)
      reads this
    {
      c.grain <= |data| && put.grains == |data| / c.grain && |put.key| < c.grain
    }

    /** Offset at which the scan of a GET goes on. */
    function LookupPos(): (r: nat)
      reads this
    {
      if lookupStep == KeyMismatch then offset + 1 else 0
    }

    /** Offset at which the scan of a SET goes on. */
    function InsertPos(): (r: nat)
      reads this
    {
      if insertStep == KeyMismatch then offset + 1 else 0
    }
  }

  /** What a SET will have done to the table when its scan goes on at off with the given buffer. */
  function SetFrom(c: Config, t: Table, log: Log, put: Put, off: nat, buf: Option<Name>, a: nat): (r: Option<Table>)
    requires |t| == c.n && off <= c.hops
    ensures r.Some? ==> |r.value| == |t|
  {
    var home, tag := Home(c, put.key), Tag(c, put.key);
    var o := FindKey(c, t, log, put.key, off, buf);
    if o < c.hops then Some(t[At(c.n, home, o) := Filled(o, tag, put.grains, a)])
    else
      var room := FindFree(c, t, home);
      if room.NoRoom? then None
      else Some(room.table[At(c.n, home, room.offset) := Filled(room.offset, tag, put.grains, a)])
  }

  class Index {
    const c: Config
    const entry: array<Slot>
    var log: Log
    var contents: Contents

    ghost predicate Valid()
      reads this
    {
      entry.Length == c.n && HasContents(c, log, contents)
    }

    constructor (c: Config)
      ensures Valid() && fresh(entry) && this.c == c && log == map[] && contents == map[] && entry[..] == Empty(c)
    {
      this.c := c;
      entry := new Slot[c.n](_ => BLANK);
      log, contents := map[], map[];
    }

    /** First offset at or after off with the tag, or -1. */
    method FindMatchingTag(idx: nat, off: nat, tag: nat) returns (r: int)
      requires Valid() && idx < c.n && off <= c.hops
      ensures r == if FirstTag(c, entry[..], idx, off, tag) < c.hops then FirstTag(c, entry[..], idx, off, tag) else -1
    {
      var offset := off;
      while offset < c.hops
        invariant off <= offset <= c.hops
        invariant FirstTag(c, entry[..], idx, off, tag) == FirstTag(c, entry[..], idx, offset, tag)
      {
        AtIsModulo(c.n, idx, offset);
        if entry[(idx + offset) % c.n].tag == tag { return offset; }
        offset := offset + 1;
      }
      return -1;
    }

    method FillEntry(j: nat, off: nat, tag: nat, size: nat, pba: nat)
      requires j < entry.Length
      modifies entry
      ensures entry[..] == old(entry[..])[j := Slot(off % OFFSET_LIMIT, tag % TAG_LIMIT, size % SIZE_LIMIT, pba % PBA_LIMIT)]
    {
      entry[j] := Slot(off % OFFSET_LIMIT, tag % TAG_LIMIT, size % SIZE_LIMIT, pba % PBA_LIMIT);
    }

    /** First later slot of the neighbourhood of the entry in slot j that is free; hops when there is none. */
    method FindSpare(j: nat) returns (d: nat)
      requires Valid() && j < c.n
      ensures d == Spare(c, entry[..], j)
    {
      var ori := (c.n + j - entry[j].neighOff) % c.n;
      d := entry[j].neighOff + 1;
      if d > c.hops { return c.hops; }
      while d < c.hops
        invariant entry[j].neighOff < d <= c.hops
        invariant Spare(c, entry[..], j) == FirstFree(c, entry[..], ori, d)
      {
        AtIsModulo(c.n, ori, d);
        if entry[(ori + d) % c.n].pba == PBA_INVALID { return; }
        d := d + 1;
      }
    }

    /** First loop of find_free_entry: the first free slot of the window; hops when it is full. */
    method FindFreeSlot(idx: nat) returns (offset: nat)
      requires Valid() && idx < c.n
      ensures offset == FirstFree(c, entry[..], idx, 0)
    {
      offset := 0;
      while offset < c.hops
        invariant offset <= c.hops && FirstFree(c, entry[..], idx, 0) == FirstFree(c, entry[..], idx, offset)
      {
        AtIsModulo(c.n, idx, offset);
        if entry[(idx + offset) % c.n].pba == PBA_INVALID { return; }
        offset := offset + 1;
      }
    }

    /** Copies the entry in slot j to its spare slot d. */
    method CopyEntry(j: nat, d: nat)
      requires Valid() && j < c.n && d == Spare(c, entry[..], j) < c.hops && InBits(entry[..])
      modifies entry
      ensures entry[..] == Copied(c, old(entry[..]), j)
    {
      hide Spare;
      var e := entry[j];
      assert e == entry[..][j];
      assert e.tag % TAG_LIMIT == e.tag && e.kvSize % SIZE_LIMIT == e.kvSize;
      var ori := (c.n + j - e.neighOff) % c.n;
      assert ori == Origin(c, entry[..], j);
      hide InBits, Origin, At;
      AtIsModulo(c.n, ori, d);
      FillEntry((ori + d) % c.n, d, e.tag, e.kvSize, e.pba);
    }

    /** Second loop: from the far end of the window, the first entry that can move is copied away. */
    method MakeFreeSlot(idx: nat) returns (offset: nat)
      requires Valid() && idx < c.n && InBits(entry[..])
      modifies entry
      ensures offset == Movable(c, old(entry[..]), idx, c.hops)
      ensures entry[..] == if offset < c.hops then Copied(c, old(entry[..]), At(c.n, idx, offset)) else old(entry[..])
    {
      hide Spare, Copied, InBits;
      offset := c.hops;
      while offset > 0
        invariant offset <= c.hops && entry[..] == old(entry[..])
        invariant Movable(c, entry[..], idx, c.hops) == Movable(c, entry[..], idx, offset)
      {
        offset := offset - 1;
        AtIsModulo(c.n, idx, offset);
        var current := (idx + offset) % c.n;
        var d := FindSpare(current);
        if d < c.hops {
          CopyEntry(current, d);
          return;
        }
      }
      return c.hops;
    }

    /** Offset of a slot to fill, or -1; an entry in the way has been copied to its own spare slot. */
    method FindFreeEntry(idx: nat) returns (r: int)
      requires Valid() && idx < c.n && InBits(entry[..])
      modifies entry
      ensures var room := FindFree(c, old(entry[..]), idx);
        && r == (if room.NoRoom? then -1 else room.offset)
        && entry[..] == if room.NoRoom? then old(entry[..]) else room.table
    {
      hide Copied, Spare, InBits;
      r := FindFreeSlot(idx);
      if r == c.hops {
        r := MakeFreeSlot(idx);
        if r == c.hops { return -1; }
      }
    }

    /** The stored tags and sizes fit their bit fields. */
    static ghost predicate InBits(t: Table) {
      forall j :: 0 <= j < |t| ==> t[j].tag < TAG_LIMIT && t[j].kvSize < SIZE_LIMIT
    }

    /** Every table that a run reaches fits its bit fields. */
    static lemma WellFormedInBits(c: Config, t: Table, log: Log)
      requires WellFormed(c, t, log)
      ensures InBits(t)
    {
      forall j | 0 <= j < |t|
        ensures t[j].tag < TAG_LIMIT && t[j].kvSize < SIZE_LIMIT
      {
        assert HoldsRecord(c, t, log, j);
      }
    }

    // ---------- Dispatches

    /** A read of the entry's record into the request's buffer; a free entry has no grains to read. */
    method ReadRecord(j: nat, req: Request)
      requires Valid() && j < entry.Length && c.grain <= |req.data|
      modifies req`data
      ensures req.data == DataAfter(log, contents, entry[j], old(req.data))
      ensures req.Spelled() == ReadInto(log, entry[j], old(req.Spelled()))
    {
      ReadSpells(c, log, contents, entry[j], req.data);
      if entry[j].kvSize > 0 && entry[j].pba in log && entry[j].pba in contents {
        req.data := Overlaid(req.data, contents[entry[j].pba]);
      }
    }

    /** The state of a GET as its request records it. */
    ghost function GetState(req: Request): (r: State)
      reads this, entry, req
    {
      State(entry[..], log, req.LookupPos(), req.Spelled(), Searching)
    }

    /**
     One dispatch of a GET: the step of the run model. A GET that finds its record ends with that record's bytes in
     its value buffer, as far as the buffer goes.
     */
    method Get(req: Request) returns (reply: Reply)
      requires Valid() && req.LookupPos() <= c.hops && c.grain <= |req.data|
      modifies req
      ensures reply == GetDispatch(c, old(GetState(req)), req.put.key).reply && |req.data| == old(|req.data|)
      ensures reply == Searching ==>
        && GetState(req) == GetDispatch(c, old(GetState(req)), req.put.key)
        && req.Spelled() != Some(req.put.key)
      ensures reply.Found? && old(req.Spelled()) != Some(req.put.key) ==>
        && req.Spelled() == Some(req.put.key) && reply.pba in contents
        && forall i :: 0 <= i < |req.data| && i < |contents[reply.pba]| ==> req.data[i] == contents[reply.pba][i]
      ensures req.data == DataAfterDispatch(c, contents, old(GetState(req)), req.put.key, old(req.data))
    {
      var idx, tag := Home(c, req.put.key), Tag(c, req.put.key);
      var off := if req.lookupStep == KeyMismatch then req.offset + 1 else 0;
      var o := FindMatchingTag(idx, off, tag);
      if o == -1 { return NotFound; }
      AtIsModulo(c.n, idx, o);
      var j := (idx + o) % c.n;
      req.offset := o;
      ReadRecord(j, req);
      if Matches(req.Spelled(), req.put.key) {
        req.lookupStep := KeyMatch;
        reply := Found(entry[j].pba);
      } else {
        req.lookupStep := KeyMismatch;
        reply := Searching;
      }
    }

    /** What is left to be done for a SET, as its request records it. */
    ghost function Ahead(req: Request, a: nat): (r: Option<Table>)
      requires Valid() && req.InsertPos() <= c.hops && (req.insertStep == KeyMatch ==> req.offset < c.hops)
      reads this, entry, req
    {
      if req.insertStep == KeyMatch then
        Some(entry[..][At(c.n, Home(c, req.put.key), req.offset) :=
          Filled(req.offset, Tag(c, req.put.key), req.put.grains, a)])
      else SetFrom(c, entry[..], log, req.put, req.InsertPos(), req.Spelled(), a)
    }

    /** The value that will be written for a SET, as its request records it. */
    ghost function DataAhead(req: Request): (r: seq<Byte>)
      requires Valid() && req.InsertPos() <= c.hops
      reads this, entry, req
    {
      if req.insertStep == KeyMatch then req.data
      else FinalData(c, entry[..], log, contents, req.put.key, req.InsertPos(), req.Spelled(), req.data)
    }

    /** One tag hit of the scan: the record there matches, or the scan goes on behind it. */
    static lemma OneHit(c: Config, t: Table, log: Log, put: Put, off: nat, buf: Option<Name>, a: nat)
      requires |t| == c.n && off <= c.hops
      ensures var home, tag := Home(c, put.key), Tag(c, put.key);
        var o := FirstTag(c, t, home, off, tag);
        if o == c.hops then FindKey(c, t, log, put.key, off, buf) == c.hops
        else
          var buf' := ReadInto(log, t[At(c.n, home, o)], buf);
          SetFrom(c, t, log, put, off, buf, a) ==
            if Matches(buf', put.key) then Some(t[At(c.n, home, o) := Filled(o, tag, put.grains, a)])
            else SetFrom(c, t, log, put, o + 1, buf', a)
    {
      hide Home, Tag, FindFree, Filled, Matches, ReadInto, FirstTag;
    }

    /** The scan of a SET goes one tag hit further and remembers how the comparison there went. */
    method ScanOn(req: Request, ghost a: nat) returns (hit: bool)
      requires Valid() && req.InsertPos() <= c.hops && req.insertStep != KeyMatch && c.grain <= |req.data|
      modifies req
      ensures |req.data| == old(|req.data|)
      ensures hit ==>
        && req.InsertPos() <= c.hops && req.offset < c.hops && Ahead(req, a) == old(Ahead(req, a))
        && DataAhead(req) == old(DataAhead(req))
        && (req.insertStep == KeyMatch || (req.insertStep == KeyMismatch && old(req.InsertPos()) < req.InsertPos()))
      ensures !hit ==>
        && unchanged(req) && FindKey(c, entry[..], log, req.put.key, req.InsertPos(), req.Spelled()) == c.hops
        && DataAhead(req) == req.data
    {
      hide Home, Tag, FindFree, Filled, Matches, ReadInto, SetFrom, FindKey, FirstTag;
      var idx, tag := Home(c, req.put.key), Tag(c, req.put.key);
      OneHit(c, entry[..], log, req.put, req.InsertPos(), req.Spelled(), a);
      var o := FindMatchingTag(idx, if req.insertStep == KeyMismatch then req.offset + 1 else 0, tag);
      if o == -1 { return false; }
      AtIsModulo(c.n, idx, o);
      req.offset := o;
      ReadRecord((idx + o) % c.n, req);
      req.insertStep := if Matches(req.Spelled(), req.put.key) then KeyMatch else KeyMismatch;
      hit := true;
    }

    /**
     One dispatch of a SET: the scan goes one tag hit further, or the table takes its final form and the buffer that
     the scan leaves goes to the log with the key at its head.
     */
    method Set(req: Request, a: nat) returns (reply: SetReply)
      requires Valid() && req.InsertPos() <= c.hops && req.offset < c.hops && InBits(entry[..]) && req.Fits(c)
      modifies this`log, this`contents, entry, req
      ensures Valid() && |req.data| == old(|req.data|)
      ensures reply == Working ==>
        && req.InsertPos() <= c.hops && req.offset < c.hops
        && entry[..] == old(entry[..]) && log == old(log) && contents == old(contents)
        && Ahead(req, a) == old(Ahead(req, a)) && DataAhead(req) == old(DataAhead(req))
        && old(req.insertStep) != KeyMatch
        && (req.insertStep == KeyMatch || (req.insertStep == KeyMismatch && old(req.InsertPos()) < req.InsertPos()))
      ensures reply == Done ==>
        && old(Ahead(req, a)) == Some(entry[..]) && log == Logged(old(log), req.put, a)
        && contents == Stored(c, old(contents), req.put.key, a, old(DataAhead(req)))
        && LogsRecord(c, old(contents), contents, req.put.key, a, [], old(DataAhead(req)))
      ensures reply == Abort ==> old(Ahead(req, a)) == None
    {
      hide Home, Tag, FindKey, FindFree, InBits, LogsRecord, Stored;
      var idx, tag := Home(c, req.put.key), Tag(c, req.put.key);
      var o := req.offset as int;
      if req.insertStep != KeyMatch {
        var hit := ScanOn(req, a);
        if hit { return Working; }
        o := FindFreeEntry(idx);
        if o == -1 { return Abort; }
      }
      AtIsModulo(c.n, idx, o);
      FillEntry((idx + o) % c.n, o, tag, req.put.grains, a);
      SetKeepsContents(c, log, contents, req.put, a, req.data);
      BufferIsLogged(c, contents, req.put.key, a, req.data);
      log, contents := Logged(log, req.put, a), Stored(c, contents, req.put.key, a, req.data);
      reply := Done;
    }

    /** A SET dispatched until it is done: the table becomes what the specification of a whole SET says. */
    method SetToCompletion(req: Request, a: nat) returns (ok: bool)
      requires Valid() && req.insertStep == Init && req.offset == 0 && InBits(entry[..])
      requires req.Fits(c) && Unread(req.data)
      modifies this`log, this`contents, entry, req
      ensures ok <==> SetResult(c, old(entry[..]), old(log), req.put, a).Some?
      ensures ok ==>
        && entry[..] == SetResult(c, old(entry[..]), old(log), req.put, a).value
        && log == Logged(old(log), req.put, a)
        && contents == LogAfter(c, old(entry[..]), old(log), old(contents), req.put.key, a, old(req.data))
      ensures ok && WellFormed(c, old(entry[..]), old(log)) && req.put.key != [] ==>
        LogsRecord(c, old(contents), contents, req.put.key, a,
                   RecordsInTheWay(c, old(entry[..]), old(log), req.put.key), old(req.data))
    {
      hide SetFrom, FindKey, InBits, SetResult, Home, Tag, Filled, FinalData, WellFormed, LogsRecord, RecordsInTheWay;
      ghost var value := DataAhead(req);
      ghost var goal := SetResult(c, entry[..], log, req.put, a);
      assert Ahead(req, a) == goal by { WholeSet(c, entry[..], log, req.put, a); }
      var reply := Working;
      while reply == Working
        invariant Valid() && |req.data| == old(|req.data|)
        invariant reply == Working ==>
          && req.InsertPos() <= c.hops && req.offset < c.hops
          && entry[..] == old(entry[..]) && log == old(log) && contents == old(contents)
          && Ahead(req, a) == goal && DataAhead(req) == value
        invariant reply == Done ==>
          goal == Some(entry[..]) && log == Logged(old(log), req.put, a) && contents == Stored(c, old(contents), req.put.key, a, value)
        invariant reply == Abort ==> goal == None
        decreases reply == Working, req.insertStep != KeyMatch, c.hops - req.InsertPos()
      {
        reply := Set(req, a);
      }
      ok := reply == Done;
      if ok && WellFormed(c, old(entry[..]), old(log)) && req.put.key != [] {
        SetLogsRecord(c, old(entry[..]), old(log), old(contents), req.put.key, a, old(req.data));
      }
    }

    static lemma WholeSet(c: Config, t: Table, log: Log, put: Put, a: nat)
      requires |t| == c.n
      ensures SetFrom(c, t, log, put, 0, Some([]), a) == SetResult(c, t, log, put, a)
    {
    }
  }
}
