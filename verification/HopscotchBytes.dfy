/** The value buffers in a run of hopscotch requests: what a GET suspended among SETs ends with in its own. */
module HopscotchBytes {
  import opened Common
  import opened KeyRecord
  import opened Ring
  import opened Hopscotch
  import opened HopscotchPayload
  import R = HopscotchRun

  /** The table, the log with its bytes, and a GET with its value buffer. */
  datatype World = World(s: R.State, contents: Contents, data: seq<Byte>)

  /** A whole SET from a client's buffer, or one dispatch of the GET. */
  datatype Event = SetEvent(key: Name, data: seq<Byte>, a: nat) | GetEvent

  /** The event without its bytes. */
  function Plain(c: Config, e: Event): (r: R.Event) {
    match e
    case SetEvent(key, data, a) => R.SetEvent(Put(key, |data| / c.grain), a)
    case GetEvent => R.GetEvent
  }

  function Plains(c: Config, es: seq<Event>): (r: seq<R.Event>)
    ensures |r| == |es|
  {
    if es == [] then [] else [Plain(c, es[0])] + Plains(c, es[1..])
  }

  /** The buffer of a GET after one dispatch: the record of the next tag hit is read into it. */
  function DataAfterDispatch(c: Config, contents: Contents, s: R.State, k: Name, data: seq<Byte>): (r: seq<Byte>)
    requires |s.table| == c.n && s.pos <= c.hops
    ensures |r| == |data|
  {
    var o := FirstTag(c, s.table, Home(c, k), s.pos, Tag(c, k));
    if s.reply != R.Searching || o == c.hops then data
    else DataAfter(s.log, contents, s.table[At(c.n, Home(c, k), o)], data)
  }

  /** Buffers take at least a grain; those of SETs start with zeros at their head. */
  ghost predicate Legal(c: Config, w: World, e: Event)
    requires |w.s.table| == c.n
  {
    R.Legal(c, w.s, Plain(c, e)) && (e.SetEvent? ==> |e.key| < c.grain <= |e.data| && Unread(e.data))
  }

  ghost function Step(c: Config, w: World, k: Name, e: Event): (w': World)
    requires |w.s.table| == c.n && w.s.pos <= c.hops && Legal(c, w, e)
    ensures |w'.s.table| == c.n && w'.s.pos <= c.hops
  {
    var s' := R.Step(c, w.s, k, Plain(c, e));
    match e
    case SetEvent(key, data, a) => World(s', LogAfter(c, w.s.table, w.s.log, w.contents, key, a, data), w.data)
    case GetEvent => World(s', w.contents, DataAfterDispatch(c, w.contents, w.s, k, w.data))
  }

  ghost predicate Possible(c: Config, w: World, k: Name, es: seq<Event>)
    requires |w.s.table| == c.n && w.s.pos <= c.hops
    decreases |es|
  {
    es == [] || (Legal(c, w, es[0]) && Possible(c, Step(c, w, k, es[0]), k, es[1..]))
  }

  ghost function Run(c: Config, w: World, k: Name, es: seq<Event>): (r: World)
    requires |w.s.table| == c.n && w.s.pos <= c.hops && Possible(c, w, k, es)
    decreases |es|
  {
    if es == [] then w else Run(c, Step(c, w, k, es[0]), k, es[1..])
  }

  /** The buffer of the GET spells what the model without bytes says, and does not hold the key by accident. */
  ghost predicate Inv(c: Config, w: World, k: Name) {
    && |w.s.table| == c.n && w.s.pos <= c.hops && k != []
    && WellFormed(c, w.s.table, w.s.log) && HasContents(c, w.s.log, w.contents)
    && c.grain <= |w.data| && NameAt(w.data) == w.s.buf
    && (w.s.reply == R.Searching ==> !Matches(w.s.buf, k))
  }

  /** The buffer holds the record's bytes, as far as it goes. */
  predicate Shows(data: seq<Byte>, record: seq<Byte>) {
    forall i :: 0 <= i < |data| && i < |record| ==> data[i] == record[i]
  }

  /** What the log has at the key's latest address. */
  ghost predicate IsValue(w: World, k: Name, data: seq<Byte>) {
    var a := Latest(w.s.table, w.s.log, k);
    a.Some? && a.value in w.contents && Shows(data, w.contents[a.value])
  }

  /** At some moment of the run the log had these bytes at the key's latest address. */
  ghost predicate WasValue(c: Config, w: World, k: Name, es: seq<Event>, data: seq<Byte>)
    requires |w.s.table| == c.n && w.s.pos <= c.hops && Possible(c, w, k, es)
    decreases |es|
  {
    IsValue(w, k, data) || (es != [] && WasValue(c, Step(c, w, k, es[0]), k, es[1..], data))
  }

  // ---------- Steps

  /** A whole SET: its key's latest address is its own, and there the log has what the client sent, but for records read. */
  lemma SetIsLogged(c: Config, w: World, k: Name, e: Event)
    requires Inv(c, w, k) && Legal(c, w, e) && e.SetEvent?
    ensures Inv(c, Step(c, w, k, e), k)
    ensures var w' := Step(c, w, k, e);
      && Latest(w'.s.table, w'.s.log, e.key) == Some(e.a)
      && LogsRecord(c, w.contents, w'.contents, e.key, e.a, RecordsInTheWay(c, w.s.table, w.s.log, e.key), e.data)
  {
    var put := Put(e.key, |e.data| / c.grain);
    assert PutOk(w.s.log, put, e.a) && |w.s.table| == c.n;
    SetUpdatesMap(c, w.s.table, w.s.log, put, e.a, e.key);
    SetLogsRecord(c, w.s.table, w.s.log, w.contents, e.key, e.a, e.data);
    SetKeepsContents(c, w.s.log, w.contents, put, e.a,
      FinalData(c, w.s.table, w.s.log, w.contents, e.key, 0, NameAt(e.data), e.data));
    hide WellFormed, HasContents, FinalData, Stored, LogsRecord, SetResult, Latest, RecordsInTheWay, NameAt;
  }

  /** A hit of the GET: its buffer holds the record at the key's latest address. */
  lemma HitShowsRecord(c: Config, w: World, k: Name)
    requires Inv(c, w, k) && w.s.reply == R.Searching
    ensures Inv(c, Step(c, w, k, GetEvent), k)
    ensures var w' := Step(c, w, k, GetEvent); w'.s.reply.Found? ==> IsValue(w, k, w'.data)
  {
    assert |w.s.table| == c.n;
    hide WellFormed, Home, Tag, FirstTag, Latest;
    R.DispatchOnTrack(c, w.s, k);
    var o := FirstTag(c, w.s.table, Home(c, k), w.s.pos, Tag(c, k));
    if o < c.hops {
      ReadSpells(c, w.s.log, w.contents, w.s.table[At(c.n, Home(c, k), o)], w.data);
    }
  }

  // ---------- Runs

  lemma {:induction false} AnswerStays(c: Config, w: World, k: Name, es: seq<Event>)
    requires |w.s.table| == c.n && w.s.pos <= c.hops && Possible(c, w, k, es) && w.s.reply != R.Searching
    ensures Run(c, w, k, es).s.reply == w.s.reply && Run(c, w, k, es).data == w.data
    decreases |es|
  {
    hide FirstTag, LogAfter, SetResult;
    if es != [] { AnswerStays(c, Step(c, w, k, es[0]), k, es[1..]); }
  }

  lemma {:induction false} FoundWasValue(c: Config, w: World, k: Name, es: seq<Event>)
    requires Inv(c, w, k) && Possible(c, w, k, es) && w.s.reply == R.Searching
    ensures var r := Run(c, w, k, es); |r.data| == |w.data| && (r.s.reply.Found? ==> WasValue(c, w, k, es, r.data))
    decreases |es|
  {
    assert |w.s.table| == c.n && w.s.pos <= c.hops;
    hide Inv, Legal, IsValue;
    if es != [] {
      var w' := Step(c, w, k, es[0]);
      if es[0].SetEvent? {
        SetIsLogged(c, w, k, es[0]);
        FoundWasValue(c, w', k, es[1..]);
      } else {
        HitShowsRecord(c, w, k);
        if w'.s.reply == R.Searching { FoundWasValue(c, w', k, es[1..]); } else { AnswerStays(c, w', k, es[1..]); }
      }
    }
  }

  lemma {:induction false} PlainRun(c: Config, w: World, k: Name, es: seq<Event>)
    requires |w.s.table| == c.n && w.s.pos <= c.hops && Possible(c, w, k, es)
    ensures R.Possible(c, w.s, k, Plains(c, es)) && R.Run(c, w.s, k, Plains(c, es)) == Run(c, w, k, es).s
    decreases |es|
  {
    hide R.Legal, R.Step, LogAfter;
    if es != [] {
      assert Plains(c, es)[1..] == Plains(c, es[1..]);
      PlainRun(c, Step(c, w, k, es[0]), k, es[1..]);
    }
  }

  /**
   A GET among any number of whole SETs, with a buffer that starts with zeros at its head: it ends with the bytes that
   the log had at the key's latest address at some moment of the run, or with "not found" for a key that was absent
   when it began.
   */
  lemma SuspendedGetReturnsBytes(c: Config, t: Table, log: Log, contents: Contents, data: seq<Byte>, k: Name, es: seq<Event>)
    requires WellFormed(c, t, log) && HasContents(c, log, contents) && k != [] && c.grain <= |data| && Unread(data)
    requires Possible(c, World(R.Start(t, log), contents, data), k, es)
    ensures var w := World(R.Start(t, log), contents, data);
      var r := Run(c, w, k, es);
      && |r.data| == |data|
      && (r.s.reply.Found? ==> WasValue(c, w, k, es, r.data))
      && (r.s.reply == R.NotFound ==> !Present(t, log, k))
  {
    var w := World(R.Start(t, log), contents, data);
    assert Inv(c, w, k);
    hide WellFormed, HasContents, Present, NameAt, Inv;
    FoundWasValue(c, w, k, es);
    PlainRun(c, w, k, es);
    R.SuspendedGetIsAtomic(c, t, log, k, Plains(c, es));
  }
}
