/** Runs of hopscotch requests: whole SETs, and a GET whose dispatches are spread among them. */
module HopscotchRun {
  import opened Common
  import opened KeyRecord
  import opened Ring
  import opened Hopscotch

  /** What a GET has learnt so far. */
  datatype Reply = Searching | Found(pba: nat) | NotFound

  /** The table and the log, and one GET: where its scan goes on, its read buffer, its reply. */
  datatype State = State(table: Table, log: Log, pos: nat, buf: Option<Name>, reply: Reply)

  /** A whole SET with the address allocated for it, or one dispatch of the GET. */
  datatype Event = SetEvent(put: Put, a: nat) | GetEvent

  function Start(t: Table, log: Log): (r: State) { State(t, log, 0, Some([]), Searching) }

  /** One dispatch of the GET for key k: the next tag hit is read and compared. */
  function GetDispatch(c: Config, s: State, k: Name): (s': State)
    requires |s.table| == c.n && s.pos <= c.hops
    ensures s'.pos <= c.hops
  {
    if s.reply != Searching then s
    else
      var o := FirstTag(c, s.table, Home(c, k), s.pos, Tag(c, k));
      if o == c.hops then s.(reply := NotFound)
      else
        var slot := s.table[At(c.n, Home(c, k), o)];
        var buf := ReadInto(s.log, slot, s.buf);
        if Matches(buf, k) then s.(pos := o, buf := buf, reply := Found(slot.pba))
        else s.(pos := o + 1, buf := buf)
  }

  ghost predicate Legal(c: Config, s: State, e: Event)
    requires |s.table| == c.n
  {
    e.SetEvent? ==> PutOk(s.log, e.put, e.a) && SetResult(c, s.table, s.log, e.put, e.a).Some?
  }

  ghost function Step(c: Config, s: State, k: Name, e: Event): (s': State)
    requires |s.table| == c.n && s.pos <= c.hops && Legal(c, s, e)
    ensures |s'.table| == c.n && s'.pos <= c.hops
  {
    match e
    case SetEvent(put, a) => s.(table := SetResult(c, s.table, s.log, put, a).value, log := Logged(s.log, put, a))
    case GetEvent => GetDispatch(c, s, k)
  }

  // ---------- Refinement of a map by completed SETs

  /** The addresses a sequence of completed SETs binds. */
  ghost function Bound(m: map<Name, nat>, e: Event): (r: map<Name, nat>) {
    if e.SetEvent? then m[e.put.key := e.a] else m
  }

  ghost predicate Agrees(s: State, m: map<Name, nat>) {
    forall k :: Latest(s.table, s.log, k) == if k in m then Some(m[k]) else None
  }

  ghost predicate Possible(c: Config, s: State, k: Name, es: seq<Event>)
    requires |s.table| == c.n && s.pos <= c.hops
    decreases |es|
  {
    es == [] || (Legal(c, s, es[0]) && Possible(c, Step(c, s, k, es[0]), k, es[1..]))
  }

  ghost function Run(c: Config, s: State, k: Name, es: seq<Event>): (r: State)
    requires |s.table| == c.n && s.pos <= c.hops && Possible(c, s, k, es)
    ensures |r.table| == c.n && r.pos <= c.hops
    decreases |es|
  {
    if es == [] then s else Run(c, Step(c, s, k, es[0]), k, es[1..])
  }

  ghost function BoundAll(m: map<Name, nat>, es: seq<Event>): (r: map<Name, nat>)
    decreases |es|
  {
    if es == [] then m else BoundAll(Bound(m, es[0]), es[1..])
  }

  lemma StepKeepsWellFormed(c: Config, s: State, k: Name, e: Event)
    requires |s.table| == c.n && s.pos <= c.hops && WellFormed(c, s.table, s.log) && Legal(c, s, e)
    ensures WellFormed(c, Step(c, s, k, e).table, Step(c, s, k, e).log)
  {
    if e.SetEvent? {
      SetUpdatesMap(c, s.table, s.log, e.put, e.a, k);
    }
  }

  lemma StepAgrees(c: Config, s: State, k: Name, e: Event, m: map<Name, nat>)
    requires |s.table| == c.n && s.pos <= c.hops && WellFormed(c, s.table, s.log) && Legal(c, s, e) && Agrees(s, m)
    ensures Agrees(Step(c, s, k, e), Bound(m, e))
  {
    hide WellFormed, SetResult, FirstTag, PutOk;
    if e.SetEvent? {
      forall q
        ensures Latest(Step(c, s, k, e).table, Step(c, s, k, e).log, q)
             == if q in Bound(m, e) then Some(Bound(m, e)[q]) else None
      {
        SetUpdatesMap(c, s.table, s.log, e.put, e.a, q);
      }
    }
  }

  /** Over every sequence of SETs and GET dispatches the table is the map of the latest addresses. */
  lemma {:induction false} RunRefinesMap(c: Config, s: State, k: Name, es: seq<Event>, m: map<Name, nat>)
    requires |s.table| == c.n && s.pos <= c.hops && WellFormed(c, s.table, s.log) && Agrees(s, m)
    requires Possible(c, s, k, es)
    ensures var r := Run(c, s, k, es);
      WellFormed(c, r.table, r.log) && Agrees(r, BoundAll(m, es))
    decreases |es|
  {
    hide WellFormed, Legal, Agrees, Step;
    if es != [] {
      StepKeepsWellFormed(c, s, k, es[0]);
      StepAgrees(c, s, k, es[0], m);
      RunRefinesMap(c, Step(c, s, k, es[0]), k, es[1..], Bound(m, es[0]));
    }
  }

  /** From the empty table: every run of SETs and GET dispatches keeps the map of the latest addresses. */
  lemma EveryRunRefinesMap(c: Config, k: Name, es: seq<Event>)
    requires Possible(c, Start(Empty(c), map[]), k, es)
    ensures var r := Run(c, Start(Empty(c), map[]), k, es);
      WellFormed(c, r.table, r.log) && Agrees(r, BoundAll(map[], es))
  {
    forall q
      ensures Latest(Empty(c), map[], q) == None
    {
      EmptyIsWellFormed(c, map[], q);
    }
    EmptyIsWellFormed(c, map[], k);
    RunRefinesMap(c, Start(Empty(c), map[]), k, es, map[]);
  }

  // ---------- A GET suspended among SETs

  /** The scan has not passed the key, and its buffer does not hold it by accident. */
  ghost predicate OnTrack(c: Config, s: State, k: Name) {
    && |s.table| == c.n && s.pos <= c.hops && k != []
    && WellFormed(c, s.table, s.log)
    && (s.reply == Searching ==> !Matches(s.buf, k))
    && (s.reply == Searching && Present(s.table, s.log, k) ==>
         s.pos <= s.table[SlotOf(s.table, s.log, k)].neighOff)
  }

  /**
   One dispatch: a hit returns the key's latest address at that moment; a miss means that the key was
   absent, provided it was not set behind the scan; otherwise the scan stays ahead of the key.
   */
  lemma DispatchOnTrack(c: Config, s: State, k: Name)
    requires |s.table| == c.n && s.pos <= c.hops && k != [] && s.reply == Searching
    requires WellFormed(c, s.table, s.log) && !Matches(s.buf, k)
    ensures var s' := GetDispatch(c, s, k);
      && (s'.reply.Found? ==> Latest(s.table, s.log, k) == Some(s'.reply.pba))
      && (s'.reply == Searching ==> s.pos < s'.pos && !Matches(s'.buf, k))
      && (OnTrack(c, s, k) && Present(s.table, s.log, k) ==>
           s'.reply != NotFound && OnTrack(c, s', k))
  {
    hide Home, Tag;
    var o := FirstTag(c, s.table, Home(c, k), s.pos, Tag(c, k));
    if Present(s.table, s.log, k) { OwnSlot(c, s.table, s.log, k); }
    if o < c.hops {
      var buf := ReadInto(s.log, s.table[At(c.n, Home(c, k), o)], s.buf);
      if Matches(buf, k) {
        HitIsOwnSlot(c, s.table, s.log, k, o, s.buf);
      }
    }
  }

  /** A SET among the dispatches keeps the scan ahead of the key: entries only move forward. */
  lemma StepOnTrack(c: Config, s: State, k: Name, e: Event)
    requires OnTrack(c, s, k) && Present(s.table, s.log, k) && s.reply != NotFound && Legal(c, s, e)
    ensures var s' := Step(c, s, k, e);
      OnTrack(c, s', k) && Present(s'.table, s'.log, k) && s'.reply != NotFound
  {
    hide Home, Tag, SetResult, FirstTag, WellFormed, Present, PutOk;
    StepKeepsWellFormed(c, s, k, e);
    if e.SetEvent? {
      SetMovesForward(c, s.table, s.log, e.put, e.a, k);
    } else if s.reply == Searching {
      DispatchOnTrack(c, s, k);
    }
  }

  lemma {:induction false} RunOnTrack(c: Config, s: State, k: Name, es: seq<Event>)
    requires OnTrack(c, s, k) && Present(s.table, s.log, k) && s.reply != NotFound && Possible(c, s, k, es)
    ensures Run(c, s, k, es).reply != NotFound
    decreases |es|
  {
    hide Legal, Step, WellFormed, Present;
    if es != [] {
      StepOnTrack(c, s, k, es[0]);
      RunOnTrack(c, Step(c, s, k, es[0]), k, es[1..]);
    }
  }

  /** The address was the key's latest at some moment of the run. */
  ghost predicate WasLatest(c: Config, s: State, k: Name, es: seq<Event>, pba: nat)
    requires |s.table| == c.n && s.pos <= c.hops && Possible(c, s, k, es)
    decreases |es|
  {
    Latest(s.table, s.log, k) == Some(pba) || (es != [] && WasLatest(c, Step(c, s, k, es[0]), k, es[1..], pba))
  }

  lemma {:induction false} FoundWasLatest(c: Config, s: State, k: Name, es: seq<Event>)
    requires |s.table| == c.n && s.pos <= c.hops && k != [] && Possible(c, s, k, es)
    requires WellFormed(c, s.table, s.log)
    requires s.reply == Searching ==> !Matches(s.buf, k)
    ensures s.reply != Searching ==> Run(c, s, k, es).reply == s.reply
    ensures s.reply == Searching && Run(c, s, k, es).reply.Found? ==>
      WasLatest(c, s, k, es, Run(c, s, k, es).reply.pba)
    decreases |es|
  {
    hide SetResult, FirstTag, WellFormed, Latest, PutOk;
    if es != [] {
      StepKeepsWellFormed(c, s, k, es[0]);
      if es[0].GetEvent? && s.reply == Searching { DispatchOnTrack(c, s, k); }
      FoundWasLatest(c, Step(c, s, k, es[0]), k, es[1..]);
    }
  }

  /**
   A GET among any number of whole SETs behaves as if it happened at one moment: what it finds was the
   latest record of the key at some moment of the run, and "not found" means absent when it began.
   */
  lemma SuspendedGetIsAtomic(c: Config, t: Table, log: Log, k: Name, es: seq<Event>)
    requires WellFormed(c, t, log) && k != [] && Possible(c, Start(t, log), k, es)
    ensures var r := Run(c, Start(t, log), k, es);
      && (r.reply.Found? ==> WasLatest(c, Start(t, log), k, es, r.reply.pba))
      && (r.reply == NotFound ==> !Present(t, log, k))
  {
    FoundWasLatest(c, Start(t, log), k, es);
    if Present(t, log, k) {
      RunOnTrack(c, Start(t, log), k, es);
    }
  }

  function Dispatches(es: seq<Event>): (r: nat) {
    if es == [] then 0 else (if es[0].GetEvent? then 1 else 0) + Dispatches(es[1..])
  }

  /** A GET has its answer after at most one dispatch more than its neighbourhood has slots. */
  lemma {:induction false} GetEnds(c: Config, s: State, k: Name, es: seq<Event>)
    requires |s.table| == c.n && s.pos <= c.hops && Possible(c, s, k, es)
    requires s.reply == Searching ==> Dispatches(es) > c.hops - s.pos
    ensures Run(c, s, k, es).reply != Searching
    decreases |es|
  {
    hide SetResult, Legal;
    if es != [] {
      GetEnds(c, Step(c, s, k, es[0]), k, es[1..]);
    }
  }
}
