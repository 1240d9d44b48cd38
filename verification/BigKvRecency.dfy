/** In every partition-serial run a bucket's counters keep its fingerprints in the order of the requests served. */
module BigKvRecency {
  import opened Common
  import opened KeyRecord
  import opened PartTable
  import opened TableBytes
  import opened Bucket
  import opened BigKvStep
  import opened BigKvCache
  import opened BigKvRun
  import opened Recency

  /** The fingerprint that a served request touches in bucket b of partition p. */
  ghost function Touched(g: Geometry, r: Reply, p: nat, b: nat): (fp: Option<nat>) {
    match r
    case SetDone(put) => if PartOf(g, put.key) == p && BucketOf(g, put.key) == b then Some(put.key.low) else None
    case GetDone(k, Some(_)) => if PartOf(g, k) == p && BucketOf(g, k) == b then Some(k.low) else None
    case _ => None
  }

  /** A served request moves its fingerprint to the front of its bucket's list. */
  ghost function OrderAfter(g: Geometry, l: seq<nat>, r: Reply, p: nat, b: nat): (order: seq<nat>) {
    if Touched(g, r, p, b).Some? then MoveToFront(l, Touched(g, r, p, b).value) else l
  }

  /** A dispatch moves what it serves to the front, and nothing else. */
  ghost predicate Ordered(g: Geometry, part: Part, o: Outcome, p: nat, b: nat)
    requires |part.buckets| == BUCKETS_IN_PART && b < BUCKETS_IN_PART && Sound(part.buckets[b])
  {
    && |o.part.buckets| == BUCKETS_IN_PART && Sound(o.part.buckets[b])
    && Order(o.part.buckets[b]) == OrderAfter(g, Order(part.buckets[b]), o.reply, p, b)
  }

  lemma FilledOrder(part: Part, c: nat, e: Entry, b: nat)
    requires |part.buckets| == BUCKETS_IN_PART && b < BUCKETS_IN_PART && c < BUCKETS_IN_PART
    requires Sound(part.buckets[b]) && Sound(part.buckets[c]) && e.Valid()
    requires Target(part.buckets[c], e.fingerprint) < NR_SET
    ensures var part' := Filled(part, c, Target(part.buckets[c], e.fingerprint), e);
      && Sound(part'.buckets[b])
      && Order(part'.buckets[b]) ==
           if b == c then MoveToFront(Order(part.buckets[b]), e.fingerprint) else Order(part.buckets[b])
  {
    hide Sound, Target, Install;
    InstallIsMoveToFront(part.buckets[c], Target(part.buckets[c], e.fingerprint), e);
  }

  lemma StartGetOrdered(g: Geometry, store: Store, keys: set<Key>, p: nat, part: Part, k: Key, b: nat)
    requires PartInv(g, store, keys, p, part) && KeysOk(g, keys) && k in keys && PartOf(g, k) == p
    requires b < BUCKETS_IN_PART && !StartGet(g, store, part, k).reply.Crash?
    ensures Sound(part.buckets[b]) && Ordered(g, part, StartGet(g, store, part, k), p, b)
  {
    hide TableOk, PartOf, BucketOf, TableMap, KeysOk, Order, MoveToFront, Used;
    var c := BucketOf(g, k);
    assert Sound(part.buckets[c]) && Sound(part.buckets[b]);
    var i := Match(part.buckets[c], k.low, 0);
    if i < NR_SET {
      var e := part.buckets[c][i];
      assert EntryOk(g, store, keys, p, part.pba, c, e) && e.Valid();
      hide EntryOk, Holds;
      ViewHolds(g, store, keys, p, part, k);
      CompareOwn(g, store, keys, p, k, e.Where());
      TargetOfHit(part.buckets[c], k.low);
      FilledOrder(part, c, e, b);
      hide Sound, Install, CacheOk, Compare, Answer, View;
    }
  }

  lemma ResumeGetOrdered(g: Geometry, store: Store, keys: set<Key>, p: nat, part: Part, a: nat, b: nat)
    requires PartInv(g, store, keys, p, part) && KeysOk(g, keys) && part.pending.GetTable?
    requires b < BUCKETS_IN_PART && Sized(part.pending.buf, g.hops)
    requires !Resume(g, store, part, a).reply.Crash?
    ensures Sound(part.buckets[b]) && Ordered(g, part, Resume(g, store, part, a), p, b)
  {
    hide PartOf, BucketOf, Merged, Install, Match, TableMap, Probe, KeysOk, Order, MoveToFront, Used, ResumeGet,
      FirstMatch, Target, Sound, Cleaned, Compare, Answer, View, EntryOk, TableOk, Buffered;
    var k, buf := part.pending.key, part.pending.buf;
    var c := BucketOf(g, k);
    assert Sound(part.buckets[c]) && Sound(part.buckets[b]);
    ResumeGetCases(g, store, part, k, buf, a);
    assert PartOf(g, k) == p;
    FoundInTable(g, store, keys, p, part);
    CleanedKeepsOrder(part.buckets[b]);
    CleanedKeepsOrder(part.buckets[c]);
    var r := FirstMatch(buf, g.hops, k.low, 0);
    hide PartInv, ViewOf;
    if r < g.hops {
      var e, idle := EntryFor(buf[Probe(buf, k.low, r)]), part.(pending := Idle);
      if Target(part.buckets[c], k.low) < NR_SET {
        FilledOrder(idle, c, e, b);
      } else {
        FilledOrder(Flushed(idle, a), c, e, b);
      }
    }
  }

  lemma WriteTableOrdered(g: Geometry, part: Part, put: Put, buf: Table, p: nat, a: nat, b: nat)
    requires |part.buckets| == BUCKETS_IN_PART && b < BUCKETS_IN_PART && Sound(part.buckets[b])
    requires Sized(buf, g.hops) && !WriteTable(g, part, put, buf, a).reply.Crash?
    ensures Ordered(g, part, WriteTable(g, part, put, buf, a), p, b)
  {
    CleanedKeepsOrder(part.buckets[b]);
  }

  lemma GetEntryOrdered(g: Geometry, store: Store, keys: set<Key>, p: nat, part: Part, put: Put, a: nat, b: nat)
    requires CacheOk(g, store, keys, p, part) && PutOk(g, keys, p, put) && a != PBA_INVALID
    requires b < BUCKETS_IN_PART && !GetEntry(g, store, part, put, a).reply.Crash?
    ensures Sound(part.buckets[b]) && Ordered(g, part, GetEntry(g, store, part, put, a), p, b)
  {
    hide EntryOk, TableOk, PartOf, BucketOf, Install, InsertAll, Target, Order, MoveToFront, Sound, WriteTable, Stored,
      SizeField;
    var c := BucketOf(g, put.key);
    assert Sound(part.buckets[c]) && Sound(part.buckets[b]);
    hide CacheOk;
    if Target(part.buckets[c], put.key.low) < NR_SET {
      FilledOrder(part, c, Entry(put.key.low, true, 0, SizeField(g, put.value), a), b);
      hide Sound;
    } else if part.pba == PBA_INVALID {
      WriteTableOrdered(g, part, put, Blank(g.slots), p, a, b);
    }
  }

  /** One event of a run: the bucket's order follows the reply. */
  lemma StepOrdered(g: Geometry, keys: set<Key>, s: State, ev: Event, b: nat)
    requires Inv(g, keys, s) && KeysOk(g, keys) && Legal(g, keys, s, ev) && b < BUCKETS_IN_PART
    requires !Step(g, s, ev).1.Crash?
    ensures var p := Home(g, ev);
      var (s', r) := Step(g, s, ev);
      && |s.parts[p].buckets| == BUCKETS_IN_PART && Sound(s.parts[p].buckets[b])
      && |s'.parts[p].buckets| == BUCKETS_IN_PART && Sound(s'.parts[p].buckets[b])
      && Order(s'.parts[p].buckets[b]) == OrderAfter(g, Order(s.parts[p].buckets[b]), r, p, b)
  {
    hide PartOf, BucketOf, EntryOk, View, Sound;
    var p := Home(g, ev);
    var part := s.parts[p];
    assert PartInv(g, s.store, keys, p, part);
    PartIsReady(g, keys, s, p);
    match ev
    case GetReq(k, a) => StartGetOrdered(g, s.store, keys, p, part, k, b);
    case SetReq(put, a) => if !part.flying { GetEntryOrdered(g, s.store, keys, p, part, put, a, b); }
    case Continue(_, a) =>
      match part.pending {
        case GetTable(k, buf) => ResumeGetOrdered(g, s.store, keys, p, part, a, b);
        case SetTable(put, buf) => WriteTableOrdered(g, part, put, buf, p, a, b);
        case SetKv(put) => GetEntryOrdered(g, s.store, keys, p, part.(pending := Idle), put, a, b);
      }
  }

  /** Elsewhere nothing moves. */
  lemma OtherPartsOrdered(g: Geometry, keys: set<Key>, s: State, ev: Event, p: nat, b: nat)
    requires Inv(g, keys, s) && KeysOk(g, keys) && Legal(g, keys, s, ev) && b < BUCKETS_IN_PART
    requires p < g.parts && p != Home(g, ev) && !Step(g, s, ev).1.Crash?
    ensures var (s', r) := Step(g, s, ev);
      s'.parts[p] == s.parts[p] && Touched(g, r, p, b) == None
  {
    hide BucketOf, EntryOk, View, Sound, Dispatch, PartInv;
    SubjectKnown(g, keys, s, ev);
    DispatchEffect(g, keys, s, ev, Subject(s, g, ev));
  }

  /** The order of one bucket in a state of a run. */
  ghost function OrderIn(g: Geometry, keys: set<Key>, s: State, p: nat, b: nat): (r: seq<nat>)
    requires Inv(g, keys, s) && p < g.parts && b < BUCKETS_IN_PART
  {
    assert PartInv(g, s.store, keys, p, s.parts[p]);
    Order(s.parts[p].buckets[b])
  }

  lemma StepOrderedAnywhere(g: Geometry, keys: set<Key>, s: State, ev: Event, p: nat, b: nat)
    requires Inv(g, keys, s) && KeysOk(g, keys) && Legal(g, keys, s, ev)
    requires p < g.parts && b < BUCKETS_IN_PART && !Step(g, s, ev).1.Crash?
    ensures var (s', r) := Step(g, s, ev);
      Inv(g, keys, s') && OrderIn(g, keys, s', p, b) == OrderAfter(g, OrderIn(g, keys, s, p, b), r, p, b)
  {
    hide PartOf, BucketOf, EntryOk, View, Dispatch, PartInv, Sound;
    StepKeepsInv(g, keys, s, ev);
    if p == Home(g, ev) {
      StepOrdered(g, keys, s, ev, b);
    } else {
      OtherPartsOrdered(g, keys, s, ev, p, b);
    }
  }

  /** The last state of a run, or the one in which it aborted. */
  ghost function LastState(g: Geometry, keys: set<Key>, s: State, evs: seq<Event>): (r: State)
    requires RunsSerially(g, keys, s, evs)
    decreases |evs|
  {
    if evs == [] || Step(g, s, evs[0]).1.Crash? then s
    else LastState(g, keys, Step(g, s, evs[0]).0, evs[1..])
  }

  /** The move-to-front list of the served requests. */
  ghost function OrderOf(g: Geometry, l: seq<nat>, replies: seq<Reply>, p: nat, b: nat): (r: seq<nat>)
    decreases |replies|
  {
    if replies == [] then l else OrderOf(g, OrderAfter(g, l, replies[0], p, b), replies[1..], p, b)
  }

  lemma {:induction false} RunOrdered(g: Geometry, keys: set<Key>, s: State, evs: seq<Event>, p: nat, b: nat)
    requires Inv(g, keys, s) && KeysOk(g, keys) && RunsSerially(g, keys, s, evs)
    requires p < g.parts && b < BUCKETS_IN_PART
    ensures Inv(g, keys, LastState(g, keys, s, evs))
    ensures OrderIn(g, keys, LastState(g, keys, s, evs), p, b)
         == OrderOf(g, OrderIn(g, keys, s, p, b), Replies(g, keys, s, evs), p, b)
    decreases |evs|
  {
    assert evs != [] ==> Home(g, evs[0]) < g.parts;
    hide Step, Legal, Inv, OrderIn, OrderAfter;
    if evs != [] {
      var (s', reply) := Step(g, s, evs[0]);
      if !reply.Crash? {
        StepOrderedAnywhere(g, keys, s, evs[0], p, b);
        RunOrdered(g, keys, s', evs[1..], p, b);
        assert Replies(g, keys, s, evs)[1..] == Replies(g, keys, s', evs[1..]);
      } else {
        CrashMovesNothing(g, keys, s, evs[0], p, b);
      }
    }
  }

  lemma CrashMovesNothing(g: Geometry, keys: set<Key>, s: State, ev: Event, p: nat, b: nat)
    requires Inv(g, keys, s) && Home(g, ev) < g.parts && p < g.parts && b < BUCKETS_IN_PART
    requires Step(g, s, ev).1.Crash?
    ensures OrderAfter(g, OrderIn(g, keys, s, p, b), Crash, p, b) == OrderIn(g, keys, s, p, b)
  {
  }

  /** From the empty index: the counters of every bucket are the recency list of the requests it served. */
  lemma CountersFollowRequests(g: Geometry, keys: set<Key>, evs: seq<Event>, p: nat, b: nat)
    requires KeysOk(g, keys) && RunsSerially(g, keys, Initial(g), evs)
    requires p < g.parts && b < BUCKETS_IN_PART
    ensures Inv(g, keys, LastState(g, keys, Initial(g), evs))
    ensures OrderIn(g, keys, LastState(g, keys, Initial(g), evs), p, b)
         == OrderOf(g, [], Replies(g, keys, Initial(g), evs), p, b)
  {
    InitialOk(g, keys);
    FreshIsSound();
    assert OrderIn(g, keys, Initial(g), p, b) == [];
    RunOrdered(g, keys, Initial(g), evs, p, b);
  }
}
