/** Every partition-serial run of GETs and SETs on the BigKV index behaves like one plain map. */
module BigKvRun {
  import opened Common
  import opened KeyRecord
  import opened Multiples
  import opened PartTable
  import opened TableBytes
  import opened Bucket
  import opened BigKvStep
  import opened BigKvCache

  // ---------- Invariant of a partition with a request under way

  /** A SET of a known key with at least one grain that fits the size field. */
  ghost predicate PutOk(g: Geometry, keys: set<Key>, p: nat, put: Put) {
    put.key in keys && PartOf(g, put.key) == p && 0 < SizeField(g, put.value)
  }

  ghost predicate GetOk(g: Geometry, store: Store, keys: set<Key>, p: nat, part: Part, k: Key)
    requires |part.buckets| == BUCKETS_IN_PART
  {
    && k in keys && PartOf(g, k) == p
    && (k.low == 0 ==> View(g, store, part, BucketOf(g, k), k.low).Some?)
  }

  ghost predicate PendingOk(g: Geometry, store: Store, keys: set<Key>, p: nat, part: Part)
    requires |part.buckets| == BUCKETS_IN_PART
  {
    match part.pending
    case Idle => !part.flying
    case GetTable(k, buf) =>
      && !part.flying && GetOk(g, store, keys, p, part, k)
      && part.pba != PBA_INVALID && Buffered(g, store, part, buf)
      && Match(part.buckets[BucketOf(g, k)], k.low, 0) == NR_SET
    case SetTable(put, buf) =>
      && part.flying && PutOk(g, keys, p, put)
      && part.pba != PBA_INVALID && Buffered(g, store, part, buf)
    case SetKv(put) =>
      && !part.flying && PutOk(g, keys, p, put)
      && AllClean(part.buckets[BucketOf(g, put.key)])
  }

  ghost predicate PartInv(g: Geometry, store: Store, keys: set<Key>, p: nat, part: Part) {
    CacheOk(g, store, keys, p, part) && PendingOk(g, store, keys, p, part)
  }

  ghost function ViewOf(g: Geometry, store: Store, part: Part, k: Key): (r: Option<Loc>)
    requires |part.buckets| == BUCKETS_IN_PART
  {
    View(g, store, part, BucketOf(g, k), k.low)
  }

  /** What a client must be told that reads through the given view. */
  ghost function Answer(store: Store, v: Option<Loc>): (r: Option<seq<Byte>>) {
    if v.Some? && v.value.pba in store then Some(store[v.value.pba]) else None
  }

  /** What one dispatch may do, as seen through an arbitrary key q of its partition. */
  ghost predicate Effect(g: Geometry, store: Store, keys: set<Key>, p: nat, part: Part, o: Outcome, a: nat, q: Key)
    requires |part.buckets| == BUCKETS_IN_PART
  {
    var store' := Wrote(store, o, a);
    !o.reply.Crash? ==>
      && PartInv(g, store', keys, p, o.part)
      && ViewOf(g, store', o.part, q) ==
           (if o.reply.SetDone? && o.reply.put.key == q then Some(Loc(a, SizeField(g, o.reply.put.value)))
            else ViewOf(g, store, part, q))
      && (match o.reply
          case SetDone(put) => PutOk(g, keys, p, put) && o.wrote == Some(Kept(g, put))
          case GetDone(k, answer) => k in keys && PartOf(g, k) == p && answer == Answer(store, ViewOf(g, store, part, k))
          case Foreign(_) => false
          case _ => true)
  }

  ghost predicate Fresh(store: Store, a: nat) { a !in store && a < PBA_INVALID }

  // ---------- Reading records

  /** A record the view points to is the reader's own, so the key comparison succeeds. */
  lemma CompareOwn(g: Geometry, store: Store, keys: set<Key>, p: nat, k: Key, loc: Loc)
    requires KeysOk(g, keys) && k in keys && PartOf(g, k) == p
    requires Holds(g, store, keys, p, k.low, loc)
    ensures Compare(g, store, loc, k) == GetDone(k, Answer(store, Some(loc)))
  {
    OwnerIs(g, keys, k);
    var data := store[loc.pba];
    assert data[..|data|] == data;
  }

  lemma ViewHolds(g: Geometry, store: Store, keys: set<Key>, p: nat, part: Part, k: Key)
    requires CacheOk(g, store, keys, p, part)
    requires ViewOf(g, store, part, k).Some?
    ensures Holds(g, store, keys, p, k.low, ViewOf(g, store, part, k).value)
  {
    var b := BucketOf(g, k);
    var i := Match(part.buckets[b], k.low, 0);
    if i < NR_SET {
      assert EntryOk(g, store, keys, p, part.pba, b, part.buckets[b][i]);
    }
  }

  // ---------- GET

  /** A hit leaves the partition's pending request as it was. */
  lemma HitKeepsPending(g: Geometry, store: Store, keys: set<Key>, p: nat, part: Part, b: nat, i: nat)
    requires CacheOk(g, store, keys, p, part) && PendingOk(g, store, keys, p, part)
    requires b < BUCKETS_IN_PART && i < NR_SET && i == Match(part.buckets[b], part.buckets[b][i].fingerprint, 0)
    ensures PendingOk(g, store, keys, p, Filled(part, b, i, part.buckets[b][i]))
  {
    hide PartOf, BucketOf, TableOk, EntryOk, Sound, Install, AllClean, Match, TableMap, WellFormed;
    if !part.pending.Idle? {
      var k := match part.pending case GetTable(k, _) => k case SetTable(put, _) => put.key case SetKv(put) => put.key;
      assert Sound(part.buckets[b]);
      HitKeepsMatches(part.buckets[b], i, k.low);
      HitKeepsView(g, store, keys, p, part, b, i, k);
      hide View;
    }
  }

  lemma HitKeepsView(g: Geometry, store: Store, keys: set<Key>, p: nat, part: Part, b: nat, i: nat, k: Key)
    requires CacheOk(g, store, keys, p, part)
    requires b < BUCKETS_IN_PART && i < NR_SET && i == Match(part.buckets[b], part.buckets[b][i].fingerprint, 0)
    ensures ViewOf(g, store, Filled(part, b, i, part.buckets[b][i]), k) == ViewOf(g, store, part, k)
  {
    hide PartOf, BucketOf, TableOk, EntryOk, Sound, Install, TableMap;
    assert Sound(part.buckets[b]);
    TargetOfHit(part.buckets[b], part.buckets[b][i].fingerprint);
    FillView(g, store, keys, p, part, b, part.buckets[b][i], BucketOf(g, k), k.low);
  }

  lemma StartGetEffect(g: Geometry, store: Store, keys: set<Key>, p: nat, part: Part, k: Key, a: nat, q: Key)
    requires PartInv(g, store, keys, p, part) && KeysOk(g, keys)
    requires part.pending.Idle? || Match(part.buckets[BucketOf(g, k)], k.low, 0) < NR_SET
    requires GetOk(g, store, keys, p, part, k) && q in keys && PartOf(g, q) == p
    ensures Effect(g, store, keys, p, part, StartGet(g, store, part, k), a, q)
  {
    hide PartOf, BucketOf, EntryOk, TableOk, Sound, Install;
    var b := BucketOf(g, k);
    var i := Match(part.buckets[b], k.low, 0);
    if i < NR_SET {
      var e := part.buckets[b][i];
      assert EntryOk(g, store, keys, p, part.pba, b, e);
      TargetOfHit(part.buckets[b], k.low);
      ViewHolds(g, store, keys, p, part, k);
      FillOk(g, store, keys, p, part, b, e);
      FillView(g, store, keys, p, part, b, e, BucketOf(g, q), q.low);
      CompareOwn(g, store, keys, p, k, e.Where());
      HitKeepsPending(g, store, keys, p, part, b, i);
    }
  }

  /** A GET can be answered without touching unknown flash iff its record is cached or a table exists. */
  lemma StartGetCrash(g: Geometry, store: Store, keys: set<Key>, p: nat, part: Part, k: Key)
    requires PartInv(g, store, keys, p, part)
    ensures StartGet(g, store, part, k).reply.Crash? <==>
      part.pba == PBA_INVALID && Match(part.buckets[BucketOf(g, k)], k.low, 0) == NR_SET
    ensures StartGet(g, store, part, k).reply.Crash? ==> ViewOf(g, store, part, k).None?
  {
  }

  /** A GET neither waits for a flush under way nor ends one: it does the same in a partition in flight. */
  lemma GetIgnoresFlight(g: Geometry, store: Store, part: Part, k: Key, buf: Table, a: nat, flying: bool)
    requires |part.buckets| == BUCKETS_IN_PART && Sized(buf, g.hops)
    ensures var o := StartGet(g, store, part, k);
      StartGet(g, store, part.(flying := flying), k) == o.(part := o.part.(flying := flying))
    ensures var o := ResumeGet(g, store, part, k, buf, a);
      ResumeGet(g, store, part.(flying := flying), k, buf, a) == o.(part := o.part.(flying := flying))
  {
    hide BucketOf, Match, Install, Target, Compare, FirstMatch, Probe, InsertAll, DirtyItems, Cleaned, TableAt, BytesOf;
  }

  /** The lookup in the fetched table agrees with the view. */
  lemma TableAnswers(g: Geometry, store: Store, keys: set<Key>, p: nat, part: Part)
    requires PartInv(g, store, keys, p, part) && part.pending.GetTable?
    ensures var k, buf := part.pending.key, part.pending.buf;
      && WellFormed(buf, g.hops)
      && var r := FirstMatch(buf, g.hops, k.low, 0);
      && (r == g.hops <==> ViewOf(g, store, part, k).None?)
      && (r < g.hops ==>
           var slot := buf[Probe(buf, k.low, r)];
           slot.fingerprint == k.low && ViewOf(g, store, part, k) == Some(slot.Where())
           && k.low in TableMap(g, store, part.pba) && TableMap(g, store, part.pba)[k.low] == slot.Where())
  {
    var k, buf := part.pending.key, part.pending.buf;
    if k.low in TableMap(g, store, part.pba) {
      LookupPresent(buf, g.hops, k.low);
    } else {
      LookupAbsent(buf, g.hops, k.low);
    }
  }

  /** Caching what the table says: the view stays as it is. */
  lemma CacheFromTable(g: Geometry, store: Store, keys: set<Key>, p: nat, part: Part, k: Key, e: Entry, q: Key)
    requires CacheOk(g, store, keys, p, part) && KeysOk(g, keys)
    requires k in keys && PartOf(g, k) == p && q in keys && PartOf(g, q) == p
    requires ViewOf(g, store, part, k) == Some(e.Where()) && e.fingerprint == k.low && !e.dirty
    requires k.low in TableMap(g, store, part.pba) && TableMap(g, store, part.pba)[k.low] == e.Where()
    requires Target(part.buckets[BucketOf(g, k)], k.low) < NR_SET
    ensures var part' := Filled(part, BucketOf(g, k), Target(part.buckets[BucketOf(g, k)], k.low), e);
      CacheOk(g, store, keys, p, part') && ViewOf(g, store, part', q) == ViewOf(g, store, part, q)
  {
    ViewHolds(g, store, keys, p, part, k);
    CompareOwn(g, store, keys, p, k, e.Where());
    FillOk(g, store, keys, p, part, BucketOf(g, k), e);
    FillView(g, store, keys, p, part, BucketOf(g, k), e, BucketOf(g, q), q.low);
  }

  /** The entry that caches a slot of the table. */
  function EntryFor(slot: Slot): (e: Entry) { Entry(slot.fingerprint, false, 0, slot.kvSize, slot.pba) }

  /**
   The second dispatch of a GET, case by case. A flush leaves a clean victim, so the retry never comes to flush
   through the table pointer that is gone.
   */
  lemma ResumeGetCases(g: Geometry, store: Store, part: Part, k: Key, buf: Table, a: nat)
    requires |part.buckets| == BUCKETS_IN_PART && Sized(buf, g.hops) && Sound(part.buckets[BucketOf(g, k)])
    ensures var r, b, idle := FirstMatch(buf, g.hops, k.low, 0), BucketOf(g, k), part.(pending := Idle);
      var i, o := Target(part.buckets[b], k.low), ResumeGet(g, store, part, k, buf, a);
      if r == g.hops then o == Outcome(idle, None, GetDone(k, None))
      else
        var slot := buf[Probe(buf, k.low, r)];
        var reply := Compare(g, store, slot.Where(), k);
        if i < NR_SET then o == Outcome(Filled(idle, b, i, EntryFor(slot)), None, reply)
        else if Merged(g, part, buf).NoRoom? then o == Outcome(part, None, Crash)
        else
          var clean := Flushed(idle, a);
          var j := Target(clean.buckets[b], k.low);
          && j < NR_SET
          && o == Outcome(Filled(clean, b, j, EntryFor(slot)), Some(BytesOf(Merged(g, part, buf).table)), reply)
  {
    CleanedHasTarget(part.buckets[BucketOf(g, k)], k.low);
    hide Sound, Target, BucketOf, Probe, FirstMatch, Compare, Merged, Install, Cleaned;
  }

  lemma CompareDoesNotCrash(g: Geometry, store: Store, loc: Loc, k: Key)
    ensures !Compare(g, store, loc, k).Crash? && !Compare(g, store, loc, k).SetDone? && !Compare(g, store, loc, k).Working?
  {
  }

  /** What the GET learns from the table: its record and the answer, or that there is none. */
  lemma FoundInTable(g: Geometry, store: Store, keys: set<Key>, p: nat, part: Part)
    requires PartInv(g, store, keys, p, part) && KeysOk(g, keys) && part.pending.GetTable?
    ensures Sized(part.pending.buf, g.hops)
    ensures var k, buf := part.pending.key, part.pending.buf;
      var r := FirstMatch(buf, g.hops, k.low, 0);
      && k in keys && PartOf(g, k) == p
      && (r == g.hops ==> Answer(store, ViewOf(g, store, part, k)) == None)
      && (r < g.hops ==>
           var slot := buf[Probe(buf, k.low, r)];
           && ViewOf(g, store, part, k) == Some(slot.Where()) && slot.fingerprint == k.low
           && slot.pba != PBA_INVALID
           && k.low in TableMap(g, store, part.pba) && TableMap(g, store, part.pba)[k.low] == slot.Where()
           && Answer(store, Some(slot.Where())).Some?
           && Compare(g, store, slot.Where(), k) == GetDone(k, Answer(store, Some(slot.Where()))))
  {
    TableAnswers(g, store, keys, p, part);
    var k, buf := part.pending.key, part.pending.buf;
    var r := FirstMatch(buf, g.hops, k.low, 0);
    if r < g.hops {
      ViewHolds(g, store, keys, p, part, k);
      CompareOwn(g, store, keys, p, k, buf[Probe(buf, k.low, r)].Where());
    }
    hide View, TableMap, Compare, Probe, FirstMatch, BucketsOk, TableOk, Match, KeysOk;
  }

  /** A pending request is not seen through any key. */
  lemma PendingUnseen(g: Geometry, store: Store, part: Part, q: Key)
    requires |part.buckets| == BUCKETS_IN_PART
    ensures ViewOf(g, store, part.(pending := Idle), q) == ViewOf(g, store, part, q)
  {
  }

  /** Answered from the table, with an entry to spare. */
  lemma CachedEffect(g: Geometry, store: Store, keys: set<Key>, p: nat, part: Part, e: Entry, a: nat, q: Key)
    requires PartInv(g, store, keys, p, part) && KeysOk(g, keys) && part.pending.GetTable?
    requires q in keys && PartOf(g, q) == p
    requires ViewOf(g, store, part, part.pending.key) == Some(e.Where())
    requires e.fingerprint == part.pending.key.low && !e.dirty
    requires e.fingerprint in TableMap(g, store, part.pba) && TableMap(g, store, part.pba)[e.fingerprint] == e.Where()
    requires Target(part.buckets[BucketOf(g, part.pending.key)], part.pending.key.low) < NR_SET
    ensures var k, b := part.pending.key, BucketOf(g, part.pending.key);
      Effect(g, store, keys, p, part,
        Outcome(Filled(part.(pending := Idle), b, Target(part.buckets[b], k.low), e), None,
                GetDone(k, Answer(store, Some(e.Where())))), a, q)
  {
    hide TableOk, KeysOk, Target, Install, TableMap, View, Answer, BucketOf, PartOf, Match, Buffered, Sound, EntryOk;
    var idle := part.(pending := Idle);
    assert CacheOk(g, store, keys, p, idle);
    assert part.pending.key in keys && PartOf(g, part.pending.key) == p && !part.flying;
    PendingUnseen(g, store, part, q);
    PendingUnseen(g, store, part, part.pending.key);
    hide BucketsOk;
    CacheFromTable(g, store, keys, p, idle, part.pending.key, e, q);
  }

  /** Answered from the table, with a flush to make room. */
  lemma FlushedEffect(g: Geometry, store: Store, keys: set<Key>, p: nat, part: Part, e: Entry, a: nat, q: Key)
    requires PartInv(g, store, keys, p, part) && KeysOk(g, keys) && part.pending.GetTable?
    requires Fresh(store, a) && q in keys && PartOf(g, q) == p
    requires ViewOf(g, store, part, part.pending.key) == Some(e.Where())
    requires e.fingerprint == part.pending.key.low && !e.dirty
    requires Sized(part.pending.buf, g.hops) && Merged(g, part, part.pending.buf).Room?
    ensures var k, b, clean := part.pending.key, BucketOf(g, part.pending.key), Flushed(part.(pending := Idle), a);
      var i := Target(clean.buckets[b], k.low);
      && i < NR_SET
      && Effect(g, store, keys, p, part,
           Outcome(Filled(clean, b, i, e), Some(BytesOf(Merged(g, part, part.pending.buf).table)),
                   GetDone(k, Answer(store, Some(e.Where())))), a, q)
  {
    FlushThenCache(g, store, keys, p, part, a, e, q);
    assert part.pending.key in keys && PartOf(g, part.pending.key) == p && !part.flying;
    hide CacheOk, KeysOk, Target, Install, TableMap, View, Answer, BucketOf, PartOf, Match, Buffered, Merged, Cleaned, BytesOf;
  }

  lemma ResumeGetEffect(g: Geometry, store: Store, keys: set<Key>, p: nat, part: Part, a: nat, q: Key)
    requires PartInv(g, store, keys, p, part) && KeysOk(g, keys) && part.pending.GetTable?
    requires Fresh(store, a) && q in keys && PartOf(g, q) == p
    requires Sized(part.pending.buf, g.hops)
    ensures Effect(g, store, keys, p, part, ResumeGet(g, store, part, part.pending.key, part.pending.buf, a), a, q)
  {
    hide ResumeGet, Compare, Probe, FirstMatch, Target, Merged, Sound, EntryOk, TableOk, KeysOk, BucketOf, Answer, TableMap,
      View, Buffered, Match, Install, PartOf;
    var k, buf := part.pending.key, part.pending.buf;
    var r := FirstMatch(buf, g.hops, k.low, 0);
    assert Sound(part.buckets[BucketOf(g, k)]);
    ResumeGetCases(g, store, part, k, buf, a);
    FoundInTable(g, store, keys, p, part);
    if r == g.hops {
      NothingFoundEffect(g, store, keys, p, part, a, q);
    } else {
      hide Effect, PartInv, ViewOf;
      var slot := buf[Probe(buf, k.low, r)];
      if Target(part.buckets[BucketOf(g, k)], k.low) < NR_SET {
        CachedEffect(g, store, keys, p, part, EntryFor(slot), a, q);
      } else if Merged(g, part, buf).Room? {
        FlushedEffect(g, store, keys, p, part, EntryFor(slot), a, q);
      } else {
        CrashHasNoEffect(g, store, keys, p, part, a, q);
      }
    }
  }

  lemma NothingFoundEffect(g: Geometry, store: Store, keys: set<Key>, p: nat, part: Part, a: nat, q: Key)
    requires PartInv(g, store, keys, p, part) && part.pending.GetTable?
    requires part.pending.key in keys && PartOf(g, part.pending.key) == p
    requires Answer(store, ViewOf(g, store, part, part.pending.key)) == None
    ensures Effect(g, store, keys, p, part,
      Outcome(part.(pending := Idle), None, GetDone(part.pending.key, None)), a, q)
  {
    hide Sound, EntryOk, TableOk, BucketOf, PartOf, Answer, TableMap, View, Buffered, Match, Target;
    PendingUnseen(g, store, part, q);
  }

  lemma CrashHasNoEffect(g: Geometry, store: Store, keys: set<Key>, p: nat, part: Part, a: nat, q: Key)
    requires |part.buckets| == BUCKETS_IN_PART
    ensures Effect(g, store, keys, p, part, Outcome(part, None, Crash), a, q)
  {
  }

  /** What is seen through a key that is not cached is in the table. */
  lemma UncachedInTable(g: Geometry, store: Store, part: Part, k: Key)
    requires |part.buckets| == BUCKETS_IN_PART && Match(part.buckets[BucketOf(g, k)], k.low, 0) == NR_SET
    requires ViewOf(g, store, part, k).Some?
    ensures k.low in TableMap(g, store, part.pba)
    ensures TableMap(g, store, part.pba)[k.low] == ViewOf(g, store, part, k).value
  {
  }

  /** The retry after the flush: the victim is clean now, so the second attempt succeeds. */
  lemma FlushThenCache(g: Geometry, store: Store, keys: set<Key>, p: nat, part: Part, a: nat, e: Entry, q: Key)
    requires PartInv(g, store, keys, p, part) && KeysOk(g, keys) && part.pending.GetTable?
    requires Fresh(store, a) && q in keys && PartOf(g, q) == p
    requires ViewOf(g, store, part, part.pending.key) == Some(e.Where())
    requires e.fingerprint == part.pending.key.low && !e.dirty
    requires Sized(part.pending.buf, g.hops) && Merged(g, part, part.pending.buf).Room?
    ensures var k, buf := part.pending.key, part.pending.buf;
      var idle := part.(pending := Idle);
      var clean := Flushed(idle, a);
      var store' := FlushedStore(g, store, part, buf, a);
      var i := Target(clean.buckets[BucketOf(g, k)], k.low);
      && i < NR_SET
      && CacheOk(g, store', keys, p, Filled(clean, BucketOf(g, k), i, e))
      && ViewOf(g, store', Filled(clean, BucketOf(g, k), i, e), q) == ViewOf(g, store, part, q)
  {
    hide PartOf, BucketOf, EntryOk, TableOk, Install, InsertAll, Holds, DirtyItems, KeysOk, Match, View, Sound, Target,
      TableMap, Cleaned, BytesOf, TableAt;
    var k, buf := part.pending.key, part.pending.buf;
    var idle := part.(pending := Idle);
    var clean, store' := Flushed(idle, a), FlushedStore(g, store, part, buf, a);
    var b := BucketOf(g, k);
    assert Sound(part.buckets[b]);
    CleanedHasTarget(part.buckets[b], k.low);
    FlushKeepsCache(g, store, keys, p, idle, buf, a);
    FlushInvisible(g, store, keys, p, idle, buf, a, k);
    FlushInvisible(g, store, keys, p, idle, buf, a, q);
    PendingUnseen(g, store, part, k);
    PendingUnseen(g, store, part, q);
    UncachedInTable(g, store', clean, k);
    hide BucketsOk, Merged, Buffered;
    CacheFromTable(g, store', keys, p, clean, k, e, q);
  }

  // ---------- SET

  lemma FillPut(g: Geometry, store: Store, keys: set<Key>, p: nat, part: Part, put: Put, a: nat, q: Key)
    requires CacheOk(g, store, keys, p, part) && KeysOk(g, keys)
    requires PutOk(g, keys, p, put) && Fresh(store, a) && q in keys && PartOf(g, q) == p
    requires Target(part.buckets[BucketOf(g, put.key)], put.key.low) < NR_SET
    ensures var b := BucketOf(g, put.key);
      var part' := Filled(part, b, Target(part.buckets[b], put.key.low), Entry(put.key.low, true, 0, SizeField(g, put.value), a));
      var store' := store[a := Kept(g, put)];
      && CacheOk(g, store', keys, p, part')
      && View(g, store', part', BucketOf(g, q), q.low) ==
           if b == BucketOf(g, q) && q.low == put.key.low then Some(Loc(a, SizeField(g, put.value)))
           else View(g, store, part, BucketOf(g, q), q.low)
  {
    hide PartOf, BucketOf, EntryOk, TableOk, View, Sound, Install;
    var b := BucketOf(g, put.key);
    var store' := store[a := Kept(g, put)];
    var e := Entry(put.key.low, true, 0, SizeField(g, put.value), a);
    StoreGrows(g, store, keys, p, part, a, store'[a]);
    assert EntryOk(g, store', keys, p, part.pba, b, e) by { NewEntryOk(g, store, keys, p, part.pba, put, a); }
    FillOk(g, store', keys, p, part, b, e);
    FillView(g, store', keys, p, part, b, e, BucketOf(g, q), q.low);
  }

  lemma NewEntryOk(g: Geometry, store: Store, keys: set<Key>, p: nat, pba: nat, put: Put, a: nat)
    requires PutOk(g, keys, p, put) && Fresh(store, a) && KeysOk(g, keys)
    ensures EntryOk(g, store[a := Kept(g, put)], keys, p, pba, BucketOf(g, put.key),
      Entry(put.key.low, true, 0, SizeField(g, put.value), a))
  {
    OwnerIs(g, keys, put.key);
    KeptSpellsKey(g, put);
  }

  /** A GET of another key waits for the table, and the SET does not need it. */
  ghost predicate BesideGet(g: Geometry, store: Store, keys: set<Key>, p: nat, part: Part, put: Put)
    requires |part.buckets| == BUCKETS_IN_PART
  {
    && part.pending.GetTable? && PendingOk(g, store, keys, p, part) && part.pending.key != put.key
    && Target(part.buckets[BucketOf(g, put.key)], put.key.low) < NR_SET
  }

  lemma KeysDiffer(g: Geometry, keys: set<Key>, x: Key, y: Key)
    requires KeysOk(g, keys) && x in keys && y in keys && x != y && PartOf(g, x) == PartOf(g, y)
    ensures x.low != y.low
  {
  }

  /** The GET that waits for its table is not disturbed by a SET of another key. */
  lemma FillKeepsGet(g: Geometry, store: Store, keys: set<Key>, p: nat, part: Part, put: Put, a: nat)
    requires CacheOk(g, store, keys, p, part) && KeysOk(g, keys)
    requires PutOk(g, keys, p, put) && Fresh(store, a) && BesideGet(g, store, keys, p, part, put)
    ensures var b := BucketOf(g, put.key);
      var part' := Filled(part, b, Target(part.buckets[b], put.key.low), Entry(put.key.low, true, 0, SizeField(g, put.value), a));
      PendingOk(g, store[a := Kept(g, put)], keys, p, part')
  {
    hide PartOf, BucketOf, EntryOk, Sound, Install, Target, View, Match, TableMap, Kept, SizeField, KeysOk;
    var k, b := part.pending.key, BucketOf(g, put.key);
    var e := Entry(put.key.low, true, 0, SizeField(g, put.value), a);
    StoreGrows(g, store, keys, p, part, a, Kept(g, put));
    FillPut(g, store, keys, p, part, put, a, k);
    KeysDiffer(g, keys, k, put.key);
    assert Sound(part.buckets[b]);
    InstallMatches(part.buckets[b], Target(part.buckets[b], put.key.low), e, k.low);
    hide CacheOk;
  }

  lemma FillPutEffect(g: Geometry, store: Store, keys: set<Key>, p: nat, part: Part, put: Put, a: nat, q: Key)
    requires CacheOk(g, store, keys, p, part) && KeysOk(g, keys) && !part.flying
    requires PutOk(g, keys, p, put) && Fresh(store, a) && q in keys && PartOf(g, q) == p
    requires Target(part.buckets[BucketOf(g, put.key)], put.key.low) < NR_SET
    requires part.pending.Idle? || BesideGet(g, store, keys, p, part, put)
    ensures Effect(g, store, keys, p, part, GetEntry(g, store, part, put, a), a, q)
  {
    hide PartOf, BucketOf, EntryOk, TableOk, Sound, Install;
    FillPut(g, store, keys, p, part, put, a, q);
    if part.pending.GetTable? { FillKeepsGet(g, store, keys, p, part, put, a); }
  }

  lemma WriteTableEffect(g: Geometry, store: Store, keys: set<Key>, p: nat, part: Part, put: Put, buf: Table, a: nat, q: Key)
    requires CacheOk(g, store, keys, p, part) && KeysOk(g, keys) && Buffered(g, store, part, buf)
    requires PutOk(g, keys, p, put) && Fresh(store, a) && q in keys && PartOf(g, q) == p
    requires Sized(buf, g.hops)
    ensures Effect(g, store, keys, p, part, WriteTable(g, part, put, buf, a), a, q)
  {
    hide PartOf, BucketOf, EntryOk, TableOk, Install, InsertAll, Match, Holds, TableMap, DirtyItems, KeysOk, Buffered;
    if Merged(g, part, buf).Room? {
      FlushKeepsCache(g, store, keys, p, part, buf, a);
      FlushInvisible(g, store, keys, p, part, buf, a, q);
      var b := BucketOf(g, put.key);
      assert Sound(part.buckets[b]);
      CleanedHasTarget(part.buckets[b], put.key.low);
      hide Target, Sound, BucketsOk;
    }
  }

  lemma GetEntryEffect(g: Geometry, store: Store, keys: set<Key>, p: nat, part: Part, put: Put, a: nat, q: Key)
    requires CacheOk(g, store, keys, p, part) && KeysOk(g, keys) && !part.flying
    requires PutOk(g, keys, p, put) && Fresh(store, a) && q in keys && PartOf(g, q) == p
    requires part.pending.Idle? || BesideGet(g, store, keys, p, part, put)
    ensures Effect(g, store, keys, p, part, GetEntry(g, store, part, put, a), a, q)
  {
    hide PartOf, BucketOf, EntryOk, TableOk, Install, InsertAll;
    if Target(part.buckets[BucketOf(g, put.key)], put.key.low) < NR_SET {
      FillPutEffect(g, store, keys, p, part, put, a, q);
    } else if part.pba == PBA_INVALID {
      BlankIsEmpty(g.slots, g.hops);
      WriteTableEffect(g, store, keys, p, part, put, Blank(g.slots), a, q);
    }
  }

  /** Resuming whatever is pending. */
  lemma ResumeEffect(g: Geometry, store: Store, keys: set<Key>, p: nat, part: Part, a: nat, q: Key)
    requires PartInv(g, store, keys, p, part) && KeysOk(g, keys) && !part.pending.Idle?
    requires Fresh(store, a) && q in keys && PartOf(g, q) == p
    ensures part.pending.GetTable? ==> Sized(part.pending.buf, g.hops)
    ensures part.pending.SetTable? ==> Sized(part.pending.buf, g.hops)
    ensures Effect(g, store, keys, p, part, Resume(g, store, part, a), a, q)
  {
    match part.pending
    case GetTable(k, buf) => ResumeGetEffect(g, store, keys, p, part, a, q);
    case SetTable(put, buf) => WriteTableEffect(g, store, keys, p, part, put, buf, a, q);
    case SetKv(put) => LastEffect(g, store, keys, p, part, a, q);
  }

  /** After its flush a SET goes on like one that meets an idle partition. */
  lemma LastEffect(g: Geometry, store: Store, keys: set<Key>, p: nat, part: Part, a: nat, q: Key)
    requires PartInv(g, store, keys, p, part) && KeysOk(g, keys) && part.pending.SetKv?
    requires Fresh(store, a) && q in keys && PartOf(g, q) == p
    ensures Effect(g, store, keys, p, part, Resume(g, store, part, a), a, q)
  {
    hide PartOf, BucketOf, EntryOk, TableOk, Sound, GetEntry, View, KeysOk;
    var idle := part.(pending := Idle);
    assert CacheOk(g, store, keys, p, idle);
    GetEntryEffect(g, store, keys, p, idle, part.pending.put, a, q);
    PendingUnseen(g, store, part, q);
    ViewIgnoresPending(g, store, part);
  }

  lemma ViewIgnoresPending(g: Geometry, store: Store, part: Part)
    requires |part.buckets| == BUCKETS_IN_PART
    ensures forall k :: ViewOf(g, store, part.(pending := Idle), k) == ViewOf(g, store, part, k)
  {
  }

  // ---------- What a SET leaves for the GETs that follow

  /** Serving an entry that is the most recently used one changes nothing. */
  lemma ServedAgain(b: Set, i: nat, e: Entry)
    requires Sound(b) && i < NR_SET
    ensures var r := Install(b, i, e); Install(r, i, r[i]) == r
  {
    InstallWrites(b, i, e);
    var r := Install(b, i, e);
    assert r[i].(lru := 0) == r[i];
    assert forall j :: 0 <= j < NR_SET ==> Install(r, i, r[i])[j] == r[j];
  }

  /** After the SET of a record its key hits the entry that was filled, and a GET leaves the partition as it is. */
  lemma HitAfterFill(g: Geometry, store: Store, part: Part, put: Put, a: nat)
    requires |part.buckets| == BUCKETS_IN_PART && Sound(part.buckets[BucketOf(g, put.key)]) && a != PBA_INVALID
    requires Target(part.buckets[BucketOf(g, put.key)], put.key.low) < NR_SET
    ensures var b, part' := BucketOf(g, put.key), GetEntry(g, store, part, put, a).part;
      var i := Match(part'.buckets[b], put.key.low, 0);
      && |part'.buckets| == BUCKETS_IN_PART && i < NR_SET
      && part'.buckets[b][i].Where() == Loc(a, SizeField(g, put.value))
      && Filled(part', b, i, part'.buckets[b][i]) == part'
  {
    var b := BucketOf(g, put.key);
    var before := part.buckets[b];
    var i := Target(before, put.key.low);
    var e := Entry(put.key.low, true, 0, SizeField(g, put.value), a);
    InstallWrites(before, i, e);
    InstallMatches(before, i, e, put.key.low);
    ServedAgain(before, i, e);
    hide Install, Target, Match, Sound, BucketOf, SizeField;
    var part' := GetEntry(g, store, part, put, a).part;
    assert part'.buckets[b := part'.buckets[b]] == part'.buckets;
  }

  /**
   A record that was stored answers the GETs of its key exactly when it has a grain that the size field counts, or
   the empty key; the answer is the bytes on flash, key first. Otherwise every GET finds a foreign record, changes
   nothing and starts all over again, whatever happens to flash meanwhile.
   */
  lemma StoredRecordAnswers(g: Geometry, store: Store, part: Part, put: Put, a: nat, later: Store)
    requires |part.buckets| == BUCKETS_IN_PART && Sound(part.buckets[BucketOf(g, put.key)]) && a != PBA_INVALID
    requires Target(part.buckets[BucketOf(g, put.key)], put.key.low) < NR_SET && |put.key.name| < g.grain
    requires Stored(g, put).Some? ==> a in later && later[a] == Stored(g, put).value
    ensures var part' := GetEntry(g, store, part, put, a).part;
      && |part'.buckets| == BUCKETS_IN_PART
      && var get := StartGet(g, later, part', put.key);
      && get.part == part'
      && (get.reply.GetDone? <==> 0 < SizeField(g, put.value) || put.key.name == [])
      && get.reply == (if get.reply.GetDone? then GetDone(put.key, Some(Kept(g, put))) else Foreign(put.key))
  {
    HitAfterFill(g, store, part, put, a);
    var kept := Kept(g, put);
    if 0 < SizeField(g, put.value) { KeptSpellsKey(g, put); }
    assert kept[..|kept|] == kept;
    hide Target, Match, Sound, BucketOf, Filled, GetEntry, SizeField, Kept, NameAt;
  }

  ghost predicate Whole(g: Geometry, value: seq<Byte>) {
    |value| % g.grain == 0 && 0 < |value| / g.grain < KV_SIZE_LIMIT
  }

  lemma NoSizeNotWhole(g: Geometry, value: seq<Byte>)
    requires SizeField(g, value) == 0
    ensures !Whole(g, value)
  {
  }

  lemma KeptTail(g: Geometry, put: Put)
    requires 0 < SizeField(g, put.value) && |put.key.name| < g.grain
    ensures |put.key.name| < |put.value|
    ensures var kept, head := Kept(g, put), 1 + |put.key.name|;
      && (|kept| == |put.value| && kept[head..] == put.value[head..] <==> Whole(g, put.value))
      && (kept == put.value <==> Whole(g, put.value) && NameAt(put.value) == Some(put.key.name))
  {
    OneGrain(SizeField(g, put.value), g.grain);
    KeptIff(g, put);
    assert |put.value| / g.grain > 0;
    assert |Kept(g, put)| == |put.value| <==> Whole(g, put.value);
    HeadIsKept(put.key.name, put.value);
    var head := 1 + |put.key.name|;
    assert Headed(put)[head..] == put.value[head..];
    hide SizeField, NameAt, WithKey;
  }

  /** The answer is as long as the value, and agrees with it behind the key. */
  predicate BringsBack(reply: Reply, put: Put) {
    && reply.GetDone? && reply.answer.Some? && |put.key.name| < |put.value| == |reply.answer.value|
    && reply.answer.value[1 + |put.key.name|..] == put.value[1 + |put.key.name|..]
  }

  /** As many bytes as the size field counts whole grains: length byte and key first, then the value's own bytes. */
  predicate StartsLike(answer: seq<Byte>, g: Geometry, put: Put) {
    && |answer| == |put.value| / g.grain % KV_SIZE_LIMIT * g.grain <= |put.value|
    && |put.key.name| < |answer| && answer[0] == |put.key.name| && answer[1..1 + |put.key.name|] == put.key.name
    && forall i :: |put.key.name| < i < |answer| ==> answer[i] == put.value[i]
  }

  lemma KeptStartsLike(g: Geometry, put: Put)
    requires 0 < SizeField(g, put.value) && |put.key.name| < g.grain
    ensures StartsLike(Kept(g, put), g, put)
  {
    OneGrain(SizeField(g, put.value), g.grain);
    assert SizeField(g, put.value) == |put.value| / g.grain % KV_SIZE_LIMIT;
    var kept := Kept(g, put);
    WithKeyBytes(put.key.name, put.value);
    hide SizeField, WithKey;
    assert forall i :: 0 <= i < |kept| ==> kept[i] == Headed(put)[i];
  }

  /**
   What a GET gives back of a value: as many whole grains as the size field counts (a GET never ends when that is
   none), the key at the head and the value's bytes behind it. That is all that stood behind the key, exactly when
   the value is made of whole grains, as many as the size field can count; it is the very buffer, exactly when its
   head also spelled the key from the start.
   */
  lemma ValueComesBack(g: Geometry, store: Store, part: Part, put: Put, a: nat, later: Store)
    requires |part.buckets| == BUCKETS_IN_PART && Sound(part.buckets[BucketOf(g, put.key)]) && a != PBA_INVALID
    requires Target(part.buckets[BucketOf(g, put.key)], put.key.low) < NR_SET
    requires |put.key.name| < g.grain && put.key.name != []
    requires Stored(g, put).Some? ==> a in later && later[a] == Stored(g, put).value
    ensures var part' := GetEntry(g, store, part, put, a).part;
      && |part'.buckets| == BUCKETS_IN_PART
      && var reply := StartGet(g, later, part', put.key).reply;
      && (if |put.value| / g.grain % KV_SIZE_LIMIT == 0 then reply == Foreign(put.key)
          else reply.GetDone? && reply.key == put.key && reply.answer.Some? && StartsLike(reply.answer.value, g, put))
      && (BringsBack(reply, put) <==> Whole(g, put.value))
      && (reply == GetDone(put.key, Some(put.value)) <==> Whole(g, put.value) && NameAt(put.value) == Some(put.key.name))
  {
    StoredRecordAnswers(g, store, part, put, a, later);
    assert SizeField(g, put.value) == |put.value| / g.grain % KV_SIZE_LIMIT;
    if 0 < SizeField(g, put.value) {
      hide SizeField;
      KeptTail(g, put);
      KeptStartsLike(g, put);
    } else {
      NoSizeNotWhole(g, put.value);
    }
    hide Target, Match, Sound, BucketOf, Filled, GetEntry, StartGet, Kept, Stored, NameAt, SizeField;
  }

  // ---------- How far a SET gets per dispatch

  /** First dispatch of a SET: done, or on its way through the partition table. */
  lemma SetFirstDispatch(g: Geometry, store: Store, keys: set<Key>, p: nat, part: Part, put: Put, a: nat)
    requires PartInv(g, store, keys, p, part) && part.pending.Idle?
    requires PutOk(g, keys, p, put)
    ensures var o := StartSet(g, store, part, put, a);
      || o.reply == SetDone(put)
      || (o.reply == Working && o.part.pending.SetTable? && o.part.pending.put == put && part.pba != PBA_INVALID)
      || (o.reply == Working && o.part.pending == SetKv(put) && part.pba == PBA_INVALID)
      || (o.reply == Crash && part.pba == PBA_INVALID && Merged(g, part, Blank(g.slots)).NoRoom?)
  {
  }

  /** Second dispatch, with the table at hand: the flush, unless it has to abort. */
  lemma SetSecondDispatch(g: Geometry, store: Store, keys: set<Key>, p: nat, part: Part, a: nat)
    requires PartInv(g, store, keys, p, part) && part.pending.SetTable?
    ensures Sized(part.pending.buf, g.hops)
    ensures var o := Resume(g, store, part, a);
      if Merged(g, part, part.pending.buf).NoRoom? then o.reply == Crash
      else o.reply == Working && o.part.pending == SetKv(part.pending.put)
  {
  }

  /** Last dispatch, after the flush: always done. */
  lemma SetLastDispatch(g: Geometry, store: Store, keys: set<Key>, p: nat, part: Part, a: nat)
    requires PartInv(g, store, keys, p, part) && part.pending.SetKv?
    ensures Resume(g, store, part, a).reply == SetDone(part.pending.put)
    ensures Resume(g, store, part, a).part.pending.Idle?
  {
    hide BucketOf, EntryOk, TableOk, PutOk, Install, Target, SizeField, Stored, Sound, AllClean;
    var b := BucketOf(g, part.pending.put.key);
    assert Sound(part.buckets[b]);
    CleanHasTarget(part.buckets[b], part.pending.put.key.low);
  }

  /**
   A SET is done after at most three dispatches, unless a flush has to abort. In between, other partitions
   may write to flash; what counts is that this partition still satisfies its invariant.
   */
  lemma SetInThreeDispatches(g: Geometry, keys: set<Key>, p: nat, part: Part, put: Put,
                             store1: Store, a1: nat, store2: Store, a2: nat, store3: Store, a3: nat)
    requires PartInv(g, store1, keys, p, part) && part.pending.Idle? && PutOk(g, keys, p, put)
    ensures var o1 := StartSet(g, store1, part, put, a1);
      o1.reply == SetDone(put) || o1.reply == Crash || o1.reply == Working
    ensures var o1 := StartSet(g, store1, part, put, a1);
      o1.reply == Working && PartInv(g, store2, keys, p, o1.part) ==>
        && (o1.part.pending.SetTable? ==> Sized(o1.part.pending.buf, g.hops)) && !o1.part.pending.GetTable?
        && var o2 := Resume(g, store2, o1.part, a2);
           o2.reply == SetDone(put) || o2.reply == Crash
           || (o2.part.pending == SetKv(put) &&
                (PartInv(g, store3, keys, p, o2.part) ==> Resume(g, store3, o2.part, a3).reply == SetDone(put)))
  {
    hide PartOf, BucketOf, EntryOk, View, InsertAll, Install;
    SetFirstDispatch(g, store1, keys, p, part, put, a1);
    var o1 := StartSet(g, store1, part, put, a1);
    if o1.reply == Working && PartInv(g, store2, keys, p, o1.part) {
      if o1.part.pending.SetTable? {
        SetSecondDispatch(g, store2, keys, p, o1.part, a2);
        var o2 := Resume(g, store2, o1.part, a2);
        if o2.reply == Working && PartInv(g, store3, keys, p, o2.part) {
          SetLastDispatch(g, store3, keys, p, o2.part, a3);
        }
      } else {
        SetLastDispatch(g, store2, keys, p, o1.part, a2);
      }
    }
  }

  /**
   A GET aborts only if its flush finds no room. In particular the retry loop never comes round a
   third time, when it would flush through the table pointer that it has already given away.
   */
  lemma GetSecondDispatch(g: Geometry, store: Store, keys: set<Key>, p: nat, part: Part, a: nat)
    requires PartInv(g, store, keys, p, part) && part.pending.GetTable?
    ensures Sized(part.pending.buf, g.hops)
    ensures var o := Resume(g, store, part, a);
      var k, buf := part.pending.key, part.pending.buf;
      && (o.reply == Crash <==>
           FirstMatch(buf, g.hops, k.low, 0) < g.hops
           && Target(part.buckets[BucketOf(g, k)], k.low) == NR_SET && Merged(g, part, buf).NoRoom?)
      && (o.reply != Crash ==> o.part.pending.Idle?)
  {
    var k, buf := part.pending.key, part.pending.buf;
    assert Sound(part.buckets[BucketOf(g, k)]);
    assert Sized(buf, g.hops);
    ResumeGetCases(g, store, part, k, buf, a);
    var r := FirstMatch(buf, g.hops, k.low, 0);
    if r < g.hops { CompareDoesNotCrash(g, store, buf[Probe(buf, k.low, r)].Where(), k); }
    hide PartInv, BucketOf, Install, InsertAll, Compare, ResumeGet, FirstMatch, Probe, Target, Merged, Sized, Sound;
  }

  /** First dispatch of a GET of a key whose view is known: answered, on its way to the table, or aborted. */
  lemma GetFirstDispatch(g: Geometry, store: Store, keys: set<Key>, p: nat, part: Part, k: Key)
    requires PartInv(g, store, keys, p, part) && KeysOk(g, keys) && part.pending.Idle? && k in keys && PartOf(g, k) == p
    ensures var o := StartGet(g, store, part, k);
      if Match(part.buckets[BucketOf(g, k)], k.low, 0) < NR_SET then
        o.reply == GetDone(k, Answer(store, ViewOf(g, store, part, k)))
      else if part.pba == PBA_INVALID then o.reply == Crash
      else o.reply == Working && o.part.pending.GetTable? && o.part.pending.key == k
  {
    var i := Match(part.buckets[BucketOf(g, k)], k.low, 0);
    if i < NR_SET {
      assert EntryOk(g, store, keys, p, part.pba, BucketOf(g, k), part.buckets[BucketOf(g, k)][i]);
      CompareOwn(g, store, keys, p, k, part.buckets[BucketOf(g, k)][i].Where());
    }
    hide BucketOf, PartOf, Match, Compare, KeysOk, Install;
  }

  /** Second dispatch: the answer is what the view shows, unless the flush finds no room. */
  lemma GetLastDispatch(g: Geometry, store: Store, keys: set<Key>, p: nat, part: Part, a: nat)
    requires PartInv(g, store, keys, p, part) && KeysOk(g, keys) && part.pending.GetTable?
    ensures Sized(part.pending.buf, g.hops)
    ensures var o := Resume(g, store, part, a);
      o.reply == Crash || o.reply == GetDone(part.pending.key, Answer(store, ViewOf(g, store, part, part.pending.key)))
  {
    hide ResumeGet, Compare, Probe, FirstMatch, Target, Merged, Sound, EntryOk, TableOk, KeysOk, BucketOf, Answer, TableMap,
      View, Buffered, Match, Install, PartOf, Cleaned;
    var k, buf := part.pending.key, part.pending.buf;
    assert Sound(part.buckets[BucketOf(g, k)]);
    FoundInTable(g, store, keys, p, part);
    ResumeGetCases(g, store, part, k, buf, a);
    hide PartInv;
  }

  /**
   A GET is answered after at most two dispatches, with what its view shows at the dispatch that answers it, unless
   its partition has no table to look at or its flush finds no room. In between, other partitions may write to
   flash, and this one may serve hits and SETs: what counts is that it satisfies its invariant.
   */
  lemma GetInTwoDispatches(g: Geometry, keys: set<Key>, p: nat, part: Part, k: Key, store1: Store,
                           later: Part, store2: Store, a2: nat)
    requires PartInv(g, store1, keys, p, part) && KeysOk(g, keys) && part.pending.Idle? && k in keys && PartOf(g, k) == p
    ensures var o1 := StartGet(g, store1, part, k);
      || o1.reply == GetDone(k, Answer(store1, ViewOf(g, store1, part, k)))
      || (o1.reply == Crash && part.pba == PBA_INVALID)
      || (o1.reply == Working && o1.part.pending.GetTable? && o1.part.pending.key == k)
    ensures var o1 := StartGet(g, store1, part, k);
      o1.reply == Working && later.pending == o1.part.pending && PartInv(g, store2, keys, p, later) ==>
        && Sized(later.pending.buf, g.hops)
        && var o2 := Resume(g, store2, later, a2);
        && (o2.reply == Crash || o2.reply == GetDone(k, Answer(store2, ViewOf(g, store2, later, k))))
        && (o2.reply == Crash <==>
             FirstMatch(later.pending.buf, g.hops, k.low, 0) < g.hops
             && Target(later.buckets[BucketOf(g, k)], k.low) == NR_SET && Merged(g, later, later.pending.buf).NoRoom?)
  {
    hide BucketOf, Answer, View, Match, Target, Merged, FirstMatch, StartGet, Resume, KeysOk, EntryOk, TableOk, Sound;
    GetFirstDispatch(g, store1, keys, p, part, k);
    var o1 := StartGet(g, store1, part, k);
    if o1.reply == Working && later.pending == o1.part.pending && PartInv(g, store2, keys, p, later) {
      GetLastDispatch(g, store2, keys, p, later, a2);
      GetSecondDispatch(g, store2, keys, p, later, a2);
    }
  }

  /**
   A SET that meets its partition in flight goes back to the retry queue, however often, and changes nothing. The
   flush it met is over after one dispatch of the SET that started it (or aborts), the partition is idle after two,
   and from then on SetInThreeDispatches applies to the SET that was sent back.
   */
  lemma BouncedSetGetsThrough(g: Geometry, keys: set<Key>, p: nat, part: Part, put: Put,
                              store1: Store, a1: nat, store2: Store, a2: nat, store3: Store, a3: nat)
    requires PartInv(g, store1, keys, p, part) && KeysOk(g, keys) && part.flying && PutOk(g, keys, p, put)
    ensures StartSet(g, store1, part, put, a1) == Outcome(part, None, Working)
    ensures part.pending.SetTable? && Sized(part.pending.buf, g.hops)
    ensures var o2 := Resume(g, store2, part, a2);
      if Merged(g, part, part.pending.buf).NoRoom? then o2.reply == Crash
      else
        && o2.reply == Working && !o2.part.flying && o2.part.pending == SetKv(part.pending.put)
        && (PartInv(g, store3, keys, p, o2.part) ==>
             var o3 := Resume(g, store3, o2.part, a3);
             o3.reply == SetDone(part.pending.put) && o3.part.pending.Idle? && !o3.part.flying)
  {
    hide PartOf, BucketOf, EntryOk, View, InsertAll, Install, KeysOk, Target;
    SetSecondDispatch(g, store1, keys, p, part, a2);
    assert Resume(g, store1, part, a2) == Resume(g, store2, part, a2);
    var o2 := Resume(g, store2, part, a2);
    if o2.reply == Working && PartInv(g, store3, keys, p, o2.part) {
      SetLastDispatch(g, store3, keys, p, o2.part, a3);
    }
  }

  // ---------- A SET that slips in while a GET waits for the table

  /** The GET's second dispatch, of a key that has become cached meanwhile: the table's record replaces the newer one. */
  lemma StaleRecordWins(g: Geometry, store: Store, part: Part, a: nat)
    requires |part.buckets| == BUCKETS_IN_PART && part.pending.GetTable? && Sized(part.pending.buf, g.hops)
    requires var k := part.pending.key;
      && Sound(part.buckets[BucketOf(g, k)]) && Match(part.buckets[BucketOf(g, k)], k.low, 0) < NR_SET
      && FirstMatch(part.pending.buf, g.hops, k.low, 0) < g.hops
      && part.pending.buf[Probe(part.pending.buf, k.low, FirstMatch(part.pending.buf, g.hops, k.low, 0))].pba != PBA_INVALID
    ensures var k, buf := part.pending.key, part.pending.buf;
      var o := Resume(g, store, part, a);
      && |o.part.buckets| == BUCKETS_IN_PART && o.wrote == None
      && ViewOf(g, store, o.part, k) == Some(buf[Probe(buf, k.low, FirstMatch(buf, g.hops, k.low, 0))].Where())
  {
    var k, buf := part.pending.key, part.pending.buf;
    var b := BucketOf(g, k);
    var e := EntryFor(buf[Probe(buf, k.low, FirstMatch(buf, g.hops, k.low, 0))]);
    TargetOfHit(part.buckets[b], k.low);
    ResumeGetCases(g, store, part, k, buf, a);
    InstallMatches(part.buckets[b], Target(part.buckets[b], k.low), e, k.low);
    InstallWrites(part.buckets[b], Target(part.buckets[b], k.low), e);
    hide ResumeGet, Compare, Probe, FirstMatch, Target, Merged, Sound, BucketOf, TableMap, Match, Install;
  }

  /**
   A SET that finds an entry while a GET waits for the partition's table is lost exactly when it is of the GET's key
   and the table holds an older record of it: the GET's second dispatch puts that record back over the new one.
   */
  lemma SetBesideGet(g: Geometry, store: Store, keys: set<Key>, p: nat, part: Part, put: Put, a: nat, a2: nat)
    requires PartInv(g, store, keys, p, part) && KeysOk(g, keys) && part.pending.GetTable? && PutOk(g, keys, p, put)
    requires Target(part.buckets[BucketOf(g, put.key)], put.key.low) < NR_SET
    requires Fresh(store, a) && Fresh(store, a2) && a != a2
    ensures var o1 := StartSet(g, store, part, put, a);
      var store1, k := Wrote(store, o1, a), part.pending.key;
      && o1.reply == SetDone(put) && Ready(g, o1.part)
      && var o2 := Resume(g, store1, o1.part, a2);
      o2.reply != Crash ==>
        && |o2.part.buckets| == BUCKETS_IN_PART
        && (ViewOf(g, Wrote(store1, o2, a2), o2.part, put.key) == Some(Loc(a, SizeField(g, put.value))) <==>
             put.key != k || ViewOf(g, store, part, k) == None)
  {
    if put.key != part.pending.key {
      OtherKeyBesideGet(g, store, keys, p, part, put, a, a2);
    } else {
      SameKeyBesideGet(g, store, keys, p, part, put, a, a2);
    }
  }

  lemma OtherKeyBesideGet(g: Geometry, store: Store, keys: set<Key>, p: nat, part: Part, put: Put, a: nat, a2: nat)
    requires PartInv(g, store, keys, p, part) && KeysOk(g, keys) && PutOk(g, keys, p, put)
    requires BesideGet(g, store, keys, p, part, put)
    requires Fresh(store, a) && Fresh(store, a2) && a != a2
    ensures var o1 := StartSet(g, store, part, put, a);
      var store1 := Wrote(store, o1, a);
      && o1.reply == SetDone(put) && Ready(g, o1.part)
      && var o2 := Resume(g, store1, o1.part, a2);
      o2.reply != Crash ==>
        && |o2.part.buckets| == BUCKETS_IN_PART
        && ViewOf(g, Wrote(store1, o2, a2), o2.part, put.key) == Some(Loc(a, SizeField(g, put.value)))
  {
    hide PartOf, BucketOf, EntryOk, TableOk, View, Sound, Install, ResumeGet, Target, Match, TableMap, KeysOk;
    FillPutEffect(g, store, keys, p, part, put, a, put.key);
    var o1 := StartSet(g, store, part, put, a);
    ResumeEffect(g, Wrote(store, o1, a), keys, p, o1.part, a2, put.key);
    GetLastDispatch(g, Wrote(store, o1, a), keys, p, o1.part, a2);
  }

  lemma SameKeyBesideGet(g: Geometry, store: Store, keys: set<Key>, p: nat, part: Part, put: Put, a: nat, a2: nat)
    requires PartInv(g, store, keys, p, part) && KeysOk(g, keys) && part.pending.GetTable? && PutOk(g, keys, p, put)
    requires put.key == part.pending.key && Target(part.buckets[BucketOf(g, put.key)], put.key.low) < NR_SET
    requires Fresh(store, a) && Fresh(store, a2) && a != a2
    ensures var o1 := StartSet(g, store, part, put, a);
      var store1, k := Wrote(store, o1, a), part.pending.key;
      && o1.reply == SetDone(put) && Ready(g, o1.part)
      && var o2 := Resume(g, store1, o1.part, a2);
        && |o2.part.buckets| == BUCKETS_IN_PART && o2.wrote == None
        && (ViewOf(g, store1, o2.part, k) == Some(Loc(a, SizeField(g, put.value))) <==> ViewOf(g, store, part, k) == None)
  {
    hide PartOf, EntryOk, TableOk, View, Sound, Install, ResumeGet, Target, Match, TableMap, KeysOk, FirstMatch, Probe;
    var k, buf, b := part.pending.key, part.pending.buf, BucketOf(g, put.key);
    var o1 := StartSet(g, store, part, put, a);
    var store1 := Wrote(store, o1, a);
    TableAnswers(g, store, keys, p, part);
    FoundInTable(g, store, keys, p, part);
    FillPut(g, store, keys, p, part, put, a, k);
    assert Sound(part.buckets[b]) && Sound(o1.part.buckets[b]);
    InstallMatches(part.buckets[b], Target(part.buckets[b], k.low), Entry(k.low, true, 0, SizeField(g, put.value), a), k.low);
    ResumeGetCases(g, store1, o1.part, k, buf, a2);
    if FirstMatch(buf, g.hops, k.low, 0) < g.hops {
      StaleRecordWins(g, store1, o1.part, a2);
      ViewHolds(g, store, keys, p, part, k);
    } else {
      PendingUnseen(g, store1, o1.part, k);
    }
  }

  // ---------- The whole index

  datatype Event = GetReq(key: Key, a: nat) | SetReq(put: Put, a: nat) | Continue(p: nat, a: nat)

  ghost predicate Inv(g: Geometry, keys: set<Key>, s: State) {
    && |s.parts| == g.parts
    && forall p :: 0 <= p < g.parts ==> PartInv(g, s.store, keys, p, s.parts[p])
  }

  function Initial(g: Geometry): (r: State) {
    State(seq(g.parts, _ => Part(seq(BUCKETS_IN_PART, _ => Bucket.Fresh()), PBA_INVALID, false, Idle)), map[])
  }

  function Home(g: Geometry, ev: Event): (r: nat) {
    match ev
    case GetReq(k, _) => PartOf(g, k)
    case SetReq(put, _) => PartOf(g, put.key)
    case Continue(p, _) => p
  }

  /** The partition has its buckets, and a table buffer that is on its way to it has the right size. */
  predicate Ready(g: Geometry, part: Part) {
    && |part.buckets| == BUCKETS_IN_PART
    && (part.pending.GetTable? ==> Sized(part.pending.buf, g.hops))
    && (part.pending.SetTable? ==> Sized(part.pending.buf, g.hops))
  }

  predicate CanDispatch(g: Geometry, s: State, ev: Event) {
    Home(g, ev) < |s.parts| && Ready(g, s.parts[Home(g, ev)])
  }

  function Dispatch(g: Geometry, s: State, ev: Event): (o: Outcome)
    requires CanDispatch(g, s, ev)
  {
    var part := s.parts[Home(g, ev)];
    match ev
    case GetReq(k, _) => StartGet(g, s.store, part, k)
    case SetReq(put, a) => StartSet(g, s.store, part, put, a)
    case Continue(_, a) => Resume(g, s.store, part, a)
  }

  /** One event: the partition's new state, flash with the block it wrote, and the reply. */
  function Step(g: Geometry, s: State, ev: Event): (r: (State, Reply))
    requires CanDispatch(g, s, ev)
  {
    var o := Dispatch(g, s, ev);
    (State(s.parts[Home(g, ev) := o.part], Wrote(s.store, o, ev.a)), o.reply)
  }

  /**
   Partition-serial: a request that needs the partition's table starts only in a partition without a pending
   one. A GET that hits and a SET that meets the partition in flight come at any time, and a SET that finds an
   entry may slip in while a GET of another key waits for the table. A GET of low hash 0 asks for something that
   exists.
   */
  ghost predicate Serial(g: Geometry, keys: set<Key>, s: State, ev: Event) {
    && CanDispatch(g, s, ev)
    && var part := s.parts[Home(g, ev)];
      match ev
      case GetReq(k, _) =>
        && (part.pending.Idle? || Match(part.buckets[BucketOf(g, k)], k.low, 0) < NR_SET)
        && GetOk(g, s.store, keys, PartOf(g, k), part, k)
      case SetReq(put, _) =>
        && (part.pending.Idle? || part.flying || BesideGet(g, s.store, keys, PartOf(g, put.key), part, put))
        && PutOk(g, keys, PartOf(g, put.key), put)
      case Continue(_, _) => !part.pending.Idle?
  }

  /** Addresses are fresh, as the allocator hands them out until the log wraps. */
  ghost predicate Legal(g: Geometry, keys: set<Key>, s: State, ev: Event) {
    Serial(g, keys, s, ev) && Fresh(s.store, ev.a)
  }

  lemma PartIsReady(g: Geometry, keys: set<Key>, s: State, p: nat)
    requires Inv(g, keys, s) && p < g.parts
    ensures Ready(g, s.parts[p])
  {
    assert PartInv(g, s.store, keys, p, s.parts[p]);
  }

  /** What happens in one partition leaves the others as they are. */
  lemma PartInvGrows(g: Geometry, store: Store, keys: set<Key>, p: nat, part: Part, a: nat, block: seq<Byte>)
    requires PartInv(g, store, keys, p, part) && Fresh(store, a)
    ensures PartInv(g, store[a := block], keys, p, part)
    ensures forall k :: ViewOf(g, store[a := block], part, k) == ViewOf(g, store, part, k)
  {
    hide PartOf, EntryOk, View;
    StoreGrows(g, store, keys, p, part, a, block);
  }

  // ---------- Refinement of one map

  ghost function Lookup(latest: map<Key, seq<Byte>>, k: Key): (r: Option<seq<Byte>>) {
    if k in latest then Some(latest[k]) else None
  }

  /** Through every known key the index shows what the reference map holds. */
  ghost predicate Agrees(g: Geometry, keys: set<Key>, s: State, latest: map<Key, seq<Byte>>)
    requires Inv(g, keys, s)
  {
    forall k :: k in keys ==> AgreesOn(g, keys, s, latest, k)
  }

  ghost predicate AgreesOn(g: Geometry, keys: set<Key>, s: State, latest: map<Key, seq<Byte>>, k: Key)
    requires Inv(g, keys, s)
  {
    assert PartInv(g, s.store, keys, PartOf(g, k), s.parts[PartOf(g, k)]);
    Answer(s.store, ViewOf(g, s.store, s.parts[PartOf(g, k)], k)) == Lookup(latest, k)
  }

  /** Only a finished SET changes the reference map, at its own key, to what it left on flash. */
  ghost function After(g: Geometry, latest: map<Key, seq<Byte>>, reply: Reply): (r: map<Key, seq<Byte>>) {
    if reply.SetDone? then latest[reply.put.key := Kept(g, reply.put)] else latest
  }

  /** A GET reports the reference map's value; no reader is handed a foreign record. */
  ghost predicate Honest(latest: map<Key, seq<Byte>>, r: Reply) {
    (r.GetDone? ==> r.answer == Lookup(latest, r.key)) && !r.Foreign?
  }

  /** A SET that meets a partition in flight does nothing, not even reply. */
  lemma BouncedEffect(g: Geometry, store: Store, keys: set<Key>, p: nat, part: Part, put: Put, a: nat, q: Key)
    requires PartInv(g, store, keys, p, part) && part.flying
    ensures StartSet(g, store, part, put, a) == Outcome(part, None, Working)
    ensures Effect(g, store, keys, p, part, StartSet(g, store, part, put, a), a, q)
  {
    hide PartInv, ViewOf;
  }

  lemma DispatchEffect(g: Geometry, keys: set<Key>, s: State, ev: Event, q: Key)
    requires Inv(g, keys, s) && KeysOk(g, keys) && Legal(g, keys, s, ev)
    requires q in keys && PartOf(g, q) == Home(g, ev)
    ensures Effect(g, s.store, keys, Home(g, ev), s.parts[Home(g, ev)], Dispatch(g, s, ev), ev.a, q)
  {
    hide PartOf, EntryOk, View, Effect;
    var p := Home(g, ev);
    var part := s.parts[p];
    assert PartInv(g, s.store, keys, p, part);
    PartIsReady(g, keys, s, p);
    match ev
    case GetReq(k, a) => StartGetEffect(g, s.store, keys, p, part, k, a, q);
    case SetReq(put, a) =>
      if part.flying { BouncedEffect(g, s.store, keys, p, part, put, a, q); }
      else { GetEntryEffect(g, s.store, keys, p, part, put, a, q); }
    case Continue(_, a) => ResumeEffect(g, s.store, keys, p, part, a, q);
  }

  /** Some key of the partition is involved in every event that does not abort. */
  ghost function Subject(s: State, g: Geometry, ev: Event): (r: Key)
    requires Home(g, ev) < |s.parts| && (ev.Continue? ==> !s.parts[ev.p].pending.Idle?)
  {
    match ev
    case GetReq(k, _) => k
    case SetReq(put, _) => put.key
    case Continue(p, _) =>
      match s.parts[p].pending
      case GetTable(k, _) => k
      case SetTable(put, _) => put.key
      case SetKv(put) => put.key
  }

  lemma SubjectKnown(g: Geometry, keys: set<Key>, s: State, ev: Event)
    requires Inv(g, keys, s) && Legal(g, keys, s, ev)
    ensures Subject(s, g, ev) in keys && PartOf(g, Subject(s, g, ev)) == Home(g, ev)
  {
    assert PartInv(g, s.store, keys, Home(g, ev), s.parts[Home(g, ev)]);
  }

  /** The invariant survives every event that does not abort the process. */
  lemma StepKeepsInv(g: Geometry, keys: set<Key>, s: State, ev: Event)
    requires Inv(g, keys, s) && KeysOk(g, keys) && Legal(g, keys, s, ev)
    requires !Step(g, s, ev).1.Crash?
    ensures Inv(g, keys, Step(g, s, ev).0)
  {
    hide PartOf, PartInv, Dispatch;
    var p := Home(g, ev);
    var s' := Step(g, s, ev).0;
    SubjectKnown(g, keys, s, ev);
    DispatchEffect(g, keys, s, ev, Subject(s, g, ev));
    var o := Dispatch(g, s, ev);
    forall r | 0 <= r < g.parts
      ensures PartInv(g, s'.store, keys, r, s'.parts[r])
    {
      assert PartInv(g, s.store, keys, r, s.parts[r]);
      if r != p && o.wrote.Some? {
        PartInvGrows(g, s.store, keys, r, s.parts[r], ev.a, o.wrote.value);
      }
    }
  }

  /** A finished SET is of the event's own partition. */
  lemma NotItsKey(g: Geometry, keys: set<Key>, s: State, latest: map<Key, seq<Byte>>, ev: Event, q: Key)
    requires Inv(g, keys, s) && KeysOk(g, keys) && Legal(g, keys, s, ev)
    requires PartOf(g, q) != Home(g, ev)
    ensures !Step(g, s, ev).1.Crash? ==>
      Lookup(After(g, latest, Step(g, s, ev).1), q) == Lookup(latest, q)
  {
    hide BucketOf, EntryOk, Dispatch, View, PartInv;
    SubjectKnown(g, keys, s, ev);
    DispatchEffect(g, keys, s, ev, Subject(s, g, ev));
  }

  /** In other partitions nothing becomes visible. */
  lemma ElsewhereUnchanged(g: Geometry, keys: set<Key>, s: State, latest: map<Key, seq<Byte>>, ev: Event, q: Key)
    requires Inv(g, keys, s) && KeysOk(g, keys) && Legal(g, keys, s, ev)
    requires q in keys && PartOf(g, q) != Home(g, ev) && AgreesOn(g, keys, s, latest, q)
    requires !Step(g, s, ev).1.Crash? && Inv(g, keys, Step(g, s, ev).0)
    ensures AgreesOn(g, keys, Step(g, s, ev).0, After(g, latest, Step(g, s, ev).1), q)
  {
    hide PartOf, BucketOf, EntryOk, Dispatch, View, PendingOk;
    var r := PartOf(g, q);
    assert PartInv(g, s.store, keys, r, s.parts[r]);
    PartIsReady(g, keys, s, Home(g, ev));
    NotItsKey(g, keys, s, latest, ev, q);
    var o := Dispatch(g, s, ev);
    if o.wrote.Some? {
      PartInvGrows(g, s.store, keys, r, s.parts[r], ev.a, o.wrote.value);
      AnswerGrows(g, s.store, keys, r, s.parts[r], q, ev.a, o.wrote.value);
    }
  }

  lemma AnswerGrows(g: Geometry, store: Store, keys: set<Key>, p: nat, part: Part, q: Key, a: nat, block: seq<Byte>)
    requires CacheOk(g, store, keys, p, part) && Fresh(store, a)
    ensures Answer(store[a := block], ViewOf(g, store, part, q)) == Answer(store, ViewOf(g, store, part, q))
  {
    hide PartOf, BucketOf, EntryOk, View;
    if ViewOf(g, store, part, q).Some? {
      ViewHolds(g, store, keys, p, part, q);
    }
  }

  /** In its own partition an event shows exactly what the reference map says it should. */
  lemma HereAgrees(g: Geometry, keys: set<Key>, s: State, latest: map<Key, seq<Byte>>, ev: Event, q: Key)
    requires Inv(g, keys, s) && KeysOk(g, keys) && Legal(g, keys, s, ev)
    requires q in keys && PartOf(g, q) == Home(g, ev) && AgreesOn(g, keys, s, latest, q)
    requires !Step(g, s, ev).1.Crash? && Inv(g, keys, Step(g, s, ev).0)
    ensures AgreesOn(g, keys, Step(g, s, ev).0, After(g, latest, Step(g, s, ev).1), q)
  {
    hide PartOf, BucketOf, EntryOk, Dispatch, View, PendingOk;
    var p := Home(g, ev);
    assert PartInv(g, s.store, keys, p, s.parts[p]);
    DispatchEffect(g, keys, s, ev, q);
    var o := Dispatch(g, s, ev);
    if o.wrote.Some? {
      AnswerGrows(g, s.store, keys, p, s.parts[p], q, ev.a, o.wrote.value);
    }
  }

  /** A reply is what the reference map says. */
  lemma ReplyHonest(g: Geometry, keys: set<Key>, s: State, latest: map<Key, seq<Byte>>, ev: Event)
    requires Inv(g, keys, s) && KeysOk(g, keys) && Legal(g, keys, s, ev)
    requires Agrees(g, keys, s, latest) && !Step(g, s, ev).1.Crash?
    ensures Honest(latest, Step(g, s, ev).1)
  {
    hide PartOf, BucketOf, EntryOk, Dispatch, View, PartInv;
    var p := Home(g, ev);
    SubjectKnown(g, keys, s, ev);
    DispatchEffect(g, keys, s, ev, Subject(s, g, ev));
    var o := Dispatch(g, s, ev);
    if o.reply.GetDone? {
      assert AgreesOn(g, keys, s, latest, o.reply.key);
    }
  }

  lemma StepRefines(g: Geometry, keys: set<Key>, s: State, latest: map<Key, seq<Byte>>, ev: Event)
    requires Inv(g, keys, s) && KeysOk(g, keys) && Legal(g, keys, s, ev)
    requires Agrees(g, keys, s, latest) && !Step(g, s, ev).1.Crash?
    ensures var (s', reply) := Step(g, s, ev);
      && Inv(g, keys, s') && Honest(latest, reply)
      && Agrees(g, keys, s', After(g, latest, reply))
  {
    assert Home(g, ev) < g.parts;
    hide PartOf, Step, Legal, AgreesOn;
    StepKeepsInv(g, keys, s, ev);
    ReplyHonest(g, keys, s, latest, ev);
    var (s', reply) := Step(g, s, ev);
    SubjectKnown(g, keys, s, ev);
    forall q | q in keys
      ensures AgreesOn(g, keys, s', After(g, latest, reply), q)
    {
      assert AgreesOn(g, keys, s, latest, q);
      if PartOf(g, q) == Home(g, ev) {
        HereAgrees(g, keys, s, latest, ev, q);
      } else {
        ElsewhereUnchanged(g, keys, s, latest, ev, q);
      }
    }
  }

  // ---------- Runs

  /** A run of legal events; nothing follows an abort. */
  ghost predicate RunsSerially(g: Geometry, keys: set<Key>, s: State, evs: seq<Event>)
    decreases |evs|
  {
    evs == [] ||
      (Legal(g, keys, s, evs[0]) &&
       if Step(g, s, evs[0]).1.Crash? then |evs| == 1
       else RunsSerially(g, keys, Step(g, s, evs[0]).0, evs[1..]))
  }

  ghost function Replies(g: Geometry, keys: set<Key>, s: State, evs: seq<Event>): (r: seq<Reply>)
    requires RunsSerially(g, keys, s, evs)
    decreases |evs|
  {
    if evs == [] then []
    else
      var (s', reply) := Step(g, s, evs[0]);
      [reply] + if reply.Crash? then [] else Replies(g, keys, s', evs[1..])
  }

  /** The replies of a plain map: GETs report it, finished SETs update it. */
  ghost predicate Explained(g: Geometry, latest: map<Key, seq<Byte>>, replies: seq<Reply>)
    decreases |replies|
  {
    replies == [] || (Honest(latest, replies[0]) && Explained(g, After(g, latest, replies[0]), replies[1..]))
  }

  lemma {:induction false} RunIsExplained(g: Geometry, keys: set<Key>, s: State, latest: map<Key, seq<Byte>>, evs: seq<Event>)
    requires KeysOk(g, keys) && Inv(g, keys, s) && Agrees(g, keys, s, latest)
    requires RunsSerially(g, keys, s, evs)
    ensures Explained(g, latest, Replies(g, keys, s, evs))
    decreases |evs|
  {
    assert evs != [] ==> Home(g, evs[0]) < g.parts;
    hide Step, Legal, Inv, Agrees;
    if evs != [] {
      var (s', reply) := Step(g, s, evs[0]);
      if !reply.Crash? {
        StepRefines(g, keys, s, latest, evs[0]);
        RunIsExplained(g, keys, s', After(g, latest, reply), evs[1..]);
        assert Replies(g, keys, s, evs)[1..] == Replies(g, keys, s', evs[1..]);
      }
    }
  }

  lemma InitialOk(g: Geometry, keys: set<Key>)
    ensures Inv(g, keys, Initial(g)) && Agrees(g, keys, Initial(g), map[])
  {
    FreshIsSound();
  }

  /** Every partition-serial run from the empty index is a run of one plain map from keys to values. */
  lemma SerialRunIsMap(g: Geometry, keys: set<Key>, evs: seq<Event>)
    requires KeysOk(g, keys) && RunsSerially(g, keys, Initial(g), evs)
    ensures Explained(g, map[], Replies(g, keys, Initial(g), evs))
  {
    InitialOk(g, keys);
    RunIsExplained(g, keys, Initial(g), map[], evs);
  }
}
