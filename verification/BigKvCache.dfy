/** What one partition stands for, and which of its transitions can be seen from outside. */
module BigKvCache {
  import opened Common
  import opened KeyRecord
  import opened PartTable
  import opened TableBytes
  import opened Bucket
  import opened BigKvStep

  // ---------- The map a partition stands for

  /** The map stored by the partition table at an address. */
  ghost function TableMap(g: Geometry, store: Store, pba: nat): (m: map<nat, Loc>) {
    if pba != PBA_INVALID && pba in store && Unique(TableAt(g.slots, store[pba]))
    then Entries(TableAt(g.slots, store[pba])) else map[]
  }

  /** Valid bucket entries override the partition table. */
  ghost function View(g: Geometry, store: Store, part: Part, b: nat, fp: nat): (r: Option<Loc>)
    requires b < |part.buckets|
  {
    var i := Match(part.buckets[b], fp, 0);
    if i < NR_SET then Some(part.buckets[b][i].Where())
    else if fp in TableMap(g, store, part.pba) then Some(TableMap(g, store, part.pba)[fp])
    else None
  }

  // ---------- Invariant of a partition

  /** Within a partition the low hash identifies the key; a key and its length byte fit one grain. */
  ghost predicate KeysOk(g: Geometry, keys: set<Key>) {
    && (forall x, y :: x in keys && y in keys && PartOf(g, x) == PartOf(g, y) && x.low == y.low ==> x == y)
    && (forall x :: x in keys ==> |x.name| < g.grain)
  }

  ghost predicate Owned(g: Geometry, keys: set<Key>, p: nat, fp: nat) {
    exists k :: k in keys && PartOf(g, k) == p && k.low == fp
  }

  /** The known key of partition p with the given low hash. */
  ghost function Owner(g: Geometry, keys: set<Key>, p: nat, fp: nat): (k: Key)
    requires Owned(g, keys, p, fp)
    ensures k in keys && PartOf(g, k) == p && k.low == fp
  {
    var k :| k in keys && PartOf(g, k) == p && k.low == fp;
    k
  }

  lemma OwnerIs(g: Geometry, keys: set<Key>, k: Key)
    requires KeysOk(g, keys) && k in keys
    ensures Owned(g, keys, PartOf(g, k), k.low) && Owner(g, keys, PartOf(g, k), k.low) == k
  {
  }

  /** The location holds a whole record of a known key of partition p with the given low hash. */
  ghost predicate Holds(g: Geometry, store: Store, keys: set<Key>, p: nat, fp: nat, loc: Loc) {
    && loc.pba in store && loc.pba < PBA_INVALID
    && 0 < loc.kvSize < KV_SIZE_LIMIT && |store[loc.pba]| == loc.kvSize * g.grain
    && Owned(g, keys, p, fp)
    && NameAt(store[loc.pba]) == Some(Owner(g, keys, p, fp).name)
  }

  ghost predicate TableOk(g: Geometry, store: Store, keys: set<Key>, p: nat, pba: nat) {
    pba != PBA_INVALID ==>
      && pba in store && |store[pba]| == SLOT_BYTES * g.slots
      && WellFormed(TableAt(g.slots, store[pba]), g.hops)
      && forall fp :: fp in TableMap(g, store, pba) ==> Holds(g, store, keys, p, fp, TableMap(g, store, pba)[fp])
  }

  /** A cached entry belongs to its bucket; a clean one agrees with the partition table. */
  ghost predicate EntryOk(g: Geometry, store: Store, keys: set<Key>, p: nat, pba: nat, b: nat, e: Entry) {
    && (e.dirty ==> e.Valid())
    && (e.Valid() ==>
      && Holds(g, store, keys, p, e.fingerprint, e.Where())
      && BucketOf(g, Owner(g, keys, p, e.fingerprint)) == b
      && (!e.dirty ==> e.fingerprint in TableMap(g, store, pba) && TableMap(g, store, pba)[e.fingerprint] == e.Where()))
  }

  ghost predicate BucketsOk(g: Geometry, store: Store, keys: set<Key>, p: nat, part: Part) {
    && |part.buckets| == BUCKETS_IN_PART
    && (forall b :: 0 <= b < BUCKETS_IN_PART ==> Sound(part.buckets[b]))
    && (forall b, i :: 0 <= b < BUCKETS_IN_PART && 0 <= i < NR_SET ==>
         EntryOk(g, store, keys, p, part.pba, b, part.buckets[b][i]))
  }

  ghost predicate CacheOk(g: Geometry, store: Store, keys: set<Key>, p: nat, part: Part) {
    && BucketsOk(g, store, keys, p, part)
    && TableOk(g, store, keys, p, part.pba)
  }

  // ---------- A new block elsewhere changes nothing

  lemma TableMapKeeps(g: Geometry, store: Store, a: nat, block: seq<Byte>, pba: nat)
    requires a !in store && (pba in store || pba == PBA_INVALID)
    ensures TableMap(g, store[a := block], pba) == TableMap(g, store, pba)
  {
  }

  lemma HoldsInLargerStore(g: Geometry, store: Store, keys: set<Key>, p: nat, fp: nat, loc: Loc, a: nat, block: seq<Byte>)
    requires Holds(g, store, keys, p, fp, loc) && a !in store
    ensures Holds(g, store[a := block], keys, p, fp, loc)
    ensures store[a := block][loc.pba] == store[loc.pba]
  {
  }

  lemma TableOkKeeps(g: Geometry, store: Store, keys: set<Key>, p: nat, pba: nat, a: nat, block: seq<Byte>)
    requires TableOk(g, store, keys, p, pba) && a !in store
    ensures TableOk(g, store[a := block], keys, p, pba)
  {
    if pba != PBA_INVALID {
      hide TableMap, Holds, WellFormed;
      TableMapKeeps(g, store, a, block, pba);
      forall fp | fp in TableMap(g, store, pba)
        ensures Holds(g, store[a := block], keys, p, fp, TableMap(g, store, pba)[fp])
      {
        HoldsInLargerStore(g, store, keys, p, fp, TableMap(g, store, pba)[fp], a, block);
      }
    }
  }

  lemma StoreGrows(g: Geometry, store: Store, keys: set<Key>, p: nat, part: Part, a: nat, block: seq<Byte>)
    requires CacheOk(g, store, keys, p, part) && a !in store
    ensures CacheOk(g, store[a := block], keys, p, part)
    ensures forall b, fp :: 0 <= b < BUCKETS_IN_PART ==>
      View(g, store[a := block], part, b, fp) == View(g, store, part, b, fp)
  {
    TableOkKeeps(g, store, keys, p, part.pba, a, block);
    assert part.pba in store || part.pba == PBA_INVALID;
    hide TableMap, Holds, Sound, TableOk, Match;
    TableMapKeeps(g, store, a, block, part.pba);
    forall b, i | 0 <= b < BUCKETS_IN_PART && 0 <= i < NR_SET
      ensures EntryOk(g, store[a := block], keys, p, part.pba, b, part.buckets[b][i])
    {
      var e := part.buckets[b][i];
      assert EntryOk(g, store, keys, p, part.pba, b, e);
      if e.Valid() {
        HoldsInLargerStore(g, store, keys, p, e.fingerprint, e.Where(), a, block);
      }
    }
  }

  // ---------- Filling an entry

  /** The entry that gives way to another fingerprint is clean, so the table still has it. */
  lemma EvictedIsInTable(g: Geometry, store: Store, keys: set<Key>, p: nat, part: Part, b: nat, fp: nat, g': nat)
    requires BucketsOk(g, store, keys, p, part) && b < BUCKETS_IN_PART && fp != g'
    requires Target(part.buckets[b], fp) == Match(part.buckets[b], g', 0) < NR_SET
    ensures g' in TableMap(g, store, part.pba)
    ensures TableMap(g, store, part.pba)[g'] == part.buckets[b][Target(part.buckets[b], fp)].Where()
  {
    var i := Target(part.buckets[b], fp);
    assert Sound(part.buckets[b]);
    TargetCases(part.buckets[b], fp);
    assert EntryOk(g, store, keys, p, part.pba, b, part.buckets[b][i]);
  }

  /** Installing e at its target: the view changes at e's fingerprint only, whatever gave way. */
  lemma FillView(g: Geometry, store: Store, keys: set<Key>, p: nat, part: Part, b: nat, e: Entry, c: nat, fp: nat)
    requires BucketsOk(g, store, keys, p, part) && b < BUCKETS_IN_PART && c < BUCKETS_IN_PART && e.Valid()
    requires Target(part.buckets[b], e.fingerprint) < NR_SET
    ensures var part' := Filled(part, b, Target(part.buckets[b], e.fingerprint), e);
      && (b == c && fp == e.fingerprint ==> View(g, store, part', c, fp) == Some(e.Where()))
      && (b != c || fp != e.fingerprint ==> View(g, store, part', c, fp) == View(g, store, part, c, fp))
  {
    if b == c {
      var before := part.buckets[b];
      var i := Target(before, e.fingerprint);
      assert Sound(before);
      InstallMatches(before, i, e, fp);
      InstallWrites(before, i, e);
      if fp != e.fingerprint && Match(before, fp, 0) == i {
        EvictedIsInTable(g, store, keys, p, part, b, e.fingerprint, fp);
      }
    }
  }

  /** The usage counter does not matter to what an entry stands for. */
  lemma CounterIsFree(g: Geometry, store: Store, keys: set<Key>, p: nat, pba: nat, b: nat, e: Entry, lru: nat)
    requires EntryOk(g, store, keys, p, pba, b, e)
    ensures EntryOk(g, store, keys, p, pba, b, e.(lru := lru))
  {
    hide Holds, TableMap;
  }

  lemma FillOk(g: Geometry, store: Store, keys: set<Key>, p: nat, part: Part, b: nat, e: Entry)
    requires CacheOk(g, store, keys, p, part) && b < BUCKETS_IN_PART && e.Valid()
    requires Target(part.buckets[b], e.fingerprint) < NR_SET
    requires EntryOk(g, store, keys, p, part.pba, b, e)
    ensures CacheOk(g, store, keys, p, Filled(part, b, Target(part.buckets[b], e.fingerprint), e))
  {
    hide Install, Target, Match, Sound, TableOk, EntryOk;
    var i := Target(part.buckets[b], e.fingerprint);
    var part' := Filled(part, b, i, e);
    InstallKeepsSound(part.buckets[b], i, e);
    InstallWrites(part.buckets[b], i, e);
    forall c, j | 0 <= c < BUCKETS_IN_PART && 0 <= j < NR_SET
      ensures EntryOk(g, store, keys, p, part'.pba, c, part'.buckets[c][j])
    {
      if c == b && j == i {
        CounterIsFree(g, store, keys, p, part.pba, c, e, 0);
      } else if c == b {
        CounterIsFree(g, store, keys, p, part.pba, c, part.buckets[c][j], part'.buckets[c][j].lru);
      }
    }
  }

  // ---------- Flushing

  lemma DirtyUpToMembers(b: Set, j: nat, a: Item)
    requires j <= NR_SET
    ensures a in DirtyUpTo(b, j) <==> exists i :: 0 <= i < j && b[i].dirty && a == ItemOf(b[i])
  {
  }

  lemma DirtyMembers(buckets: seq<Set>, n: nat, a: Item)
    requires n <= |buckets|
    ensures a in DirtyItems(buckets, n) <==>
      exists c, i :: 0 <= c < n && 0 <= i < NR_SET && buckets[c][i].dirty && a == ItemOf(buckets[c][i])
  {
    if n > 0 {
      DirtyMembers(buckets, n - 1, a);
      DirtyUpToMembers(buckets[n - 1], NR_SET, a);
    }
  }

  /** Two cached entries of one partition with the same fingerprint are the same entry. */
  lemma SameEntry(g: Geometry, store: Store, keys: set<Key>, p: nat, part: Part, b: nat, i: nat, c: nat, j: nat)
    requires BucketsOk(g, store, keys, p, part) && KeysOk(g, keys)
    requires b < BUCKETS_IN_PART && c < BUCKETS_IN_PART && i < NR_SET && j < NR_SET
    requires part.buckets[b][i].Valid() && part.buckets[c][j].Valid()
    requires part.buckets[b][i].fingerprint == part.buckets[c][j].fingerprint
    ensures b == c && i == j
  {
    var x, y := part.buckets[b][i], part.buckets[c][j];
    assert EntryOk(g, store, keys, p, part.pba, b, x);
    assert EntryOk(g, store, keys, p, part.pba, c, y);
    MatchIsUnique(part.buckets[b], i);
    MatchIsUnique(part.buckets[c], j);
  }

  /** Where a dirty item comes from. */
  lemma DirtyOrigin(g: Geometry, store: Store, keys: set<Key>, p: nat, part: Part, x: Item) returns (b: nat, i: nat)
    requires BucketsOk(g, store, keys, p, part)
    requires x in DirtyItems(part.buckets, |part.buckets|)
    ensures b < BUCKETS_IN_PART && i < NR_SET
    ensures part.buckets[b][i].dirty && part.buckets[b][i].Valid() && x == ItemOf(part.buckets[b][i])
    ensures Holds(g, store, keys, p, x.fingerprint, x.loc)
  {
    hide DirtyItems, Holds, TableMap, Sound;
    DirtyMembers(part.buckets, |part.buckets|, x);
    b, i :| 0 <= b < |part.buckets| && 0 <= i < NR_SET && part.buckets[b][i].dirty && x == ItemOf(part.buckets[b][i]);
    assert EntryOk(g, store, keys, p, part.pba, b, part.buckets[b][i]);
  }

  lemma SameItem(g: Geometry, store: Store, keys: set<Key>, p: nat, part: Part, x: Item, y: Item)
    requires BucketsOk(g, store, keys, p, part) && KeysOk(g, keys)
    requires x in DirtyItems(part.buckets, |part.buckets|) && y in DirtyItems(part.buckets, |part.buckets|)
    requires x.fingerprint == y.fingerprint
    ensures x == y && x.loc.pba != PBA_INVALID
  {
    hide DirtyItems, TableMap, Sound, KeysOk, EntryOk;
    var b, i := DirtyOrigin(g, store, keys, p, part, x);
    var c, j := DirtyOrigin(g, store, keys, p, part, y);
    SameEntry(g, store, keys, p, part, b, i, c, j);
  }

  lemma DirtyConsistent(g: Geometry, store: Store, keys: set<Key>, p: nat, part: Part)
    requires BucketsOk(g, store, keys, p, part) && KeysOk(g, keys)
    ensures Consistent(DirtyItems(part.buckets, |part.buckets|))
    ensures Storable(DirtyItems(part.buckets, |part.buckets|))
  {
    hide DirtyItems, KeysOk, BucketsOk;
    var items := DirtyItems(part.buckets, |part.buckets|);
    forall x, y | x in items && y in items && x.fingerprint == y.fingerprint
      ensures x == y && x.loc.pba != PBA_INVALID
    {
      SameItem(g, store, keys, p, part, x, y);
    }
  }

  /** The buffer a flush starts from: the table on flash, or a blank one before the first flush. */
  ghost predicate Buffered(g: Geometry, store: Store, part: Part, buf: Table) {
    if part.pba == PBA_INVALID then buf == Blank(g.slots)
    else part.pba in store && buf == TableAt(g.slots, store[part.pba])
  }

  /** The merged table: dirty entries win, everything else is as before. */
  lemma MergedMap(g: Geometry, store: Store, keys: set<Key>, p: nat, part: Part, buf: Table)
    requires CacheOk(g, store, keys, p, part) && KeysOk(g, keys)
    requires Buffered(g, store, part, buf)
    ensures Sized(buf, g.hops)
    ensures var merged := Merged(g, part, buf);
      merged.Room? ==>
        && WellFormed(merged.table, g.hops) && |merged.table| == g.slots
        && Entries(merged.table) == Updated(TableMap(g, store, part.pba), DirtyItems(part.buckets, |part.buckets|))
  {
    BlankIsEmpty(g.slots, g.hops);
    DirtyConsistent(g, store, keys, p, part);
    if Merged(g, part, buf).Room? {
      HistoryIsMap(buf, g.hops, DirtyItems(part.buckets, |part.buckets|));
    }
  }

  /** Nothing that a flush writes carries the fingerprint of a clean entry. */
  lemma CleanIsNotWritten(g: Geometry, store: Store, keys: set<Key>, p: nat, part: Part, b: nat, i: nat, x: Item)
    requires BucketsOk(g, store, keys, p, part) && KeysOk(g, keys)
    requires b < BUCKETS_IN_PART && i < NR_SET && part.buckets[b][i].Valid() && !part.buckets[b][i].dirty
    requires x in DirtyItems(part.buckets, |part.buckets|)
    ensures x.fingerprint != part.buckets[b][i].fingerprint
  {
    hide DirtyItems, TableMap, Sound, KeysOk, EntryOk, Holds;
    var c, j := DirtyOrigin(g, store, keys, p, part, x);
    if x.fingerprint == part.buckets[b][i].fingerprint {
      SameEntry(g, store, keys, p, part, b, i, c, j);
    }
  }

  /** After a flush every cached entry is clean and agrees with the new table. */
  lemma MergedHasEntry(g: Geometry, store: Store, keys: set<Key>, p: nat, part: Part, b: nat, i: nat)
    requires BucketsOk(g, store, keys, p, part) && KeysOk(g, keys)
    requires b < BUCKETS_IN_PART && i < NR_SET && part.buckets[b][i].Valid()
    ensures var e := part.buckets[b][i];
      var m := Updated(TableMap(g, store, part.pba), DirtyItems(part.buckets, |part.buckets|));
      e.fingerprint in m && m[e.fingerprint] == e.Where()
  {
    var e := part.buckets[b][i];
    var items := DirtyItems(part.buckets, |part.buckets|);
    DirtyConsistent(g, store, keys, p, part);
    UpdatedByMembership(TableMap(g, store, part.pba), items);
    if e.dirty {
      DirtyMembers(part.buckets, |part.buckets|, ItemOf(e));
      assert ItemOf(e) in items;
    } else {
      assert EntryOk(g, store, keys, p, part.pba, b, e);
      forall x | x in items
        ensures x.fingerprint != e.fingerprint
      {
        CleanIsNotWritten(g, store, keys, p, part, b, i, x);
      }
    }
  }

  /** A fingerprint that is cached nowhere keeps its place in the table. */
  lemma MergedKeepsUncached(g: Geometry, store: Store, keys: set<Key>, p: nat, part: Part, fp: nat)
    requires CacheOk(g, store, keys, p, part) && KeysOk(g, keys)
    requires forall b, i :: 0 <= b < BUCKETS_IN_PART && 0 <= i < NR_SET && part.buckets[b][i].Valid() ==>
      part.buckets[b][i].fingerprint != fp
    ensures var t := TableMap(g, store, part.pba);
      var m := Updated(t, DirtyItems(part.buckets, |part.buckets|));
      (fp in m <==> fp in t) && (fp in t ==> m[fp] == t[fp])
  {
    var items := DirtyItems(part.buckets, |part.buckets|);
    DirtyConsistent(g, store, keys, p, part);
    UpdatedByMembership(TableMap(g, store, part.pba), items);
    forall x | x in items
      ensures x.fingerprint != fp
    {
      var c, j := DirtyOrigin(g, store, keys, p, part, x);
    }
  }

  /** Flash and partition after the merged table was written at a. */
  ghost function FlushedStore(g: Geometry, store: Store, part: Part, buf: Table, a: nat): (r: Store)
    requires Sized(buf, g.hops) && Merged(g, part, buf).Room?
  {
    store[a := BytesOf(Merged(g, part, buf).table)]
  }

  ghost predicate CanFlush(g: Geometry, store: Store, keys: set<Key>, p: nat, part: Part, buf: Table, a: nat) {
    && CacheOk(g, store, keys, p, part) && KeysOk(g, keys)
    && Buffered(g, store, part, buf) && Sized(buf, g.hops)
    && Merged(g, part, buf).Room?
    && a !in store && a != PBA_INVALID
  }

  /** Whatever the merged map holds is a whole record of a key of this partition. */
  lemma MergedHolds(g: Geometry, store: Store, keys: set<Key>, p: nat, part: Part, fp: nat)
    requires CacheOk(g, store, keys, p, part) && KeysOk(g, keys)
    requires fp in Updated(TableMap(g, store, part.pba), DirtyItems(part.buckets, |part.buckets|))
    ensures Holds(g, store, keys, p, fp, Updated(TableMap(g, store, part.pba), DirtyItems(part.buckets, |part.buckets|))[fp])
  {
    var items := DirtyItems(part.buckets, |part.buckets|);
    DirtyConsistent(g, store, keys, p, part);
    UpdatedByMembership(TableMap(g, store, part.pba), items);
    if x :| x in items && x.fingerprint == fp {
      var c, j := DirtyOrigin(g, store, keys, p, part, x);
    }
  }

  /** The merged table fits the bit fields of its slots. */
  lemma MergedInFields(g: Geometry, store: Store, keys: set<Key>, p: nat, part: Part, buf: Table)
    requires CacheOk(g, store, keys, p, part) && Buffered(g, store, part, buf) && Sized(buf, g.hops)
    ensures Merged(g, part, buf).Room? ==> TableInFields(Merged(g, part, buf).table)
  {
    var items := DirtyItems(part.buckets, |part.buckets|);
    forall x | x in items
      ensures x.fingerprint < FINGERPRINT_LIMIT && x.loc.kvSize < KV_SIZE_LIMIT && x.loc.pba < PBA_LIMIT
    {
      var b, i := DirtyOrigin(g, store, keys, p, part, x);
    }
    assert TableInFields(buf);
    InsertAllInFields(buf, g.hops, items);
  }

  lemma FlushTableMap(g: Geometry, store: Store, keys: set<Key>, p: nat, part: Part, buf: Table, a: nat)
    requires CanFlush(g, store, keys, p, part, buf, a)
    ensures WellFormed(Merged(g, part, buf).table, g.hops) && |Merged(g, part, buf).table| == g.slots
    ensures TableAt(g.slots, FlushedStore(g, store, part, buf, a)[a]) == Merged(g, part, buf).table
    ensures TableMap(g, FlushedStore(g, store, part, buf, a), a)
         == Updated(TableMap(g, store, part.pba), DirtyItems(part.buckets, |part.buckets|))
  {
    MergedMap(g, store, keys, p, part, buf);
    MergedInFields(g, store, keys, p, part, buf);
    var t := Merged(g, part, buf).table;
    hide Merged, WellFormed, Updated, DirtyItems, TableAt, BytesOf, Entries, Unique, CacheOk;
    TableRoundTrip(t, BytesOf(t));
  }

  lemma FlushTableOk(g: Geometry, store: Store, keys: set<Key>, p: nat, part: Part, buf: Table, a: nat)
    requires CanFlush(g, store, keys, p, part, buf, a)
    ensures TableOk(g, FlushedStore(g, store, part, buf, a), keys, p, a)
    ensures TableMap(g, FlushedStore(g, store, part, buf, a), a)
         == Updated(TableMap(g, store, part.pba), DirtyItems(part.buckets, |part.buckets|))
  {
    hide TableMap, Updated, DirtyItems, Holds, CacheOk, WellFormed, TableAt, Merged, KeysOk, Buffered, BytesOf;
    var m := Updated(TableMap(g, store, part.pba), DirtyItems(part.buckets, |part.buckets|));
    FlushTableMap(g, store, keys, p, part, buf, a);
    forall fp | fp in m
      ensures Holds(g, FlushedStore(g, store, part, buf, a), keys, p, fp, m[fp])
    {
      MergedHolds(g, store, keys, p, part, fp);
      HoldsInLargerStore(g, store, keys, p, fp, m[fp], a, BytesOf(Merged(g, part, buf).table));
    }
  }

  lemma FlushBucketsOk(g: Geometry, store: Store, keys: set<Key>, p: nat, part: Part, buf: Table, a: nat)
    requires CanFlush(g, store, keys, p, part, buf, a)
    ensures BucketsOk(g, FlushedStore(g, store, part, buf, a), keys, p, Flushed(part, a))
  {
    var store', part' := FlushedStore(g, store, part, buf, a), Flushed(part, a);
    FlushTableOk(g, store, keys, p, part, buf, a);
    forall b | 0 <= b < BUCKETS_IN_PART
      ensures Sound(part'.buckets[b])
    {
      assert Sound(part.buckets[b]);
      CleanedHasTarget(part.buckets[b], 0);
    }
    forall b, i | 0 <= b < BUCKETS_IN_PART && 0 <= i < NR_SET
      ensures EntryOk(g, store', keys, p, a, b, part'.buckets[b][i])
    {
      assert EntryOk(g, store, keys, p, part.pba, b, part.buckets[b][i]);
      assert part'.buckets[b][i] == part.buckets[b][i].(dirty := false);
      if part.buckets[b][i].Valid() { MergedHasEntry(g, store, keys, p, part, b, i); }
    }
  }

  lemma FlushKeepsCache(g: Geometry, store: Store, keys: set<Key>, p: nat, part: Part, buf: Table, a: nat)
    requires CanFlush(g, store, keys, p, part, buf, a)
    ensures CacheOk(g, FlushedStore(g, store, part, buf, a), keys, p, Flushed(part, a))
  {
    hide TableOk, BucketsOk, FlushedStore, CanFlush;
    FlushTableOk(g, store, keys, p, part, buf, a);
    FlushBucketsOk(g, store, keys, p, part, buf, a);
  }

  /** A key that is not cached in its own bucket is cached nowhere in its partition. */
  lemma UncachedEverywhere(g: Geometry, store: Store, keys: set<Key>, p: nat, part: Part, k: Key, c: nat, i: nat)
    requires BucketsOk(g, store, keys, p, part) && KeysOk(g, keys) && k in keys && PartOf(g, k) == p
    requires Match(part.buckets[BucketOf(g, k)], k.low, 0) == NR_SET
    requires c < BUCKETS_IN_PART && i < NR_SET && part.buckets[c][i].Valid()
    ensures part.buckets[c][i].fingerprint != k.low
  {
    assert EntryOk(g, store, keys, p, part.pba, c, part.buckets[c][i]);
    OwnerIs(g, keys, k);
    hide Sound, TableMap, Holds, PartOf, BucketOf;
  }

  /** A flush cannot be seen through any key. */
  lemma FlushInvisible(g: Geometry, store: Store, keys: set<Key>, p: nat, part: Part, buf: Table, a: nat, k: Key)
    requires CanFlush(g, store, keys, p, part, buf, a)
    requires k in keys && PartOf(g, k) == p
    ensures View(g, FlushedStore(g, store, part, buf, a), Flushed(part, a), BucketOf(g, k), k.low)
         == View(g, store, part, BucketOf(g, k), k.low)
  {
    var b := BucketOf(g, k);
    assert Sound(part.buckets[b]);
    CleanedHasTarget(part.buckets[b], k.low);
    hide Sound, EntryOk, TableOk, Match, BucketOf, PartOf, TableMap, Updated, DirtyItems, KeysOk, Buffered, FlushedStore, Merged;
    if Match(part.buckets[b], k.low, 0) == NR_SET {
      FlushTableOk(g, store, keys, p, part, buf, a);
      forall c, i | 0 <= c < BUCKETS_IN_PART && 0 <= i < NR_SET && part.buckets[c][i].Valid()
        ensures part.buckets[c][i].fingerprint != k.low
      {
        UncachedEverywhere(g, store, keys, p, part, k, c, i);
      }
      MergedKeepsUncached(g, store, keys, p, part, k.low);
    }
  }
}
