/** The BigKV index as the program keeps it: arrays of buckets and partitions updated in place. */
module BigKvIndex {
  import opened Common
  import opened PartTable
  import opened TableBytes
  import opened Bucket
  import opened BigKvStep

  datatype Head = Head(flying: bool, pba: nat)

  datatype Step = Init | KeyMismatch | UpdateTable | WritePtable | WriteKv

  /** A request with the parameters that survive between its dispatches. */
  class Request {
    const put: Put
    var readStep: Step
    var writeStep: Step
    var tempBuf: array?<Slot>

    constructor (put: Put)
      ensures this.put == put && readStep == Init && writeStep == Init && tempBuf == null
    {
      this.put := put;
      readStep, writeStep, tempBuf := Init, Init, null;
    }

    ghost predicate Valid(g: Geometry)
      reads this, tempBuf
    {
      && (readStep == UpdateTable ==> tempBuf != null && Sized(tempBuf[..], g.hops))
      && (writeStep == WritePtable ==> tempBuf != null && Sized(tempBuf[..], g.hops))
    }

    /** How far a GET has come. */
    ghost function GetPending(): (r: Pending)
      requires readStep == UpdateTable ==> tempBuf != null
      reads this, tempBuf
    {
      if readStep == UpdateTable then GetTable(put.key, tempBuf[..]) else Idle
    }

    /** How far a SET has come. */
    ghost function SetPending(): (r: Pending)
      requires writeStep == WritePtable ==> tempBuf != null
      reads this, tempBuf
    {
      if writeStep == WritePtable then SetTable(put, tempBuf[..])
      else if writeStep == WriteKv then SetKv(put) else Idle
    }

    /** The callback of a table read; the buffer now holds the table. */
    method TableRead(buf: array<Slot>)
      modifies this
      ensures tempBuf == buf && readStep == UpdateTable && writeStep == WritePtable
    {
      tempBuf, readStep, writeStep := buf, UpdateTable, WritePtable;
    }

    /** End of the request: its parameters are released. */
    method End()
      modifies this
      ensures tempBuf == null && readStep == Init && writeStep == Init
    {
      tempBuf, readStep, writeStep := null, Init, Init;
    }
  }

  class Index {
    const g: Geometry
    const bucket: array<Set>
    const part: array<Head>
    var store: Store

    ghost predicate Valid()
      reads this
    {
      bucket.Length == g.parts * BUCKETS_IN_PART && part.Length == g.parts
    }

    /** Partition p with a request that has come as far as "pending". */
    ghost function PartAt(p: nat, pending: Pending): (r: Part)
      requires Valid() && p < g.parts
      reads this, bucket, part
      ensures |r.buckets| == BUCKETS_IN_PART
    {
      Part(bucket[BUCKETS_IN_PART * p..BUCKETS_IN_PART * p + BUCKETS_IN_PART], part[p].pba, part[p].flying, pending)
    }

    /** All partitions but p are as before. */
    twostate predicate OthersUnchanged(p: nat)
      requires Valid() && old(Valid()) && p < g.parts
      reads this, bucket, part
    {
      && (forall q :: 0 <= q < g.parts && q != p ==> part[q] == old(part[q]))
      && (forall c :: 0 <= c < bucket.Length && !(BUCKETS_IN_PART * p <= c < BUCKETS_IN_PART * p + BUCKETS_IN_PART) ==>
           bucket[c] == old(bucket[c]))
    }

    constructor (g: Geometry)
      ensures Valid() && fresh(bucket) && fresh(part) && this.g == g && store == map[]
      ensures forall p :: 0 <= p < g.parts ==>
        PartAt(p, Idle) == Part(seq(BUCKETS_IN_PART, _ => Bucket.Fresh()), PBA_INVALID, false, Idle)
    {
      this.g := g;
      bucket := new Set[g.parts * BUCKETS_IN_PART](_ => Bucket.Fresh());
      part := new Head[g.parts](_ => Head(false, PBA_INVALID));
      store := map[];
    }

    // ---------- Scans

    method GetMatchEntry(b: nat, fp: nat) returns (i: nat)
      requires b < bucket.Length
      ensures i == Match(bucket[b], fp, 0)
    {
      i := 0;
      while i < NR_SET
        invariant i <= NR_SET && Match(bucket[b], fp, 0) == Match(bucket[b], fp, i)
      {
        if bucket[b][i].pba != PBA_INVALID && bucket[b][i].fingerprint == fp { return; }
        i := i + 1;
      }
    }

    method GetTargetEntry(b: nat, fp: nat) returns (i: nat)
      requires b < bucket.Length
      ensures i == Target(bucket[b], fp)
    {
      i := 0;
      while i < NR_SET
        invariant i <= NR_SET && SameFingerprint(bucket[b], fp, 0) == SameFingerprint(bucket[b], fp, i)
      {
        if bucket[b][i].fingerprint == fp { return; }
        i := i + 1;
      }
      i := 0;
      while i < NR_SET
        invariant i <= NR_SET && FirstFree(bucket[b], 0) == FirstFree(bucket[b], i)
      {
        if bucket[b][i].pba == PBA_INVALID { return; }
        i := i + 1;
      }
      i := 0;
      while i < NR_SET
        invariant i <= NR_SET && Oldest(bucket[b], 0) == Oldest(bucket[b], i)
      {
        if bucket[b][i].lru == LRU_MAX {
          if !bucket[b][i].dirty { return; } else { return NR_SET; }
        }
        i := i + 1;
      }
    }

    // ---------- Filling an entry

    /** Writes e into entry i as most recently used and ages the entries that were younger than it. */
    method InstallEntry(b: nat, i: nat, e: Entry)
      requires b < bucket.Length && i < NR_SET
      modifies bucket
      ensures bucket[..] == old(bucket[..])[b := Install(old(bucket[b]), i, e)]
    {
      var origin := bucket[b][i].lru;
      bucket[b] := bucket[b][i := e.(lru := 0)];
      for j := 0 to NR_SET
        invariant forall c :: 0 <= c < bucket.Length && c != b ==> bucket[c] == old(bucket[c])
        invariant bucket[b][i] == e.(lru := 0)
        invariant forall k :: 0 <= k < NR_SET && k != i ==>
          bucket[b][k] == if k < j then Install(old(bucket[b]), i, e)[k] else old(bucket[b])[k]
      {
        if j != i && bucket[b][j].lru < origin {
          bucket[b] := bucket[b][j := bucket[b][j].(lru := Bump(bucket[b][j].lru))];
        }
      }
      assert bucket[b] == Install(old(bucket[b]), i, e);
    }

    // ---------- Flushing

    static lemma DirtyOfBucketGrows(b: Set, j: nat)
      requires j <= NR_SET
      ensures DirtyUpTo(b, j) <= DirtyUpTo(b, NR_SET)
      decreases NR_SET - j
    {
      if j < NR_SET { DirtyOfBucketGrows(b, j + 1); }
    }

    /** One more dirty entry is one more insertion; once there is no room there never is. */
    static lemma DirtyOneMore(t: Table, hops: nat, b: Set, j: nat)
      requires Sized(t, hops) && j < NR_SET && b[j].dirty && InsertAll(t, hops, DirtyUpTo(b, j)).Room?
      ensures InsertAll(t, hops, DirtyUpTo(b, j + 1)) ==
        Insert(InsertAll(t, hops, DirtyUpTo(b, j)).table, hops, b[j].fingerprint, b[j].Where())
      ensures InsertAll(t, hops, DirtyUpTo(b, j + 1)).NoRoom? ==> InsertAll(t, hops, DirtyUpTo(b, NR_SET)).NoRoom?
    {
      var more := DirtyUpTo(b, j + 1);
      assert more[..|more| - 1] == DirtyUpTo(b, j);
      DirtyOfBucketGrows(b, j + 1);
      assert DirtyUpTo(b, NR_SET)[..|more|] == more;
      if InsertAll(t, hops, more).NoRoom? {
        NoRoomStays(t, hops, DirtyUpTo(b, NR_SET), |more|);
      }
    }

    static lemma DirtyOfPartGrows(bs: seq<Set>, i: nat)
      requires i <= |bs|
      ensures DirtyItems(bs, i) <= DirtyItems(bs, |bs|)
      decreases |bs| - i
    {
      if i < |bs| { DirtyOfPartGrows(bs, i + 1); }
    }

    static lemma PartRunsOut(t: Table, hops: nat, bs: seq<Set>, i: nat)
      requires Sized(t, hops) && i <= |bs| && InsertAll(t, hops, DirtyItems(bs, i)).NoRoom?
      ensures InsertAll(t, hops, DirtyItems(bs, |bs|)).NoRoom?
    {
      var more := DirtyItems(bs, i);
      DirtyOfPartGrows(bs, i);
      assert DirtyItems(bs, |bs|)[..|more|] == more;
      NoRoomStays(t, hops, DirtyItems(bs, |bs|), |more|);
    }

    static lemma NothingInserted(t: Table, hops: nat)
      requires Sized(t, hops)
      ensures InsertAll(t, hops, []) == Room(t)
    {
    }

    /** Inner flush loop: merges the dirty entries of bucket c and cleans them. */
    method MergeBucket(ptable: array<Slot>, c: nat) returns (ok: bool)
      requires Valid() && c < bucket.Length && Sized(ptable[..], g.hops)
      modifies ptable, bucket
      ensures ok <==> InsertAll(old(ptable[..]), g.hops, DirtyUpTo(old(bucket[c]), NR_SET)).Room?
      ensures ok ==>
        && InsertAll(old(ptable[..]), g.hops, DirtyUpTo(old(bucket[c]), NR_SET)) == Room(ptable[..])
        && bucket[..] == old(bucket[..])[c := Cleaned(old(bucket[c]))]
    {
      hide Insert, InsertAll;
      ghost var b, before := bucket[c], ptable[..];
      NothingInserted(before, g.hops);
      for j := 0 to NR_SET
        invariant Sized(ptable[..], g.hops)
        invariant InsertAll(before, g.hops, DirtyUpTo(b, j)) == Room(ptable[..])
        invariant forall d :: 0 <= d < bucket.Length && d != c ==> bucket[d] == old(bucket[d])
        invariant forall k :: 0 <= k < NR_SET ==>
          bucket[c][k] == if k < j then b[k].(dirty := false) else b[k]
      {
        var e := bucket[c][j];
        assert e == b[j];
        if e.dirty {
          DirtyOneMore(before, g.hops, b, j);
          ok := InsertInPlace(ptable, g.hops, e.fingerprint, e.Where());
          if !ok { return; }
          bucket[c] := bucket[c][j := e.(dirty := false)];
        } else {
          assert DirtyUpTo(b, j + 1) == DirtyUpTo(b, j);
        }
      }
      assert bucket[c] == Cleaned(b);
      ok := true;
    }

    static lemma PartIsClean(before: seq<Set>, after: seq<Set>, base: nat)
      requires |before| == |after| && base + BUCKETS_IN_PART <= |before|
      requires forall c :: base <= c < base + BUCKETS_IN_PART ==> after[c] == Cleaned(before[c])
      ensures after[base..base + BUCKETS_IN_PART] == CleanAll(before[base..base + BUCKETS_IN_PART])
    {
      hide Cleaned;
    }

    /** Merges the dirty entries of partition p into the buffer and cleans them; false means abort. */
    method UpdatePartTable(ptable: array<Slot>, p: nat) returns (ok: bool)
      requires Valid() && p < g.parts && Sized(ptable[..], g.hops)
      modifies ptable, bucket
      ensures ok <==> Merged(g, old(PartAt(p, Idle)), old(ptable[..])).Room?
      ensures ok ==>
        && ptable[..] == Merged(g, old(PartAt(p, Idle)), old(ptable[..])).table
        && PartAt(p, Idle) == old(PartAt(p, Idle)).(buckets := CleanAll(old(PartAt(p, Idle)).buckets))
        && OthersUnchanged(p)
    {
      hide InsertAll, Cleaned, CleanAll, DirtyUpTo;
      ghost var bs := PartAt(p, Idle).buckets;
      ghost var before := ptable[..];
      assert InsertAll(before, g.hops, []) == Room(before) by { NothingInserted(before, g.hops); }
      var base := BUCKETS_IN_PART * p;
      for i := 0 to BUCKETS_IN_PART
        invariant Sized(ptable[..], g.hops)
        invariant InsertAll(before, g.hops, DirtyItems(bs, i)) == Room(ptable[..])
        invariant forall c :: 0 <= c < bucket.Length ==>
          bucket[c] == if base <= c < base + i then Cleaned(old(bucket[c])) else old(bucket[c])
      {
        assert bucket[base + i] == bs[i];
        InsertInTwoGoes(before, g.hops, DirtyItems(bs, i), DirtyUpTo(bs[i], NR_SET));
        ok := MergeBucket(ptable, base + i);
        if !ok {
          PartRunsOut(before, g.hops, bs, i + 1);
          return;
        }
      }
      PartIsClean(old(bucket[..]), bucket[..], base);
      ok := true;
    }

    /** The merged buffer goes to flash at the address just allocated, and the partition points to it. */
    method WriteBack(ptable: array<Slot>, p: nat, a: nat)
      requires Valid() && p < g.parts
      modifies this`store, part
      ensures store == old(store)[a := BytesOf(ptable[..])]
      ensures part[..] == old(part[..])[p := Head(old(part[p].flying), a)]
    {
      part[p] := part[p].(pba := a);
      store := store[a := BytesOf(ptable[..])];
    }

    // ---------- Dispatches. "a" is the address get_next_pba returns, should the dispatch allocate.

    /** The frame of a dispatch and its agreement with the step function's outcome. */
    twostate predicate Did(p: nat, o: Outcome, pending: Pending, a: nat)
      requires Valid() && old(Valid()) && p < g.parts
      reads this, bucket, part
    {
      && PartAt(p, pending) == o.part
      && store == Wrote(old(store), o, a)
      && OthersUnchanged(p)
    }

    /** The table read that a miss submits: the buffer, the callback, the request's next step. */
    method FetchTable(p: nat, req: Request) returns (ok: bool)
      requires Valid() && p < g.parts
      modifies req
      ensures ok <==> part[p].pba != PBA_INVALID && part[p].pba in store
      ensures ok ==>
        && req.tempBuf != null && fresh(req.tempBuf) && req.tempBuf[..] == TableAt(g.slots, store[part[p].pba])
        && req.readStep == UpdateTable && req.writeStep == WritePtable
      ensures !ok ==> unchanged(req)
    {
      var pba := part[p].pba;
      if pba == PBA_INVALID || pba !in store { return false; }
      var t := TableAt(g.slots, store[pba]);
      var buf := new Slot[|t|](i requires 0 <= i < |t| => t[i]);
      assert buf[..] == t;
      req.TableRead(buf);
      ok := true;
    }

    /** First dispatch of a GET. */
    method GetFirst(req: Request, a: nat) returns (reply: Reply)
      requires Valid() && req.readStep != UpdateTable
      modifies bucket, req
      ensures var p := PartOf(g, req.put.key);
        var o := StartGet(g, old(store), old(PartAt(p, Idle)), req.put.key);
        && reply == o.reply
        && (!reply.Crash? ==> (req.readStep == UpdateTable ==> req.tempBuf != null) && Did(p, o, req.GetPending(), a))
    {
      var p, b := PartOf(g, req.put.key), BucketOf(g, req.put.key);
      var c := BUCKETS_IN_PART * p + b;
      ghost var before := PartAt(p, Idle);
      assert before.buckets[b] == bucket[c];
      var i := GetMatchEntry(c, req.put.key.low);
      if i < NR_SET {
        reply := Compare(g, store, bucket[c][i].Where(), req.put.key);
        InstallEntry(c, i, bucket[c][i]);
        req.End();
        assert PartAt(p, Idle).buckets == before.buckets[b := Install(before.buckets[b], i, before.buckets[b][i])];
      } else {
        var ok := FetchTable(p, req);
        reply := if ok then Working else Crash;
      }
    }

    /** The retry loop of a GET: flushes when the victim is dirty. NR_SET stands for an abort. */
    method TargetForGet(ptable: array<Slot>, p: nat, b: nat, fp: nat, a: nat) returns (i: nat)
      requires Valid() && p < g.parts && b < BUCKETS_IN_PART && Sized(ptable[..], g.hops)
      modifies this`store, bucket, part, ptable
      ensures i <= NR_SET
      ensures var before, buf := old(PartAt(p, Idle)), old(ptable[..]);
        if Target(before.buckets[b], fp) < NR_SET then
          i == Target(before.buckets[b], fp) && PartAt(p, Idle) == before && store == old(store) && OthersUnchanged(p)
        else if Merged(g, before, buf).NoRoom? then i == NR_SET
        else (
          && i == Target(Flushed(before, a).buckets[b], fp)
          && (i < NR_SET ==>
            && PartAt(p, Idle) == Flushed(before, a)
            && store == old(store)[a := BytesOf(Merged(g, before, buf).table)] && OthersUnchanged(p)))
    {
      hide Target, InsertAll, DirtyItems, CleanAll;
      var c := BUCKETS_IN_PART * p + b;
      ghost var before := PartAt(p, Idle);
      var table: array?<Slot> := ptable;
      i := GetTargetEntry(c, fp);
      assert before.buckets[b] == bucket[c];
      while i == NR_SET
        invariant table != null ==>
          && table == ptable && ptable[..] == old(ptable[..]) && i == Target(before.buckets[b], fp)
          && bucket[..] == old(bucket[..]) && part[..] == old(part[..]) && store == old(store)
        invariant table == null ==>
          && Target(before.buckets[b], fp) == NR_SET && Merged(g, before, old(ptable[..])).Room?
          && PartAt(p, Idle) == Flushed(before, a) && OthersUnchanged(p)
          && store == old(store)[a := BytesOf(Merged(g, before, old(ptable[..])).table)]
          && i == Target(Flushed(before, a).buckets[b], fp)
        decreases if i < NR_SET then 0 else if table == null then 1 else 2
      {
        if table == null { return; } // the flush would go through a null pointer
        var ok := UpdatePartTable(table, p);
        if !ok { return; }
        WriteBack(table, p, a);
        table := null;
        assert PartAt(p, Idle).buckets[b] == bucket[c];
        i := GetTargetEntry(c, fp);
      }
    }

    /** Second dispatch of a GET, with the table in the request's buffer. */
    method GetSecond(req: Request, a: nat) returns (reply: Reply)
      requires Valid() && req.readStep == UpdateTable && req.Valid(g)
      modifies this`store, bucket, part, req, req.tempBuf
      ensures var p := PartOf(g, req.put.key);
        var o := ResumeGet(g, old(store), old(PartAt(p, req.GetPending())), req.put.key, old(req.tempBuf[..]), a);
        && reply == o.reply
        && (!reply.Crash? ==> req.readStep == Init && Did(p, o, Idle, a))
    {
      hide Target, Install, InsertAll, DirtyItems, CleanAll, Compare, BucketIdx;
      var k := req.put.key;
      var p, b := PartOf(g, k), BucketOf(g, k);
      var c := BUCKETS_IN_PART * p + b;
      var ptable: array?<Slot> := req.tempBuf;
      ghost var buf := ptable[..];
      ghost var before, idle := PartAt(p, req.GetPending()), PartAt(p, Idle);
      var r := FindMatch(ptable, g.hops, k.low);
      req.End();
      if r == -1 { return GetDone(k, None); }
      var slot := ptable[r];
      var e := Entry(slot.fingerprint, false, 0, slot.kvSize, slot.pba);
      reply := Compare(g, store, slot.Where(), k);
      var i := TargetForGet(ptable, p, b, k.low, a);
      if i == NR_SET { return Crash; }
      ghost var now := PartAt(p, Idle);
      InstallEntry(c, i, e);
      assert PartAt(p, Idle) == Filled(now, b, i, e);
    }

    /** The label "bi_get_entry": fill an entry, or fetch (or create) the table to make room. */
    method SetEntry(req: Request, a: nat) returns (reply: Reply)
      requires Valid() && req.writeStep != WritePtable
      modifies this`store, bucket, part, req
      ensures var p := PartOf(g, req.put.key);
        var o := GetEntry(g, old(store), old(PartAt(p, Idle)), req.put, a);
        && reply == o.reply
        && (!reply.Crash? ==> (req.writeStep == WritePtable ==> req.tempBuf != null) && Did(p, o, req.SetPending(), a))
    {
      hide Target, Install, InsertAll, DirtyItems, CleanAll, BucketIdx;
      var k := req.put.key;
      var p, b := PartOf(g, k), BucketOf(g, k);
      var c := BUCKETS_IN_PART * p + b;
      ghost var before := PartAt(p, Idle);
      assert before.buckets[b] == bucket[c];
      var i := GetTargetEntry(c, k.low);
      if i < NR_SET {
        var e := Entry(k.low, true, 0, SizeField(g, req.put.value), a);
        InstallEntry(c, i, e);
        assert PartAt(p, Idle) == Filled(before, b, i, e);
        if SizeField(g, req.put.value) > 0 { store := store[a := Kept(g, req.put)]; }
        req.End();
        return SetDone(req.put);
      }
      if part[p].pba != PBA_INVALID {
        var ok := FetchTable(p, req);
        if ok { part[p] := part[p].(flying := true); }
        return if ok then Working else Crash;
      }
      var ptable := new Slot[g.slots](_ => Slot(0, 0, 0, PBA_INVALID));
      assert ptable[..] == Blank(g.slots);
      reply := SetTableWrite(req, ptable, a);
    }

    /** The label "bi_write_ptable": merge, write back, and come again for the record itself. */
    method SetTableWrite(req: Request, ptable: array<Slot>, a: nat) returns (reply: Reply)
      requires Valid() && Sized(ptable[..], g.hops)
      modifies this`store, bucket, part, req, ptable
      ensures var p := PartOf(g, req.put.key);
        var o := WriteTable(g, old(PartAt(p, Idle)), req.put, old(ptable[..]), a);
        && reply == o.reply
        && (!reply.Crash? ==> req.writeStep == WriteKv && Did(p, o, SetKv(req.put), a))
    {
      var p := PartOf(g, req.put.key);
      part[p] := part[p].(flying := false);
      var ok := UpdatePartTable(ptable, p);
      if !ok { return Crash; }
      WriteBack(ptable, p, a);
      req.writeStep, req.tempBuf := WriteKv, null;
      reply := Working;
    }

    /** One dispatch of a GET: exactly the step function's outcome, on the arrays. */
    method Get(req: Request, a: nat) returns (reply: Reply)
      requires Valid() && req.Valid(g)
      modifies this`store, bucket, part, req, req.tempBuf
      ensures var p := PartOf(g, req.put.key);
        var before := old(PartAt(p, req.GetPending()));
        var o := if old(req.readStep) == UpdateTable then Resume(g, old(store), before, a)
                 else StartGet(g, old(store), before, req.put.key);
        && reply == o.reply
        && (!reply.Crash? ==> (req.readStep == UpdateTable ==> req.tempBuf != null) && Did(p, o, req.GetPending(), a))
    {
      if req.readStep == UpdateTable {
        reply := GetSecond(req, a);
      } else {
        reply := GetFirst(req, a);
      }
    }

    /** One dispatch of a SET: exactly the step function's outcome, on the arrays. */
    method Set(req: Request, a: nat) returns (reply: Reply)
      requires Valid() && req.Valid(g)
      modifies this`store, bucket, part, req, req.tempBuf
      ensures var p := PartOf(g, req.put.key);
        var before := old(PartAt(p, req.SetPending()));
        var o := if before.pending.Idle? then StartSet(g, old(store), before, req.put, a)
                 else Resume(g, old(store), before, a);
        && reply == o.reply
        && (!reply.Crash? ==> (req.writeStep == WritePtable ==> req.tempBuf != null) && Did(p, o, req.SetPending(), a))
    {
      if req.writeStep == WritePtable {
        reply := SetTableWrite(req, req.tempBuf, a);
      } else if req.writeStep != WriteKv && part[PartOf(g, req.put.key)].flying {
        reply := Working; // back to the retry queue
      } else {
        reply := SetEntry(req, a);
      }
    }
  }
}
