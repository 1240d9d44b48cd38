/**
 The BigKV index as a step system. One step is one dispatch of a GET or SET by the handler; between the
 dispatches of a request its progress is kept in "Pending". Flash is a write-once map from addresses to the
 bytes found there: every record or table is written at the address allocated just before.
 */
module BigKvStep {
  import opened Common
  import opened KeyRecord
  import opened Multiples
  import opened PartTable
  import opened TableBytes
  import opened Bucket

  const BUCKETS_IN_PART: nat := 4

  /** Number of partitions, slots of a partition table, length of a probe window, bytes of a grain. */
  datatype Shape = Shape(parts: nat, slots: nat, hops: nat, grain: nat)

  type Geometry = g: Shape | 0 < g.parts && 0 < g.hops <= g.slots && g.hops <= OFFSET_LIMIT && 0 < g.grain
    witness Shape(1, 1, 1, 1)

  type Hash = x: nat | x < FINGERPRINT_LIMIT

  /** A key with the two halves of its hash. */
  datatype Key = Key(name: Name, high: Hash, low: Hash)

  function BucketIdx(g: Geometry, k: Key): (b: nat)
    ensures b < g.parts * BUCKETS_IN_PART
  {
    k.high % (g.parts * BUCKETS_IN_PART)
  }

  function PartOf(g: Geometry, k: Key): (p: nat)
    ensures p < g.parts
  {
    BucketIdx(g, k) / BUCKETS_IN_PART
  }

  /** Position of the key's bucket within its partition. */
  function BucketOf(g: Geometry, k: Key): (b: nat)
    ensures b < BUCKETS_IN_PART
  {
    BucketIdx(g, k) % BUCKETS_IN_PART
  }

  /** Keys share a bucket exactly when their high hashes agree modulo the number of all buckets. */
  lemma BucketsAreSpread(g: Geometry, x: Key, y: Key)
    ensures PartOf(g, x) == PartOf(g, y) && BucketOf(g, x) == BucketOf(g, y) <==>
      x.high % (g.parts * BUCKETS_IN_PART) == y.high % (g.parts * BUCKETS_IN_PART)
  {
    assert BucketIdx(g, x) == BUCKETS_IN_PART * PartOf(g, x) + BucketOf(g, x);
    assert BucketIdx(g, y) == BUCKETS_IN_PART * PartOf(g, y) + BucketOf(g, y);
  }

  type Store = map<nat, seq<Byte>>

  /** A SET request: its key, and its value buffer as the client left it. */
  datatype Put = Put(key: Key, value: seq<Byte>)

  /** The size field of a record's entry: its whole grains, cut to the width of the field. */
  function SizeField(g: Geometry, value: seq<Byte>): (n: nat)
    ensures n < KV_SIZE_LIMIT && n * g.grain <= |value|
  {
    WholeGrains(|value| / g.grain % KV_SIZE_LIMIT, |value|, g.grain);
    |value| / g.grain % KV_SIZE_LIMIT
  }

  /** The value buffer after the key was copied over its head. */
  function Headed(put: Put): (r: seq<Byte>)
    ensures |r| == |put.value|
  {
    if |put.key.name| < |put.value| then WithKey(put.key.name, put.value) else put.value
  }

  /** The part of the buffer that a SET leaves on flash: as many grains as the size field says. */
  function Kept(g: Geometry, put: Put): (r: seq<Byte>)
    ensures |r| == SizeField(g, put.value) * g.grain && r <= Headed(put)
  {
    Headed(put)[..SizeField(g, put.value) * g.grain]
  }

  /** The buffer is written as a whole exactly when it is made of whole grains, fewer than the size field can count. */
  lemma KeptIff(g: Geometry, put: Put)
    ensures |Kept(g, put)| == |put.value| <==>
      |put.value| % g.grain == 0 && |put.value| / g.grain < KV_SIZE_LIMIT
    ensures |Kept(g, put)| == |put.value| <==> Kept(g, put) == Headed(put)
  {
    hide SizeField, WithKey;
    FieldIsAll(g, put.value);
    if |Kept(g, put)| == |put.value| { assert Kept(g, put) == Headed(put)[..|put.value|]; }
  }

  lemma CutIsAll(n: nat)
    ensures n % KV_SIZE_LIMIT <= n && (n % KV_SIZE_LIMIT == n <==> n < KV_SIZE_LIMIT)
  {
  }

  lemma FieldIsAll(g: Geometry, value: seq<Byte>)
    ensures SizeField(g, value) * g.grain == |value| <==> |value| % g.grain == 0 && |value| / g.grain < KV_SIZE_LIMIT
  {
    var n, grains := SizeField(g, value), |value| / g.grain;
    CutIsAll(grains);
    assert n == grains % KV_SIZE_LIMIT;
    hide SizeField;
    AllGrains(n, |value|, g.grain);
  }

  /** A record of at least one grain, whose key and length byte fit one grain, spells its key. */
  lemma KeptSpellsKey(g: Geometry, put: Put)
    requires 0 < SizeField(g, put.value) && |put.key.name| < g.grain
    ensures NameAt(Kept(g, put)) == Some(put.key.name)
  {
    hide SizeField, NameAt, WithKey;
    OneGrain(SizeField(g, put.value), g.grain);
    var n := |Kept(g, put)|;
    NameAtHead(put.key.name, put.value);
    NameAtPrefix(Headed(put), n, put.key.name);
  }

  /** What a SET writes; a write of no grains writes nothing. */
  function Stored(g: Geometry, put: Put): (r: Option<seq<Byte>>) {
    if SizeField(g, put.value) == 0 then None else Some(Kept(g, put))
  }

  datatype Pending =
    | Idle
    | GetTable(key: Key, buf: Table)
    | SetTable(put: Put, buf: Table)
    | SetKv(put: Put)

  datatype Part = Part(buckets: seq<Set>, pba: nat, flying: bool, pending: Pending)

  datatype State = State(parts: seq<Part>, store: Store)

  /**
   What comes of a dispatch: nothing yet, an answer, a record that is not the reader's, whose GET starts all
   over again, or an aborted process.
   */
  datatype Reply = Working | SetDone(put: Put) | GetDone(key: Key, answer: Option<seq<Byte>>) | Foreign(key: Key) | Crash

  datatype Outcome = Outcome(part: Part, wrote: Option<seq<Byte>>, reply: Reply)

  // ---------- Flushing a partition

  function ItemOf(e: Entry): (r: Item) { Item(e.fingerprint, e.Where()) }

  /** Dirty entries among the first j of a bucket. */
  function DirtyUpTo(b: Set, j: nat): (r: seq<Item>)
    requires j <= NR_SET
  {
    if j == 0 then []
    else DirtyUpTo(b, j - 1) + if b[j - 1].dirty then [ItemOf(b[j - 1])] else []
  }

  /** Dirty entries of the first n buckets, in the order of the flush loop. */
  function DirtyItems(buckets: seq<Set>, n: nat): (r: seq<Item>)
    requires n <= |buckets|
  {
    if n == 0 then [] else DirtyItems(buckets, n - 1) + DirtyUpTo(buckets[n - 1], NR_SET)
  }

  function CleanAll(buckets: seq<Set>): (r: seq<Set>)
    ensures |r| == |buckets|
  {
    seq(|buckets|, i requires 0 <= i < |buckets| => Cleaned(buckets[i]))
  }

  /** The table buffer with every dirty entry of the partition merged in. */
  function Merged(g: Geometry, part: Part, buf: Table): (r: Inserted)
    requires Sized(buf, g.hops)
  {
    InsertAll(buf, g.hops, DirtyItems(part.buckets, |part.buckets|))
  }

  /** The partition after its merged table was written at address a. */
  function Flushed(part: Part, a: nat): (r: Part) {
    part.(buckets := CleanAll(part.buckets), pba := a)
  }

  // ---------- One dispatch

  /** The first n bytes, or all there are. */
  function FirstBytes(data: seq<Byte>, n: nat): (r: seq<Byte>) { if n <= |data| then data[..n] else data }

  /**
   The read of a record and the comparison with the key at its head. A read of no grains leaves the request's
   buffer as it was, all zeros, which only the empty key compares equal to.
   */
  function Compare(g: Geometry, store: Store, loc: Loc, k: Key): (r: Reply) {
    if loc.kvSize == 0 then (if k.name == [] then GetDone(k, Some([])) else Foreign(k))
    else if loc.pba !in store then Foreign(k)
    else
      var read := FirstBytes(store[loc.pba], loc.kvSize * g.grain);
      if NameAt(read) == Some(k.name) then GetDone(k, Some(read)) else Foreign(k)
  }

  function Filled(part: Part, b: nat, i: nat, e: Entry): (r: Part)
    requires b < |part.buckets| && i < NR_SET
    ensures |r.buckets| == |part.buckets|
  {
    part.(buckets := part.buckets[b := Install(part.buckets[b], i, e)])
  }

  function StartGet(g: Geometry, store: Store, part: Part, k: Key): (o: Outcome)
    requires |part.buckets| == BUCKETS_IN_PART
  {
    var b := BucketOf(g, k);
    var entries := part.buckets[b];
    var i := Match(entries, k.low, 0);
    if i < NR_SET then
      Outcome(Filled(part, b, i, entries[i]), None, Compare(g, store, entries[i].Where(), k))
    else if part.pba in store && part.pba != PBA_INVALID then
      Outcome(part.(pending := GetTable(k, TableAt(g.slots, store[part.pba]))), None, Working)
    else
      Outcome(part, None, Crash)
  }

  /** The table has arrived: answer from it and cache the entry, flushing first when the victim is dirty. */
  function ResumeGet(g: Geometry, store: Store, part: Part, k: Key, buf: Table, a: nat): (o: Outcome)
    requires |part.buckets| == BUCKETS_IN_PART && Sized(buf, g.hops)
  {
    var r := FirstMatch(buf, g.hops, k.low, 0);
    var idle := part.(pending := Idle);
    if r == g.hops then Outcome(idle, None, GetDone(k, None))
    else
      var slot := buf[Probe(buf, k.low, r)];
      var reply := Compare(g, store, slot.Where(), k);
      var e := Entry(slot.fingerprint, false, 0, slot.kvSize, slot.pba);
      var b := BucketOf(g, k);
      var i := Target(part.buckets[b], k.low);
      if i < NR_SET then Outcome(Filled(idle, b, i, e), None, reply)
      else
        var merged := Merged(g, part, buf);
        if merged.NoRoom? then Outcome(part, None, Crash)
        else
          var clean := Flushed(idle, a);
          var i' := Target(clean.buckets[b], k.low);
          // a second failure would flush through a null table pointer
          if i' == NR_SET then Outcome(part, None, Crash)
          else Outcome(Filled(clean, b, i', e), Some(BytesOf(merged.table)), reply)
  }

  function WriteTable(g: Geometry, part: Part, put: Put, buf: Table, a: nat): (o: Outcome)
    requires Sized(buf, g.hops)
  {
    var merged := Merged(g, part, buf);
    if merged.NoRoom? then Outcome(part, None, Crash)
    else Outcome(Flushed(part, a).(flying := false, pending := SetKv(put)), Some(BytesOf(merged.table)), Working)
  }

  /** The label "bi_get_entry": fill an entry, or fetch (or create) the table to make room. */
  function GetEntry(g: Geometry, store: Store, part: Part, put: Put, a: nat): (o: Outcome)
    requires |part.buckets| == BUCKETS_IN_PART
  {
    var b := BucketOf(g, put.key);
    var i := Target(part.buckets[b], put.key.low);
    if i < NR_SET then
      var e := Entry(put.key.low, true, 0, SizeField(g, put.value), a);
      Outcome(Filled(part, b, i, e), Stored(g, put), SetDone(put))
    else if part.pba == PBA_INVALID then
      WriteTable(g, part, put, Blank(g.slots), a)
    else if part.pba in store then
      Outcome(part.(flying := true, pending := SetTable(put, TableAt(g.slots, store[part.pba]))), None, Working)
    else
      Outcome(part, None, Crash)
  }

  /** A SET that meets a partition in flight goes back to the retry queue untouched. */
  function StartSet(g: Geometry, store: Store, part: Part, put: Put, a: nat): (o: Outcome)
    requires |part.buckets| == BUCKETS_IN_PART
  {
    if part.flying then Outcome(part, None, Working) else GetEntry(g, store, part, put, a)
  }

  function Resume(g: Geometry, store: Store, part: Part, a: nat): (o: Outcome)
    requires |part.buckets| == BUCKETS_IN_PART
    requires part.pending.GetTable? ==> Sized(part.pending.buf, g.hops)
    requires part.pending.SetTable? ==> Sized(part.pending.buf, g.hops)
  {
    match part.pending
    case Idle => Outcome(part, None, Working)
    case GetTable(k, buf) => ResumeGet(g, store, part, k, buf, a)
    case SetTable(put, buf) => WriteTable(g, part, put, buf, a)
    case SetKv(put) => GetEntry(g, store, part.(pending := Idle), put, a)
  }

  /** Flash after an outcome that may have written something at address a. */
  function Wrote(store: Store, o: Outcome, a: nat): (r: Store) {
    if o.wrote.Some? then store[a := o.wrote.value] else store
  }
}
