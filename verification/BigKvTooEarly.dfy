/** A run of the BigKV index over the device in which a GET reads its record before the flush has brought it. */
module BigKvTooEarly {
  import opened Common
  import A = Allocator
  import D = DeviceModel
  import T = PartTable
  import Sets = Bucket
  import S = BigKvStep
  import Cache = BigKvCache
  import R = BigKvRun
  import opened BigKvOnDevice

  /** One partition with a table of one slot; three segments of one grain of two bytes. */
  ghost predicate Small(c: Machine) { c.index == S.Shape(1, 1, 1, 2) && c.dev == A.Shape(2, 2, 3) }

  const FIRST: S.Key := S.Key([97], 0, 1)
  const SECOND: S.Key := S.Key([98], 1, 2)
  const KEYS: set<S.Key> := {FIRST, SECOND}
  const CLEAN: seq<Byte> := [0, 0]

  const SET_FIRST: Event := Request(R.SetReq(S.Put(FIRST, [0, 0]), 0), 2, CLEAN)
  const SET_SECOND: Event := Request(R.SetReq(S.Put(SECOND, [0, 0]), 1), 2, CLEAN)
  const GET_FIRST: Event := Request(R.GetReq(FIRST, 2), 2, CLEAN)

  lemma Places(c: Machine)
    requires Small(c)
    ensures S.PartOf(c.index, FIRST) == 0 == S.PartOf(c.index, SECOND)
    ensures S.BucketOf(c.index, FIRST) == 0 && S.BucketOf(c.index, SECOND) == 1
    ensures S.SizeField(c.index, [0, 0]) == 1
    ensures Fits(c) && Cache.KeysOk(c.index, KEYS)
  {
  }

  function FreshPart(): (p: S.Part) {
    S.Part(seq(S.BUCKETS_IN_PART, _ => Sets.Fresh()), T.PBA_INVALID, false, S.Idle)
  }

  function Cached(low: S.Hash, pba: nat): (e: Sets.Entry) { Sets.Entry(low, true, 0, 1, pba) }

  function FirstPart(): (p: S.Part) { S.Filled(FreshPart(), 0, 0, Cached(1, 0)) }
  function SecondPart(): (p: S.Part) { S.Filled(FirstPart(), 1, 0, Cached(2, 1)) }

  /** In a fresh bucket every fingerprint but 0 gets the first entry. */
  lemma FreshTarget(fp: nat)
    requires fp != 0
    ensures Sets.Target(Sets.Fresh(), fp) == 0
  {
  }

  /** A SET into a fresh bucket: what it writes, and the partition after it. */
  lemma SetOutcome(c: Machine, flash: S.Store, part: S.Part, key: S.Key, a: nat)
    requires Small(c) && (key == FIRST || key == SECOND)
    requires |part.buckets| == S.BUCKETS_IN_PART && part.buckets[S.BucketOf(c.index, key)] == Sets.Fresh()
    requires part.pending.Idle? && !part.flying
    ensures S.StartSet(c.index, flash, part, S.Put(key, [0, 0]), a)
         == S.Outcome(S.Filled(part, S.BucketOf(c.index, key), 0, Cached(key.low, a)),
                      Some([1, key.name[0]]), S.SetDone(S.Put(key, [0, 0])))
  {
    Places(c);
    FreshTarget(key.low);
    var put := S.Put(key, [0, 0]);
    assert S.Headed(put) == [1, key.name[0]];
    assert S.Kept(c.index, put) == [1, key.name[0]];
    hide S.SizeField, S.Kept, S.Filled, Sets.Target, S.BucketIdx;
    assert part.(pending := S.Idle) == part;
  }

  function DiskOfZeros(): (disk: seq<seq<Byte>>) { [[0, 0], [0, 0], [0, 0]] }

  /** The device's part of the first SET. */
  lemma FirstAppend(c: Machine)
    requires Small(c)
    ensures var m := Initial(c).image;
      var m1 := D.Allocated(c.dev, m, 2, CLEAN);
      && A.Next(c.dev, m.alloc, 2) == (A.State(0, 2), A.Extent(0, 0, 2)) && A.Pba(c.dev, A.Extent(0, 0, 2)) == 0
      && D.Legal(c.dev, m1, D.Put(0, [1, 97]))
      && D.Written(m1, 0, [1, 97]) == D.Image(A.State(0, 2), [1, 97], [], DiskOfZeros())
  {
    var m := Initial(c).image;
    assert m.buf == [0, 0] == CLEAN && m.disk == DiskOfZeros();
    assert D.Allocated(c.dev, m, 2, CLEAN) == D.Image(A.State(0, 2), [0, 0], [], DiskOfZeros());
  }

  lemma InitialParts(c: Machine)
    requires Small(c)
    ensures Initial(c).index.parts == [FreshPart()]
  {
  }

  lemma FirstStep(c: Machine)
    requires Small(c)
    ensures Legal(c, KEYS, Initial(c), SET_FIRST)
    ensures var (w, reply) := Step(c, KEYS, Initial(c), SET_FIRST);
      && reply == S.SetDone(S.Put(FIRST, [0, 0])) && w.index.parts == [FirstPart()]
      && w.image == D.Image(A.State(0, 2), [1, 97], [], DiskOfZeros())
  {
    hide S.StartSet, Seen, S.PartOf, S.BucketOf, S.SizeField, S.Filled, A.Next, A.Pba, D.Allocated, D.Written, D.ShadowWritten,
      D.ShadowAllocated, Fits, Cache.KeysOk, Initial;
    var w := Initial(c);
    Places(c);
    InitialParts(c);
    SetOutcome(c, Seen(c.dev, w.image), FreshPart(), FIRST, 0);
    FirstAppend(c);
    assert R.Dispatch(c.index, Sight(c, w), SET_FIRST.ev).wrote == Some([1, 97]);
  }

  lemma SecondBucketIsFresh()
    ensures |FirstPart().buckets| == S.BUCKETS_IN_PART && FirstPart().buckets[1] == Sets.Fresh()
    ensures FirstPart().pending.Idle? && !FirstPart().flying
  {
  }

  /** The device's part of the second SET: the first segment is handed over, the second one staged. */
  lemma SecondAppend(c: Machine, m: D.Image)
    requires Small(c) && m == D.Image(A.State(0, 2), [1, 97], [], DiskOfZeros())
    ensures A.Next(c.dev, m.alloc, 2) == (A.State(1, 2), A.Extent(1, 0, 2)) && A.Pba(c.dev, A.Extent(1, 0, 2)) == 1
    ensures var m1 := D.Allocated(c.dev, m, 2, CLEAN);
      && D.Legal(c.dev, m1, D.Put(0, [1, 98]))
      && D.Written(m1, 0, [1, 98]) == D.Image(A.State(1, 2), [1, 98], [D.Flush(0, [1, 97])], DiskOfZeros())
  {
    var m1 := D.Allocated(c.dev, m, 2, CLEAN);
    assert m1 == D.Image(A.State(1, 2), [0, 0], [D.Flush(0, [1, 97])], DiskOfZeros());
  }

  lemma SecondStep(c: Machine, w: World)
    requires Small(c) && w.index.parts == [FirstPart()]
    requires w.image == D.Image(A.State(0, 2), [1, 97], [], DiskOfZeros())
    ensures Legal(c, KEYS, w, SET_SECOND)
    ensures var (w', reply) := Step(c, KEYS, w, SET_SECOND);
      && reply == S.SetDone(S.Put(SECOND, [0, 0])) && w'.index.parts == [SecondPart()]
      && w'.image == D.Image(A.State(1, 2), [1, 98], [D.Flush(0, [1, 97])], DiskOfZeros())
  {
    hide S.StartSet, Seen, S.PartOf, S.BucketOf, S.SizeField, S.Filled, FirstPart, A.Next, A.Pba, D.Allocated, D.Written,
      D.ShadowWritten, D.ShadowAllocated, Fits, Cache.KeysOk;
    Places(c);
    SecondBucketIsFresh();
    SetOutcome(c, Seen(c.dev, w.image), FirstPart(), SECOND, 1);
    SecondAppend(c, w.image);
    assert R.Dispatch(c.index, Sight(c, w), SET_SECOND.ev).wrote == Some([1, 98]);
  }

  /** While the flush of segment 0 is under way the disk has zeros there. */
  lemma ZerosAtFirst(c: Machine, m: D.Image)
    requires Small(c) && m == D.Image(A.State(1, 2), [1, 98], [D.Flush(0, [1, 97])], DiskOfZeros())
    ensures 0 in Seen(c.dev, m) && Seen(c.dev, m)[0] == [0, 0] && !Readable(c.dev, m, 0)
  {
    assert A.Seg(c.dev, 1) == 1 && Grains(c.dev) == 3;
    assert ReadFrom(c.dev, m, 0) == m.disk[0][0..] == [0, 0];
    assert m.pending[0].seg == 0;
    assert D.OnItsWay(m, 0);
  }

  lemma FirstIsCached()
    ensures |SecondPart().buckets| == S.BUCKETS_IN_PART && SecondPart().pending.Idle?
    ensures Sets.Match(SecondPart().buckets[0], 1, 0) == 0 && SecondPart().buckets[0][0].Where() == T.Loc(0, 1)
  {
    assert SecondPart().buckets[0] == Sets.Install(Sets.Fresh(), 0, Cached(1, 0));
  }

  lemma ThirdAddress(c: Machine)
    requires Small(c)
    ensures A.Next(c.dev, A.State(1, 2), 2) == (A.State(2, 2), A.Extent(2, 0, 2)) && A.Pba(c.dev, A.Extent(2, 0, 2)) == 2
  {
  }

  lemma ThirdStep(c: Machine, w: World)
    requires Small(c) && w.index.parts == [SecondPart()]
    requires w.image == D.Image(A.State(1, 2), [1, 98], [D.Flush(0, [1, 97])], DiskOfZeros())
    ensures Legal(c, KEYS, w, GET_FIRST) && !Settled(c, KEYS, w, GET_FIRST)
    ensures Step(c, KEYS, w, GET_FIRST).1 == S.Foreign(FIRST)
  {
    hide Seen, S.PartOf, S.BucketOf, S.Filled, Sets.Install, Sets.Match, A.Next, A.Pba, D.OnItsWay, A.Seg, Readable, SecondPart,
      Fits, Cache.KeysOk, FirstPart;
    Places(c);
    FirstIsCached();
    ThirdAddress(c);
    ZerosAtFirst(c, w.image);
  }

  /**
   Two SETs, and a GET of the first key while the flush of its segment is under way: the device returns zeros, and
   the GET finds a foreign record although its key was stored.
   */
  lemma GetComesTooEarly(c: Machine)
    requires Small(c)
    ensures var run := [SET_FIRST, SET_SECOND, GET_FIRST];
      && Fits(c) && Cache.KeysOk(c.index, KEYS) && Possible(c, KEYS, Initial(c), run)
      && Replies(c, KEYS, Initial(c), run) ==
           [S.SetDone(S.Put(FIRST, [0, 0])), S.SetDone(S.Put(SECOND, [0, 0])), S.Foreign(FIRST)]
      && !ReadsSettled(c, KEYS, Initial(c), run)
  {
    Places(c);
    FirstStep(c);
    var w1 := Step(c, KEYS, Initial(c), SET_FIRST).0;
    SecondStep(c, w1);
    var w2 := Step(c, KEYS, w1, SET_SECOND).0;
    ThirdStep(c, w2);
    var w3 := Step(c, KEYS, w2, GET_FIRST).0;
    ThreeSteps(c, Initial(c), SET_FIRST, SET_SECOND, GET_FIRST);
    hide Legal, Settled, Step, Possible, Replies, ReadsSettled, Fits, Cache.KeysOk, Initial;
  }

  lemma ThreeSteps(c: Machine, w: World, x: Event, y: Event, z: Event)
    requires x.Request? && Legal(c, KEYS, w, x) && !Step(c, KEYS, w, x).1.Crash?
    requires var w1 := Step(c, KEYS, w, x).0;
      && y.Request? && Legal(c, KEYS, w1, y) && !Step(c, KEYS, w1, y).1.Crash?
      && var w2 := Step(c, KEYS, w1, y).0;
      z.Request? && Legal(c, KEYS, w2, z) && !Step(c, KEYS, w2, z).1.Crash? && !Settled(c, KEYS, w2, z)
    ensures Possible(c, KEYS, w, [x, y, z]) && !ReadsSettled(c, KEYS, w, [x, y, z])
    ensures var w1 := Step(c, KEYS, w, x).0;
      var w2 := Step(c, KEYS, w1, y).0;
      Replies(c, KEYS, w, [x, y, z]) == [Step(c, KEYS, w, x).1, Step(c, KEYS, w1, y).1, Step(c, KEYS, w2, z).1]
  {
    hide Legal, Settled, Step, Possible, Replies, ReadsSettled;
    var w1 := Step(c, KEYS, w, x).0;
    var w2 := Step(c, KEYS, w1, y).0;
    Nothing(c, Step(c, KEYS, w2, z).0);
    assert [x] + [y, z] == [x, y, z] && [y] + [z] == [y, z] && [z] + [] == [z];
    Prepend(c, w2, z, []);
    Prepend(c, w1, y, [z]);
    Prepend(c, w, x, [y, z]);
  }

  lemma Nothing(c: Machine, w: World)
    ensures Possible(c, KEYS, w, []) && Replies(c, KEYS, w, []) == []
  {
  }

  lemma Prepend(c: Machine, w: World, e: Event, rest: seq<Event>)
    requires e.Request? && Legal(c, KEYS, w, e) && !Step(c, KEYS, w, e).1.Crash?
    requires Possible(c, KEYS, Step(c, KEYS, w, e).0, rest)
    ensures Possible(c, KEYS, w, [e] + rest)
    ensures Replies(c, KEYS, w, [e] + rest) == [Step(c, KEYS, w, e).1] + Replies(c, KEYS, Step(c, KEYS, w, e).0, rest)
    ensures ReadsSettled(c, KEYS, w, [e] + rest) ==>
      Settled(c, KEYS, w, e) && ReadsSettled(c, KEYS, Step(c, KEYS, w, e).0, rest)
  {
    hide Legal, Settled, Step;
    var es := [e] + rest;
    assert es[0] == e && es[1..] == rest;
  }
}
