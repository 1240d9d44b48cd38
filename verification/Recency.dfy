/** The two-bit counters of a bucket keep a move-to-front list of its fingerprints. */
module Recency {
  import opened Bucket

  // ---------- The reference: a bounded move-to-front list, most recent first

  function Without(l: seq<nat>, x: nat): (r: seq<nat>) {
    if l == [] then [] else if l[0] == x then Without(l[1..], x) else [l[0]] + Without(l[1..], x)
  }

  /** x moves (or comes) to the front; a list that grows past the bucket loses its last element. */
  function MoveToFront(l: seq<nat>, x: nat): (r: seq<nat>) {
    var m := [x] + Without(l, x);
    if |m| <= NR_SET then m else m[..NR_SET]
  }

  lemma {:induction false} WithoutAbsent(l: seq<nat>, x: nat)
    requires x !in l
    ensures Without(l, x) == l
  {
    if l != [] {
      WithoutAbsent(l[1..], x);
      assert l == [l[0]] + l[1..];
    }
  }

  lemma {:induction false} WithoutAt(l: seq<nat>, x: nat, p: nat)
    requires p < |l| && l[p] == x
    requires forall i :: 0 <= i < |l| && i != p ==> l[i] != x
    ensures Without(l, x) == l[..p] + l[p + 1..]
  {
    if p == 0 {
      WithoutAbsent(l[1..], x);
    } else {
      WithoutAt(l[1..], x, p - 1);
      assert l[..p] + l[p + 1..] == [l[0]] + (l[1..][..p - 1] + l[1..][p..]);
    }
  }

  // ---------- What the counters of a bucket say

  /** The entry whose counter is k. */
  ghost function Holder(b: Set, k: nat): (i: nat)
    requires Sound(b) && k < Used(b)
    ensures i < Used(b) && b[i].lru == k
  {
    HolderExists(b, k);
    if b[0].lru == k then 0 else if b[1].lru == k then 1 else if b[2].lru == k then 2 else 3
  }

  /** u distinct counters below u include every value below u. */
  lemma HolderExists(b: Set, k: nat)
    requires Sound(b) && k < Used(b)
    ensures exists i :: 0 <= i < Used(b) && b[i].lru == k
    ensures var i := if b[0].lru == k then 0 else if b[1].lru == k then 1 else if b[2].lru == k then 2 else 3;
      i < Used(b) && b[i].lru == k
  {
    assert b[0].Valid() && b[0].lru < Used(b);
    assert Used(b) > 1 ==> b[1].lru < Used(b) && b[1].lru != b[0].lru;
    assert Used(b) > 2 ==> b[2].lru < Used(b) && b[2].lru != b[0].lru && b[2].lru != b[1].lru;
    assert Used(b) > 3 ==> b[3].lru < Used(b) && b[3].lru != b[0].lru && b[3].lru != b[1].lru && b[3].lru != b[2].lru;
  }

  lemma HolderOf(b: Set, i: nat)
    requires Sound(b) && i < Used(b)
    ensures Holder(b, b[i].lru) == i
  {
    var h := Holder(b, b[i].lru);
  }

  /** Fingerprints of the valid entries in the order of their counters. */
  ghost function Order(b: Set): (l: seq<nat>)
    requires Sound(b)
    ensures |l| == Used(b)
  {
    seq(Used(b), k requires 0 <= k < Used(b) => b[Holder(b, k)].fingerprint)
  }

  lemma OrderAt(b: Set, i: nat)
    requires Sound(b) && i < Used(b)
    ensures Order(b)[b[i].lru] == b[i].fingerprint
  {
    HolderOf(b, i);
  }

  lemma OrderDistinct(b: Set, j: nat, k: nat)
    requires Sound(b) && j < Used(b) && k < Used(b) && Order(b)[j] == Order(b)[k]
    ensures j == k
  {
    var x, y := Holder(b, j), Holder(b, k);
  }

  /** Position in the order of the entry an installation takes: its counter, or the end for a free one. */
  ghost function Vacated(b: Set, i: nat): (k: nat)
    requires Sound(b) && i <= Used(b) && i < NR_SET
    ensures k <= Used(b)
  {
    if i < Used(b) then b[i].lru else Used(b)
  }

  /** Where an entry that stays put ends up in the order. */
  lemma InstallOrderAt(b: Set, i: nat, e: Entry, p: nat)
    requires Sound(b) && i <= Used(b) && i < NR_SET && p < Used(b) && p != Vacated(b, i)
    requires Sound(Install(b, i, e)) && Used(b) <= Used(Install(b, i, e))
    ensures var q := if p < Vacated(b, i) then p + 1 else p;
      q < Used(Install(b, i, e)) && Order(Install(b, i, e))[q] == Order(b)[p]
  {
    InstallWrites(b, i, e);
    var h := Holder(b, p);
    assert h != i;
    assert i >= Used(b) ==> b[i].lru == LRU_MAX;
    OrderAt(b, h);
    var r := Install(b, i, e);
    hide Install;
    OrderAt(r, h);
  }

  /** The order after an installation: the newcomer, those before the vacated place, those after it. */
  ghost function Inserted(l: seq<nat>, k: nat, x: nat): (r: seq<nat>)
    requires k <= |l|
    ensures |r| == if k < |l| then |l| else |l| + 1
    ensures forall q :: 0 <= q < |r| ==> r[q] == if q == 0 then x else if q <= k then l[q - 1] else l[q]
  {
    [x] + l[..k] + if k < |l| then l[k + 1..] else []
  }

  lemma InstallFirst(b: Set, i: nat, e: Entry)
    requires Sound(b) && i <= Used(b) && i < NR_SET
    requires Sound(Install(b, i, e)) && i < Used(Install(b, i, e))
    ensures Order(Install(b, i, e))[0] == e.fingerprint
  {
    InstallWrites(b, i, e);
    OrderAt(Install(b, i, e), i);
  }

  lemma InstallOrder(b: Set, i: nat, e: Entry)
    requires Sound(b) && e.Valid() && i == Target(b, e.fingerprint) < NR_SET
    requires i <= Used(b)
    ensures Sound(Install(b, i, e))
    ensures Order(Install(b, i, e)) == Inserted(Order(b), Vacated(b, i), e.fingerprint)
  {
    InstallKeepsSound(b, i, e);
    var l, k, r := Order(b), Vacated(b, i), Install(b, i, e);
    assert k < |l| <==> i < Used(b) by { assert Counted(b); }
    assert i < Used(r) && |Order(r)| == |Inserted(l, k, e.fingerprint)|;
    hide Install, Sound, Target, Order, Inserted, Vacated, Used;
    InstallFirst(b, i, e);
    forall q | 0 < q < Used(r)
      ensures Order(r)[q] == Inserted(l, k, e.fingerprint)[q]
    {
      InstallOrderAt(b, i, e, if q <= k then q - 1 else q);
    }
  }

  lemma HitMovesToFront(b: Set, i: nat)
    requires Sound(b) && i < Used(b)
    ensures Inserted(Order(b), Vacated(b, i), b[i].fingerprint) == MoveToFront(Order(b), b[i].fingerprint)
  {
    var l, k := Order(b), Vacated(b, i);
    OrderAt(b, i);
    forall q | 0 <= q < |l| && q != k
      ensures l[q] != b[i].fingerprint
    {
      if l[q] == l[k] { OrderDistinct(b, q, k); }
    }
    hide Sound, Order;
    WithoutAt(l, b[i].fingerprint, k);
  }

  lemma OrderHolds(b: Set, x: nat)
    requires Sound(b) && Match(b, x, 0) == NR_SET
    ensures x !in Order(b)
  {
    forall q | 0 <= q < Used(b)
      ensures Order(b)[q] != x
    {
      var h := Holder(b, q);
    }
  }

  /** A newcomer to a list with room, or to a full one that gives up its last element. */
  lemma MissMovesToFront(l: seq<nat>, x: nat, k: nat)
    requires x !in l && |l| <= NR_SET && k <= |l| && (if |l| < NR_SET then k == |l| else k == NR_SET - 1)
    ensures Inserted(l, k, x) == MoveToFront(l, x)
  {
    WithoutAbsent(l, x);
  }

  /** A bucket's fingerprint list reacts to an installation or a hit like the move-to-front list. */
  lemma InstallIsMoveToFront(b: Set, i: nat, e: Entry)
    requires Sound(b) && e.Valid() && i == Target(b, e.fingerprint) < NR_SET
    ensures Sound(Install(b, i, e))
    ensures Order(Install(b, i, e)) == MoveToFront(Order(b), e.fingerprint)
  {
    TargetIsOwn(b, e.fingerprint);
    TargetCases(b, e.fingerprint);
    InstallOrder(b, i, e);
    hide Sound, Target, Install;
    if Match(b, e.fingerprint, 0) < NR_SET {
      HitMovesToFront(b, i);
    } else {
      OrderHolds(b, e.fingerprint);
      MissMovesToFront(Order(b), e.fingerprint, Vacated(b, i));
    }
  }

  /** In a full bucket the victim of a miss is the last of the recency list, and there is one iff it is clean. */
  lemma VictimIsLeastRecent(b: Set, fp: nat)
    requires Sound(b) && Used(b) == NR_SET && Match(b, fp, 0) == NR_SET
    ensures Target(b, fp) < NR_SET <==> !b[Holder(b, LRU_MAX)].dirty
    ensures Target(b, fp) < NR_SET ==> b[Target(b, fp)].fingerprint == Order(b)[NR_SET - 1]
  {
    TargetCases(b, fp);
    HolderOf(b, Oldest(b, 0));
  }

  // ---------- Whole access histories

  /** A hit, an installed record, or a flush that cleans the bucket. */
  datatype Access = Hit(fp: nat) | Fill(e: Entry) | Flush

  predicate Possible(b: Set, a: Access) {
    match a
    case Hit(fp) => Match(b, fp, 0) < NR_SET
    case Fill(e) => e.Valid() && Target(b, e.fingerprint) < NR_SET
    case Flush => true
  }

  function Apply(b: Set, a: Access): (r: Set)
    requires Possible(b, a)
  {
    match a
    case Hit(fp) => var i := Match(b, fp, 0); Install(b, i, b[i])
    case Fill(e) => Install(b, Target(b, e.fingerprint), e)
    case Flush => Cleaned(b)
  }

  ghost function AfterAll(b: Set, history: seq<Access>): (r: (bool, Set))
  {
    if history == [] then (true, b)
    else
      var last := |history| - 1;
      var (ok, c) := AfterAll(b, history[..last]);
      if ok && Possible(c, history[last]) then (true, Apply(c, history[last])) else (false, c)
  }

  ghost function ReferenceOrder(history: seq<Access>): (l: seq<nat>) {
    if history == [] then []
    else
      var last := |history| - 1;
      var l := ReferenceOrder(history[..last]);
      match history[last]
      case Hit(fp) => MoveToFront(l, fp)
      case Fill(e) => MoveToFront(l, e.fingerprint)
      case Flush => l
  }

  lemma CleanedKeepsOrder(b: Set)
    requires Sound(b)
    ensures Sound(Cleaned(b)) && Order(Cleaned(b)) == Order(b)
  {
    CleanedHasTarget(b, 0);
    var c := Cleaned(b);
    forall k | 0 <= k < Used(b)
      ensures Order(c)[k] == Order(b)[k]
    {
      var h := Holder(b, k);
      OrderAt(b, h);
      OrderAt(c, h);
    }
  }

  /** Over every access history the counters hold the move-to-front order of that history. */
  lemma {:induction false} CountersAreRecency(history: seq<Access>)
    requires AfterAll(Fresh(), history).0
    ensures Sound(AfterAll(Fresh(), history).1)
    ensures Order(AfterAll(Fresh(), history).1) == ReferenceOrder(history)
    decreases |history|
  {
    if history == [] {
      FreshIsSound();
    } else {
      var last := |history| - 1;
      CountersAreRecency(history[..last]);
      var b := AfterAll(Fresh(), history[..last]).1;
      match history[last]
      case Hit(fp) =>
        TargetOfHit(b, fp);
        InstallIsMoveToFront(b, Match(b, fp, 0), b[Match(b, fp, 0)]);
      case Fill(e) =>
        InstallIsMoveToFront(b, Target(b, e.fingerprint), e);
      case Flush =>
        CleanedKeepsOrder(b);
    }
  }
}
