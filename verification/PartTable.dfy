/**
 The partition table of the BigKV index: a linear-probing hash table that is kept on flash,
 read into a buffer, updated there in place and written back as a whole.
 */
module PartTable {
  import opened Ring

  /** Address that marks an unused slot or bucket entry. */
  const PBA_INVALID: nat := 0x3fffffffff

  /** The "offset" bit field is eight bits wide. */
  const OFFSET_LIMIT: nat := 256

  /** Where a record lies in the log: its first grain and its length in grains. */
  datatype Loc = Loc(pba: nat, kvSize: nat)

  datatype Slot = Slot(fingerprint: nat, offset: nat, kvSize: nat, pba: nat) {
    predicate Occupied() { pba != PBA_INVALID }
    function Where(): (r: Loc) { Loc(pba, kvSize) }
  }

  type Table = seq<Slot>

  /** A probe window never wraps onto itself, and probe offsets fit their bit field. */
  predicate Sized(t: Table, hops: nat) {
    0 < hops <= |t| && hops <= OFFSET_LIMIT
  }

  /** The i-th slot probed for fp. */
  function Probe(t: Table, fp: nat, i: nat): (p: nat)
    requires i < |t|
    ensures p < |t|
  {
    At(|t|, fp % |t|, i)
  }

  // ---------- What a well-formed table is, and the map it stands for

  /** An occupied slot sits at its home plus "offset" and every earlier probe slot is occupied. */
  ghost predicate Placed(t: Table, hops: nat, j: nat)
    requires j < |t| && Sized(t, hops)
  {
    t[j].Occupied() ==>
      && t[j].offset < hops
      && Probe(t, t[j].fingerprint, t[j].offset) == j
      && forall i: nat :: i < t[j].offset ==> t[Probe(t, t[j].fingerprint, i)].Occupied()
  }

  ghost predicate Unique(t: Table) {
    forall j, k :: 0 <= j < |t| && 0 <= k < |t| && t[j].Occupied() && t[k].Occupied() ==>
      t[j].fingerprint == t[k].fingerprint ==> j == k
  }

  ghost predicate WellFormed(t: Table, hops: nat) {
    && Sized(t, hops)
    && Unique(t)
    && (forall j :: 0 <= j < |t| ==> Placed(t, hops, j))
    && (forall j :: 0 <= j < |t| && !t[j].Occupied() ==> t[j].fingerprint == 0)
  }

  /** The map from fingerprints to log locations that the table stands for. */
  ghost function Entries(t: Table): (m: map<nat, Loc>)
    requires Unique(t)
    ensures forall j :: 0 <= j < |t| && t[j].Occupied() ==>
      t[j].fingerprint in m && m[t[j].fingerprint] == t[j].Where()
    ensures forall fp :: fp in m ==> exists j :: 0 <= j < |t| && t[j].Occupied() && t[j].fingerprint == fp
  {
    map j | 0 <= j < |t| && t[j].Occupied() :: t[j].fingerprint := t[j].Where()
  }

  /** The table that a partition starts from: all slots zero, then all addresses invalid. */
  function Blank(n: nat): (t: Table)
    ensures |t| == n
  {
    seq(n, _ => Slot(0, 0, 0, PBA_INVALID))
  }

  lemma BlankIsEmpty(n: nat, hops: nat)
    requires 0 < hops <= n && hops <= OFFSET_LIMIT
    ensures WellFormed(Blank(n), hops)
    ensures Entries(Blank(n)) == map[]
  {
  }

  // ---------- Lookup

  /** First probe step at or after i whose slot carries fp; hops when there is none. */
  function FirstMatch(t: Table, hops: nat, fp: nat, i: nat): (r: nat)
    requires Sized(t, hops) && i <= hops
    ensures i <= r <= hops
    ensures r < hops ==> t[Probe(t, fp, r)].fingerprint == fp
    ensures forall k: nat :: i <= k < r ==> t[Probe(t, fp, k)].fingerprint != fp
    decreases hops - i
  {
    if i == hops then hops
    else if t[Probe(t, fp, i)].fingerprint == fp then i
    else FirstMatch(t, hops, fp, i + 1)
  }

  /** A stored fingerprint is found at its own slot. */
  lemma LookupPresent(t: Table, hops: nat, fp: nat)
    requires WellFormed(t, hops) && fp in Entries(t)
    ensures FirstMatch(t, hops, fp, 0) < hops
    ensures t[Probe(t, fp, FirstMatch(t, hops, fp, 0))].Occupied()
    ensures t[Probe(t, fp, FirstMatch(t, hops, fp, 0))].Where() == Entries(t)[fp]
  {
    var j :| 0 <= j < |t| && t[j].Occupied() && t[j].fingerprint == fp;
    assert Placed(t, hops, j);
    var r := FirstMatch(t, hops, fp, 0);
    assert r <= t[j].offset;
    if r < t[j].offset {
      assert t[Probe(t, fp, r)].Occupied();
    }
  }

  /**
   The lookup loop does not test the address. For an absent fingerprint it therefore goes wrong
   exactly for fingerprint 0 with a free slot in the probe window: the free slot is returned.
   */
  lemma LookupAbsent(t: Table, hops: nat, fp: nat)
    requires WellFormed(t, hops) && fp !in Entries(t)
    ensures FirstMatch(t, hops, fp, 0) < hops <==>
      fp == 0 && exists i: nat :: i < hops && !t[Probe(t, fp, i)].Occupied()
    ensures FirstMatch(t, hops, fp, 0) < hops ==> !t[Probe(t, fp, FirstMatch(t, hops, fp, 0))].Occupied()
  {
    var r := FirstMatch(t, hops, fp, 0);
    if r < hops {
      var p := Probe(t, fp, r);
      assert !t[p].Occupied();
    }
  }

  // ---------- Insertion

  /** First probe step at or after i whose slot is free or already carries fp; hops when none. */
  function FirstFit(t: Table, hops: nat, fp: nat, i: nat): (r: nat)
    requires Sized(t, hops) && i <= hops
    ensures i <= r <= hops
    ensures r < hops ==> var s := t[Probe(t, fp, r)]; !s.Occupied() || s.fingerprint == fp
    ensures forall k: nat :: i <= k < r ==> var s := t[Probe(t, fp, k)]; s.Occupied() && s.fingerprint != fp
    decreases hops - i
  {
    if i == hops then hops
    else
      var s := t[Probe(t, fp, i)];
      if !s.Occupied() || s.fingerprint == fp then i
      else FirstFit(t, hops, fp, i + 1)
  }

  /** The whole probe window of fp holds other fingerprints. */
  ghost predicate WindowFull(t: Table, hops: nat, fp: nat)
    requires Sized(t, hops)
  {
    forall i: nat :: i < hops ==> var s := t[Probe(t, fp, i)]; s.Occupied() && s.fingerprint != fp
  }

  datatype Inserted = NoRoom | Room(table: Table)

  function Insert(t: Table, hops: nat, fp: nat, loc: Loc): (r: Inserted)
    requires Sized(t, hops)
    ensures r.NoRoom? <==> WindowFull(t, hops, fp)
    ensures r.Room? ==> Sized(r.table, hops) && |r.table| == |t|
  {
    var i := FirstFit(t, hops, fp, 0);
    if i == hops then NoRoom
    else Room(t[Probe(t, fp, i) := Slot(fp, i % OFFSET_LIMIT, loc.kvSize, loc.pba)])
  }

  /** A stored fingerprint stops the insertion loop at its own slot, not at an earlier free one. */
  lemma FitFindsOwnSlot(t: Table, hops: nat, j: nat)
    requires WellFormed(t, hops) && j < |t| && t[j].Occupied()
    ensures FirstFit(t, hops, t[j].fingerprint, 0) == t[j].offset < hops
    ensures Probe(t, t[j].fingerprint, t[j].offset) == j
  {
    assert Placed(t, hops, j);
  }

  /** After an insertion no other occupied slot carries the inserted fingerprint. */
  lemma InsertStaysUnique(t: Table, hops: nat, fp: nat, p: nat, s: Slot)
    requires WellFormed(t, hops) && FirstFit(t, hops, fp, 0) < hops
    requires p == Probe(t, fp, FirstFit(t, hops, fp, 0)) && s.fingerprint == fp
    ensures forall j :: 0 <= j < |t| && j != p && t[j].Occupied() ==> t[j].fingerprint != fp
    ensures Unique(t[p := s])
  {
    forall j | 0 <= j < |t| && j != p && t[j].Occupied()
      ensures t[j].fingerprint != fp
    {
      if t[j].fingerprint == fp { FitFindsOwnSlot(t, hops, j); }
    }
  }

  lemma InsertStaysPlaced(t: Table, hops: nat, fp: nat, s: Slot, j: nat)
    requires WellFormed(t, hops) && FirstFit(t, hops, fp, 0) < hops && j < |t|
    requires s.fingerprint == fp && s.Occupied() && s.offset == FirstFit(t, hops, fp, 0)
    ensures Placed(t[Probe(t, fp, s.offset) := s], hops, j)
  {
    var p := Probe(t, fp, s.offset);
    var t' := t[p := s];
    assert Placed(t, hops, j);
    if t'[j].Occupied() {
      forall i: nat | i < t'[j].offset
        ensures t'[Probe(t', t'[j].fingerprint, i)].Occupied()
      {
        var q := Probe(t, t'[j].fingerprint, i);
        assert j != p ==> t[q].Occupied();
      }
    }
  }

  /** One slot of a table replaced: the map changes at the new fingerprint only. */
  lemma ReplaceUpdatesMap(t: Table, p: nat, s: Slot)
    requires Unique(t) && p < |t| && s.Occupied() && Unique(t[p := s])
    requires t[p].Occupied() ==> t[p].fingerprint == s.fingerprint
    ensures Entries(t[p := s]) == Entries(t)[s.fingerprint := s.Where()]
  {
    var t' := t[p := s];
    var m, m', u := Entries(t), Entries(t'), Entries(t)[s.fingerprint := s.Where()];
    forall g | g in u
      ensures g in m' && m'[g] == u[g]
    {
      assert t'[p] == s;
      if g != s.fingerprint {
        var j :| 0 <= j < |t| && t[j].Occupied() && t[j].fingerprint == g;
        assert t'[j] == t[j];
      }
    }
    forall g | g in m'
      ensures g in u
    {
      var j :| 0 <= j < |t'| && t'[j].Occupied() && t'[j].fingerprint == g;
      assert j != p ==> t[j] == t'[j];
    }
  }

  /** Insertion keeps the table well formed and updates the map at fp and nowhere else. */
  lemma InsertUpdatesMap(t: Table, hops: nat, fp: nat, loc: Loc)
    requires WellFormed(t, hops) && loc.pba != PBA_INVALID
    requires Insert(t, hops, fp, loc).Room?
    ensures WellFormed(Insert(t, hops, fp, loc).table, hops)
    ensures Entries(Insert(t, hops, fp, loc).table) == Entries(t)[fp := loc]
  {
    var i := FirstFit(t, hops, fp, 0);
    var p, s := Probe(t, fp, i), Slot(fp, i, loc.kvSize, loc.pba);
    var t' := t[p := s];
    assert Insert(t, hops, fp, loc).table == t';
    InsertStaysUnique(t, hops, fp, p, s);
    forall j | 0 <= j < |t'|
      ensures Placed(t', hops, j)
    {
      InsertStaysPlaced(t, hops, fp, s, j);
    }
    ReplaceUpdatesMap(t, p, s);
  }

  // ---------- Histories of insertions

  datatype Item = Item(fingerprint: nat, loc: Loc)

  ghost predicate Storable(items: seq<Item>) {
    forall k :: 0 <= k < |items| ==> items[k].loc.pba != PBA_INVALID
  }

  /** Inserts the items in order; stops at the first one that finds its window full. */
  function InsertAll(t: Table, hops: nat, items: seq<Item>): (r: Inserted)
    requires Sized(t, hops)
    ensures r.Room? ==> Sized(r.table, hops) && |r.table| == |t|
  {
    if items == [] then Room(t)
    else
      var last := |items| - 1;
      var before := InsertAll(t, hops, items[..last]);
      if before.NoRoom? then NoRoom
      else Insert(before.table, hops, items[last].fingerprint, items[last].loc)
  }

  lemma {:induction false} NoRoomStays(t: Table, hops: nat, items: seq<Item>, n: nat)
    requires Sized(t, hops) && n <= |items| && InsertAll(t, hops, items[..n]).NoRoom?
    ensures InsertAll(t, hops, items).NoRoom?
    decreases |items|
  {
    if n < |items| {
      assert items[..|items| - 1][..n] == items[..n];
      NoRoomStays(t, hops, items[..|items| - 1], n);
    } else {
      assert items[..n] == items;
    }
  }

  /** Inserting in two goes is inserting in one. */
  lemma {:induction false} InsertInTwoGoes(t: Table, hops: nat, xs: seq<Item>, ys: seq<Item>)
    requires Sized(t, hops)
    ensures InsertAll(t, hops, xs + ys) ==
      if InsertAll(t, hops, xs).NoRoom? then NoRoom else InsertAll(InsertAll(t, hops, xs).table, hops, ys)
    decreases |ys|
  {
    if ys == [] {
      assert xs + ys == xs;
    } else {
      InsertInTwoGoes(t, hops, xs, ys[..|ys| - 1]);
      assert (xs + ys)[..|xs + ys| - 1] == xs + ys[..|ys| - 1];
    }
  }

  /** The n-th item, in its turn, finds its whole window taken by others. */
  ghost predicate FailsAt(t: Table, hops: nat, items: seq<Item>, n: nat)
    requires Sized(t, hops) && n < |items|
  {
    && InsertAll(t, hops, items[..n]).Room?
    && WindowFull(InsertAll(t, hops, items[..n]).table, hops, items[n].fingerprint)
  }

  lemma FailsAtFails(t: Table, hops: nat, items: seq<Item>, n: nat)
    requires Sized(t, hops) && n < |items| && FailsAt(t, hops, items, n)
    ensures InsertAll(t, hops, items).NoRoom?
  {
    assert items[..n + 1][..n] == items[..n];
    NoRoomStays(t, hops, items, n + 1);
  }

  lemma {:induction false} FailureHasCause(t: Table, hops: nat, items: seq<Item>)
    requires Sized(t, hops) && InsertAll(t, hops, items).NoRoom?
    ensures exists n: nat :: n < |items| && FailsAt(t, hops, items, n)
    decreases |items|
  {
    var last := |items| - 1;
    var rest := items[..last];
    if InsertAll(t, hops, rest).NoRoom? {
      FailureHasCause(t, hops, rest);
      var n: nat :| n < |rest| && FailsAt(t, hops, rest, n);
      assert rest[..n] == items[..n];
      assert FailsAt(t, hops, items, n);
    } else {
      assert FailsAt(t, hops, items, last);
    }
  }

  /** A history of insertions aborts exactly when some item finds its window full. */
  lemma NoRoomIff(t: Table, hops: nat, items: seq<Item>)
    requires Sized(t, hops)
    ensures InsertAll(t, hops, items).NoRoom? <==> exists n: nat :: n < |items| && FailsAt(t, hops, items, n)
  {
    if InsertAll(t, hops, items).NoRoom? {
      FailureHasCause(t, hops, items);
    } else if n: nat :| n < |items| && FailsAt(t, hops, items, n) {
      FailsAtFails(t, hops, items, n);
    }
  }

  /** The reference: plain map updates, in order. */
  ghost function Updated(m: map<nat, Loc>, items: seq<Item>): (r: map<nat, Loc>) {
    if items == [] then m
    else
      var last := |items| - 1;
      Updated(m, items[..last])[items[last].fingerprint := items[last].loc]
  }

  /** Over every insertion history that finds room, the table stands for the updated map. */
  lemma {:induction false} HistoryIsMap(t: Table, hops: nat, items: seq<Item>)
    requires WellFormed(t, hops) && Storable(items)
    requires InsertAll(t, hops, items).Room?
    ensures var t' := InsertAll(t, hops, items).table;
      WellFormed(t', hops) && Entries(t') == Updated(Entries(t), items)
    decreases |items|
  {
    if items != [] {
      var last := |items| - 1;
      HistoryIsMap(t, hops, items[..last]);
      var before := InsertAll(t, hops, items[..last]).table;
      InsertUpdatesMap(before, hops, items[last].fingerprint, items[last].loc);
    }
  }

  /**
   After any history a lookup returns what the reference map holds. For what the map does not hold the answer is
   right exactly when the fingerprint is not 0 or the probe window has no free slot.
   */
  lemma LookupAfterHistory(n: nat, hops: nat, items: seq<Item>, fp: nat)
    requires 0 < hops <= n && hops <= OFFSET_LIMIT && Storable(items)
    requires InsertAll(Blank(n), hops, items).Room?
    ensures var t := InsertAll(Blank(n), hops, items).table;
      var r := FirstMatch(t, hops, fp, 0);
      var m := Updated(map[], items);
      && (fp in m ==> r < hops && t[Probe(t, fp, r)].Where() == m[fp])
      && (fp !in m ==> (r == hops <==> fp != 0 || forall i: nat :: i < hops ==> t[Probe(t, fp, i)].Occupied()))
  {
    BlankIsEmpty(n, hops);
    HistoryIsMap(Blank(n), hops, items);
    var t := InsertAll(Blank(n), hops, items).table;
    if fp in Entries(t) {
      LookupPresent(t, hops, fp);
    } else {
      LookupAbsent(t, hops, fp);
    }
  }

  /** Fingerprint 0 looked up in a blank table hits a free slot, although it was never inserted. */
  lemma ZeroFingerprintHitsFreeSlot(n: nat, hops: nat)
    requires 0 < hops <= n && hops <= OFFSET_LIMIT
    ensures 0 !in Entries(Blank(n))
    ensures FirstMatch(Blank(n), hops, 0, 0) == 0
  {
  }

  /** Items that agree wherever they share a fingerprint. */
  ghost predicate Consistent(items: seq<Item>) {
    forall a, b :: a in items && b in items && a.fingerprint == b.fingerprint ==> a == b
  }

  /** For consistent items the order of the updates does not matter. */
  lemma {:induction false} UpdatedByMembership(m: map<nat, Loc>, items: seq<Item>)
    requires Consistent(items)
    ensures forall a :: a in items ==> a.fingerprint in Updated(m, items) && Updated(m, items)[a.fingerprint] == a.loc
    ensures forall fp :: (forall a :: a in items ==> a.fingerprint != fp) ==>
      (fp in Updated(m, items) <==> fp in m) && (fp in m ==> Updated(m, items)[fp] == m[fp])
    decreases |items|
  {
    if items != [] {
      var last := |items| - 1;
      var rest := items[..last];
      assert items == rest + [items[last]];
      assert forall a :: a in items <==> a in rest || a == items[last];
      UpdatedByMembership(m, rest);
    }
  }

  // ---------- The loops

  /** Slot index of the first probe slot that carries fp, or -1. */
  method FindMatch(t: array<Slot>, hops: nat, fp: nat) returns (slot: int)
    requires Sized(t[..], hops)
    ensures slot == -1 <==> FirstMatch(t[..], hops, fp, 0) == hops
    ensures slot != -1 ==> slot == Probe(t[..], fp, FirstMatch(t[..], hops, fp, 0))
  {
    var idx := fp % t.Length;
    for i := 0 to hops
      invariant idx == At(t.Length, fp % t.Length, if i < t.Length then i else 0)
      invariant FirstMatch(t[..], hops, fp, 0) == FirstMatch(t[..], hops, fp, i)
    {
      if t[idx].fingerprint == fp {
        return idx;
      }
      NextIsModulo(t.Length, fp % t.Length, i);
      idx := (idx + 1) % t.Length;
    }
    return -1;
  }

  /** Inserts in place; returns false, changing nothing, when the window is full. */
  method InsertInPlace(t: array<Slot>, hops: nat, fp: nat, loc: Loc) returns (ok: bool)
    requires Sized(t[..], hops)
    modifies t
    ensures ok <==> Insert(old(t[..]), hops, fp, loc).Room?
    ensures t[..] == if ok then Insert(old(t[..]), hops, fp, loc).table else old(t[..])
  {
    var idx := fp % t.Length;
    for i := 0 to hops
      invariant idx == At(t.Length, fp % t.Length, if i < t.Length then i else 0)
      invariant t[..] == old(t[..])
      invariant FirstFit(t[..], hops, fp, 0) == FirstFit(t[..], hops, fp, i)
    {
      if t[idx].pba == PBA_INVALID || t[idx].fingerprint == fp {
        t[idx] := Slot(fp, i % OFFSET_LIMIT, loc.kvSize, loc.pba);
        return true;
      }
      NextIsModulo(t.Length, fp % t.Length, i);
      idx := (idx + 1) % t.Length;
    }
    return false;
  }
}
