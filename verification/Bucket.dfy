/**
 One bucket of the BigKV index: a four-way set with a two-bit recency counter and a dirty bit per
 entry, kept in memory as a write-back cache over the partition table.
 */
module Bucket {
  import opened PartTable

  /** Entries per bucket; the recency counter has just enough bits for it. */
  const NR_SET: nat := 4
  const LRU_MAX: nat := 3

  datatype Entry = Entry(fingerprint: nat, dirty: bool, lru: nat, kvSize: nat, pba: nat) {
    predicate Valid() { pba != PBA_INVALID }
    function Where(): (r: Loc) { Loc(pba, kvSize) }
  }

  type Set = b: seq<Entry> | |b| == NR_SET witness seq(NR_SET, _ => Entry(0, false, LRU_MAX, 0, PBA_INVALID))

  /** A bucket as the index creates it. */
  function Fresh(): (b: Set) {
    seq(NR_SET, _ => Entry(0, false, LRU_MAX, 0, PBA_INVALID))
  }

  /** Number of entries before the first free one. */
  function Used(b: Set): (u: nat)
    ensures u <= NR_SET
  {
    if !b[0].Valid() then 0 else if !b[1].Valid() then 1 else if !b[2].Valid() then 2
    else if !b[3].Valid() then 3 else 4
  }

  /** Valid entries come first. */
  ghost predicate Packed(b: Set) {
    forall i :: 0 <= i < NR_SET ==> (b[i].Valid() <==> i < Used(b))
  }

  /** Valid entries hold distinct counters below their number, free ones the largest counter. */
  ghost predicate Counted(b: Set) {
    && (forall i :: 0 <= i < Used(b) ==> b[i].lru < Used(b))
    && (forall i, j :: 0 <= i < j < Used(b) ==> b[i].lru != b[j].lru)
    && (forall i :: Used(b) <= i < NR_SET ==> b[i].lru == LRU_MAX)
  }

  ghost predicate Distinct(b: Set) {
    forall i, j :: 0 <= i < j < Used(b) ==> b[i].fingerprint != b[j].fingerprint
  }

  /** Free entries are as initialisation left them. */
  ghost predicate FreeAreBlank(b: Set) {
    forall i :: Used(b) <= i < NR_SET ==> !b[i].dirty && b[i].fingerprint == 0
  }

  ghost predicate Sound(b: Set) {
    Packed(b) && Counted(b) && Distinct(b) && FreeAreBlank(b)
  }

  lemma FreshIsSound()
    ensures Sound(Fresh()) && Used(Fresh()) == 0
  {
  }

  // ---------- The scans

  /** First valid entry carrying fp at or after i; NR_SET when there is none. */
  function Match(b: Set, fp: nat, i: nat): (r: nat)
    requires i <= NR_SET
    ensures i <= r <= NR_SET
    ensures r < NR_SET ==> b[r].Valid() && b[r].fingerprint == fp
    ensures forall k :: i <= k < r ==> !(b[k].Valid() && b[k].fingerprint == fp)
    decreases NR_SET - i
  {
    if i == NR_SET then NR_SET
    else if b[i].Valid() && b[i].fingerprint == fp then i
    else Match(b, fp, i + 1)
  }

  /** First entry carrying fp, valid or not; NR_SET when there is none. */
  function SameFingerprint(b: Set, fp: nat, i: nat): (r: nat)
    requires i <= NR_SET
    ensures i <= r <= NR_SET
    ensures r < NR_SET ==> b[r].fingerprint == fp
    ensures forall k :: i <= k < r ==> b[k].fingerprint != fp
    decreases NR_SET - i
  {
    if i == NR_SET then NR_SET else if b[i].fingerprint == fp then i else SameFingerprint(b, fp, i + 1)
  }

  function FirstFree(b: Set, i: nat): (r: nat)
    requires i <= NR_SET
    ensures i <= r <= NR_SET
    ensures r < NR_SET ==> !b[r].Valid()
    ensures forall k :: i <= k < r ==> b[k].Valid()
    decreases NR_SET - i
  {
    if i == NR_SET then NR_SET else if !b[i].Valid() then i else FirstFree(b, i + 1)
  }

  function Oldest(b: Set, i: nat): (r: nat)
    requires i <= NR_SET
    ensures i <= r <= NR_SET
    ensures r < NR_SET ==> b[r].lru == LRU_MAX
    ensures forall k :: i <= k < r ==> b[k].lru != LRU_MAX
    decreases NR_SET - i
  {
    if i == NR_SET then NR_SET else if b[i].lru == LRU_MAX then i else Oldest(b, i + 1)
  }

  /** The entry a new record of fp would take; NR_SET when the only candidate is still dirty. */
  function Target(b: Set, fp: nat): (r: nat)
    ensures r <= NR_SET
  {
    var same := SameFingerprint(b, fp, 0);
    if same < NR_SET then same
    else
      var free := FirstFree(b, 0);
      if free < NR_SET then free
      else
        var victim := Oldest(b, 0);
        if victim < NR_SET && !b[victim].dirty then victim else NR_SET
  }

  // ---------- Installing and touching an entry

  /** A two-bit counter incremented in place. */
  function Bump(lru: nat): (r: nat) { (lru + 1) % 4 }

  /** Entry i replaced by e as most recently used; entries younger than the old one age by one. */
  function Install(b: Set, i: nat, e: Entry): (r: Set)
    requires i < NR_SET
  {
    seq(NR_SET, j requires 0 <= j < NR_SET =>
      if j == i then e.(lru := 0)
      else if b[j].lru < b[i].lru then b[j].(lru := Bump(b[j].lru))
      else b[j])
  }

  /** All dirty bits cleared, as after a flush. */
  function Cleaned(b: Set): (r: Set) {
    seq(NR_SET, j requires 0 <= j < NR_SET => b[j].(dirty := false))
  }

  /** A fingerprint that is not cached gets a free entry, or else the least recently used clean one. */
  lemma TargetOfMiss(b: Set, fp: nat)
    requires Sound(b) && Match(b, fp, 0) == NR_SET
    ensures Used(b) < NR_SET ==> Target(b, fp) == Used(b)
    ensures Used(b) == NR_SET ==>
      && Oldest(b, 0) < NR_SET
      && Target(b, fp) == if b[Oldest(b, 0)].dirty then NR_SET else Oldest(b, 0)
  {
    if Used(b) < NR_SET {
      assert FirstFree(b, 0) == Used(b);
    } else {
      OldestExists(b);
    }
  }

  /** Four distinct counters below four include the largest. */
  lemma OldestExists(b: Set)
    requires Sound(b) && Used(b) == NR_SET
    ensures Oldest(b, 0) < NR_SET
  {
    assert b[0].lru == 3 || b[1].lru == 3 || b[2].lru == 3 || b[3].lru == 3;
  }

  /** A cached fingerprint keeps its entry. */
  lemma TargetOfHit(b: Set, fp: nat)
    requires Sound(b) && Match(b, fp, 0) < NR_SET
    ensures Target(b, fp) == Match(b, fp, 0) < Used(b)
  {
  }

  lemma TargetCases(b: Set, fp: nat)
    requires Sound(b)
    ensures Match(b, fp, 0) < NR_SET ==> Target(b, fp) == Match(b, fp, 0) < Used(b)
    ensures Match(b, fp, 0) == NR_SET && Used(b) < NR_SET ==> Target(b, fp) == Used(b)
    ensures Match(b, fp, 0) == NR_SET && Used(b) == NR_SET ==>
      Oldest(b, 0) < NR_SET && Target(b, fp) == if b[Oldest(b, 0)].dirty then NR_SET else Oldest(b, 0)
  {
    if Match(b, fp, 0) < NR_SET { TargetOfHit(b, fp); } else { TargetOfMiss(b, fp); }
  }

  lemma CleanedIsSound(b: Set)
    requires Sound(b)
    ensures Sound(Cleaned(b)) && Used(Cleaned(b)) == Used(b)
    ensures forall i :: 0 <= i < NR_SET ==> Cleaned(b)[i] == b[i].(dirty := false)
  {
  }

  lemma CleanedMatches(b: Set, fp: nat, i: nat)
    requires i <= NR_SET
    ensures Match(Cleaned(b), fp, i) == Match(b, fp, i)
    decreases NR_SET - i
  {
    if i < NR_SET { CleanedMatches(b, fp, i + 1); }
  }

  /** Without dirty entries there is always a target, so a retry after a flush succeeds. */
  lemma CleanedHasTarget(b: Set, fp: nat)
    requires Sound(b)
    ensures Sound(Cleaned(b)) && Used(Cleaned(b)) == Used(b)
    ensures Target(Cleaned(b), fp) < NR_SET
    ensures Match(Cleaned(b), fp, 0) == Match(b, fp, 0)
  {
    CleanedIsSound(b);
    CleanedMatches(b, fp, 0);
    TargetCases(Cleaned(b), fp);
    hide Sound, Cleaned, Match;
  }

  predicate AllClean(b: Set) { forall i :: 0 <= i < NR_SET ==> !b[i].dirty }

  lemma CleanHasTarget(b: Set, fp: nat)
    requires Sound(b) && AllClean(b)
    ensures Target(b, fp) < NR_SET
  {
    TargetCases(b, fp);
    hide Sound, Match;
  }

  /** A hit writes no dirty bit, and every fingerprint stays where it was. */
  lemma HitKeepsMatches(b: Set, i: nat, fp: nat)
    requires Sound(b) && i < NR_SET && i == Match(b, b[i].fingerprint, 0)
    ensures Match(Install(b, i, b[i]), fp, 0) == Match(b, fp, 0)
    ensures AllClean(b) ==> AllClean(Install(b, i, b[i]))
  {
    TargetOfHit(b, b[i].fingerprint);
    InstallMatches(b, i, b[i], fp);
    InstallWrites(b, i, b[i]);
    hide Install, Target, Sound;
  }

  /** What an installation writes: no counter wraps. */
  lemma InstallWrites(b: Set, i: nat, e: Entry)
    requires Sound(b) && i < NR_SET
    ensures Install(b, i, e)[i] == e.(lru := 0)
    ensures forall j :: 0 <= j < NR_SET && j != i ==>
      Install(b, i, e)[j] == b[j].(lru := if b[j].lru < b[i].lru then b[j].lru + 1 else b[j].lru)
  {
    assert forall j :: 0 <= j < NR_SET ==> b[j].lru <= LRU_MAX;
  }

  lemma InstallUsed(b: Set, i: nat, e: Entry)
    requires Sound(b) && e.Valid() && i <= Used(b) && i < NR_SET
    ensures Used(Install(b, i, e)) == if i < Used(b) then Used(b) else Used(b) + 1
    ensures forall j :: 0 <= j < NR_SET ==> (Install(b, i, e)[j].Valid() <==> j < Used(Install(b, i, e)))
  {
    InstallWrites(b, i, e);
  }

  /** The counter an entry holds after an installation. */
  lemma InstallCounter(b: Set, i: nat, e: Entry, j: nat)
    requires Sound(b) && e.Valid() && i <= Used(b) && i < NR_SET && j < NR_SET
    ensures Install(b, i, e)[j].lru ==
      if j == i then 0 else if b[j].lru < b[i].lru then b[j].lru + 1 else b[j].lru
    ensures j < Used(Install(b, i, e)) ==> Install(b, i, e)[j].lru < Used(Install(b, i, e))
    ensures Used(Install(b, i, e)) <= j ==> Install(b, i, e)[j].lru == LRU_MAX
  {
    InstallWrites(b, i, e);
    InstallUsed(b, i, e);
    hide Install, Distinct, FreeAreBlank, Used;
  }

  /** Two valid entries hold different counters after an installation. */
  lemma InstallCountersDiffer(b: Set, i: nat, e: Entry, j: nat, k: nat)
    requires Sound(b) && e.Valid() && i <= Used(b) && i < NR_SET
    requires j < k < Used(Install(b, i, e))
    ensures Install(b, i, e)[j].lru != Install(b, i, e)[k].lru
  {
    InstallUsed(b, i, e);
    InstallCounter(b, i, e, j);
    InstallCounter(b, i, e, k);
    hide Install, Distinct, FreeAreBlank, Used, Packed;
  }

  lemma InstallCounted(b: Set, i: nat, e: Entry)
    requires Sound(b) && e.Valid() && i <= Used(b) && i < NR_SET
    ensures Counted(Install(b, i, e))
  {
    hide Install, Sound, Used;
    var r := Install(b, i, e);
    forall j | 0 <= j < NR_SET
      ensures j < Used(r) ==> r[j].lru < Used(r)
      ensures Used(r) <= j ==> r[j].lru == LRU_MAX
    {
      InstallCounter(b, i, e, j);
    }
    forall j, k | 0 <= j < k < Used(r)
      ensures r[j].lru != r[k].lru
    {
      InstallCountersDiffer(b, i, e, j, k);
    }
  }

  lemma InstallDistinct(b: Set, i: nat, e: Entry)
    requires Sound(b) && e.Valid() && i <= Used(b) && i < NR_SET
    requires forall j :: 0 <= j < Used(b) && j != i ==> b[j].fingerprint != e.fingerprint
    ensures Distinct(Install(b, i, e)) && FreeAreBlank(Install(b, i, e))
  {
    InstallWrites(b, i, e);
    InstallUsed(b, i, e);
  }

  /** Installing at the target keeps the bucket well formed. */
  lemma InstallKeepsSound(b: Set, i: nat, e: Entry)
    requires Sound(b) && e.Valid() && i == Target(b, e.fingerprint) < NR_SET
    ensures Sound(Install(b, i, e))
    ensures Used(Install(b, i, e)) == if i < Used(b) then Used(b) else Used(b) + 1
  {
    TargetIsOwn(b, e.fingerprint);
    InstallUsed(b, i, e);
    InstallCounted(b, i, e);
    InstallDistinct(b, i, e);
  }

  /** No other entry carries the fingerprint that the target is meant for. */
  lemma TargetIsOwn(b: Set, fp: nat)
    requires Sound(b) && Target(b, fp) < NR_SET
    ensures Target(b, fp) <= Used(b)
    ensures forall j :: 0 <= j < Used(b) && j != Target(b, fp) ==> b[j].fingerprint != fp
  {
    TargetCases(b, fp);
  }

  /** What lookups see after an installation: fp itself, the others except the entry that gave way. */
  lemma InstallMatches(b: Set, i: nat, e: Entry, g: nat)
    requires Sound(b) && e.Valid() && i == Target(b, e.fingerprint) < NR_SET
    ensures Match(Install(b, i, e), e.fingerprint, 0) == i
    ensures g != e.fingerprint && Match(b, g, 0) != i ==> Match(Install(b, i, e), g, 0) == Match(b, g, 0)
    ensures g != e.fingerprint && Match(b, g, 0) == i ==> Match(Install(b, i, e), g, 0) == NR_SET
  {
    InstallKeepsSound(b, i, e);
    InstallWrites(b, i, e);
    hide Install, Counted, FreeAreBlank;
    var r := Install(b, i, e);
    MatchIsUnique(r, i);
    var m := Match(b, g, 0);
    if g != e.fingerprint && m < NR_SET && m != i {
      MatchIsUnique(r, m);
    }
  }

  lemma MatchIsUnique(b: Set, i: nat)
    requires Sound(b) && i < NR_SET && b[i].Valid()
    ensures Match(b, b[i].fingerprint, 0) == i
  {
    var m := Match(b, b[i].fingerprint, 0);
    assert m <= i;
  }
}
