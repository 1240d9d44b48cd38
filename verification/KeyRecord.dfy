/** How a key is written at the head of its record, and how a record read from the log is compared with a key. */
module KeyRecord {
  import opened Common

  /** The bytes of a key; its length fits the one byte that stores it. */
  type Name = k: seq<Byte> | |k| < 256

  /** The buffer after its head was overwritten with the key's length and bytes. */
  function WithKey(k: Name, value: seq<Byte>): (r: seq<Byte>)
    requires |k| < |value|
    ensures |r| == |value|
  {
    [|k|] + k + value[1 + |k|..]
  }

  /** Which byte of the buffer is whose. */
  lemma WithKeyBytes(k: Name, value: seq<Byte>)
    requires |k| < |value|
    ensures var r := WithKey(k, value);
      && r[0] == |k| && r[1..1 + |k|] == k
      && forall i :: |k| < i < |r| ==> r[i] == value[i]
  {
  }

  /** strncmp from position i on: -1, 0 or 1, and no further than a NUL in both. */
  function StringCompare(a: seq<Byte>, b: seq<Byte>, n: nat, i: nat): (r: int)
    requires i <= n <= |a| && n <= |b|
    decreases n - i
  {
    if i == n then 0
    else if a[i] != b[i] then if a[i] < b[i] then -1 else 1
    else if a[i] == 0 then 0
    else StringCompare(a, b, n, i + 1)
  }

  /** The comparison of a key with the head of a buffer. */
  function KeyCompare(k: Name, value: seq<Byte>): (r: int)
    requires |k| < |value|
  {
    if |k| != value[0] then if |k| > value[0] then 1 else -1
    else StringCompare(k, value[1..], |k|, 0)
  }

  /** Equal from i up to m, where both strings end: at n, or at a NUL. */
  ghost predicate EndAt(a: seq<Byte>, b: seq<Byte>, n: nat, i: nat, m: nat)
    requires n <= |a| && n <= |b|
  {
    i <= m <= n && (m == n || (a[m] == 0 && b[m] == 0)) && forall j :: i <= j < m ==> a[j] == b[j]
  }

  /** Both strings agree up to and including the first NUL, or up to n. */
  ghost predicate SameString(a: seq<Byte>, b: seq<Byte>, n: nat, i: nat)
    requires n <= |a| && n <= |b|
  {
    exists m: nat :: EndAt(a, b, n, i, m)
  }

  lemma {:induction false} CompareIsSameString(a: seq<Byte>, b: seq<Byte>, n: nat, i: nat)
    requires i <= n <= |a| && n <= |b|
    ensures StringCompare(a, b, n, i) == 0 <==> SameString(a, b, n, i)
    decreases n - i
  {
    if i == n {
      assert EndAt(a, b, n, i, n);
    } else {
      var next := i + 1;
      CompareIsSameString(a, b, n, next);
      if m: nat :| EndAt(a, b, n, next, m) {
        assert a[i] == b[i] ==> EndAt(a, b, n, i, m);
      }
      if m: nat :| EndAt(a, b, n, i, m) {
        assert a[i] != 0 && i < m ==> EndAt(a, b, n, i + 1, m);
      }
      assert a[i] == b[i] == 0 ==> EndAt(a, b, n, i, i);
    }
  }

  /** A record written for one key matches another exactly when lengths agree and the strings do, up to a NUL. */
  lemma RecordMatches(k: Name, written: Name, value: seq<Byte>)
    requires |k| < |value| && |written| < |value|
    ensures KeyCompare(k, WithKey(written, value)) == 0 <==>
      |k| == |written| && SameString(k, written, |k|, 0)
  {
    if |k| == |written| {
      var v := WithKey(written, value)[1..];
      assert forall j :: 0 <= j < |k| ==> v[j] == written[j];
      CompareIsSameString(k, v, |k|, 0);
      if m: nat :| EndAt(k, v, |k|, 0, m) { assert EndAt(k, written, |k|, 0, m); }
      if m: nat :| EndAt(k, written, |k|, 0, m) { assert EndAt(k, v, |k|, 0, m); }
    }
  }

  /** Without NUL bytes a record identifies its key. */
  lemma RecordIdentifiesKey(k: Name, written: Name, value: seq<Byte>)
    requires |k| < |value| && |written| < |value| && 0 !in k
    ensures KeyCompare(k, WithKey(written, value)) == 0 <==> k == written
  {
    RecordMatches(k, written, value);
    if k == written { assert EndAt(k, written, |k|, 0, |k|); }
  }

  /** With a NUL byte two different keys can pass for each other. */
  lemma NulKeysCollide(value: seq<Byte>)
    requires |value| > 2
    ensures KeyCompare([0, 1], WithKey([0, 2], value)) == 0
  {
  }

  /** A buffer of zeros, as a request starts with, matches the empty key only. */
  lemma ZeroBufferMatchesEmptyKey(k: Name, value: seq<Byte>)
    requires |k| < |value| && forall i :: 0 <= i < |value| ==> value[i] == 0
    ensures KeyCompare(k, value) == 0 <==> k == []
  {
  }

  // ---------- The key at the head of a buffer

  /** The key that the head of a buffer spells; a buffer that is too short for its length byte spells none. */
  function NameAt(buf: seq<Byte>): (r: Option<Name>) {
    if |buf| == 0 || |buf| <= buf[0] then None else Some(buf[1..1 + buf[0]])
  }

  lemma NameAtHead(k: Name, value: seq<Byte>)
    requires |k| < |value|
    ensures NameAt(WithKey(k, value)) == Some(k)
  {
    assert WithKey(k, value)[1..1 + |k|] == k;
  }

  /** Copying a key over the head changes nothing exactly when the head spells it already. */
  lemma HeadIsKept(k: Name, value: seq<Byte>)
    requires |k| < |value|
    ensures WithKey(k, value) == value <==> NameAt(value) == Some(k)
  {
    NameAtHead(k, value);
    if NameAt(value) == Some(k) {
      assert value == [value[0]] + value[1..1 + |k|] + value[1 + |k|..];
    }
  }

  lemma NameAtPrefix(buf: seq<Byte>, n: nat, k: Name)
    requires NameAt(buf) == Some(k) && |k| < n <= |buf|
    ensures NameAt(buf[..n]) == Some(k)
  {
    assert buf[..n][1..1 + buf[0]] == buf[1..1 + buf[0]];
  }

  /** For a key without NUL bytes the comparison succeeds exactly when the buffer spells that key. */
  lemma CompareIsName(k: Name, value: seq<Byte>)
    requires |k| < |value| && 0 !in k
    ensures KeyCompare(k, value) == 0 <==> NameAt(value) == Some(k)
  {
    if |k| == value[0] {
      var v, name := value[1..], value[1..1 + |k|];
      CompareIsSameString(k, v, |k|, 0);
      if m: nat :| EndAt(k, v, |k|, 0, m) {
        assert m == |k|;
        assert forall j :: 0 <= j < |k| ==> k[j] == v[j] == name[j];
        assert k == name;
      }
      if k == name {
        assert forall j :: 0 <= j < |k| ==> k[j] == name[j] == v[j];
        assert EndAt(k, v, |k|, 0, |k|);
      }
    }
  }

  /** A buffer of zeros spells the empty key. */
  lemma ZerosSpellNothing(value: seq<Byte>)
    requires 0 < |value| && forall i :: 0 <= i < |value| ==> value[i] == 0
    ensures NameAt(value) == Some([])
  {
  }

  // ---------- In place

  method CopyKeyToValue(k: Name, value: array<Byte>)
    requires |k| < value.Length
    modifies value
    ensures value[..] == WithKey(k, old(value[..]))
  {
    value[0] := |k|;
    for i := 0 to |k|
      invariant value[0] == |k|
      invariant forall j :: 0 <= j < i ==> value[1 + j] == k[j]
      invariant forall j :: 1 + i <= j < value.Length ==> value[j] == old(value[j])
    {
      value[1 + i] := k[i];
    }
  }

  method CompareKeyWithValue(k: Name, value: array<Byte>) returns (r: int)
    requires |k| < value.Length
    ensures r == KeyCompare(k, value[..])
  {
    if |k| != value[0] {
      return if |k| > value[0] then 1 else -1;
    }
    for i := 0 to |k|
      invariant KeyCompare(k, value[..]) == StringCompare(k, value[1..], |k|, i)
    {
      assert value[1..][i] == value[1 + i];
      if k[i] != value[1 + i] { return if k[i] < value[1 + i] then -1 else 1; }
      if k[i] == 0 { return 0; }
    }
    r := 0;
  }
}
