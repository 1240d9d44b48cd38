/** The layout of a partition table on flash: sixteen bytes a slot, numbers with their lowest byte first. */
module TableBytes {
  import opened Common
  import opened PartTable

  const SLOT_BYTES: nat := 16

  /** What the bit fields of a slot can hold: 64, 8, 14 and 42 bits. */
  const FINGERPRINT_LIMIT: nat := 0x1_0000_0000_0000_0000
  const KV_SIZE_LIMIT: nat := 0x4000
  const PBA_LIMIT: nat := 0x400_0000_0000

  predicate InFields(s: Slot) {
    s.fingerprint < FINGERPRINT_LIMIT && s.offset < OFFSET_LIMIT && s.kvSize < KV_SIZE_LIMIT && s.pba < PBA_LIMIT
  }

  // ---------- Numbers

  function Power(n: nat): (p: nat)
    ensures p > 0
  {
    if n == 0 then 1 else 256 * Power(n - 1)
  }

  /** The n lowest bytes of a number. */
  function Low(n: nat, x: nat): (r: seq<Byte>)
    ensures |r| == n
  {
    if n == 0 then [] else [x % 256] + Low(n - 1, x / 256)
  }

  function Number(bytes: seq<Byte>): (x: nat)
    ensures x < Power(|bytes|)
  {
    if bytes == [] then 0 else bytes[0] + 256 * Number(bytes[1..])
  }

  lemma {:induction false} NumberOfLow(n: nat, x: nat)
    requires x < Power(n)
    ensures Number(Low(n, x)) == x
  {
    if n > 0 {
      NumberOfLow(n - 1, x / 256);
      assert Low(n, x)[1..] == Low(n - 1, x / 256);
    }
  }

  lemma EightBytes()
    ensures Power(8) == FINGERPRINT_LIMIT
  {
    assert Power(1) == 256;
    assert Power(2) == 0x1_0000;
    assert Power(4) == 0x1_0000_0000;
    assert Power(6) == 0x1_0000_0000_0000;
  }

  // ---------- Slots

  /** The second word of a slot: offset, size and address, from the lowest bit up. */
  function Word(s: Slot): (w: nat) { s.offset + 0x100 * s.kvSize + 0x40_0000 * s.pba }

  function FromWords(fingerprint: nat, w: nat): (s: Slot) {
    Slot(fingerprint, w % 0x100, w / 0x100 % KV_SIZE_LIMIT, w / 0x40_0000 % PBA_LIMIT)
  }

  lemma WordRoundTrip(s: Slot)
    requires InFields(s)
    ensures Word(s) < FINGERPRINT_LIMIT && FromWords(s.fingerprint, Word(s)) == s
  {
    assert Word(s) / 0x100 == s.kvSize + 0x4000 * s.pba;
    assert Word(s) / 0x40_0000 == s.pba;
  }

  function SlotBytes(s: Slot): (r: seq<Byte>)
    ensures |r| == SLOT_BYTES
  {
    Low(8, s.fingerprint) + Low(8, Word(s))
  }

  function SlotFrom(bytes: seq<Byte>): (s: Slot)
    requires |bytes| == SLOT_BYTES
    ensures InFields(s)
  {
    EightBytes();
    FromWords(Number(bytes[..8]), Number(bytes[8..]))
  }

  /** Which bits of a slot are whose: the fingerprint's word first, then offset, size and address from the lowest bit up. */
  lemma SlotLayout(s: Slot)
    requires InFields(s)
    ensures Number(SlotBytes(s)[..8]) == s.fingerprint
    ensures var w := Number(SlotBytes(s)[8..]);
      w % 0x100 == s.offset && w / 0x100 % 0x4000 == s.kvSize && w / 0x40_0000 == s.pba
  {
    EightBytes();
    WordRoundTrip(s);
    NumberOfLow(8, s.fingerprint);
    NumberOfLow(8, Word(s));
    assert SlotBytes(s)[..8] == Low(8, s.fingerprint) && SlotBytes(s)[8..] == Low(8, Word(s));
  }

  lemma SlotRoundTrip(s: Slot)
    requires InFields(s)
    ensures SlotFrom(SlotBytes(s)) == s
  {
    SlotLayout(s);
    hide SlotBytes, Number, Power;
  }

  // ---------- Tables

  predicate TableInFields(t: Table) { forall i :: 0 <= i < |t| ==> InFields(t[i]) }

  function BytesOf(t: Table): (r: seq<Byte>)
    ensures |r| == SLOT_BYTES * |t|
  {
    if t == [] then [] else BytesOf(t[..|t| - 1]) + SlotBytes(t[|t| - 1])
  }

  /** The table of n slots that a buffer holds; what is missing reads as zeros. */
  function TableAt(n: nat, bytes: seq<Byte>): (t: Table)
    ensures |t| == n
    ensures TableInFields(t)
  {
    seq(n, i requires 0 <= i < n =>
      if SLOT_BYTES * i + SLOT_BYTES <= |bytes| then SlotFrom(bytes[SLOT_BYTES * i..SLOT_BYTES * i + SLOT_BYTES])
      else Slot(0, 0, 0, 0))
  }

  lemma {:induction false} SlotInTable(t: Table, i: nat)
    requires i < |t|
    ensures BytesOf(t)[SLOT_BYTES * i..SLOT_BYTES * i + SLOT_BYTES] == SlotBytes(t[i])
    decreases |t|
  {
    var rest := t[..|t| - 1];
    if i < |t| - 1 {
      SlotInTable(rest, i);
      assert BytesOf(t)[SLOT_BYTES * i..SLOT_BYTES * i + SLOT_BYTES]
          == BytesOf(rest)[SLOT_BYTES * i..SLOT_BYTES * i + SLOT_BYTES];
    }
  }

  /** Only the bytes of the table itself count. */
  lemma TableOfPrefix(n: nat, bytes: seq<Byte>, buf: seq<Byte>)
    requires |bytes| == SLOT_BYTES * n && bytes <= buf
    ensures TableAt(n, buf) == TableAt(n, bytes)
  {
    hide SlotFrom;
    forall i | 0 <= i < n
      ensures TableAt(n, buf)[i] == TableAt(n, bytes)[i]
    {
      assert buf[SLOT_BYTES * i..SLOT_BYTES * i + SLOT_BYTES] == bytes[SLOT_BYTES * i..SLOT_BYTES * i + SLOT_BYTES];
    }
  }

  /** A table that fits its bit fields comes back from its bytes, whatever stands behind them in the buffer. */
  lemma TableRoundTrip(t: Table, buf: seq<Byte>)
    requires TableInFields(t) && BytesOf(t) <= buf
    ensures TableAt(|t|, buf) == t
  {
    hide SlotFrom, SlotBytes, InFields, BytesOf;
    TableOfPrefix(|t|, BytesOf(t), buf);
    forall i | 0 <= i < |t|
      ensures TableAt(|t|, BytesOf(t))[i] == t[i]
    {
      SlotInTable(t, i);
      SlotRoundTrip(t[i]);
    }
  }

  // ---------- Insertions stay within the fields

  ghost predicate ItemsInFields(items: seq<Item>) {
    forall x :: x in items ==>
      x.fingerprint < FINGERPRINT_LIMIT && x.loc.kvSize < KV_SIZE_LIMIT && x.loc.pba < PBA_LIMIT
  }

  lemma {:induction false} InsertAllInFields(t: Table, hops: nat, items: seq<Item>)
    requires Sized(t, hops) && TableInFields(t) && ItemsInFields(items)
    ensures InsertAll(t, hops, items).Room? ==> TableInFields(InsertAll(t, hops, items).table)
    decreases |items|
  {
    if items != [] {
      var last := |items| - 1;
      InsertAllInFields(t, hops, items[..last]);
      assert items[last] in items;
    }
  }
}
