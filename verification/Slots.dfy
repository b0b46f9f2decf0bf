/** Which of the 16384 slots a key belongs to: hash tags and CRC-16/XMODEM. */
module Slots {
  import opened Bytes

  const SLOTS: nat := 16384
  const OPEN: byte := 123   // '{'
  const CLOSE: byte := 125  // '}'

  /** CRC-16/XMODEM: polynomial 0x1021, initial value 0, most significant bit first. */
  function Shift(c: bv16): bv16 {
    if c & 0x8000 != 0 then (c << 1) ^ 0x1021 else c << 1
  }

  function CrcBits(c: bv16, n: nat): bv16
    decreases n
  {
    if n == 0 then c else CrcBits(Shift(c), n - 1)
  }

  function Crc16(s: Str, n: nat): bv16
    requires n <= |s|
  {
    if n == 0 then 0 else CrcBits(Crc16(s, n - 1) ^ ((s[n - 1] as bv16) << 8), 8)
  }

  /** The first `c` from `i` on, or the length. */
  function IndexByte(s: Str, c: byte, i: nat): (k: nat)
    requires i <= |s|
    ensures i <= k <= |s|
    decreases |s| - i
  {
    if i == |s| || s[i] == c then i else IndexByte(s, c, i + 1)
  }

  /** The part of the key that is hashed. */
  function HashedPart(key: Str): Str {
    var start := IndexByte(key, OPEN, 0);
    if start == |key| then key
    else
      var end := IndexByte(key, CLOSE, start + 1);
      if end < |key| && end > start + 1 then Sub(key, start + 1, end) else key
  }

  function SlotForKey(key: Str): (slot: nat)
    ensures slot < SLOTS
  {
    var part := HashedPart(key);
    (Crc16(part, |part|) as int) % SLOTS
  }

  /** The section "Hash tags" of the Redis Cluster specification: where the tag stands, if there is one. */
  predicate TaggedAt(key: Str, i: nat, j: nat) {
    && i + 1 < j < |key| && key[i] == 123 && key[j] == 125
    && (forall k :: 0 <= k < i ==> key[k] != 123)
    && (forall k :: i < k < j ==> key[k] != 125)
  }

  lemma {:induction false} IndexByteFirst(s: Str, c: byte, i: nat)
    requires i <= |s|
    ensures var k := IndexByte(s, c, i);
            (forall m :: i <= m < k ==> s[m] != c) && (k < |s| ==> s[k] == c)
    decreases |s| - i
  {
    if i < |s| && s[i] != c { IndexByteFirst(s, c, i + 1); }
  }

  /** Exactly the tag is hashed where the specification sees one. */
  lemma {:induction false} TagIsHashed(key: Str, i: nat, j: nat)
    requires TaggedAt(key, i, j)
    ensures HashedPart(key) == Sub(key, i + 1, j)
  {
    hide Sub;
    IndexByteFirst(key, OPEN, 0);
    var start := IndexByte(key, OPEN, 0);
    assert start == i;
    IndexByteFirst(key, CLOSE, start + 1);
    assert IndexByte(key, CLOSE, start + 1) == j;
  }

  /** A key without a tag is hashed whole. */
  lemma {:induction false} UntaggedIsHashedWhole(key: Str)
    requires forall i: nat, j: nat :: !TaggedAt(key, i, j)
    ensures HashedPart(key) == key
  {
    hide Sub;
    IndexByteFirst(key, OPEN, 0);
    var start := IndexByte(key, OPEN, 0);
    if start < |key| {
      IndexByteFirst(key, CLOSE, start + 1);
      assert !TaggedAt(key, start, IndexByte(key, CLOSE, start + 1));
    }
  }

  /** Keys with the same tag share a slot, whatever surrounds it. */
  lemma {:induction false} SameTagSameSlot(a: Str, i: nat, j: nat, b: Str, k: nat, l: nat)
    requires TaggedAt(a, i, j) && TaggedAt(b, k, l) && Sub(a, i + 1, j) == Sub(b, k + 1, l)
    ensures SlotForKey(a) == SlotForKey(b)
  {
    hide HashedPart, Sub;
    TagIsHashed(a, i, j);
    TagIsHashed(b, k, l);
  }

  lemma {:induction false} EightShifts(c: bv16)
    ensures CrcBits(c, 8) == Shift(Shift(Shift(Shift(Shift(Shift(Shift(Shift(c))))))))
  {
    hide Shift;
    var d := Shift(Shift(Shift(Shift(c))));
    assert CrcBits(c, 8) == CrcBits(Shift(Shift(c)), 6);
    assert CrcBits(Shift(Shift(c)), 6) == CrcBits(d, 4);
    assert CrcBits(d, 4) == CrcBits(Shift(Shift(d)), 2);
  }

  /** The checksums of "f", "fo" and "foo". */
  lemma {:induction false} CrcOfFoo()
    ensures CrcBits(0x6600, 8) == 0xc60 && CrcBits(0x6360, 8) == 0x3cc5 && CrcBits(0x53c5, 8) == 0xaf96
  {
    EightShifts(0x6600);
    EightShifts(0x6360);
    EightShifts(0x53c5);
  }

  /** The empty key is in slot 0, and "foo" in 12182, as in Redis Cluster. */
  lemma {:induction false} SlotsDiffer()
    ensures SlotForKey([]) == 0 && SlotForKey([102, 111, 111]) == 12182
  {
    hide CrcBits, IndexByte;
    var foo: Str := [102, 111, 111];
    CrcOfFoo();
    UntaggedIsHashedWhole(foo);
    UntaggedIsHashedWhole([]);
    assert Crc16(foo, 1) == CrcBits(0 ^ ((102 as bv16) << 8), 8);
    assert Crc16(foo, 2) == CrcBits(0xc60 ^ ((111 as bv16) << 8), 8);
    assert Crc16(foo, 3) == CrcBits(0x3cc5 ^ ((111 as bv16) << 8), 8);
  }
}
