/** Slot bitmaps: 256 words of 64 bits, one bit per slot, and the number of set bits. */
module Bitmap {
  import opened Slots

  const WORDS: nat := 256

  // ----- one word

  function Pow2(k: nat): (p: nat)
    ensures p > 0
  {
    if k == 0 then 1 else 2 * Pow2(k - 1)
  }

  /** w & (1 << b) != 0. */
  predicate Bit(w: nat, b: nat)
    decreases b
  {
    if b == 0 then w % 2 == 1 else Bit(w / 2, b - 1)
  }

  /** w | (1 << b). */
  function SetBit(w: nat, b: nat): nat
    decreases b
  {
    if b == 0 then w / 2 * 2 + 1 else SetBit(w / 2, b - 1) * 2 + w % 2
  }

  /** w &^ (1 << b). */
  function ClearBit(w: nat, b: nat): nat
    decreases b
  {
    if b == 0 then w / 2 * 2 else ClearBit(w / 2, b - 1) * 2 + w % 2
  }

  /** Bits count from the least significant one. */
  lemma {:induction false} BitIs(w: nat, b: nat)
    ensures Bit(w, b) <==> w / Pow2(b) % 2 == 1
    decreases b
  {
    if b > 0 {
      BitIs(w / 2, b - 1);
      DivTwice(w, Pow2(b - 1));
    }
  }

  lemma {:induction false} DivTwice(w: nat, p: nat)
    requires p > 0
    ensures w / (2 * p) == w / 2 / p
  {
    var q, r := w / 2 / p, w / 2 % p;
    assert w / 2 == q * p + r;
    assert w == q * (2 * p) + (2 * r + w % 2);
    DivUnique(w, 2 * p, q, 2 * r + w % 2);
  }

  lemma {:induction false} DivUnique(w: int, d: int, q: int, r: int)
    requires d > 0 && w == q * d + r && 0 <= r < d
    ensures w / d == q
  {
    var p := w / d;
    assert w == p * d + w % d;
    if p < q {
      Whole(d, q - p);
    } else if q < p {
      Whole(d, p - q);
    }
    assert (q - p) * d == q * d - p * d;
  }

  lemma {:induction false} Whole(d: int, k: int)
    requires d > 0 && k > 0
    ensures k * d >= d
  {
    assert k * d == (k - 1) * d + d;
  }

  /** Bits of a number put together from a higher part and `k` lower bits. */
  lemma {:induction false} BitOfSum(x: nat, y: nat, k: nat, b: nat)
    requires y < Pow2(k)
    ensures Bit(x * Pow2(k) + y, b) <==> if b < k then Bit(y, b) else Bit(x, b - k)
    decreases k
  {
    if k > 0 {
      var p := Pow2(k - 1);
      assert x * (2 * p) == 2 * (x * p);
      if b > 0 { BitOfSum(x, y / 2, k - 1, b - 1); }
    }
  }

  lemma {:induction false} BitOfSet(w: nat, b: nat, c: nat)
    ensures Bit(SetBit(w, b), c) <==> c == b || Bit(w, c)
    decreases b
  {
    if b > 0 && c > 0 { BitOfSet(w / 2, b - 1, c - 1); }
  }

  lemma {:induction false} BitOfClear(w: nat, b: nat, c: nat)
    ensures Bit(ClearBit(w, b), c) <==> c != b && Bit(w, c)
    decreases b
  {
    if b > 0 && c > 0 { BitOfClear(w / 2, b - 1, c - 1); }
  }

  lemma {:induction false} SetBitFits(w: nat, b: nat, k: nat)
    requires w < Pow2(k) && b < k
    ensures SetBit(w, b) < Pow2(k) && ClearBit(w, b) < Pow2(k)
    decreases b
  {
    if b > 0 { SetBitFits(w / 2, b - 1, k - 1); }
  }

  /** bits.OnesCount64: the set bits among the lowest `k`. */
  function OnesCount(w: nat, k: nat): (n: nat)
    ensures n <= k
    decreases k
  {
    if k == 0 then 0 else OnesCount(w, k - 1) + if Bit(w, k - 1) then 1 else 0
  }

  // ----- the whole bitmap

  predicate IsWord(w: nat) {
    w < Pow2(64)
  }

  /** [256]uint64. */
  type Words = ws: seq<nat> | |ws| == WORDS && forall i :: 0 <= i < |ws| ==> IsWord(ws[i]) witness seq(WORDS, _ => 0)

  predicate Has(ws: Words, slot: nat)
    requires slot < SLOTS
  {
    Bit(ws[slot / 64], slot % 64)
  }

  /** Slot s is the bit of value 2 to the (s mod 64) in word s / 64. */
  lemma {:induction false} HasIs(ws: Words, slot: nat)
    requires slot < 16384
    ensures Has(ws, slot) <==> ws[slot / 64] / Pow2(slot % 64) % 2 == 1
  {
    BitIs(ws[slot / 64], slot % 64);
  }

  function Add(ws: Words, slot: nat): (r: Words)
    requires slot < SLOTS
  {
    SetBitFits(ws[slot / 64], slot % 64, 64);
    ws[slot / 64 := SetBit(ws[slot / 64], slot % 64)]
  }

  function Remove(ws: Words, slot: nat): (r: Words)
    requires slot < SLOTS
  {
    SetBitFits(ws[slot / 64], slot % 64, 64);
    ws[slot / 64 := ClearBit(ws[slot / 64], slot % 64)]
  }

  lemma {:induction false} HasAfterAdd(ws: Words, slot: nat, s: nat)
    requires slot < SLOTS && s < SLOTS
    ensures Has(Add(ws, slot), s) <==> s == slot || Has(ws, s)
  {
    hide Bit, SetBit;
    BitOfSet(ws[slot / 64], slot % 64, s % 64);
  }

  lemma {:induction false} HasAfterRemove(ws: Words, slot: nat, s: nat)
    requires slot < SLOTS && s < SLOTS
    ensures Has(Remove(ws, slot), s) <==> s != slot && Has(ws, s)
  {
    hide Bit, ClearBit;
    BitOfClear(ws[slot / 64], slot % 64, s % 64);
  }

  /** The slots of the bitmap. */
  ghost function Owned(ws: Words): set<nat> {
    set s: nat | s < SLOTS && Has(ws, s)
  }

  /** The slots below `n`. */
  ghost function OwnedBelow(ws: Words, n: nat): set<nat>
    requires n <= SLOTS
  {
    set s: nat | s < n && Has(ws, s)
  }

  lemma {:induction false} OwnedBelowGrows(ws: Words, n: nat)
    requires n < SLOTS
    ensures |OwnedBelow(ws, n + 1)| == |OwnedBelow(ws, n)| + if Has(ws, n) then 1 else 0
  {
    hide Has;
    if Has(ws, n) {
      assert OwnedBelow(ws, n + 1) == OwnedBelow(ws, n) + {n};
    } else {
      assert OwnedBelow(ws, n + 1) == OwnedBelow(ws, n);
    }
  }

  /** The slots from `a` up to, not including, `b`. */
  function Interval(a: nat, b: nat): (r: set<nat>)
    ensures forall s :: s in r <==> a <= s < b
  {
    if b <= a then {} else Interval(a, b - 1) + {b - 1}
  }

  /** One word's set bits are the slots it stands for. */
  lemma {:induction false} WordCount(ws: Words, i: nat, k: nat)
    requires i < WORDS && k <= 64
    ensures |OwnedBelow(ws, 64 * i + k)| == |OwnedBelow(ws, 64 * i)| + OnesCount(ws[i], k)
  {
    hide Bit, OwnedBelow;
    if k > 0 {
      WordCount(ws, i, k - 1);
      OwnedBelowGrows(ws, 64 * i + k - 1);
    }
  }

  /** countSlots returns the number of slots in the bitmap. */
  method CountSlots(ws: Words) returns (count: nat)
    ensures count == |Owned(ws)|
  {
    hide Has, OnesCount;
    count := 0;
    assert OwnedBelow(ws, 0) == {};
    for i := 0 to WORDS
      invariant count == |OwnedBelow(ws, 64 * i)|
    {
      WordCount(ws, i, 64);
      count := count + OnesCount(ws[i], 64);
    }
    assert OwnedBelow(ws, SLOTS) == Owned(ws);
  }

  lemma {:induction false} OwnedAfterAdd(ws: Words, slot: nat)
    requires slot < SLOTS
    ensures Owned(Add(ws, slot)) == Owned(ws) + {slot}
  {
    hide Has, Add;
    forall s: nat | s < SLOTS ensures s in Owned(Add(ws, slot)) <==> s in Owned(ws) + {slot} {
      HasAfterAdd(ws, slot, s);
    }
  }

  lemma {:induction false} OwnedAfterRemove(ws: Words, slot: nat)
    requires slot < SLOTS
    ensures Owned(Remove(ws, slot)) == Owned(ws) - {slot}
  {
    hide Has, Remove;
    forall s: nat | s < SLOTS ensures s in Owned(Remove(ws, slot)) <==> s in Owned(ws) - {slot} {
      HasAfterRemove(ws, slot, s);
    }
  }

  lemma {:induction false} IntervalGrows(a: nat, b: nat)
    requires a <= b
    ensures Interval(a, b + 1) == Interval(a, b) + {b} && Interval(a, a) == {}
  {
  }

  lemma {:induction false} IntervalEmpty(a: nat, b: nat)
    requires b <= a
    ensures Interval(a, b) == {}
  {
  }

  /** The loop of AddSlotRange: one bit after the other. */
  method AddRange(ws: Words, start: nat, end: nat) returns (r: Words)
    requires end < SLOTS
    ensures Owned(r) == Owned(ws) + Interval(start, end + 1)
  {
    hide Owned, Add, Interval;
    r := ws;
    if start > end {
      IntervalEmpty(start, end + 1);
      return;
    }
    IntervalGrows(start, start);
    for slot := start to end + 1
      invariant Owned(r) == Owned(ws) + Interval(start, slot)
    {
      OwnedAfterAdd(r, slot);
      IntervalGrows(start, slot);
      r := Add(r, slot);
    }
  }
}
