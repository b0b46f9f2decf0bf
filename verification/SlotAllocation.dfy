/**
 Creating a cluster: the slots are cut into one range per node. The ranges are those of exact
 arithmetic, although the loops compute them in floating point.
 */
module SlotAllocation {
  import opened Slots
  import opened Bitmap

  /** math.Round: halves away from zero. */
  function Round(x: real): int {
    if x >= 0.0 then (x + 0.5).Floor else -((-x + 0.5).Floor)
  }

  function PerNode(n: nat): real
    requires n > 0
  {
    SLOTS as real / n as real
  }

  /** The cursor before the i-th node. */
  function Cursor(n: nat, i: nat): real
    requires n > 0
  {
    if i == 0 then 0.0 else Cursor(n, i - 1) + PerNode(n)
  }

  /** The range of the i-th of `n` nodes runs from First to the slot before the next First. */
  function First(n: nat, i: nat): int
    requires n > 0
  {
    Round(Cursor(n, i))
  }

  lemma {:induction false} CursorIs(n: nat, i: nat)
    requires n > 0
    ensures Cursor(n, i) * n as real == SLOTS as real * i as real
  {
    if i > 0 {
      CursorIs(n, i - 1);
      var p, c, m := PerNode(n), Cursor(n, i - 1), n as real;
      assert p * m == SLOTS as real;
      assert (c + p) * m == c * m + p * m;
      assert SLOTS as real * i as real == SLOTS as real * (i - 1) as real + SLOTS as real;
    }
  }

  lemma {:induction false} CursorEnds(n: nat)
    requires n > 0
    ensures Cursor(n, n) == SLOTS as real
  {
    CursorIs(n, n);
    var c, m, t := Cursor(n, n), n as real, SLOTS as real;
    assert (c - t) * m == 0.0;
  }

  lemma {:induction false} CursorGrows(n: nat, i: nat, j: nat)
    requires n > 0 && i <= j
    ensures 0.0 <= Cursor(n, i) <= Cursor(n, j)
    decreases j
  {
    if i < j { CursorGrows(n, i, j - 1); } else if i > 0 { CursorGrows(n, i - 1, i - 1); }
  }

  /** Rounding two cursors one share apart leaves a range of the share, rounded down or up. */
  lemma {:induction false} RoundGap(c: real, d: real)
    requires c >= 0.0 && d >= 0.0
    ensures d.Floor <= Round(c + d) - Round(c) <= (if d == d.Floor as real then d.Floor else d.Floor + 1)
  {
  }

  lemma {:induction false} Cancel(a: real, b: real, m: real)
    requires m > 0.0
    ensures a * m <= b * m ==> a <= b
    ensures a * m < b * m ==> a < b
    ensures a * m == b * m ==> a == b
  {
    assert a * m - b * m == (a - b) * m;
    if a > b { assert (a - b) * m > 0.0; }
    if a < b { assert (b - a) * m > 0.0; }
  }

  lemma {:induction false} ProductIsReal(a: int, b: int)
    ensures a as real * b as real == (a * b) as real
  {
  }

  lemma {:induction false} PerNodeFloor(n: nat)
    requires n > 0
    ensures PerNode(n).Floor == SLOTS / n
    ensures PerNode(n) == PerNode(n).Floor as real <==> SLOTS % n == 0
  {
    var p, m, q := PerNode(n), n as real, SLOTS / n;
    assert p * m == SLOTS as real;
    assert SLOTS == q * n + SLOTS % n;
    assert (q + 1) * n == q * n + n;
    ProductIsReal(q, n);
    ProductIsReal(q + 1, n);
    Cancel(q as real, p, m);
    Cancel(p, (q + 1) as real, m);
    Cancel(p, q as real, m);
  }

  /** Every range has the floor or the ceiling of the average size, and so at least one slot. */
  lemma {:induction false} RangeSizes(n: nat, i: nat)
    requires 0 < n <= SLOTS && i < n
    ensures SLOTS / n <= First(n, i + 1) - First(n, i) <= SLOTS / n + (if SLOTS % n == 0 then 0 else 1)
    ensures First(n, i) < First(n, i + 1)
  {
    CursorGrows(n, i, i);
    PerNodeFloor(n);
    CursorGrows(n, 0, 1);
    assert PerNode(n) >= 0.0 by { assert Cursor(n, 1) == Cursor(n, 0) + PerNode(n); }
    RoundGap(Cursor(n, i), PerNode(n));
    assert SLOTS / n >= 1;
  }

  /** The ranges start at the first slot and end at the last. */
  lemma {:induction false} RangeEnds(n: nat)
    requires 0 < n <= SLOTS
    ensures First(n, 0) == 0 && First(n, n) == SLOTS
  {
    CursorEnds(n);
  }

  lemma {:induction false} FirstGrows(n: nat, i: nat, j: nat)
    requires 0 < n <= SLOTS && i <= j <= n
    ensures First(n, i) <= First(n, j)
    decreases j
  {
    if i < j {
      FirstGrows(n, i, j - 1);
      RangeSizes(n, j - 1);
    }
  }

  /** Every slot is in exactly one range. */
  lemma {:induction false} RangesPartition(n: nat, s: nat) returns (i: nat)
    requires 0 < n <= SLOTS && s < SLOTS
    ensures i < n && First(n, i) <= s < First(n, i + 1)
    ensures forall j: nat :: j < n && j != i ==> !(First(n, j) <= s < First(n, j + 1))
  {
    hide First;
    RangeEnds(n);
    i := n - 1;
    while s < First(n, i)
      invariant i < n && s < First(n, i + 1)
      decreases i
    {
      assert i > 0 by { assert First(n, 0) == 0; }
      i := i - 1;
    }
    forall j: nat | j < n && j != i ensures !(First(n, j) <= s < First(n, j + 1)) {
      if j < i { FirstGrows(n, j + 1, i); } else { FirstGrows(n, i + 1, j); }
    }
  }

  // ----- floating point

  function Abs(x: real): real {
    if x < 0.0 then -x else x
  }

  /** Rounding to float64: off by at most 2 to the -53 of the result, with a margin for results near zero. */
  ghost predicate Accurate(fl: real -> real) {
    forall x: real :: Abs(fl(x) - x) <= (Abs(x) + 1.0) / 9007199254740992.0
  }

  /** The loops' cursor before the i-th node, every operation rounded by `fl`. */
  function FloatCursor(fl: real -> real, n: nat, i: nat): real
    requires n > 0
  {
    if i == 0 then 0.0 else fl(FloatCursor(fl, n, i - 1) + fl(PerNode(n)))
  }

  /** What the cursor of the i-th node can be off by: 2 to the -36 per node. */
  function Drift(i: nat): real {
    i as real / 68719476736.0
  }

  lemma {:induction false} PerNodeBound(n: nat)
    requires n > 0
    ensures 0.0 <= PerNode(n) <= SLOTS as real
  {
    var p, m := PerNode(n), n as real;
    assert p * m == SLOTS as real;
    Cancel(p, SLOTS as real, m);
    Cancel(0.0, p, m);
    assert SLOTS as real * m >= SLOTS as real;
  }

  /** Rounding one operation on numbers of the size of the slot table. */
  lemma {:induction false} OneRounding(fl: real -> real, x: real)
    requires Accurate(fl) && -1.0 <= x <= 32769.0
    ensures Abs(fl(x) - x) <= Drift(1) / 2.0
  {
    assert Abs(fl(x) - x) <= (Abs(x) + 1.0) / 9007199254740992.0;
  }

  /** One step: the drift so far, the rounded share and the rounding of the sum. */
  lemma {:induction false} OneStep(fl: real -> real, f: real, c: real, share: real, i: nat)
    requires Accurate(fl) && i < SLOTS && Abs(f - c) <= Drift(i) && 0.0 <= c && 0.0 <= share &&
      c + share <= SLOTS as real
    ensures Abs(fl(f + fl(share)) - (c + share)) <= Drift(i + 1)
  {
    hide Accurate;
    OneRounding(fl, share);
    OneRounding(fl, f + fl(share));
  }

  /** The loops' cursor drifts away from the exact one by at most that much per node. */
  lemma {:induction false} CursorDrifts(fl: real -> real, n: nat, i: nat)
    requires Accurate(fl) && 0 < n <= SLOTS && i <= n
    ensures Abs(FloatCursor(fl, n, i) - Cursor(n, i)) <= Drift(i)
  {
    hide Accurate, PerNode;
    if i > 0 {
      CursorDrifts(fl, n, i - 1);
      PerNodeBound(n);
      CursorGrows(n, i - 1, i);
      CursorGrows(n, i, n);
      CursorEnds(n);
      OneStep(fl, FloatCursor(fl, n, i - 1), Cursor(n, i - 1), PerNode(n), i - 1);
    }
  }

  lemma {:induction false} Even(h: int, m: int, n: int)
    requires 2 * h == m * n && m % 2 == 1
    ensures n % 2 == 0 && h == m * (n / 2)
  {
    var q := m / 2;
    assert m * n == 2 * (q * n) + n;
    assert m * n == 2 * (m * (n / 2)) + m * (n % 2);
  }

  /** An odd factor takes no part in divisibility by a power of two. */
  lemma {:induction false} OddFactor(e: nat, i: int, m: int, n: int) returns (q: int)
    requires Pow2(e) * i == m * n && m % 2 == 1
    ensures n == q * Pow2(e)
  {
    if e == 0 {
      q := n;
    } else {
      var p := Pow2(e - 1);
      assert Pow2(e) * i == 2 * (p * i);
      Even(p * i, m, n);
      q := OddFactor(e - 1, i, m, n / 2);
      assert q * (2 * p) == 2 * (q * p);
    }
  }

  lemma {:induction false} Pow2Of15()
    ensures Pow2(15) == 2 * SLOTS
  {
    assert Pow2(8) == 256;
  }

  /** No cursor is on a half: twice the slots would have to divide a smaller number of nodes. */
  lemma {:induction false} NeverOnHalf(n: nat, i: nat, k: int)
    requires 0 < n <= SLOTS
    ensures 2 * SLOTS * i != (2 * k + 1) * n
  {
    if 2 * SLOTS * i == (2 * k + 1) * n {
      Pow2Of15();
      var q := OddFactor(15, i, 2 * k + 1, n);
      assert false;
    }
  }

  function HalfGap(n: nat): real
    requires n > 0
  {
    1.0 / (2 * n) as real
  }

  /** A cursor keeps a distance of 1/(2n) from every half. */
  lemma {:induction false} FarFromHalf(n: nat, i: nat, k: int)
    requires 0 < n <= SLOTS
    ensures Abs(Cursor(n, i) - (k as real + 0.5)) >= HalfGap(n)
  {
    hide Cursor;
    NeverOnHalf(n, i, k);
    CursorIs(n, i);
    var c, h := Cursor(n, i), k as real + 0.5;
    TwiceIs(c, h, n, 2 * SLOTS * i, (2 * k + 1) * n, k, i);
    AtLeastOneOver(c - h, 2 * n, 2 * SLOTS * i - (2 * k + 1) * n);
  }

  lemma {:induction false} AtLeastOneOver(x: real, m: nat, d: int)
    requires m > 0 && d != 0 && x * m as real == d as real
    ensures Abs(x) >= 1.0 / m as real
  {
    var r := m as real;
    var gap := 1.0 / r;
    assert gap * r == 1.0;
    assert (-x) * r == -(x * r);
    if d > 0 { Cancel(gap, x, r); } else { Cancel(gap, -x, r); }
  }

  lemma {:induction false} TwiceIs(c: real, h: real, n: nat, x: int, y: int, k: int, i: nat)
    requires c * n as real == SLOTS as real * i as real && h == k as real + 0.5
    requires x == 2 * SLOTS * i && y == (2 * k + 1) * n
    ensures (c - h) * (2 * n) as real == (x - y) as real
  {
    var m := n as real;
    ProductIsReal(2 * k + 1, n);
    ProductIsReal(SLOTS, i);
    assert (2 * n) as real == 2.0 * m;
    assert c * (2.0 * m) == 2.0 * (c * m);
    assert h * (2.0 * m) == (2.0 * h) * m;
    assert (c - h) * (2.0 * m) == c * (2.0 * m) - h * (2.0 * m);
  }

  /** Rounding anything closer than that to a cursor gives what rounding the cursor gives. */
  lemma {:induction false} RoundIsStable(n: nat, i: nat, x: real)
    requires 0 < n <= SLOTS && 0 < i <= n && Abs(x - (Cursor(n, i) - 1.0)) < HalfGap(n)
    ensures Round(x) == First(n, i) - 1
  {
    hide HalfGap, Cursor, PerNode;
    var c := Cursor(n, i);
    AtLeastOne(n, i);
    var k := Round(c);
    FarFromHalf(n, i, k);
    FarFromHalf(n, i, k - 1);
    SameSide(x, c, HalfGap(n), k);
  }

  lemma {:induction false} AtLeastOne(n: nat, i: nat)
    requires 0 < n <= SLOTS && 0 < i
    ensures Cursor(n, i) >= 1.0
  {
    CursorGrows(n, 1, i);
    PerNodeFloor(n);
    assert Cursor(n, 1) == Cursor(n, 0) + PerNode(n);
    assert SLOTS / n >= 1;
  }

  lemma {:induction false} SameSide(x: real, c: real, gap: real, k: int)
    requires c >= 1.0 && k == Round(c) && Abs(x - (c - 1.0)) < gap
    requires Abs(c - (k as real + 0.5)) >= gap && Abs(c - ((k - 1) as real + 0.5)) >= gap
    ensures Round(x) == k - 1
  {
  }

  // ----- the two loops

  class CliNode {
    const slots: array<bool>
    var slotsCount: nat
    var dirty: bool

    constructor ()
      ensures fresh(slots) && slots.Length == SLOTS && forall s :: 0 <= s < SLOTS ==> !slots[s]
    {
      slots := new bool[SLOTS](_ => false);
      slotsCount, dirty := 0, false;
    }
  }

  /**
   The end of the i-th range in the loops' arithmetic; the guards against overshooting and
   empty ranges never bite.
   */
  method LastOf(fl: real -> real, n: nat, i: nat, cursor: real, slotsPerNode: real, first: int) returns (last: int)
    requires Accurate(fl) && 0 < n <= SLOTS && i < n
    requires cursor == FloatCursor(fl, n, i) && slotsPerNode == fl(PerNode(n)) && first == First(n, i)
    ensures last == First(n, i + 1) - 1
  {
    hide First, Cursor, FloatCursor, PerNode, Round, Accurate, HalfGap;
    RangeBounds(n, i);
    LastIsClose(fl, n, i);
    RoundIsStable(n, i + 1, fl(fl(cursor + slotsPerNode) - 1.0));
    RangeEnds(n);
    last := Round(fl(fl(cursor + slotsPerNode) - 1.0));
    if last > SLOTS || i == n - 1 { last := SLOTS - 1; }
    if last < first { last := first; }
  }

  lemma {:induction false} LastIsClose(fl: real -> real, n: nat, i: nat)
    requires Accurate(fl) && 0 < n <= SLOTS && i < n
    ensures
      var x := fl(fl(FloatCursor(fl, n, i) + fl(PerNode(n))) - 1.0);
      Abs(x - (Cursor(n, i + 1) - 1.0)) < HalfGap(n)
  {
    hide Accurate, Cursor, HalfGap;
    CursorDrifts(fl, n, i + 1);
    AtLeastOne(n, i + 1);
    CursorGrows(n, i + 1, n);
    CursorEnds(n);
    GapBound(n);
    OneRounding(fl, FloatCursor(fl, n, i + 1) - 1.0);
  }

  lemma {:induction false} GapBound(n: nat)
    requires 0 < n <= SLOTS
    ensures HalfGap(n) >= 1.0 / 32768.0
  {
    var m := (2 * n) as real;
    assert HalfGap(n) * m == 1.0;
    assert (1.0 / 32768.0) * m <= 1.0;
    Cancel(1.0 / 32768.0, HalfGap(n), m);
  }

  /** Marks the slots of one range as the node's. */
  method Mark(node: CliNode, first: nat, last: int)
    requires node.slots.Length == SLOTS && first <= last + 1 <= SLOTS
    modifies node, node.slots
    ensures node.dirty && node.slotsCount == last + 1 - first
    ensures forall s :: 0 <= s < SLOTS ==> (node.slots[s] <==> first <= s <= last || old(node.slots[s]))
  {
    node.slotsCount := 0;
    for j := first to last + 1
      modifies node`slotsCount, node.slots
      invariant node.slotsCount == j - first
      invariant forall s :: 0 <= s < SLOTS ==> (node.slots[s] <==> first <= s < j || old(node.slots[s]))
    {
      node.slots[j] := true;
      node.slotsCount := node.slotsCount + 1;
    }
    node.dirty := true;
  }

  predicate Separate(nodes: seq<CliNode>) {
    forall i, j :: 0 <= i < j < |nodes| ==> nodes[i] != nodes[j] && nodes[i].slots != nodes[j].slots
  }

  /** The node holds exactly the i-th range. */
  predicate HoldsRange(node: CliNode, n: nat, i: nat)
    requires n > 0
    reads node, node.slots
  {
    && node.slots.Length == SLOTS && node.dirty && node.slotsCount == First(n, i + 1) - First(n, i)
    && forall s :: 0 <= s < SLOTS ==> (node.slots[s] <==> First(n, i) <= s < First(n, i + 1))
  }

  /** The first loop: each node is given its range. */
  method AssignSlots(nodes: seq<CliNode>, fl: real -> real)
    requires Accurate(fl) && 0 < |nodes| <= SLOTS && Separate(nodes)
    requires forall i :: 0 <= i < |nodes| ==>
      nodes[i].slots.Length == SLOTS && forall s :: 0 <= s < SLOTS ==> !nodes[i].slots[s]
    modifies nodes, set n | n in nodes :: n.slots
    ensures forall i :: 0 <= i < |nodes| ==> HoldsRange(nodes[i], |nodes|, i)
  {
    hide First, FloatCursor, PerNode, Accurate;
    var n := |nodes|;
    var slotsPerNode := fl(PerNode(n));
    var first, cursor := 0, 0.0;
    CursorStart(fl, n);
    for i := 0 to n
      invariant first == First(n, i) && cursor == FloatCursor(fl, n, i)
      invariant forall k :: 0 <= k < i ==> HoldsRange(nodes[k], n, k)
      invariant forall k :: i <= k < n ==> forall s :: 0 <= s < SLOTS ==> !nodes[k].slots[s]
    {
      var last := LastOf(fl, n, i, cursor, slotsPerNode, first);
      RangeBounds(n, i);
      Mark(nodes[i], first, last);
      first := last + 1;
      cursor := fl(cursor + slotsPerNode);
      CursorNext(fl, n, i);
    }
  }

  lemma {:induction false} CursorStart(fl: real -> real, n: nat)
    requires 0 < n <= SLOTS
    ensures FloatCursor(fl, n, 0) == 0.0 && First(n, 0) == 0
  {
  }

  lemma {:induction false} CursorNext(fl: real -> real, n: nat, i: nat)
    requires n > 0
    ensures FloatCursor(fl, n, i + 1) == fl(FloatCursor(fl, n, i) + fl(PerNode(n)))
  {
  }

  lemma {:induction false} RangeBounds(n: nat, i: nat)
    requires 0 < n <= SLOTS && i < n
    ensures 0 <= First(n, i) < First(n, i + 1) <= SLOTS
  {
    RangeEnds(n);
    RangeSizes(n, i);
    FirstGrows(n, 0, i);
    FirstGrows(n, i + 1, n);
  }

  /**
   The second loop: every node that is still dirty is told its range. The ranges sent are
   those the first loop marked; `answered(i)` says whether the i-th node answers OK.
   */
  method SendRanges(nodes: seq<CliNode>, answered: nat -> bool, fl: real -> real) returns (sent: seq<(int, int)>)
    requires Accurate(fl) && 0 < |nodes| <= SLOTS && Separate(nodes)
    requires forall i :: 0 <= i < |nodes| ==> HoldsRange(nodes[i], |nodes|, i)
    modifies (set n | n in nodes)`dirty
    ensures |sent| == |nodes|
    ensures forall i :: 0 <= i < |nodes| ==>
      && nodes[i].dirty == !answered(i) && nodes[i].slots.Length == SLOTS
      && forall s :: 0 <= s < SLOTS ==> (sent[i].0 <= s <= sent[i].1 <==> nodes[i].slots[s])
  {
    hide First, FloatCursor, PerNode, Accurate;
    var n := |nodes|;
    var slotsPerNode := fl(PerNode(n));
    var first, cursor := 0, 0.0;
    sent := [];
    CursorStart(fl, n);
    for i := 0 to n
      invariant first == First(n, i) && cursor == FloatCursor(fl, n, i) && |sent| == i
      invariant forall k :: 0 <= k < i ==>
        sent[k] == (First(n, k), First(n, k + 1) - 1) && nodes[k].dirty == !answered(k)
      invariant forall k :: i <= k < n ==> nodes[k].dirty
    {
      if !nodes[i].dirty { continue; }
      var last := LastOf(fl, n, i, cursor, slotsPerNode, first);
      sent := sent + [(first, last)];
      if answered(i) { nodes[i].dirty := false; }
      first := last + 1;
      cursor := fl(cursor + slotsPerNode);
      CursorNext(fl, n, i);
    }
  }
}
