/**
 The rebalance planner: target sizes, balances, and the transfers that pair the fullest node
 with the emptiest, the second fullest with the second emptiest, and so on inwards.
 */
module Rebalance {
  import opened Bytes
  import opened Slots
  import opened Bitmap
  import opened ClusterState

  // ----- targets and balances

  /** The size the i-th of `n` nodes, in the order of their names, is to have. */
  function Target(n: nat, i: nat): nat
    requires i < n
  {
    SLOTS / n + if i < SLOTS % n then 1 else 0
  }

  function Sum(s: seq<int>, n: nat): int
    requires n <= |s|
  {
    if n == 0 then 0 else Sum(s, n - 1) + s[n - 1]
  }

  function Targets(n: nat): seq<int> {
    seq(n, i requires 0 <= i < n => Target(n, i))
  }

  lemma {:induction false} TargetsBelow(n: nat, k: nat)
    requires 0 < n && k <= n
    ensures Sum(Targets(n), k) == k * (SLOTS / n) + if k < SLOTS % n then k else SLOTS % n
  {
    if k > 0 { TargetsBelow(n, k - 1); }
  }

  /** The targets share out all slots. */
  lemma {:induction false} TargetsSum(n: nat)
    requires n > 0
    ensures Sum(Targets(n), n) == SLOTS
  {
    TargetsBelow(n, n);
  }

  /** No two targets differ by more than one, and a node is not given less than one after it. */
  lemma {:induction false} TargetsAreEven(n: nat, i: nat, j: nat)
    requires i <= j < n
    ensures Targets(n)[j] <= Targets(n)[i] <= Targets(n)[j] + 1
    ensures n * Targets(n)[0] >= SLOTS && n * Targets(n)[n - 1] <= SLOTS
  {
    var q, r := SLOTS / n, SLOTS % n;
    assert SLOTS == n * q + r && 0 <= r < n;
    assert n * (q + 1) == n * q + n;
  }

  function Positive(b: int): nat {
    if b > 0 then b else 0
  }

  function PositiveSum(s: seq<int>, n: nat): nat
    requires n <= |s|
  {
    if n == 0 then 0 else PositiveSum(s, n - 1) + Positive(s[n - 1])
  }

  // ----- selecting slots

  /** The lowest `k` slots of the bitmap among the first `n`, or all of those. */
  function Lowest(ws: Words, n: nat, k: nat): (r: seq<nat>)
    requires n <= SLOTS
    ensures |r| <= k
  {
    if n == 0 then []
    else
      var r := Lowest(ws, n - 1, k);
      if Has(ws, n - 1) && |r| < k then r + [n - 1] else r
  }

  predicate StrictlyAscending(s: seq<nat>) {
    forall i, j :: 0 <= i < j < |s| ==> s[i] < s[j]
  }

  predicate AllBelow(s: seq<nat>, n: nat) {
    forall i :: 0 <= i < |s| ==> s[i] < n
  }

  lemma {:induction false} ElementsGrow(s: seq<nat>, n: nat)
    requires AllBelow(s, n)
    ensures Elements(s + [n]) == Elements(s) + {n} && |Elements(s + [n])| == |Elements(s)| + 1
  {
  }

  lemma {:induction false} LowestAscends(ws: Words, n: nat, k: nat)
    requires n <= SLOTS
    ensures StrictlyAscending(Lowest(ws, n, k)) && AllBelow(Lowest(ws, n, k), n)
  {
    hide Has;
    if n > 0 { LowestAscends(ws, n - 1, k); }
  }

  /** Selecting stops early only when enough slots are found, and takes the lowest ones. */
  lemma {:induction false} LowestAreOwned(ws: Words, n: nat, k: nat)
    requires n <= SLOTS
    ensures
      var r := Lowest(ws, n, k);
      && |r| == |Elements(r)|
      && (|r| < k ==> Elements(r) == OwnedBelow(ws, n))
      && exists m: nat :: m <= n && Elements(r) == OwnedBelow(ws, m)
  {
    hide Has, Elements;
    if n == 0 {
      ElementsOfNothing<nat>();
      assert OwnedBelow(ws, 0) == {};
    } else {
      LowestAreOwned(ws, n - 1, k);
      LowestAscends(ws, n - 1, k);
      var r := Lowest(ws, n - 1, k);
      ElementsGrow(r, n - 1);
      OwnedBelowStep(ws, n - 1);
      assert Has(ws, n - 1) && |r| < k ==> Elements(Lowest(ws, n, k)) == OwnedBelow(ws, n);
    }
  }

  lemma {:induction false} OwnedBelowStep(ws: Words, n: nat)
    requires n < SLOTS
    ensures OwnedBelow(ws, n + 1) == OwnedBelow(ws, n) + if Has(ws, n) then {n} else {}
  {
    hide Has;
  }

  /** As many slots as asked for are found when the node has that many, and all of them are its own. */
  lemma {:induction false} LowestSuffice(ws: Words, k: nat)
    requires k <= |Owned(ws)|
    ensures
      var r := Lowest(ws, SLOTS, k);
      && |r| == k == |Elements(r)| && Elements(r) <= Owned(ws)
      && forall s, m :: s in Owned(ws) && s !in r && m in r ==> m < s
  {
    hide Has, Lowest;
    var r := Lowest(ws, SLOTS, k);
    LowestAreOwned(ws, SLOTS, k);
    assert OwnedBelow(ws, SLOTS) == Owned(ws);
    var m: nat :| m <= SLOTS && Elements(r) == OwnedBelow(ws, m);
    forall s, x | s in Owned(ws) && s !in r && x in r ensures x < s {
      assert x in Elements(r) && s !in Elements(r);
    }
  }

  /** clusterComputeReshardTable. */
  method ComputeReshardTable(numslots: nat, source: ClusterNode) returns (moved: seq<nat>)
    ensures moved == Lowest(source.OwnedSlots, SLOTS, numslots)
  {
    moved := [];
    var slot := 0;
    while slot < SLOTS
      invariant slot <= SLOTS && moved == Lowest(source.OwnedSlots, slot, numslots)
    {
      if Has(source.OwnedSlots, slot) {
        if |moved| >= numslots {
          FullStaysFull(source.OwnedSlots, slot, SLOTS, numslots);
          break;
        }
        moved := moved + [slot];
      }
      slot := slot + 1;
    }
  }

  lemma {:induction false} FullStaysFull(ws: Words, n: nat, m: nat, k: nat)
    requires n <= m <= SLOTS && |Lowest(ws, n, k)| == k
    ensures Lowest(ws, m, k) == Lowest(ws, n, k)
  {
    if n < m { FullStaysFull(ws, n, m - 1, k); }
  }

  // ----- the plan

  /** Slots leave one node for another; nodes are numbered in the order of their names. */
  datatype Transfer = Transfer(src: nat, dst: nat, slots: seq<nat>)

  /** What the planner works on: every node's bitmap and balance, and the order sorting by balance leaves. */
  datatype Input = Input(words: seq<Words>, balances: seq<int>, order: seq<nat>)

  predicate IsOrder(order: seq<nat>, n: nat) {
    && |order| == n
    && (forall i :: 0 <= i < n ==> order[i] < n)
    && (forall i, j :: 0 <= i < j < n ==> order[i] != order[j])
  }

  predicate Sorted(order: seq<nat>, balances: seq<int>)
    requires IsOrder(order, |balances|)
  {
    forall i, j :: 0 <= i < j < |order| ==> balances[order[i]] <= balances[order[j]]
  }

  /** The counts behind the balances match the bitmaps. */
  ghost predicate Counted(x: Input) {
    && |x.words| == |x.balances| == |x.order| > 0 && IsOrder(x.order, |x.words|) && Sorted(x.order, x.balances)
    && forall j :: 0 <= j < |x.words| ==> x.balances[j] == |Owned(x.words[j])| - Target(|x.words|, j)
  }

  predicate Sized(x: Input) {
    |x.words| == |x.balances| == |x.order| && IsOrder(x.order, |x.words|)
  }

  function Slice(x: Input, j: nat): seq<nat>
    requires j < |x.words| == |x.balances|
  {
    Lowest(x.words[j], SLOTS, Positive(x.balances[j]))
  }

  /** The transfers of the first `k` pairs, from the outside inwards. */
  function Plan(x: Input, k: nat): seq<Transfer>
    requires Sized(x) && k <= |x.order| / 2
  {
    if k == 0 then []
    else
      var dst, src := x.order[k - 1], x.order[|x.order| - k];
      Plan(x, k - 1) + if x.balances[src] > 0 then [Transfer(src, dst, Slice(x, src))] else []
  }

  /** The sets of slots after the first `k` transfers. */
  function After(sets: seq<set<nat>>, ts: seq<Transfer>, k: nat): (r: seq<set<nat>>)
    requires k <= |ts| && forall i :: 0 <= i < |ts| ==> ts[i].src < |sets| && ts[i].dst < |sets|
    ensures |r| == |sets|
  {
    if k == 0 then sets else Move(After(sets, ts, k - 1), ts[k - 1])
  }

  function Move(sets: seq<set<nat>>, t: Transfer): (r: seq<set<nat>>)
    requires t.src < |sets| && t.dst < |sets|
    ensures |r| == |sets|
  {
    var slots := set x | x in t.slots;
    var without := sets[t.src := sets[t.src] - slots];
    without[t.dst := without[t.dst] + slots]
  }

  ghost function SetsOf(x: Input): (r: seq<set<nat>>)
    ensures |r| == |x.words|
  {
    seq(|x.words|, j requires 0 <= j < |x.words| => Owned(x.words[j]))
  }

  /** A node gives slots only if it has too many, exactly as many as it has too many, and only its own. */
  lemma {:induction false} SliceFits(x: Input, j: nat)
    requires Counted(x) && j < |x.words|
    ensures
      var s := Slice(x, j);
      && |s| == Positive(x.balances[j]) == |Elements(s)| && Elements(s) <= Owned(x.words[j]) && StrictlyAscending(s)
  {
    hide Owned, Lowest, Elements, StrictlyAscending, IsOrder, Sorted;
    LowestSuffice(x.words[j], Positive(x.balances[j]));
    LowestAscends(x.words[j], SLOTS, Positive(x.balances[j]));
  }

  lemma {:induction false} PlanInRange(x: Input, k: nat)
    requires Sized(x) && k <= |x.order| / 2
    ensures forall p :: 0 <= p < |Plan(x, k)| ==> Plan(x, k)[p].src < |x.words| && Plan(x, k)[p].dst < |x.words|
  {
    hide Lowest;
    if k > 0 { PlanInRange(x, k - 1); }
  }

  lemma {:induction false} AfterSnoc(sets: seq<set<nat>>, ts: seq<Transfer>, t: Transfer)
    requires t.src < |sets| && t.dst < |sets|
    requires forall i :: 0 <= i < |ts| ==> ts[i].src < |sets| && ts[i].dst < |sets|
    ensures After(sets, ts + [t], |ts| + 1) == Move(After(sets, ts, |ts|), t)
  {
    hide Move;
    AfterSame(sets, ts, t, |ts|);
  }

  lemma {:induction false} AfterSame(sets: seq<set<nat>>, ts: seq<Transfer>, t: Transfer, k: nat)
    requires k <= |ts| && t.src < |sets| && t.dst < |sets|
    requires forall i :: 0 <= i < |ts| ==> ts[i].src < |sets| && ts[i].dst < |sets|
    ensures After(sets, ts + [t], k) == After(sets, ts, k)
  {
    hide Move;
    if k > 0 { AfterSame(sets, ts, t, k - 1); }
  }

  /** The slots of the node at place `i` of the order once the first `k` pairs are done. */
  ghost function SlotsAfter(x: Input, k: nat, i: nat): set<nat>
    requires Sized(x) && k <= |x.order| / 2 && i < |x.order|
  {
    var own := Owned(x.words[x.order[i]]);
    if i < k then own + Elements(Slice(x, x.order[|x.order| - 1 - i]))
    else if i >= |x.order| - k then own - Elements(Slice(x, x.order[i]))
    else own
  }

  lemma {:induction false} OrderAt(x: Input, i: nat, j: nat)
    requires Sized(x) && i < |x.order| && j < |x.order|
    ensures x.order[i] < |x.words| && (x.order[i] == x.order[j] <==> i == j)
  {
  }

  /** Every node takes part in at most one transfer, and the pairs are where the order puts them. */
  lemma {:induction false} PlanOutcome(x: Input, k: nat, i: nat)
    requires Sized(x) && k <= |x.order| / 2 && i < |x.order|
    requires forall p :: 0 <= p < |Plan(x, k)| ==> Plan(x, k)[p].src < |x.words| && Plan(x, k)[p].dst < |x.words|
    ensures After(SetsOf(x), Plan(x, k), |Plan(x, k)|)[x.order[i]] == SlotsAfter(x, k, i)
  {
    hide Owned, Slice, Move, Elements, IsOrder;
    if k > 0 {
      var n := |x.order|;
      OrderAt(x, i, k - 1);
      OrderAt(x, n - k, i);
      OrderAt(x, k - 1, n - k);
      OrderAt(x, n - 1 - i, i);
      PlanInRange(x, k - 1);
      PlanOutcome(x, k - 1, i);
      var dst, src := x.order[k - 1], x.order[n - k];
      if x.balances[src] > 0 {
        var t := Transfer(src, dst, Slice(x, src));
        AfterSnoc(SetsOf(x), Plan(x, k - 1), t);
        MoveAt(After(SetsOf(x), Plan(x, k - 1), |Plan(x, k - 1)|), t, x.order[i]);
      } else {
        NothingGiven(x, src);
        assert Plan(x, k) == Plan(x, k - 1);
      }
    } else {
      OrderAt(x, i, i);
    }
  }

  lemma {:induction false} NothingGiven(x: Input, j: nat)
    requires j < |x.words| == |x.balances| && x.balances[j] <= 0
    ensures Elements(Slice(x, j)) == {}
  {
  }

  lemma {:induction false} MoveAt(sets: seq<set<nat>>, t: Transfer, j: nat)
    requires t.src < |sets| && t.dst < |sets| && j < |sets| && t.src != t.dst
    ensures Move(sets, t)[j] ==
      if j == t.src then sets[j] - Elements(t.slots) else if j == t.dst then sets[j] + Elements(t.slots) else sets[j]
  {
  }

  // ----- what the plan achieves

  predicate Somewhere(sets: seq<set<nat>>, s: nat) {
    exists j :: 0 <= j < |sets| && s in sets[j]
  }

  /** Every slot in exactly one of the sets. */
  ghost predicate Partition(sets: seq<set<nat>>) {
    && (forall s: nat :: s < SLOTS ==> Somewhere(sets, s))
    && (forall j, s :: 0 <= j < |sets| && s in sets[j] ==> s < SLOTS)
    && (forall i, j, s :: 0 <= i < j < |sets| && s in sets[i] ==> s !in sets[j])
  }

  lemma {:induction false} MoveKeepsPartition(sets: seq<set<nat>>, t: Transfer)
    requires Partition(sets) && t.src < |sets| && t.dst < |sets| && t.src != t.dst && Elements(t.slots) <= sets[t.src]
    ensures Partition(Move(sets, t))
  {
    hide Move, Elements;
    var r := Move(sets, t);
    forall j | 0 <= j < |sets|
      ensures r[j] == if j == t.src then sets[j] - Elements(t.slots)
        else if j == t.dst then sets[j] + Elements(t.slots) else sets[j] {
      MoveAt(sets, t, j);
    }
    forall s: nat | s < SLOTS ensures Somewhere(r, s) {
      assert Somewhere(sets, s);
      var j :| 0 <= j < |sets| && s in sets[j];
      assert s in r[j] || s in r[t.dst];
    }
  }

  /** The planned transfers turn an exact partition into an exact partition. */
  lemma {:induction false} PlanKeepsPartition(x: Input, k: nat)
    requires Counted(x) && k <= |x.order| / 2 && Partition(SetsOf(x))
    requires forall p :: 0 <= p < |Plan(x, k)| ==> Plan(x, k)[p].src < |x.words| && Plan(x, k)[p].dst < |x.words|
    ensures Partition(After(SetsOf(x), Plan(x, k), |Plan(x, k)|))
  {
    hide Owned, Slice, Move, Elements, Partition, SetsOf, Sorted, IsOrder, StrictlyAscending, Target;
    if k > 0 {
      var n := |x.order|;
      OrderAt(x, k - 1, n - k);
      OrderAt(x, n - k, n - k);
      PlanInRange(x, k - 1);
      PlanKeepsPartition(x, k - 1);
      var dst, src := x.order[k - 1], x.order[n - k];
      if x.balances[src] > 0 {
        var t := Transfer(src, dst, Slice(x, src));
        AfterSnoc(SetsOf(x), Plan(x, k - 1), t);
        PlanOutcome(x, k - 1, n - k);
        SliceFits(x, src);
        MoveKeepsPartition(After(SetsOf(x), Plan(x, k - 1), |Plan(x, k - 1)|), t);
      } else {
        assert Plan(x, k) == Plan(x, k - 1);
      }
    }
  }

  /** How far from its target the node at place `i` of the order ends up. */
  function Remaining(x: Input, i: nat): int
    requires Sized(x) && i < |x.order|
  {
    var n := |x.order|;
    var b, mirror := x.balances[x.order[i]], x.balances[x.order[n - 1 - i]];
    if i < n - 1 - i then b + Positive(mirror) else if i > n - 1 - i then b - Positive(b) else b
  }

  lemma {:induction false} OwnedApart(x: Input, i: nat, j: nat)
    requires Partition(SetsOf(x)) && i < |x.words| && j < |x.words| && i != j
    ensures Owned(x.words[i]) !! Owned(x.words[j])
  {
    hide Owned, Somewhere;
    var sets := SetsOf(x);
    assert sets[i] == Owned(x.words[i]) && sets[j] == Owned(x.words[j]);
  }

  /** The final size of every node: on target for a source, and for a destination whatever its partner gave. */
  lemma {:induction false} FinalSize(x: Input, i: nat)
    requires Counted(x) && i < |x.order| && Partition(SetsOf(x))
    ensures |SlotsAfter(x, |x.order| / 2, i)| == Target(|x.order|, x.order[i]) + Remaining(x, i)
  {
    hide Owned, Slice, Sorted, Partition, SetsOf, Target, Elements, Positive, StrictlyAscending;
    var n := |x.order|;
    var j, m := x.order[i], x.order[n - 1 - i];
    var own := Owned(x.words[j]);
    if i < n / 2 {
      SliceFits(x, m);
      OwnedApart(x, j, m);
      DisjointUnion(own, Elements(Slice(x, m)));
    } else if i >= n - n / 2 {
      SliceFits(x, j);
      Difference(own, Elements(Slice(x, j)));
    }
  }

  lemma {:induction false} DisjointUnion(a: set<nat>, b: set<nat>)
    requires a !! b
    ensures |a + b| == |a| + |b|
  {
  }

  lemma {:induction false} Difference(a: set<nat>, b: set<nat>)
    requires b <= a
    ensures |a - b| == |a| - |b|
  {
  }

  /** The balances, in their order, mirror each other around the middle. */
  predicate Mirrored(x: Input)
    requires Sized(x)
  {
    forall i :: 0 <= i < |x.order| ==> x.balances[x.order[i]] == -x.balances[x.order[|x.order| - 1 - i]]
  }

  /** A source always ends exactly on its target. */
  lemma {:induction false} SourcesEndOnTarget(x: Input, i: nat)
    requires Counted(x) && Partition(SetsOf(x)) && |x.order| - 1 - i < i < |x.order| && x.balances[x.order[i]] > 0
    ensures |SlotsAfter(x, |x.order| / 2, i)| == Target(|x.order|, x.order[i])
  {
    hide Owned, Slice, Sorted, SlotsAfter;
    FinalSize(x, i);
  }

  /** The node at place `i` ends on its target. */
  ghost predicate OnTarget(x: Input, i: nat)
    requires Sized(x) && i < |x.order|
  {
    |SlotsAfter(x, |x.order| / 2, i)| == Target(|x.order|, x.order[i])
  }

  lemma {:induction false} OnTargetIff(x: Input, i: nat)
    requires Counted(x) && i < |x.order| && Partition(SetsOf(x))
    ensures OnTarget(x, i) <==> Remaining(x, i) == 0
  {
    hide SlotsAfter, Target, Partition, Remaining;
    FinalSize(x, i);
  }

  lemma {:induction false} RemainsMirrored(x: Input, i: nat)
    requires Sized(x) && Sorted(x.order, x.balances) && i < |x.order|
    requires Remaining(x, i) == 0 && Remaining(x, |x.order| - 1 - i) == 0
    ensures x.balances[x.order[i]] == -x.balances[x.order[|x.order| - 1 - i]]
  {
  }

  /** One round of rebalancing makes all nodes even exactly when the sorted balances mirror each other. */
  lemma {:induction false} EvenIffMirrored(x: Input)
    requires Counted(x) && Partition(SetsOf(x))
    ensures (forall i :: 0 <= i < |x.order| ==> OnTarget(x, i)) <==> Mirrored(x)
  {
    hide OnTarget, Partition, Remaining, Sorted, SetsOf, Target, Owned;
    var n := |x.order|;
    forall i | 0 <= i < n ensures OnTarget(x, i) <==> Remaining(x, i) == 0 { OnTargetIff(x, i); }
    if forall i :: 0 <= i < n ==> OnTarget(x, i) {
      forall i | 0 <= i < n ensures x.balances[x.order[i]] == -x.balances[x.order[n - 1 - i]] {
        assert OnTarget(x, i) && OnTarget(x, n - 1 - i);
        RemainsMirrored(x, i);
      }
    }
    if Mirrored(x) {
      forall i | 0 <= i < n ensures OnTarget(x, i) { MirroredRemains(x, i); }
    }
  }

  lemma {:induction false} MirroredRemains(x: Input, i: nat)
    requires Sized(x) && Sorted(x.order, x.balances) && Mirrored(x) && i < |x.order|
    ensures Remaining(x, i) == 0
  {
    var m := |x.order| - 1 - i;
    assert x.balances[x.order[i]] == -x.balances[x.order[m]];
    assert x.balances[x.order[m]] == -x.balances[x.order[i]];
  }

  // ----- totals

  /** Slots moved by the first `k` transfers. */
  function Moved(ts: seq<Transfer>, k: nat): nat
    requires k <= |ts|
  {
    if k == 0 then 0 else Moved(ts, k - 1) + |ts[k - 1].slots|
  }

  /** The positive balances among the first `n` nodes that are in the set. */
  function PositiveIn(balances: seq<int>, nodes: set<nat>, n: nat): (r: nat)
    requires n <= |balances|
    ensures r <= PositiveSum(balances, n)
  {
    if n == 0 then 0 else PositiveIn(balances, nodes, n - 1) + if n - 1 in nodes then Positive(balances[n - 1]) else 0
  }

  lemma {:induction false} PositiveInGrows(balances: seq<int>, nodes: set<nat>, j: nat, n: nat)
    requires n <= |balances| && j !in nodes && j < |balances|
    ensures PositiveIn(balances, nodes + {j}, n) ==
      PositiveIn(balances, nodes, n) + if j < n then Positive(balances[j]) else 0
  {
    if n > 0 { PositiveInGrows(balances, nodes, j, n - 1); }
  }

  /** The sources of the first `k` pairs. */
  function Sources(x: Input, k: nat): set<nat>
    requires Sized(x) && k <= |x.order| / 2
  {
    if k == 0 then {} else Sources(x, k - 1) + {x.order[|x.order| - k]}
  }

  lemma {:induction false} SourcesAre(x: Input, k: nat, j: nat)
    requires Sized(x) && k <= |x.order| / 2 && j in Sources(x, k)
    ensures exists i :: |x.order| - k <= i < |x.order| && x.order[i] == j
  {
    if k > 0 && j in Sources(x, k - 1) { SourcesAre(x, k - 1, j); }
  }

  lemma {:induction false} MovedSame(a: seq<Transfer>, b: seq<Transfer>, k: nat)
    requires k <= |a| && a <= b
    ensures Moved(a, k) == Moved(b, k)
  {
    if k > 0 { MovedSame(a, b, k - 1); }
  }

  lemma {:induction false} MovedIsPositive(x: Input, k: nat)
    requires Counted(x) && k <= |x.order| / 2
    ensures Moved(Plan(x, k), |Plan(x, k)|) == PositiveIn(x.balances, Sources(x, k), |x.balances|)
  {
    hide Owned, Slice, Sorted, Target, Elements, StrictlyAscending, IsOrder;
    if k == 0 {
      NothingIn(x.balances, |x.balances|);
    } else {
      var n := |x.order|;
      OrderAt(x, n - k, n - k);
      var src := x.order[n - k];
      MovedIsPositive(x, k - 1);
      SliceFits(x, src);
      NewSource(x, k);
      PositiveInGrows(x.balances, Sources(x, k - 1), src, |x.balances|);
      MovedSame(Plan(x, k - 1), Plan(x, k), |Plan(x, k - 1)|);
      if x.balances[src] <= 0 { assert Plan(x, k) == Plan(x, k - 1); }
    }
  }

  lemma {:induction false} NothingIn(balances: seq<int>, n: nat)
    requires n <= |balances|
    ensures PositiveIn(balances, {}, n) == 0
  {
    if n > 0 { NothingIn(balances, n - 1); }
  }

  lemma {:induction false} NewSource(x: Input, k: nat)
    requires Sized(x) && 0 < k <= |x.order| / 2
    ensures x.order[|x.order| - k] !in Sources(x, k - 1)
  {
    hide Sources;
    var src := x.order[|x.order| - k];
    if src in Sources(x, k - 1) { SourcesAre(x, k - 1, src); }
  }

  /** No more slots are moved than the total that was announced. */
  lemma {:induction false} MovedWithinTotal(x: Input)
    requires Counted(x)
    ensures var ts := Plan(x, |x.order| / 2); Moved(ts, |ts|) <= PositiveSum(x.balances, |x.balances|)
  {
    hide Counted, Plan, Sources;
    assert Sized(x) by { CountedSized(x); }
    MovedIsPositive(x, |x.order| / 2);
  }

  lemma {:induction false} CountedSized(x: Input)
    requires Counted(x)
    ensures Sized(x)
  {
  }

  // ----- the balances of a partition cancel out

  function UnionBelow(sets: seq<set<nat>>, k: nat): set<nat>
    requires k <= |sets|
  {
    if k == 0 then {} else UnionBelow(sets, k - 1) + sets[k - 1]
  }

  function SizeSum(sets: seq<set<nat>>, k: nat): nat
    requires k <= |sets|
  {
    if k == 0 then 0 else SizeSum(sets, k - 1) + |sets[k - 1]|
  }

  lemma {:induction false} InUnion(sets: seq<set<nat>>, k: nat, s: nat)
    requires k <= |sets|
    ensures s in UnionBelow(sets, k) <==> exists j :: 0 <= j < k && s in sets[j]
  {
    if k > 0 { InUnion(sets, k - 1, s); }
  }

  lemma {:induction false} UnionSize(sets: seq<set<nat>>, k: nat)
    requires k <= |sets| && Partition(sets)
    ensures |UnionBelow(sets, k)| == SizeSum(sets, k)
  {
    hide Somewhere;
    if k > 0 {
      UnionSize(sets, k - 1);
      var before, last := UnionBelow(sets, k - 1), sets[k - 1];
      forall s | s in before ensures s !in last { InUnion(sets, k - 1, s); }
      DisjointUnion(before, last);
    }
  }

  lemma {:induction false} PartitionSize(sets: seq<set<nat>>)
    requires Partition(sets)
    ensures SizeSum(sets, |sets|) == SLOTS
  {
    UnionSize(sets, |sets|);
    forall s: nat ensures s in UnionBelow(sets, |sets|) <==> s in Interval(0, SLOTS) {
      InUnion(sets, |sets|, s);
      if s < SLOTS { assert Somewhere(sets, s); }
    }
    assert UnionBelow(sets, |sets|) == Interval(0, SLOTS);
    IntervalSize(0, SLOTS);
  }

  lemma {:induction false} BalanceSums(x: Input, k: nat)
    requires Counted(x) && k <= |x.words|
    ensures Sum(x.balances, k) == SizeSum(SetsOf(x), k) - Sum(Targets(|x.words|), k)
  {
    hide Owned, Target, Sorted, IsOrder;
    if k > 0 { BalanceSums(x, k - 1); }
  }

  /** The targets and the actual sizes share out the same slots, so the balances cancel out. */
  lemma {:induction false} BalancesCancel(x: Input)
    requires Counted(x) && Partition(SetsOf(x))
    ensures Sum(x.balances, |x.balances|) == 0
  {
    hide Partition, SetsOf, Targets, Sum, SizeSum;
    BalanceSums(x, |x.words|);
    TargetsSum(|x.words|);
    PartitionSize(SetsOf(x));
  }

  /** Two nodes both end on their targets. */
  lemma {:induction false} TwoNodesEven(x: Input)
    requires Counted(x) && Partition(SetsOf(x)) && |x.order| == 2
    ensures OnTarget(x, 0) && OnTarget(x, 1)
  {
    hide Partition, SetsOf, OnTarget, Owned, Target;
    BalancesCancel(x);
    assert Sum(x.balances, 1) == Sum(x.balances, 0) + x.balances[0];
    assert Sum(x.balances, 2) == x.balances[0] + x.balances[1];
    assert Mirrored(x);
    EvenIffMirrored(x);
  }

  // ----- the planner

  ghost function WordsOf(nodes: seq<ClusterNode>, k: nat): (r: seq<Words>)
    requires k <= |nodes|
    reads (set n | n in nodes)`OwnedSlots
    ensures |r| == k && forall j :: 0 <= j < k ==> r[j] == nodes[j].OwnedSlots
  {
    if k == 0 then [] else WordsOf(nodes, k - 1) + [nodes[k - 1].OwnedSlots]
  }

  ghost function BalancesOf(nodes: seq<ClusterNode>, k: nat): (r: seq<int>)
    requires k <= |nodes|
    reads (set n | n in nodes)`NumSlots
    ensures |r| == k && forall j :: 0 <= j < k ==> r[j] == nodes[j].NumSlots - Target(|nodes|, j)
  {
    if k == 0 then [] else BalancesOf(nodes, k - 1) + [nodes[k - 1].NumSlots - Target(|nodes|, k - 1)]
  }

  ghost function InputOf(nodes: seq<ClusterNode>, order: seq<nat>): Input
    reads (set n | n in nodes)`OwnedSlots, (set n | n in nodes)`NumSlots
  {
    Input(WordsOf(nodes, |nodes|), BalancesOf(nodes, |nodes|), order)
  }

  predicate Distinct(nodes: seq<ClusterNode>) {
    forall i, j :: 0 <= i < j < |nodes| ==> nodes[i] != nodes[j]
  }

  method SetBalances(nodes: seq<ClusterNode>)
    requires |nodes| > 0 && Distinct(nodes)
    modifies (set n | n in nodes)`balance
    ensures forall j :: 0 <= j < |nodes| ==> nodes[j].balance == BalancesOf(nodes, |nodes|)[j]
  {
    hide BalancesOf;
    var n := |nodes|;
    for i := 0 to n
      invariant forall j :: 0 <= j < i ==> nodes[j].balance == BalancesOf(nodes, n)[j]
    {
      var target := SLOTS / n;
      if i < SLOTS % n { target := target + 1; }
      nodes[i].balance := nodes[i].NumSlots - target;
    }
  }

  method TotalToMove(nodes: seq<ClusterNode>) returns (totalSlots: nat)
    requires forall j :: 0 <= j < |nodes| ==> nodes[j].balance == BalancesOf(nodes, |nodes|)[j]
    ensures totalSlots == PositiveSum(BalancesOf(nodes, |nodes|), |nodes|)
  {
    hide BalancesOf;
    totalSlots := 0;
    for i := 0 to |nodes|
      invariant totalSlots == PositiveSum(BalancesOf(nodes, |nodes|), i)
    {
      if nodes[i].balance > 0 { totalSlots := totalSlots + nodes[i].balance; }
    }
  }

  function Max(a: int, b: int): int {
    if a > b then a else b
  }

  /** One round of the two-index loop: the fuller node of the pair gives what it has too much. */
  method PairUp(nodes: seq<ClusterNode>, ghost x: Input, dst: nat, src: nat) returns (t: seq<Transfer>)
    requires Counted(x) && |x.words| == |nodes| && dst < |nodes| && src < |nodes| && x.balances[dst] <= x.balances[src]
    requires nodes[src].OwnedSlots == x.words[src]
    requires nodes[src].balance == x.balances[src] && nodes[dst].balance == x.balances[dst]
    ensures t == if x.balances[src] > 0 then [Transfer(src, dst, Slice(x, src))] else []
  {
    hide Lowest, Owned, Counted, Elements, StrictlyAscending;
    t := [];
    var numslots := Max(nodes[dst].balance, nodes[src].balance);
    if numslots > 0 {
      var moved := ComputeReshardTable(numslots, nodes[src]);
      SliceFits(x, src);
      assert |moved| == numslots;
      t := [Transfer(src, dst, moved)];
    }
  }

  /** The two-index loop. */
  method PlanTransfers(nodes: seq<ClusterNode>, ghost x: Input, order: seq<nat>) returns (transfers: seq<Transfer>)
    requires Counted(x) && Sized(x) && x.order == order && |x.words| == |nodes|
    requires forall j :: 0 <= j < |nodes| ==> nodes[j].OwnedSlots == x.words[j] && nodes[j].balance == x.balances[j]
    ensures transfers == Plan(x, |nodes| / 2)
  {
    hide Counted, Slice, IsOrder, Sorted;
    var n := |nodes|;
    transfers := [];
    var dstIdx, srcIdx := 0, n - 1;
    while dstIdx < srcIdx
      invariant dstIdx + srcIdx == n - 1 && dstIdx <= n / 2
      invariant transfers == Plan(x, dstIdx)
    {
      SortedAt(x, dstIdx, srcIdx);
      var t := PairUp(nodes, x, order[dstIdx], order[srcIdx]);
      transfers := transfers + t;
      dstIdx, srcIdx := dstIdx + 1, srcIdx - 1;
    }
  }

  /**
   ClusterRebalanceNodes up to the commands it sends: `nodes` is in the order of the names,
   and `order` is the one sorting by balance leaves. With counts that match the bitmaps
   every selection is as long as requested, so no transfer is cut short.
   */
  method RebalanceNodes(nodes: seq<ClusterNode>, order: seq<nat>)
    returns (ok: bool, transfers: seq<Transfer>, totalSlots: nat)
    requires Distinct(nodes) && forall i :: 0 <= i < |nodes| ==> nodes[i].Valid()
    requires IsOrder(order, |nodes|) && Sorted(order, BalancesOf(nodes, |nodes|))
    modifies (set n | n in nodes)`balance
    ensures ok <==> |nodes| > 0
    ensures ok ==>
      && Counted(InputOf(nodes, order))
      && transfers == Plan(InputOf(nodes, order), |nodes| / 2)
      && totalSlots == PositiveSum(InputOf(nodes, order).balances, |nodes|)
  {
    hide Counted, Sorted, BalancesOf, WordsOf, IsOrder, Plan, PositiveSum;
    if |nodes| == 0 { return false, [], 0; }
    ok := true;
    InputCounted(nodes, order);
    CountedSized(InputOf(nodes, order));
    SetBalances(nodes);
    totalSlots := TotalToMove(nodes);
    transfers := PlanTransfers(nodes, InputOf(nodes, order), order);
  }

  lemma {:induction false} InputCounted(nodes: seq<ClusterNode>, order: seq<nat>)
    requires |nodes| > 0 && forall i :: 0 <= i < |nodes| ==> nodes[i].Valid()
    requires IsOrder(order, |nodes|) && Sorted(order, BalancesOf(nodes, |nodes|))
    ensures Counted(InputOf(nodes, order))
  {
    hide Owned, Target;
  }

  lemma {:induction false} SortedAt(x: Input, i: nat, j: nat)
    requires Counted(x) && i < j < |x.order|
    ensures x.order[i] < |x.words| && x.order[j] < |x.words| && x.balances[x.order[i]] <= x.balances[x.order[j]]
  {
  }

  // ----- a case in which the nodes stay uneven

  lemma {:induction false} FullHasBit(b: nat, k: nat)
    requires b < k
    ensures Bit(Pow2(k) - 1, b)
    decreases b
  {
    if b > 0 { FullHasBit(b - 1, k - 1); }
  }

  function FullWords(): Words {
    seq(WORDS, _ => Pow2(64) - 1)
  }

  function NoWords(): Words {
    seq(WORDS, _ => 0)
  }

  lemma {:induction false} FullAndEmpty()
    ensures Owned(FullWords()) == Interval(0, SLOTS) && Owned(NoWords()) == {}
  {
    hide Bit;
    forall s: nat | s < SLOTS ensures Has(FullWords(), s) && !Has(NoWords(), s) {
      FullHasBit(s % 64, 64);
      ZeroHasNoBit(s % 64);
    }
  }

  lemma {:induction false} IntervalSize(a: nat, b: nat)
    requires a <= b
    ensures |Interval(a, b)| == b - a
  {
    if a < b { IntervalSize(a, b - 1); }
  }

  lemma {:induction false} CountedThree(x: Input)
    requires |x.words| == 3 && x.order == [0, 1, 2] && x.balances == [-5462, -5461, 10923]
    requires |Owned(x.words[0])| == 0 && |Owned(x.words[1])| == 0 && |Owned(x.words[2])| == SLOTS
    ensures Counted(x)
  {
    hide Owned;
  }

  lemma {:induction false} SetsOfThree(x: Input)
    requires |x.words| == 3
    ensures SetsOf(x) == [Owned(x.words[0]), Owned(x.words[1]), Owned(x.words[2])]
  {
    hide Owned;
  }

  lemma {:induction false} OneHoldsAll() returns (x: Input)
    ensures Counted(x) && Partition(SetsOf(x)) && x.order == [0, 1, 2] && x.balances == [-5462, -5461, 10923]
  {
    hide FullWords, NoWords, Owned, Interval, Counted, Partition, SetsOf;
    x := Input([NoWords(), NoWords(), FullWords()], [-5462, -5461, 10923], [0, 1, 2]);
    FullAndEmpty();
    IntervalSize(0, SLOTS);
    CountedThree(x);
    SetsOfThree(x);
    AllInLast(SetsOf(x));
  }

  lemma {:induction false} AllInLast(sets: seq<set<nat>>)
    requires |sets| == 3 && sets[0] == {} && sets[1] == {} && sets[2] == Interval(0, SLOTS)
    ensures Partition(sets)
  {
    forall s: nat | s < SLOTS ensures Somewhere(sets, s) { assert s in sets[2]; }
  }

  /** Three nodes, one of which holds every slot: one round moves two thirds to one node and leaves the other empty. */
  lemma {:induction false} ThreeNodesStayUneven() returns (x: Input)
    ensures Counted(x) && Partition(SetsOf(x)) && |x.order| == 3
    ensures |SlotsAfter(x, 1, 0)| == 10923 && |SlotsAfter(x, 1, 1)| == 0 && |SlotsAfter(x, 1, 2)| == 5461
  {
    hide SlotsAfter, Partition, SetsOf, Owned;
    x := OneHoldsAll();
    FinalSize(x, 0);
    FinalSize(x, 1);
    FinalSize(x, 2);
  }
}
