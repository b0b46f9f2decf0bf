/** CLUSTER SLOTS compresses the slot table into ranges; a client's router expands them again. */
module SlotRanges {
  import opened Bytes
  import opened Slots
  import opened Bitmap
  import opened ClusterState

  /**
   Who may be named as the slot's owner: this node if it serves the slot, else every node in
   its table that claims to.
   */
  ghost function OwnersOf(st: ClusterState, s: nat): set<ClusterNode>
    reads st, st.Self, st.Nodes.Values
  {
    if s in Owned(st.Self.OwnedSlots) then {st.Self}
    else set n | n in st.Nodes.Values && s in Owned(n.OwnedSlots)
  }

  /** The owners of the first `n` slots. */
  ghost function OwnersBelow(st: ClusterState, n: nat): (t: seq<set<ClusterNode>>)
    reads st, st.Self, st.Nodes.Values
    ensures |t| == n && forall s :: 0 <= s < n ==> t[s] == OwnersOf(st, s)
  {
    if n == 0 then [] else OwnersBelow(st, n - 1) + [OwnersOf(st, n - 1)]
  }

  /** GetSlotOwner; the table is searched in no particular order. */
  method GetSlotOwner(st: ClusterState, slot: nat) returns (owner: ClusterNode?)
    requires slot < SLOTS
    ensures if owner == null then OwnersOf(st, slot) == {} else owner in OwnersOf(st, slot)
  {
    if Has(st.Self.OwnedSlots, slot) { return st.Self; }
    var rest := st.Nodes.Keys;
    while rest != {}
      invariant rest <= st.Nodes.Keys
      invariant forall k :: k in st.Nodes && k !in rest ==> slot !in Owned(st.Nodes[k].OwnedSlots)
      decreases rest
    {
      var k :| k in rest;
      var node := st.Nodes[k];
      if Has(node.OwnedSlots, slot) { return node; }
      rest := rest - {k};
    }
    owner := null;
  }

  // ----- ranges

  datatype Range = Range(start: nat, end: nat, owner: ClusterNode)

  predicate Ascending(ranges: seq<Range>, limit: nat) {
    && (forall i :: 0 <= i < |ranges| ==> ranges[i].start <= ranges[i].end < limit)
    && (forall i, j :: 0 <= i < j < |ranges| ==> ranges[i].end < ranges[j].start)
  }

  predicate Within(r: Range, s: nat) {
    r.start <= s <= r.end
  }

  predicate Covers(ranges: seq<Range>, s: nat) {
    exists i :: 0 <= i < |ranges| && Within(ranges[i], s)
  }

  /** Every slot of the range has the range's owner among its owners. */
  ghost predicate RangeTrue(r: Range, owners: seq<set<ClusterNode>>) {
    r.end < |owners| && forall s :: r.start <= s <= r.end ==> r.owner in owners[s]
  }

  ghost predicate Truthful(ranges: seq<Range>, owners: seq<set<ClusterNode>>) {
    forall i :: 0 <= i < |ranges| ==> RangeTrue(ranges[i], owners)
  }

  /** Exactly the slots below `limit` that have an owner are covered. */
  ghost predicate Exact(ranges: seq<Range>, owners: seq<set<ClusterNode>>, limit: nat)
    requires limit <= |owners|
  {
    forall s :: 0 <= s < limit ==> (Covers(ranges, s) <==> owners[s] != {})
  }

  /** No slot has two owners. */
  ghost predicate Unambiguous(owners: seq<set<ClusterNode>>) {
    forall s, n, m :: 0 <= s < |owners| && n in owners[s] && m in owners[s] ==> n == m
  }

  /** Ranges that touch belong to different nodes. */
  predicate Maximal(ranges: seq<Range>) {
    forall i :: 0 < i < |ranges| && ranges[i - 1].end + 1 == ranges[i].start ==> ranges[i - 1].owner != ranges[i].owner
  }

  /** The last range ends where its owner's slots do. */
  ghost predicate LastEnds(ranges: seq<Range>, owners: seq<set<ClusterNode>>, start: nat) {
    |ranges| > 0 && ranges[|ranges| - 1].end + 1 == start < |owners| ==> ranges[|ranges| - 1].owner !in owners[start]
  }

  lemma {:induction false} CoversSnoc(ranges: seq<Range>, r: Range, s: nat)
    ensures Covers(ranges + [r], s) <==> Covers(ranges, s) || Within(r, s)
  {
    hide Within;
    var all := ranges + [r];
    if Covers(ranges, s) {
      var i :| 0 <= i < |ranges| && Within(ranges[i], s);
      assert Within(all[i], s);
    }
    if Within(r, s) { assert Within(all[|ranges|], s); }
  }

  /** Slots without an owner are stepped over. */
  lemma {:induction false} SkipSlot(ranges: seq<Range>, owners: seq<set<ClusterNode>>, start: nat)
    requires start < |owners| && owners[start] == {} && Ascending(ranges, start) && Exact(ranges, owners, start)
    ensures Ascending(ranges, start + 1) && Exact(ranges, owners, start + 1) && LastEnds(ranges, owners, start + 1)
  {
  }

  /** A further range after all others. */
  lemma {:induction false} AddRange(ranges: seq<Range>, owners: seq<set<ClusterNode>>, r: Range)
    requires r.start <= r.end < |owners| && RangeTrue(r, owners)
    requires Ascending(ranges, r.start) && Truthful(ranges, owners) && Exact(ranges, owners, r.start)
    ensures
      var all := ranges + [r];
      Ascending(all, r.end + 1) && Truthful(all, owners) && Exact(all, owners, r.end + 1)
  {
    hide Covers, RangeTrue;
    var all := ranges + [r];
    forall s | 0 <= s < r.end + 1 ensures Covers(all, s) <==> owners[s] != {} {
      CoversSnoc(ranges, r, s);
      if s < r.start { assert Covers(ranges, s) <==> owners[s] != {}; } else { OwnerThere(r, owners, s); }
    }
  }

  lemma {:induction false} OwnerThere(r: Range, owners: seq<set<ClusterNode>>, s: nat)
    requires RangeTrue(r, owners) && Within(r, s)
    ensures owners[s] != {}
  {
    assert r.owner in owners[s];
  }

  lemma {:induction false} AddMaximal(ranges: seq<Range>, owners: seq<set<ClusterNode>>, r: Range)
    requires r.start < |owners| && r.owner in owners[r.start] && Maximal(ranges) && LastEnds(ranges, owners, r.start)
    ensures Maximal(ranges + [r])
  {
  }

  /**
   clusterSlots: ascending, disjoint ranges that cover exactly the slots with an owner, each
   under a node that owns all of it; maximal ones where no slot has two owners.
   */
  method ClusterSlots(st: ClusterState) returns (ranges: seq<Range>)
    ensures Ascending(ranges, SLOTS)
    ensures Truthful(ranges, OwnersBelow(st, SLOTS)) && Exact(ranges, OwnersBelow(st, SLOTS), SLOTS)
    ensures Unambiguous(OwnersBelow(st, SLOTS)) ==> Maximal(ranges)
  {
    hide OwnersOf, OwnersBelow, Ascending, Truthful, Exact, Unambiguous, Maximal, LastEnds, RangeTrue;
    ghost var owners := OwnersBelow(st, SLOTS);
    ranges := [];
    NoRanges(owners);
    var start := 0;
    while start < SLOTS
      invariant start <= SLOTS && Ascending(ranges, start) && Truthful(ranges, owners) && Exact(ranges, owners, start)
      invariant Unambiguous(owners) ==> Maximal(ranges) && LastEnds(ranges, owners, start)
    {
      var owner := GetSlotOwner(st, start);
      if owner == null {
        SkipSlot(ranges, owners, start);
        start := start + 1;
      } else {
        var end := RangeEnd(st, start, owner);
        var r := Range(start, end, owner);
        AddRange(ranges, owners, r);
        if Unambiguous(owners) {
          AddMaximal(ranges, owners, r);
          EndIsLast(ranges, r, owners);
        }
        ranges := ranges + [r];
        start := end + 1;
      }
    }
  }

  lemma {:induction false} NoRanges(owners: seq<set<ClusterNode>>)
    ensures Ascending([], 0) && Truthful([], owners) && Exact([], owners, 0) && Maximal([]) && LastEnds([], owners, 0)
  {
  }

  lemma {:induction false} EndIsLast(ranges: seq<Range>, r: Range, owners: seq<set<ClusterNode>>)
    requires r.end + 1 < |owners| ==> r.owner !in owners[r.end + 1]
    ensures LastEnds(ranges + [r], owners, r.end + 1)
  {
  }

  /** The inner loop of clusterSlots: as far as the owner stays the same. */
  method RangeEnd(st: ClusterState, start: nat, owner: ClusterNode) returns (end: nat)
    requires start < SLOTS && owner in OwnersOf(st, start)
    ensures start <= end < SLOTS
    ensures RangeTrue(Range(start, end, owner), OwnersBelow(st, SLOTS))
    ensures Unambiguous(OwnersBelow(st, SLOTS)) && end + 1 < SLOTS ==> owner !in OwnersBelow(st, SLOTS)[end + 1]
  {
    hide OwnersOf, OwnersBelow;
    ghost var owners := OwnersBelow(st, SLOTS);
    end := start;
    while end + 1 < SLOTS
      invariant start <= end < SLOTS
      invariant forall s :: start <= s <= end ==> owner in owners[s]
    {
      var next := GetSlotOwner(st, end + 1);
      assert owners[end + 1] == OwnersOf(st, end + 1);
      if next != owner { return; }
      end := end + 1;
    }
  }

  // ----- the router

  datatype Address = Nowhere | At(host: Str, port: int)

  /** One row of the reply as a client sees it. */
  datatype Row = Row(start: int, end: int, host: Str, port: int) | Malformed

  /** What the rows say about a slot; a later row would win. */
  function Route(rows: seq<Row>, n: nat, s: nat): Address
    requires n <= |rows|
  {
    if n == 0 then Nowhere
    else if rows[n - 1].Row? && rows[n - 1].start <= s <= rows[n - 1].end then At(rows[n - 1].host, rows[n - 1].port)
    else Route(rows, n - 1, s)
  }

  datatype Routing = Table(slotAddr: array<Address>) | BadRow | Panics

  /** The loop over the row's slots leaves the table. */
  predicate Outside(row: Row) {
    row.Row? && row.start <= row.end && !(0 <= row.start && row.end < SLOTS)
  }

  /** The first row that is malformed or leaves the table, or the number of rows. */
  function FirstBad(rows: seq<Row>, i: nat): (k: nat)
    requires i <= |rows|
    ensures i <= k <= |rows|
    decreases |rows| - i
  {
    if i == |rows| || rows[i].Malformed? || Outside(rows[i]) then i else FirstBad(rows, i + 1)
  }

  /** routerFromSlots: rows are taken in order up to one that is refused or makes it panic. */
  method RouterFromSlots(rows: seq<Row>) returns (r: Routing)
    ensures
      var k := FirstBad(rows, 0);
      if k == |rows| then r.Table? else if rows[k].Malformed? then r == BadRow else r == Panics
    ensures r.Table? ==> fresh(r.slotAddr) && r.slotAddr.Length == SLOTS
    ensures r.Table? ==> forall s: nat :: s < SLOTS ==> r.slotAddr[s] == Route(rows, |rows|, s)
  {
    var slotAddr := new Address[SLOTS](_ => Nowhere);
    for i := 0 to |rows|
      invariant FirstBad(rows, 0) == FirstBad(rows, i)
      invariant forall s: nat :: s < SLOTS ==> slotAddr[s] == Route(rows, i, s)
    {
      var row := rows[i];
      if row.Malformed? { return BadRow; }
      ghost var before := slotAddr[..];
      var slot := row.start;
      while slot <= row.end
        invariant row.start <= slot && (slot <= row.end + 1 || slot == row.start)
        invariant slot > row.start ==> 0 <= row.start && slot <= SLOTS
        invariant forall s: nat :: s < SLOTS ==>
          slotAddr[s] == if row.start <= s < slot then At(row.host, row.port) else before[s]
      {
        if slot < 0 || slot >= SLOTS { return Panics; }
        slotAddr[slot] := At(row.host, row.port);
        slot := slot + 1;
      }
      forall s: nat | s < SLOTS ensures slotAddr[s] == Route(rows, i + 1, s) { assert before[s] == Route(rows, i, s); }
    }
    return Table(slotAddr);
  }

  lemma {:induction false} NoneBad(rows: seq<Row>, i: nat)
    requires i <= |rows| && forall j :: 0 <= j < |rows| ==> rows[j].Row? && !Outside(rows[j])
    ensures FirstBad(rows, i) == |rows|
    decreases |rows| - i
  {
    if i < |rows| { NoneBad(rows, i + 1); }
  }

  /** addrFor: where a client sends a key. */
  function AddrFor(slotAddr: array<Address>, key: Str): Address
    requires slotAddr.Length == SLOTS
    reads slotAddr
  {
    slotAddr[SlotForKey(key)]
  }

  // ----- the router undoes the compression

  function RowOf(r: Range): Row
    reads r.owner
  {
    Row(r.start, r.end, r.owner.Host, r.owner.ClientPort)
  }

  /** What is routed somewhere is routed by a row that covers it. */
  lemma {:induction false} RouteCovers(rows: seq<Row>, n: nat, s: nat)
    requires n <= |rows| && forall i :: 0 <= i < n ==> rows[i].Row?
    ensures var a := Route(rows, n, s);
      if a == Nowhere then forall i :: 0 <= i < n ==> !(rows[i].start <= s <= rows[i].end)
      else exists i :: 0 <= i < n && rows[i].start <= s <= rows[i].end && a == At(rows[i].host, rows[i].port)
  {
    if n > 0 {
      RouteCovers(rows, n - 1, s);
      if rows[n - 1].start <= s <= rows[n - 1].end {
        assert Route(rows, n, s) == At(rows[n - 1].host, rows[n - 1].port);
      }
    }
  }

  /** The address of some node that may be named as the slot's owner; nowhere exactly when there is none. */
  ghost predicate RoutedTo(a: Address, owners: set<ClusterNode>)
    reads owners
  {
    if owners == {} then a == Nowhere else exists n :: n in owners && a == At(n.Host, n.ClientPort)
  }

  /** A client that reads CLUSTER SLOTS sends every key to the owner of its slot, and keys of unowned slots nowhere. */
  method RouteSlots(st: ClusterState) returns (slotAddr: array<Address>)
    ensures slotAddr.Length == SLOTS
    ensures forall s: nat :: s < SLOTS ==> RoutedTo(slotAddr[s], OwnersOf(st, s))
    ensures forall key: Str :: RoutedTo(AddrFor(slotAddr, key), OwnersOf(st, SlotForKey(key)))
  {
    hide OwnersOf, OwnersBelow, Route, Ascending, Unambiguous, Maximal, SlotForKey;
    var ranges := ClusterSlots(st);
    ghost var owners := OwnersBelow(st, SLOTS);
    var rows: seq<Row> := [];
    for i := 0 to |ranges|
      invariant |rows| == i && forall j :: 0 <= j < i ==> rows[j] == RowOf(ranges[j])
    {
      rows := rows + [RowOf(ranges[i])];
    }
    AscendingBounds(ranges);
    NoneBad(rows, 0);
    var r := RouterFromSlots(rows);
    slotAddr := r.slotAddr;
    forall s: nat | s < SLOTS ensures RoutedTo(slotAddr[s], OwnersOf(st, s)) {
      RouteCovers(rows, |rows|, s);
      RoutedByRange(ranges, rows, owners, s);
    }
  }

  lemma {:induction false} AscendingBounds(ranges: seq<Range>)
    requires Ascending(ranges, SLOTS)
    ensures forall i :: 0 <= i < |ranges| ==> ranges[i].end < SLOTS
  {
  }

  lemma {:induction false} RoutedByRange(ranges: seq<Range>, rows: seq<Row>, owners: seq<set<ClusterNode>>, s: nat)
    requires |rows| == |ranges| && forall i :: 0 <= i < |rows| ==> rows[i] == RowOf(ranges[i])
    requires s < |owners| == SLOTS && Truthful(ranges, owners) && Exact(ranges, owners, SLOTS)
    ensures RoutedTo(Route(rows, |rows|, s), owners[s])
  {
    hide Route, Truthful;
    RouteCovers(rows, |rows|, s);
    var a := Route(rows, |rows|, s);
    assert Covers(ranges, s) <==> owners[s] != {};
    if a != Nowhere {
      var i :| 0 <= i < |rows| && rows[i].start <= s <= rows[i].end && a == At(rows[i].host, rows[i].port);
      assert Within(ranges[i], s);
      OwnerAmong(ranges, owners, i, s);
    } else {
      forall i | 0 <= i < |ranges| ensures !Within(ranges[i], s) { assert rows[i] == RowOf(ranges[i]); }
    }
  }

  lemma {:induction false} OwnerAmong(ranges: seq<Range>, owners: seq<set<ClusterNode>>, i: nat, s: nat)
    requires i < |ranges| && Truthful(ranges, owners) && Within(ranges[i], s)
    ensures s < |owners| && ranges[i].owner in owners[s]
  {
    assert RangeTrue(ranges[i], owners);
  }
}
