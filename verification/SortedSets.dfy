/**
 Sorted sets as slices of scored members: ZADD updates in place, appends and re-sorts
 stably, ZREM filters, ZRANGE takes a rank interval. Scores are reals: ties are possible,
 NaN is not.
 */
module SortedSets {
  import opened Bytes

  datatype Member = Member(member: Str, score: real)

  // ----- what a sorted set is

  /** The score of each member; a later entry for the same member would win. */
  function Scores(z: seq<Member>): map<Str, real> {
    if |z| == 0 then map[]
    else Scores(z[..|z| - 1])[z[|z| - 1].member := z[|z| - 1].score]
  }

  predicate DupFree(z: seq<Member>) {
    |z| == 0 || (DupFree(z[..|z| - 1]) && z[|z| - 1].member !in Scores(z[..|z| - 1]))
  }

  predicate Ascending(z: seq<Member>) {
    forall i, j :: 0 <= i < j < |z| ==> z[i].score <= z[j].score
  }

  predicate Ordered(z: seq<Member>) {
    DupFree(z) && Ascending(z)
  }

  lemma {:induction false} ScoresOf(z: seq<Member>, i: nat)
    requires DupFree(z) && i < |z|
    ensures z[i].member in Scores(z) && Scores(z)[z[i].member] == z[i].score
  {
    if i < |z| - 1 { ScoresOf(z[..|z| - 1], i); }
  }

  lemma {:induction false} ScoresSize(z: seq<Member>)
    requires DupFree(z)
    ensures |Scores(z)| == |z|
  {
    if |z| > 0 { ScoresSize(z[..|z| - 1]); }
  }

  // ----- stable sorting

  /** The members with score `x`, in the order in which they stand in `z`. */
  function Ties(z: seq<Member>, x: real): seq<Member> {
    if |z| == 0 then []
    else Ties(z[..|z| - 1], x) + (if z[|z| - 1].score == x then [z[|z| - 1]] else [])
  }

  function Insert(z: seq<Member>, m: Member): (r: seq<Member>)
    ensures |r| == |z| + 1
  {
    if |z| == 0 || z[|z| - 1].score <= m.score then z + [m]
    else Insert(z[..|z| - 1], m) + [z[|z| - 1]]
  }

  /** sort.SliceStable on the scores. */
  function StableSort(z: seq<Member>): (r: seq<Member>)
    ensures |r| == |z|
  {
    if |z| == 0 then [] else Insert(StableSort(z[..|z| - 1]), z[|z| - 1])
  }

  lemma {:induction false} InsertBound(z: seq<Member>, m: Member, top: real)
    requires m.score <= top && forall i :: 0 <= i < |z| ==> z[i].score <= top
    ensures forall i :: 0 <= i < |z| + 1 ==> Insert(z, m)[i].score <= top
  {
    if |z| > 0 && z[|z| - 1].score > m.score { InsertBound(z[..|z| - 1], m, top); }
  }

  lemma {:induction false} InsertAscending(z: seq<Member>, m: Member)
    requires Ascending(z)
    ensures Ascending(Insert(z, m))
  {
    if |z| > 0 && z[|z| - 1].score > m.score {
      InsertAscending(z[..|z| - 1], m);
      InsertBound(z[..|z| - 1], m, z[|z| - 1].score);
    }
  }

  lemma {:induction false} TiesSnoc(z: seq<Member>, m: Member, x: real)
    ensures Ties(z + [m], x) == Ties(z, x) + if m.score == x then [m] else []
  {
    assert (z + [m])[..|z|] == z;
  }

  lemma {:induction false} InsertTies(z: seq<Member>, m: Member, x: real)
    requires Ascending(z)
    ensures Ties(Insert(z, m), x) == Ties(z, x) + if m.score == x then [m] else []
  {
    if |z| == 0 || z[|z| - 1].score <= m.score {
      TiesSnoc(z, m, x);
    } else {
      InsertTies(z[..|z| - 1], m, x);
      TiesSnoc(Insert(z[..|z| - 1], m), z[|z| - 1], x);
    }
  }

  /** Sorting puts the scores in ascending order and keeps every tie in the order it had. */
  lemma {:induction false} SortIsStable(z: seq<Member>, x: real)
    ensures Ascending(StableSort(z)) && Ties(StableSort(z), x) == Ties(z, x)
  {
    if |z| > 0 {
      SortIsStable(z[..|z| - 1], x);
      InsertAscending(StableSort(z[..|z| - 1]), z[|z| - 1]);
      InsertTies(StableSort(z[..|z| - 1]), z[|z| - 1], x);
    }
  }

  lemma {:induction false} NoTiesAbove(z: seq<Member>, x: real)
    requires forall i :: 0 <= i < |z| ==> z[i].score < x
    ensures Ties(z, x) == []
  {
    if |z| > 0 { NoTiesAbove(z[..|z| - 1], x); }
  }

  /** Both sequences end in the same member when they agree on all ties. */
  lemma {:induction false} LastAgrees(a: seq<Member>, b: seq<Member>)
    requires Ascending(a) && Ascending(b) && |a| > 0 && |b| > 0
    requires a[|a| - 1].score >= b[|b| - 1].score
    requires Ties(a, a[|a| - 1].score) == Ties(b, a[|a| - 1].score)
    ensures a[|a| - 1] == b[|b| - 1]
  {
    var x := a[|a| - 1].score;
    var t := Ties(a, x);
    assert t[|t| - 1] == a[|a| - 1];
    if b[|b| - 1].score < x {
      NoTiesAbove(b, x);
      assert false;
    }
  }

  /**
   Ascending order and the order of ties determine the result: any stable sort, whatever its
   algorithm, returns the same sequence.
   */
  lemma {:induction false} SortIsUnique(a: seq<Member>, b: seq<Member>)
    requires Ascending(a) && Ascending(b) && forall x :: Ties(a, x) == Ties(b, x)
    ensures a == b
  {
    if |a| == 0 || |b| == 0 {
      SameEmptiness(a, b);
      SameEmptiness(b, a);
    } else {
      if a[|a| - 1].score >= b[|b| - 1].score { LastAgrees(a, b); } else { LastAgrees(b, a); }
      var a', b' := a[..|a| - 1], b[..|b| - 1];
      forall x ensures Ties(a', x) == Ties(b', x) {
        SameButLast(a, b, x);
      }
      SortIsUnique(a', b');
      assert a == a' + [a[|a| - 1]] && b == b' + [b[|b| - 1]];
    }
  }

  lemma {:induction false} SameEmptiness(a: seq<Member>, b: seq<Member>)
    requires forall x :: Ties(a, x) == Ties(b, x)
    ensures |a| == 0 ==> |b| == 0
  {
    if |b| > 0 { assert |Ties(a, b[|b| - 1].score)| > 0; }
  }

  lemma {:induction false} SameButLast(a: seq<Member>, b: seq<Member>, x: real)
    requires |a| > 0 && |b| > 0 && a[|a| - 1] == b[|b| - 1] && Ties(a, x) == Ties(b, x)
    ensures Ties(a[..|a| - 1], x) == Ties(b[..|b| - 1], x)
  {
    var t, u := Ties(a[..|a| - 1], x), Ties(b[..|b| - 1], x);
    var l := if a[|a| - 1].score == x then [a[|a| - 1]] else [];
    assert t == (t + l)[..|t|] && u == (u + l)[..|u|];
    assert t + l == u + l && |t + l| - |l| == |u + l| - |l|;
  }

  lemma {:induction false} InsertKeeps(z: seq<Member>, m: Member)
    requires DupFree(z) && m.member !in Scores(z)
    ensures DupFree(Insert(z, m)) && Scores(Insert(z, m)) == Scores(z)[m.member := m.score]
  {
    if |z| == 0 || z[|z| - 1].score <= m.score {
      assert (z + [m])[..|z|] == z;
    } else {
      InsertKeeps(z[..|z| - 1], m);
      assert Insert(z, m)[..|z|] == Insert(z[..|z| - 1], m);
    }
  }

  /** Sorting neither loses, invents nor repeats a member, and keeps its score. */
  lemma {:induction false} SortKeeps(z: seq<Member>)
    requires DupFree(z)
    ensures DupFree(StableSort(z)) && Scores(StableSort(z)) == Scores(z)
  {
    if |z| > 0 {
      SortKeeps(z[..|z| - 1]);
      InsertKeeps(StableSort(z[..|z| - 1]), z[|z| - 1]);
    }
  }

  // ----- ZADD

  /** The first entry from `i` on for the member, or the length. */
  function IndexOf(z: seq<Member>, member: Str, i: nat): (j: nat)
    requires i <= |z|
    ensures i <= j <= |z| && (j < |z| ==> z[j].member == member)
    ensures forall k :: i <= k < j ==> z[k].member != member
    decreases |z| - i
  {
    if i == |z| || z[i].member == member then i else IndexOf(z, member, i + 1)
  }

  function Upsert(z: seq<Member>, m: Member): (r: seq<Member>) {
    var j := IndexOf(z, m.member, 0);
    if j < |z| then z[j := m] else z + [m]
  }

  /** The first `n` pairs applied in order. */
  function UpsertAll(z: seq<Member>, members: seq<Str>, scores: seq<real>, n: nat): seq<Member>
    requires n <= |members| && n <= |scores|
  {
    if n == 0 then z else Upsert(UpsertAll(z, members, scores, n - 1), Member(members[n - 1], scores[n - 1]))
  }

  function Zadded(z: seq<Member>, members: seq<Str>, scores: seq<real>): seq<Member>
    requires |members| == |scores|
  {
    StableSort(UpsertAll(z, members, scores, |scores|))
  }

  /** The reference: a map in which the last write of a member wins. */
  function Merge(s: map<Str, real>, members: seq<Str>, scores: seq<real>, n: nat): map<Str, real>
    requires n <= |members| && n <= |scores|
  {
    if n == 0 then s else Merge(s, members, scores, n - 1)[members[n - 1] := scores[n - 1]]
  }

  lemma {:induction false} AbsentFromScores(z: seq<Member>, member: Str)
    requires forall k :: 0 <= k < |z| ==> z[k].member != member
    ensures member !in Scores(z)
  {
    if |z| > 0 { AbsentFromScores(z[..|z| - 1], member); }
  }

  lemma {:induction false} ReplaceKeeps(z: seq<Member>, j: nat, m: Member)
    requires DupFree(z) && j < |z| && z[j].member == m.member
    ensures DupFree(z[j := m]) && Scores(z[j := m]) == Scores(z)[m.member := m.score]
  {
    var z' := z[..|z| - 1];
    if j == |z| - 1 {
      assert z[j := m][..j] == z';
    } else {
      ReplaceKeeps(z', j, m);
      ScoresOf(z', j);
      assert z[j := m][..|z| - 1] == z'[j := m];
    }
  }

  lemma {:induction false} UpsertKeeps(z: seq<Member>, m: Member)
    requires DupFree(z)
    ensures DupFree(Upsert(z, m)) && Scores(Upsert(z, m)) == Scores(z)[m.member := m.score]
    ensures m.member in Scores(z) <==> IndexOf(z, m.member, 0) < |z|
  {
    var j := IndexOf(z, m.member, 0);
    if j < |z| {
      ScoresOf(z, j);
      ReplaceKeeps(z, j, m);
    } else {
      AbsentFromScores(z, m.member);
      assert (z + [m])[..|z|] == z;
    }
  }

  lemma {:induction false} UpsertAllKeeps(z: seq<Member>, members: seq<Str>, scores: seq<real>, n: nat)
    requires DupFree(z) && n <= |members| && n <= |scores|
    ensures
      var r := UpsertAll(z, members, scores, n);
      DupFree(r) && Scores(r) == Merge(Scores(z), members, scores, n) && |r| >= |z|
  {
    if n > 0 {
      UpsertAllKeeps(z, members, scores, n - 1);
      UpsertKeeps(UpsertAll(z, members, scores, n - 1), Member(members[n - 1], scores[n - 1]));
    }
  }

  /**
   ZADD keeps the set duplicate-free and in ascending order, its contents are those of the
   last-write-wins map, and equal scores stay in the order they had before the sort.
   */
  lemma {:induction false} ZaddMeaning(z: seq<Member>, members: seq<Str>, scores: seq<real>, x: real)
    requires DupFree(z) && |members| == |scores|
    ensures
      var r := Zadded(z, members, scores);
      && Ordered(r)
      && Scores(r) == Merge(Scores(z), members, scores, |scores|)
      && |r| == |Scores(r)| >= |z| == |Scores(z)|
      && Ties(r, x) == Ties(UpsertAll(z, members, scores, |scores|), x)
  {
    var all := UpsertAll(z, members, scores, |scores|);
    UpsertAllKeeps(z, members, scores, |scores|);
    SortKeeps(all);
    SortIsStable(all, x);
    ScoresSize(z);
    ScoresSize(Zadded(z, members, scores));
  }

  method Zadd(current: seq<Member>, members: seq<Str>, scores: seq<real>)
    returns (next: seq<Member>, added: nat)
    requires |members| == |scores|
    ensures next == Zadded(current, members, scores) && added == |next| - |current|
  {
    next, added := current, 0;
    for i := 0 to |scores|
      invariant next == UpsertAll(current, members, scores, i) && added == |next| - |current|
    {
      var member, score := members[i], scores[i];
      var found, j := false, 0;
      ghost var before := next;
      while j < |next| && !found
        invariant j <= |before|
        invariant !found ==> next == before && IndexOf(before, member, 0) == IndexOf(before, member, j)
        invariant found ==>
          j < |before| && j == IndexOf(before, member, 0) && next == before[j := Member(member, score)]
        decreases |next| - j, !found
      {
        if next[j].member == member {
          next := next[j := next[j].(score := score)];
          found := true;
        } else {
          j := j + 1;
        }
      }
      if !found {
        next := next + [Member(member, score)];
        added := added + 1;
      }
    }
    next := StableSort(next);
  }

  // ----- ZREM

  /** The entries whose member is not to be removed. */
  function Without(z: seq<Member>, gone: set<Str>): (r: seq<Member>)
    ensures |r| <= |z|
  {
    if |z| == 0 then []
    else Without(z[..|z| - 1], gone) + if z[|z| - 1].member in gone then [] else [z[|z| - 1]]
  }

  lemma {:induction false} WithoutBound(z: seq<Member>, gone: set<Str>, top: real)
    requires forall i :: 0 <= i < |z| ==> z[i].score <= top
    ensures forall i :: 0 <= i < |Without(z, gone)| ==> Without(z, gone)[i].score <= top
  {
    if |z| > 0 { WithoutBound(z[..|z| - 1], gone, top); }
  }

  lemma {:induction false} WithoutAscending(z: seq<Member>, gone: set<Str>)
    requires Ascending(z)
    ensures Ascending(Without(z, gone))
  {
    if |z| > 0 {
      WithoutAscending(z[..|z| - 1], gone);
      WithoutBound(z[..|z| - 1], gone, z[|z| - 1].score);
    }
  }

  lemma {:induction false} RemoveAfterWrite(s: map<Str, real>, m: Member, gone: set<Str>)
    ensures s[m.member := m.score] - gone ==
            if m.member in gone then s - gone else (s - gone)[m.member := m.score]
  {
  }

  lemma {:induction false} WithoutKeeps(z: seq<Member>, gone: set<Str>)
    requires DupFree(z)
    ensures DupFree(Without(z, gone)) && Scores(Without(z, gone)) == Scores(z) - gone
  {
    if |z| > 0 {
      var z', l := z[..|z| - 1], z[|z| - 1];
      WithoutKeeps(z', gone);
      var r' := Without(z', gone);
      RemoveAfterWrite(Scores(z'), l, gone);
      if l.member in gone {
        assert r' + [] == r';
      } else {
        assert (r' + [l])[..|r'|] == r';
      }
    }
  }

  lemma {:induction false} WithoutTies(z: seq<Member>, gone: set<Str>, x: real)
    ensures Ties(Without(z, gone), x) == Without(Ties(z, x), gone)
  {
    if |z| > 0 {
      var z', l := z[..|z| - 1], z[|z| - 1];
      WithoutTies(z', gone, x);
      TiesSnoc(Without(z', gone), l, x);
      WithoutSnoc(Ties(z', x), l, gone);
      assert Without(z', gone) + [] == Without(z', gone) && Ties(z', x) + [] == Ties(z', x);
    }
  }

  lemma {:induction false} WithoutSnoc(z: seq<Member>, m: Member, gone: set<Str>)
    ensures Without(z + [m], gone) == Without(z, gone) + if m.member in gone then [] else [m]
  {
    assert (z + [m])[..|z|] == z;
  }

  /** ZREM removes exactly the named members and keeps the others with their scores and order, ties included. */
  lemma {:induction false} ZremMeaning(z: seq<Member>, gone: set<Str>, x: real)
    requires Ordered(z)
    ensures
      var r := Without(z, gone);
      && Ordered(r)
      && Scores(r) == Scores(z) - gone
      && |r| == |Scores(r)| && |z| == |Scores(z)|
      && Ties(r, x) == Without(Ties(z, x), gone)
  {
    WithoutKeeps(z, gone);
    WithoutAscending(z, gone);
    WithoutTies(z, gone, x);
    ScoresSize(z);
    ScoresSize(Without(z, gone));
  }

  method Zrem(current: seq<Member>, members: seq<Str>) returns (kept: seq<Member>, removed: nat)
    ensures kept == Without(current, set m | m in members) && removed == |current| - |kept|
  {
    var remove: set<Str> := {};
    for i := 0 to |members|
      invariant remove == set k | 0 <= k < i :: members[k]
    {
      remove := remove + {members[i]};
    }
    assert remove == set m | m in members;
    kept := [];
    for i := 0 to |current|
      invariant kept == Without(current[..i], remove)
    {
      assert current[..i + 1][..i] == current[..i];
      if current[i].member !in remove { kept := kept + [current[i]]; }
    }
    assert current[..|current|] == current;
    removed := |current| - |kept|;
  }

  // ----- ranks

  /** A negative rank counts from the end. */
  function Rank(n: nat, i: int): int {
    if i < 0 then i + n else i
  }

  predicate InRange(n: nat, start: int, end: int, i: int) {
    Rank(n, start) <= i <= Rank(n, end)
  }

  /** The first rank of an interval over `n` elements: a negative one counts from the end, and never below 0. */
  function FirstRank(n: nat, start: int): nat {
    if start >= 0 then start else if start + n >= 0 then start + n else 0
  }

  /** The last one: a negative one counts from the end, and never beyond it. */
  function LastRank(n: nat, end: int): int {
    if end < 0 then end + n else if end < n then end else n - 1
  }

  /** How many ranks there are. */
  function RankCount(n: nat, start: int, end: int): nat {
    if FirstRank(n, start) <= LastRank(n, end) then LastRank(n, end) - FirstRank(n, start) + 1 else 0
  }

  /**
   rangeBounds: the interval holds exactly the ranks between the two normalised ones, and
   `ok` says that there is one.
   */
  method RangeBounds(n: nat, start0: int, end0: int) returns (start: int, end: int, ok: bool)
    ensures ok ==> 0 <= start <= end < n
    ensures if RankCount(n, start0, end0) == 0 then !ok
            else ok && start == FirstRank(n, start0) && end == LastRank(n, end0)
    ensures forall i :: 0 <= i < n ==> (ok && start <= i <= end <==> InRange(n, start0, end0, i))
  {
    start, end := start0, end0;
    if start < 0 { start := start + n; }
    if end < 0 { end := end + n; }
    if start < 0 { start := 0; }
    if end >= n { end := n - 1; }
    if start > end || start >= n || end < 0 { return 0, 0, false; }
    ok := true;
  }

  /** The elements whose rank lies between the two normalised ranks, in order. */
  function Ranked<T>(s: seq<T>, start: int, end: int, n: nat): seq<T>
    requires n <= |s|
  {
    if n == 0 then []
    else Ranked(s, start, end, n - 1) + if InRange(|s|, start, end, n - 1) then [s[n - 1]] else []
  }

  lemma {:induction false} RankedIsSlice<T>(s: seq<T>, start: int, end: int, n: nat, lo: int, hi: int, ok: bool)
    requires n <= |s| && (ok ==> 0 <= lo <= hi < |s|)
    requires forall i :: 0 <= i < |s| ==> (ok && lo <= i <= hi <==> InRange(|s|, start, end, i))
    ensures Ranked(s, start, end, n) ==
            if !ok || n <= lo then [] else if n <= hi then s[lo..n] else s[lo..hi + 1]
  {
    hide InRange;
    if n > 0 {
      RankedIsSlice(s, start, end, n - 1, lo, hi, ok);
      assert InRange(|s|, start, end, n - 1) <==> ok && lo <= n - 1 <= hi;
      if ok && lo <= n - 1 <= hi {
        assert (if n - 1 <= lo then [] else s[lo..n - 1]) + [s[n - 1]] == s[lo..n];
      }
    }
  }

  /** The ranks 0 to -1 are all of them. */
  lemma {:induction false} RankedAll<T>(s: seq<T>, n: nat)
    requires n <= |s|
    ensures Ranked(s, 0, -1, n) == s[..n]
  {
    if n > 0 { RankedAll(s, n - 1); }
  }

  /** Position by position: the interval starts at its first rank and goes on without a gap. */
  lemma {:induction false} RankedAt<T>(s: seq<T>, start: int, end: int, k: nat)
    ensures |Ranked(s, start, end, |s|)| == RankCount(|s|, start, end)
    ensures k < RankCount(|s|, start, end) ==>
      FirstRank(|s|, start) + k < |s| && Ranked(s, start, end, |s|)[k] == s[FirstRank(|s|, start) + k]
  {
    hide Ranked;
    var lo, hi := FirstRank(|s|, start), LastRank(|s|, end);
    var ok := 0 <= lo <= hi < |s|;
    RankedIsSlice(s, start, end, |s|, lo, hi, ok);
  }

  /** What ZRANGE replies, position by position. */
  lemma {:induction false} ZrangeAt(z: seq<Member>, start: int, end: int, k: nat)
    ensures |Names(Ranked(z, start, end, |z|))| == RankCount(|z|, start, end)
    ensures k < RankCount(|z|, start, end) ==>
      FirstRank(|z|, start) + k < |z| && Names(Ranked(z, start, end, |z|))[k] == z[FirstRank(|z|, start) + k].member
  {
    hide Ranked, FirstRank, LastRank;
    RankedAt(z, start, end, k);
  }

  /** LRANGE: the slice between the normalised ranks. */
  method Lrange(list: seq<Str>, start0: int, end0: int) returns (r: seq<Str>)
    ensures r == Ranked(list, start0, end0, |list|)
    ensures |r| == RankCount(|list|, start0, end0)
    ensures forall k :: 0 <= k < |r| ==>
      FirstRank(|list|, start0) + k < |list| && r[k] == list[FirstRank(|list|, start0) + k]
  {
    var start, end, ok := RangeBounds(|list|, start0, end0);
    RankedIsSlice(list, start0, end0, |list|, start, end, ok);
    if !ok { return []; }
    r := list[start..end + 1];
  }

  function Names(z: seq<Member>): (r: seq<Str>)
    ensures |r| == |z|
  {
    seq(|z|, i requires 0 <= i < |z| => z[i].member)
  }

  /** ZRANGE: the names of exactly the members at the normalised ranks. */
  method Zrange(z: seq<Member>, start0: int, end0: int) returns (r: seq<Str>)
    ensures r == Names(Ranked(z, start0, end0, |z|))
    ensures |r| == RankCount(|z|, start0, end0)
    ensures forall k :: 0 <= k < |r| ==>
      FirstRank(|z|, start0) + k < |z| && r[k] == z[FirstRank(|z|, start0) + k].member
  {
    var start, end, ok := RangeBounds(|z|, start0, end0);
    RankedIsSlice(z, start0, end0, |z|, start, end, ok);
    r := [];
    if !ok { return; }
    for i := start to end + 1
      invariant |r| == i - start && forall k :: 0 <= k < |r| ==> r[k] == z[start + k].member
    {
      r := r + [z[i].member];
    }
  }

  // ----- runs

  datatype Write = Add(members: seq<Str>, scores: seq<real>) | Rem(members: seq<Str>)

  predicate Paired(w: Write) {
    w.Add? ==> |w.members| == |w.scores|
  }

  function Apply(z: seq<Member>, w: Write): seq<Member>
    requires Paired(w)
  {
    match w
    case Add(members, scores) => Zadded(z, members, scores)
    case Rem(members) => Without(z, set m | m in members)
  }

  function ApplyMap(s: map<Str, real>, w: Write): map<Str, real>
    requires Paired(w)
  {
    match w
    case Add(members, scores) => Merge(s, members, scores, |scores|)
    case Rem(members) => s - set m | m in members
  }

  function RunWrites(z: seq<Member>, ws: seq<Write>): seq<Member>
    requires forall i :: 0 <= i < |ws| ==> Paired(ws[i])
  {
    if |ws| == 0 then z else Apply(RunWrites(z, ws[..|ws| - 1]), ws[|ws| - 1])
  }

  function RunMap(s: map<Str, real>, ws: seq<Write>): map<Str, real>
    requires forall i :: 0 <= i < |ws| ==> Paired(ws[i])
  {
    if |ws| == 0 then s else ApplyMap(RunMap(s, ws[..|ws| - 1]), ws[|ws| - 1])
  }

  /** Where the member is first named, or the number of names. */
  function FirstMention(members: seq<Str>, member: Str, i: nat): (j: nat)
    requires i <= |members|
    ensures i <= j <= |members| && (j < |members| ==> members[j] == member)
    ensures forall k :: i <= k < j ==> members[k] != member
    decreases |members| - i
  {
    if i == |members| || members[i] == member then i else FirstMention(members, member, i + 1)
  }

  /**
   Which of two members of equal score comes first after a write: old members keep their
   order, which is `earlier`, new ones come after old ones and among themselves in the order
   in which the write first names them.
   */
  predicate FirstAmongTies(s: map<Str, real>, w: Write, a: Str, b: Str, earlier: bool) {
    if w.Rem? || (a in s && b in s) then earlier
    else if a in s || b in s then a in s
    else FirstMention(w.members, a, 0) < FirstMention(w.members, b, 0)
  }

  /**
   The reference for the order after a run, from the maps and the writes alone: by score, and
   among equal scores by the history of the two members. Only the start is a sequence.
   */
  predicate Precedes(z: seq<Member>, ws: seq<Write>, a: Str, b: Str)
    requires forall i :: 0 <= i < |ws| ==> Paired(ws[i])
  {
    if |ws| == 0 then IndexOf(z, a, 0) < IndexOf(z, b, 0)
    else
      var before, w := ws[..|ws| - 1], ws[|ws| - 1];
      var s := RunMap(Scores(z), ws);
      && a in s && b in s
      && if s[a] != s[b] then s[a] < s[b]
         else FirstAmongTies(RunMap(Scores(z), before), w, a, b, Precedes(z, before, a, b))
  }

  lemma {:induction false} IndexOfAt(z: seq<Member>, i: nat, k: nat)
    requires DupFree(z) && k <= i < |z|
    ensures IndexOf(z, z[i].member, k) == i
    decreases i - k
  {
    if k < i {
      Different(z, k, i);
      IndexOfAt(z, i, k + 1);
    }
  }

  lemma {:induction false} Different(z: seq<Member>, i: nat, j: nat)
    requires DupFree(z) && i < j < |z|
    ensures z[i].member != z[j].member
  {
    if j == |z| - 1 { ScoresOf(z[..j], i); } else { Different(z[..|z| - 1], i, j); }
  }

  /** Two members of one score stand among their ties in the order in which they stand in the set. */
  lemma {:induction false} TiesAt(z: seq<Member>, i: nat, j: nat, x: real) returns (p: nat, q: nat)
    requires i < j < |z| && z[i].score == z[j].score == x
    ensures p < q < |Ties(z, x)| && Ties(z, x)[p] == z[i] && Ties(z, x)[q] == z[j]
  {
    if j == |z| - 1 {
      p := TieAt(z[..j], i, x);
      q := |Ties(z[..j], x)|;
    } else {
      p, q := TiesAt(z[..|z| - 1], i, j, x);
    }
  }

  lemma {:induction false} TieAt(z: seq<Member>, i: nat, x: real) returns (p: nat)
    requires i < |z| && z[i].score == x
    ensures p < |Ties(z, x)| && Ties(z, x)[p] == z[i]
  {
    if i == |z| - 1 { p := |Ties(z[..i], x)|; } else { p := TieAt(z[..|z| - 1], i, x); }
  }

  lemma {:induction false} TiesFrom(z: seq<Member>, p: nat, q: nat, x: real) returns (i: nat, j: nat)
    requires p < q < |Ties(z, x)|
    ensures i < j < |z| && z[i] == Ties(z, x)[p] && z[j] == Ties(z, x)[q]
  {
    var t := Ties(z[..|z| - 1], x);
    if q == |t| {
      i := TieFrom(z[..|z| - 1], p, x);
      j := |z| - 1;
    } else {
      i, j := TiesFrom(z[..|z| - 1], p, q, x);
    }
  }

  lemma {:induction false} TieFrom(z: seq<Member>, p: nat, x: real) returns (i: nat)
    requires p < |Ties(z, x)|
    ensures i < |z| && z[i] == Ties(z, x)[p]
  {
    if p == |Ties(z[..|z| - 1], x)| { i := |z| - 1; } else { i := TieFrom(z[..|z| - 1], p, x); }
  }

  /** What a ZREM keeps stands in the order it stood in. */
  lemma {:induction false} WithoutFrom(z: seq<Member>, gone: set<Str>, p: nat, q: nat) returns (i: nat, j: nat)
    requires p < q < |Without(z, gone)|
    ensures i < j < |z| && z[i] == Without(z, gone)[p] && z[j] == Without(z, gone)[q]
  {
    if q == |Without(z[..|z| - 1], gone)| {
      i := OneFrom(z[..|z| - 1], gone, p);
      j := |z| - 1;
    } else {
      i, j := WithoutFrom(z[..|z| - 1], gone, p, q);
    }
  }

  lemma {:induction false} OneFrom(z: seq<Member>, gone: set<Str>, p: nat) returns (i: nat)
    requires p < |Without(z, gone)|
    ensures i < |z| && z[i] == Without(z, gone)[p]
  {
    if p == |Without(z[..|z| - 1], gone)| { i := |z| - 1; } else { i := OneFrom(z[..|z| - 1], gone, p); }
  }

  /** `all` is `z` with other scores, followed by members that `z` has not, in the order of their first mention. */
  ghost predicate Arrived(z: seq<Member>, all: seq<Member>, members: seq<Str>, n: nat) {
    && |all| >= |z|
    && (forall p :: 0 <= p < |z| ==> all[p].member == z[p].member)
    && (forall p :: |z| <= p < |all| ==> FirstMention(members, all[p].member, 0) < n)
    && (forall p, q :: |z| <= p < q < |all| ==>
          FirstMention(members, all[p].member, 0) < FirstMention(members, all[q].member, 0))
  }

  ghost predicate AllPresent(all: seq<Member>, members: seq<Str>, n: nat)
    requires n <= |members|
  {
    forall k :: 0 <= k < n ==> IndexOf(all, members[k], 0) < |all|
  }

  lemma {:induction false} NotMentionedBefore(all: seq<Member>, members: seq<Str>, n: nat)
    requires n < |members| && AllPresent(all, members, n) && IndexOf(all, members[n], 0) == |all|
    ensures FirstMention(members, members[n], 0) == n
  {
    forall k | 0 <= k < n ensures members[k] != members[n] {
      assert IndexOf(all, members[k], 0) < |all|;
    }
  }

  lemma {:induction false} ReplaceArrives(z: seq<Member>, all: seq<Member>, members: seq<Str>, n: nat, j: nat,
          m: Member)
    requires Arrived(z, all, members, n) && j < |all| && all[j].member == m.member
    ensures Arrived(z, all[j := m], members, n + 1)
  {
    hide FirstMention;
    var r := all[j := m];
    assert forall p :: 0 <= p < |all| ==> r[p].member == all[p].member;
  }

  lemma {:induction false} AppendArrives(z: seq<Member>, all: seq<Member>, members: seq<Str>, n: nat, m: Member)
    requires Arrived(z, all, members, n) && FirstMention(members, m.member, 0) == n
    ensures Arrived(z, all + [m], members, n + 1)
  {
    hide FirstMention;
    var r := all + [m];
    assert forall p :: 0 <= p < |all| ==> r[p] == all[p];
  }

  lemma {:induction false} UpsertPresent(all: seq<Member>, members: seq<Str>, n: nat, m: Member)
    requires n < |members| && m.member == members[n] && AllPresent(all, members, n)
    ensures AllPresent(Upsert(all, m), members, n + 1)
  {
    var j, r := IndexOf(all, m.member, 0), Upsert(all, m);
    forall k | 0 <= k < n + 1 ensures IndexOf(r, members[k], 0) < |r| {
      Present(r, members[k], if k < n then IndexOf(all, members[k], 0) else j);
    }
  }

  lemma {:induction false} UpsertArrives(z: seq<Member>, all: seq<Member>, members: seq<Str>, n: nat, m: Member)
    requires Arrived(z, all, members, n) && n < |members| && m.member == members[n] && AllPresent(all, members, n)
    ensures Arrived(z, Upsert(all, m), members, n + 1)
  {
    hide Arrived, AllPresent, FirstMention;
    var j := IndexOf(all, m.member, 0);
    if j < |all| {
      ReplaceArrives(z, all, members, n, j, m);
    } else {
      NotMentionedBefore(all, members, n);
      AppendArrives(z, all, members, n, m);
    }
  }

  lemma {:induction false} Present(z: seq<Member>, member: Str, i: nat)
    requires i < |z| && z[i].member == member
    ensures IndexOf(z, member, 0) < |z|
  {
  }

  lemma {:induction false} UpsertAllArrives(z: seq<Member>, members: seq<Str>, scores: seq<real>, n: nat)
    requires n <= |members| && n <= |scores|
    ensures var all := UpsertAll(z, members, scores, n); Arrived(z, all, members, n) && AllPresent(all, members, n)
  {
    hide Arrived, Upsert, IndexOf, FirstMention;
    if n == 0 {
      ArrivedAtFirst(z, members);
    } else {
      UpsertAllArrives(z, members, scores, n - 1);
      var all, m := UpsertAll(z, members, scores, n - 1), Member(members[n - 1], scores[n - 1]);
      UpsertArrives(z, all, members, n - 1, m);
      UpsertPresent(all, members, n - 1, m);
    }
  }

  lemma {:induction false} ArrivedAtFirst(z: seq<Member>, members: seq<Str>)
    ensures Arrived(z, z, members, 0)
  {
  }

  /** Of two entries before the sort, the earlier one is the first among ties. */
  lemma {:induction false} ArrivalOrder(z: seq<Member>, members: seq<Str>, scores: seq<real>, p: nat, q: nat)
    requires DupFree(z) && |members| == |scores|
    requires p < q < |UpsertAll(z, members, scores, |scores|)|
    ensures
      var all := UpsertAll(z, members, scores, |scores|);
      var a, b := all[p].member, all[q].member;
      FirstAmongTies(Scores(z), Add(members, scores), a, b, IndexOf(z, a, 0) < IndexOf(z, b, 0))
  {
    hide UpsertAll, Scores, DupFree, FirstMention;
    var all := UpsertAll(z, members, scores, |scores|);
    UpsertAllArrives(z, members, scores, |scores|);
    UpsertAllKeeps(z, members, scores, |scores|);
    var a, b := all[p].member, all[q].member;
    if q < |z| {
      IndexOfAt(z, p, 0);
      IndexOfAt(z, q, 0);
      ScoresOf(z, p);
      ScoresOf(z, q);
    } else {
      NewMember(z, all, q);
      if p < |z| { ScoresOf(z, p); } else { NewMember(z, all, p); }
    }
  }

  lemma {:induction false} NewMember(z: seq<Member>, all: seq<Member>, q: nat)
    requires DupFree(all) && |z| <= q < |all| && forall p :: 0 <= p < |z| ==> all[p].member == z[p].member
    ensures all[q].member !in Scores(z)
  {
    hide DupFree;
    forall k | 0 <= k < |z| ensures z[k].member != all[q].member { Different(all, k, q); }
    AbsentFromScores(z, all[q].member);
  }

  /** One write: of two entries with the same score the first is the first among ties. */
  lemma {:induction false} WriteOrder(z: seq<Member>, w: Write, i: nat, j: nat)
    requires Ordered(z) && Paired(w) && i < j < |Apply(z, w)| && Apply(z, w)[i].score == Apply(z, w)[j].score
    ensures
      var a, b := Apply(z, w)[i].member, Apply(z, w)[j].member;
      FirstAmongTies(Scores(z), w, a, b, IndexOf(z, a, 0) < IndexOf(z, b, 0))
  {
    hide Zadded, Without, UpsertAll, Scores, DupFree, Ties, FirstAmongTies, Ascending, Merge;
    var r := Apply(z, w);
    match w
    case Add(members, scores) =>
      var x := r[i].score;
      ZaddMeaning(z, members, scores, x);
      var p, q := TiesAt(r, i, j, x);
      var i', j' := TiesFrom(UpsertAll(z, members, scores, |scores|), p, q, x);
      ArrivalOrder(z, members, scores, i', j');
    case Rem(members) =>
      var p, q := WithoutFrom(z, (set m | m in members), i, j);
      IndexOfAt(z, p, 0);
      IndexOfAt(z, q, 0);
      RemovalOrder(Scores(z), w, z[p].member, z[q].member);
  }

  lemma {:induction false} RemovalOrder(s: map<Str, real>, w: Write, a: Str, b: Str)
    requires w.Rem?
    ensures FirstAmongTies(s, w, a, b, true)
  {
  }

  /** Over every run from an ordered set: duplicate-free, ascending, and the contents of the map. */
  lemma {:induction false} RunsStayOrdered(z: seq<Member>, ws: seq<Write>)
    requires Ordered(z) && forall i :: 0 <= i < |ws| ==> Paired(ws[i])
    ensures Ordered(RunWrites(z, ws)) && Scores(RunWrites(z, ws)) == RunMap(Scores(z), ws)
    ensures |RunWrites(z, ws)| == |RunMap(Scores(z), ws)|
  {
    if |ws| == 0 {
      ScoresSize(z);
    } else {
      var before := RunWrites(z, ws[..|ws| - 1]);
      RunsStayOrdered(z, ws[..|ws| - 1]);
      match ws[|ws| - 1] {
        case Add(members, scores) => ZaddMeaning(before, members, scores, 0.0);
        case Rem(members) => ZremMeaning(before, (set m | m in members), 0.0);
      }
    }
  }

  /**
   Over every run the order is exactly that of the reference: by score, equal scores by their
   history. With RunsStayOrdered this determines the whole sequence.
   */
  lemma {:induction false} RunsKeepTieOrder(z: seq<Member>, ws: seq<Write>, i: nat, j: nat)
    requires Ordered(z) && forall i :: 0 <= i < |ws| ==> Paired(ws[i])
    requires i < |RunWrites(z, ws)| && j < |RunWrites(z, ws)|
    ensures var r := RunWrites(z, ws); Precedes(z, ws, r[i].member, r[j].member) <==> i < j
    decreases |ws|, 1
  {
    hide Apply, ApplyMap, DupFree, IndexOf, FirstAmongTies;
    var r := RunWrites(z, ws);
    if |ws| == 0 {
      IndexOfAt(z, i, 0);
      IndexOfAt(z, j, 0);
    } else {
      var before, w := ws[..|ws| - 1], ws[|ws| - 1];
      RunsStayOrdered(z, before);
      RunsStayOrdered(z, ws);
      ScoresOf(r, i);
      ScoresOf(r, j);
      if r[i].score == r[j].score { TiesInRuns(z, ws, i, j); }
    }
  }

  /**
   After every run of ZADD and ZREM the reply of ZRANGE 0 -1 lists exactly the members of the
   map, each once, and one stands before another exactly when the reference says so.
   */
  lemma {:induction false} RangeAfterRuns(z: seq<Member>, ws: seq<Write>, i: nat, j: nat)
    requires Ordered(z) && forall i :: 0 <= i < |ws| ==> Paired(ws[i])
    ensures
      var r := RunWrites(z, ws);
      var reply := Names(Ranked(r, 0, -1, |r|));
      && |reply| == |RunMap(Scores(z), ws)|
      && (i < |reply| ==> reply[i] in RunMap(Scores(z), ws))
      && (i < |reply| && j < |reply| ==> (Precedes(z, ws, reply[i], reply[j]) <==> i < j))
  {
    hide Precedes, RunWrites, RunMap, Ranked, Ordered;
    var r := RunWrites(z, ws);
    RunsStayOrdered(z, ws);
    ZrangeAt(r, 0, -1, i);
    ZrangeAt(r, 0, -1, j);
    if i < |r| { MemberScored(r, i); }
    if i < |r| && j < |r| { RunsKeepTieOrder(z, ws, i, j); }
  }

  lemma {:induction false} MemberScored(z: seq<Member>, i: nat)
    requires Ordered(z) && i < |z|
    ensures z[i].member in Scores(z)
  {
    ScoresOf(z, i);
  }

  lemma {:induction false} EarlierIff(z: seq<Member>, ws: seq<Write>, a: Str, b: Str)
    requires Ordered(z) && forall i :: 0 <= i < |ws| ==> Paired(ws[i])
    requires a in Scores(RunWrites(z, ws)) && b in Scores(RunWrites(z, ws))
    ensures var r := RunWrites(z, ws); Precedes(z, ws, a, b) <==> IndexOf(r, a, 0) < IndexOf(r, b, 0)
    decreases |ws|, 2
  {
    hide RunWrites, Precedes, DupFree, Scores;
    var r := RunWrites(z, ws);
    var i, j := IndexOf(r, a, 0), IndexOf(r, b, 0);
    if i == |r| { AbsentFromScores(r, a); }
    if j == |r| { AbsentFromScores(r, b); }
    RunsKeepTieOrder(z, ws, i, j);
  }

  lemma {:induction false} TiesInRuns(z: seq<Member>, ws: seq<Write>, i: nat, j: nat)
    requires Ordered(z) && |ws| > 0 && forall i :: 0 <= i < |ws| ==> Paired(ws[i])
    requires i < |RunWrites(z, ws)| && j < |RunWrites(z, ws)| && RunWrites(z, ws)[i].score == RunWrites(z, ws)[j].score
    ensures
      var before, w := ws[..|ws| - 1], ws[|ws| - 1];
      var a, b := RunWrites(z, ws)[i].member, RunWrites(z, ws)[j].member;
      FirstAmongTies(RunMap(Scores(z), before), w, a, b, Precedes(z, before, a, b)) <==> i < j
    decreases |ws|, 0
  {
    hide Apply, DupFree, IndexOf, Precedes, Scores, Ascending, FirstMention;
    var before, w := ws[..|ws| - 1], ws[|ws| - 1];
    var r, last := RunWrites(z, ws), RunWrites(z, before);
    RunsStayOrdered(z, before);
    RunsStayOrdered(z, ws);
    ScoresOf(r, i);
    ScoresOf(r, j);
    var a, b := r[i].member, r[j].member;
    if a in Scores(last) && b in Scores(last) { EarlierIff(z, before, a, b); }
    if i < j { WriteOrder(last, w, i, j); }
    if j < i { WriteOrder(last, w, j, i); }
    if w.Rem? { KeptWasThere(RunMap(Scores(z), before), w); }
  }

  lemma {:induction false} KeptWasThere(s: map<Str, real>, w: Write)
    requires w.Rem?
    ensures forall m :: m in ApplyMap(s, w) ==> m in s
  {
  }
}
