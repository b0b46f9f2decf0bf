/** Go's order on strings, and the sorted lists in which SMEMBERS and HGETALL reply. */
module TextOrder {
  import opened Bytes

  /** Byte by byte; a prefix comes first. */
  predicate Less(a: Str, b: Str)
    decreases |a|
  {
    |b| > 0 && (|a| == 0 || a[0] < b[0] || (a[0] == b[0] && Less(a[1..], b[1..])))
  }

  /** Less than: a proper prefix, or a smaller byte where the two first differ. */
  lemma {:induction false} LessIs(a: Str, b: Str, d: nat)
    requires d <= |a| && d <= |b| && a[..d] == b[..d]
    requires d == |a| || d == |b| || a[d] != b[d]
    ensures Less(a, b) <==> d < |b| && (d == |a| || a[d] < b[d])
    decreases d
  {
    if d > 0 {
      assert a[0] == a[..d][0] == b[..d][0] == b[0];
      assert a[1..][..d - 1] == a[..d][1..] && b[1..][..d - 1] == b[..d][1..];
      LessIs(a[1..], b[1..], d - 1);
    }
  }

  lemma {:induction false} LessIsStrict(a: Str, b: Str)
    ensures !(Less(a, b) && Less(b, a)) && (a == b || Less(a, b) || Less(b, a))
    decreases |a|
  {
    if |a| > 0 && |b| > 0 {
      LessIsStrict(a[1..], b[1..]);
      assert a == [a[0]] + a[1..] && b == [b[0]] + b[1..];
    }
  }

  lemma {:induction false} LessTrans(a: Str, b: Str, c: Str)
    requires Less(a, b) && Less(b, c)
    ensures Less(a, c)
    decreases |a|
  {
    if |a| > 0 && a[0] == b[0] == c[0] { LessTrans(a[1..], b[1..], c[1..]); }
  }

  predicate Ascending(s: seq<Str>) {
    forall i, j :: 0 <= i < j < |s| ==> Less(s[i], s[j])
  }

  // ----- sort.Strings, on different strings

  function Insert(s: seq<Str>, x: Str): (r: seq<Str>)
    ensures |r| == |s| + 1
  {
    if |s| == 0 || Less(s[|s| - 1], x) then s + [x] else Insert(s[..|s| - 1], x) + [s[|s| - 1]]
  }

  function Sorted(s: seq<Str>): seq<Str> {
    if |s| == 0 then [] else Insert(Sorted(s[..|s| - 1]), s[|s| - 1])
  }

  lemma {:induction false} InsertElements(s: seq<Str>, x: Str)
    ensures Elements(Insert(s, x)) == Elements(s) + {x}
  {
    if |s| > 0 && !Less(s[|s| - 1], x) {
      InsertElements(s[..|s| - 1], x);
      ElementsSnoc(s[..|s| - 1], s[|s| - 1]);
      ElementsSnoc(Insert(s[..|s| - 1], x), s[|s| - 1]);
      assert s == s[..|s| - 1] + [s[|s| - 1]];
    } else {
      ElementsSnoc(s, x);
    }
  }

  lemma {:induction false} InsertAscends(s: seq<Str>, x: Str)
    requires Ascending(s) && x !in Elements(s)
    ensures Ascending(Insert(s, x))
  {
    hide Less;
    if |s| == 0 {
    } else if Less(s[|s| - 1], x) {
      forall i | 0 <= i < |s| ensures Less(s[i], x) {
        if i < |s| - 1 { LessTrans(s[i], s[|s| - 1], x); }
      }
    } else {
      var front, last := s[..|s| - 1], s[|s| - 1];
      ElementsSnoc(front, last);
      assert s == front + [last];
      InsertAscends(front, x);
      InsertElements(front, x);
      LessIsStrict(last, x);
      var r := Insert(front, x);
      forall i | 0 <= i < |r| ensures Less(r[i], last) {
        assert r[i] in Elements(r);
        if r[i] != x {
          var k :| 0 <= k < |front| && front[k] == r[i];
        }
      }
    }
  }

  /** Whatever order the strings come in, they leave in the one ascending order. */
  lemma {:induction false} SortAscends(s: seq<Str>)
    requires |Elements(s)| == |s|
    ensures Ascending(Sorted(s)) && Elements(Sorted(s)) == Elements(s)
  {
    if |s| > 0 {
      var front, last := s[..|s| - 1], s[|s| - 1];
      assert s == front + [last];
      ElementsSnoc(front, last);
      ElementsSize(front);
      SortAscends(front);
      InsertAscends(Sorted(front), last);
      InsertElements(Sorted(front), last);
    }
  }

  /** An ascending list is determined by its elements. */
  lemma {:induction false} AscendingIsUnique(a: seq<Str>, b: seq<Str>)
    requires Ascending(a) && Ascending(b) && Elements(a) == Elements(b)
    ensures a == b
  {
    hide Less;
    if |a| > 0 && |b| > 0 {
      var x, y := a[|a| - 1], b[|b| - 1];
      LastIsGreatest(a, b);
      LastIsGreatest(b, a);
      LessIsStrict(x, y);
      WithoutLast(a);
      WithoutLast(b);
      AscendingIsUnique(a[..|a| - 1], b[..|b| - 1]);
      assert a == a[..|a| - 1] + [x] && b == b[..|b| - 1] + [y];
    } else {
      Inhabited(a);
      Inhabited(b);
    }
  }

  lemma {:induction false} Inhabited(s: seq<Str>)
    ensures |s| == 0 <==> Elements(s) == {}
  {
    if |s| > 0 { assert s[0] in Elements(s); }
  }

  lemma {:induction false} LastIsGreatest(a: seq<Str>, b: seq<Str>)
    requires Ascending(a) && |a| > 0 && |b| > 0 && Elements(a) == Elements(b)
    ensures b[|b| - 1] == a[|a| - 1] || Less(b[|b| - 1], a[|a| - 1])
  {
    hide Less;
    var y := b[|b| - 1];
    assert y in Elements(b);
    var k :| 0 <= k < |a| && a[k] == y;
  }

  lemma {:induction false} WithoutLast(a: seq<Str>)
    requires Ascending(a) && |a| > 0
    ensures Ascending(a[..|a| - 1]) && Elements(a[..|a| - 1]) == Elements(a) - {a[|a| - 1]}
  {
    var front, last := a[..|a| - 1], a[|a| - 1];
    assert a == front + [last];
    ElementsSnoc(front, last);
    LessIsStrict(last, last);
    forall k | 0 <= k < |front| ensures front[k] != last {
      assert Less(a[k], a[|a| - 1]);
    }
  }

  // ----- the replies

  /** The members of a set, visited in any order and then sorted. */
  method ListMembers(m: set<Str>) returns (r: seq<Str>)
    ensures Ascending(r) && Elements(r) == m
  {
    hide Sorted, Ascending, Elements;
    var members: seq<Str> := [];
    var rest := m;
    assert Elements(members) == {} by { ElementsOfNothing<Str>(); }
    while rest != {}
      invariant rest <= m && Elements(members) == m - rest && |Elements(members)| == |members|
      decreases rest
    {
      var x :| x in rest;
      ElementsSnoc(members, x);
      rest := rest - {x};
      members := members + [x];
    }
    SortAscends(members);
    r := Sorted(members);
  }

  /** The fields of a flat list of fields and values. */
  function FieldsOf(r: seq<Str>): seq<Str> {
    seq(|r| / 2, i requires 0 <= i < |r| / 2 => r[2 * i])
  }

  /** The hash that a flat list of fields and values describes. */
  function Pairs(r: seq<Str>, n: nat): map<Str, Str>
    requires 2 * n <= |r|
  {
    if n == 0 then map[] else Pairs(r, n - 1)[r[2 * n - 2] := r[2 * n - 1]]
  }

  lemma {:induction false} PairsSame(a: seq<Str>, b: seq<Str>, n: nat)
    requires 2 * n <= |a| && 2 * n <= |b| && a[..2 * n] == b[..2 * n]
    ensures Pairs(a, n) == Pairs(b, n)
  {
    if n > 0 {
      assert a[..2 * (n - 1)] == a[..2 * n][..2 * (n - 1)] && b[..2 * (n - 1)] == b[..2 * n][..2 * (n - 1)];
      PairsSame(a, b, n - 1);
      assert a[2 * n - 2] == a[..2 * n][2 * n - 2] && a[2 * n - 1] == a[..2 * n][2 * n - 1];
      assert b[2 * n - 2] == b[..2 * n][2 * n - 2] && b[2 * n - 1] == b[..2 * n][2 * n - 1];
    }
  }

  lemma {:induction false} PairsSnoc(r: seq<Str>, field: Str, value: Str)
    requires |r| % 2 == 0
    ensures Pairs(r + [field, value], |r| / 2 + 1) == Pairs(r, |r| / 2)[field := value]
    ensures FieldsOf(r + [field, value]) == FieldsOf(r) + [field]
  {
    var r' := r + [field, value];
    assert r'[..|r|] == r[..|r|];
    PairsSame(r', r, |r| / 2);
  }

  /** The fields of a hash in ascending order, each followed by its value. */
  method ListFields(h: map<Str, Str>) returns (r: seq<Str>)
    ensures |r| == 2 * |h| && Ascending(FieldsOf(r)) && Pairs(r, |r| / 2) == h
  {
    hide Ascending, Elements, Pairs, FieldsOf;
    var fields := ListMembers(h.Keys);
    r := [];
    assert FieldsOf(r) == fields[..0] == [] && Pairs(r, 0) == map[] by { NoPairs(); }
    ElementsOfNothing<Str>();
    for i := 0 to |fields|
      invariant |r| == 2 * i && FieldsOf(r) == fields[..i]
      invariant Pairs(r, i).Keys == Elements(fields[..i])
      invariant forall f :: f in Pairs(r, i) ==> f in h && Pairs(r, i)[f] == h[f]
    {
      assert fields[i] in h by { InElements(fields, i); }
      PairsSnoc(r, fields[i], h[fields[i]]);
      ElementsSnoc(fields[..i], fields[i]);
      assert fields[..i + 1] == fields[..i] + [fields[i]];
      r := r + [fields[i], h[fields[i]]];
    }
    assert fields[..|fields|] == fields;
    assert Pairs(r, |fields|) == h;
    assert |fields| == |h| by { AscendingSize(fields); assert h.Keys == Elements(fields); KeysSize(h); }
  }

  lemma {:induction false} NoPairs()
    ensures FieldsOf([]) == [] && Pairs([], 0) == map[]
  {
  }

  lemma {:induction false} KeysSize(h: map<Str, Str>)
    ensures |h.Keys| == |h|
  {
  }

  lemma {:induction false} InElements(s: seq<Str>, i: nat)
    requires i < |s|
    ensures s[i] in Elements(s)
  {
  }

  lemma {:induction false} AscendingSize(s: seq<Str>)
    requires Ascending(s)
    ensures |Elements(s)| == |s|
  {
    hide Less;
    if |s| > 0 {
      WithoutLast(s);
      AscendingSize(s[..|s| - 1]);
      assert s[|s| - 1] in Elements(s);
    } else {
      ElementsOfNothing<Str>();
    }
  }

  lemma {:induction false} PairAt(r: seq<Str>, n: nat, i: nat)
    requires 2 * n <= |r| && i < n && Ascending(FieldsOf(r))
    ensures r[2 * i] in Pairs(r, n) && Pairs(r, n)[r[2 * i]] == r[2 * i + 1]
  {
    if i < n - 1 {
      PairAt(r, n - 1, i);
      assert Less(FieldsOf(r)[i], FieldsOf(r)[n - 1]);
      LessIsStrict(r[2 * i], r[2 * i]);
    }
  }

  lemma {:induction false} PairKeys(r: seq<Str>, n: nat)
    requires 2 * n <= |r|
    ensures Pairs(r, n).Keys == Elements(FieldsOf(r)[..n])
  {
    if n == 0 {
      ElementsOfNothing<Str>();
    } else {
      PairKeys(r, n - 1);
      ElementsSnoc(FieldsOf(r)[..n - 1], r[2 * n - 2]);
      assert FieldsOf(r)[..n] == FieldsOf(r)[..n - 1] + [r[2 * n - 2]];
    }
  }

  /** The reply of HGETALL is determined by the hash. */
  lemma {:induction false} FieldListIsUnique(a: seq<Str>, b: seq<Str>)
    requires |a| % 2 == 0 && |b| % 2 == 0 && Ascending(FieldsOf(a)) && Ascending(FieldsOf(b))
    requires Pairs(a, |a| / 2) == Pairs(b, |b| / 2)
    ensures a == b
  {
    hide Less, Pairs;
    PairKeys(a, |a| / 2);
    PairKeys(b, |b| / 2);
    assert FieldsOf(a)[..|a| / 2] == FieldsOf(a) && FieldsOf(b)[..|b| / 2] == FieldsOf(b);
    AscendingIsUnique(FieldsOf(a), FieldsOf(b));
    assert |a| == 2 * |FieldsOf(a)| && |b| == 2 * |FieldsOf(b)|;
    forall i | 0 <= i < |a| ensures a[i] == b[i] {
      assert FieldsOf(a)[i / 2] == FieldsOf(b)[i / 2];
      PairAt(a, |a| / 2, i / 2);
      PairAt(b, |b| / 2, i / 2);
      assert i == 2 * (i / 2) || i == 2 * (i / 2) + 1;
    }
  }
}
