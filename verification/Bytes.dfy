/** Bytes and byte strings: Go's `byte`, `[]byte` and `string` are all modelled with these. */
module Bytes {
  type byte = x: int | 0 <= x < 256

  type Str = seq<byte>

  const LF: byte := 10
  const CR: byte := 13
  const CRLF: Str := [CR, LF]

  datatype Option<+T> = None | Some(value: T)

  /** The bytes of `s` from position `i` up to `j`. */
  function Sub(s: Str, i: nat, j: nat): (r: Str)
    requires i <= j <= |s|
    ensures |r| == j - i
    decreases j
  {
    if i == j then [] else Sub(s, i, j - 1) + [s[j - 1]]
  }

  lemma {:induction false} SubIndex(s: Str, i: nat, j: nat, k: nat)
    requires i <= j <= |s| && k < j - i
    ensures Sub(s, i, j)[k] == s[i + k]
    decreases j
  {
    if i + k < j - 1 { SubIndex(s, i, j - 1, k); }
  }

  /** The bytes `x` stand at position `p` of `s`. */
  predicate At(s: Str, p: nat, x: Str)
    decreases |x|
  {
    p + |x| <= |s| && (|x| == 0 || (x[|x| - 1] == s[p + |x| - 1] && At(s, p, x[..|x| - 1])))
  }

  lemma {:induction false} AtWithin(s: Str, p: nat, x: Str)
    requires At(s, p, x)
    ensures p + |x| <= |s|
  {
  }

  lemma {:induction false} AtIndex(s: Str, p: nat, x: Str, k: nat)
    requires At(s, p, x) && k < |x|
    ensures p + |x| <= |s| && s[p + k] == x[k]
    decreases |x|
  {
    if k < |x| - 1 { AtIndex(s, p, x[..|x| - 1], k); }
  }

  lemma {:induction false} AtSum(s: Str, p: nat, a: Str, b: Str)
    requires At(s, p, a + b)
    ensures At(s, p, a) && At(s, p + |a|, b)
    decreases |b|
  {
    if |b| == 0 {
      assert a + b == a;
    } else {
      var b' := b[..|b| - 1];
      assert (a + b)[..|a + b| - 1] == a + b';
      AtSum(s, p, a, b');
    }
  }

  lemma {:induction false} AtJoin(s: Str, p: nat, a: Str, b: Str)
    requires At(s, p, a) && At(s, p + |a|, b)
    ensures At(s, p, a + b)
    decreases |b|
  {
    if |b| == 0 {
      assert a + b == a;
    } else {
      AtJoin(s, p, a, b[..|b| - 1]);
      assert (a + b)[..|a + b| - 1] == a + b[..|b| - 1];
    }
  }

  lemma {:induction false} AtSub(s: Str, i: nat, j: nat)
    requires i <= j <= |s|
    ensures At(s, i, Sub(s, i, j))
    decreases j
  {
    if i < j {
      AtSub(s, i, j - 1);
      assert Sub(s, i, j)[..j - 1 - i] == Sub(s, i, j - 1);
    }
  }

  lemma {:induction false} SubSame(s: Str, t: Str, i: nat, j: nat)
    requires i <= j <= |s| && j <= |t| && forall k :: i <= k < j ==> s[k] == t[k]
    ensures Sub(s, i, j) == Sub(t, i, j)
    decreases j
  {
    if i < j { SubSame(s, t, i, j - 1); }
  }

  lemma {:induction false} SubAt(s: Str, p: nat, x: Str)
    requires At(s, p, x)
    ensures p + |x| <= |s| && Sub(s, p, p + |x|) == x
    decreases |x|
  {
    if |x| > 0 {
      SubAt(s, p, x[..|x| - 1]);
      assert x == x[..|x| - 1] + [x[|x| - 1]];
    }
  }

  lemma {:induction false} SubSum(s: Str, i: nat, j: nat, k: nat)
    requires i <= j <= k <= |s|
    ensures Sub(s, i, j) + Sub(s, j, k) == Sub(s, i, k)
    decreases k
  {
    if j < k {
      SubSum(s, i, j, k - 1);
      assert Sub(s, i, j) + Sub(s, j, k) == Sub(s, i, j) + Sub(s, j, k - 1) + [s[k - 1]];
    }
  }

  lemma {:induction false} SubTake(s: Str, i: nat, j: nat, n: nat)
    requires i <= j <= |s| && n <= j - i
    ensures Sub(s, i, j)[..n] == Sub(s, i, i + n)
  {
    SubSum(s, i, i + n, j);
  }

  lemma {:induction false} SubTail(s: Str, i: nat, j: nat)
    requires i < j <= |s|
    ensures Sub(s, i, j)[0] == s[i] && Sub(s, i, j)[1..] == Sub(s, i + 1, j)
  {
    SubSum(s, i, i + 1, j);
    assert Sub(s, i, i + 1) == [s[i]];
  }

  /** What stands in the first `n` bytes stays there when only later bytes change. */
  lemma {:induction false} AtKept(s: Str, s': Str, p: nat, x: Str, n: nat)
    requires At(s, p, x) && p + |x| <= n <= |s| && n <= |s'| && forall k :: 0 <= k < n ==> s'[k] == s[k]
    ensures At(s', p, x)
    decreases |x|
  {
    if |x| > 0 { AtKept(s, s', p, x[..|x| - 1], n); }
  }

  lemma {:induction false} AtPointwise(s: Str, p: nat, x: Str)
    requires p + |x| <= |s| && forall k :: 0 <= k < |x| ==> s[p + k] == x[k]
    ensures At(s, p, x)
    decreases |x|
  {
    if |x| > 0 { AtPointwise(s, p, x[..|x| - 1]); }
  }

  lemma {:induction false} SubIsSlice(s: Str, i: nat, j: nat)
    requires i <= j <= |s|
    ensures Sub(s, i, j) == s[i..j]
  {
    forall k | 0 <= k < j - i ensures Sub(s, i, j)[k] == s[i..j][k] { SubIndex(s, i, j, k); }
  }

  // ----- the elements of a sequence

  function Elements<T>(s: seq<T>): set<T> {
    set x | x in s
  }

  lemma {:induction false} ElementsSnoc<T>(s: seq<T>, x: T)
    ensures Elements(s + [x]) == Elements(s) + {x}
  {
  }

  lemma {:induction false} ElementsOfNothing<T>()
    ensures Elements<T>([]) == {}
  {
  }

  lemma {:induction false} ElementsSize<T>(s: seq<T>)
    ensures |Elements(s)| <= |s|
  {
    if |s| == 0 {
      ElementsOfNothing<T>();
    } else {
      ElementsSize(s[..|s| - 1]);
      ElementsSnoc(s[..|s| - 1], s[|s| - 1]);
      assert s == s[..|s| - 1] + [s[|s| - 1]];
    }
  }
}
