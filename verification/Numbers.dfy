/** Decimal integers: the hand-written parsers of the RESP reader, and strconv's Itoa and Atoi. */
module Numbers {
  import opened Bytes

  const MaxInt32: int := 0x7FFF_FFFF
  const MaxUint32: int := 0xFFFF_FFFF
  const TwoTo32: int := 0x1_0000_0000
  const MaxInt64: int := 0x7FFF_FFFF_FFFF_FFFF
  const MinInt64: int := -0x8000_0000_0000_0000
  const MaxUint64: int := 0xFFFF_FFFF_FFFF_FFFF
  const TwoTo64: int := 0x1_0000_0000_0000_0000

  const ZERO: byte := 48
  const MINUS: byte := 45
  const PLUS: byte := 43

  predicate IsDigit(c: byte) {
    48 <= c <= 57
  }

  function DigitVal(c: byte): int {
    c as int - 48
  }

  /** Go's `c - '0'` on a byte: it wraps around below '0'. */
  function DigitByte(c: byte): (d: int)
    ensures d <= 9 <==> IsDigit(c)
    ensures IsDigit(c) ==> d == DigitVal(c)
    ensures d == 253 <==> c == MINUS
  {
    DigitVal(c) % 256
  }

  predicate Digits(b: Str) {
    forall i :: 0 <= i < |b| ==> IsDigit(b[i])
  }

  /** The value of a digit string, leading zeros included. */
  function Val(b: Str): (v: int) {
    if |b| == 0 then 0 else 10 * Val(b[..|b| - 1]) + DigitVal(b[|b| - 1])
  }

  function Pow10(k: nat): (p: nat)
    ensures p > 0
  {
    if k == 0 then 1 else 10 * Pow10(k - 1)
  }

  lemma {:induction false} ValBound(b: Str)
    requires Digits(b)
    ensures 0 <= Val(b) < Pow10(|b|)
  {
    if |b| > 0 { ValBound(b[..|b| - 1]); }
  }

  lemma {:induction false} Pow10Grows(j: nat, k: nat)
    requires j <= k
    ensures Pow10(j) <= Pow10(k)
    decreases k
  {
    if j < k { Pow10Grows(j, k - 1); }
  }

  lemma {:induction false} Pow10Table()
    ensures Pow10(9) == 1_000_000_000 && Pow10(10) == 10_000_000_000 && Pow10(11) == 100_000_000_000
    ensures Pow10(18) == 1_000_000_000_000_000_000 && Pow10(19) == 10_000_000_000_000_000_000
    ensures Pow10(20) == 100_000_000_000_000_000_000
  {
    assert Pow10(6) == 1_000_000;
    assert Pow10(12) == 1_000_000_000_000;
    assert Pow10(17) == 100_000_000_000_000_000;
  }

  lemma {:induction false} ValSnoc(b: Str, i: nat)
    requires i < |b|
    ensures Val(b[..i + 1]) == 10 * Val(b[..i]) + DigitVal(b[i])
  {
    assert b[..i + 1][..i] == b[..i];
  }

  /** A digit string that starts with a nonzero digit has a value of full length. */
  lemma {:induction false} ValLower(b: Str)
    requires |b| > 0 && Digits(b) && b[0] != ZERO
    ensures Val(b) >= Pow10(|b| - 1)
  {
    if |b| > 1 {
      ValLower(b[..|b| - 1]);
    } else {
      assert b[..0] == [];
    }
  }

  // ----- strconv.AppendInt and strconv.Itoa

  function Dec(n: nat): (d: Str)
    ensures |d| > 0
  {
    if n < 10 then [48 + n] else Dec(n / 10) + [48 + n % 10]
  }

  /** Decimal notation is read back to the number it was written from, and is canonical. */
  lemma {:induction false} DecVal(n: nat)
    ensures Digits(Dec(n)) && Val(Dec(n)) == n
    ensures n > 0 ==> Dec(n)[0] != ZERO
  {
    if n < 10 {
      assert Dec(n)[..0] == [];
    } else {
      DecVal(n / 10);
      var d := Dec(n);
      assert d[..|d| - 1] == Dec(n / 10);
      assert d[0] == Dec(n / 10)[0];
    }
  }

  lemma {:induction false} DecSnoc(n: nat)
    requires n >= 10
    ensures Dec(n) == Dec(n / 10) + [48 + n % 10]
  {
  }

  lemma {:induction false} DecLength(n: nat, k: nat)
    requires n < Pow10(k) && k > 0
    ensures |Dec(n)| <= k
  {
    if n >= 10 { DecLength(n / 10, k - 1); }
  }

  function Itoa(n: int): Str {
    if n < 0 then [MINUS] + Dec(-n) else Dec(n)
  }

  /** The one way to write a number: a minus sign if negative, then its digits, without leading zeros. */
  lemma {:induction false} ItoaIs(n: int, s: Str)
    ensures
      s == Itoa(n) <==>
        var d := if n < 0 then s[if |s| > 0 then 1 else 0..] else s;
        && (n < 0 ==> |s| > 0 && s[0] == 45)
        && |d| > 0 && Digits(d) && Val(d) == (if n < 0 then -n else n) && (d[0] == 48 ==> d == [48])
  {
    hide Dec, Val;
    var a := if n < 0 then -n else n;
    var d := if n < 0 then s[if |s| > 0 then 1 else 0..] else s;
    DecVal(a);
    if a == 0 { assert Dec(a) == [48] by { ZeroIs(); } }
    if s == Itoa(n) { assert n < 0 ==> d == Dec(a); }
    if |d| > 0 && Digits(d) && Val(d) == a && (d[0] == 48 ==> d == [48]) {
      DecUnique(d);
      assert n < 0 && |s| > 0 && s[0] == 45 ==> s == [MINUS] + d;
    }
  }

  lemma {:induction false} ZeroIs()
    ensures Dec(0) == [48]
  {
  }

  /** Digits without a leading zero are what their value is written as. */
  lemma {:induction false} DecUnique(d: Str)
    requires |d| > 0 && Digits(d) && (d[0] == 48 ==> d == [48])
    ensures Val(d) >= 0 && Dec(Val(d)) == d
  {
    var t, last := d[..|d| - 1], d[|d| - 1];
    assert IsDigit(last) && d == t + [last];
    if |t| == 0 {
      assert Val(t) == 0;
    } else {
      assert t[0] == d[0];
      assert Digits(t) by { forall i | 0 <= i < |t| ensures IsDigit(t[i]) { assert t[i] == d[i]; } }
      DecUnique(t);
      ValLower(t);
    }
  }

  /** strconv.Atoi: an optional sign, at least one digit, and a value that fits in int64. */
  function Atoi(b: Str): Option<int> {
    var signed := |b| > 0 && (b[0] == MINUS || b[0] == PLUS);
    var d := if signed then b[1..] else b;
    if |d| == 0 || !Digits(d) then None
    else
      var v := if b[0] == MINUS then -Val(d) else Val(d);
      if MinInt64 <= v <= MaxInt64 then Some(v) else None
  }

  lemma {:induction false} AtoiItoa(n: int)
    requires MinInt64 <= n <= MaxInt64
    ensures Atoi(Itoa(n)) == Some(n)
  {
    if n < 0 {
      DecVal(-n);
      assert Itoa(n)[1..] == Dec(-n);
    } else {
      DecVal(n);
      assert IsDigit(Dec(n)[0]);
    }
  }

  lemma {:induction false} ItoaInjective(m: int, n: int)
    ensures Itoa(m) == Itoa(n) ==> m == n
  {
    hide Dec, Val;
    DecVal(if m < 0 then -m else m);
    DecVal(if n < 0 then -n else n);
    var a, b := Dec(if m < 0 then -m else m), Dec(if n < 0 then -n else n);
    assert IsDigit(a[0]) && IsDigit(b[0]);
    assert ([MINUS] + a)[1..] == a && ([MINUS] + b)[1..] == b;
  }

  // ----- ParseUInt32

  /** Up to ten digits whose value fits; leading zeros are allowed. */
  function UInt32Of(b: Str): Option<nat> {
    if 1 <= |b| <= 10 && Digits(b) && 0 <= Val(b) <= MaxUint32 then Some(Val(b)) else None
  }

  method ParseUInt32(b: Str) returns (r: Option<nat>)
    ensures r == UInt32Of(b)
  {
    if |b| == 0 || |b| > 10 { return None; }
    var n := 0;
    for i := 0 to |b|
      invariant Digits(b[..i]) && n == Val(b[..i]) && 0 <= n < Pow10(i)
    {
      var c := DigitByte(b[i]);
      if c > 9 {
        assert !IsDigit(b[i]);
        return None;
      }
      Pow10Grows(i + 1, 10);
      Pow10Table();
      ValSnoc(b, i);
      n := (n * 10 + c) % TwoTo64;
    }
    assert b[..|b|] == b;
    if n > MaxUint32 { return None; }
    return Some(n);
  }

  lemma {:induction false} UInt32OfDec(n: nat)
    requires n <= MaxUint32
    ensures UInt32Of(Dec(n)) == Some(n)
  {
    DecVal(n);
    Pow10Table();
    DecLength(n, 10);
  }

  // ----- signed numerals

  /** "0", digits without a leading zero, or '-' and any digits. */
  predicate Numeral(b: Str) {
    || b == [ZERO]
    || (|b| > 0 && b[0] != ZERO && Digits(b))
    || Negative(b)
  }

  predicate Negative(b: Str) {
    |b| > 1 && b[0] == MINUS && Digits(b[1..])
  }

  function IntVal(b: Str): int {
    if Negative(b) then -Val(b[1..]) else Val(b)
  }

  // ----- ParseInt64

  /** The exact reading: a numeral of at most 20 bytes whose value fits. */
  function Int64Of(b: Str): Option<int> {
    if |b| <= 20 && Numeral(b) && MinInt64 <= IntVal(b) <= MaxInt64 then Some(IntVal(b)) else None
  }

  /** The digits among the first `i` bytes of a numeral. */
  function DigitsSoFar(b: Str, neg: bool, i: nat): Str
    requires 1 <= i <= |b|
  {
    if neg then b[1..i] else b[..i]
  }

  lemma {:induction false} DigitsSoFarSnoc(b: Str, neg: bool, i: nat)
    requires 1 <= i < |b|
    ensures DigitsSoFar(b, neg, i + 1) == DigitsSoFar(b, neg, i) + [b[i]]
    ensures Val(DigitsSoFar(b, neg, i + 1)) == 10 * Val(DigitsSoFar(b, neg, i)) + DigitVal(b[i])
  {
    var d := DigitsSoFar(b, neg, i + 1);
    assert d == DigitsSoFar(b, neg, i) + [b[i]];
    assert d[..|d| - 1] == DigitsSoFar(b, neg, i);
  }

  /** Twenty digits whose first nineteen already exceed MaxUint64 / 10 are out of range. */
  lemma {:induction false} PrefixTooLarge(b: Str, neg: bool, i: nat, cap: int)
    requires 1 <= i < |b| && cap >= 0
    requires Digits(DigitsSoFar(b, neg, |b|))
    requires 10 * Val(DigitsSoFar(b, neg, i)) > cap
    ensures Val(DigitsSoFar(b, neg, |b|)) > cap
    decreases |b| - i
  {
    DigitsSoFarSnoc(b, neg, i);
    var d := DigitsSoFar(b, neg, |b|);
    var at := if neg then i - 1 else i;
    assert d[at] == b[i] && IsDigit(d[at]);
    if i + 1 < |b| {
      PrefixTooLarge(b, neg, i + 1, cap);
    }
  }

  /** One more digit does not wrap the 64-bit accumulator, given the checks of byte 19. */
  lemma {:induction false} Step64(b: Str, neg: bool, i: nat, v: int)
    requires 1 <= i < |b| && Digits(DigitsSoFar(b, neg, i)) && IsDigit(b[i])
    requires v == Val(DigitsSoFar(b, neg, i)) && 0 <= v
    requires i >= 19 ==> v <= MaxUint64 / 10
    ensures Digits(DigitsSoFar(b, neg, i + 1))
    ensures v * 10 % TwoTo64 == v * 10
    ensures i < 19 || v * 10 <= MaxUint64 - DigitVal(b[i]) ==>
      (v * 10 + DigitVal(b[i])) % TwoTo64 == Val(DigitsSoFar(b, neg, i + 1)) <= MaxUint64
  {
    DigitsSoFarSnoc(b, neg, i);
    var d := DigitsSoFar(b, neg, i);
    ValBound(d);
    if i < 19 {
      Pow10Grows(|d|, 18);
      Pow10Table();
    }
  }

  lemma {:induction false} LoneZero(b: Str)
    requires |b| == 1 && b[0] == ZERO
    ensures Numeral(b) && !Negative(b) && IntVal(b) == 0
  {
    assert b == [ZERO] && b[..1] == b;
    ValSnoc(b, 0);
    assert Val(b[..0]) == 0;
  }

  lemma {:induction false} FirstDigit(b: Str, neg: bool)
    requires 1 <= |b| && (if neg then b[0] == MINUS else IsDigit(b[0]))
    ensures Digits(DigitsSoFar(b, neg, 1))
    ensures Val(DigitsSoFar(b, neg, 1)) == if neg then 0 else DigitVal(b[0])
  {
    ValSnoc(b, 0);
    assert Val(b[..0]) == 0;
  }

  /** All digits have been read: the input was a numeral. */
  lemma {:induction false} NumeralAtEnd(b: Str, neg: bool)
    requires 1 <= |b| && (neg <==> b[0] == MINUS) && b[0] != ZERO && (neg ==> |b| > 1)
    requires Digits(DigitsSoFar(b, neg, |b|))
    ensures Numeral(b) && Negative(b) == neg
    ensures IntVal(b) == (if neg then -Val(DigitsSoFar(b, neg, |b|)) else Val(DigitsSoFar(b, neg, |b|)))
  {
    assert DigitsSoFar(b, neg, |b|) == if neg then b[1..] else b;
  }

  /** ParseInt64 is exact: no input overflows on the way, and every in-range numeral is accepted. */
  method ParseInt64(b: Str) returns (r: Option<int>)
    ensures r == Int64Of(b)
  {
    var l := |b|;
    if l == 0 || l > 20 { return None; }
    var v := 0;
    var c := DigitByte(b[0]);
    var neg := false;
    if c == 253 {
      if l == 1 { return None; }
      neg := true;
    } else if c > 9 {
      return None;
    } else if c == 0 {
      if l == 1 {
        LoneZero(b);
        return Some(0);
      }
      return None;
    } else {
      v := c;
    }
    FirstDigit(b, neg);
    for i := 1 to l
      invariant Digits(DigitsSoFar(b, neg, i))
      invariant v == Val(DigitsSoFar(b, neg, i)) && 0 <= v <= MaxUint64
    {
      if i >= 19 && v > MaxUint64 / 10 {
        NotInt64(b, neg, i);
        return None;
      }
      c := DigitByte(b[i]);
      if c > 9 {
        NotNumeral(b, neg, i);
        return None;
      }
      Step64(b, neg, i, v);
      v := (v * 10) % TwoTo64;
      if i >= 19 && v > MaxUint64 - c {
        NotInt64Sum(b, neg, i);
        return None;
      }
      v := (v + c) % TwoTo64;
    }
    NumeralAtEnd(b, neg);
    if neg {
      if v > 0x8000_0000_0000_0000 { return None; }
      return Some(-v);
    }
    if v > MaxInt64 { return None; }
    return Some(v);
  }

  lemma {:induction false} NotNumeral(b: Str, neg: bool, i: nat)
    requires 1 <= i < |b| && !IsDigit(b[i]) && (neg <==> b[0] == MINUS)
    ensures !Numeral(b)
  {
    if neg { assert b[1..][i - 1] == b[i]; }
  }

  lemma {:induction false} NotInt64(b: Str, neg: bool, i: nat)
    requires 19 <= i < |b| && (neg <==> b[0] == MINUS)
    requires Val(DigitsSoFar(b, neg, i)) > MaxUint64 / 10
    ensures Int64Of(b) == None
  {
    assert DigitsSoFar(b, neg, |b|) == if neg then b[1..] else b;
    if Numeral(b) { PrefixTooLarge(b, neg, i, MaxUint64); }
  }

  lemma {:induction false} NotInt64Sum(b: Str, neg: bool, i: nat)
    requires 19 <= i < |b| <= 20 && (neg <==> b[0] == MINUS)
    requires 10 * Val(DigitsSoFar(b, neg, i)) + DigitVal(b[i]) > MaxUint64
    ensures Int64Of(b) == None
  {
    DigitsSoFarSnoc(b, neg, i);
    assert DigitsSoFar(b, neg, |b|) == if neg then b[1..] else b;
  }

  // ----- ParseInt32

  /** The exact reading that ParseInt32 aims at. */
  function Int32Of(b: Str): Option<int> {
    if |b| <= 11 && Numeral(b) && -MaxInt32 - 1 <= IntVal(b) <= MaxInt32 then Some(IntVal(b)) else None
  }

  /**
   What ParseInt32 computes: its 32-bit accumulator is only checked from the eleventh byte on,
   so the first ten digits of a positive numeral are taken modulo 2^32.
   */
  function Accumulator32(b: Str, neg: bool, i: nat): int
    requires 1 <= i <= |b| <= 11
  {
    if neg then Val(b[1..i])
    else if i <= 10 then Val(b[..i]) % TwoTo32
    else 10 * (Val(b[..10]) % TwoTo32) + DigitVal(b[10])
  }

  function Int32Read(b: Str): Option<int> {
    if |b| > 11 || !Numeral(b) then None
    else
      var v := Accumulator32(b, Negative(b), |b|);
      if Negative(b) then (if v <= MaxInt32 + 1 then Some(-v) else None)
      else if v <= MaxInt32 then Some(v) else None
  }

  lemma {:induction false} Int32ReadFits(b: Str)
    ensures Int32Read(b).Some? ==> Int32Read(b).value <= MaxInt32
  {
    if |b| <= 11 && Negative(b) {
      ValBound(b[1..]);
      assert b[1..|b|] == b[1..];
    }
  }

  lemma {:induction false} ModStep(a: int, c: int)
    ensures ((a % TwoTo32 * 10) % TwoTo32 + c) % TwoTo32 == (10 * a + c) % TwoTo32
  {
    var q, r := a / TwoTo32, a % TwoTo32;
    assert a == q * TwoTo32 + r;
  }

  /** The accumulator after byte `i`, given that the overflow checks of byte 10 passed. */
  lemma {:induction false} AccumulatorStep(b: Str, neg: bool, i: nat)
    requires 1 <= i < |b| <= 11 && Digits(DigitsSoFar(b, neg, i)) && IsDigit(b[i])
    requires 0 <= Accumulator32(b, neg, i) <= MaxUint32
    requires i >= 10 ==> 10 * Accumulator32(b, neg, i) + DigitVal(b[i]) <= MaxUint32
    ensures Digits(DigitsSoFar(b, neg, i + 1))
    ensures 0 <= Accumulator32(b, neg, i + 1) <= MaxUint32
    ensures (Accumulator32(b, neg, i) * 10 % TwoTo32 + DigitVal(b[i])) % TwoTo32 == Accumulator32(b, neg, i + 1)
  {
    hide Val;
    DigitsSoFarSnoc(b, neg, i);
    if neg {
      NegativeStep(b, i);
    } else if i < 10 {
      ModStep(Val(b[..i]), DigitVal(b[i]));
    }
  }

  lemma {:induction false} NegativeStep(b: Str, i: nat)
    requires 1 <= i < |b| <= 11 && Digits(b[1..i]) && IsDigit(b[i])
    ensures i < 10 ==> 0 <= 10 * Val(b[1..i]) + DigitVal(b[i]) <= MaxUint32
  {
    ValBound(b[1..i]);
    if i < 10 {
      Pow10Grows(i - 1, 8);
      assert Pow10(8) == 100_000_000;
    }
  }

  lemma {:induction false} NotInt32(b: Str, neg: bool)
    requires |b| == 11 && (neg <==> b[0] == MINUS)
    requires 10 * Accumulator32(b, neg, 10) + DigitVal(b[10]) > MaxUint32
    ensures Int32Read(b) == None
  {
    DigitsSoFarSnoc(b, neg, 10);
    assert DigitsSoFar(b, neg, 11) == if neg then b[1..] else b;
    assert b[1..11] == b[1..];
  }

  lemma {:induction false} NotInt32Prefix(b: Str, neg: bool)
    requires |b| == 11 && (neg <==> b[0] == MINUS)
    requires Accumulator32(b, neg, 10) > MaxUint32 / 10
    ensures Int32Read(b) == None
  {
    if IsDigit(b[10]) { NotInt32(b, neg); } else { NotNumeral(b, neg, 10); }
  }

  method ParseInt32(b: Str) returns (r: Option<int>)
    ensures r == Int32Read(b)
  {
    var l := |b|;
    if l == 0 || l > 11 { return None; }
    var v := 0;
    var c := DigitByte(b[0]);
    var neg := false;
    if c == 253 {
      if l == 1 { return None; }
      neg := true;
    } else if c > 9 {
      return None;
    } else if c == 0 {
      if l == 1 {
        LoneZero(b);
        return Some(0);
      }
      return None;
    } else {
      v := c;
    }
    FirstDigit(b, neg);
    for i := 1 to l
      invariant Digits(DigitsSoFar(b, neg, i))
      invariant v == Accumulator32(b, neg, i) && 0 <= v <= MaxUint32
    {
      if i >= 10 && v > MaxUint32 / 10 {
        NotInt32Prefix(b, neg);
        return None;
      }
      c := DigitByte(b[i]);
      if c > 9 {
        NotNumeral(b, neg, i);
        return None;
      }
      v := (v * 10) % TwoTo32;
      if i >= 10 && v > MaxUint32 - c {
        NotInt32(b, neg);
        return None;
      }
      AccumulatorStep(b, neg, i);
      v := (v + c) % TwoTo32;
    }
    NumeralAtEnd(b, neg);
    if neg {
      if v > 0x8000_0000 { return None; }
      return Some(-v);
    }
    if v > MaxInt32 { return None; }
    return Some(v);
  }

  /** A positive numeral whose first ten digits overflow 32 bits and land back in range. */
  predicate WrapsIntoRange(b: Str) {
    && Numeral(b) && !Negative(b) && 10 <= |b| <= 11
    && var x := Val(b[..10]);
       && x >= TwoTo32
       && (if |b| == 10 then x % TwoTo32 else 10 * (x % TwoTo32) + DigitVal(b[10])) <= MaxInt32
  }

  lemma {:induction false} PositiveRead(b: Str)
    requires |b| <= 11 && Numeral(b) && !Negative(b) && b[0] != ZERO
    ensures Int32Read(b) == Int32Of(b) <==> !WrapsIntoRange(b)
  {
    ValLower(b);
    ValBound(b);
    Pow10Table();
    if |b| <= 9 {
      Pow10Grows(|b|, 9);
      assert b[..|b|] == b;
    } else if |b| == 10 {
      assert b[..10] == b;
    } else {
      assert b[..10][0] == b[0];
      ValLower(b[..10]);
      ValBound(b[..10]);
    }
  }

  /** ParseInt32 reads the right value, or rejects, exactly when it does not wrap into range. */
  lemma {:induction false} ParseInt32ExactIff(b: Str)
    ensures Int32Read(b) == Int32Of(b) <==> !WrapsIntoRange(b)
  {
    if |b| <= 11 && Numeral(b) {
      if Negative(b) {
        assert b[1..|b|] == b[1..];
        ValBound(b[1..]);
      } else if b == [ZERO] {
        LoneZero(b);
        assert b[..1] == b;
      } else {
        PositiveRead(b);
      }
    }
  }

  /** So it is exact for negatives and for every value that fits in 32 unsigned bits. */
  lemma {:induction false} ParseInt32ExactUpToMaxUint32(b: Str)
    requires Numeral(b) && IntVal(b) <= MaxUint32
    ensures Int32Read(b) == Int32Of(b)
  {
    ParseInt32ExactIff(b);
    if |b| == 10 {
      assert b[..10] == b;
    } else if |b| == 11 && !Negative(b) {
      ValLower(b);
      Pow10Table();
    }
  }

  lemma {:induction false} LongEnough(b: Str, k: nat)
    requires Digits(b) && Val(b) >= Pow10(k)
    ensures |b| > k
  {
    ValBound(b);
    if |b| <= k { Pow10Grows(|b|, k); }
  }

  /** "4294967297" is read as 1. */
  lemma {:induction false} ParseInt32Wraps()
    ensures Int32Read(Dec(4294967297)) == Some(1) && Int32Of(Dec(4294967297)) == None
  {
    var b := Dec(4294967297);
    DecVal(4294967297);
    Pow10Table();
    DecLength(4294967297, 10);
    LongEnough(b, 9);
    assert b[..10] == b && b[0] != MINUS;
  }

  /** "42949672965", of eleven digits, is read as 5: the last digit follows a wrapped accumulator. */
  lemma {:induction false} ParseInt32WrapsLate()
    ensures Int32Read(Dec(42949672965)) == Some(5) && Int32Of(Dec(42949672965)) == None
  {
    hide Dec, Val, Pow10;
    var b, c := Dec(42949672965), Dec(4294967296);
    DecVal(42949672965);
    DecVal(4294967296);
    Pow10Table();
    DecLength(4294967296, 10);
    LongEnough(c, 9);
    DecSnoc(42949672965);
    assert b[..10] == c && b[0] == c[0];
  }

  lemma {:induction false} Int32ReadDec(n: nat)
    requires n <= MaxInt32
    ensures Int32Read(Dec(n)) == Some(n)
  {
    DecVal(n);
    Pow10Table();
    DecLength(n, 10);
    assert IsDigit(Dec(n)[0]);
    ParseInt32ExactUpToMaxUint32(Dec(n));
  }
}
