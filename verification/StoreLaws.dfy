/**
 What a client can rely on: how the operations on one key undo, extend and observe each
 other, on one value and in whole runs of either layout.
 */
module StoreLaws {
  import opened Bytes
  import opened Numbers
  import opened Slots
  import opened SortedSets
  import opened StoreModel
  import opened StoreRuns
  import opened KeyLocality

  function Reply(v: Option<Value>, a: Act): Reply
    requires WellFormed(a)
  {
    ActOn(v, a).reply
  }

  function Next(v: Option<Value>, a: Act): Option<Value>
    requires WellFormed(a)
  {
    ActOn(v, a).v
  }

  // ----- strings

  /** GET sees the last SET, and APPEND adds to it. */
  lemma {:induction false} StringLaws(v: Option<Value>, x: Str, y: Str)
    ensures Reply(Next(v, Set(x)), Get) == Text(x)
    ensures Reply(Next(Next(v, Set(x)), Append(y)), Get) == Text(x + y)
    ensures v.None? ==> Reply(v, Get) == Text(NIL) && Reply(Next(v, Append(y)), Get) == Text(y)
  {
    hide ActOnList, ActOnHash, ActOnSet, ActOnZSet;
  }

  lemma {:induction false} WrapFits(n: int)
    ensures MinInt64 <= Wrap64(n) <= MaxInt64
  {
  }

  /** Adding and then subtracting the same amount gives the number back, whether or not the sum wraps around. */
  lemma {:induction false} ChangeUndone(n: int, d: int)
    requires MinInt64 <= n <= MaxInt64
    ensures
      var v := Some(StrV(Itoa(n)));
      && Next(v, Change(d)) == Some(StrV(Itoa(Wrap64(n + d)))) && Reply(v, Change(d)) == Done
      && Next(Next(v, Change(d)), Change(-d)) == v
  {
    hide Atoi, Itoa, Wrap64, ActOnList, ActOnHash, ActOnSet, ActOnZSet;
    AtoiItoa(n);
    WrapFits(n + d);
    AtoiItoa(Wrap64(n + d));
    WrapUndone(n, d);
  }

  lemma {:induction false} WrapUndone(n: int, d: int)
    requires MinInt64 <= n <= MaxInt64
    ensures Wrap64(Wrap64(n + d) - d) == n
  {
    var q := (n + d - MinInt64) / TwoTo64;
    assert Wrap64(n + d) == n + d - q * TwoTo64;
    ModShift(n - MinInt64, q);
  }

  lemma {:induction false} ModShift(x: int, q: int)
    requires 0 <= x < TwoTo64
    ensures (x - q * TwoTo64) % TwoTo64 == x
  {
  }

  lemma {:induction false} WrapIsExactIff(n: int)
    ensures Wrap64(n) == n <==> MinInt64 <= n <= MaxInt64
  {
    WrapFits(n);
  }

  /** The number an operation on integers starts from; a missing key counts as zero. */
  function NumberOf(v: Option<Value>): Option<int>
    requires !Clash(v, StrK)
  {
    if v.None? then Some(0) else Atoi(v.value.s)
  }

  /**
   INCR, INCRBY and DECR: what is no number is refused and left alone; the decimal form of
   the sum is stored exactly when the sum has 64 bits.
   */
  lemma {:induction false} ChangeIsExactIff(v: Option<Value>, d: int)
    requires !Clash(v, StrK)
    ensures NumberOf(v).None? <==> Reply(v, Change(d)) == NotInteger
    ensures NumberOf(v).None? ==> Next(v, Change(d)) == v
    ensures NumberOf(v).Some? ==>
      var sum := NumberOf(v).value + d;
      Next(v, Change(d)) == Some(StrV(Itoa(sum))) <==> MinInt64 <= sum <= MaxInt64
  {
    hide Atoi, Itoa, Wrap64, ActOnList, ActOnHash, ActOnSet, ActOnZSet;
    if NumberOf(v).Some? {
      var sum := NumberOf(v).value + d;
      WrapIsExactIff(sum);
      ItoaInjective(Wrap64(sum), sum);
    }
  }

  /** One more than the largest integer is stored as the smallest. */
  lemma {:induction false} IncrWraps()
    ensures Next(Some(StrV(Itoa(MaxInt64))), Change(1)) == Some(StrV(Itoa(MinInt64)))
  {
    hide Atoi, Itoa, ActOnList, ActOnHash, ActOnSet, ActOnZSet;
    AtoiItoa(MaxInt64);
  }

  lemma {:induction false} WrapOfNegation(n: int, k: int)
    ensures Wrap64(n + Wrap64(-k)) == Wrap64(n - k)
  {
    var q := (-k - MinInt64) / TwoTo64;
    assert Wrap64(-k) == -k - q * TwoTo64;
    ModAnyShift(n - k - MinInt64, q);
  }

  lemma {:induction false} ModAnyShift(x: int, q: int)
    ensures (x - q * TwoTo64) % TwoTo64 == x % TwoTo64
  {
    var r := x % TwoTo64;
    ModShift(r, q - x / TwoTo64);
    assert x - q * TwoTo64 == r - (q - x / TwoTo64) * TwoTo64;
  }

  /**
   DECRBY negates its amount in 64 bits first. The negation of the smallest integer wraps,
   but the second wrap-around makes up for it: the difference is stored exactly when it has
   64 bits, whatever the amount.
   */
  lemma {:induction false} DecrByIsExactIff(v: Option<Value>, k: int)
    requires !Clash(v, StrK) && NumberOf(v).Some?
    ensures
      var difference := NumberOf(v).value - k;
      Next(v, Change(Wrap64(-k))) == Some(StrV(Itoa(difference))) <==> MinInt64 <= difference <= MaxInt64
  {
    hide Atoi, Itoa, Wrap64, ActOnList, ActOnHash, ActOnSet, ActOnZSet;
    var n := NumberOf(v).value;
    WrapOfNegation(n, k);
    WrapIsExactIff(n - k);
    ItoaInjective(Wrap64(n - k), n - k);
  }

  /** DECRBY of the smallest integer on a missing key stores that integer, where Redis reports an overflow. */
  lemma {:induction false} DecrByWraps()
    ensures Wrap64(-MinInt64) == MinInt64
    ensures Next(None, Change(Wrap64(-MinInt64))) == Some(StrV(Itoa(MinInt64)))
  {
    hide Itoa, ActOnList, ActOnHash, ActOnSet, ActOnZSet;
  }

  // ----- lists

  predicate ListOrNothing(v: Option<Value>) {
    !Clash(v, ListK) && ProperOrNone(v)
  }

  /** A push at either end is undone by a pop at that end. */
  lemma {:induction false} PushPop(v: Option<Value>, x: Str)
    requires ListOrNothing(v)
    ensures ActOn(Next(v, LPush([x])), LPop) == Outcome(v, Popped(Some(x)))
    ensures ActOn(Next(v, RPush([x])), RPop) == Outcome(v, Popped(Some(x)))
  {
    hide ActOnStr, ActOnHash, ActOnSet, ActOnZSet, Ordered;
    var l := ListOf(v);
    assert ([x] + l)[1..] == l && (l + [x])[..|l|] == l;
  }

  /**
   LRANGE 0 -1 shows the pushed values in the order given, before or after the old ones; the
   reply is the new length.
   */
  lemma {:induction false} PushOrder(v: Option<Value>, xs: seq<Str>)
    requires ListOrNothing(v) && |xs| > 0
    ensures Reply(Next(v, LPush(xs)), LRange(0, -1)) == Texts(xs + ListOf(v))
    ensures Reply(Next(v, RPush(xs)), LRange(0, -1)) == Texts(ListOf(v) + xs)
    ensures Reply(v, LPush(xs)) == Reply(v, RPush(xs)) == Reply(Next(v, LPush(xs)), LLen) ==
      Reply(Next(v, RPush(xs)), LLen)
  {
    hide ActOnStr, ActOnHash, ActOnSet, ActOnZSet, Ranked, Ordered;
    var a, b := xs + ListOf(v), ListOf(v) + xs;
    RankedAll(a, |a|);
    RankedAll(b, |b|);
    assert a[..|a|] == a && b[..|b|] == b;
  }

  function Reversed(xs: seq<Str>): (r: seq<Str>)
    ensures |r| == |xs|
  {
    if |xs| == 0 then [] else [xs[|xs| - 1]] + Reversed(xs[..|xs| - 1])
  }

  /** The values pushed to the front one call at a time, which is what Redis makes of one LPUSH. */
  function PushedInTurn(v: Option<Value>, xs: seq<Str>): Option<Value> {
    if |xs| == 0 then v else Next(PushedInTurn(v, xs[..|xs| - 1]), LPush([xs[|xs| - 1]]))
  }

  lemma {:induction false} PushOne(v: Option<Value>, x: Str)
    requires !Clash(v, ListK)
    ensures Next(v, LPush([x])) == Some(ListV([x] + ListOf(v)))
  {
    hide ActOnStr, ActOnHash, ActOnSet, ActOnZSet, Ranked;
  }

  lemma {:induction false} InTurnReverses(v: Option<Value>, xs: seq<Str>)
    requires !Clash(v, ListK)
    ensures !Clash(PushedInTurn(v, xs), ListK) && ListOf(PushedInTurn(v, xs)) == Reversed(xs) + ListOf(v)
    ensures |xs| > 0 ==> PushedInTurn(v, xs).Some?
  {
    hide Next;
    if |xs| == 0 {
      assert [] + ListOf(v) == ListOf(v);
    } else {
      var before, x := xs[..|xs| - 1], xs[|xs| - 1];
      InTurnReverses(v, before);
      PushOne(PushedInTurn(v, before), x);
      assert [x] + (Reversed(before) + ListOf(v)) == [x] + Reversed(before) + ListOf(v);
    }
  }

  /** One LPUSH leaves what Redis leaves exactly when its values read the same backwards. */
  lemma {:induction false} LPushIsRedisIff(v: Option<Value>, xs: seq<Str>)
    requires !Clash(v, ListK)
    ensures Next(v, LPush(xs)) == PushedInTurn(v, xs) <==> xs == Reversed(xs)
  {
    hide ActOnStr, ActOnHash, ActOnSet, ActOnZSet, Ranked, PushedInTurn;
    InTurnReverses(v, xs);
    var l := ListOf(v);
    if |xs| == 0 {
      InTurnOfNothing(v);
    } else {
      assert (xs + l)[..|xs|] == xs && (Reversed(xs) + l)[..|xs|] == Reversed(xs);
    }
  }

  lemma {:induction false} InTurnOfNothing(v: Option<Value>)
    ensures PushedInTurn(v, []) == v
  {
  }

  /** LPUSH of two different values on a new key: Redis would have them the other way round. */
  lemma {:induction false} LPushDiffers(x: Str, y: Str)
    requires x != y
    ensures Next(None, LPush([x, y])) == Some(ListV([x, y])) && PushedInTurn(None, [x, y]) == Some(ListV([y, x]))
  {
    hide Next;
    assert Next(None, LPush([x, y])) == Some(ListV([x, y])) by { PushTwo(x, y); }
    assert [x, y][..1] == [x] && [x][..0] == [];
    PushOne(None, x);
    assert [x] + [] == [x];
    assert PushedInTurn(None, [x]) == Next(PushedInTurn(None, []), LPush([x]));
    PushOne(Some(ListV([x])), y);
    assert [y] + [x] == [y, x];
  }

  lemma {:induction false} PushTwo(x: Str, y: Str)
    ensures Next(None, LPush([x, y])) == Some(ListV([x, y]))
  {
    hide ActOnStr, ActOnHash, ActOnSet, ActOnZSet, Ranked;
    assert [x, y] + [] == [x, y];
  }

  // ----- hashes

  lemma {:induction false} HGetIs(v: Option<Value>, f: Str)
    ensures Reply(v, HGet(f)) == Popped(if f in HashOf(v) then Some(HashOf(v)[f]) else None)
  {
    hide ActOnStr, ActOnList, ActOnSet, ActOnZSet, Lookup, Elements, Overlay;
  }

  lemma {:induction false} HMSetLeaves(v: Option<Value>, assign: map<Str, Str>)
    requires !Clash(v, HashK) && |assign| > 0
    ensures HashOf(Next(v, HMSet(assign))) == Overlay(HashOf(v), assign)
  {
    hide ActOnStr, ActOnList, ActOnSet, ActOnZSet, Lookup, Elements, Overlay;
  }

  lemma {:induction false} HDelLeaves(v: Option<Value>, fields: seq<Str>)
    requires !Clash(v, HashK)
    ensures HashOf(Next(v, HDel(fields))) == HashOf(v) - Elements(fields)
    ensures Reply(v, HDel(fields)) == Number(|HashOf(v)| - |HashOf(v) - Elements(fields)|)
  {
    hide ActOnStr, ActOnList, ActOnSet, ActOnZSet, Lookup, Elements;
    var rest := HashOf(v) - Elements(fields);
    if v.None? { NothingToRemove(HashOf(v), Elements(fields)); }
    if |rest| == 0 { assert rest == map[]; }
  }

  /** HMSET writes exactly its fields and leaves the others. */
  lemma {:induction false} HMSetLaw(v: Option<Value>, assign: map<Str, Str>, f: Str)
    requires !Clash(v, HashK) && |assign| > 0
    ensures Reply(Next(v, HMSet(assign)), HGet(f)) == if f in assign then Popped(Some(assign[f])) else Reply(v, HGet(f))
  {
    hide Reply, Next, HashOf;
    HMSetLeaves(v, assign);
    HGetIs(v, f);
    HGetIs(Next(v, HMSet(assign)), f);
  }

  /** HDEL removes exactly its own fields, and counts those that were there. */
  lemma {:induction false} HDelLaw(v: Option<Value>, fields: seq<Str>, f: Str)
    requires !Clash(v, HashK)
    ensures Reply(Next(v, HDel(fields)), HGet(f)) == if f in fields then Popped(None) else Reply(v, HGet(f))
    ensures Reply(v, HDel(fields)) == Number(|HashOf(v)| - |HashOf(Next(v, HDel(fields)))|)
  {
    hide Reply, Next, HashOf;
    HDelLeaves(v, fields);
    HGetIs(v, f);
    HGetIs(Next(v, HDel(fields)), f);
  }

  // ----- sets

  lemma {:induction false} SetLeaves(v: Option<Value>, xs: seq<Str>)
    requires !Clash(v, SetK) && |xs| > 0
    ensures SetOf(Next(v, SAdd(xs))) == SetOf(v) + Elements(xs) && SetOf(Next(v, SRem(xs))) == SetOf(v) - Elements(xs)
    ensures Reply(v, SAdd(xs)) == Number(|SetOf(v) + Elements(xs)| - |SetOf(v)|)
    ensures Reply(v, SRem(xs)) == Number(|SetOf(v)| - |SetOf(v) - Elements(xs)|)
  {
    hide ActOnStr, ActOnList, ActOnHash, ActOnZSet, Elements;
    var rest := SetOf(v) - Elements(xs);
    if |rest| == 0 { assert rest == {}; }
  }

  lemma {:induction false} SIsMemberIs(v: Option<Value>, x: Str)
    ensures Reply(v, SIsMember(x)) == Flag(x in SetOf(v))
  {
    hide ActOnStr, ActOnList, ActOnHash, ActOnZSet, Elements;
  }

  /** SADD and SREM change exactly the membership of their arguments, and reply with the change in size. */
  lemma {:induction false} SetLaws(v: Option<Value>, xs: seq<Str>, x: Str)
    requires !Clash(v, SetK) && |xs| > 0
    ensures Reply(Next(v, SAdd(xs)), SIsMember(x)) == Flag(x in xs || x in SetOf(v))
    ensures Reply(Next(v, SRem(xs)), SIsMember(x)) == Flag(x !in xs && x in SetOf(v))
    ensures Reply(v, SAdd(xs)) == Number(|SetOf(Next(v, SAdd(xs)))| - |SetOf(v)|)
    ensures Reply(v, SRem(xs)) == Number(|SetOf(v)| - |SetOf(Next(v, SRem(xs)))|)
  {
    hide Reply, Next, SetOf;
    SetLeaves(v, xs);
    SIsMemberIs(Next(v, SAdd(xs)), x);
    SIsMemberIs(Next(v, SRem(xs)), x);
  }

  // ----- in whole runs of either layout

  lemma {:induction false} HeardSnoc(st: State, ops: seq<Op>, op: Op, k: Str)
    requires Sized(st) && WellFormedOps(ops) && WellFormedOp(op) && Touches(op, k)
    ensures
      Heard(st, ops + [op], k) == Heard(st, ops, k) + [Share(op, StepOp(Run(st, ops).state, op).reply, k)]
  {
    hide StepOp, Share, Touches;
    assert (ops + [op])[..|ops|] == ops;
  }

  /**
   When the last two operations that touch a key are `a` and `b` on it alone, their replies
   are those of the two calls in a row, however many operations on other keys lie between.
   */
  lemma {:induction false} LastTwo(st: State, ops: seq<Op>, k: Str, before: seq<Op>, a: Act, b: Act)
    requires Sized(st) && WellFormedOps(ops) && WellFormedOps(before) && WellFormed(a) && WellFormed(b)
    requires Mine(ops, k) == before + [One(k, a)] + [One(k, b)]
    ensures
      var s := Run(st, before).state;
      var two := TwoReplies(s, k, a, b);
      Heard(st, ops, k) == Heard(st, before, k) + [two.0, two.1]
  {
    hide SameFor, Heard, Run, StepOne, Mine;
    SameAsItself(st, k);
    OthersCanBeLeftOut(st, st, ops, k);
    HeardSnoc(st, before, One(k, a), k);
    HeardSnoc(st, before + [One(k, a)], One(k, b), k);
    RunSnoc(st, before, One(k, a));
  }

  /** GET replies with the last SET of its key, whatever ran before and whatever other keys did since. */
  lemma {:induction false} GetSeesLastSet(st: State, ops: seq<Op>, k: Str, before: seq<Op>, x: Str)
    requires Sized(st) && WellFormedOps(ops) && WellFormedOps(before)
    requires Mine(ops, k) == before + [One(k, Set(x))] + [One(k, Get)]
    ensures Heard(st, ops, k) == Heard(st, before, k) + [Done, Text(x)]
  {
    hide Heard, Run, StepOne, Mine, Held, SameFor;
    LastTwo(st, ops, k, before, Set(x), Get);
    var s := Run(st, before).state;
    StepOnHeld(s, k, Set(x));
    StepOnHeld(StepOne(s, k, Set(x)).state, k, Get);
    SetThenGet(Held(s, StrK, k), x);
  }

  lemma {:induction false} SetThenGet(v: Option<Value>, x: Str)
    ensures ActOn(v, Set(x)) == Outcome(Some(StrV(x)), Done) && ActOn(Some(StrV(x)), Get).reply == Text(x)
  {
    hide ActOnList, ActOnHash, ActOnSet, ActOnZSet;
  }

  lemma {:induction false} DeletedIsGone(st: State, k: Str, b: Act)
    requires Sized(st) && WellFormed(b)
    ensures TwoReplies(st, k, Delete, b).1 == ActOn(None, b).reply
  {
    hide ActOnStr, ActOnList, ActOnHash, ActOnSet, ActOnZSet, SlotForKey, FindIn, PutIn, InAny, RemoveAll;
    match st
    case Sharded(shards) => PairOnShards(shards, k, Delete, b);
    case Unsharded(f) =>
      var f' := RemoveAll(f, k);
      forall kind ensures FindIn(f', kind, k) == None { FindRemoveAll(f, k, kind, k); }
      InAnyIff(f', k);
  }

  /** After DEL every operation on the key meets a key that does not exist, in every shard and every map. */
  lemma {:induction false} DeleteForgets(st: State, ops: seq<Op>, k: Str, before: seq<Op>, b: Act)
    requires Sized(st) && WellFormedOps(ops) && WellFormedOps(before) && WellFormed(b)
    requires Mine(ops, k) == before + [One(k, Delete)] + [One(k, b)]
    ensures var h := Heard(st, ops, k); |h| > 0 && h[|h| - 1] == ActOn(None, b).reply
  {
    hide Heard, Run, StepOne, Mine, TwoReplies, ActOn;
    LastTwo(st, ops, k, before, Delete, b);
    DeletedIsGone(Run(st, before).state, k, b);
  }

  /** A push is undone by the next pop of the list at that end, and leaves the key as it was. */
  lemma {:induction false} PushPopInRuns(st: State, ops: seq<Op>, k: Str, before: seq<Op>, x: Str, left: bool)
    requires Sized(st) && WellFormedOps(ops) && WellFormedOps(before)
    requires ListOrNothing(Held(Run(st, before).state, ListK, k))
    requires
      var push, pop := if left then LPush([x]) else RPush([x]), if left then LPop else RPop;
      Mine(ops, k) == before + [One(k, push)] + [One(k, pop)]
    ensures var h := Heard(st, ops, k); |h| > 0 && h[|h| - 1] == Popped(Some(x))
    ensures Held(Run(st, ops).state, ListK, k) == Held(Run(st, before).state, ListK, k)
  {
    hide Heard, Run, StepOne, Mine, SameFor, Held, ActOn, ListOrNothing, StepOp;
    var push, pop := if left then LPush([x]) else RPush([x]), if left then LPop else RPop;
    LastTwo(st, ops, k, before, push, pop);
    var s := Run(st, before).state;
    StepOnHeld(s, k, push);
    var s' := StepOne(s, k, push).state;
    StepOnHeld(s', k, pop);
    PushPop(Held(s, ListK, k), x);
    SameAsItself(st, k);
    OthersCanBeLeftOut(st, st, ops, k);
    RunSnoc(st, before, One(k, push));
    RunSnoc(st, before + [One(k, push)], One(k, pop));
    HeldSame(Run(st, ops).state, Run(st, Mine(ops, k)).state, ListK, k);
    StepOfOne(s, k, push);
    StepOfOne(s', k, pop);
  }

  lemma {:induction false} StepOfOne(st: State, k: Str, a: Act)
    requires Sized(st) && WellFormed(a)
    ensures StepOp(st, One(k, a)) == StepOne(st, k, a)
  {
  }
}
