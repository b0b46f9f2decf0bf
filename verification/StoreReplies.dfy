/**
 The replies, told in terms of each other: bulk reads as the single reads they bundle, counts
 as the change they report, and what a missing key or one of another type answers.
 */
module StoreReplies {
  import opened Bytes
  import opened Slots
  import opened SortedSets
  import opened StoreModel
  import opened StoreRuns
  import opened KeyLocality
  import Laws = StoreLaws

  // ----- bulk reads

  /** HMGET answers each field, at its own position, as HGET does. */
  lemma {:induction false} HMGetLaw(v: Option<Value>, fields: seq<Str>)
    ensures var r := ActOn(v, HMGet(fields)).reply; r.Found? && |r.items| == |fields|
    ensures
      forall i :: 0 <= i < |fields| ==>
        ActOn(v, HGet(fields[i])).reply == Popped(ActOn(v, HMGet(fields)).reply.items[i])
  {
    hide ActOnStr, ActOnList, ActOnSet, ActOnZSet, Elements, Overlay;
    forall i | 0 <= i < |fields| ensures ActOn(v, HGet(fields[i])).reply == Popped(Lookup(HashOf(v), fields)[i]) {
      Laws.HGetIs(v, fields[i]);
    }
  }

  /** HGETALL lists exactly the fields HGET finds, and SMEMBERS the members SISMEMBER knows. */
  lemma {:induction false} WholeLaws(v: Option<Value>, x: Str)
    ensures
      var r := ActOn(v, HGetAll).reply;
      r.Fields? && ActOn(v, HGet(x)).reply == Popped(if x in r.h then Some(r.h[x]) else None)
    ensures var r := ActOn(v, SMembers).reply; r.Names? && ActOn(v, SIsMember(x)).reply == Flag(x in r.m)
  {
    hide ActOnStr, ActOnList, ActOnZSet, Elements, Overlay, Lookup;
    Laws.HGetIs(v, x);
    Laws.SIsMemberIs(v, x);
  }

  /** MGET of keys of one slot answers each, at its own position, as GET does. */
  lemma {:induction false} MgetIsGets(st: State, keys: seq<Str>, i: nat)
    requires Sized(st) && SameSlot(keys) && i < |keys|
    ensures
      var r := StepOp(st, Mget(keys)).reply;
      r.Texts? && |r.list| == |keys| && StepOne(st, keys[i], Get).reply == Text(r.list[i])
  {
    hide ActOnList, ActOnHash, ActOnSet, ActOnZSet, SlotForKey, PutIn;
  }

  // ----- MSET

  function Sets(keys: seq<Str>, values: seq<Str>, n: nat): (r: seq<Op>)
    requires n <= |keys| == |values|
    ensures |r| == n && forall i :: 0 <= i < n ==> WellFormedOp(r[i])
  {
    seq(n, i requires 0 <= i < n => One(keys[i], Set(values[i])))
  }

  lemma {:induction false} WriteIsSet(st: State, keys: seq<Str>, values: seq<Str>, n: nat)
    requires Sized(st) && |keys| == |values| && n < |keys| && SameSlot(keys)
    ensures StepOne(Written(st, keys, values, n), keys[n], Set(values[n])).state == Written(st, keys, values, n + 1)
  {
    hide ActOnList, ActOnHash, ActOnSet, ActOnZSet, SlotForKey;
    var k := keys[n];
    match st
    case Sharded(shards) =>
      var i := SlotForKey(keys[0]);
      var w := WriteAll(shards[i], keys, values, n);
      assert shards[i := w][i := w[k := StrV(values[n])]] == shards[i := w[k := StrV(values[n])]];
    case Unsharded(f) =>
  }

  /** The store once the first `n` keys are written. */
  function Written(st: State, keys: seq<Str>, values: seq<Str>, n: nat): (r: State)
    requires Sized(st) && n <= |keys| == |values| && 0 < |keys|
    ensures Sized(r)
  {
    match st
    case Sharded(shards) =>
      var i := SlotForKey(keys[0]);
      Sharded(shards[i := WriteAll(shards[i], keys, values, n)])
    case Unsharded(f) => Unsharded(f.(strings := WriteStrings(f.strings, keys, values, n)))
  }

  lemma {:induction false} MsetPrefix(st: State, keys: seq<Str>, values: seq<Str>, n: nat)
    requires Sized(st) && n <= |keys| == |values| && 0 < |keys| && SameSlot(keys)
    ensures Run(st, Sets(keys, values, n)).state == Written(st, keys, values, n)
  {
    hide StepOne, SlotForKey;
    if n == 0 {
      if st.Sharded? {
        var i := SlotForKey(keys[0]);
        assert st.shards[i := st.shards[i]] == st.shards;
      }
    } else {
      MsetPrefix(st, keys, values, n - 1);
      var op := One(keys[n - 1], Set(values[n - 1]));
      assert Sets(keys, values, n) == Sets(keys, values, n - 1) + [op];
      RunSnoc(st, Sets(keys, values, n - 1), op);
      Laws.StepOfOne(Written(st, keys, values, n - 1), keys[n - 1], Set(values[n - 1]));
      WriteIsSet(st, keys, values, n - 1);
    }
  }

  /** MSET of keys of one slot is the SETs of its pairs in their order. */
  lemma {:induction false} MsetIsSets(st: State, keys: seq<Str>, values: seq<Str>)
    requires Sized(st) && |keys| == |values| && SameSlot(keys)
    ensures StepOp(st, Mset(keys, values)).state == Run(st, Sets(keys, values, |keys|)).state
  {
    hide StepOne, SlotForKey;
    if |keys| > 0 { MsetPrefix(st, keys, values, |keys|); }
  }

  // ----- sorted sets

  /** ZADD stores the last score given to each member, and replies with the number of members it added. */
  lemma {:induction false} ZAddLaw(v: Option<Value>, members: seq<Str>, scores: seq<real>)
    requires ProperOrNone(v) && !Clash(v, ZSetK) && |members| == |scores|
    ensures
      var s, t := Scores(ZSetOf(v)), Scores(ZSetOf(ActOn(v, ZAdd(members, scores)).v));
      && t == Merge(s, members, scores, |scores|)
      && ActOn(v, ZAdd(members, scores)).reply == Number(|t| - |s|) && t.Keys == s.Keys + Elements(members)
  {
    hide ActOnStr, ActOnList, ActOnHash, ActOnSet, Ordered, Zadded, Without, Ranked, Merge, Scores, Ties, DupFree;
    hide Elements;
    ZSetOfOrdered(v);
    ZaddMeaning(ZSetOf(v), members, scores, 0.0);
    MergeKeys(Scores(ZSetOf(v)), members, scores, |scores|);
    assert members[..|scores|] == members;
  }

  lemma {:induction false} MergeKeys(s: map<Str, real>, members: seq<Str>, scores: seq<real>, n: nat)
    requires n <= |members| && n <= |scores|
    ensures Merge(s, members, scores, n).Keys == s.Keys + Elements(members[..n])
  {
    if n > 0 {
      MergeKeys(s, members, scores, n - 1);
      ElementsSnoc(members[..n - 1], members[n - 1]);
      assert members[..n] == members[..n - 1] + [members[n - 1]];
    }
  }

  /** ZREM removes exactly its members and replies with the number it removed. */
  lemma {:induction false} ZRemLaw(v: Option<Value>, members: seq<Str>)
    requires ProperOrNone(v) && !Clash(v, ZSetK)
    ensures
      var s, t := Scores(ZSetOf(v)), Scores(ZSetOf(ActOn(v, ZRem(members)).v));
      t == s - Elements(members) && ActOn(v, ZRem(members)).reply == Number(|s| - |t|)
  {
    hide Ordered, ActOn, Scores, Ties, DupFree, Elements, Without, ProperOrNone;
    ZSetOfOrdered(v);
    ZremMeaning(ZSetOf(v), Elements(members), 0.0);
    ZRemLeaves(v, members);
  }

  lemma {:induction false} ZRemLeaves(v: Option<Value>, members: seq<Str>)
    requires !Clash(v, ZSetK)
    ensures
      var kept := Without(ZSetOf(v), Elements(members));
      && ZSetOf(ActOn(v, ZRem(members)).v) == kept
      && ActOn(v, ZRem(members)).reply == Number(|ZSetOf(v)| - |kept|)
  {
    hide ActOnStr, ActOnList, ActOnHash, ActOnSet, Zadded, Ranked, Elements, Without;
    var z := ZSetOf(v);
    NothingRemoved(z, Elements(members));
    var kept := Without(z, Elements(members));
    if |kept| == 0 { assert kept == []; }
  }

  lemma {:induction false} NothingRemoved(z: seq<Member>, gone: set<Str>)
    ensures |Without(z, gone)| <= |z| && (|Without(z, gone)| == |z| ==> Without(z, gone) == z)
  {
    if |z| > 0 { NothingRemoved(z[..|z| - 1], gone); }
  }

  // ----- keys that are not there, or of another type

  function WhenMissing(a: Act): Reply
    requires !Creates(a)
  {
    if a.Get? then Text([40, 110, 105, 108, 41])
    else if a.LPop? || a.RPop? || a.HGet? then Popped(None)
    else if a.LRange? || a.ZRange? then Texts([])
    else if a.HMGet? then Found(seq(|a.fields|, _ => None))
    else if a.HGetAll? then Fields(map[])
    else if a.SMembers? then Reply.Names({})
    else if a.SIsMember? then Flag(false)
    else Number(0)
  }

  /** An operation that does not create its key answers for a missing one as for an empty one, and leaves it missing. */
  lemma {:induction false} MissingKey(a: Act)
    requires !Creates(a)
    ensures ActOn(None, a) == Outcome(None, WhenMissing(a))
  {
    hide WhenMissing, ActOnList, ActOnHash, ActOnSet, ActOnZSet;
    match ActKind(a)
    case Some(ListK) => MissingList(a);
    case Some(HashK) => MissingHash(a);
    case Some(SetK) => MissingSet(a);
    case Some(ZSetK) => MissingZSet(a);
    case _ => assert ActOn(None, a).reply == WhenMissing(a) by { MissingStr(a); }
  }

  lemma {:induction false} MissingStr(a: Act)
    requires a.Get? || a.Delete?
    ensures WhenMissing(a) == if a.Get? then Text(NIL) else Number(0)
  {
  }

  lemma {:induction false} MissingList(a: Act)
    requires !Creates(a) && ActKind(a) == Some(ListK)
    ensures ActOnList(None, a) == Outcome(None, WhenMissing(a))
  {
  }

  lemma {:induction false} MissingHash(a: Act)
    requires !Creates(a) && ActKind(a) == Some(HashK)
    ensures ActOnHash(None, a) == Outcome(None, WhenMissing(a))
  {
    hide Elements;
    if a.HMGet? { assert Lookup(map[], a.fields) == seq(|a.fields|, _ => None); }
  }

  lemma {:induction false} MissingSet(a: Act)
    requires !Creates(a) && ActKind(a) == Some(SetK)
    ensures ActOnSet(None, a) == Outcome(None, WhenMissing(a))
  {
    hide Elements;
  }

  lemma {:induction false} MissingZSet(a: Act)
    requires !Creates(a) && ActKind(a) == Some(ZSetK)
    ensures ActOnZSet(None, a) == Outcome(None, WhenMissing(a))
  {
    hide Elements;
  }

  /** A write to a key of another type changes nothing; only some of the writes say so. */
  lemma {:induction false} ClashRefused(v: Option<Value>, a: Act)
    requires WellFormed(a) && Creates(a) && !a.Set? && Clash(v, ActKind(a).value)
    ensures ActOn(v, a).v == v
    ensures
      ActOn(v, a).reply ==
        if a.HMSet? then Done else if a.LPush? || a.RPush? || a.SAdd? then Number(0) else WrongType
  {
    hide Elements, Zadded, Ranked, Lookup, Overlay;
  }

  /** DEL replies 1 for a key just written and 0 for a key just deleted. */
  lemma {:induction false} DeleteCounts(st: State, ops: seq<Op>, k: Str, before: seq<Op>, a: Act)
    requires Sized(st) && WellFormedOps(ops) && WellFormedOps(before) && (a.Set? || a.Delete?)
    requires Mine(ops, k) == before + [One(k, a)] + [One(k, Delete)]
    ensures var h := Heard(st, ops, k); |h| > 0 && h[|h| - 1] == Number(if a.Set? then 1 else 0)
  {
    hide Heard, Run, Mine;
    if a.Delete? {
      Laws.DeleteForgets(st, ops, k, before, Delete);
    } else {
      Laws.LastTwo(st, ops, k, before, a, Delete);
      SetThenDelete(Run(st, before).state, k, a.value);
    }
  }

  lemma {:induction false} SetThenDelete(st: State, k: Str, x: Str)
    requires Sized(st)
    ensures TwoReplies(st, k, Set(x), Delete).1 == Number(1)
  {
    hide ActOnList, ActOnHash, ActOnSet, ActOnZSet, SlotForKey;
    match st
    case Sharded(shards) => PairOnShards(shards, k, Set(x), Delete);
    case Unsharded(f) => FindPutIn(f, StrK, k, Some(StrV(x)), StrK, k);
  }
}
