/**
 Whole runs of store operations: the sharded store and the store with one map per type give
 the same replies as a single map, exactly as long as writes respect types and several keys
 are used together only in one slot.
 */
module StoreRuns {
  import opened Bytes
  import opened Numbers
  import opened Slots
  import opened SortedSets
  import opened StoreModel

  // ----- several keys

  lemma {:induction false} WriteAllSame(a: map<Str, Value>, b: map<Str, Value>, keys: seq<Str>,
          values: seq<Str>, n: nat, k: Str)
    requires n <= |keys| == |values| && Find(a, k) == Find(b, k)
    ensures Find(WriteAll(a, keys, values, n), k) == Find(WriteAll(b, keys, values, n), k)
  {
    if n > 0 { WriteAllSame(a, b, keys, values, n - 1, k); }
  }

  lemma {:induction false} WriteAllElsewhere(a: map<Str, Value>, keys: seq<Str>, values: seq<Str>, n: nat, k: Str)
    requires n <= |keys| == |values| && k !in keys
    ensures Find(WriteAll(a, keys, values, n), k) == Find(a, k)
  {
    if n > 0 { WriteAllElsewhere(a, keys, values, n - 1, k); }
  }

  lemma {:induction false} WriteAllThere(a: map<Str, Value>, keys: seq<Str>, values: seq<Str>, n: nat, j: nat)
    requires j < n <= |keys| == |values|
    ensures var r := WriteAll(a, keys, values, n); keys[j] in r && r[keys[j]].StrV?
  {
    if j < n - 1 { WriteAllThere(a, keys, values, n - 1, j); }
  }

  lemma {:induction false} MsetOnShards(shards: seq<map<Str, Value>>, m: map<Str, Value>, keys: seq<Str>,
          values: seq<Str>)
    requires ShardsAgree(shards, m) && |keys| == |values| > 0 && SameSlot(keys)
    ensures var i := SlotForKey(keys[0]);
            ShardsAgree(shards[i := WriteAll(shards[i], keys, values, |keys|)], WriteAll(m, keys, values, |keys|))
  {
    hide SlotForKey, WriteAll;
    var i := SlotForKey(keys[0]);
    var shard := WriteAll(shards[i], keys, values, |keys|);
    var shards' := shards[i := shard];
    var m' := WriteAll(m, keys, values, |keys|);
    forall k ensures Find(shards'[SlotForKey(k)], k) == Find(m', k) {
      assert Find(shards[SlotForKey(k)], k) == Find(m, k);
      if SlotForKey(k) == i {
        WriteAllSame(shards[i], m, keys, values, |keys|, k);
      } else {
        WriteAllElsewhere(m, keys, values, |keys|, k);
      }
    }
    forall j, k | 0 <= j < |shards'| && k in shards'[j] ensures SlotForKey(k) == j {
      if j == i && k !in keys { WriteAllElsewhere(shards[i], keys, values, |keys|, k); }
    }
  }

  lemma {:induction false} MsetOnFlat(f: Flat, m: map<Str, Value>, keys: seq<Str>, values: seq<Str>, n: nat)
    requires FlatAgrees(f, m) && n <= |keys| == |values|
    requires forall i :: 0 <= i < |keys| ==> !Clash(Find(m, keys[i]), StrK)
    ensures FlatAgrees(f.(strings := WriteStrings(f.strings, keys, values, n)), WriteAll(m, keys, values, n))
    ensures forall i :: 0 <= i < |keys| ==> !Clash(Find(WriteAll(m, keys, values, n), keys[i]), StrK)
  {
    if n > 0 {
      MsetOnFlat(f, m, keys, values, n - 1);
      var f', m' := f.(strings := WriteStrings(f.strings, keys, values, n - 1)), WriteAll(m, keys, values, n - 1);
      OneOnFlat(f', m', keys[n - 1], Set(values[n - 1]));
      forall i | 0 <= i < |keys| ensures !Clash(Find(WriteAll(m, keys, values, n), keys[i]), StrK) {
        FindPut(m', keys[n - 1], Some(StrV(values[n - 1])), keys[i]);
      }
    }
  }

  lemma {:induction false} MgetAgrees(st: State, m: map<Str, Value>, keys: seq<Str>)
    requires StandsFor(st, m) && SameSlot(keys)
    ensures StepOp(st, Mget(keys)) == Step(st, Texts(GetAll(m, keys)))
  {
    hide SlotForKey;
    match st
    case Sharded(shards) =>
      forall i | 0 <= i < |keys|
        ensures TextOf(Find(shards[SlotForKey(keys[0])], keys[i])) == TextOf(Find(m, keys[i])) {
        assert Find(shards[SlotForKey(keys[i])], keys[i]) == Find(m, keys[i]);
      }
      assert |keys| > 0 ==> GetAll(shards[SlotForKey(keys[0])], keys) == GetAll(m, keys);
      assert |keys| == 0 ==> GetAll(m, keys) == [];
    case Unsharded(f) =>
      forall i | 0 <= i < |keys|
        ensures (if keys[i] in f.strings then f.strings[keys[i]] else NIL) == TextOf(Find(m, keys[i])) {
        assert FindIn(f, StrK, keys[i]) == OfKind(Find(m, keys[i]), StrK);
      }
      assert GetStrings(f.strings, keys) == GetAll(m, keys);
      assert |keys| == 0 ==> GetAll(m, keys) == [];
  }

  lemma {:induction false} FlushedStandsForNothing(st: State)
    requires Sized(st)
    ensures StandsFor(StepOp(st, FlushAll).state, map[])
  {
    hide SlotForKey;
  }

  /** One orderly operation: the same reply as the reference, and the stores go on agreeing. */
  lemma {:induction false} StepAgrees(st: State, m: map<Str, Value>, op: Op)
    requires StandsFor(st, m) && Orderly(m, op)
    ensures StepOp(st, op).reply == RefOp(m, op).1 && StandsFor(StepOp(st, op).state, RefOp(m, op).0)
  {
    hide SlotForKey, ActOn, ShardsAgree, FlatAgrees, GetAll, GetStrings, WriteAll, WriteStrings, Put;
    match op
    case One(k, a) => OneAgrees(st, m, k, a);
    case FlushAll => FlushedStandsForNothing(st);
    case Mget(keys) => MgetAgrees(st, m, keys);
    case Mset(keys, values) => MsetAgrees(st, m, keys, values);
  }

  lemma {:induction false} OneAgrees(st: State, m: map<Str, Value>, k: Str, a: Act)
    requires StandsFor(st, m) && WellFormed(a) && WellTyped(Find(m, k), a)
    ensures StepOne(st, k, a).reply == ActOn(Find(m, k), a).reply
    ensures StandsFor(StepOne(st, k, a).state, Put(m, k, ActOn(Find(m, k), a).v))
  {
    hide ActOn, ShardsAgree, FlatAgrees, Put, Find, FindIn, PutIn;
    match st
    case Sharded(shards) => OneOnShards(shards, m, k, a);
    case Unsharded(f) =>
      if ActKind(a).Some? {
        OneOnFlat(f, m, k, a);
      } else {
        DeleteOnFlat(f, m, k);
        DeleteOutcome(m, k, a);
      }
  }

  lemma {:induction false} DeleteOutcome(m: map<Str, Value>, k: Str, a: Act)
    requires ActKind(a).None?
    ensures ActOn(Find(m, k), a) == Outcome(None, Number(if k in m then 1 else 0))
  {
  }

  lemma {:induction false} MsetAgrees(st: State, m: map<Str, Value>, keys: seq<Str>, values: seq<Str>)
    requires StandsFor(st, m) && Orderly(m, Mset(keys, values))
    ensures StandsFor(StepOp(st, Mset(keys, values)).state, WriteAll(m, keys, values, |keys|))
  {
    hide SlotForKey, ShardsAgree, FlatAgrees;
    if |keys| > 0 {
      match st
      case Sharded(shards) => MsetOnShards(shards, m, keys, values);
      case Unsharded(f) => MsetOnFlat(f, m, keys, values, |keys|);
    }
  }

  // ----- runs

  datatype Trace = Trace(state: State, replies: seq<Reply>)

  function Run(st: State, ops: seq<Op>): (t: Trace)
    requires Sized(st) && forall i :: 0 <= i < |ops| ==> WellFormedOp(ops[i])
    ensures Sized(t.state)
  {
    if |ops| == 0 then Trace(st, [])
    else
      var t := Run(st, ops[..|ops| - 1]);
      var s := StepOp(t.state, ops[|ops| - 1]);
      Trace(s.state, t.replies + [s.reply])
  }

  datatype RefTrace = RefTrace(contents: map<Str, Value>, replies: seq<Reply>)

  function RefRun(m: map<Str, Value>, ops: seq<Op>): RefTrace
    requires forall i :: 0 <= i < |ops| ==> WellFormedOp(ops[i])
  {
    if |ops| == 0 then RefTrace(m, [])
    else
      var t := RefRun(m, ops[..|ops| - 1]);
      var s := RefOp(t.contents, ops[|ops| - 1]);
      RefTrace(s.0, t.replies + [s.1])
  }

  /** Every operation is orderly where the run meets it. */
  predicate OrderlyRun(m: map<Str, Value>, ops: seq<Op>)
    requires forall i :: 0 <= i < |ops| ==> WellFormedOp(ops[i])
  {
    |ops| == 0 || (OrderlyRun(m, ops[..|ops| - 1]) && Orderly(RefRun(m, ops[..|ops| - 1]).contents, ops[|ops| - 1]))
  }

  lemma {:induction false} RunAgrees(st: State, m: map<Str, Value>, ops: seq<Op>)
    requires Sized(st) && StandsFor(st, m)
    requires (forall i :: 0 <= i < |ops| ==> WellFormedOp(ops[i])) && OrderlyRun(m, ops)
    ensures Run(st, ops).replies == RefRun(m, ops).replies
    ensures StandsFor(Run(st, ops).state, RefRun(m, ops).contents)
  {
    hide StandsFor, StepOp, RefOp, Orderly, WellFormedOp;
    if |ops| > 0 {
      var before := ops[..|ops| - 1];
      RunAgrees(st, m, before);
      StepAgrees(Run(st, before).state, RefRun(m, before).contents, ops[|ops| - 1]);
    }
  }

  /** The two stores cannot be told apart by any orderly run from the same contents. */
  lemma {:induction false} LayoutsAreIndistinguishable(shards: seq<map<Str, Value>>, f: Flat, m: map<Str,
          Value>, ops: seq<Op>)
    requires ShardsAgree(shards, m) && FlatAgrees(f, m)
    requires (forall i :: 0 <= i < |ops| ==> WellFormedOp(ops[i])) && OrderlyRun(m, ops)
    ensures Run(Sharded(shards), ops).replies == Run(Unsharded(f), ops).replies
  {
    hide FlatAgrees, Homed, Run, RefRun, WellFormedOp, OrderlyRun;
    RunAgrees(Sharded(shards), m, ops);
    RunAgrees(Unsharded(f), m, ops);
  }

  // ----- no empty collection

  predicate Proper(v: Value) {
    match v
    case StrV(_) => true
    case ListV(l) => |l| > 0
    case HashV(h) => |h| > 0
    case SetV(m) => |m| > 0
    case ZSetV(z) => |z| > 0 && Ordered(z)
  }

  predicate ProperOrNone(v: Option<Value>) {
    v.Some? ==> Proper(v.value)
  }

  predicate ProperStore(m: map<Str, Value>) {
    forall k :: k in m ==> Proper(m[k])
  }

  lemma {:induction false} ZSetOfOrdered(v: Option<Value>)
    requires ProperOrNone(v)
    ensures Ordered(ZSetOf(v)) && DupFree(ZSetOf(v))
  {
  }

  /** ZADD without a pair on a key that does not exist: the one operation that stores an empty collection. */
  predicate StoresEmpty(v: Option<Value>, a: Act) {
    a.ZAdd? && |a.members| == 0 && v.None?
  }

  lemma {:induction false} ZActKeepsProper(v: Option<Value>, a: Act)
    requires ProperOrNone(v) && WellFormed(a) && ActKind(a) == Some(ZSetK)
    ensures ProperOrNone(ActOnZSet(v, a).v) <==> !StoresEmpty(v, a)
  {
    hide Ordered, Zadded, Without, Ranked, SortedSets.Names, Elements, Merge, Scores, Ties, DupFree;
    ZSetOfOrdered(v);
    var z := ZSetOf(v);
    match a {
      case ZAdd(members, scores) =>
        UpsertAllSize(z, members, scores, |scores|);
        ZaddSize(z, members, scores);
        ZaddMeaning(z, members, scores, 0.0);
      case ZRem(members) => ZremMeaning(z, Elements(members), 0.0);
      case _ =>
    }
  }

  lemma {:induction false} ZaddSize(z: seq<Member>, members: seq<Str>, scores: seq<real>)
    requires |members| == |scores|
    ensures |Zadded(z, members, scores)| == |UpsertAll(z, members, scores, |scores|)|
  {
  }

  lemma {:induction false} UpsertAllSize(z: seq<Member>, members: seq<Str>, scores: seq<real>, n: nat)
    requires n <= |members| && n <= |scores|
    ensures |UpsertAll(z, members, scores, n)| >= |z|
    ensures |UpsertAll(z, members, scores, n)| == 0 <==> n == 0 && |z| == 0
  {
    if n > 0 { UpsertAllSize(z, members, scores, n - 1); }
  }

  lemma {:induction false} HashActKeepsProper(v: Option<Value>, a: Act)
    requires ProperOrNone(v) && ActKind(a) == Some(HashK)
    ensures ProperOrNone(ActOnHash(v, a).v)
  {
    hide Lookup, Elements, Overlay;
    if a.HMSet? && |a.assign| > 0 { NonEmptyUnion(HashOf(v), a.assign); }
  }

  lemma {:induction false} SetActKeepsProper(v: Option<Value>, a: Act)
    requires ProperOrNone(v) && ActKind(a) == Some(SetK)
    ensures ProperOrNone(ActOnSet(v, a).v)
  {
    hide Elements;
    if a.SAdd? && |a.members| > 0 { MemberOfElements(a.members); }
  }

  /** An operation stores no empty collection and no unordered sorted set exactly when it is not that one. */
  lemma {:induction false} ActKeepsProper(v: Option<Value>, a: Act)
    requires ProperOrNone(v) && WellFormed(a)
    ensures ProperOrNone(ActOn(v, a).v) <==> !StoresEmpty(v, a)
  {
    hide ActOnZSet, ActOnHash, ActOnSet, Ranked, Atoi, Itoa, Wrap64;
    match ActKind(a)
    case Some(HashK) => HashActKeepsProper(v, a);
    case Some(SetK) => SetActKeepsProper(v, a);
    case Some(ZSetK) => ZActKeepsProper(v, a);
    case _ =>
  }

  lemma {:induction false} MemberOfElements(members: seq<Str>)
    requires |members| > 0
    ensures members[0] in Elements(members)
  {
  }

  lemma {:induction false} NonEmptyUnion(h: map<Str, Str>, assign: map<Str, Str>)
    requires |assign| > 0
    ensures |Overlay(h, assign)| > 0
  {
    var k :| k in assign;
    assert k in Overlay(h, assign);
  }

  lemma {:induction false} WriteAllProper(m: map<Str, Value>, keys: seq<Str>, values: seq<Str>, n: nat)
    requires ProperStore(m) && n <= |keys| == |values|
    ensures ProperStore(WriteAll(m, keys, values, n))
  {
    hide Proper;
    if n > 0 {
      WriteAllProper(m, keys, values, n - 1);
      assert Proper(StrV(values[n - 1])) by { StringsAreProper(values[n - 1]); }
    }
  }

  lemma {:induction false} StringsAreProper(s: Str)
    ensures Proper(StrV(s))
  {
  }

  /** Everything stored anywhere in either layout is proper, whether or not an operation would find it. */
  ghost predicate ProperState(st: State) {
    match st
    case Sharded(shards) => forall i :: 0 <= i < |shards| ==> ProperStore(shards[i])
    case Unsharded(f) => forall kind, k :: ProperOrNone(FindIn(f, kind, k))
  }

  lemma {:induction false} PutKeepsProper(m: map<Str, Value>, k: Str, a: Act)
    requires ProperStore(m) && Guarded(a)
    ensures ProperStore(Put(m, k, ActOn(Find(m, k), a).v))
  {
    hide ActOn, Proper;
    ActKeepsProper(Find(m, k), a);
  }

  lemma {:induction false} FlatKeepsProper(f: Flat, k: Str, a: Act)
    requires ProperState(Unsharded(f)) && Guarded(a)
    ensures ProperState(Unsharded(ActFlat(f, k, a).0))
  {
    hide ActOn, ProperOrNone, FindIn, PutIn, RemoveAll, InAny;
    var f' := ActFlat(f, k, a).0;
    forall kind', j ensures ProperOrNone(FindIn(f', kind', j)) {
      assert ProperOrNone(FindIn(f, kind', j));
      match ActKind(a)
      case None =>
        FindRemoveAll(f, k, kind', j);
        NoneIsProper();
      case Some(kind) =>
        assert ProperOrNone(FindIn(f, kind, k));
        FindInKind(f, kind, k);
        KindKept(FindIn(f, kind, k), a);
        ActKeepsProper(FindIn(f, kind, k), a);
        FindPutIn(f, kind, k, ActOn(FindIn(f, kind, k), a).v, kind', j);
    }
  }

  lemma {:induction false} NoneIsProper()
    ensures ProperOrNone(None)
  {
  }

  lemma {:induction false} StringsKeepProper(f: Flat, strings: map<Str, Str>)
    requires ProperState(Unsharded(f))
    ensures ProperState(Unsharded(f.(strings := strings)))
  {
    hide Ordered;
    var f' := f.(strings := strings);
    forall kind, k ensures ProperOrNone(FindIn(f', kind, k)) {
      assert ProperOrNone(FindIn(f, kind, k));
      if kind != StrK { assert FindIn(f', kind, k) == FindIn(f, kind, k); }
    }
  }

  lemma {:induction false} StepKeepsProper(st: State, op: Op)
    requires Sized(st) && ProperState(st) && WellFormedOp(op) && (op.One? ==> Guarded(op.act))
    ensures ProperState(StepOp(st, op).state)
  {
    hide ActOn, Proper, WriteAll, WriteStrings, GetAll, GetStrings, SlotForKey, ActFlat, Put;
    match op
    case One(k, a) =>
      match st {
        case Sharded(shards) => PutKeepsProper(shards[SlotForKey(k)], k, a);
        case Unsharded(f) => FlatKeepsProper(f, k, a);
      }
    case Mset(keys, values) =>
      if |keys| > 0 {
        match st
        case Sharded(shards) => WriteAllProper(shards[SlotForKey(keys[0])], keys, values, |keys|);
        case Unsharded(f) => StringsKeepProper(f, WriteStrings(f.strings, keys, values, |keys|));
      }
    case Mget(keys) =>
    case FlushAll =>
  }

  /**
   No run on either layout, orderly or not, stores an empty collection or an unordered sorted
   set anywhere; the handlers see to it that ZADD has a pair.
   */
  lemma {:induction false} RunsStayProper(st: State, ops: seq<Op>)
    requires Sized(st) && ProperState(st)
    requires forall i :: 0 <= i < |ops| ==> WellFormedOp(ops[i]) && (ops[i].One? ==> Guarded(ops[i].act))
    ensures ProperState(Run(st, ops).state)
  {
    hide ProperState, StepOp;
    if |ops| > 0 {
      RunsStayProper(st, ops[..|ops| - 1]);
      StepKeepsProper(Run(st, ops[..|ops| - 1]).state, ops[|ops| - 1]);
    }
  }

  /** So the map that a sharded store stands for is proper too. */
  lemma {:induction false} ShardsProperMap(shards: seq<map<Str, Value>>, m: map<Str, Value>)
    requires ShardsAgree(shards, m) && ProperState(Sharded(shards))
    ensures ProperStore(m)
  {
    hide SlotForKey, Proper;
    forall k | k in m ensures Proper(m[k]) {
      assert Find(shards[SlotForKey(k)], k) == Find(m, k);
    }
  }

  // ----- and only then

  /** The sharded store after Mset stands for the reference after Mset. */
  ghost predicate MsetIsFaithful(shards: seq<map<Str, Value>>, m: map<Str, Value>, keys: seq<Str>, values: seq<Str>)
    requires |shards| == SLOTS && |keys| == |values|
  {
    ShardsAgree(StepOp(Sharded(shards), Mset(keys, values)).state.shards, WriteAll(m, keys, values, |keys|))
  }

  /** Mset locks and writes one shard; that is right for every store exactly when all its keys share a slot. */
  lemma {:induction false} MsetNeedsOneSlot(keys: seq<Str>, values: seq<Str>)
    requires |keys| == |values|
    ensures (forall shards, m :: ShardsAgree(shards, m) ==> MsetIsFaithful(shards, m, keys, values)) <==> SameSlot(keys)
  {
    hide SlotForKey;
    if SameSlot(keys) {
      forall shards, m | ShardsAgree(shards, m) ensures MsetIsFaithful(shards, m, keys, values) {
        if |keys| > 0 { MsetOnShards(shards, m, keys, values); }
      }
    } else {
      var i :| 0 <= i < |keys| && SlotForKey(keys[i]) != SlotForKey(keys[0]);
      var shards: seq<map<Str, Value>> := seq(SLOTS, _ => map[]);
      assert ShardsAgree(shards, map[]);
      WriteAllThere(map[], keys, values, |keys|, i);
      var after := StepOp(Sharded(shards), Mset(keys, values)).state.shards;
      assert Find(after[SlotForKey(keys[i])], keys[i]) == None;
      assert !MsetIsFaithful(shards, map[], keys, values);
    }
  }

  /** The operation has something to write. */
  predicate Writes(a: Act) {
    && Creates(a) && Guarded(a)
    && ((a.LPush? || a.RPush?) ==> |a.values| > 0)
    && (a.HMSet? ==> |a.assign| > 0)
    && (a.SAdd? ==> |a.members| > 0)
  }

  function TwoReplies(st: State, k: Str, a: Act, probe: Act): (Reply, Reply)
    requires Sized(st) && WellFormed(a) && WellFormed(probe)
  {
    var s := StepOne(st, k, a);
    (s.reply, StepOne(s.state, k, probe).reply)
  }

  /** An operation that shows whether a value of the kind is still there. */
  function Probe(kind: Kind): Act {
    match kind
    case StrK => Get
    case ListK => LLen
    case HashK => HGetAll
    case SetK => SMembers
    case ZSetK => ZRange(0, -1)
  }

  lemma {:induction false} ZProbeNotices(v: Value, w: Value)
    requires v.ZSetV? && |v.z| > 0 && !w.ZSetV?
    ensures ActOnZSet(Some(v), ZRange(0, -1)).reply != ActOnZSet(Some(w), ZRange(0, -1)).reply
  {
    hide Ranked;
    RankedAll(v.z, |v.z|);
    RankedAll<Member>([], 0);
    assert v.z[..|v.z|] == v.z;
  }

  lemma {:induction false} HashProbeNotices(v: Value, w: Value)
    requires v.HashV? && |v.h| > 0 && !w.HashV?
    ensures ActOnHash(Some(v), HGetAll).reply != ActOnHash(Some(w), HGetAll).reply
  {
  }

  lemma {:induction false} SetProbeNotices(v: Value, w: Value)
    requires v.SetV? && |v.m| > 0 && !w.SetV?
    ensures ActOnSet(Some(v), SMembers).reply != ActOnSet(Some(w), SMembers).reply
  {
  }

  /** What the probe of a kind replies before and after the value is replaced by a string. */
  lemma {:induction false} ProbeNotices(v: Value, s: Str)
    requires Proper(v) && !v.StrV?
    ensures ActOn(Some(v), Probe(KindOf(v))).reply != ActOn(Some(StrV(s)), Probe(KindOf(v))).reply
  {
    hide Ordered, ActOnHash, ActOnSet, ActOnZSet, Ranked;
    match v
    case ListV(l) =>
    case HashV(h) => HashProbeNotices(v, StrV(s));
    case SetV(m) => SetProbeNotices(v, StrV(s));
    case ZSetV(z) => ZProbeNotices(v, StrV(s));
  }

  /** Two calls on one key, on the value the sharded store holds there. */
  function PairOn(v: Option<Value>, a: Act, probe: Act): (Reply, Reply)
    requires WellFormed(a) && WellFormed(probe)
  {
    (ActOn(v, a).reply, ActOn(ActOn(v, a).v, probe).reply)
  }

  lemma {:induction false} PairOnShards(shards: seq<map<Str, Value>>, k: Str, a: Act, probe: Act)
    requires |shards| == SLOTS && WellFormed(a) && WellFormed(probe)
    ensures TwoReplies(Sharded(shards), k, a, probe) == PairOn(Find(shards[SlotForKey(k)], k), a, probe)
  {
    hide ActOn, Find, Put, SlotForKey;
    FindPut(shards[SlotForKey(k)], k, ActOn(Find(shards[SlotForKey(k)], k), a).v, k);
  }

  lemma {:induction false} FindInKind(f: Flat, kind: Kind, k: Str)
    ensures !Clash(FindIn(f, kind, k), kind)
  {
  }

  /** A second operation of the same type sees the first; one of another type does not. */
  lemma {:induction false} PairOnFlat(f: Flat, k: Str, a: Act, probe: Act)
    requires WellFormed(a) && WellFormed(probe) && ActKind(a).Some? && ActKind(probe).Some?
    ensures
      var ka, kp := ActKind(a).value, ActKind(probe).value;
      TwoReplies(Unsharded(f), k, a, probe) ==
        if ka == kp then PairOn(FindIn(f, ka, k), a, probe)
        else (ActOn(FindIn(f, ka, k), a).reply, ActOn(FindIn(f, kp, k), probe).reply)
  {
    hide ActOn, FindIn, PutIn;
    var ka, kp := ActKind(a).value, ActKind(probe).value;
    FindInKind(f, ka, k);
    KindKept(FindIn(f, ka, k), a);
    FindPutIn(f, ka, k, ActOn(FindIn(f, ka, k), a).v, kp, k);
  }

  lemma {:induction false} ListReplyNotices(v: Value, a: Act)
    requires (a.LPush? || a.RPush?) && |a.values| > 0 && !v.ListV?
    ensures ActOnList(Some(v), a).reply != ActOnList(None, a).reply
  {
  }

  lemma {:induction false} SetReplyNotices(v: Value, a: Act)
    requires a.SAdd? && |a.members| > 0 && !v.SetV?
    ensures ActOnSet(Some(v), a).reply != ActOnSet(None, a).reply
  {
    hide Elements;
    MemberOfElements(a.members);
  }

  lemma {:induction false} ReplyNotices(v: Value, a: Act)
    requires Writes(a) && !a.Set? && !a.HMSet? && KindOf(v) != ActKind(a).value
    ensures ActOn(Some(v), a).reply != ActOn(None, a).reply
  {
    hide Zadded, Atoi, Itoa, Wrap64, Elements, ActOnList, ActOnSet, ActOnHash;
    match a {
      case LPush(_) => ListReplyNotices(v, a);
      case RPush(_) => ListReplyNotices(v, a);
      case SAdd(_) => SetReplyNotices(v, a);
      case _ =>
    }
  }

  lemma {:induction false} HashNotices(v: Value, a: Act)
    requires a.HMSet? && |a.assign| > 0 && !v.HashV?
    ensures PairOn(Some(v), a, HGetAll).1 != PairOn(None, a, HGetAll).1
  {
    hide Overlay, Elements, Lookup, ActOnStr, ActOnList, ActOnSet, ActOnZSet;
    NonEmptyUnion(map[], a.assign);
  }

  lemma {:induction false} SetNotices(v: Value, a: Act)
    requires a.Set? && Proper(v) && !v.StrV?
    ensures PairOn(Some(v), a, Probe(KindOf(v))).1 != ActOn(Some(v), Probe(KindOf(v))).reply
  {
    ProbeNotices(v, a.value);
  }

  /** A write against another type shows in its own reply or in the next. */
  lemma {:induction false} ClashShows(v: Value, a: Act) returns (probe: Act)
    requires Proper(v) && Writes(a) && KindOf(v) != ActKind(a).value
    ensures WellFormed(probe) && !Creates(probe) && ActKind(probe).Some?
    ensures
      var own := PairOn(None, a, probe);
      PairOn(Some(v), a, probe) !=
        (own.0, if ActKind(probe) == ActKind(a) then own.1
          else ActOn(OfKind(Some(v), ActKind(probe).value), probe).reply)
  {
    hide Proper, ActOn, PairOn;
    if a.Set? {
      probe := Probe(KindOf(v));
      SetNotices(v, a);
    } else if a.HMSet? {
      probe := HGetAll;
      HashNotices(v, a);
    } else {
      probe := Get;
      ReplyNotices(v, a);
      PairParts(None, a, probe);
      PairParts(Some(v), a, probe);
    }
  }

  /** A write and any operation on the key that does not itself create have the same replies in both layouts. */
  ghost predicate Unnoticed(shards: seq<map<Str, Value>>, f: Flat, k: Str, a: Act)
    requires |shards| == SLOTS && WellFormed(a)
  {
    forall probe: Act :: WellFormed(probe) && !Creates(probe) ==>
      TwoReplies(Sharded(shards), k, a, probe) == TwoReplies(Unsharded(f), k, a, probe)
  }

  /** After a write, no further operation tells the layouts apart exactly when the write respects the key's type. */
  lemma {:induction false} LayoutsDifferIffTypesClash(shards: seq<map<Str, Value>>, f: Flat, m: map<Str,
          Value>, k: Str, a: Act)
    requires ShardsAgree(shards, m) && FlatAgrees(f, m) && ProperStore(m) && Writes(a)
    ensures Unnoticed(shards, f, k, a) <==> WellTyped(Find(m, k), a)
  {
    hide ActOn, SlotForKey, PairOn, TwoReplies, StepOne, Proper, Homed, FindIn;
    assert Find(shards[SlotForKey(k)], k) == Find(m, k);
    if WellTyped(Find(m, k), a) {
      forall probe: Act | WellFormed(probe) && !Creates(probe)
        ensures TwoReplies(Sharded(shards), k, a, probe) == TwoReplies(Unsharded(f), k, a, probe) {
        PairsAgree(shards, f, m, k, a, probe);
      }
    } else {
      var v := m[k];
      var probe := ClashShows(v, a);
      PairOnShards(shards, k, a, probe);
      PairOnFlat(f, k, a, probe);
      assert FindIn(f, ActKind(a).value, k) == OfKind(Find(m, k), ActKind(a).value);
      assert FindIn(f, ActKind(probe).value, k) == OfKind(Find(m, k), ActKind(probe).value);
      PairParts(None, a, probe);
      assert TwoReplies(Sharded(shards), k, a, probe) != TwoReplies(Unsharded(f), k, a, probe);
    }
  }

  lemma {:induction false} PairParts(v: Option<Value>, a: Act, probe: Act)
    requires WellFormed(a) && WellFormed(probe)
    ensures PairOn(v, a, probe).0 == ActOn(v, a).reply
  {
  }

  lemma {:induction false} PairsAgree(shards: seq<map<Str, Value>>, f: Flat, m: map<Str, Value>, k: Str,
          a: Act, probe: Act)
    requires ShardsAgree(shards, m) && FlatAgrees(f, m) && WellFormed(a) && WellFormed(probe)
    requires WellTyped(Find(m, k), a) && !Creates(probe)
    ensures TwoReplies(Sharded(shards), k, a, probe) == TwoReplies(Unsharded(f), k, a, probe)
  {
    hide ActOn, StepOne, Homed, Find, Put, FlatAgrees, ShardsAgree;
    var m' := Put(m, k, ActOn(Find(m, k), a).v);
    SizedShards(shards, m);
    OneAgrees(Sharded(shards), m, k, a);
    OneAgrees(Unsharded(f), m, k, a);
    OneAgrees(StepOne(Sharded(shards), k, a).state, m', k, probe);
    OneAgrees(StepOne(Unsharded(f), k, a).state, m', k, probe);
  }

  lemma {:induction false} SizedShards(shards: seq<map<Str, Value>>, m: map<Str, Value>)
    requires ShardsAgree(shards, m)
    ensures |shards| == SLOTS
  {
  }

  lemma {:induction false} RunKeepsLayout(st: State, ops: seq<Op>)
    requires Sized(st) && forall i :: 0 <= i < |ops| ==> WellFormedOp(ops[i])
    ensures Run(st, ops).state.Sharded? == st.Sharded?
  {
    hide ActFlat, ActShard, GetAll, GetStrings, WriteAll, WriteStrings, SlotForKey, WellFormedOp;
    if |ops| > 0 { RunKeepsLayout(st, ops[..|ops| - 1]); }
  }

  lemma {:induction false} NewStores()
    ensures ShardsAgree(seq(SLOTS, _ => map[]), map[]) && FlatAgrees(EMPTY_FLAT, map[])
    ensures ProperState(Sharded(seq(SLOTS, _ => map[])))
  {
    hide SlotForKey;
  }

  /**
   In every reachable state: after any orderly run on two new stores, no further operation
   notices a write exactly when the write respects the type the key then has.
   */
  lemma {:induction false} ReachableLayoutsDiffer(ops: seq<Op>, k: Str, a: Act)
    requires forall i :: 0 <= i < |ops| ==> WellFormedOp(ops[i]) && (ops[i].One? ==> Guarded(ops[i].act))
    requires OrderlyRun(map[], ops) && Writes(a)
    ensures
      var s := Run(Sharded(seq(SLOTS, _ => map[])), ops).state;
      var f := Run(Unsharded(EMPTY_FLAT), ops).state;
      && s.Sharded? && f.Unsharded?
      && (Unnoticed(s.shards, f.flat, k, a) <==> WellTyped(Find(RefRun(map[], ops).contents, k), a))
  {
    hide ShardsAgree, FlatAgrees, ProperStore, Unnoticed, Run, RefRun, OrderlyRun, WellFormedOp, ProperState, Writes,
      WellTyped;
    var s, f := Sharded(seq(SLOTS, _ => map[])), Unsharded(EMPTY_FLAT);
    NewStores();
    RunKeepsLayout(s, ops);
    RunKeepsLayout(f, ops);
    RunAgrees(s, map[], ops);
    RunAgrees(f, map[], ops);
    RunsStayProper(s, ops);
    var m := RefRun(map[], ops).contents;
    ShardsProperMap(Run(s, ops).state.shards, m);
    LayoutsDifferIffTypesClash(Run(s, ops).state.shards, Run(f, ops).state.flat, m, k, a);
  }

  lemma {:induction false} RunSnoc(st: State, ops: seq<Op>, op: Op)
    requires Sized(st) && WellFormedOp(op) && forall i :: 0 <= i < |ops| ==> WellFormedOp(ops[i])
    ensures
      var t := Run(st, ops);
      var s := StepOp(t.state, op);
      Run(st, ops + [op]) == Trace(s.state, t.replies + [s.reply])
  {
    assert (ops + [op])[..|ops|] == ops;
  }

  /** A run with one more operation. */
  function Then(t: Trace, op: Op): (r: Trace)
    requires Sized(t.state) && WellFormedOp(op)
    ensures Sized(r.state)
  {
    var s := StepOp(t.state, op);
    Trace(s.state, t.replies + [s.reply])
  }

  lemma {:induction false} ThreeOps(st: State, a: Op, b: Op, c: Op)
    requires Sized(st) && WellFormedOp(a) && WellFormedOp(b) && WellFormedOp(c)
    ensures Run(st, [a, b, c]) == Then(Then(Then(Trace(st, []), a), b), c)
  {
    hide StepOp, WellFormedOp;
    RunSnoc(st, [], a);
    RunSnoc(st, [a], b);
    RunSnoc(st, [a, b], c);
    assert [] + [a] == [a] && [a] + [b] == [a, b] && [a, b] + [c] == [a, b, c];
  }

  /** LPUSH and then SET on a new key: the shard's list is gone, the per-type store still has it. */
  lemma {:induction false} ClashFromEmpty(k: Str, x: Str, s: Str)
    ensures
      var ops := [One(k, LPush([x])), One(k, Set(s)), One(k, LLen)];
      && Run(Sharded(seq(SLOTS, _ => map[])), ops).replies == [Number(1), Done, Number(0)]
      && Run(Unsharded(EMPTY_FLAT), ops).replies == [Number(1), Done, Number(1)]
  {
    hide SlotForKey, Run;
    var a, b, c := One(k, LPush([x])), One(k, Set(s)), One(k, LLen);
    ThreeOps(Sharded(seq(SLOTS, _ => map[])), a, b, c);
    ThreeOps(Unsharded(EMPTY_FLAT), a, b, c);
    ClashOnShards(k, x, s);
    ClashOnFlat(k, x, s);
  }

  lemma {:induction false} ClashOnShards(k: Str, x: Str, s: Str)
    ensures
      var t := Trace(Sharded(seq(SLOTS, _ => map[])), []);
      Then(Then(Then(t, One(k, LPush([x]))), One(k, Set(s))), One(k, LLen)).replies == [Number(1), Done, Number(0)]
  {
    hide SlotForKey;
    assert [x] + [] == [x];
  }

  lemma {:induction false} ClashOnFlat(k: Str, x: Str, s: Str)
    ensures
      var t := Trace(Unsharded(EMPTY_FLAT), []);
      Then(Then(Then(t, One(k, LPush([x]))), One(k, Set(s))), One(k, LLen)).replies == [Number(1), Done, Number(1)]
  {
    assert [x] + [] == [x];
  }
}
