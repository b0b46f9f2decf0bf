/**
 What a key's replies depend on: the operations that name the key, and nothing else. This
 holds in both layouts, in every run, for keys that share a shard as for those that do not.
 */
module KeyLocality {
  import opened Bytes
  import opened Slots
  import opened StoreModel
  import opened StoreRuns

  /** The operation names the key, or flushes the store. */
  predicate Touches(op: Op, k: Str) {
    match op
    case One(key, _) => key == k
    case Mset(keys, _) => k in keys
    case Mget(keys) => k in keys
    case FlushAll => true
  }

  predicate WellFormedOps(ops: seq<Op>) {
    forall i :: 0 <= i < |ops| ==> WellFormedOp(ops[i])
  }

  /** Two stores of one layout hold the same for the key, in every shard or in every map. */
  ghost predicate SameFor(a: State, b: State, k: Str)
    requires Sized(a) && Sized(b)
  {
    match a
    case Sharded(shards) =>
      b.Sharded? && forall i :: 0 <= i < SLOTS ==> Find(shards[i], k) == Find(b.shards[i], k)
    case Unsharded(f) =>
      b.Unsharded? && forall kind :: FindIn(f, kind, k) == FindIn(b.flat, kind, k)
  }

  /** What an MGET replies for one key: its texts at the places where the key stands. */
  function Picked(keys: seq<Str>, texts: seq<Str>, k: Str, n: nat): seq<Str>
    requires n <= |keys| && n <= |texts|
  {
    if n == 0 then [] else Picked(keys, texts, k, n - 1) + if keys[n - 1] == k then [texts[n - 1]] else []
  }

  /** The part of a reply that is about the key. */
  function Share(op: Op, reply: Reply, k: Str): Reply {
    if op.Mget? && reply.Texts? && |reply.list| == |op.keys| then Texts(Picked(op.keys, reply.list, k, |op.keys|))
    else reply
  }

  /** The operations of a run that touch the key. */
  function Mine(ops: seq<Op>, k: Str): (r: seq<Op>)
    ensures forall i :: 0 <= i < |r| ==> Touches(r[i], k)
    ensures WellFormedOps(ops) ==> WellFormedOps(r)
  {
    if |ops| == 0 then []
    else Mine(ops[..|ops| - 1], k) + if Touches(ops[|ops| - 1], k) then [ops[|ops| - 1]] else []
  }

  /** What a client of the key hears over a run: the key's share of the replies to those operations. */
  function Heard(st: State, ops: seq<Op>, k: Str): seq<Reply>
    requires Sized(st) && WellFormedOps(ops)
  {
    if |ops| == 0 then []
    else
      var before, op := ops[..|ops| - 1], ops[|ops| - 1];
      Heard(st, before, k) +
      if Touches(op, k) then [Share(op, StepOp(Run(st, before).state, op).reply, k)] else []
  }

  // ----- one operation

  lemma {:induction false} WriteStringsSame(a: map<Str, Str>, b: map<Str, Str>, keys: seq<Str>, values: seq<Str>,
          n: nat, k: Str)
    requires n <= |keys| == |values| && (k in a <==> k in b) && (k in a ==> a[k] == b[k])
    ensures
      var x, y := WriteStrings(a, keys, values, n), WriteStrings(b, keys, values, n);
      (k in x <==> k in y) && (k in x ==> x[k] == y[k])
  {
    if n > 0 { WriteStringsSame(a, b, keys, values, n - 1, k); }
  }

  lemma {:induction false} WriteStringsElsewhere(a: map<Str, Str>, keys: seq<Str>, values: seq<Str>, n: nat, k: Str)
    requires n <= |keys| == |values| && k !in keys
    ensures var x := WriteStrings(a, keys, values, n); (k in x <==> k in a) && (k in x ==> x[k] == a[k])
  {
    if n > 0 { WriteStringsElsewhere(a, keys, values, n - 1, k); }
  }

  lemma {:induction false} PickedSame(keys: seq<Str>, a: seq<Str>, b: seq<Str>, k: Str, n: nat)
    requires n <= |keys| && |a| == |b| == |keys|
    requires forall i :: 0 <= i < |keys| && keys[i] == k ==> a[i] == b[i]
    ensures Picked(keys, a, k, n) == Picked(keys, b, k, n)
  {
    if n > 0 { PickedSame(keys, a, b, k, n - 1); }
  }

  lemma {:induction false} FlatElsewhere(f: Flat, key: Str, a: Act, k: Str, kind: Kind)
    requires WellFormed(a) && key != k
    ensures FindIn(ActFlat(f, key, a).0, kind, k) == FindIn(f, kind, k)
  {
    hide ActOn, FindIn, PutIn, RemoveAll, InAny;
    match ActKind(a)
    case None => FindRemoveAll(f, key, kind, k);
    case Some(kind') =>
      FindInKind(f, kind', key);
      KindKept(FindIn(f, kind', key), a);
      FindPutIn(f, kind', key, ActOn(FindIn(f, kind', key), a).v, kind, k);
  }

  lemma {:induction false} OneElsewhere(st: State, key: Str, a: Act, k: Str)
    requires Sized(st) && WellFormed(a) && key != k
    ensures SameFor(StepOne(st, key, a).state, st, k)
  {
    hide ActOn, FindIn, ActFlat, SlotForKey, Put, Find;
    match st
    case Sharded(shards) =>
      var i := SlotForKey(key);
      FindPut(shards[i], key, ActOn(Find(shards[i], key), a).v, k);
    case Unsharded(f) =>
      forall kind ensures FindIn(ActFlat(f, key, a).0, kind, k) == FindIn(f, kind, k) {
        FlatElsewhere(f, key, a, k, kind);
      }
  }

  lemma {:induction false} MsetElsewhere(st: State, keys: seq<Str>, values: seq<Str>, k: Str)
    requires Sized(st) && |keys| == |values| && k !in keys
    ensures SameFor(StepOp(st, Mset(keys, values)).state, st, k)
  {
    hide SlotForKey, WriteAll, WriteStrings;
    if |keys| > 0 {
      match st
      case Sharded(shards) => WriteAllElsewhere(shards[SlotForKey(keys[0])], keys, values, |keys|, k);
      case Unsharded(f) => WriteStringsElsewhere(f.strings, keys, values, |keys|, k);
    }
  }

  /** An operation that does not touch the key leaves it alone, in its own shard as in any other. */
  lemma {:induction false} OthersLeaveIt(st: State, op: Op, k: Str)
    requires Sized(st) && WellFormedOp(op) && !Touches(op, k)
    ensures SameFor(StepOp(st, op).state, st, k)
  {
    hide SameFor, StepOne, GetAll, GetStrings, SlotForKey, WriteAll, WriteStrings;
    match op
    case One(key, a) => OneElsewhere(st, key, a, k);
    case Mset(keys, values) => MsetElsewhere(st, keys, values, k);
    case Mget(keys) => SameAsItself(st, k);
    case FlushAll =>
  }

  lemma {:induction false} SameAsItself(st: State, k: Str)
    requires Sized(st)
    ensures SameFor(st, st, k)
  {
  }

  lemma {:induction false} FlatSame(f: Flat, g: Flat, k: Str, a: Act, kind: Kind)
    requires WellFormed(a) && forall kind' :: FindIn(f, kind', k) == FindIn(g, kind', k)
    ensures FindIn(ActFlat(f, k, a).0, kind, k) == FindIn(ActFlat(g, k, a).0, kind, k)
    ensures ActFlat(f, k, a).1 == ActFlat(g, k, a).1
  {
    hide ActOn, FindIn, PutIn, RemoveAll, InAny;
    match ActKind(a)
    case None =>
      FindRemoveAll(f, k, kind, k);
      FindRemoveAll(g, k, kind, k);
      InAnyIff(f, k);
      InAnyIff(g, k);
    case Some(kind') =>
      assert FindIn(f, kind', k) == FindIn(g, kind', k);
      assert FindIn(f, kind, k) == FindIn(g, kind, k);
      FindInKind(f, kind', k);
      KindKept(FindIn(f, kind', k), a);
      var v := ActOn(FindIn(f, kind', k), a).v;
      FindPutIn(f, kind', k, v, kind, k);
      FindPutIn(g, kind', k, v, kind, k);
  }

  lemma {:induction false} OneSame(a: State, b: State, k: Str, act: Act)
    requires Sized(a) && Sized(b) && WellFormed(act) && SameFor(a, b, k)
    ensures StepOne(a, k, act).reply == StepOne(b, k, act).reply
    ensures SameFor(StepOne(a, k, act).state, StepOne(b, k, act).state, k)
  {
    hide ActOn, FindIn, ActFlat, SlotForKey, Put, Find;
    match a
    case Sharded(shards) =>
      var i := SlotForKey(k);
      var v := ActOn(Find(shards[i], k), act).v;
      FindPut(shards[i], k, v, k);
      FindPut(b.shards[i], k, v, k);
    case Unsharded(f) =>
      FlatSame(f, b.flat, k, act, StrK);
      forall kind ensures FindIn(ActFlat(f, k, act).0, kind, k) == FindIn(ActFlat(b.flat, k, act).0, kind, k) {
        FlatSame(f, b.flat, k, act, kind);
      }
  }

  lemma {:induction false} MsetSame(a: State, b: State, keys: seq<Str>, values: seq<Str>, k: Str)
    requires Sized(a) && Sized(b) && |keys| == |values| && SameFor(a, b, k)
    ensures SameFor(StepOp(a, Mset(keys, values)).state, StepOp(b, Mset(keys, values)).state, k)
  {
    hide SlotForKey, WriteAll, WriteStrings;
    if |keys| > 0 {
      match a
      case Sharded(shards) =>
        var i := SlotForKey(keys[0]);
        WriteAllSame(shards[i], b.shards[i], keys, values, |keys|, k);
      case Unsharded(f) =>
        assert FindIn(f, StrK, k) == FindIn(b.flat, StrK, k);
        WriteStringsSame(f.strings, b.flat.strings, keys, values, |keys|, k);
        var f', g' := StepOp(a, Mset(keys, values)).state.flat, StepOp(b, Mset(keys, values)).state.flat;
        forall kind ensures FindIn(f', kind, k) == FindIn(g', kind, k) {
          assert FindIn(f, kind, k) == FindIn(b.flat, kind, k);
        }
    }
  }

  lemma {:induction false} MgetSame(a: State, b: State, keys: seq<Str>, k: Str)
    requires Sized(a) && Sized(b) && SameFor(a, b, k)
    ensures Share(Mget(keys), StepOp(a, Mget(keys)).reply, k) == Share(Mget(keys), StepOp(b, Mget(keys)).reply, k)
  {
    hide SlotForKey;
    if |keys| > 0 {
      match a
      case Sharded(shards) =>
        var i := SlotForKey(keys[0]);
        PickedSame(keys, GetAll(shards[i], keys), GetAll(b.shards[i], keys), k, |keys|);
      case Unsharded(f) =>
        assert FindIn(f, StrK, k) == FindIn(b.flat, StrK, k);
        PickedSame(keys, GetStrings(f.strings, keys), GetStrings(b.flat.strings, keys), k, |keys|);
    }
  }

  /** An operation does the same to the key, and tells its client the same, whatever else the store holds. */
  lemma {:induction false} OnlyTheKeyMatters(a: State, b: State, op: Op, k: Str)
    requires Sized(a) && Sized(b) && WellFormedOp(op) && Touches(op, k) && SameFor(a, b, k)
    ensures SameFor(StepOp(a, op).state, StepOp(b, op).state, k)
    ensures Share(op, StepOp(a, op).reply, k) == Share(op, StepOp(b, op).reply, k)
  {
    hide StepOne, GetAll, GetStrings, SlotForKey, WriteAll, WriteStrings, FindIn, Picked;
    match op
    case One(key, act) => OneSame(a, b, k, act);
    case Mset(keys, values) => MsetSame(a, b, keys, values, k);
    case Mget(keys) => MgetSame(a, b, keys, k);
    case FlushAll =>
  }

  // ----- whole runs

  lemma {:induction false} SameTrans(a: State, b: State, c: State, k: Str)
    requires Sized(a) && Sized(b) && Sized(c)
    requires SameFor(a, b, k) && SameFor(b, c, k)
    ensures SameFor(a, c, k)
  {
    hide Find, FindIn;
    if a.Unsharded? {
      forall kind ensures FindIn(a.flat, kind, k) == FindIn(c.flat, kind, k) {
        assert FindIn(a.flat, kind, k) == FindIn(b.flat, kind, k);
      }
    }
  }

  lemma {:induction false} SameBack(a: State, b: State, k: Str)
    requires Sized(a) && Sized(b) && SameFor(a, b, k)
    ensures SameFor(b, a, k)
  {
    hide Find, FindIn;
  }

  /** Leaving out every operation that does not touch the key changes nothing for it. */
  lemma {:induction false} OthersCanBeLeftOut(a: State, b: State, ops: seq<Op>, k: Str)
    requires Sized(a) && Sized(b) && WellFormedOps(ops) && SameFor(a, b, k)
    ensures Heard(a, ops, k) == Heard(b, Mine(ops, k), k)
    ensures SameFor(Run(a, ops).state, Run(b, Mine(ops, k)).state, k)
  {
    hide SameFor, StepOp, Touches, Share, WellFormedOp;
    if |ops| > 0 {
      var before, op := ops[..|ops| - 1], ops[|ops| - 1];
      OthersCanBeLeftOut(a, b, before, k);
      var mine := Mine(before, k);
      var s, t := Run(a, before).state, Run(b, mine).state;
      if Touches(op, k) {
        OnlyTheKeyMatters(s, t, op, k);
        assert (mine + [op])[..|mine|] == mine;
      } else {
        OthersLeaveIt(s, op, k);
        SameTrans(StepOp(s, op).state, s, t, k);
        assert mine + [] == mine;
      }
    }
  }

  /**
   Two runs on stores that hold the same for a key, and in which the same operations touch
   it, tell its clients the same and leave the same behind, whatever else happens in them.
   */
  lemma {:induction false} OnlyOwnOperationsMatter(a: State, b: State, ops: seq<Op>, ops': seq<Op>, k: Str)
    requires Sized(a) && Sized(b) && WellFormedOps(ops) && WellFormedOps(ops')
    requires SameFor(a, b, k) && Mine(ops, k) == Mine(ops', k)
    ensures Heard(a, ops, k) == Heard(b, ops', k)
    ensures SameFor(Run(a, ops).state, Run(b, ops').state, k)
  {
    hide SameFor, Run, Heard, Mine;
    SameAsItself(b, k);
    OthersCanBeLeftOut(a, b, ops, k);
    OthersCanBeLeftOut(b, b, ops', k);
    var mine := Mine(ops, k);
    SameBack(Run(b, ops').state, Run(b, mine).state, k);
    SameTrans(Run(a, ops).state, Run(b, mine).state, Run(b, ops').state, k);
  }

  // ----- what one key holds

  /** What an operation of the kind finds for the key. */
  function Held(st: State, kind: Kind, k: Str): Option<Value>
    requires Sized(st)
  {
    match st
    case Sharded(shards) => Find(shards[SlotForKey(k)], k)
    case Unsharded(f) => FindIn(f, kind, k)
  }

  /** The operations on the key alone, in order. */
  function Acts(ops: seq<Op>, k: Str): (r: seq<Act>)
    ensures WellFormedOps(ops) ==> forall i :: 0 <= i < |r| ==> WellFormed(r[i])
  {
    if |ops| == 0 then []
    else
      var op := ops[|ops| - 1];
      Acts(ops[..|ops| - 1], k) + if op.One? && op.key == k then [op.act] else []
  }

  datatype Course = Course(v: Option<Value>, replies: seq<Reply>)

  /** The reference on one value: the operations one after the other. */
  function ActAll(v: Option<Value>, acts: seq<Act>): Course
    requires forall i :: 0 <= i < |acts| ==> WellFormed(acts[i])
  {
    if |acts| == 0 then Course(v, [])
    else
      var c := ActAll(v, acts[..|acts| - 1]);
      assert WellFormed(acts[|acts| - 1]);
      var o := ActOn(c.v, acts[|acts| - 1]);
      Course(o.v, c.replies + [o.reply])
  }

  /** Operations of one kind on one key are all that touches the key. */
  predicate OneKind(ops: seq<Op>, k: Str, kind: Kind) {
    forall i :: 0 <= i < |ops| && Touches(ops[i], k) ==> ops[i].One? && ActKind(ops[i].act) == Some(kind)
  }

  lemma {:induction false} StepOnHeld(st: State, k: Str, a: Act)
    requires Sized(st) && WellFormed(a) && ActKind(a).Some?
    ensures
      var kind := ActKind(a).value;
      var o := ActOn(Held(st, kind, k), a);
      var s := StepOne(st, k, a);
      s.reply == o.reply && Held(s.state, kind, k) == o.v
  {
    hide ActOn, Find, Put, FindIn, PutIn, SlotForKey;
    var kind := ActKind(a).value;
    match st
    case Sharded(shards) =>
      var i := SlotForKey(k);
      FindPut(shards[i], k, ActOn(Find(shards[i], k), a).v, k);
    case Unsharded(f) =>
      FindInKind(f, kind, k);
      KindKept(FindIn(f, kind, k), a);
      FindPutIn(f, kind, k, ActOn(FindIn(f, kind, k), a).v, kind, k);
  }

  lemma {:induction false} HeldSame(a: State, b: State, kind: Kind, k: Str)
    requires Sized(a) && Sized(b) && SameFor(a, b, k)
    ensures Held(a, kind, k) == Held(b, kind, k)
  {
    hide SlotForKey, Find, FindIn;
    if a.Unsharded? { assert FindIn(a.flat, kind, k) == FindIn(b.flat, kind, k); }
  }

  /**
   In either layout a run looks, to a client that uses a key for one kind of value, like the
   client's operations on a single value, whatever happens to other keys in between.
   */
  lemma {:induction false} RunIsOneValue(st: State, ops: seq<Op>, k: Str, kind: Kind)
    requires Sized(st) && WellFormedOps(ops) && OneKind(ops, k, kind)
    ensures
      var c := ActAll(Held(st, kind, k), Acts(ops, k));
      Heard(st, ops, k) == c.replies && Held(Run(st, ops).state, kind, k) == c.v
  {
    hide StepOne, ActOn, Held, SameFor;
    if |ops| > 0 {
      var before, op := ops[..|ops| - 1], ops[|ops| - 1];
      RunIsOneValue(st, before, k, kind);
      var s := Run(st, before).state;
      if Touches(op, k) {
        StepOnHeld(s, k, op.act);
        var acts := Acts(before, k);
        assert (acts + [op.act])[..|acts|] == acts;
      } else {
        OthersLeaveIt(s, op, k);
        HeldSame(StepOp(s, op).state, s, kind, k);
        assert Acts(before, k) + [] == Acts(before, k);
      }
    }
  }
}
