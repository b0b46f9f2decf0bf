/** The commands in front of the store: dispatch, the same-slot checks of MSET and MGET, and whole runs. */
module StoreService {
  import opened Bytes
  import opened Slots
  import opened StoreModel
  import opened StoreRuns
  import opened KVStore
  import TextOrder

  /** One command, dispatched to the store's method for it. */
  method ExecuteOne(kv: KVStore, k: Str, a: Act) returns (r: Reply)
    requires kv.Valid() && WellFormed(a)
    modifies kv, kv.slots
    ensures Step(kv.Contents(), r) == StepOne(old(kv.Contents()), k, a)
  {
    hide StepOne, kv.Contents;
    match a {
      case Set(value) => kv.Set(k, value); r := Done;
      case Get => var x := kv.Get(k); r := Text(x);
      case Append(suffix) => r := kv.Append(k, suffix);
      case Change(delta) => r := kv.ChangeInteger(k, delta);
      case Delete => var n := kv.Delete(k); r := Number(n);
      case LPush(values) => var n := kv.LPush(k, values); r := Number(n);
      case RPush(values) => var n := kv.RPush(k, values); r := Number(n);
      case LPop => var x := kv.LPop(k); r := Popped(x);
      case RPop => var x := kv.RPop(k); r := Popped(x);
      case LRange(start, end) => var x := kv.LRange(k, start, end); r := Texts(x);
      case LLen => var n := kv.LLen(k); r := Number(n);
      case HMSet(assign) => kv.HMSet(k, assign); r := Done;
      case HGet(field) => var x := kv.HGet(k, field); r := Popped(x);
      case HMGet(fields) => var x := kv.HMGet(k, fields); r := Found(x);
      case HGetAll => var x := kv.HGetAll(k); r := Fields(TextOrder.Pairs(x, |x| / 2));
      case HDel(fields) => var n := kv.HDel(k, fields); r := Number(n);
      case SAdd(members) => var n := kv.SAdd(k, members); r := Number(n);
      case SMembers => var x := kv.SMembers(k); r := Names(Elements(x));
      case SIsMember(member) => var x := kv.SIsMember(k, member); r := Flag(x);
      case SRem(members) => var n := kv.SRem(k, members); r := Number(n);
      case ZAdd(members, scores) => r := kv.StoreScores(k, members, scores);
      case ZRange(start, end) => var x := kv.ZRange(k, start, end); r := Texts(x);
      case ZRem(members) => var n := kv.ZRem(k, members); r := Number(n);
    }
  }

  method Execute(kv: KVStore, op: Op) returns (r: Reply)
    requires kv.Valid() && WellFormedOp(op)
    modifies kv, kv.slots
    ensures Step(kv.Contents(), r) == StepOp(old(kv.Contents()), op)
  {
    hide StepOne;
    match op {
      case One(k, a) => r := ExecuteOne(kv, k, a);
      case Mset(keys, values) => kv.Mset(keys, values); r := Done;
      case Mget(keys) => var x := kv.Mget(keys); r := Texts(x);
      case FlushAll => kv.FlushAll(); r := Done;
    }
  }

  /** A sequence of commands runs as the model says, reply for reply. */
  method Serve(kv: KVStore, ops: seq<Op>) returns (replies: seq<Reply>)
    requires kv.Valid() && forall i :: 0 <= i < |ops| ==> WellFormedOp(ops[i])
    modifies kv, kv.slots
    ensures Trace(kv.Contents(), replies) == Run(old(kv.Contents()), ops)
  {
    hide StepOp, WellFormedOp;
    replies := [];
    for i := 0 to |ops|
      invariant Trace(kv.Contents(), replies) == Run(old(kv.Contents()), ops[..i])
    {
      assert ops[..i + 1][..i] == ops[..i];
      var r := Execute(kv, ops[i]);
      replies := replies + [r];
    }
    assert ops[..|ops|] == ops;
  }

  /** Two new stores, one in each mode, give the same replies to every orderly sequence of commands. */
  method AnswerAlike(ops: seq<Op>) returns (a: seq<Reply>, b: seq<Reply>)
    requires (forall i :: 0 <= i < |ops| ==> WellFormedOp(ops[i])) && OrderlyRun(map[], ops)
    ensures a == b == RefRun(map[], ops).replies
  {
    hide StandsFor, Run, RefRun, OrderlyRun, WellFormedOp;
    var sharded := new KVStore(true);
    RunAgrees(sharded.Contents(), map[], ops);
    a := Serve(sharded, ops);
    var flat := new KVStore(false);
    RunAgrees(flat.Contents(), map[], ops);
    b := Serve(flat, ops);
  }

  // ----- MSET and MGET

  datatype Answer = WrongArguments | CrossSlot | ClusterDown | Moved | Served(reply: Reply)

  /** What GetSlotOwner says about the slot of a key. */
  datatype Owner = Nobody | AnotherNode | ThisNode

  /** Every second argument, from `from` on. */
  function EveryOther(args: seq<Str>, from: nat): (r: seq<Str>)
    requires from < 2 && |args| % 2 == 0
    ensures |r| == |args| / 2
  {
    seq(|args| / 2, i requires 0 <= i < |args| / 2 => args[2 * i + from])
  }

  /**
   handleMSet: keys and values alternate. In cluster mode the store is reached only when all
   keys share a slot and this node owns it; `owner` gives the owner of a key's slot.
   */
  method HandleMSet(kv: KVStore, args: seq<Str>, owner: Str -> Owner) returns (r: Answer)
    requires kv.Valid()
    modifies kv, kv.slots
    ensures |args| == 0 || |args| % 2 != 0 <==> r == WrongArguments
    ensures r.Served? || kv.Contents() == old(kv.Contents())
    ensures |args| > 0 && |args| % 2 == 0 ==>
      var keys, values := EveryOther(args, 0), EveryOther(args, 1);
      if kv.clusterEnabled && !SameSlot(keys) then r == CrossSlot
      else if kv.clusterEnabled && owner(args[0]) == Nobody then r == ClusterDown
      else if kv.clusterEnabled && owner(args[0]) == AnotherNode then r == Moved
      else r == Served(Done) && Step(kv.Contents(), Done) == StepOp(old(kv.Contents()), Mset(keys, values))
  {
    hide SlotForKey, StepOp, kv.Contents;
    if |args| == 0 || |args| % 2 != 0 { return WrongArguments; }
    ghost var all := EveryOther(args, 0);
    if kv.clusterEnabled {
      var firstSlot := SlotForKey(args[0]);
      var validQuery := true;
      var i := 2;
      while i < |args| && validQuery
        invariant i % 2 == 0 && 2 <= i <= |args|
        invariant validQuery ==> forall j :: 0 <= j < i / 2 ==> SlotForKey(all[j]) == firstSlot
        invariant !validQuery ==> !SameSlot(all)
        decreases |args| - i, validQuery
      {
        if SlotForKey(args[i]) != firstSlot {
          assert all[i / 2] == args[i] && all[0] == args[0];
          validQuery := false;
        } else {
          i := i + 2;
        }
      }
      if !validQuery { return CrossSlot; }
      if owner(args[0]) == Nobody { return ClusterDown; }
      if owner(args[0]) == AnotherNode { return Moved; }
    }
    var keys: seq<Str>, values: seq<Str> := [], [];
    var i := 0;
    while i < |args|
      invariant i % 2 == 0 && i <= |args| && |keys| == |values| == i / 2
      invariant forall j :: 0 <= j < i / 2 ==> keys[j] == args[2 * j] && values[j] == args[2 * j + 1]
    {
      keys := keys + [args[i]];
      values := values + [args[i + 1]];
      i := i + 2;
    }
    assert keys == EveryOther(args, 0) && values == EveryOther(args, 1);
    kv.Mset(keys, values);
    return Served(Done);
  }

  /** handleMGet, with the same check. */
  method HandleMGet(kv: KVStore, args: seq<Str>, owner: Str -> Owner) returns (r: Answer)
    requires kv.Valid()
    ensures
      if |args| == 0 then r == WrongArguments
      else if kv.clusterEnabled && !SameSlot(args) then r == CrossSlot
      else if kv.clusterEnabled && owner(args[0]) == Nobody then r == ClusterDown
      else if kv.clusterEnabled && owner(args[0]) == AnotherNode then r == Moved
      else r.Served? && Step(kv.Contents(), r.reply) == StepOp(kv.Contents(), Mget(args))
  {
    hide SlotForKey, StepOp, kv.Contents;
    if |args| == 0 { return WrongArguments; }
    if kv.clusterEnabled {
      var firstSlot := SlotForKey(args[0]);
      for i := 1 to |args|
        invariant forall j :: 0 <= j < i ==> SlotForKey(args[j]) == firstSlot
      {
        if SlotForKey(args[i]) != firstSlot { return CrossSlot; }
      }
      if owner(args[0]) == Nobody { return ClusterDown; }
      if owner(args[0]) == AnotherNode { return Moved; }
    }
    var values := kv.Mget(args);
    return Served(Texts(values));
  }
}
