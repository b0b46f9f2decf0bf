/**
 What the store's operations mean: on one key of a single map of tagged values (the
 reference), on 16384 shards of such values, and on one map per type; and when the three
 cannot be told apart.
 */
module StoreModel {
  import opened Bytes
  import opened Numbers
  import opened Slots
  import opened SortedSets

  datatype Value =
    | StrV(s: Str)
    | ListV(l: seq<Str>)
    | HashV(h: map<Str, Str>)
    | SetV(m: set<Str>)
    | ZSetV(z: seq<Member>)

  datatype Kind = StrK | ListK | HashK | SetK | ZSetK

  function KindOf(v: Value): Kind {
    match v
    case StrV(_) => StrK
    case ListV(_) => ListK
    case HashV(_) => HashK
    case SetV(_) => SetK
    case ZSetV(_) => ZSetK
  }

  /** The operations on a single key. */
  datatype Act =
    | Set(value: Str) | Get | Append(suffix: Str) | Change(delta: int) | Delete
    | LPush(values: seq<Str>) | RPush(values: seq<Str>) | LPop | RPop | LRange(start: int, end: int) | LLen
    | HMSet(assign: map<Str, Str>) | HGet(field: Str) | HMGet(fields: seq<Str>) | HGetAll | HDel(fields: seq<Str>)
    | SAdd(members: seq<Str>) | SMembers | SIsMember(member: Str) | SRem(members: seq<Str>)
    | ZAdd(members: seq<Str>, scores: seq<real>) | ZRange(start: int, end: int) | ZRem(members: seq<Str>)

  /** The type an operation works on; Delete works on all. */
  function ActKind(a: Act): Option<Kind> {
    match a
    case Delete => None
    case Set(_) => Some(StrK) case Get => Some(StrK) case Append(_) => Some(StrK) case Change(_) => Some(StrK)
    case LPush(_) => Some(ListK) case RPush(_) => Some(ListK) case LPop => Some(ListK) case RPop => Some(ListK)
    case LRange(_, _) => Some(ListK) case LLen => Some(ListK)
    case HMSet(_) => Some(HashK) case HGet(_) => Some(HashK) case HMGet(_) => Some(HashK)
    case HGetAll => Some(HashK) case HDel(_) => Some(HashK)
    case SAdd(_) => Some(SetK) case SMembers => Some(SetK) case SIsMember(_) => Some(SetK) case SRem(_) => Some(SetK)
    case ZAdd(_, _) => Some(ZSetK) case ZRange(_, _) => Some(ZSetK) case ZRem(_) => Some(ZSetK)
  }

  /** The operations that may bring a key into being. */
  predicate Creates(a: Act) {
    a.Set? || a.Append? || a.Change? || a.LPush? || a.RPush? || a.HMSet? || a.SAdd? || a.ZAdd?
  }

  datatype Reply =
    | Done | WrongType | NotInteger
    | Text(text: Str) | Number(n: int) | Popped(item: Option<Str>) | Flag(b: bool)
    | Texts(list: seq<Str>) | Found(items: seq<Option<Str>>) | Fields(h: map<Str, Str>) | Names(m: set<Str>)

  const NIL: Str := [40, 110, 105, 108, 41]  // "(nil)"

  // ----- one key

  predicate Clash(v: Option<Value>, k: Kind) {
    v.Some? && KindOf(v.value) != k
  }

  function ListOf(v: Option<Value>): seq<Str> {
    if v.Some? && v.value.ListV? then v.value.l else []
  }

  function HashOf(v: Option<Value>): map<Str, Str> {
    if v.Some? && v.value.HashV? then v.value.h else map[]
  }

  function SetOf(v: Option<Value>): set<Str> {
    if v.Some? && v.value.SetV? then v.value.m else {}
  }

  function ZSetOf(v: Option<Value>): seq<Member> {
    if v.Some? && v.value.ZSetV? then v.value.z else []
  }

  /** Collections that become empty are not stored. */
  function ListOrNone(l: seq<Str>): Option<Value> {
    if |l| == 0 then None else Some(ListV(l))
  }

  function HashOrNone(h: map<Str, Str>): Option<Value> {
    if |h| == 0 then None else Some(HashV(h))
  }

  function SetOrNone(m: set<Str>): Option<Value> {
    if |m| == 0 then None else Some(SetV(m))
  }

  function ZSetOrNone(z: seq<Member>): Option<Value> {
    if |z| == 0 then None else Some(ZSetV(z))
  }

  /** Go's int: two's complement, 64 bits. */
  function Wrap64(n: int): int {
    (n - MinInt64) % TwoTo64 + MinInt64
  }

  function Lookup(h: map<Str, Str>, fields: seq<Str>): (r: seq<Option<Str>>)
    ensures |r| == |fields|
  {
    seq(|fields|, i requires 0 <= i < |fields| => if fields[i] in h then Some(h[fields[i]]) else None)
  }

  /** The fields of `assign` over those of `h`. */
  function Overlay(h: map<Str, Str>, assign: map<Str, Str>): map<Str, Str> {
    h + assign
  }

  datatype Outcome = Outcome(v: Option<Value>, reply: Reply)

  /** The reference: what an operation does to the value of its key, and its reply. */
  function ActOn(v: Option<Value>, a: Act): Outcome
    requires a.ZAdd? ==> |a.members| == |a.scores|
  {
    match ActKind(a)
    case None => Outcome(None, Number(if v.Some? then 1 else 0))
    case Some(StrK) => ActOnStr(v, a)
    case Some(ListK) => ActOnList(v, a)
    case Some(HashK) => ActOnHash(v, a)
    case Some(SetK) => ActOnSet(v, a)
    case Some(ZSetK) => ActOnZSet(v, a)
  }

  function ActOnStr(v: Option<Value>, a: Act): Outcome
    requires ActKind(a) == Some(StrK)
  {
    match a
    case Set(value) => Outcome(Some(StrV(value)), Done)
    case Get => Outcome(v, Text(if v.Some? && v.value.StrV? then v.value.s else NIL))
    case Append(suffix) =>
      if Clash(v, StrK) then Outcome(v, WrongType)
      else Outcome(Some(StrV(if v.Some? then v.value.s + suffix else suffix)), Done)
    case Change(delta) =>
      if Clash(v, StrK) then Outcome(v, WrongType)
      else match (if v.Some? then Atoi(v.value.s) else Some(0))
        case None => Outcome(v, NotInteger)
        case Some(n) => Outcome(Some(StrV(Itoa(Wrap64(n + delta)))), Done)
  }

  function ActOnList(v: Option<Value>, a: Act): Outcome
    requires ActKind(a) == Some(ListK)
  {
    var l := ListOf(v);
    match a
    case LPush(values) =>
      if Clash(v, ListK) then Outcome(v, Number(0))
      else if |values| == 0 then Outcome(v, Number(|l|))
      else Outcome(Some(ListV(values + l)), Number(|l| + |values|))
    case RPush(values) =>
      if Clash(v, ListK) then Outcome(v, Number(0))
      else if |values| == 0 then Outcome(v, Number(|l|))
      else Outcome(Some(ListV(l + values)), Number(|l| + |values|))
    case LPop => if |l| == 0 then Outcome(v, Popped(None)) else Outcome(ListOrNone(l[1..]), Popped(Some(l[0])))
    case RPop =>
      if |l| == 0 then Outcome(v, Popped(None))
      else Outcome(ListOrNone(l[..|l| - 1]), Popped(Some(l[|l| - 1])))
    case LRange(start, end) => Outcome(v, Texts(Ranked(l, start, end, |l|)))
    case LLen => Outcome(v, Number(|l|))
  }

  function ActOnHash(v: Option<Value>, a: Act): Outcome
    requires ActKind(a) == Some(HashK)
  {
    var h := HashOf(v);
    match a
    case HMSet(assign) =>
      if Clash(v, HashK) || |assign| == 0 then Outcome(v, Done) else Outcome(Some(HashV(Overlay(h, assign))), Done)
    case HGet(field) => Outcome(v, Popped(if field in h then Some(h[field]) else None))
    case HMGet(fields) => Outcome(v, Found(Lookup(h, fields)))
    case HGetAll => Outcome(v, Fields(h))
    case HDel(fields) =>
      var rest := h - Elements(fields);
      Outcome(if v.None? || Clash(v, HashK) then v else HashOrNone(rest), Number(|h| - |rest|))
  }

  function ActOnSet(v: Option<Value>, a: Act): Outcome
    requires ActKind(a) == Some(SetK)
  {
    var m := SetOf(v);
    match a
    case SAdd(members) =>
      if Clash(v, SetK) || |members| == 0 then Outcome(v, Number(0))
      else
        var all := m + Elements(members);
        Outcome(Some(SetV(all)), Number(|all| - |m|))
    case SMembers => Outcome(v, Names(m))
    case SIsMember(member) => Outcome(v, Flag(member in m))
    case SRem(members) =>
      var rest := m - Elements(members);
      Outcome(if v.None? || Clash(v, SetK) then v else SetOrNone(rest), Number(|m| - |rest|))
  }

  function ActOnZSet(v: Option<Value>, a: Act): Outcome
    requires ActKind(a) == Some(ZSetK) && (a.ZAdd? ==> |a.members| == |a.scores|)
  {
    var z := ZSetOf(v);
    match a
    case ZAdd(members, scores) =>
      if Clash(v, ZSetK) then Outcome(v, WrongType)
      else
        var next := Zadded(z, members, scores);
        Outcome(Some(ZSetV(next)), Number(|next| - |z|))
    case ZRange(start, end) => Outcome(v, Texts(SortedSets.Names(Ranked(z, start, end, |z|))))
    case ZRem(members) =>
      var kept := Without(z, Elements(members));
      Outcome(if |kept| == |z| then v else ZSetOrNone(kept), Number(|z| - |kept|))
  }

  predicate WellFormed(a: Act) {
    a.ZAdd? ==> |a.members| == |a.scores|
  }

  /** What the command handlers see to: ZADD has at least one pair. */
  predicate Guarded(a: Act) {
    a.ZAdd? ==> |a.members| == |a.scores| > 0
  }

  // ----- whole stores

  function Find(m: map<Str, Value>, k: Str): Option<Value> {
    if k in m then Some(m[k]) else None
  }

  function Put(m: map<Str, Value>, k: Str, v: Option<Value>): map<Str, Value> {
    match v
    case None => m - {k}
    case Some(x) => m[k := x]
  }

  lemma {:induction false} FindPut(m: map<Str, Value>, k: Str, v: Option<Value>, j: Str)
    ensures Find(Put(m, k, v), j) == if j == k then v else Find(m, j)
  {
  }

  lemma {:induction false} PutFind(m: map<Str, Value>, k: Str)
    ensures Put(m, k, Find(m, k)) == m
  {
  }

  /** The five maps of a store without shards. */
  datatype Flat = Flat(
    strings: map<Str, Str>,
    lists: map<Str, seq<Str>>,
    hashes: map<Str, map<Str, Str>>,
    sets: map<Str, set<Str>>,
    sortedSets: map<Str, seq<Member>>)

  /** What one of the five maps holds for a key. */
  function FindIn(f: Flat, kind: Kind, k: Str): Option<Value> {
    match kind
    case StrK => if k in f.strings then Some(StrV(f.strings[k])) else None
    case ListK => if k in f.lists then Some(ListV(f.lists[k])) else None
    case HashK => if k in f.hashes then Some(HashV(f.hashes[k])) else None
    case SetK => if k in f.sets then Some(SetV(f.sets[k])) else None
    case ZSetK => if k in f.sortedSets then Some(ZSetV(f.sortedSets[k])) else None
  }

  function PutIn(f: Flat, kind: Kind, k: Str, v: Option<Value>): Flat
    requires v.Some? ==> KindOf(v.value) == kind
  {
    match kind
    case StrK => f.(strings := if v.None? then f.strings - {k} else f.strings[k := v.value.s])
    case ListK => f.(lists := if v.None? then f.lists - {k} else f.lists[k := v.value.l])
    case HashK => f.(hashes := if v.None? then f.hashes - {k} else f.hashes[k := v.value.h])
    case SetK => f.(sets := if v.None? then f.sets - {k} else f.sets[k := v.value.m])
    case ZSetK => f.(sortedSets := if v.None? then f.sortedSets - {k} else f.sortedSets[k := v.value.z])
  }

  function RemoveAll(f: Flat, k: Str): Flat {
    Flat(f.strings - {k}, f.lists - {k}, f.hashes - {k}, f.sets - {k}, f.sortedSets - {k})
  }

  predicate InAny(f: Flat, k: Str) {
    k in f.strings || k in f.lists || k in f.hashes || k in f.sets || k in f.sortedSets
  }

  const EMPTY_FLAT: Flat := Flat(map[], map[], map[], map[], map[])

  lemma {:induction false} FindPutIn(f: Flat, kind: Kind, k: Str, v: Option<Value>, kind': Kind, j: Str)
    requires v.Some? ==> KindOf(v.value) == kind
    ensures FindIn(PutIn(f, kind, k, v), kind', j) == if j == k && kind' == kind then v else FindIn(f, kind', j)
  {
  }

  lemma {:induction false} PutFindIn(f: Flat, kind: Kind, k: Str)
    ensures PutIn(f, kind, k, FindIn(f, kind, k)) == f
  {
    match kind
    case StrK => if k !in f.strings { assert f.strings - {k} == f.strings; }
    case ListK => if k !in f.lists { assert f.lists - {k} == f.lists; }
    case HashK => if k !in f.hashes { assert f.hashes - {k} == f.hashes; }
    case SetK => if k !in f.sets { assert f.sets - {k} == f.sets; }
    case ZSetK => if k !in f.sortedSets { assert f.sortedSets - {k} == f.sortedSets; }
  }

  /** A store's contents: shards in cluster mode, five maps otherwise. */
  datatype State = Sharded(shards: seq<map<Str, Value>>) | Unsharded(flat: Flat)

  predicate Sized(st: State) {
    st.Sharded? ==> |st.shards| == SLOTS
  }

  datatype Step = Step(state: State, reply: Reply)

  lemma {:induction false} StrKindKept(v: Option<Value>, a: Act)
    requires ActKind(a) == Some(StrK) && !Clash(v, StrK)
    ensures !Clash(ActOnStr(v, a).v, StrK)
  {
    hide Atoi, Itoa, Wrap64;
  }

  lemma {:induction false} ListKindKept(v: Option<Value>, a: Act)
    requires ActKind(a) == Some(ListK) && !Clash(v, ListK)
    ensures !Clash(ActOnList(v, a).v, ListK)
  {
    hide Ranked;
  }

  lemma {:induction false} HashKindKept(v: Option<Value>, a: Act)
    requires ActKind(a) == Some(HashK) && !Clash(v, HashK)
    ensures !Clash(ActOnHash(v, a).v, HashK)
  {
    hide Lookup, Elements;
  }

  lemma {:induction false} SetKindKept(v: Option<Value>, a: Act)
    requires ActKind(a) == Some(SetK) && !Clash(v, SetK)
    ensures !Clash(ActOnSet(v, a).v, SetK)
  {
    hide Elements;
  }

  lemma {:induction false} ZSetKindKept(v: Option<Value>, a: Act)
    requires ActKind(a) == Some(ZSetK) && !Clash(v, ZSetK) && WellFormed(a)
    ensures !Clash(ActOnZSet(v, a).v, ZSetK)
  {
    hide Ranked, Zadded, Without, Elements, SortedSets.Names;
  }

  /** An operation of one type never changes a value into one of another type. */
  lemma {:induction false} KindKept(v: Option<Value>, a: Act)
    requires WellFormed(a) && ActKind(a).Some? && !Clash(v, ActKind(a).value)
    ensures !Clash(ActOn(v, a).v, ActKind(a).value)
  {
    hide ActKind, ActOnStr, ActOnList, ActOnHash, ActOnSet, ActOnZSet, Clash;
    match ActKind(a).value
    case StrK => StrKindKept(v, a);
    case ListK => ListKindKept(v, a);
    case HashK => HashKindKept(v, a);
    case SetK => SetKindKept(v, a);
    case ZSetK => ZSetKindKept(v, a);
  }

  /** Each type has a map of its own and acts on that alone; Delete acts on all five. */
  function ActFlat(f: Flat, k: Str, a: Act): (r: (Flat, Reply))
    requires WellFormed(a)
  {
    match ActKind(a)
    case None => (RemoveAll(f, k), Number(if InAny(f, k) then 1 else 0))
    case Some(kind) =>
      var o := ActOn(FindIn(f, kind, k), a);
      KindKept(FindIn(f, kind, k), a);
      (PutIn(f, kind, k, o.v), o.reply)
  }

  function ActShard(shards: seq<map<Str, Value>>, k: Str, a: Act): (r: (seq<map<Str, Value>>, Reply))
    requires |shards| == SLOTS && WellFormed(a)
  {
    var i := SlotForKey(k);
    var o := ActOn(Find(shards[i], k), a);
    (shards[i := Put(shards[i], k, o.v)], o.reply)
  }

  function StepOne(st: State, k: Str, a: Act): (r: Step)
    requires Sized(st) && WellFormed(a)
    ensures Sized(r.state)
  {
    match st
    case Sharded(shards) => var r := ActShard(shards, k, a); Step(Sharded(r.0), r.1)
    case Unsharded(f) => var r := ActFlat(f, k, a); Step(Unsharded(r.0), r.1)
  }

  /** Operations that leave the value as it is. */
  predicate Reads(a: Act) {
    a.Get? || a.LRange? || a.LLen? || a.HGet? || a.HMGet? || a.HGetAll? || a.SMembers? || a.SIsMember? || a.ZRange?
  }

  lemma {:induction false} ListReads(v: Option<Value>, a: Act)
    requires a.LRange? || a.LLen?
    ensures ActOnList(v, a).v == v
  {
    hide Ranked;
  }

  lemma {:induction false} HashReads(v: Option<Value>, a: Act)
    requires a.HGet? || a.HMGet? || a.HGetAll?
    ensures ActOnHash(v, a).v == v
  {
    hide Lookup;
  }

  lemma {:induction false} SetReads(v: Option<Value>, a: Act)
    requires a.SMembers? || a.SIsMember?
    ensures ActOnSet(v, a).v == v
  {
  }

  lemma {:induction false} ZSetReads(v: Option<Value>, a: Act)
    requires a.ZRange?
    ensures ActOnZSet(v, a).v == v
  {
    hide Ranked, SortedSets.Names;
  }

  lemma {:induction false} ReadsKeepValue(v: Option<Value>, a: Act)
    requires Reads(a)
    ensures ActOn(v, a).v == v
  {
    hide ActOnList, ActOnHash, ActOnSet, ActOnZSet;
    match ActKind(a)
    case Some(ListK) => ListReads(v, a);
    case Some(HashK) => HashReads(v, a);
    case Some(SetK) => SetReads(v, a);
    case Some(ZSetK) => ZSetReads(v, a);
    case _ =>
  }

  /** Reading changes nothing, in either layout. */
  lemma {:induction false} ReadsKeepState(st: State, k: Str, a: Act)
    requires Sized(st) && Reads(a)
    ensures StepOne(st, k, a).state == st
  {
    hide ActOn, Put, Find, PutIn, FindIn;
    match st
    case Sharded(shards) =>
      var i := SlotForKey(k);
      ReadsKeepValue(Find(shards[i], k), a);
      PutFind(shards[i], k);
      assert shards[i := shards[i]] == shards;
    case Unsharded(f) =>
      ReadsKeepValue(FindIn(f, ActKind(a).value, k), a);
      PutFindIn(f, ActKind(a).value, k);
  }

  // ----- operations on several keys

  datatype Op = One(key: Str, act: Act) | Mset(keys: seq<Str>, values: seq<Str>) | Mget(keys: seq<Str>) | FlushAll

  predicate WellFormedOp(op: Op) {
    (op.One? ==> WellFormed(op.act)) && (op.Mset? ==> |op.keys| == |op.values|)
  }

  /** The first `n` keys set to their values, one after the other. */
  function WriteAll(m: map<Str, Value>, keys: seq<Str>, values: seq<Str>, n: nat): map<Str, Value>
    requires n <= |keys| == |values|
  {
    if n == 0 then m else WriteAll(m, keys, values, n - 1)[keys[n - 1] := StrV(values[n - 1])]
  }

  function WriteStrings(m: map<Str, Str>, keys: seq<Str>, values: seq<Str>, n: nat): map<Str, Str>
    requires n <= |keys| == |values|
  {
    if n == 0 then m else WriteStrings(m, keys, values, n - 1)[keys[n - 1] := values[n - 1]]
  }

  function TextOf(v: Option<Value>): Str {
    if v.Some? && v.value.StrV? then v.value.s else NIL
  }

  function GetAll(m: map<Str, Value>, keys: seq<Str>): (r: seq<Str>)
    ensures |r| == |keys|
  {
    seq(|keys|, i requires 0 <= i < |keys| => TextOf(Find(m, keys[i])))
  }

  function GetStrings(m: map<Str, Str>, keys: seq<Str>): (r: seq<Str>)
    ensures |r| == |keys|
  {
    seq(|keys|, i requires 0 <= i < |keys| => if keys[i] in m then m[keys[i]] else NIL)
  }

  /** Mset and Mget use the shard of the first key for all of them. */
  function StepOp(st: State, op: Op): (r: Step)
    requires Sized(st) && WellFormedOp(op)
    ensures Sized(r.state)
  {
    match op
    case One(k, a) => StepOne(st, k, a)
    case FlushAll =>
      Step(if st.Sharded? then Sharded(seq(SLOTS, _ => map[])) else Unsharded(EMPTY_FLAT), Done)
    case Mget(keys) =>
      Step(st, Texts(
        if |keys| == 0 then []
        else if st.Sharded? then GetAll(st.shards[SlotForKey(keys[0])], keys)
        else GetStrings(st.flat.strings, keys)))
    case Mset(keys, values) =>
      if |keys| == 0 then Step(st, Done)
      else match st
        case Sharded(shards) =>
          var i := SlotForKey(keys[0]);
          Step(Sharded(shards[i := WriteAll(shards[i], keys, values, |keys|)]), Done)
        case Unsharded(f) =>
          Step(Unsharded(f.(strings := WriteStrings(f.strings, keys, values, |keys|))), Done)
  }

  /** The reference: a single map of tagged values. */
  function RefOp(m: map<Str, Value>, op: Op): (map<Str, Value>, Reply)
    requires WellFormedOp(op)
  {
    match op
    case One(k, a) => var o := ActOn(Find(m, k), a); (Put(m, k, o.v), o.reply)
    case FlushAll => (map[], Done)
    case Mget(keys) => (m, Texts(GetAll(m, keys)))
    case Mset(keys, values) => (WriteAll(m, keys, values, |keys|), Done)
  }

  // ----- when a layout stands for a map

  ghost predicate Homed(shards: seq<map<Str, Value>>) {
    forall i, k :: 0 <= i < |shards| && k in shards[i] ==> SlotForKey(k) == i
  }

  /** Every key lives in the shard it hashes to, and holds there what the map holds. */
  ghost predicate ShardsAgree(shards: seq<map<Str, Value>>, m: map<Str, Value>) {
    && |shards| == SLOTS && Homed(shards)
    && forall k :: Find(shards[SlotForKey(k)], k) == Find(m, k)
  }

  function OfKind(v: Option<Value>, kind: Kind): Option<Value> {
    if Clash(v, kind) then None else v
  }

  /** Every key is in the map of its type and in no other. */
  ghost predicate FlatAgrees(f: Flat, m: map<Str, Value>) {
    forall kind, k :: FindIn(f, kind, k) == OfKind(Find(m, k), kind)
  }

  ghost predicate StandsFor(st: State, m: map<Str, Value>) {
    && Sized(st)
    && match st
       case Sharded(shards) => ShardsAgree(shards, m)
       case Unsharded(f) => FlatAgrees(f, m)
  }

  predicate SameSlot(keys: seq<Str>) {
    forall i :: 0 <= i < |keys| ==> SlotForKey(keys[i]) == SlotForKey(keys[0])
  }

  predicate WellTyped(v: Option<Value>, a: Act) {
    Creates(a) ==> !Clash(v, ActKind(a).value)
  }

  /** No write to a key of another type, and several keys only in one slot. */
  predicate Orderly(m: map<Str, Value>, op: Op) {
    && WellFormedOp(op)
    && match op
       case One(k, a) => WellTyped(Find(m, k), a)
       case Mset(keys, _) => SameSlot(keys) && forall i :: 0 <= i < |keys| ==> !Clash(Find(m, keys[i]), StrK)
       case Mget(keys) => SameSlot(keys)
       case FlushAll => true
  }

  lemma {:induction false} StrClashInvisible(v: Option<Value>, a: Act)
    requires !Creates(a) && ActKind(a) == Some(StrK) && Clash(v, StrK)
    ensures ActOnStr(v, a).v == v && ActOnStr(None, a) == Outcome(None, ActOnStr(v, a).reply)
  {
    hide Atoi, Itoa, Wrap64;
  }

  lemma {:induction false} ListClashInvisible(v: Option<Value>, a: Act)
    requires !Creates(a) && ActKind(a) == Some(ListK) && Clash(v, ListK)
    ensures ActOnList(v, a).v == v && ActOnList(None, a) == Outcome(None, ActOnList(v, a).reply)
  {
    hide Ranked;
  }

  lemma {:induction false} HashClashInvisible(v: Option<Value>, a: Act)
    requires !Creates(a) && ActKind(a) == Some(HashK) && Clash(v, HashK)
    ensures ActOnHash(v, a).v == v && ActOnHash(None, a) == Outcome(None, ActOnHash(v, a).reply)
  {
    hide Lookup, Elements, Overlay;
    assert HashOf(v) == HashOf(None);
    if a.HDel? { NothingToRemove(HashOf(v), Elements(a.fields)); }
  }

  lemma {:induction false} SetClashInvisible(v: Option<Value>, a: Act)
    requires !Creates(a) && ActKind(a) == Some(SetK) && Clash(v, SetK)
    ensures ActOnSet(v, a).v == v && ActOnSet(None, a) == Outcome(None, ActOnSet(v, a).reply)
  {
    hide Elements;
  }

  lemma {:induction false} ZSetClashInvisible(v: Option<Value>, a: Act)
    requires !Creates(a) && ActKind(a) == Some(ZSetK) && Clash(v, ZSetK)
    ensures ActOnZSet(v, a).v == v && ActOnZSet(None, a) == Outcome(None, ActOnZSet(v, a).reply)
  {
    hide Ranked, Zadded, Without, Elements, SortedSets.Names;
  }

  lemma {:induction false} NothingToRemove(h: map<Str, Str>, gone: set<Str>)
    requires h == map[]
    ensures h - gone == h
  {
  }

  /** To an operation that creates nothing, a value of another type looks like no value. */
  lemma {:induction false} ClashIsInvisible(v: Option<Value>, a: Act)
    requires !Creates(a) && ActKind(a).Some? && Clash(v, ActKind(a).value)
    ensures ActOn(v, a).v == v && ActOn(None, a) == Outcome(None, ActOn(v, a).reply)
  {
    hide ActKind, ActOnStr, ActOnList, ActOnHash, ActOnSet, ActOnZSet, Clash;
    match ActKind(a).value
    case StrK => StrClashInvisible(v, a);
    case ListK => ListClashInvisible(v, a);
    case HashK => HashClashInvisible(v, a);
    case SetK => SetClashInvisible(v, a);
    case ZSetK => ZSetClashInvisible(v, a);
  }

  lemma {:induction false} OneOnFlat(f: Flat, m: map<Str, Value>, k: Str, a: Act)
    requires FlatAgrees(f, m) && WellFormed(a) && WellTyped(Find(m, k), a) && ActKind(a).Some?
    ensures
      var r := ActFlat(f, k, a);
      r.1 == ActOn(Find(m, k), a).reply && FlatAgrees(r.0, Put(m, k, ActOn(Find(m, k), a).v))
  {
    hide ActOn, Put, PutIn, FindIn, Find, Creates;
    var kind := ActKind(a).value;
    var v := Find(m, k);
    assert FindIn(f, kind, k) == OfKind(v, kind);
    var o, p := ActOn(v, a), ActOn(OfKind(v, kind), a);
    if Clash(v, kind) { ClashIsInvisible(v, a); }
    KindKept(OfKind(v, kind), a);
    var f', m' := PutIn(f, kind, k, p.v), Put(m, k, o.v);
    forall kind', j ensures FindIn(f', kind', j) == OfKind(Find(m', j), kind') {
      FindPutIn(f, kind, k, p.v, kind', j);
      FindPut(m, k, o.v, j);
      assert FindIn(f, kind', j) == OfKind(Find(m, j), kind');
    }
  }

  lemma {:induction false} FindRemoveAll(f: Flat, k: Str, kind: Kind, j: Str)
    ensures FindIn(RemoveAll(f, k), kind, j) == if j == k then None else FindIn(f, kind, j)
  {
  }

  lemma {:induction false} InAnyIff(f: Flat, k: Str)
    ensures InAny(f, k) <==> exists kind :: FindIn(f, kind, k).Some?
  {
    assert k in f.strings <==> FindIn(f, StrK, k).Some?;
    assert k in f.lists <==> FindIn(f, ListK, k).Some?;
    assert k in f.hashes <==> FindIn(f, HashK, k).Some?;
    assert k in f.sets <==> FindIn(f, SetK, k).Some?;
    assert k in f.sortedSets <==> FindIn(f, ZSetK, k).Some?;
  }

  lemma {:induction false} DeleteOnFlat(f: Flat, m: map<Str, Value>, k: Str)
    requires FlatAgrees(f, m)
    ensures InAny(f, k) <==> k in m
    ensures FlatAgrees(RemoveAll(f, k), Put(m, k, None))
  {
    hide FindIn, RemoveAll, InAny, Put;
    InAnyIff(f, k);
    if k in m { assert FindIn(f, KindOf(m[k]), k) == OfKind(Find(m, k), KindOf(m[k])); }
    forall kind, j ensures FindIn(RemoveAll(f, k), kind, j) == OfKind(Find(Put(m, k, None), j), kind) {
      FindRemoveAll(f, k, kind, j);
      FindPut(m, k, None, j);
      assert FindIn(f, kind, j) == OfKind(Find(m, j), kind);
    }
  }

  lemma {:induction false} OneOnShards(shards: seq<map<Str, Value>>, m: map<Str, Value>, k: Str, a: Act)
    requires ShardsAgree(shards, m) && WellFormed(a)
    ensures
      var r := ActShard(shards, k, a);
      r.1 == ActOn(Find(m, k), a).reply && ShardsAgree(r.0, Put(m, k, ActOn(Find(m, k), a).v))
  {
    hide ActOn, SlotForKey;
    var i := SlotForKey(k);
    assert Find(shards[i], k) == Find(m, k);
    var v := ActOn(Find(m, k), a).v;
    var shards', m' := shards[i := Put(shards[i], k, v)], Put(m, k, v);
    forall j ensures Find(shards'[SlotForKey(j)], j) == Find(m', j) {
      FindPut(shards[i], k, v, j);
      FindPut(m, k, v, j);
      assert Find(shards[SlotForKey(j)], j) == Find(m, j);
    }
  }
}
