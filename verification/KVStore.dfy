/** The key-value store: sharded in cluster mode, one map per type otherwise. */
module KVStore {
  import opened Bytes
  import opened Numbers
  import opened Slots
  import opened Z = SortedSets
  import opened StoreModel
  import TextOrder

  // ----- what a step of the model comes to, by what happens to the key

  lemma {:induction false} ShardKept(shards: seq<map<Str, Value>>, key: Str, a: Act, reply: Reply)
    requires |shards| == SLOTS && WellFormed(a)
    requires var v := Find(shards[SlotForKey(key)], key); ActOn(v, a) == Outcome(v, reply)
    ensures StepOne(Sharded(shards), key, a) == Step(Sharded(shards), reply)
  {
    hide ActOn, Find, Put, SlotForKey;
    var i := SlotForKey(key);
    PutFind(shards[i], key);
    assert shards[i := shards[i]] == shards;
  }

  lemma {:induction false} ShardWritten(shards: seq<map<Str, Value>>, key: Str, a: Act, x: Value, reply: Reply)
    requires |shards| == SLOTS && WellFormed(a)
    requires ActOn(Find(shards[SlotForKey(key)], key), a) == Outcome(Some(x), reply)
    ensures
      var i := SlotForKey(key);
      StepOne(Sharded(shards), key, a) == Step(Sharded(shards[i := shards[i][key := x]]), reply)
  {
    hide ActOn, Find, SlotForKey;
  }

  lemma {:induction false} ShardCleared(shards: seq<map<Str, Value>>, key: Str, a: Act, reply: Reply)
    requires |shards| == SLOTS && WellFormed(a)
    requires ActOn(Find(shards[SlotForKey(key)], key), a) == Outcome(None, reply)
    ensures
      var i := SlotForKey(key);
      StepOne(Sharded(shards), key, a) == Step(Sharded(shards[i := shards[i] - {key}]), reply)
  {
    hide ActOn, Find, SlotForKey;
  }

  lemma {:induction false} FlatKept(f: Flat, key: Str, a: Act, reply: Reply)
    requires WellFormed(a) && ActKind(a).Some?
    requires var v := FindIn(f, ActKind(a).value, key); ActOn(v, a) == Outcome(v, reply)
    ensures StepOne(Unsharded(f), key, a) == Step(Unsharded(f), reply)
  {
    hide ActOn, FindIn, PutIn;
    PutFindIn(f, ActKind(a).value, key);
  }

  lemma {:induction false} StrWritten(f: Flat, key: Str, a: Act, x: Str, reply: Reply)
    requires WellFormed(a) && ActKind(a) == Some(StrK)
    requires ActOn(FindIn(f, StrK, key), a) == Outcome(Some(StrV(x)), reply)
    ensures StepOne(Unsharded(f), key, a) == Step(Unsharded(f.(strings := f.strings[key := x])), reply)
  {
    hide ActOn, FindIn;
  }

  lemma {:induction false} ListWritten(f: Flat, key: Str, a: Act, x: seq<Str>, reply: Reply)
    requires WellFormed(a) && ActKind(a) == Some(ListK)
    requires ActOn(FindIn(f, ListK, key), a) == Outcome(Some(ListV(x)), reply)
    ensures StepOne(Unsharded(f), key, a) == Step(Unsharded(f.(lists := f.lists[key := x])), reply)
  {
    hide ActOn, FindIn;
  }

  lemma {:induction false} HashWritten(f: Flat, key: Str, a: Act, x: map<Str, Str>, reply: Reply)
    requires WellFormed(a) && ActKind(a) == Some(HashK)
    requires ActOn(FindIn(f, HashK, key), a) == Outcome(Some(HashV(x)), reply)
    ensures StepOne(Unsharded(f), key, a) == Step(Unsharded(f.(hashes := f.hashes[key := x])), reply)
  {
    hide ActOn, FindIn;
  }

  lemma {:induction false} SetWritten(f: Flat, key: Str, a: Act, x: set<Str>, reply: Reply)
    requires WellFormed(a) && ActKind(a) == Some(SetK)
    requires ActOn(FindIn(f, SetK, key), a) == Outcome(Some(SetV(x)), reply)
    ensures StepOne(Unsharded(f), key, a) == Step(Unsharded(f.(sets := f.sets[key := x])), reply)
  {
    hide ActOn, FindIn;
  }

  lemma {:induction false} ZSetWritten(f: Flat, key: Str, a: Act, x: seq<Member>, reply: Reply)
    requires WellFormed(a) && ActKind(a) == Some(ZSetK)
    requires ActOn(FindIn(f, ZSetK, key), a) == Outcome(Some(ZSetV(x)), reply)
    ensures StepOne(Unsharded(f), key, a) == Step(Unsharded(f.(sortedSets := f.sortedSets[key := x])), reply)
  {
    hide ActOn, FindIn;
  }

  lemma {:induction false} ListCleared(f: Flat, key: Str, a: Act, reply: Reply)
    requires WellFormed(a) && ActKind(a) == Some(ListK)
    requires ActOn(FindIn(f, ListK, key), a) == Outcome(None, reply)
    ensures StepOne(Unsharded(f), key, a) == Step(Unsharded(f.(lists := f.lists - {key})), reply)
  {
    hide ActOn, FindIn;
  }

  lemma {:induction false} HashCleared(f: Flat, key: Str, a: Act, reply: Reply)
    requires WellFormed(a) && ActKind(a) == Some(HashK)
    requires ActOn(FindIn(f, HashK, key), a) == Outcome(None, reply)
    ensures StepOne(Unsharded(f), key, a) == Step(Unsharded(f.(hashes := f.hashes - {key})), reply)
  {
    hide ActOn, FindIn;
  }

  lemma {:induction false} SetCleared(f: Flat, key: Str, a: Act, reply: Reply)
    requires WellFormed(a) && ActKind(a) == Some(SetK)
    requires ActOn(FindIn(f, SetK, key), a) == Outcome(None, reply)
    ensures StepOne(Unsharded(f), key, a) == Step(Unsharded(f.(sets := f.sets - {key})), reply)
  {
    hide ActOn, FindIn;
  }

  lemma {:induction false} ZSetCleared(f: Flat, key: Str, a: Act, reply: Reply)
    requires WellFormed(a) && ActKind(a) == Some(ZSetK)
    requires ActOn(FindIn(f, ZSetK, key), a) == Outcome(None, reply)
    ensures StepOne(Unsharded(f), key, a) == Step(Unsharded(f.(sortedSets := f.sortedSets - {key})), reply)
  {
    hide ActOn, FindIn;
  }

  lemma {:induction false} HDelOutcome(v: Option<Value>, fields: seq<Str>, rest: map<Str, Str>, n: int)
    requires v.Some? && v.value.HashV? && rest == v.value.h - Elements(fields) && n == |v.value.h| - |rest|
    ensures ActOn(v, HDel(fields)) == Outcome(HashOrNone(rest), Number(n))
  {
  }

  lemma {:induction false} HDelOfNothing(v: Option<Value>, fields: seq<Str>)
    requires v.None? || !v.value.HashV?
    ensures ActOn(v, HDel(fields)) == Outcome(v, Number(0))
  {
    hide Elements, Overlay, Lookup, ActOnStr, ActOnList, ActOnSet, ActOnZSet;
    var h := HashOf(v);
    assert h == map[];
    NothingToRemove(h, Elements(fields));
    assert ActOnHash(v, HDel(fields)).reply == Number(|h| - |h - Elements(fields)|);
  }

  lemma {:induction false} HMSetOutcome(v: Option<Value>, assign: map<Str, Str>)
    ensures ActOn(v, HMSet(assign)) ==
            if |assign| == 0 || (v.Some? && !v.value.HashV?) then Outcome(v, Done)
            else Outcome(Some(HashV(Overlay(HashOf(v), assign))), Done)
  {
  }

  lemma {:induction false} SAddOutcome(v: Option<Value>, members: seq<Str>, all: set<Str>, n: int)
    requires !Clash(v, SetK) && |members| > 0 && all == SetOf(v) + Elements(members) && n == |all| - |SetOf(v)|
    ensures ActOn(v, SAdd(members)) == Outcome(Some(SetV(all)), Number(n))
  {
  }

  lemma {:induction false} SAddOfNothing(v: Option<Value>, members: seq<Str>)
    requires Clash(v, SetK) || |members| == 0
    ensures ActOn(v, SAdd(members)) == Outcome(v, Number(0))
  {
  }

  lemma {:induction false} SRemOutcome(v: Option<Value>, members: seq<Str>, rest: set<Str>, n: int)
    requires v.Some? && v.value.SetV? && rest == v.value.m - Elements(members) && n == |v.value.m| - |rest|
    ensures ActOn(v, SRem(members)) == Outcome(SetOrNone(rest), Number(n))
  {
  }

  lemma {:induction false} SRemOfNothing(v: Option<Value>, members: seq<Str>)
    requires v.None? || !v.value.SetV?
    ensures ActOn(v, SRem(members)) == Outcome(v, Number(0))
  {
    hide Elements;
  }

  datatype ZAddReply = OddArguments | InvalidScore | Stored(reply: Reply)

  function ScoreOf(score: Option<real>): real {
    if score.Some? then score.value else 0.0
  }

  class KVStore {
    var Strings: map<Str, Str>
    var Lists: map<Str, seq<Str>>
    var Hashes: map<Str, map<Str, Str>>
    var Sets: map<Str, set<Str>>
    var SortedSets: map<Str, seq<Member>>
    const slots: array<map<Str, Value>>
    const clusterEnabled: bool

    ghost predicate Valid() {
      slots.Length == SLOTS
    }

    ghost function AsFlat(): Flat
      reads this
    {
      Flat(Strings, Lists, Hashes, Sets, SortedSets)
    }

    ghost function Contents(): (st: State)
      reads this, slots
      ensures Valid() ==> Sized(st)
    {
      if clusterEnabled then Sharded(slots[..]) else Unsharded(AsFlat())
    }

    /** NewKVStore: an empty store. */
    constructor (clusterEnabled: bool)
      ensures Valid() && fresh(slots) && this.clusterEnabled == clusterEnabled
      ensures StandsFor(Contents(), map[])
    {
      Strings, Lists, Hashes, Sets, SortedSets := map[], map[], map[], map[], map[];
      slots := new map<Str, Value>[SLOTS](_ => map[]);
      this.clusterEnabled := clusterEnabled;
    }

    method Set(key: Str, value: Str)
      requires Valid()
      modifies this`Strings, slots
      ensures Step(Contents(), Done) == StepOne(old(Contents()), key, Act.Set(value))
    {
      hide StepOne, SlotForKey, Put, PutIn, ActOnHash, ActOnList, ActOnSet, ActOnZSet;
      if clusterEnabled {
        var s := SlotForKey(key);
        slots[s] := slots[s][key := StrV(value)];
        ShardWritten(old(slots[..]), key, Act.Set(value), StrV(value), Done);
        return;
      }
      Strings := Strings[key := value];
      StrWritten(old(AsFlat()), key, Act.Set(value), value, Done);
    }

    method Get(key: Str) returns (value: Str)
      requires Valid()
      ensures Step(Contents(), Text(value)) == StepOne(Contents(), key, Act.Get)
    {
      hide StepOne, SlotForKey, Put, PutIn, ActOnHash, ActOnList, ActOnSet, ActOnZSet;
      if clusterEnabled {
        var v := Find(slots[SlotForKey(key)], key);
        value := if v.None? || !v.value.StrV? then NIL else v.value.s;
        ShardKept(slots[..], key, Act.Get, Text(value));
        return;
      }
      value := if key !in Strings then NIL else Strings[key];
      FlatKept(AsFlat(), key, Act.Get, Text(value));
    }

    method Append(key: Str, suffix: Str) returns (r: Reply)
      requires Valid()
      modifies this`Strings, slots
      ensures Step(Contents(), r) == StepOne(old(Contents()), key, Act.Append(suffix))
    {
      hide StepOne, SlotForKey, Put, PutIn, ActOnHash, ActOnList, ActOnSet, ActOnZSet;
      ghost var a := Act.Append(suffix);
      if clusterEnabled {
        var s := SlotForKey(key);
        var v := Find(slots[s], key);
        if v.Some? && !v.value.StrV? {
          ShardKept(slots[..], key, a, WrongType);
          return WrongType;
        }
        var next := StrV(if v.Some? then v.value.s + suffix else suffix);
        slots[s] := slots[s][key := next];
        ShardWritten(old(slots[..]), key, a, next, Done);
        return Done;
      }
      Strings := Strings[key := if key in Strings then Strings[key] + suffix else suffix];
      StrWritten(old(AsFlat()), key, a, Strings[key], Done);
      return Done;
    }

    /** changeInteger, behind INCR, INCRBY, DECR and DECRBY. */
    method ChangeInteger(key: Str, delta: int) returns (r: Reply)
      requires Valid()
      modifies this`Strings, slots
      ensures Step(Contents(), r) == StepOne(old(Contents()), key, Change(delta))
    {
      hide StepOne, SlotForKey, Put, PutIn, ActOnHash, ActOnList, ActOnSet, ActOnZSet, Atoi, Itoa, Wrap64;
      ghost var a := Change(delta);
      if clusterEnabled {
        var s := SlotForKey(key);
        var v := Find(slots[s], key);
        if v.Some? && !v.value.StrV? {
          ShardKept(slots[..], key, a, WrongType);
          return WrongType;
        }
        var next := ApplyDelta(if v.Some? then Some(v.value.s) else None, delta);
        if next.None? {
          ShardKept(slots[..], key, a, NotInteger);
          return NotInteger;
        }
        slots[s] := slots[s][key := StrV(next.value)];
        ShardWritten(old(slots[..]), key, a, StrV(next.value), Done);
        return Done;
      }
      var next := ApplyDelta(if key in Strings then Some(Strings[key]) else None, delta);
      if next.None? {
        FlatKept(AsFlat(), key, a, NotInteger);
        return NotInteger;
      }
      Strings := Strings[key := next.value];
      StrWritten(old(AsFlat()), key, a, next.value, Done);
      return Done;
    }

    method Incr(key: Str) returns (r: Reply)
      requires Valid()
      modifies this`Strings, slots
      ensures Step(Contents(), r) == StepOne(old(Contents()), key, Change(1))
    {
      r := ChangeInteger(key, 1);
    }

    /** An amount that is no integer is refused before the key is looked at. */
    method IncrBy(key: Str, increment: Str) returns (r: Option<Reply>)
      requires Valid()
      modifies this`Strings, slots
      ensures
        var delta := Atoi(increment);
        if delta.None? then r == None && Contents() == old(Contents())
        else r.Some? && Step(Contents(), r.value) == StepOne(old(Contents()), key, Change(delta.value))
    {
      hide Atoi, StepOne, Contents;
      var delta := Atoi(increment);
      if delta.None? { return None; }
      var reply := ChangeInteger(key, delta.value);
      return Some(reply);
    }

    method Decr(key: Str) returns (r: Reply)
      requires Valid()
      modifies this`Strings, slots
      ensures Step(Contents(), r) == StepOne(old(Contents()), key, Change(-1))
    {
      r := ChangeInteger(key, -1);
    }

    /** The amount is negated in 64-bit arithmetic. */
    method DecrBy(key: Str, decrement: Str) returns (r: Option<Reply>)
      requires Valid()
      modifies this`Strings, slots
      ensures
        var delta := Atoi(decrement);
        if delta.None? then r == None && Contents() == old(Contents())
        else r.Some? && Step(Contents(), r.value) == StepOne(old(Contents()), key, Change(Wrap64(-delta.value)))
    {
      hide Atoi, StepOne, Contents, Wrap64;
      var delta := Atoi(decrement);
      if delta.None? { return None; }
      var reply := ChangeInteger(key, Wrap64(-delta.value));
      return Some(reply);
    }

    method Delete(key: Str) returns (n: int)
      requires Valid()
      modifies this, slots
      ensures Step(Contents(), Number(n)) == StepOne(old(Contents()), key, Act.Delete)
    {
      hide SlotForKey;
      if clusterEnabled {
        hide StepOne;
        var s := SlotForKey(key);
        if key in slots[s] {
          slots[s] := slots[s] - {key};
          ShardCleared(old(slots[..]), key, Act.Delete, Number(1));
          return 1;
        }
        ShardKept(slots[..], key, Act.Delete, Number(0));
        return 0;
      }
      if key !in Strings && key !in Lists && key !in Hashes && key !in Sets && key !in SortedSets {
        assert RemoveAll(AsFlat(), key) == AsFlat();
        return 0;
      }
      Strings := Strings - {key};
      Lists := Lists - {key};
      Hashes := Hashes - {key};
      Sets := Sets - {key};
      SortedSets := SortedSets - {key};
      return 1;
    }

    method LPush(key: Str, values: seq<Str>) returns (n: int)
      requires Valid()
      modifies this`Lists, slots
      ensures Step(Contents(), Number(n)) == StepOne(old(Contents()), key, Act.LPush(values))
    {
      hide StepOne, SlotForKey, Put, PutIn, ActOnHash, ActOnSet, ActOnStr, ActOnZSet;
      ghost var a := Act.LPush(values);
      if clusterEnabled {
        var s := SlotForKey(key);
        var v := Find(slots[s], key);
        if v.Some? && !v.value.ListV? {
          ShardKept(slots[..], key, a, Number(0));
          return 0;
        }
        n := |ListOf(v)| + |values|;
        if |values| == 0 {
          ShardKept(slots[..], key, a, Number(n));
          return;
        }
        var next := ListV(values + ListOf(v));
        slots[s] := slots[s][key := next];
        ShardWritten(old(slots[..]), key, a, next, Number(n));
        return;
      }
      var list := if key in Lists then Lists[key] else [];
      n := |list| + |values|;
      if |values| == 0 {
        FlatKept(AsFlat(), key, a, Number(n));
        return;
      }
      Lists := Lists[key := values + list];
      ListWritten(old(AsFlat()), key, a, values + list, Number(n));
    }

    method RPush(key: Str, values: seq<Str>) returns (n: int)
      requires Valid()
      modifies this`Lists, slots
      ensures Step(Contents(), Number(n)) == StepOne(old(Contents()), key, Act.RPush(values))
    {
      hide StepOne, SlotForKey, Put, PutIn, ActOnHash, ActOnSet, ActOnStr, ActOnZSet;
      ghost var a := Act.RPush(values);
      if clusterEnabled {
        var s := SlotForKey(key);
        var v := Find(slots[s], key);
        if v.Some? && !v.value.ListV? {
          ShardKept(slots[..], key, a, Number(0));
          return 0;
        }
        n := |ListOf(v)| + |values|;
        if |values| == 0 {
          ShardKept(slots[..], key, a, Number(n));
          return;
        }
        var next := ListV(ListOf(v) + values);
        slots[s] := slots[s][key := next];
        ShardWritten(old(slots[..]), key, a, next, Number(n));
        return;
      }
      var list := if key in Lists then Lists[key] else [];
      n := |list| + |values|;
      if |values| == 0 {
        FlatKept(AsFlat(), key, a, Number(n));
        return;
      }
      Lists := Lists[key := list + values];
      ListWritten(old(AsFlat()), key, a, list + values, Number(n));
    }

    method LPop(key: Str) returns (item: Option<Str>)
      requires Valid()
      modifies this`Lists, slots
      ensures Step(Contents(), Popped(item)) == StepOne(old(Contents()), key, Act.LPop)
    {
      hide StepOne, SlotForKey, Put, PutIn, ActOnHash, ActOnSet, ActOnStr, ActOnZSet;
      ghost var a := Act.LPop;
      if clusterEnabled {
        var s := SlotForKey(key);
        var v := Find(slots[s], key);
        if v.None? || !v.value.ListV? || |v.value.l| == 0 {
          ShardKept(slots[..], key, a, Popped(None));
          return None;
        }
        var list := v.value.l;
        item := Some(list[0]);
        if |list| == 1 {
          slots[s] := slots[s] - {key};
          ShardCleared(old(slots[..]), key, a, Popped(item));
        } else {
          slots[s] := slots[s][key := ListV(list[1..])];
          ShardWritten(old(slots[..]), key, a, ListV(list[1..]), Popped(item));
        }
        return;
      }
      var list := if key in Lists then Lists[key] else [];
      if |list| == 0 {
        FlatKept(AsFlat(), key, a, Popped(None));
        return None;
      }
      item := Some(list[0]);
      if |list| == 1 {
        Lists := Lists - {key};
        ListCleared(old(AsFlat()), key, a, Popped(item));
      } else {
        Lists := Lists[key := list[1..]];
        ListWritten(old(AsFlat()), key, a, list[1..], Popped(item));
      }
    }

    method RPop(key: Str) returns (item: Option<Str>)
      requires Valid()
      modifies this`Lists, slots
      ensures Step(Contents(), Popped(item)) == StepOne(old(Contents()), key, Act.RPop)
    {
      hide StepOne, SlotForKey, Put, PutIn, ActOnHash, ActOnSet, ActOnStr, ActOnZSet;
      ghost var a := Act.RPop;
      if clusterEnabled {
        var s := SlotForKey(key);
        var v := Find(slots[s], key);
        if v.None? || !v.value.ListV? || |v.value.l| == 0 {
          ShardKept(slots[..], key, a, Popped(None));
          return None;
        }
        var list := v.value.l;
        item := Some(list[|list| - 1]);
        if |list| == 1 {
          slots[s] := slots[s] - {key};
          ShardCleared(old(slots[..]), key, a, Popped(item));
        } else {
          slots[s] := slots[s][key := ListV(list[..|list| - 1])];
          ShardWritten(old(slots[..]), key, a, ListV(list[..|list| - 1]), Popped(item));
        }
        return;
      }
      var list := if key in Lists then Lists[key] else [];
      if |list| == 0 {
        FlatKept(AsFlat(), key, a, Popped(None));
        return None;
      }
      item := Some(list[|list| - 1]);
      if |list| == 1 {
        Lists := Lists - {key};
        ListCleared(old(AsFlat()), key, a, Popped(item));
      } else {
        Lists := Lists[key := list[..|list| - 1]];
        ListWritten(old(AsFlat()), key, a, list[..|list| - 1], Popped(item));
      }
    }

    method LRange(key: Str, start: int, end: int) returns (r: seq<Str>)
      requires Valid()
      ensures Step(Contents(), Texts(r)) == StepOne(Contents(), key, Act.LRange(start, end))
    {
      hide StepOne, SlotForKey, Put, PutIn, ActOnHash, ActOnSet, ActOnStr, ActOnZSet, Ranked;
      if clusterEnabled {
        var v := Find(slots[SlotForKey(key)], key);
        var x := if v.Some? && v.value.ListV? then v.value.l else [];
        r := Lrange(x, start, end);
        ShardKept(slots[..], key, Act.LRange(start, end), Texts(r));
      } else {
        var x := if key in Lists then Lists[key] else [];
        r := Lrange(x, start, end);
        FlatKept(AsFlat(), key, Act.LRange(start, end), Texts(r));
      }
    }

    method LLen(key: Str) returns (n: int)
      requires Valid()
      ensures Step(Contents(), Number(n)) == StepOne(Contents(), key, Act.LLen)
    {
      hide StepOne, SlotForKey, Put, PutIn, ActOnHash, ActOnSet, ActOnStr, ActOnZSet;
      if clusterEnabled {
        var v := Find(slots[SlotForKey(key)], key);
        var x := if v.Some? && v.value.ListV? then v.value.l else [];
        n := |x|;
        ShardKept(slots[..], key, Act.LLen, Number(n));
      } else {
        var x := if key in Lists then Lists[key] else [];
        n := |x|;
        FlatKept(AsFlat(), key, Act.LLen, Number(n));
      }
    }

    method HMSet(key: Str, assign: map<Str, Str>)
      requires Valid()
      modifies this`Hashes, slots
      ensures Step(Contents(), Done) == StepOne(old(Contents()), key, Act.HMSet(assign))
    {
      hide StepOne, SlotForKey, Put, PutIn, ActOnList, ActOnSet, ActOnStr, ActOnZSet, ActOn, Overlay;
      ghost var a := Act.HMSet(assign);
      if clusterEnabled {
        var s := SlotForKey(key);
        var v := Find(slots[s], key);
        HMSetOutcome(v, assign);
        if |assign| == 0 || (v.Some? && !v.value.HashV?) {
          ShardKept(slots[..], key, a, Done);
          return;
        }
        var hash := MergeFields(HashOf(v), assign);
        slots[s] := slots[s][key := HashV(hash)];
        ShardWritten(old(slots[..]), key, a, HashV(hash), Done);
        return;
      }
      HMSetOutcome(FindIn(AsFlat(), HashK, key), assign);
      if |assign| == 0 {
        FlatKept(AsFlat(), key, a, Done);
        return;
      }
      var hash := MergeFields(if key in Hashes then Hashes[key] else map[], assign);
      Hashes := Hashes[key := hash];
      HashWritten(old(AsFlat()), key, a, hash, Done);
    }

    method HGet(key: Str, field: Str) returns (r: Option<Str>)
      requires Valid()
      ensures Step(Contents(), Popped(r)) == StepOne(Contents(), key, Act.HGet(field))
    {
      hide StepOne, SlotForKey, Put, PutIn, ActOnList, ActOnSet, ActOnStr, ActOnZSet;
      if clusterEnabled {
        var v := Find(slots[SlotForKey(key)], key);
        var x := if v.Some? && v.value.HashV? then v.value.h else map[];
        r := if field in x then Some(x[field]) else None;
        ShardKept(slots[..], key, Act.HGet(field), Popped(r));
      } else {
        var x := if key in Hashes then Hashes[key] else map[];
        r := if field in x then Some(x[field]) else None;
        FlatKept(AsFlat(), key, Act.HGet(field), Popped(r));
      }
    }

    method HMGet(key: Str, fields: seq<Str>) returns (r: seq<Option<Str>>)
      requires Valid()
      ensures Step(Contents(), Found(r)) == StepOne(Contents(), key, Act.HMGet(fields))
    {
      hide StepOne, SlotForKey, Put, PutIn, ActOnList, ActOnSet, ActOnStr, ActOnZSet, Lookup;
      if clusterEnabled {
        var v := Find(slots[SlotForKey(key)], key);
        var x := if v.Some? && v.value.HashV? then v.value.h else map[];
        r := LookupFields(x, fields);
        ShardKept(slots[..], key, Act.HMGet(fields), Found(r));
      } else {
        var x := if key in Hashes then Hashes[key] else map[];
        r := LookupFields(x, fields);
        FlatKept(AsFlat(), key, Act.HMGet(fields), Found(r));
      }
    }

    /** What HGetAll finds for the key. */
    method HashAt(key: Str) returns (hash: map<Str, Str>)
      requires Valid()
      ensures Step(Contents(), Fields(hash)) == StepOne(Contents(), key, Act.HGetAll)
    {
      hide StepOne, SlotForKey, Put, PutIn, ActOnList, ActOnSet, ActOnStr, ActOnZSet;
      if clusterEnabled {
        var v := Find(slots[SlotForKey(key)], key);
        hash := if v.Some? && v.value.HashV? then v.value.h else map[];
        ShardKept(slots[..], key, Act.HGetAll, Fields(hash));
      } else {
        hash := if key in Hashes then Hashes[key] else map[];
        FlatKept(AsFlat(), key, Act.HGetAll, Fields(hash));
      }
    }

    /** A flat list of the fields in ascending order, each followed by its value. */
    method HGetAll(key: Str) returns (r: seq<Str>)
      requires Valid()
      ensures |r| % 2 == 0 && TextOrder.Ascending(TextOrder.FieldsOf(r))
      ensures Step(Contents(), Fields(TextOrder.Pairs(r, |r| / 2))) == StepOne(Contents(), key, Act.HGetAll)
    {
      hide StepOne, Contents, TextOrder.Ascending, TextOrder.FieldsOf, TextOrder.Pairs;
      var hash := HashAt(key);
      r := TextOrder.ListFields(hash);
    }

    method HDel(key: Str, fields: seq<Str>) returns (n: int)
      requires Valid()
      modifies this`Hashes, slots
      ensures Step(Contents(), Number(n)) == StepOne(old(Contents()), key, Act.HDel(fields))
    {
      hide StepOne, SlotForKey, Put, PutIn, ActOnList, ActOnSet, ActOnStr, ActOnZSet, Elements, ActOn;
      ghost var a := Act.HDel(fields);
      if clusterEnabled {
        var s := SlotForKey(key);
        var v := Find(slots[s], key);
        if v.None? || !v.value.HashV? {
          HDelOfNothing(v, fields);
          ShardKept(slots[..], key, a, Number(0));
          return 0;
        }
        var hash;
        hash, n := RemoveFields(v.value.h, fields);
        HDelOutcome(v, fields, hash, n);
        if |hash| == 0 {
          slots[s] := slots[s] - {key};
          ShardCleared(old(slots[..]), key, a, Number(n));
        } else {
          slots[s] := slots[s][key := HashV(hash)];
          ShardWritten(old(slots[..]), key, a, HashV(hash), Number(n));
        }
        return;
      }
      if key !in Hashes {
        HDelOfNothing(None, fields);
        FlatKept(AsFlat(), key, a, Number(0));
        return 0;
      }
      var hash;
      hash, n := RemoveFields(Hashes[key], fields);
      HDelOutcome(Some(HashV(Hashes[key])), fields, hash, n);
      if |hash| == 0 {
        Hashes := Hashes - {key};
        HashCleared(old(AsFlat()), key, a, Number(n));
      } else {
        Hashes := Hashes[key := hash];
        HashWritten(old(AsFlat()), key, a, hash, Number(n));
      }
    }

    method SAdd(key: Str, members: seq<Str>) returns (n: int)
      requires Valid()
      modifies this`Sets, slots
      ensures Step(Contents(), Number(n)) == StepOne(old(Contents()), key, Act.SAdd(members))
    {
      hide StepOne, SlotForKey, Put, PutIn, ActOnHash, ActOnList, ActOnStr, ActOnZSet, Elements, ActOn;
      ghost var a := Act.SAdd(members);
      if clusterEnabled {
        var s := SlotForKey(key);
        var v := Find(slots[s], key);
        if (v.Some? && !v.value.SetV?) || |members| == 0 {
          SAddOfNothing(v, members);
          ShardKept(slots[..], key, a, Number(0));
          return 0;
        }
        var all;
        all, n := AddMembers(SetOf(v), members);
        SAddOutcome(v, members, all, n);
        slots[s] := slots[s][key := SetV(all)];
        ShardWritten(old(slots[..]), key, a, SetV(all), Number(n));
        return;
      }
      if |members| == 0 {
        SAddOfNothing(FindIn(AsFlat(), SetK, key), members);
        FlatKept(AsFlat(), key, a, Number(0));
        return 0;
      }
      var all;
      all, n := AddMembers(if key in Sets then Sets[key] else {}, members);
      SAddOutcome(FindIn(AsFlat(), SetK, key), members, all, n);
      Sets := Sets[key := all];
      SetWritten(old(AsFlat()), key, a, all, Number(n));
    }

    /** What SMembers finds for the key. */
    method SetAt(key: Str) returns (members: set<Str>)
      requires Valid()
      ensures Step(Contents(), Names(members)) == StepOne(Contents(), key, Act.SMembers)
    {
      hide StepOne, SlotForKey, Put, PutIn, ActOnHash, ActOnList, ActOnStr, ActOnZSet;
      if clusterEnabled {
        var v := Find(slots[SlotForKey(key)], key);
        members := if v.Some? && v.value.SetV? then v.value.m else {};
        ShardKept(slots[..], key, Act.SMembers, Names(members));
      } else {
        members := if key in Sets then Sets[key] else {};
        FlatKept(AsFlat(), key, Act.SMembers, Names(members));
      }
    }

    /** The members in ascending order. */
    method SMembers(key: Str) returns (r: seq<Str>)
      requires Valid()
      ensures TextOrder.Ascending(r) && Step(Contents(), Names(Elements(r))) == StepOne(Contents(), key, Act.SMembers)
    {
      hide StepOne, Contents, TextOrder.Ascending, Elements;
      var members := SetAt(key);
      r := TextOrder.ListMembers(members);
    }

    method SIsMember(key: Str, member: Str) returns (r: bool)
      requires Valid()
      ensures Step(Contents(), Flag(r)) == StepOne(Contents(), key, Act.SIsMember(member))
    {
      hide StepOne, SlotForKey, Put, PutIn, ActOnHash, ActOnList, ActOnStr, ActOnZSet;
      if clusterEnabled {
        var v := Find(slots[SlotForKey(key)], key);
        var x := if v.Some? && v.value.SetV? then v.value.m else {};
        r := member in x;
        ShardKept(slots[..], key, Act.SIsMember(member), Flag(r));
      } else {
        var x := if key in Sets then Sets[key] else {};
        r := member in x;
        FlatKept(AsFlat(), key, Act.SIsMember(member), Flag(r));
      }
    }

    method SRem(key: Str, members: seq<Str>) returns (n: int)
      requires Valid()
      modifies this`Sets, slots
      ensures Step(Contents(), Number(n)) == StepOne(old(Contents()), key, Act.SRem(members))
    {
      hide StepOne, SlotForKey, Put, PutIn, ActOnHash, ActOnList, ActOnStr, ActOnZSet, Elements, ActOn;
      ghost var a := Act.SRem(members);
      if clusterEnabled {
        var s := SlotForKey(key);
        var v := Find(slots[s], key);
        if v.None? || !v.value.SetV? {
          SRemOfNothing(v, members);
          ShardKept(slots[..], key, a, Number(0));
          return 0;
        }
        var rest;
        rest, n := RemoveMembers(v.value.m, members);
        SRemOutcome(v, members, rest, n);
        if |rest| == 0 {
          slots[s] := slots[s] - {key};
          ShardCleared(old(slots[..]), key, a, Number(n));
        } else {
          slots[s] := slots[s][key := SetV(rest)];
          ShardWritten(old(slots[..]), key, a, SetV(rest), Number(n));
        }
        return;
      }
      if key !in Sets {
        SRemOfNothing(None, members);
        FlatKept(AsFlat(), key, a, Number(0));
        return 0;
      }
      var rest;
      rest, n := RemoveMembers(Sets[key], members);
      SRemOutcome(Some(SetV(Sets[key])), members, rest, n);
      if |rest| == 0 {
        Sets := Sets - {key};
        SetCleared(old(AsFlat()), key, a, Number(n));
      } else {
        Sets := Sets[key := rest];
        SetWritten(old(AsFlat()), key, a, rest, Number(n));
      }
    }

    /** ZAdd: scores and members alternate; `parse` stands for strconv.ParseFloat on finite numbers. */
    method ZAdd(key: Str, pairs: seq<Str>, parse: Str -> Option<real>) returns (r: ZAddReply)
      requires Valid()
      modifies this`SortedSets, slots
      ensures !r.Stored? ==> Contents() == old(Contents())
      ensures
        if |pairs| % 2 != 0 then r == OddArguments
        else if exists i :: 0 <= i < |pairs| / 2 && parse(pairs[2 * i]).None? then r == InvalidScore
        else
          && r.Stored?
          && var members := seq(|pairs| / 2, i requires 0 <= i < |pairs| / 2 => pairs[2 * i + 1]);
             var scores := seq(|pairs| / 2, i requires 0 <= i < |pairs| / 2 => ScoreOf(parse(pairs[2 * i])));
             Step(Contents(), r.reply) == StepOne(old(Contents()), key, Act.ZAdd(members, scores))
    {
      hide StepOne, Contents;
      if |pairs| % 2 != 0 { return OddArguments; }
      var scores: seq<real>, members: seq<Str> := [], [];
      for i := 0 to |pairs| / 2
        invariant |scores| == |members| == i
        invariant forall j :: 0 <= j < i ==>
          members[j] == pairs[2 * j + 1] && parse(pairs[2 * j]).Some? && scores[j] == ScoreOf(parse(pairs[2 * j]))
      {
        var score := parse(pairs[2 * i]);
        if score.None? { return InvalidScore; }
        scores := scores + [score.value];
        members := members + [pairs[2 * i + 1]];
      }
      assert members == seq(|pairs| / 2, i requires 0 <= i < |pairs| / 2 => pairs[2 * i + 1]);
      assert scores == seq(|pairs| / 2, i requires 0 <= i < |pairs| / 2 => ScoreOf(parse(pairs[2 * i])));
      var reply := StoreScores(key, members, scores);
      r := Stored(reply);
    }

    /** The rest of ZAdd, once the scores are parsed. */
    method StoreScores(key: Str, members: seq<Str>, scores: seq<real>) returns (r: Reply)
      requires Valid() && |members| == |scores|
      modifies this`SortedSets, slots
      ensures Step(Contents(), r) == StepOne(old(Contents()), key, Act.ZAdd(members, scores))
    {
      hide StepOne, SlotForKey, Put, PutIn, ActOnHash, ActOnList, ActOnSet, ActOnStr, Zadded;
      ghost var a := Act.ZAdd(members, scores);
      if clusterEnabled {
        var s := SlotForKey(key);
        var v := Find(slots[s], key);
        if v.Some? && !v.value.ZSetV? {
          ShardKept(slots[..], key, a, WrongType);
          return WrongType;
        }
        var next, added := Zadd(ZSetOf(v), members, scores);
        slots[s] := slots[s][key := ZSetV(next)];
        ShardWritten(old(slots[..]), key, a, ZSetV(next), Number(added));
        return Number(added);
      }
      var next, added := Zadd(if key in SortedSets then SortedSets[key] else [], members, scores);
      SortedSets := SortedSets[key := next];
      ZSetWritten(old(AsFlat()), key, a, next, Number(added));
      return Number(added);
    }

    method ZRange(key: Str, start: int, end: int) returns (r: seq<Str>)
      requires Valid()
      ensures Step(Contents(), Texts(r)) == StepOne(Contents(), key, Act.ZRange(start, end))
    {
      hide StepOne, SlotForKey, Put, PutIn, ActOnHash, ActOnList, ActOnSet, ActOnStr, Ranked, Z.Names;
      if clusterEnabled {
        var v := Find(slots[SlotForKey(key)], key);
        var x := if v.Some? && v.value.ZSetV? then v.value.z else [];
        r := Zrange(x, start, end);
        ShardKept(slots[..], key, Act.ZRange(start, end), Texts(r));
      } else {
        var x := if key in SortedSets then SortedSets[key] else [];
        r := Zrange(x, start, end);
        FlatKept(AsFlat(), key, Act.ZRange(start, end), Texts(r));
      }
    }

    method ZRem(key: Str, members: seq<Str>) returns (n: int)
      requires Valid()
      modifies this`SortedSets, slots
      ensures Step(Contents(), Number(n)) == StepOne(old(Contents()), key, Act.ZRem(members))
    {
      hide StepOne, SlotForKey, Put, PutIn, ActOnHash, ActOnList, ActOnSet, ActOnStr, Elements, Without;
      ghost var a := Act.ZRem(members);
      if clusterEnabled {
        var s := SlotForKey(key);
        var v := Find(slots[s], key);
        if v.None? || !v.value.ZSetV? {
          ShardKept(slots[..], key, a, Number(0));
          return 0;
        }
        var kept;
        kept, n := RemoveRanked(v.value.z, members);
        if n == 0 {
          ShardKept(slots[..], key, a, Number(0));
          return;
        }
        if |kept| == 0 {
          slots[s] := slots[s] - {key};
          ShardCleared(old(slots[..]), key, a, Number(n));
        } else {
          slots[s] := slots[s][key := ZSetV(kept)];
          ShardWritten(old(slots[..]), key, a, ZSetV(kept), Number(n));
        }
        return;
      }
      var kept;
      kept, n := RemoveRanked(if key in SortedSets then SortedSets[key] else [], members);
      if n == 0 {
        FlatKept(AsFlat(), key, a, Number(0));
        return;
      }
      if |kept| == 0 {
        SortedSets := SortedSets - {key};
        ZSetCleared(old(AsFlat()), key, a, Number(n));
      } else {
        SortedSets := SortedSets[key := kept];
        ZSetWritten(old(AsFlat()), key, a, kept, Number(n));
      }
    }

    /** Mset: in cluster mode every key goes into the shard of the first one. */
    method Mset(keys: seq<Str>, values: seq<Str>)
      requires Valid() && |keys| == |values|
      modifies this`Strings, slots
      ensures Step(Contents(), Done) == StepOp(old(Contents()), Op.Mset(keys, values))
    {
      hide SlotForKey;
      if |keys| == 0 { return; }
      if clusterEnabled {
        var s := SlotForKey(keys[0]);
        ghost var shard := slots[s];
        for i := 0 to |keys|
          invariant slots[..] == old(slots[..])[s := WriteAll(shard, keys, values, i)]
        {
          slots[s] := slots[s][keys[i] := StrV(values[i])];
        }
        return;
      }
      for i := 0 to |keys|
        invariant Strings == WriteStrings(old(Strings), keys, values, i)
      {
        Strings := Strings[keys[i] := values[i]];
      }
    }

    /** Mget: in cluster mode every key is looked up in the shard of the first one. */
    method Mget(keys: seq<Str>) returns (r: seq<Str>)
      requires Valid()
      ensures Step(Contents(), Texts(r)) == StepOp(Contents(), Op.Mget(keys))
    {
      hide SlotForKey;
      r := [];
      if |keys| == 0 { return; }
      if clusterEnabled {
        var s := SlotForKey(keys[0]);
        for i := 0 to |keys|
          invariant |r| == i && forall j :: 0 <= j < i ==> r[j] == TextOf(Find(slots[s], keys[j]))
        {
          r := r + [if keys[i] in slots[s] && slots[s][keys[i]].StrV? then slots[s][keys[i]].s else NIL];
        }
        assert r == GetAll(slots[s], keys);
        return;
      }
      for i := 0 to |keys|
        invariant |r| == i && forall j :: 0 <= j < i ==> r[j] == if keys[j] in Strings then Strings[keys[j]] else NIL
      {
        r := r + [if keys[i] in Strings then Strings[keys[i]] else NIL];
      }
      assert r == GetStrings(Strings, keys);
    }

    method FlushAll()
      requires Valid()
      modifies this, slots
      ensures Step(Contents(), Done) == StepOp(old(Contents()), Op.FlushAll)
    {
      if clusterEnabled {
        for i := 0 to slots.Length
          modifies slots
          invariant forall j :: 0 <= j < i ==> slots[j] == map[]
        {
          slots[i] := map[];
        }
        assert slots[..] == seq(SLOTS, _ => map[]);
        return;
      }
      Strings, Lists, Hashes, Sets, SortedSets := map[], map[], map[], map[], map[];
    }

    /** GetKeysInSlot: up to `count` different keys of the shard, and all of them if it has no more. */
    method GetKeysInSlot(slot: nat, count: int) returns (keys: seq<Str>)
      requires Valid()
      ensures slot >= SLOTS || count <= 0 ==> keys == []
      ensures slot < SLOTS && count > 0 ==>
        && |keys| == (if count < |slots[slot]| then count else |slots[slot]|)
        && Elements(keys) <= slots[slot].Keys && |Elements(keys)| == |keys|
    {
      keys := [];
      if slot >= SLOTS || count <= 0 { return; }
      var rest := slots[slot].Keys;
      while rest != {} && |keys| < count
        invariant |keys| <= count && rest <= slots[slot].Keys && Elements(keys) == slots[slot].Keys - rest
        invariant |keys| == |Elements(keys)| && |keys| + |rest| == |slots[slot]|
        decreases |rest|
      {
        var k :| k in rest;
        ghost var seen := Elements(keys);
        keys := keys + [k];
        rest := rest - {k};
        assert Elements(keys) == seen + {k};
      }
    }
  }

  // ----- the loops over fields and members

  /** applyDelta: a missing key counts as zero. */
  method ApplyDelta(current: Option<Str>, delta: int) returns (r: Option<Str>)
    ensures match (if current.Some? then Atoi(current.value) else Some(0))
            case None => r == None
            case Some(n) => r == Some(Itoa(Wrap64(n + delta)))
  {
    var n := 0;
    if current.Some? {
      var parsed := Atoi(current.value);
      if parsed.None? { return None; }
      n := parsed.value;
    }
    return Some(Itoa(Wrap64(n + delta)));
  }

  /** The fields are visited in no particular order. */
  method MergeFields(h: map<Str, Str>, assign: map<Str, Str>) returns (r: map<Str, Str>)
    ensures r == Overlay(h, assign)
  {
    r := h;
    var rest := assign.Keys;
    while rest != {}
      invariant rest <= assign.Keys
      invariant forall k :: k in r <==> k in h || (k in assign && k !in rest)
      invariant forall k :: k in r ==> r[k] == if k in assign && k !in rest then assign[k] else h[k]
      decreases rest
    {
      var f :| f in rest;
      r := r[f := assign[f]];
      rest := rest - {f};
    }
  }

  method LookupFields(h: map<Str, Str>, fields: seq<Str>) returns (r: seq<Option<Str>>)
    ensures r == Lookup(h, fields)
  {
    r := [];
    for i := 0 to |fields|
      invariant |r| == i && forall j :: 0 <= j < i ==> r[j] == Lookup(h, fields)[j]
    {
      r := r + [if fields[i] in h then Some(h[fields[i]]) else None];
    }
  }

  lemma {:induction false} ElementsUpTo(s: seq<Str>, i: nat)
    requires i < |s|
    ensures Elements(s[..i + 1]) == Elements(s[..i]) + {s[i]}
  {
    assert s[..i + 1] == s[..i] + [s[i]];
  }

  /** delete(hash, field). */
  function Drop(h: map<Str, Str>, f: Str): map<Str, Str> {
    h - {f}
  }

  function Size(h: map<Str, Str>): nat {
    |h|
  }

  /** The first `n` fields deleted one after the other. */
  function Deleted(h: map<Str, Str>, fields: seq<Str>, n: nat): map<Str, Str>
    requires n <= |fields|
  {
    if n == 0 then h else Drop(Deleted(h, fields, n - 1), fields[n - 1])
  }

  lemma {:induction false} DeletedIsDifference(h: map<Str, Str>, fields: seq<Str>, n: nat)
    requires n <= |fields|
    ensures Deleted(h, fields, n) == h - Elements(fields[..n])
  {
    hide Elements;
    if n == 0 {
      ElementsOfNothing<Str>();
      assert fields[..0] == [];
    } else {
      DeletedIsDifference(h, fields, n - 1);
      ElementsUpTo(fields, n - 1);
      assert h - Elements(fields[..n - 1]) - {fields[n - 1]} == h - Elements(fields[..n]);
    }
  }

  lemma {:induction false} AllDeleted(h: map<Str, Str>, fields: seq<Str>)
    ensures Deleted(h, fields, |fields|) == h - Elements(fields)
  {
    hide Elements;
    DeletedIsDifference(h, fields, |fields|);
    assert fields[..|fields|] == fields;
  }

  lemma {:induction false} DeleteOne(h: map<Str, Str>, f: Str)
    ensures if f in h then Size(Drop(h, f)) == Size(h) - 1 else Drop(h, f) == h
  {
    if f in h { assert h.Keys == (h - {f}).Keys + {f}; }
  }

  method RemoveFields(h: map<Str, Str>, fields: seq<Str>) returns (r: map<Str, Str>, removed: int)
    ensures r == h - Elements(fields) && removed == |h| - |r|
  {
    r, removed := DeleteFields(h, fields);
    AllDeleted(h, fields);
  }

  method DeleteFields(h: map<Str, Str>, fields: seq<Str>) returns (r: map<Str, Str>, removed: int)
    ensures r == Deleted(h, fields, |fields|) && removed == Size(h) - Size(r)
  {
    hide Size, Drop;
    r, removed := h, 0;
    for i := 0 to |fields|
      invariant r == Deleted(h, fields, i) && removed == Size(h) - Size(r)
    {
      DeleteOne(r, fields[i]);
      if fields[i] in r {
        r := Drop(r, fields[i]);
        removed := removed + 1;
      }
    }
  }

  method AddMembers(m: set<Str>, members: seq<Str>) returns (r: set<Str>, added: int)
    ensures r == m + Elements(members) && added == |r| - |m|
  {
    r, added := m, 0;
    for i := 0 to |members|
      invariant r == m + Elements(members[..i]) && added == |r| - |m|
    {
      ElementsUpTo(members, i);
      if members[i] !in r {
        r := r + {members[i]};
        added := added + 1;
      }
    }
    assert members[..|members|] == members;
  }

  method RemoveMembers(m: set<Str>, members: seq<Str>) returns (r: set<Str>, removed: int)
    ensures r == m - Elements(members) && removed == |m| - |r|
  {
    r, removed := m, 0;
    for i := 0 to |members|
      invariant r == m - Elements(members[..i]) && removed == |m| - |r|
    {
      ElementsUpTo(members, i);
      if members[i] in r {
        r := r - {members[i]};
        removed := removed + 1;
      }
    }
    assert members[..|members|] == members;
  }

  method RemoveRanked(z: seq<Member>, members: seq<Str>) returns (kept: seq<Member>, removed: int)
    ensures kept == Without(z, Elements(members)) && removed == |z| - |kept|
  {
    kept, removed := Zrem(z, members);
  }
}
