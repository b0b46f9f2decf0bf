/** The registry as the object the server holds. */
module PubSubHub {
  import opened Bytes
  import opened P = PubSub

  class Hub {
    var subscriptions: map<Str, seq<Chan>>
    var made: nat
    var closed: set<Chan>
    var pending: map<Chan, Str>
    var panicked: bool

    function Reg(): Registry
      reads this
    {
      Registry(subscriptions, made, closed, pending, panicked)
    }

    /** NewP. */
    constructor ()
      ensures Reg() == EMPTY && Inv(Reg(), [])
    {
      subscriptions, made, closed, pending, panicked := map[], 0, {}, map[], false;
    }

    method CloseChannel(c: Chan)
      modifies this`closed, this`panicked
      ensures Reg() == P.Close(old(Reg()), c)
    {
      if c in closed { panicked := true; } else { closed := closed + {c}; }
    }

    method Subscribe(name: Str) returns (c: Chan)
      modifies this`subscriptions, this`made
      ensures Reg() == P.Subscribe(old(Reg()), name) && c == old(made)
    {
      if name !in subscriptions { subscriptions := subscriptions[name := []]; }
      c := made;
      made := made + 1;
      subscriptions := subscriptions[name := subscriptions[name] + [c]];
    }

    method Unsubscribe(name: Str, subscriber: Chan)
      modifies this`subscriptions, this`closed, this`panicked
      ensures Reg() == P.Unsubscribe(old(Reg()), name, subscriber)
    {
      if name !in subscriptions { return; }
      var list := subscriptions[name];
      var i := 0;
      while i < |list| && list[i] != subscriber
        invariant i <= |list| && subscriber !in list[..i]
        invariant Without(list, subscriber, 0) == Without(list, subscriber, i)
      {
        i := i + 1;
      }
      if i < |list| {
        CloseChannel(subscriber);
        list := list[..i] + list[i + 1..];
        subscriptions := subscriptions[name := list];
      }
      if |list| == 0 { subscriptions := subscriptions - {name}; }
    }

    /** The lists are visited in no particular order; `order` is the one taken. */
    method UnsubscribeAll() returns (ghost order: seq<Str>)
      modifies this`subscriptions, this`closed, this`panicked
      ensures IsKeyOrder(order, old(Reg())) && Reg() == P.UnsubscribeAll(old(Reg()), order)
    {
      hide CloseAll;
      order := [];
      var rest := subscriptions.Keys;
      while rest != {}
        invariant rest <= subscriptions.Keys && subscriptions == old(subscriptions) && made == old(made) &&
          pending == old(pending)
        invariant forall i :: 0 <= i < |order| ==> order[i] in old(subscriptions) && order[i] !in rest
        invariant forall k :: k in subscriptions && k !in rest ==> k in order
        invariant forall i, j :: 0 <= i < j < |order| ==> order[i] != order[j]
        invariant Reg() == CloseLists(old(Reg()), order, |order|)
        decreases rest
      {
        var name :| name in rest;
        CloseSubscribers(subscriptions[name]);
        CloseListsSnoc(old(Reg()), order, name);
        ghost var before := order;
        order := order + [name];
        rest := rest - {name};
        assert forall k :: k in before ==> k in order;
      }
      subscriptions := map[];
    }

    method CloseSubscribers(list: seq<Chan>)
      modifies this`closed, this`panicked
      ensures Reg() == CloseAll(old(Reg()), list, |list|)
    {
      for i := 0 to |list|
        invariant Reg() == CloseAll(old(Reg()), list, i)
      {
        CloseChannel(list[i]);
      }
    }

    /** The count is the number of channels that took the message. */
    method Publish(name: Str, message: Str) returns (count: nat)
      modifies this`pending, this`panicked
      ensures Reg() == P.Publish(old(Reg()), name, message)
      ensures count == |pending| - |old(pending)|
    {
      count := 0;
      if name !in subscriptions { return; }
      var list := subscriptions[name];
      for i := 0 to |list|
        invariant Reg() == SendAll(old(Reg()), list, i, message)
        invariant count == |pending| - |old(pending)|
      {
        if list[i] in closed {
          panicked := true;
        } else if list[i] !in pending {
          pending := pending[list[i] := message];
          count := count + 1;
        }
      }
    }
  }
}
