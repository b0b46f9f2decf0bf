/**
 The publish/subscribe registry. A subscription is a Go channel of capacity one; closing a
 closed channel or sending to one panics. A call that changes the registry holds its lock
 alone; publishing shares the lock with other publishing.
 */
module PubSub {
  import opened Bytes

  /** Channels are numbered in the order they are made. */
  type Chan = nat

  /** The registry and the state of all channels made so far. */
  datatype Registry = Registry(
    subs: map<Str, seq<Chan>>,
    made: nat,
    closed: set<Chan>,
    pending: map<Chan, Str>,
    panicked: bool)

  const EMPTY: Registry := Registry(map[], 0, {}, map[], false)

  // ----- Go's channels

  function Close(r: Registry, c: Chan): Registry {
    if c in r.closed then r.(panicked := true) else r.(closed := r.closed + {c})
  }

  function CloseAll(r: Registry, cs: seq<Chan>, n: nat): Registry
    requires n <= |cs|
  {
    if n == 0 then r else Close(CloseAll(r, cs, n - 1), cs[n - 1])
  }

  /** A send that does not block: it succeeds when the channel's buffer is empty. */
  function Send(r: Registry, c: Chan, message: Str): Registry {
    if c in r.closed then r.(panicked := true)
    else if c in r.pending then r
    else r.(pending := r.pending[c := message])
  }

  function SendAll(r: Registry, cs: seq<Chan>, n: nat, message: Str): Registry
    requires n <= |cs|
  {
    if n == 0 then r else Send(SendAll(r, cs, n - 1, message), cs[n - 1], message)
  }

  // ----- the calls

  function Subscribe(r: Registry, name: Str): Registry {
    r.(subs := r.subs[name := (if name in r.subs then r.subs[name] else []) + [r.made]], made := r.made + 1)
  }

  /** The list without its first `c`. */
  function Without(s: seq<Chan>, c: Chan, i: nat): seq<Chan>
    requires i <= |s|
    decreases |s| - i
  {
    if i == |s| then s else if s[i] == c then s[..i] + s[i + 1..] else Without(s, c, i + 1)
  }

  function Store(r: Registry, name: Str, list: seq<Chan>): Registry {
    r.(subs := if |list| == 0 then r.subs - {name} else r.subs[name := list])
  }

  function Unsubscribe(r: Registry, name: Str, c: Chan): Registry {
    if name !in r.subs then r
    else
      var list := r.subs[name];
      if c in list then Store(Close(r, c), name, Without(list, c, 0)) else Store(r, name, list)
  }

  function Publish(r: Registry, name: Str, message: Str): Registry {
    if name in r.subs then SendAll(r, r.subs[name], |r.subs[name]|, message) else r
  }

  function Receive(r: Registry, c: Chan): Registry {
    r.(pending := r.pending - {c})
  }

  // ----- what holds between calls

  predicate NoDup(s: seq<Chan>) {
    forall i, j :: 0 <= i < j < |s| ==> s[i] != s[j]
  }

  /** `home` says under which name a channel was subscribed. */
  predicate ListOk(r: Registry, home: seq<Str>, name: Str, list: seq<Chan>)
    requires |home| == r.made
  {
    |list| > 0 && NoDup(list) && forall i :: 0 <= i < |list| ==> OpenAt(r, home, name, list[i])
  }

  predicate OpenAt(r: Registry, home: seq<Str>, name: Str, c: Chan)
    requires |home| == r.made
  {
    c < r.made && c !in r.closed && home[c] == name
  }

  predicate ListedAt(r: Registry, name: Str, c: Chan) {
    name in r.subs && c in r.subs[name]
  }

  /**
   Every channel is closed, or listed exactly once, under its own name; no empty list is
   stored; nothing has panicked.
   */
  ghost predicate Inv(r: Registry, home: seq<Str>) {
    && |home| == r.made && !r.panicked
    && (forall name :: name in r.subs ==> ListOk(r, home, name, r.subs[name]))
    && (forall c: Chan :: c < r.made && c !in r.closed ==> ListedAt(r, home[c], c))
    && (forall c :: c in r.closed ==> c < r.made)
  }

  lemma {:induction false} WithoutFirst(s: seq<Chan>, c: Chan, i: nat)
    requires i <= |s| && NoDup(s) && c in s && forall k :: 0 <= k < i ==> s[k] != c
    ensures
      var r := Without(s, c, i);
      NoDup(r) && c !in r && (forall x :: x in r <==> x in s && x != c)
    decreases |s| - i
  {
    if s[i] == c {
      var r := s[..i] + s[i + 1..];
      forall x ensures x in r <==> x in s && x != c {
        if x in s && x != c {
          var k :| 0 <= k < |s| && s[k] == x;
          assert r[if k < i then k else k - 1] == x;
        }
      }
    } else {
      WithoutFirst(s, c, i + 1);
    }
  }

  lemma {:induction false} SubscribeKeeps(r: Registry, home: seq<Str>, name: Str)
    requires Inv(r, home)
    ensures Inv(Subscribe(r, name), home + [name])
    ensures
      var r' := Subscribe(r, name);
      && r'.made == r.made + 1 && r'.closed == r.closed && r'.pending == r.pending
      && (forall n, c :: ListedAt(r', n, c) <==> ListedAt(r, n, c) || (n == name && c == r.made))
      && !exists n :: ListedAt(r, n, r.made)
  {
    var r', home' := Subscribe(r, name), home + [name];
    forall n | n in r'.subs ensures ListOk(r', home', n, r'.subs[n]) {
      if n in r.subs {
        assert ListOk(r, home, n, r.subs[n]);
        forall i | 0 <= i < |r.subs[n]| ensures OpenAt(r', home', n, r.subs[n][i]) {
          assert OpenAt(r, home, n, r.subs[n][i]);
        }
      }
    }
    forall c: Chan | c < r'.made && c !in r'.closed ensures ListedAt(r', home'[c], c) {
      if c < r.made { assert ListedAt(r, home[c], c); }
    }
  }

  lemma {:induction false} UnsubscribeKeeps(r: Registry, home: seq<Str>, name: Str, c: Chan)
    requires Inv(r, home)
    ensures Inv(Unsubscribe(r, name, c), home)
    ensures Unsubscribe(r, name, c).closed == if ListedAt(r, name, c) then r.closed + {c} else r.closed
    ensures Unsubscribe(r, name, c).made == r.made
  {
    var r' := Unsubscribe(r, name, c);
    if name in r.subs {
      var list := r.subs[name];
      assert ListOk(r, home, name, list);
      if c in list {
        var i :| 0 <= i < |list| && list[i] == c;
        assert OpenAt(r, home, name, list[i]);
        WithoutFirst(list, c, 0);
        OneCloses(r, home, name, c);
      } else {
        assert r'.subs == r.subs;
      }
    }
  }

  lemma {:induction false} OneCloses(r: Registry, home: seq<Str>, name: Str, c: Chan)
    requires Inv(r, home) && ListedAt(r, name, c) && OpenAt(r, home, name, c)
    requires
      var l := Without(r.subs[name], c, 0);
      NoDup(l) && c !in l && forall x :: x in l <==> x in r.subs[name] && x != c
    ensures Inv(Unsubscribe(r, name, c), home)
  {
    hide Without, NoDup;
    var r' := Unsubscribe(r, name, c);
    var l := Without(r.subs[name], c, 0);
    forall n | n in r'.subs ensures ListOk(r', home, n, r'.subs[n]) {
      assert ListOk(r, home, n, r.subs[n]);
      forall i | 0 <= i < |r'.subs[n]| ensures OpenAt(r', home, n, r'.subs[n][i]) {
        var x := r'.subs[n][i];
        assert x in r'.subs[n] && x in r.subs[n];
        var k :| 0 <= k < |r.subs[n]| && r.subs[n][k] == x;
        assert OpenAt(r, home, n, r.subs[n][k]);
      }
    }
    forall x: Chan | x < r'.made && x !in r'.closed ensures ListedAt(r', home[x], x) {
      assert ListedAt(r, home[x], x);
      if home[x] == name { assert x in l; }
    }
  }

  /** UnsubscribeAll: the lists are closed in some order of their names, then forgotten. */
  function CloseLists(r: Registry, order: seq<Str>, k: nat): (r': Registry)
    requires k <= |order| && forall i :: 0 <= i < |order| ==> order[i] in r.subs
    ensures r'.subs == r.subs && r'.made == r.made
  {
    if k == 0 then r
    else
      var list := r.subs[order[k - 1]];
      CloseAllFrame(CloseLists(r, order, k - 1), list, |list|);
      CloseAll(CloseLists(r, order, k - 1), list, |list|)
  }

  lemma {:induction false} CloseAllFrame(r: Registry, cs: seq<Chan>, n: nat)
    requires n <= |cs|
    ensures CloseAll(r, cs, n).subs == r.subs && CloseAll(r, cs, n).made == r.made
  {
    if n > 0 { CloseAllFrame(r, cs, n - 1); }
  }

  function UnsubscribeAll(r: Registry, order: seq<Str>): Registry
    requires forall i :: 0 <= i < |order| ==> order[i] in r.subs
  {
    CloseLists(r, order, |order|).(subs := map[])
  }

  /** The order in which a map is gone through: every key once. */
  predicate IsKeyOrder(order: seq<Str>, r: Registry) {
    && (forall i :: 0 <= i < |order| ==> order[i] in r.subs)
    && (forall i, j :: 0 <= i < j < |order| ==> order[i] != order[j])
    && (forall name :: name in r.subs ==> name in order)
  }

  lemma {:induction false} CloseAllOpen(r: Registry, cs: seq<Chan>, n: nat)
    requires n <= |cs| && NoDup(cs) && !r.panicked && forall i :: 0 <= i < |cs| ==> cs[i] !in r.closed
    ensures
      var r' := CloseAll(r, cs, n);
      !r'.panicked && forall c :: c in r'.closed <==> c in r.closed || c in cs[..n]
  {
    if n > 0 {
      CloseAllOpen(r, cs, n - 1);
      assert cs[..n] == cs[..n - 1] + [cs[n - 1]];
    }
  }

  /** The channels of the first `k` names. */
  predicate InLists(r: Registry, order: seq<Str>, k: nat, c: Chan)
    requires k <= |order|
  {
    exists i :: 0 <= i < k && ListedAt(r, order[i], c)
  }

  lemma {:induction false} CloseListsOpen(r: Registry, home: seq<Str>, order: seq<Str>, k: nat)
    requires Inv(r, home) && IsKeyOrder(order, r) && k <= |order|
    ensures
      var r' := CloseLists(r, order, k);
      !r'.panicked && forall c :: c in r'.closed <==> c in r.closed || InLists(r, order, k, c)
  {
    hide NoDup;
    if k > 0 {
      CloseListsOpen(r, home, order, k - 1);
      var before, list := CloseLists(r, order, k - 1), r.subs[order[k - 1]];
      assert ListOk(r, home, order[k - 1], list);
      forall i | 0 <= i < |list| ensures list[i] !in before.closed {
        assert OpenAt(r, home, order[k - 1], list[i]);
        NotElsewhere(r, home, order, k - 1, list[i]);
      }
      CloseAllOpen(before, list, |list|);
      assert list[..|list|] == list;
      forall c ensures InLists(r, order, k, c) <==> InLists(r, order, k - 1, c) || c in list {
        MoreLists(r, order, k, c);
      }
    }
  }

  lemma {:induction false} MoreLists(r: Registry, order: seq<Str>, k: nat, c: Chan)
    requires 0 < k <= |order| && order[k - 1] in r.subs
    ensures InLists(r, order, k, c) <==> InLists(r, order, k - 1, c) || c in r.subs[order[k - 1]]
  {
    if c in r.subs[order[k - 1]] { assert ListedAt(r, order[k - 1], c); }
  }

  lemma {:induction false} NotElsewhere(r: Registry, home: seq<Str>, order: seq<Str>, k: nat, c: Chan)
    requires Inv(r, home) && IsKeyOrder(order, r) && k < |order| && OpenAt(r, home, order[k], c)
    ensures !InLists(r, order, k, c)
  {
    hide NoDup;
    forall i | 0 <= i < k ensures !ListedAt(r, order[i], c) {
      assert ListOk(r, home, order[i], r.subs[order[i]]);
      forall j | 0 <= j < |r.subs[order[i]]| ensures r.subs[order[i]][j] != c {
        assert OpenAt(r, home, order[i], r.subs[order[i]][j]);
      }
    }
  }

  lemma {:induction false} UnsubscribeAllKeeps(r: Registry, home: seq<Str>, order: seq<Str>)
    requires Inv(r, home) && IsKeyOrder(order, r)
    ensures Inv(UnsubscribeAll(r, order), home)
    ensures forall c: Chan :: c < r.made ==> c in UnsubscribeAll(r, order).closed
    ensures UnsubscribeAll(r, order).made == r.made
  {
    hide CloseLists, ListOk, IsKeyOrder;
    KeyOrderFacts(order, r);
    CloseListsOpen(r, home, order, |order|);
    forall c: Chan | c < r.made ensures c in UnsubscribeAll(r, order).closed {
      if c !in r.closed {
        assert ListedAt(r, home[c], c);
        var i :| 0 <= i < |order| && order[i] == home[c];
        assert ListedAt(r, order[i], c);
      }
    }
    forall c | c in UnsubscribeAll(r, order).closed ensures c < r.made {
      if InLists(r, order, |order|, c) { ListedIsMade(r, home, order, c); }
    }
  }

  lemma {:induction false} KeyOrderFacts(order: seq<Str>, r: Registry)
    requires IsKeyOrder(order, r)
    ensures (forall i :: 0 <= i < |order| ==> order[i] in r.subs) && forall name :: name in r.subs ==> name in order
  {
  }

  lemma {:induction false} ListedIsMade(r: Registry, home: seq<Str>, order: seq<Str>, c: Chan)
    requires Inv(r, home) && InLists(r, order, |order|, c)
    ensures c < r.made
  {
    var i :| 0 <= i < |order| && ListedAt(r, order[i], c);
    var list := r.subs[order[i]];
    assert ListOk(r, home, order[i], list);
    var j :| 0 <= j < |list| && list[j] == c;
    assert OpenAt(r, home, order[i], list[j]);
  }

  lemma {:induction false} SendAllOpen(r: Registry, cs: seq<Chan>, n: nat, message: Str)
    requires n <= |cs| && forall i :: 0 <= i < |cs| ==> cs[i] !in r.closed
    ensures SendAll(r, cs, n, message) == r.(pending := SendAll(r, cs, n, message).pending)
  {
    if n > 0 { SendAllOpen(r, cs, n - 1, message); }
  }

  /** Publishing panics never and changes nothing but the buffers. */
  lemma {:induction false} PublishKeeps(r: Registry, home: seq<Str>, name: Str, message: Str)
    requires Inv(r, home)
    ensures Publish(r, name, message) == r.(pending := Publish(r, name, message).pending)
    ensures Inv(Publish(r, name, message), home)
  {
    hide SendAll, NoDup;
    if name in r.subs {
      var list := r.subs[name];
      assert ListOk(r, home, name, list);
      forall i | 0 <= i < |list| ensures list[i] !in r.closed { assert OpenAt(r, home, name, list[i]); }
      SendAllOpen(r, list, |list|, message);
      OnlyPending(r, Publish(r, name, message), home);
    }
  }

  lemma {:induction false} SendAllDelivers(r: Registry, cs: seq<Chan>, n: nat, message: Str, c: Chan)
    requires n <= |cs| && forall i :: 0 <= i < |cs| ==> cs[i] !in r.closed
    ensures
      var p := SendAll(r, cs, n, message).pending;
      if c in r.pending then c in p && p[c] == r.pending[c]
      else if c in cs[..n] then c in p && p[c] == message
      else c !in p
  {
    if n > 0 {
      SendAllDelivers(r, cs, n - 1, message, c);
      SendAllOpen(r, cs, n - 1, message);
      assert cs[..n] == cs[..n - 1] + [cs[n - 1]];
    }
  }

  /** Exactly the subscribers whose buffer was empty get the message; nobody else's buffer changes. */
  lemma {:induction false} PublishDelivers(r: Registry, home: seq<Str>, name: Str, message: Str, c: Chan)
    requires Inv(r, home)
    ensures
      var p := Publish(r, name, message).pending;
      if c in r.pending then c in p && p[c] == r.pending[c]
      else if ListedAt(r, name, c) then c in p && p[c] == message
      else c !in p
  {
    hide SendAll, NoDup;
    if name in r.subs {
      var list := r.subs[name];
      assert ListOk(r, home, name, list);
      forall i | 0 <= i < |list| ensures list[i] !in r.closed { assert OpenAt(r, home, name, list[i]); }
      SendAllDelivers(r, list, |list|, message, c);
      assert list[..|list|] == list;
    }
  }

  lemma {:induction false} OnlyPending(r: Registry, r': Registry, home: seq<Str>)
    requires Inv(r, home) && r' == r.(pending := r'.pending)
    ensures Inv(r', home)
  {
    forall name | name in r'.subs ensures ListOk(r', home, name, r'.subs[name]) {
      assert ListOk(r, home, name, r.subs[name]);
      forall i | 0 <= i < |r.subs[name]| ensures OpenAt(r', home, name, r.subs[name][i]) {
        assert OpenAt(r, home, name, r.subs[name][i]);
      }
    }
    forall c: Chan | c < r'.made && c !in r'.closed ensures ListedAt(r', home[c], c) { assert ListedAt(r, home[c], c); }
  }

  datatype Reading = Reading(reg: Registry, got: seq<Str>)

  /** The first `n` messages published, and the channel read after each. */
  function ReadEach(r: Registry, name: Str, c: Chan, messages: seq<Str>, n: nat): Reading
    requires n <= |messages|
  {
    if n == 0 then Reading(r, [])
    else
      var before := ReadEach(r, name, c, messages, n - 1);
      var p := Publish(before.reg, name, messages[n - 1]);
      Reading(Receive(p, c), before.got + if c in p.pending then [p.pending[c]] else [])
  }

  /** A subscriber that reads before the next message is published gets every message, in order. */
  lemma {:induction false} PromptReaderGetsAll(r: Registry, home: seq<Str>, name: Str, c: Chan, messages: seq<Str>,
      n: nat)
    requires Inv(r, home) && ListedAt(r, name, c) && c !in r.pending && n <= |messages|
    ensures
      var q := ReadEach(r, name, c, messages, n);
      q.got == messages[..n] && Inv(q.reg, home) && q.reg.subs == r.subs && c !in q.reg.pending
  {
    hide Inv, Publish, OpenAt;
    if n > 0 {
      PromptReaderGetsAll(r, home, name, c, messages, n - 1);
      var before := ReadEach(r, name, c, messages, n - 1).reg;
      PublishDelivers(before, home, name, messages[n - 1], c);
      PublishKeeps(before, home, name, messages[n - 1]);
      var p := Publish(before, name, messages[n - 1]);
      OnlyPending(p, Receive(p, c), home);
      assert messages[..n] == messages[..n - 1] + [messages[n - 1]];
    }
  }

  lemma {:induction false} CloseListsSnoc(r: Registry, order: seq<Str>, name: Str)
    requires name in r.subs && forall i :: 0 <= i < |order| ==> order[i] in r.subs
    ensures CloseLists(r, order + [name], |order| + 1)
            == CloseAll(CloseLists(r, order, |order|), r.subs[name], |r.subs[name]|)
  {
    CloseListsSame(r, order, name, |order|);
  }

  lemma {:induction false} CloseListsSame(r: Registry, order: seq<Str>, name: Str, k: nat)
    requires name in r.subs && k <= |order| && forall i :: 0 <= i < |order| ==> order[i] in r.subs
    ensures CloseLists(r, order + [name], k) == CloseLists(r, order, k)
  {
    if k > 0 { CloseListsSame(r, order, name, k - 1); }
  }
}
