/**
 Connections using the registry at the same time. A connection keeps a map of its own
 channels; leaving channels and being torn down are loops over that map, one registry call
 at a time, between which other connections may run. Publishing goes through the subscribers
 one send at a time under the read lock: any number of publishers may be in the middle of
 that at once, and receivers may run, but nobody subscribes or unsubscribes.
 */
module PubSubRuns {
  import opened Bytes
  import opened PubSub

  /** What a connection is doing: its commands, a loop over names, or nothing any more. */
  datatype Phase = Serving | Leaving(names: seq<Str>, i: nat, j: nat, down: bool) | Gone

  datatype Conn = Conn(subs: map<Str, seq<Chan>>, phase: Phase)

  /** A call of Publish: the subscribers it found, how many it has gone through and how many took the message. */
  datatype Publisher =
    | Sending(name: Str, message: Str, list: seq<Chan>, i: nat, count: nat)
    | Finished(count: nat)

  /** `home` and `maker` record, for every channel, its name and its connection. */
  datatype State = State(reg: Registry, conns: seq<Conn>, home: seq<Str>, maker: seq<nat>, pubs: seq<Publisher>)

  datatype Action =
    | Join                                     // a new connection
    | SubscribeTo(t: nat, name: Str)           // one name of SUBSCRIBE
    | StartLeaving(t: nat, names: seq<Str>)    // UNSUBSCRIBE
    | StartTeardown(t: nat, names: seq<Str>)   // the connection ends; names in the order the map is gone through
    | Continue(t: nat)                         // the next step of the loop
    | StartPublish(name: Str, message: Str)    // Publish takes the read lock and finds the subscription
    | SendNext(p: nat)                         // it tries the next subscriber
    | EndPublish(p: nat)                       // it has tried all and lets the lock go
    | CloseEverything(order: seq<Str>)         // UnsubscribeAll
    | Deliver(c: Chan)                         // a message is received

  function ListFor(c: Conn, name: Str): seq<Chan> {
    if name in c.subs then c.subs[name] else []
  }

  /** The subscribers of a name. */
  function ListIn(r: Registry, name: Str): seq<Chan> {
    if name in r.subs then r.subs[name] else []
  }

  /** Nobody holds the read lock. */
  predicate Unlocked(s: State) {
    forall p :: 0 <= p < |s.pubs| ==> s.pubs[p].Finished?
  }

  /** The next step of the connection's loop is a call of Unsubscribe. */
  predicate CallsNext(c: Conn) {
    c.phase.Leaving? && c.phase.i < |c.phase.names| && c.phase.j < |ListFor(c, c.phase.names[c.phase.i])|
  }

  predicate Enabled(s: State, a: Action) {
    match a
    case Join => true
    case SubscribeTo(t, _) => t < |s.conns| && s.conns[t].phase.Serving? && Unlocked(s)
    case StartLeaving(t, _) => t < |s.conns| && s.conns[t].phase.Serving?
    case StartTeardown(t, names) =>
      t < |s.conns| && s.conns[t].phase.Serving? && forall name :: name in s.conns[t].subs ==> name in names
    case Continue(t) => t < |s.conns| && s.conns[t].phase.Leaving? && (CallsNext(s.conns[t]) ==> Unlocked(s))
    case StartPublish(_, _) => true
    case SendNext(p) => p < |s.pubs| && s.pubs[p].Sending? && s.pubs[p].i < |s.pubs[p].list|
    case EndPublish(p) => p < |s.pubs| && s.pubs[p].Sending? && s.pubs[p].i == |s.pubs[p].list|
    case CloseEverything(order) => IsKeyOrder(order, s.reg) && Unlocked(s)
    case Deliver(_) => true
  }

  /** One step of the loops in handleUnsubscribe and in the teardown of handleConnection. */
  function ContinueWith(s: State, t: nat): State
    requires t < |s.conns| && s.conns[t].phase.Leaving?
  {
    var c := s.conns[t];
    var p := c.phase;
    if p.i >= |p.names| then s.(conns := s.conns[t := c.(phase := if p.down then Gone else Serving)])
    else
      var list := ListFor(c, p.names[p.i]);
      if p.j < |list| then
        s.(reg := Unsubscribe(s.reg, p.names[p.i], list[p.j]), conns := s.conns[t := c.(phase := p.(j := p.j + 1))])
      else
        var subs := if p.down then c.subs else c.subs - {p.names[p.i]};
        s.(conns := s.conns[t := Conn(subs, p.(i := p.i + 1, j := 0))])
  }

  function Apply(s: State, a: Action): State
    requires Enabled(s, a)
  {
    match a
    case Join => s.(conns := s.conns + [Conn(map[], Serving)])
    case SubscribeTo(t, name) =>
      var c := s.conns[t];
      State(PubSub.Subscribe(s.reg, name), s.conns[t := c.(subs := c.subs[name := ListFor(c, name) + [s.reg.made]])],
            s.home + [name], s.maker + [t], s.pubs)
    case StartLeaving(t, names) => s.(conns := s.conns[t := s.conns[t].(phase := Leaving(names, 0, 0, false))])
    case StartTeardown(t, names) => s.(conns := s.conns[t := s.conns[t].(phase := Leaving(names, 0, 0, true))])
    case Continue(t) => ContinueWith(s, t)
    case StartPublish(name, message) => s.(pubs := s.pubs + [Sending(name, message, ListIn(s.reg, name), 0, 0)])
    case SendNext(p) =>
      var q := s.pubs[p];
      var c := q.list[q.i];
      var took := c !in s.reg.closed && c !in s.reg.pending;
      s.(reg := Send(s.reg, c, q.message),
         pubs := s.pubs[p := q.(i := q.i + 1, count := if took then q.count + 1 else q.count)])
    case EndPublish(p) => s.(pubs := s.pubs[p := Finished(s.pubs[p].count)])
    case CloseEverything(order) => s.(reg := UnsubscribeAll(s.reg, order))
    case Deliver(c) => s.(reg := Receive(s.reg, c))
  }

  const START: State := State(EMPTY, [], [], [], [])

  predicate IsRun(actions: seq<Action>)
    decreases |actions|, 0
  {
    |actions| == 0 || (IsRun(actions[..|actions| - 1]) &&
      Enabled(After(actions[..|actions| - 1]), actions[|actions| - 1]))
  }

  function After(actions: seq<Action>): State
    requires IsRun(actions)
    decreases |actions|, 1
  {
    if |actions| == 0 then START else Apply(After(actions[..|actions| - 1]), actions[|actions| - 1])
  }

  // ----- what holds in every reachable state

  /** A connection's map holds only channels it made itself, under their own names. */
  predicate OwnMap(s: State, t: nat)
    requires t < |s.conns| && |s.home| == |s.maker| == s.reg.made
  {
    forall name, k :: name in s.conns[t].subs && 0 <= k < |s.conns[t].subs[name]| ==>
      Own(s, t, name, s.conns[t].subs[name][k])
  }

  predicate Own(s: State, t: nat, name: Str, c: Chan)
    requires |s.home| == |s.maker| == s.reg.made
  {
    c < s.reg.made && s.home[c] == name && s.maker[c] == t
  }

  /** The channel is not among those the loop has dealt with. */
  predicate StillAhead(c: Conn, name: Str, x: Chan) {
    c.phase.Leaving? ==>
      && (forall i :: 0 <= i < c.phase.i && i < |c.phase.names| ==> c.phase.names[i] != name)
      && (c.phase.i < |c.phase.names| && c.phase.names[c.phase.i] == name ==>
            forall k :: 0 <= k < c.phase.j && k < |ListFor(c, name)| ==> ListFor(c, name)[k] != x)
  }

  /** An open channel is in the map of the connection that made it, which is not gone and has not passed it. */
  predicate Kept(s: State, x: Chan)
    requires |s.home| == |s.maker| == s.reg.made && x < s.reg.made
  {
    && s.maker[x] < |s.conns|
    && var c := s.conns[s.maker[x]];
       !c.phase.Gone? && x in ListFor(c, s.home[x]) && StillAhead(c, s.home[x], x)
  }

  predicate Covering(c: Conn) {
    c.phase.Leaving? && c.phase.down ==> forall name :: name in c.subs ==> name in c.phase.names
  }

  ghost predicate Good(s: State) {
    && |s.maker| == |s.home| == s.reg.made && PubSub.Inv(s.reg, s.home)
    && (forall t :: 0 <= t < |s.conns| ==> OwnMap(s, t) && Covering(s.conns[t]))
    && (forall x: Chan :: x < s.reg.made && x !in s.reg.closed ==> Kept(s, x))
  }

  /** A publisher in the middle of its list has the subscription as it still is. */
  predicate PublisherOk(r: Registry, q: Publisher) {
    q.Sending? ==> q.list == ListIn(r, q.name) && q.count <= q.i <= |q.list|
  }

  predicate PublishersOk(s: State) {
    forall p :: 0 <= p < |s.pubs| ==> PublisherOk(s.reg, s.pubs[p])
  }

  /** What another publisher, a receiver or a connection's own bookkeeping does leaves the subscriptions alone. */
  lemma {:induction false} StepKeepsPublishers(s: State, a: Action)
    requires PublishersOk(s) && Enabled(s, a)
    ensures PublishersOk(Apply(s, a))
  {
    hide Unsubscribe, UnsubscribeAll, Subscribe, IsKeyOrder, ListIn;
    var s' := Apply(s, a);
    forall p | 0 <= p < |s'.pubs| ensures PublisherOk(s'.reg, s'.pubs[p]) {
      if p < |s.pubs| {
        assert PublisherOk(s.reg, s.pubs[p]);
        SameSubscriptions(s, a);
      }
    }
  }

  lemma {:induction false} SameSubscriptions(s: State, a: Action)
    requires Enabled(s, a)
    ensures !Unlocked(s) ==> Apply(s, a).reg.subs == s.reg.subs
    ensures Apply(s, a).reg.subs == s.reg.subs ==> forall name :: ListIn(Apply(s, a).reg, name) == ListIn(s.reg, name)
  {
    hide Unsubscribe, UnsubscribeAll, Subscribe, IsKeyOrder;
  }

  /** A send by a publisher goes to an open channel, fills its buffer if that is empty and changes nothing else. */
  lemma {:induction false} SendIsSafe(s: State, p: nat)
    requires PubSub.Inv(s.reg, s.home) && PublishersOk(s) && Enabled(s, SendNext(p))
    ensures
      var c := s.pubs[p].list[s.pubs[p].i];
      var r := Apply(s, SendNext(p)).reg;
      && c !in s.reg.closed && r == s.reg.(pending := r.pending)
      && r.pending == (if c in s.reg.pending then s.reg.pending else s.reg.pending[c := s.pubs[p].message])
  {
    hide NoDup;
    var q := s.pubs[p];
    assert PublisherOk(s.reg, q);
    assert ListOk(s.reg, s.home, q.name, s.reg.subs[q.name]);
    assert OpenAt(s.reg, s.home, q.name, s.reg.subs[q.name][q.i]);
  }

  lemma {:induction false} SendKeeps(s: State, p: nat)
    requires Good(s) && PublishersOk(s) && Enabled(s, SendNext(p))
    ensures Good(Apply(s, SendNext(p)))
  {
    hide OwnMap, Kept, Covering, PubSub.Inv, PublishersOk, Send;
    SendIsSafe(s, p);
    var reg := Apply(s, SendNext(p)).reg;
    OnlyPending(s.reg, reg, s.home);
    ClosingKeeps(s, reg);
    PublishersApart(s.(reg := reg), Apply(s, SendNext(p)).pubs);
  }

  lemma {:induction false} PublishersApart(s: State, pubs: seq<Publisher>)
    requires Good(s)
    ensures Good(s.(pubs := pubs))
  {
    hide PubSub.Inv, StillAhead;
    var s' := s.(pubs := pubs);
    forall t | 0 <= t < |s'.conns| ensures OwnMap(s', t) && Covering(s'.conns[t]) {
      assert OwnMap(s, t) && Covering(s.conns[t]);
      forall name, k | name in s.conns[t].subs && 0 <= k < |s.conns[t].subs[name]|
        ensures Own(s', t, name, s.conns[t].subs[name][k]) {
        assert Own(s, t, name, s.conns[t].subs[name][k]);
      }
    }
    forall x: Chan | x < s'.reg.made && x !in s'.reg.closed ensures Kept(s', x) { assert Kept(s, x); }
  }

  /** A publisher that is left alone for `k` sends. */
  function SendTimes(s: State, p: nat, k: nat): (r: State)
    requires p < |s.pubs| && s.pubs[p].Sending? && s.pubs[p].i + k <= |s.pubs[p].list|
    ensures |r.pubs| == |s.pubs| && r.pubs[p].Sending? && r.pubs[p].i == s.pubs[p].i + k
    ensures r.pubs[p].list == s.pubs[p].list && r.pubs[p].message == s.pubs[p].message
  {
    if k == 0 then s else Apply(SendTimes(s, p, k - 1), SendNext(p))
  }

  lemma {:induction false} SendTimesIs(s: State, p: nat, k: nat)
    requires p < |s.pubs| && s.pubs[p].Sending? && s.pubs[p].i == 0 && k <= |s.pubs[p].list|
    ensures SendTimes(s, p, k).reg == SendAll(s.reg, s.pubs[p].list, k, s.pubs[p].message)
  {
    hide Send;
    if k > 0 { SendTimesIs(s, p, k - 1); }
  }

  /** A publish that nobody interrupts is one publish of the registry. */
  lemma {:induction false} PublishAlone(s: State, name: Str, message: Str)
    ensures
      var s1 := Apply(s, StartPublish(name, message));
      SendTimes(s1, |s.pubs|, |ListIn(s.reg, name)|).reg == Publish(s.reg, name, message)
  {
    hide SendTimes, SendAll;
    var s1 := Apply(s, StartPublish(name, message));
    SendTimesIs(s1, |s.pubs|, |ListIn(s.reg, name)|);
    if name !in s.reg.subs { NoSends(s.reg, message); }
  }

  lemma {:induction false} NoSends(r: Registry, message: Str)
    ensures SendAll(r, [], 0, message) == r
  {
  }

  /** A publisher can always move on, so that the write lock becomes free again. */
  lemma {:induction false} PublishersProceed(s: State, p: nat)
    requires PublishersOk(s) && p < |s.pubs| && s.pubs[p].Sending?
    ensures Enabled(s, SendNext(p)) || Enabled(s, EndPublish(p))
  {
    assert PublisherOk(s.reg, s.pubs[p]);
  }

  lemma {:induction false} JoinKeeps(s: State)
    requires Good(s)
    ensures Good(Apply(s, Join))
  {
    hide PubSub.Inv, StillAhead;
    var s' := Apply(s, Join);
    forall t | 0 <= t < |s'.conns| ensures OwnMap(s', t) && Covering(s'.conns[t]) {
      if t < |s.conns| { assert OwnMap(s, t) && Covering(s.conns[t]); }
    }
    forall x: Chan | x < s'.reg.made && x !in s'.reg.closed ensures Kept(s', x) { assert Kept(s, x); }
  }

  /** A connection changes what it is doing. */
  lemma {:induction false} PhaseKeeps(s: State, t: nat, phase: Phase)
    requires Good(s) && t < |s.conns|
    requires Covering(s.conns[t].(phase := phase))
    requires forall x: Chan :: x < s.reg.made && x !in s.reg.closed && s.maker[x] == t ==>
      !phase.Gone? && StillAhead(s.conns[t].(phase := phase), s.home[x], x)
    ensures Good(s.(conns := s.conns[t := s.conns[t].(phase := phase)]))
  {
    hide PubSub.Inv, StillAhead;
    var s' := s.(conns := s.conns[t := s.conns[t].(phase := phase)]);
    forall u | 0 <= u < |s'.conns| ensures OwnMap(s', u) && Covering(s'.conns[u]) {
      assert OwnMap(s, u) && Covering(s.conns[u]);
    }
    forall x: Chan | x < s'.reg.made && x !in s'.reg.closed ensures Kept(s', x) { assert Kept(s, x); }
  }

  /** A registry call that closes channels and changes nothing else that matters here. */
  lemma {:induction false} ClosingKeeps(s: State, reg: Registry)
    requires Good(s) && PubSub.Inv(reg, s.home) && reg.made == s.reg.made && s.reg.closed <= reg.closed
    ensures Good(s.(reg := reg))
  {
    hide PubSub.Inv, StillAhead;
    var s' := s.(reg := reg);
    forall u | 0 <= u < |s'.conns| ensures OwnMap(s', u) && Covering(s'.conns[u]) {
      assert OwnMap(s, u) && Covering(s.conns[u]);
      forall name, k | name in s.conns[u].subs && 0 <= k < |s.conns[u].subs[name]|
        ensures Own(s', u, name, s.conns[u].subs[name][k]) {
        assert Own(s, u, name, s.conns[u].subs[name][k]);
      }
    }
    forall x: Chan | x < s'.reg.made && x !in s'.reg.closed ensures Kept(s', x) { assert Kept(s, x); }
  }

  lemma {:induction false} SubscribeKeepsGood(s: State, t: nat, name: Str)
    requires Good(s) && Enabled(s, SubscribeTo(t, name))
    ensures Good(Apply(s, SubscribeTo(t, name)))
  {
    hide PubSub.Inv, ListedAt;
    SubscribeKeeps(s.reg, s.home, name);
    var s' := Apply(s, SubscribeTo(t, name));
    forall u | 0 <= u < |s'.conns| ensures OwnMap(s', u) && Covering(s'.conns[u]) {
      assert OwnMap(s, u) && Covering(s.conns[u]);
      forall n, k | n in s'.conns[u].subs && 0 <= k < |s'.conns[u].subs[n]|
        ensures Own(s', u, n, s'.conns[u].subs[n][k]) {
        if n in s.conns[u].subs && k < |s.conns[u].subs[n]| { assert Own(s, u, n, s.conns[u].subs[n][k]); }
      }
    }
    forall x: Chan | x < s'.reg.made && x !in s'.reg.closed ensures Kept(s', x) {
      if x < s.reg.made { assert Kept(s, x); }
    }
  }

  lemma {:induction false} StartKeeps(s: State, t: nat, names: seq<Str>, down: bool)
    requires Good(s) && t < |s.conns| && s.conns[t].phase.Serving?
    requires down ==> forall name :: name in s.conns[t].subs ==> name in names
    ensures Good(s.(conns := s.conns[t := s.conns[t].(phase := Leaving(names, 0, 0, down))]))
  {
    hide PubSub.Inv, OwnMap, Kept;
    PhaseKeeps(s, t, Leaving(names, 0, 0, down));
  }

  /** When the loop of a teardown is through, no open channel of the connection is left. */
  lemma {:induction false} NoneLeft(s: State, t: nat, x: Chan)
    requires Good(s) && t < |s.conns| && s.conns[t].phase.Leaving? && s.conns[t].phase.down
    requires s.conns[t].phase.i >= |s.conns[t].phase.names|
    requires x < s.reg.made && x !in s.reg.closed
    ensures s.maker[x] != t
  {
    hide PubSub.Inv, OwnMap;
    var c := s.conns[t];
    assert Kept(s, x) && Covering(c);
    if s.home[x] in c.phase.names { AllPassed(c, s.home[x], x); }
  }

  lemma {:induction false} AllPassed(c: Conn, name: Str, x: Chan)
    requires c.phase.Leaving? && c.phase.i >= |c.phase.names| && name in c.phase.names
    ensures !StillAhead(c, name, x)
  {
    var k :| 0 <= k < |c.phase.names| && c.phase.names[k] == name;
  }

  lemma {:induction false} FinishKeeps(s: State, t: nat)
    requires Good(s) && t < |s.conns| && s.conns[t].phase.Leaving? && s.conns[t].phase.i >= |s.conns[t].phase.names|
    ensures Good(ContinueWith(s, t))
  {
    hide PubSub.Inv, OwnMap, Kept, Covering;
    var p := s.conns[t].phase;
    if p.down {
      forall x: Chan | x < s.reg.made && x !in s.reg.closed ensures s.maker[x] != t { NoneLeft(s, t, x); }
      NotCovering(s.conns[t].(phase := Gone));
      PhaseKeeps(s, t, Gone);
    } else {
      NotCovering(s.conns[t].(phase := Serving));
      PhaseKeeps(s, t, Serving);
    }
  }

  lemma {:induction false} NotCovering(c: Conn)
    requires !c.phase.Leaving?
    ensures Covering(c)
  {
  }

  /** After the call, the channel the loop is at is closed. */
  lemma {:induction false} ClosedNow(s: State, t: nat, name: Str, k: nat)
    requires Good(s) && t < |s.conns| && name in s.conns[t].subs && k < |s.conns[t].subs[name]|
    ensures
      var x := s.conns[t].subs[name][k];
      x in Unsubscribe(s.reg, name, x).closed
  {
    hide Unsubscribe, Kept, Covering, ListOk;
    var x := s.conns[t].subs[name][k];
    UnsubscribeKeeps(s.reg, s.home, name, x);
    assert OwnMap(s, t);
    assert Own(s, t, name, x);
    if x !in s.reg.closed { assert ListedAt(s.reg, s.home[x], x); }
  }

  lemma {:induction false} UnsubscribeStep(s: State, t: nat)
    requires Good(s) && t < |s.conns| && s.conns[t].phase.Leaving? && s.conns[t].phase.i < |s.conns[t].phase.names|
    requires s.conns[t].phase.j < |ListFor(s.conns[t], s.conns[t].phase.names[s.conns[t].phase.i])|
    ensures Good(ContinueWith(s, t))
  {
    hide PubSub.Inv, OwnMap, Kept, Unsubscribe, Good;
    var c := s.conns[t];
    var p := c.phase;
    var name := p.names[p.i];
    var x := ListFor(c, name)[p.j];
    GoodParts(s);
    ClosedNow(s, t, name, p.j);
    UnsubscribeKeeps(s.reg, s.home, name, x);
    var s1 := s.(reg := Unsubscribe(s.reg, name, x));
    ClosingKeeps(s, s1.reg);
    GoodParts(s1);
    CoveringOn(c, p.j + 1);
    forall y: Chan | y < s1.reg.made && y !in s1.reg.closed && s1.maker[y] == t
      ensures StillAhead(c.(phase := p.(j := p.j + 1)), s.home[y], y) {
      KeptAhead(s1, y);
    }
    PhaseKeeps(s1, t, p.(j := p.j + 1));
  }

  lemma {:induction false} GoodParts(s: State)
    requires Good(s)
    ensures |s.maker| == |s.home| == s.reg.made && PubSub.Inv(s.reg, s.home)
    ensures forall t :: 0 <= t < |s.conns| ==> Covering(s.conns[t])
  {
  }

  lemma {:induction false} CoveringOn(c: Conn, j: nat)
    requires Covering(c) && c.phase.Leaving?
    ensures Covering(c.(phase := c.phase.(j := j)))
  {
  }

  lemma {:induction false} KeptAhead(s: State, x: Chan)
    requires Good(s) && x < s.reg.made && x !in s.reg.closed
    ensures s.maker[x] < |s.conns| && x in ListFor(s.conns[s.maker[x]], s.home[x]) &&
      StillAhead(s.conns[s.maker[x]], s.home[x], x)
  {
    hide PubSub.Inv, OwnMap, StillAhead, Covering;
    assert Kept(s, x);
  }

  /** No open channel of the connection is under a name whose list the loop has gone through. */
  lemma {:induction false} NoneUnderName(s: State, t: nat, x: Chan)
    requires Good(s) && t < |s.conns| && s.conns[t].phase.Leaving? && s.conns[t].phase.i < |s.conns[t].phase.names|
    requires s.conns[t].phase.j >= |ListFor(s.conns[t], s.conns[t].phase.names[s.conns[t].phase.i])|
    requires x < s.reg.made && x !in s.reg.closed && s.maker[x] == t
    ensures s.home[x] != s.conns[t].phase.names[s.conns[t].phase.i]
  {
    hide Good;
    GoodParts(s);
    KeptAhead(s, x);
  }

  lemma {:induction false} NextNameKeeps(s: State, t: nat)
    requires Good(s) && t < |s.conns| && s.conns[t].phase.Leaving? && s.conns[t].phase.i < |s.conns[t].phase.names|
    requires s.conns[t].phase.j >= |ListFor(s.conns[t], s.conns[t].phase.names[s.conns[t].phase.i])|
    ensures Good(ContinueWith(s, t))
  {
    hide PubSub.Inv, StillAhead;
    var s' := ContinueWith(s, t);
    var c, c' := s.conns[t], s'.conns[t];
    forall u | 0 <= u < |s'.conns| ensures OwnMap(s', u) && Covering(s'.conns[u]) {
      assert OwnMap(s, u) && Covering(s.conns[u]);
      forall n, k | n in s'.conns[u].subs && 0 <= k < |s'.conns[u].subs[n]|
        ensures Own(s', u, n, s'.conns[u].subs[n][k]) {
        assert Own(s, u, n, s.conns[u].subs[n][k]);
      }
    }
    forall x: Chan | x < s'.reg.made && x !in s'.reg.closed ensures Kept(s', x) {
      assert Kept(s, x);
      if s.maker[x] == t {
        NoneUnderName(s, t, x);
        AheadOfNext(c, c', s.home[x], x);
      }
    }
  }

  lemma {:induction false} AheadOfNext(c: Conn, c': Conn, name: Str, x: Chan)
    requires c.phase.Leaving? && c.phase.i < |c.phase.names| && name != c.phase.names[c.phase.i] &&
      StillAhead(c, name, x)
    requires c'.phase == c.phase.(i := c.phase.i + 1, j := 0)
    ensures StillAhead(c', name, x)
  {
  }

  lemma {:induction false} StepKeepsGood(s: State, a: Action)
    requires Good(s) && PublishersOk(s) && Enabled(s, a)
    ensures Good(Apply(s, a)) && PublishersOk(Apply(s, a))
  {
    hide Good, PubSub.Inv, UnsubscribeAll, IsKeyOrder, Covering, PublishersOk, Send, Unlocked;
    StepKeepsPublishers(s, a);
    GoodParts(s);
    match a
    case Join => JoinKeeps(s);
    case SubscribeTo(t, name) => SubscribeKeepsGood(s, t, name);
    case StartLeaving(t, names) => StartKeeps(s, t, names, false);
    case StartTeardown(t, names) => StartKeeps(s, t, names, true);
    case Continue(t) =>
      var p := s.conns[t].phase;
      if p.i >= |p.names| {
        FinishKeeps(s, t);
      } else if p.j < |ListFor(s.conns[t], p.names[p.i])| {
        UnsubscribeStep(s, t);
      } else {
        NextNameKeeps(s, t);
      }
    case StartPublish(_, _) => PublishersApart(s, Apply(s, a).pubs);
    case SendNext(p) => SendKeeps(s, p);
    case EndPublish(_) => PublishersApart(s, Apply(s, a).pubs);
    case CloseEverything(order) =>
      KeyOrderFacts(order, s.reg);
      UnsubscribeAllKeeps(s.reg, s.home, order);
      ClosedBefore(s, order);
      ClosingKeeps(s, UnsubscribeAll(s.reg, order));
    case Deliver(c) =>
      OnlyPending(s.reg, Receive(s.reg, c), s.home);
      ClosingKeeps(s, Receive(s.reg, c));
  }

  lemma {:induction false} ClosedBefore(s: State, order: seq<Str>)
    requires Good(s) && IsKeyOrder(order, s.reg)
    ensures s.reg.closed <= UnsubscribeAll(s.reg, order).closed
  {
    hide CloseLists, IsKeyOrder;
    KeyOrderFacts(order, s.reg);
    UnsubscribeAllKeeps(s.reg, s.home, order);
  }

  lemma {:induction false} RunsStayGood(actions: seq<Action>)
    requires IsRun(actions)
    ensures Good(After(actions)) && PublishersOk(After(actions))
  {
    hide Good, Enabled, Apply, PublishersOk;
    if |actions| == 0 {
      StartGood();
    } else {
      RunsStayGood(actions[..|actions| - 1]);
      StepKeepsGood(After(actions[..|actions| - 1]), actions[|actions| - 1]);
    }
  }

  lemma {:induction false} StartGood()
    ensures Good(START) && PublishersOk(START)
  {
  }

  /**
   In every run no channel is closed twice or sent to after closing, every channel is closed
   or listed exactly once, under its own name, and no empty subscription is stored.
   */
  lemma {:induction false} ChannelsAreSafe(actions: seq<Action>)
    requires IsRun(actions)
    ensures !After(actions).reg.panicked && PubSub.Inv(After(actions).reg, After(actions).home)
  {
    hide After, IsRun, OwnMap, Kept, Covering;
    RunsStayGood(actions);
  }

  /** A connection that is gone leaves no open channel behind. */
  lemma {:induction false} TornDownLeavesNothing(actions: seq<Action>, t: nat, x: Chan)
    requires IsRun(actions)
    requires var s := After(actions); t < |s.conns| && s.conns[t].phase.Gone? && x < |s.maker| && s.maker[x] == t
    ensures x in After(actions).reg.closed
  {
    hide After, IsRun, OwnMap, Covering, PubSub.Inv;
    RunsStayGood(actions);
    var s := After(actions);
    assert x !in s.reg.closed ==> Kept(s, x);
  }
}
