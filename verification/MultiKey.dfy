/**
 MSET and MGET among all the other calls, from any number of clients at once. Each call takes
 one read-write lock and then goes through its keys one by one; a step of the system is one
 client taking a lock, touching one key or letting a lock go. In cluster mode the lock is that
 of the first key's shard, and keys share a slot, as the handlers check; otherwise one lock
 guards all keys. A writer is an MSET or any operation on a single key: SET, APPEND, INCR, DEL
 and, as far as they change what MGET sees, those on other types.
 */
module MultiKey {
  import opened Bytes
  import opened Slots
  import opened StoreModel

  type StoreAct = a: Act | WellFormed(a) witness Get

  datatype Client =
    | Idle
    | WantSet(keys: seq<Str>, acts: seq<StoreAct>)
    | Setting(keys: seq<Str>, acts: seq<StoreAct>, i: nat)
    | WantGet(keys: seq<Str>, called: nat)
    | Getting(keys: seq<Str>, called: nat, at: nat, got: seq<Str>)

  /** A completed writer: the operations on its keys. */
  datatype Entry = Entry(keys: seq<Str>, acts: seq<StoreAct>)

  /**
   A completed MGET: how many writers had completed when it was called, when it got its lock,
   and when it returned.
   */
  datatype Answer = Answer(keys: seq<Str>, got: seq<Str>, called: nat, at: nat, returned: nat)

  datatype State = State(cluster: bool, cells: map<Str, Value>, clients: seq<Client>, log: seq<Entry>,
    answers: seq<Answer>)

  datatype Action =
    | CallSet(keys: seq<Str>, acts: seq<StoreAct>) | LockSet | SetKey | ReturnSet
    | CallGet(keys: seq<Str>) | LockGet | GetKey | ReturnGet

  /** The lock that guards a key: its shard's in cluster mode, the store's otherwise. */
  function LockFor(cluster: bool, k: Str): nat {
    if cluster then SlotForKey(k) else 0
  }

  /** What the handlers check in cluster mode; without a cluster any keys may be used together. */
  predicate OneLock(cluster: bool, keys: seq<Str>) {
    cluster ==> SameSlot(keys)
  }

  function Slot(cluster: bool, c: Client): nat
    requires !c.Idle? && |c.keys| > 0
  {
    LockFor(cluster, c.keys[0])
  }

  predicate HoldsWrite(cluster: bool, c: Client, slot: nat) {
    c.Setting? && |c.keys| > 0 && Slot(cluster, c) == slot
  }

  predicate Holds(cluster: bool, c: Client, slot: nat) {
    HoldsWrite(cluster, c, slot) || (c.Getting? && |c.keys| > 0 && Slot(cluster, c) == slot)
  }

  predicate WellFormedClient(cluster: bool, c: Client) {
    && (!c.Idle? ==> |c.keys| > 0 && OneLock(cluster, c.keys))
    && (c.WantSet? || c.Setting? ==> |c.keys| == |c.acts|)
    && (c.Setting? ==> c.i <= |c.keys|)
    && (c.Getting? ==> |c.got| <= |c.keys|)
  }

  /** What an operation does to what MGET looks at: a shard holds all types, the string map only strings. */
  function Changed(cluster: bool, v: Option<Value>, a: StoreAct): Option<Value> {
    if cluster || ActKind(a) == None || ActKind(a) == Some(StrK) then ActOn(v, a).v else v
  }

  /** The first `n` operations, one after the other. */
  function Writes(cluster: bool, m: map<Str, Value>, keys: seq<Str>, acts: seq<StoreAct>, n: nat): map<Str, Value>
    requires n <= |keys| == |acts|
  {
    if n == 0 then m
    else
      var before, k := Writes(cluster, m, keys, acts, n - 1), keys[n - 1];
      Put(before, k, Changed(cluster, Find(before, k), acts[n - 1]))
  }

  /** One operation on one key, or an MSET. */
  predicate OneCall(keys: seq<Str>, acts: seq<StoreAct>) {
    |keys| == |acts| > 0 && (|keys| == 1 || forall i :: 0 <= i < |acts| ==> acts[i].Set?)
  }

  predicate Enabled(s: State, t: nat, a: Action)
    requires t < |s.clients|
  {
    var c := s.clients[t];
    match a
    case CallSet(keys, acts) => c.Idle? && OneCall(keys, acts) && OneLock(s.cluster, keys)
    case LockSet =>
      c.WantSet? && |c.keys| > 0 &&
      forall u :: 0 <= u < |s.clients| ==> !Holds(s.cluster, s.clients[u], Slot(s.cluster, c))
    case SetKey => c.Setting? && c.i < |c.keys| == |c.acts|
    case ReturnSet => c.Setting? && c.i == |c.keys|
    case CallGet(keys) => c.Idle? && |keys| > 0 && OneLock(s.cluster, keys)
    case LockGet =>
      c.WantGet? && |c.keys| > 0 &&
      forall u :: 0 <= u < |s.clients| ==> !HoldsWrite(s.cluster, s.clients[u], Slot(s.cluster, c))
    case GetKey => c.Getting? && |c.got| < |c.keys|
    case ReturnGet => c.Getting? && |c.got| == |c.keys|
  }

  function Apply(s: State, t: nat, a: Action): State
    requires t < |s.clients| && Enabled(s, t, a)
  {
    var c := s.clients[t];
    match a
    case CallSet(keys, acts) => s.(clients := s.clients[t := WantSet(keys, acts)])
    case LockSet => s.(clients := s.clients[t := Setting(c.keys, c.acts, 0)])
    case SetKey =>
      var k := c.keys[c.i];
      s.(cells := Put(s.cells, k, Changed(s.cluster, Find(s.cells, k), c.acts[c.i])),
         clients := s.clients[t := c.(i := c.i + 1)])
    case ReturnSet => s.(log := s.log + [Entry(c.keys, c.acts)], clients := s.clients[t := Idle])
    case CallGet(keys) => s.(clients := s.clients[t := WantGet(keys, |s.log|)])
    case LockGet => s.(clients := s.clients[t := Getting(c.keys, c.called, |s.log|, [])])
    case GetKey => s.(clients := s.clients[t := c.(got := c.got + [TextOf(Find(s.cells, c.keys[|c.got|]))])])
    case ReturnGet =>
      s.(answers := s.answers + [Answer(c.keys, c.got, c.called, c.at, |s.log|)], clients := s.clients[t := Idle])
  }

  predicate Start(s: State) {
    && |s.cells| == 0 && |s.log| == 0 && |s.answers| == 0
    && forall t :: 0 <= t < |s.clients| ==> s.clients[t].Idle?
  }

  datatype Move = Move(t: nat, a: Action)

  predicate IsRun(s: State, moves: seq<Move>)
    decreases |moves|, 0
  {
    |moves| == 0 ||
    (var n := |moves| - 1;
     && IsRun(s, moves[..n])
     && moves[n].t < |After(s, moves[..n]).clients|
     && Enabled(After(s, moves[..n]), moves[n].t, moves[n].a))
  }

  function After(s: State, moves: seq<Move>): State
    requires IsRun(s, moves)
    decreases |moves|, 1
  {
    if |moves| == 0 then s else Apply(After(s, moves[..|moves| - 1]), moves[|moves| - 1].t, moves[|moves| - 1].a)
  }

  // ----- the reference: complete writers, one after the other

  predicate WellFormedLog(log: seq<Entry>) {
    forall i :: 0 <= i < |log| ==> |log[i].keys| == |log[i].acts|
  }

  /** The contents after the first `n` complete writers; inside an MSET the last write of a key wins. */
  function Replay(cluster: bool, log: seq<Entry>, n: nat): map<Str, Value>
    requires n <= |log| && WellFormedLog(log)
  {
    if n == 0 then map[]
    else Writes(cluster, Replay(cluster, log, n - 1), log[n - 1].keys, log[n - 1].acts, |log[n - 1].keys|)
  }

  lemma {:induction false} ReplaySame(cluster: bool, a: seq<Entry>, b: seq<Entry>, n: nat)
    requires n <= |a| <= |b| && WellFormedLog(a) && WellFormedLog(b) && a == b[..|a|]
    ensures Replay(cluster, a, n) == Replay(cluster, b, n)
  {
    if n > 0 {
      ReplaySame(cluster, a, b, n - 1);
      assert a[n - 1] == b[n - 1];
    }
  }

  lemma {:induction false} NoWrites(cluster: bool, m: map<Str, Value>, keys: seq<Str>, acts: seq<StoreAct>)
    requires |keys| == |acts|
    ensures Writes(cluster, m, keys, acts, 0) == m
  {
  }

  /** The last of the first `n` operations changes its own key only. */
  lemma {:induction false} LastOfWrites(cluster: bool, m: map<Str, Value>, keys: seq<Str>, acts: seq<StoreAct>, n: nat,
          k: Str)
    requires 0 < n <= |keys| == |acts|
    ensures
      var v := Find(Writes(cluster, m, keys, acts, n - 1), k);
      Find(Writes(cluster, m, keys, acts, n), k) == if k == keys[n - 1] then Changed(cluster, v, acts[n - 1]) else v
  {
    hide Changed, Find, Put;
    var before, key := Writes(cluster, m, keys, acts, n - 1), keys[n - 1];
    FindPut(before, key, Changed(cluster, Find(before, key), acts[n - 1]), k);
  }

  lemma {:induction false} WriteElsewhere(cluster: bool, m: map<Str, Value>, keys: seq<Str>, acts: seq<StoreAct>,
          n: nat, k: Str)
    requires n <= |keys| == |acts| && k !in keys
    ensures Find(Writes(cluster, m, keys, acts, n), k) == Find(m, k)
  {
    hide Changed, Find, Put;
    if n > 0 {
      WriteElsewhere(cluster, m, keys, acts, n - 1, k);
      LastOfWrites(cluster, m, keys, acts, n, k);
    }
  }

  lemma {:induction false} WriteSame(cluster: bool, a: map<Str, Value>, b: map<Str, Value>, keys: seq<Str>,
          acts: seq<StoreAct>, n: nat, k: Str)
    requires n <= |keys| == |acts| && Find(a, k) == Find(b, k)
    ensures Find(Writes(cluster, a, keys, acts, n), k) == Find(Writes(cluster, b, keys, acts, n), k)
  {
    hide Changed, Find, Put, Writes;
    if n == 0 {
      NoWrites(cluster, a, keys, acts);
      NoWrites(cluster, b, keys, acts);
    } else {
      WriteSame(cluster, a, b, keys, acts, n - 1, k);
      LastOfWrites(cluster, a, keys, acts, n, k);
      LastOfWrites(cluster, b, keys, acts, n, k);
    }
  }

  /** What a client's position says about the store and the log. */
  ghost predicate ClientOk(cluster: bool, c: Client, cells: map<Str, Value>, log: seq<Entry>)
    requires WellFormedLog(log)
  {
    && WellFormedClient(cluster, c)
    && (c.WantGet? ==> c.called <= |log|)
    && (c.Setting? ==> forall k :: LockFor(cluster, k) == Slot(cluster, c) ==>
          Find(cells, k) == Find(Writes(cluster, Replay(cluster, log, |log|), c.keys, c.acts, c.i), k))
    && (c.Getting? ==>
          && c.called <= c.at <= |log|
          && (forall k :: LockFor(cluster, k) == Slot(cluster, c) ==>
            Find(Replay(cluster, log, c.at), k) == Find(cells, k))
          && (forall j :: 0 <= j < |c.got| ==> c.got[j] == TextOf(Find(Replay(cluster, log, c.at), c.keys[j]))))
  }

  /** The answer is what the keys held between two complete writers, while the call was in progress. */
  predicate AnswerOk(cluster: bool, r: Answer, log: seq<Entry>)
    requires WellFormedLog(log)
  {
    && r.called <= r.at <= r.returned <= |log|
    && |r.got| == |r.keys|
    && forall j :: 0 <= j < |r.keys| ==> r.got[j] == TextOf(Find(Replay(cluster, log, r.at), r.keys[j]))
  }

  /** Nobody is writing the slot. */
  predicate Quiet(cluster: bool, clients: seq<Client>, slot: nat) {
    forall u :: 0 <= u < |clients| ==> !HoldsWrite(cluster, clients[u], slot)
  }

  ghost predicate Exclusive(cluster: bool, clients: seq<Client>) {
    forall t, u, slot :: 0 <= t < |clients| && 0 <= u < |clients| && t != u && HoldsWrite(cluster, clients[t], slot) ==>
      !Holds(cluster, clients[u], slot)
  }

  ghost predicate Inv(s: State) {
    && WellFormedLog(s.log)
    && Exclusive(s.cluster, s.clients)
    && (forall t :: 0 <= t < |s.clients| ==> ClientOk(s.cluster, s.clients[t], s.cells, s.log))
    && (forall k :: Quiet(s.cluster, s.clients, LockFor(s.cluster, k)) ==>
      Find(s.cells, k) == Find(Replay(s.cluster, s.log, |s.log|), k))
    && (forall i :: 0 <= i < |s.answers| ==> AnswerOk(s.cluster, s.answers[i], s.log))
  }

  // ----- every step keeps the invariant

  predicate Locks(c: Client) {
    c.Setting? || c.Getting?
  }

  lemma {:induction false} KeyOfClient(cluster: bool, c: Client, j: nat)
    requires WellFormedClient(cluster, c) && !c.Idle? && j < |c.keys|
    ensures LockFor(cluster, c.keys[j]) == Slot(cluster, c)
  {
    hide SlotForKey;
  }

  /** Writing a key of another slot does not concern a client. */
  lemma {:induction false} OtherAfterSet(cluster: bool, c: Client, cells: map<Str, Value>, log: seq<Entry>, k: Str,
          v: Option<Value>)
    requires WellFormedLog(log) && ClientOk(cluster, c, cells, log)
    requires Locks(c) ==> |c.keys| > 0 && Slot(cluster, c) != LockFor(cluster, k)
    ensures ClientOk(cluster, c, Put(cells, k, v), log)
  {
    hide LockFor, Replay, Writes;
  }

  lemma {:induction false} LogGrows(cluster: bool, log: seq<Entry>, e: Entry)
    requires WellFormedLog(log) && |e.keys| == |e.acts|
    ensures WellFormedLog(log + [e])
    ensures forall n :: 0 <= n <= |log| ==> Replay(cluster, log + [e], n) == Replay(cluster, log, n)
    ensures Replay(cluster, log + [e], |log| + 1) ==
      Writes(cluster, Replay(cluster, log, |log|), e.keys, e.acts, |e.keys|)
  {
    hide Writes;
    var log' := log + [e];
    forall n | 0 <= n <= |log| ensures Replay(cluster, log', n) == Replay(cluster, log, n) {
      ReplaySame(cluster, log, log', n);
    }
    assert log'[|log|] == e;
  }

  /** A key of another slot reads the same after the writer has completed. */
  lemma {:induction false} OtherSlotReads(cluster: bool, log: seq<Entry>, e: Entry, k: Str)
    requires WellFormedLog(log) && |e.keys| == |e.acts| > 0 && OneLock(cluster, e.keys) &&
      LockFor(cluster, k) != LockFor(cluster, e.keys[0])
    requires WellFormedLog(log + [e])
    ensures Find(Replay(cluster, log + [e], |log| + 1), k) == Find(Replay(cluster, log, |log|), k)
  {
    hide SlotForKey, Replay, Writes;
    LogGrows(cluster, log, e);
    WriteElsewhere(cluster, Replay(cluster, log, |log|), e.keys, e.acts, |e.keys|, k);
  }

  /** The completion of a writer in another slot does not concern a client. */
  lemma {:induction false} OtherAfterReturn(cluster: bool, c: Client, cells: map<Str, Value>, log: seq<Entry>, e: Entry)
    requires WellFormedLog(log) && ClientOk(cluster, c, cells, log)
    requires |e.keys| == |e.acts| > 0 && OneLock(cluster, e.keys)
    requires Locks(c) ==> |c.keys| > 0 && Slot(cluster, c) != LockFor(cluster, e.keys[0])
    ensures WellFormedLog(log + [e]) && ClientOk(cluster, c, cells, log + [e])
  {
    hide LockFor, Replay, Writes, OneLock;
    LogGrows(cluster, log, e);
    var log' := log + [e];
    if c.Setting? {
      forall k | LockFor(cluster, k) == Slot(cluster, c)
        ensures Find(cells, k) == Find(Writes(cluster, Replay(cluster, log', |log'|), c.keys, c.acts, c.i), k) {
        OtherSlotReads(cluster, log, e, k);
        WriteSame(cluster, Replay(cluster, log, |log|), Replay(cluster, log', |log'|), c.keys, c.acts, c.i, k);
      }
    }
  }

  lemma {:induction false} AnswerAfterReturn(cluster: bool, r: Answer, log: seq<Entry>, e: Entry)
    requires WellFormedLog(log) && AnswerOk(cluster, r, log) && |e.keys| == |e.acts|
    ensures WellFormedLog(log + [e]) && AnswerOk(cluster, r, log + [e])
  {
    hide Replay, Writes;
    LogGrows(cluster, log, e);
  }

  lemma {:induction false} HasKeys(cluster: bool, c: Client, cells: map<Str, Value>, log: seq<Entry>)
    requires WellFormedLog(log) && ClientOk(cluster, c, cells, log) && !c.Idle?
    ensures WellFormedClient(cluster, c) && |c.keys| > 0
  {
  }

  lemma {:induction false} OthersDiffer(s: State, t: nat, u: nat)
    requires Inv(s) && t < |s.clients| && u < |s.clients| && u != t && s.clients[t].Setting?
    ensures |s.clients[t].keys| > 0
    ensures Locks(s.clients[u]) ==>
      |s.clients[u].keys| > 0 && Slot(s.cluster, s.clients[u]) != Slot(s.cluster, s.clients[t])
  {
    hide LockFor, Replay, Writes, AnswerOk, ClientOk, OneLock;
    var c, d := s.clients[t], s.clients[u];
    assert ClientOk(s.cluster, c, s.cells, s.log) && ClientOk(s.cluster, d, s.cells, s.log);
    HasKeys(s.cluster, c, s.cells, s.log);
    if !d.Idle? { HasKeys(s.cluster, d, s.cells, s.log); }
    assert HoldsWrite(s.cluster, c, Slot(s.cluster, c));
  }

  /** Quiet slots stay quiet backwards when the client that moved was no writer before. */
  lemma {:induction false} QuietBefore(cluster: bool, clients: seq<Client>, t: nat, c: Client, slot: nat)
    requires t < |clients| && !HoldsWrite(cluster, clients[t], slot) && Quiet(cluster, clients[t := c], slot)
    ensures Quiet(cluster, clients, slot)
  {
    hide LockFor;
    forall u | 0 <= u < |clients| ensures !HoldsWrite(cluster, clients[u], slot) {
      assert !HoldsWrite(cluster, clients[t := c][u], slot);
    }
  }

  /** A step that only changes what one client, not a writer before, is doing. */
  lemma {:induction false} OnlyClientMoves(s: State, t: nat, c: Client)
    requires Inv(s) && t < |s.clients| && !s.clients[t].Setting?
    requires ClientOk(s.cluster, c, s.cells, s.log)
    requires forall slot :: Holds(s.cluster, c, slot) && !Holds(s.cluster, s.clients[t], slot) ==>
      Quiet(s.cluster, s.clients, slot)
    requires forall slot, u :: HoldsWrite(s.cluster, c, slot) && 0 <= u < |s.clients| ==>
      !Holds(s.cluster, s.clients[u], slot)
    ensures Inv(s.(clients := s.clients[t := c]))
  {
    hide LockFor, Replay, Writes, AnswerOk, ClientOk, Quiet;
    var s' := s.(clients := s.clients[t := c]);
    assert Exclusive(s.cluster, s'.clients) by { hide Inv; ExclusiveStep(s, t, c); }
    forall k | Quiet(s.cluster, s'.clients, LockFor(s.cluster, k))
      ensures Find(s.cells, k) == Find(Replay(s.cluster, s.log, |s.log|), k) {
      QuietBefore(s.cluster, s.clients, t, c, LockFor(s.cluster, k));
    }
  }

  lemma {:induction false} ExclusiveStep(s: State, t: nat, c: Client)
    requires Exclusive(s.cluster, s.clients) && t < |s.clients|
    requires forall slot :: Holds(s.cluster, c, slot) && !Holds(s.cluster, s.clients[t], slot) ==>
      Quiet(s.cluster, s.clients, slot)
    requires forall slot, u :: HoldsWrite(s.cluster, c, slot) && 0 <= u < |s.clients| && u != t ==>
      !Holds(s.cluster, s.clients[u], slot)
    ensures Exclusive(s.cluster, s.clients[t := c])
  {
    hide LockFor, Slot;
    var clients' := s.clients[t := c];
    forall x, y, slot | 0 <= x < |clients'| && 0 <= y < |clients'| && x != y && HoldsWrite(s.cluster, clients'[x], slot)
      ensures !Holds(s.cluster, clients'[y], slot) {
      if y == t {
        assert HoldsWrite(s.cluster, s.clients[x], slot);
        assert !Quiet(s.cluster, s.clients, slot) && !Holds(s.cluster, s.clients[t], slot);
      }
    }
  }

  lemma {:induction false} CallKeeps(s: State, t: nat, a: Action)
    requires Inv(s) && t < |s.clients| && Enabled(s, t, a) && (a.CallSet? || a.CallGet?)
    ensures Inv(Apply(s, t, a))
  {
    hide LockFor, Replay, Writes, AnswerOk, Exclusive, Quiet;
    OnlyClientMoves(s, t, Apply(s, t, a).clients[t]);
  }

  lemma {:induction false} LockSetKeeps(s: State, t: nat)
    requires Inv(s) && t < |s.clients| && Enabled(s, t, LockSet)
    ensures Inv(Apply(s, t, LockSet))
  {
    hide LockFor, Replay, AnswerOk, Exclusive;
    var c := s.clients[t];
    assert ClientOk(s.cluster, c, s.cells, s.log);
    assert Quiet(s.cluster, s.clients, Slot(s.cluster, c)) by {
      forall u | 0 <= u < |s.clients| ensures !HoldsWrite(s.cluster, s.clients[u], Slot(s.cluster, c)) {
        assert !Holds(s.cluster, s.clients[u], Slot(s.cluster, c));
      }
    }
    var c' := Setting(c.keys, c.acts, 0);
    assert forall slot :: Holds(s.cluster, c', slot) ==> slot == Slot(s.cluster, c);
    OnlyClientMoves(s, t, c');
  }

  lemma {:induction false} LockGetKeeps(s: State, t: nat)
    requires Inv(s) && t < |s.clients| && Enabled(s, t, LockGet)
    ensures Inv(Apply(s, t, LockGet))
  {
    hide LockFor, Replay, Writes, AnswerOk, Exclusive;
    var c := s.clients[t];
    assert ClientOk(s.cluster, c, s.cells, s.log);
    assert Quiet(s.cluster, s.clients, Slot(s.cluster, c));
    var c' := Getting(c.keys, c.called, |s.log|, []);
    assert forall slot :: Holds(s.cluster, c', slot) ==> slot == Slot(s.cluster, c);
    OnlyClientMoves(s, t, c');
  }

  /** The reader itself, after one more key. */
  lemma {:induction false} ReaderAfterGet(cluster: bool, c: Client, cells: map<Str, Value>, log: seq<Entry>)
    requires WellFormedLog(log) && ClientOk(cluster, c, cells, log) && c.Getting? && |c.got| < |c.keys|
    ensures ClientOk(cluster, c.(got := c.got + [TextOf(Find(cells, c.keys[|c.got|]))]), cells, log)
  {
    hide LockFor, Replay, Writes, Find, TextOf, OneLock;
    KeyOfClient(cluster, c, |c.got|);
  }

  lemma {:induction false} GetKeyKeeps(s: State, t: nat)
    requires Inv(s) && t < |s.clients| && Enabled(s, t, GetKey)
    ensures Inv(Apply(s, t, GetKey))
  {
    hide LockFor, Replay, Writes, AnswerOk, Exclusive, Quiet, ClientOk, Find, TextOf, Changed, Put;
    var c := s.clients[t];
    assert ClientOk(s.cluster, c, s.cells, s.log);
    ReaderAfterGet(s.cluster, c, s.cells, s.log);
    var c' := Apply(s, t, GetKey).clients[t];
    assert forall slot :: Holds(s.cluster, c', slot) ==> Holds(s.cluster, c, slot);
    OnlyClientMoves(s, t, c');
  }

  lemma {:induction false} ReturnGetKeeps(s: State, t: nat)
    requires Inv(s) && t < |s.clients| && Enabled(s, t, ReturnGet)
    ensures Inv(Apply(s, t, ReturnGet))
  {
    hide LockFor, Replay, Writes, Exclusive, Quiet;
    var c := s.clients[t];
    assert ClientOk(s.cluster, c, s.cells, s.log);
    OnlyClientMoves(s, t, Idle);
  }

  /** The writer itself, after one more key. */
  lemma {:induction false} WriterAfterSet(cluster: bool, c: Client, cells: map<Str, Value>, log: seq<Entry>)
    requires WellFormedLog(log) && ClientOk(cluster, c, cells, log) && c.Setting? && c.i < |c.keys|
    ensures
      var k := c.keys[c.i];
      ClientOk(cluster, c.(i := c.i + 1), Put(cells, k, Changed(cluster, Find(cells, k), c.acts[c.i])), log)
  {
    hide LockFor, Replay, OneLock;
  }

  lemma {:induction false} SetKeyKeeps(s: State, t: nat)
    requires Inv(s) && t < |s.clients| && Enabled(s, t, SetKey)
    ensures Inv(Apply(s, t, SetKey))
  {
    hide LockFor, Replay, Writes, AnswerOk, ClientOk, Slot, Quiet, Find, Put, Changed, TextOf, OneLock;
    var c := s.clients[t];
    var s' := Apply(s, t, SetKey);
    assert ClientOk(s.cluster, c, s.cells, s.log);
    HasKeys(s.cluster, c, s.cells, s.log);
    KeyOfClient(s.cluster, c, c.i);
    WriterAfterSet(s.cluster, c, s.cells, s.log);
    forall u | 0 <= u < |s.clients| ensures ClientOk(s.cluster, s'.clients[u], s'.cells, s'.log) {
      if u != t {
        OthersDiffer(s, t, u);
        OtherAfterSet(s.cluster, s.clients[u], s.cells, s.log, c.keys[c.i],
                      Changed(s.cluster, Find(s.cells, c.keys[c.i]), c.acts[c.i]));
      }
    }
    SameSlots(s.cluster, c, c.i + 1);
    forall k | Quiet(s.cluster, s'.clients, LockFor(s.cluster, k))
      ensures Find(s'.cells, k) == Find(Replay(s.cluster, s.log, |s.log|), k) {
      FindPut(s.cells, c.keys[c.i], Changed(s.cluster, Find(s.cells, c.keys[c.i]), c.acts[c.i]), k);
      WriterIsNotQuiet(s.cluster, s'.clients, t, LockFor(s.cluster, k));
      QuietBefore(s.cluster, s.clients, t, s'.clients[t], LockFor(s.cluster, k));
    }
  }

  lemma {:induction false} SameSlots(cluster: bool, c: Client, i: nat)
    requires c.Setting? && |c.keys| > 0
    ensures Slot(cluster, c.(i := i)) == Slot(cluster, c)
    ensures forall slot :: HoldsWrite(cluster, c.(i := i), slot) == HoldsWrite(cluster, c, slot)
    ensures forall slot :: Holds(cluster, c.(i := i), slot) == Holds(cluster, c, slot)
  {
    hide LockFor;
  }

  lemma {:induction false} WriterIsNotQuiet(cluster: bool, clients: seq<Client>, t: nat, slot: nat)
    requires t < |clients| && Quiet(cluster, clients, slot)
    ensures !HoldsWrite(cluster, clients[t], slot)
  {
  }

  lemma {:induction false} ReturnSetKeeps(s: State, t: nat)
    requires Inv(s) && t < |s.clients| && Enabled(s, t, ReturnSet)
    ensures Inv(Apply(s, t, ReturnSet))
  {
    hide LockFor, Replay, Writes, AnswerOk, ClientOk, Quiet, Find, Put, Changed, TextOf, OneLock;
    var c := s.clients[t];
    var e := Entry(c.keys, c.acts);
    var s' := Apply(s, t, ReturnSet);
    assert ClientOk(s.cluster, c, s.cells, s.log);
    HasKeys(s.cluster, c, s.cells, s.log);
    LogGrows(s.cluster, s.log, e);
    forall u | 0 <= u < |s.clients| ensures ClientOk(s.cluster, s'.clients[u], s'.cells, s'.log) {
      if u != t {
        OthersDiffer(s, t, u);
        OtherAfterReturn(s.cluster, s.clients[u], s.cells, s.log, e);
      } else {
        IdleIsOk(s.cluster, s.cells, s'.log);
      }
    }
    forall i | 0 <= i < |s.answers| ensures AnswerOk(s.cluster, s.answers[i], s'.log) {
      AnswerAfterReturn(s.cluster, s.answers[i], s.log, e);
    }
    forall k | Quiet(s.cluster, s'.clients, LockFor(s.cluster, k))
      ensures Find(s.cells, k) == Find(Replay(s.cluster, s'.log, |s'.log|), k) {
      if LockFor(s.cluster, k) == Slot(s.cluster, c) {
        WriterIsDone(s.cluster, c, s.cells, s.log, k);
      } else {
        QuietBefore(s.cluster, s.clients, t, Idle, LockFor(s.cluster, k));
        OtherSlotReads(s.cluster, s.log, e, k);
      }
    }
  }

  lemma {:induction false} IdleIsOk(cluster: bool, cells: map<Str, Value>, log: seq<Entry>)
    requires WellFormedLog(log)
    ensures ClientOk(cluster, Idle, cells, log)
  {
  }

  lemma {:induction false} WriterIsDone(cluster: bool, c: Client, cells: map<Str, Value>, log: seq<Entry>, k: Str)
    requires WellFormedLog(log) && c.Setting? && ClientOk(cluster, c, cells, log) && c.i == |c.keys| &&
      LockFor(cluster, k) == Slot(cluster, c)
    ensures Find(cells, k) == Find(Writes(cluster, Replay(cluster, log, |log|), c.keys, c.acts, |c.keys|), k)
  {
    hide LockFor, Replay, Writes;
  }

  lemma {:induction false} StepKeepsInv(s: State, t: nat, a: Action)
    requires Inv(s) && t < |s.clients| && Enabled(s, t, a)
    ensures Inv(Apply(s, t, a))
  {
    hide Inv, Enabled, Apply;
    match a
    case CallSet(_, _) => CallKeeps(s, t, a);
    case LockSet => LockSetKeeps(s, t);
    case SetKey => SetKeyKeeps(s, t);
    case ReturnSet => ReturnSetKeeps(s, t);
    case CallGet(_) => CallKeeps(s, t, a);
    case LockGet => LockGetKeeps(s, t);
    case GetKey => GetKeyKeeps(s, t);
    case ReturnGet => ReturnGetKeeps(s, t);
  }

  lemma {:induction false} RunKeepsInv(s: State, moves: seq<Move>)
    requires Start(s) && IsRun(s, moves)
    ensures Inv(After(s, moves))
  {
    hide Inv, Enabled, Apply, Start;
    if |moves| == 0 {
      StartInv(s);
    } else {
      var n := |moves| - 1;
      RunKeepsInv(s, moves[..n]);
      StepKeepsInv(After(s, moves[..n]), moves[n].t, moves[n].a);
    }
  }

  lemma {:induction false} StartInv(s: State)
    requires Start(s)
    ensures Inv(s)
  {
    hide LockFor;
  }

  /**
   In every interleaving, every completed MGET returned what its keys held after some number
   of complete writers, none half done, and that moment lies between its call and its return.
   */
  lemma {:induction false} MgetIsAtomic(s: State, moves: seq<Move>, i: nat)
    requires Start(s) && IsRun(s, moves) && i < |After(s, moves).answers|
    ensures
      var s' := After(s, moves);
      WellFormedLog(s'.log) && AnswerOk(s'.cluster, s'.answers[i], s'.log)
  {
    hide After, IsRun, Start, AnswerOk, ClientOk, Exclusive, Quiet;
    RunKeepsInv(s, moves);
  }

  /** When no call holds a lock, the store is exactly what the complete writers make of it. */
  lemma {:induction false} RestingStoreIsReplay(s: State, moves: seq<Move>, k: Str)
    requires Start(s) && IsRun(s, moves)
    requires forall t :: 0 <= t < |After(s, moves).clients| ==> !After(s, moves).clients[t].Setting?
    ensures
      var s' := After(s, moves);
      WellFormedLog(s'.log) && Find(s'.cells, k) == Find(Replay(s'.cluster, s'.log, |s'.log|), k)
  {
    hide After, IsRun, Start, AnswerOk, ClientOk, Exclusive, Replay, LockFor;
    RunKeepsInv(s, moves);
    assert Quiet(s.cluster, After(s, moves).clients, LockFor(s.cluster, k));
  }

  /** Inside an MSET the last value given for a key is the one that stays. */
  lemma {:induction false} LastWriteWins(cluster: bool, m: map<Str, Value>, keys: seq<Str>, acts: seq<StoreAct>, n: nat,
          j: nat)
    requires j < n <= |keys| == |acts| && acts[j].Set? && forall i :: j < i < n ==> keys[i] != keys[j]
    ensures Find(Writes(cluster, m, keys, acts, n), keys[j]) == Some(StrV(acts[j].value))
  {
    hide Changed, Find, Put, Writes;
    LastOfWrites(cluster, m, keys, acts, n, keys[j]);
    if j < n - 1 { LastWriteWins(cluster, m, keys, acts, n - 1, j); } else { SetChanges(cluster, acts[j]); }
  }

  lemma {:induction false} SetChanges(cluster: bool, a: StoreAct)
    requires a.Set?
    ensures forall v :: Changed(cluster, v, a) == Some(StrV(a.value))
  {
    hide ActOnList, ActOnHash, ActOnSet, ActOnZSet;
  }

  function Sets(values: seq<Str>): (r: seq<StoreAct>)
    ensures |r| == |values| && forall i :: 0 <= i < |r| ==> r[i] == Act.Set(values[i])
  {
    seq(|values|, i requires 0 <= i < |values| => Act.Set(values[i]))
  }

  /** An MSET, gone through key by key, writes what the store's Mset writes. */
  lemma {:induction false} MsetWrites(cluster: bool, m: map<Str, Value>, keys: seq<Str>, values: seq<Str>, n: nat)
    requires n <= |keys| == |values|
    ensures Writes(cluster, m, keys, Sets(values), n) == WriteAll(m, keys, values, n)
  {
    hide Changed;
    if n > 0 {
      MsetWrites(cluster, m, keys, values, n - 1);
      SetChanges(cluster, Sets(values)[n - 1]);
    }
  }

  /** A client that holds its lock can always move. */
  lemma {:induction false} HoldersProceed(s: State, t: nat)
    requires Inv(s) && t < |s.clients| && Locks(s.clients[t])
    ensures Enabled(s, t, SetKey) || Enabled(s, t, ReturnSet) || Enabled(s, t, GetKey) || Enabled(s, t, ReturnGet)
  {
    hide LockFor, Replay, AnswerOk, Exclusive, Quiet;
    assert ClientOk(s.cluster, s.clients[t], s.cells, s.log);
  }

  /** While any call is in progress, some call can move on. */
  lemma {:induction false} NoDeadlock(s: State, t: nat) returns (u: nat, a: Action)
    requires Inv(s) && t < |s.clients| && !s.clients[t].Idle?
    ensures u < |s.clients| && !s.clients[u].Idle? && Enabled(s, u, a)
  {
    hide LockFor, Replay, AnswerOk, ClientOk, Exclusive, Inv, Slot;
    var c := s.clients[t];
    OkOf(s, t);
    HasKeys(s.cluster, c, s.cells, s.log);
    u := t;
    if Locks(c) {
      a := MoveOf(s, t);
    } else if v :| 0 <= v < |s.clients| && Holds(s.cluster, s.clients[v], Slot(s.cluster, c)) {
      u := v;
      a := MoveOf(s, v);
    } else {
      a := if c.WantSet? then LockSet else LockGet;
    }
  }

  lemma {:induction false} OkOf(s: State, t: nat)
    requires Inv(s) && t < |s.clients|
    ensures WellFormedLog(s.log) && ClientOk(s.cluster, s.clients[t], s.cells, s.log)
  {
  }

  lemma {:induction false} MoveOf(s: State, t: nat) returns (a: Action)
    requires Inv(s) && t < |s.clients| && Locks(s.clients[t])
    ensures Enabled(s, t, a)
  {
    hide Inv;
    HoldersProceed(s, t);
    a := if Enabled(s, t, SetKey) then SetKey else if Enabled(s, t, ReturnSet) then ReturnSet
         else if Enabled(s, t, GetKey) then GetKey else ReturnGet;
  }
}
