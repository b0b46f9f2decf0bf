/**
 The double-buffered writer: one writer goroutine (which also closes the buffer)
 and one flusher goroutine share a back buffer under a mutex, and wake each other
 through two one-slot channels. The protocol is a state machine; one action is one
 step of one goroutine between two points where the other may run.
 */
module DoubleBuffer {
  import opened Bytes

  /** Where the writer goroutine is. `Test`, `Full` and `Appended` are inside the mutex. */
  datatype WriterPc =
    | Idle | Check | Lock | Test | Full | Blocked | Appended | Signal
    | CloseCheck | CloseChannel | CloseWait

  /** Where the flusher goroutine is. `Swap` and `Release` are inside the mutex. */
  datatype FlusherPc =
    | Wait | Acquire | Swap | Release | Notify | Measure | Flush | Stop | Exited

  datatype Owner = Free | Writer | Flusher

  /** The writer's locals: the bytes of this Write call not yet accepted, and totalWritten. */
  datatype WriterLocal = WriterLocal(pc: WriterPc, rest: Str, total: nat)

  /** The flusher's locals: frontBuffer, and how many of its bytes the sink has taken. */
  datatype FlusherLocal = FlusherLocal(pc: FlusherPc, front: Str, n: nat)

  /** What the goroutines share besides the back buffer. */
  datatype Flags = Flags(
    mutex: Owner,        // bufferMutex
    dataReady: bool,     // the slot of dataReadyFlag holds a token
    bufferReady: bool,   // the slot of bufferReadyFlag holds a token
    closed: bool,        // dataReadyFlag is closed
    cancelled: bool,     // the context is done
    failed: bool         // a sink write returned an error
  )

  /** What the caller and the sink have seen so far. */
  datatype History = History(
    sink: Str,           // bytes the underlying writer has received
    accepted: Str,       // bytes appended to the back buffer
    asked: Str,          // bytes passed to Write
    refused: bool,       // some Write call returned an error
    returned: nat        // sum of the byte counts returned by Write
  )

  datatype State = State(
    limit: nat,          // bufferLimit
    w: WriterLocal,
    f: FlusherLocal,
    back: Str,           // backBuffer
    flags: Flags,
    h: History
  )

  datatype Action =
    | BeginWrite(p: Str)       // the client calls Write
    | BeginClose               // the client calls Close
    | WriterStep               // the writer's next statement, where there is only one choice
    | WakeReady                // the blocked writer receives from bufferReadyFlag
    | WakeCancelled            // the blocked writer sees the cancelled context
    | FlusherStep              // the flusher's next statement, where there is only one choice
    | FlushOk                  // the sink takes the whole front buffer
    | FlushFail(k: nat)        // the sink takes k bytes and returns an error

  /** NewWriterSize; a Reset keeps bufferReadyFlag, so a stale token may be left in it. */
  function Start(limit: nat, staleToken: bool): State {
    State(limit, WriterLocal(Idle, [], 0), FlusherLocal(Wait, [], 0), [],
          Flags(Free, false, staleToken, false, false, false), History([], [], [], false, 0))
  }

  /** How much of a Write goes to writeChunk next: a whole short write, or limit bytes of a long one. */
  function ChunkSize(s: State): (k: nat)
    ensures k <= |s.w.rest| && k <= s.limit
  {
    if |s.w.rest| > s.limit then s.limit else |s.w.rest|
  }

  predicate Enabled(s: State, a: Action) {
    match a
    case BeginWrite(_) => s.w.pc.Idle?
    case BeginClose => s.w.pc.Idle?
    case WriterStep =>
      && !s.w.pc.Idle? && !s.w.pc.Blocked?
      && (s.w.pc.Lock? ==> s.flags.mutex.Free?)
      && (s.w.pc.CloseWait? ==> s.flags.cancelled)
    case WakeReady => s.w.pc.Blocked? && s.flags.bufferReady
    case WakeCancelled => s.w.pc.Blocked? && s.flags.cancelled
    case FlusherStep =>
      && !s.f.pc.Flush? && !s.f.pc.Exited?
      && (s.f.pc.Wait? ==> s.flags.dataReady || s.flags.closed)
      && (s.f.pc.Acquire? ==> s.flags.mutex.Free?)
    case FlushOk => s.f.pc.Flush?
    case FlushFail(k) => s.f.pc.Flush? && k <= |s.f.front|
  }

  /** Write returns an error; the chunks accepted before it are still counted. */
  function Refuse(s: State): State {
    s.(w := WriterLocal(Idle, [], 0),
       h := s.h.(refused := true, returned := s.h.returned + s.w.total))
  }

  /** writeChunk returned `k` bytes: Write goes on with the next chunk or returns. */
  function ChunkDone(s: State, k: nat): State
    requires k <= |s.w.rest|
  {
    if k == |s.w.rest| then
      s.(w := WriterLocal(Idle, [], 0), h := s.h.(returned := s.h.returned + s.w.total + k))
    else
      s.(w := WriterLocal(Check, s.w.rest[k..], s.w.total + k))
  }

  function AtWriter(s: State, pc: WriterPc, flags: Flags): State {
    s.(w := s.w.(pc := pc), flags := flags)
  }

  function AppendChunk(s: State): State {
    var c := s.w.rest[..ChunkSize(s)];
    s.(w := s.w.(pc := Appended), back := s.back + c, h := s.h.(accepted := s.h.accepted + c))
  }

  function WriterNext(s: State): State
    requires Enabled(s, WriterStep)
  {
    match s.w.pc
    case Check =>
      if s.flags.cancelled then Refuse(s)
      else if ChunkSize(s) == 0 then ChunkDone(s, 0)
      else AtWriter(s, Lock, s.flags)
    case Lock => AtWriter(s, Test, s.flags.(mutex := Writer))
    case Test =>
      if |s.back| + ChunkSize(s) > s.limit then AtWriter(s, Full, s.flags) else AppendChunk(s)
    case Full => AtWriter(s, Blocked, s.flags.(mutex := Free))
    case Appended => AtWriter(s, Signal, s.flags.(mutex := Free))
    case Signal => ChunkDone(s.(flags := s.flags.(dataReady := true)), ChunkSize(s))
    case CloseCheck => AtWriter(s, if s.flags.cancelled then Idle else CloseChannel, s.flags)
    case CloseChannel => AtWriter(s, CloseWait, s.flags.(closed := true))
    case CloseWait => AtWriter(s, Idle, s.flags)
  }

  function AtFlusher(s: State, pc: FlusherPc, flags: Flags): State {
    s.(f := s.f.(pc := pc), flags := flags)
  }

  function FlusherNext(s: State): State
    requires Enabled(s, FlusherStep)
  {
    match s.f.pc
    case Wait =>
      if s.flags.dataReady then AtFlusher(s, Acquire, s.flags.(dataReady := false))
      else AtFlusher(s, Stop, s.flags)
    case Acquire => AtFlusher(s, Swap, s.flags.(mutex := Flusher))
    case Swap => s.(f := FlusherLocal(Release, s.back, 0), back := [])
    case Release => AtFlusher(s, Notify, s.flags.(mutex := Free))
    case Notify => AtFlusher(s, Measure, s.flags.(bufferReady := true))
    case Measure => AtFlusher(s, if |s.f.front| == 0 then Wait else Flush, s.flags)
    case Stop => AtFlusher(s, Exited, s.flags.(cancelled := true))
  }

  function Apply(s: State, a: Action): State
    requires Enabled(s, a)
  {
    match a
    case BeginWrite(p) => s.(w := WriterLocal(Check, p, 0), h := s.h.(asked := s.h.asked + p))
    case BeginClose => AtWriter(s, CloseCheck, s.flags)
    case WriterStep => WriterNext(s)
    case WakeReady => AtWriter(s, Check, s.flags.(bufferReady := false))
    case WakeCancelled => Refuse(s)
    case FlusherStep => FlusherNext(s)
    case FlushOk =>
      s.(f := s.f.(pc := Wait, n := |s.f.front|), h := s.h.(sink := s.h.sink + s.f.front))
    case FlushFail(k) =>
      s.(f := s.f.(pc := Stop, n := k), h := s.h.(sink := s.h.sink + s.f.front[..k]),
         flags := s.flags.(failed := true, cancelled := true))
  }

  /** `acts` is an interleaving that can happen from `s`. */
  predicate IsRun(s: State, acts: seq<Action>)
    decreases |acts|
  {
    |acts| == 0 || (Enabled(s, acts[0]) && IsRun(Apply(s, acts[0]), acts[1..]))
  }

  function Run(s: State, acts: seq<Action>): State
    requires IsRun(s, acts)
    decreases |acts|
  {
    if |acts| == 0 then s else Run(Apply(s, acts[0]), acts[1..])
  }

  // ----- what every step keeps

  /** Order and conservation of bytes: everything accepted is in the sink or still buffered. */
  ghost predicate BytesInOrder(s: State) {
    && s.f.n <= |s.f.front|
    && s.h.accepted == s.h.sink + s.f.front[s.f.n..] + s.back
    && |s.back| <= s.limit
  }

  /** The flusher writes a buffer out completely before it takes the next one. */
  ghost predicate FlushedInTurn(s: State) {
    && s.f.n <= |s.f.front|
    && (s.f.pc.Wait? || s.f.pc.Acquire? || s.f.pc.Swap? ==> s.f.n == |s.f.front|)
    && (s.f.pc.Release? || s.f.pc.Notify? || s.f.pc.Measure? || s.f.pc.Flush? ==> s.f.n == 0)
    && ((s.f.pc.Stop? || s.f.pc.Exited?) && !s.flags.failed ==> s.f.n == |s.f.front|)
  }

  /** The mutex is held exactly by the goroutine inside a critical section. */
  ghost predicate MutexExclusive(s: State) {
    && (s.flags.mutex.Writer? <==> s.w.pc.Test? || s.w.pc.Full? || s.w.pc.Appended?)
    && (s.flags.mutex.Flusher? <==> s.f.pc.Swap? || s.f.pc.Release?)
  }

  /** The chunk is in the back buffer and Write has not moved on yet. */
  predicate Delivered(s: State) {
    s.w.pc.Appended? || s.w.pc.Signal?
  }

  /** How many bytes of `rest` are already in the back buffer. */
  function InBuffer(s: State): (k: nat)
    ensures k <= |s.w.rest|
  {
    if Delivered(s) then ChunkSize(s) else 0
  }

  ghost predicate WriterLocals(s: State) {
    && (s.w.pc.Lock? || s.w.pc.Test? || s.w.pc.Full? || s.w.pc.Blocked? || Delivered(s)
        ==> ChunkSize(s) > 0)
    && (s.w.pc.Idle? || s.w.pc.CloseCheck? || s.w.pc.CloseChannel? || s.w.pc.CloseWait?
        ==> |s.w.rest| == 0 && s.w.total == 0)
  }

  /** The counts Write returns add up, and bytes are accepted in the order they were asked for. */
  ghost predicate Accounted(s: State) {
    && s.h.returned + s.w.total + InBuffer(s) == |s.h.accepted|
    && (!s.h.refused ==> s.h.asked == s.h.accepted + s.w.rest[InBuffer(s)..])
  }

  /** After the first refusal the context stays done, so no later call gets past its first check. */
  ghost predicate RefusedForGood(s: State) {
    s.h.refused ==>
      s.flags.cancelled && s.h.accepted <= s.h.asked && (s.w.pc.Idle? || s.w.pc.Check? || s.w.pc.CloseCheck?)
  }

  /** Buffered bytes always have somebody about to move them. */
  ghost predicate NoLostData(s: State) {
    |s.back| > 0 ==>
      s.flags.dataReady || s.f.pc.Acquire? || s.f.pc.Swap? || Delivered(s) || s.flags.failed
  }

  /** A writer that found the buffer full is woken again once there is room. */
  ghost predicate NoLostSpace(s: State) {
    (s.w.pc.Full? || s.w.pc.Blocked?) && !s.flags.bufferReady ==>
      |s.back| + ChunkSize(s) > s.limit || s.f.pc.Release? || s.f.pc.Notify?
  }

  ghost predicate Lifecycle(s: State) {
    var g := s.flags;
    && (g.closed ==> s.w.pc.CloseWait? || g.cancelled)
    && (g.closed ==> s.w.pc.CloseWait? || s.w.pc.Idle? || s.w.pc.Check? || s.w.pc.CloseCheck?)
    && (g.failed ==> (s.f.pc.Stop? || s.f.pc.Exited?) && g.cancelled)
    && (s.f.pc.Exited? ==> g.cancelled)
    && (g.cancelled ==> g.failed || s.f.pc.Exited?)
    && ((s.f.pc.Stop? || s.f.pc.Exited?) && !g.failed ==>
          g.closed && !g.dataReady && |s.back| == 0)
    && (s.w.pc.CloseWait? ==> g.closed)
  }

  ghost predicate Inv(s: State) {
    && BytesInOrder(s)
    && FlushedInTurn(s)
    && MutexExclusive(s)
    && WriterLocals(s)
    && Accounted(s)
    && RefusedForGood(s)
    && NoLostData(s)
    && NoLostSpace(s)
    && Lifecycle(s)
  }

  lemma {:induction false} StartInv(limit: nat, staleToken: bool)
    ensures Inv(Start(limit, staleToken))
  {
  }

  lemma {:induction false} WriterKeepsBytes(s: State)
    requires BytesInOrder(s) && Enabled(s, WriterStep)
    ensures BytesInOrder(WriterNext(s))
  {
  }

  lemma {:induction false} StepKeepsBytes(s: State, a: Action)
    requires BytesInOrder(s) && FlushedInTurn(s) && Enabled(s, a)
    ensures BytesInOrder(Apply(s, a))
  {
    var front := s.f.front;
    match a {
      case WriterStep => WriterKeepsBytes(s);
      case FlusherStep => if s.f.pc.Swap? { assert front[s.f.n..] == [] && s.back[0..] == s.back; }
      case FlushOk => assert front[0..] == front && front[|front|..] == [];
      case FlushFail(k) => assert front[0..] == front[..k] + front[k..];
      case _ =>
    }
  }

  lemma {:induction false} StepKeepsTurn(s: State, a: Action)
    requires FlushedInTurn(s) && Lifecycle(s) && Enabled(s, a)
    ensures FlushedInTurn(Apply(s, a))
  {
  }

  lemma {:induction false} WriterKeepsMutex(s: State)
    requires MutexExclusive(s) && Enabled(s, WriterStep)
    ensures MutexExclusive(WriterNext(s))
  {
  }

  lemma {:induction false} StepKeepsMutex(s: State, a: Action)
    requires MutexExclusive(s) && Enabled(s, a)
    ensures MutexExclusive(Apply(s, a))
  {
    if a.WriterStep? { WriterKeepsMutex(s); }
  }

  lemma {:induction false} StepKeepsLocals(s: State, a: Action)
    requires WriterLocals(s) && Enabled(s, a)
    ensures WriterLocals(Apply(s, a))
  {
  }

  lemma {:induction false} WriterKeepsAccounts(s: State)
    requires WriterLocals(s) && Accounted(s) && Enabled(s, WriterStep)
    ensures Accounted(WriterNext(s))
  {
    var r, k := s.w.rest, ChunkSize(s);
    match s.w.pc {
      case Check => assert r[0..] == r;
      case Test => assert r[0..] == r[..k] + r[k..];
      case Signal => assert r[k..][0..] == r[k..];
      case _ =>
    }
  }

  lemma {:induction false} FlusherKeepsAccounts(s: State)
    requires Accounted(s) && Enabled(s, FlusherStep)
    ensures Accounted(FlusherNext(s))
  {
  }

  lemma {:induction false} StepKeepsAccounts(s: State, a: Action)
    requires WriterLocals(s) && Accounted(s) && Enabled(s, a)
    ensures Accounted(Apply(s, a))
  {
    hide WriterNext, FlusherNext;
    match a {
      case BeginWrite(p) => assert s.w.rest[0..] == [] && p[0..] == p;
      case WriterStep => WriterKeepsAccounts(s);
      case FlusherStep => FlusherKeepsAccounts(s);
      case _ =>
    }
  }

  lemma {:induction false} StepKeepsRefusal(s: State, a: Action)
    requires RefusedForGood(s) && Accounted(s) && Enabled(s, a)
    ensures RefusedForGood(Apply(s, a))
  {
  }

  lemma {:induction false} StepKeepsData(s: State, a: Action)
    requires NoLostData(s) && Lifecycle(s) && Enabled(s, a)
    ensures NoLostData(Apply(s, a))
  {
  }

  lemma {:induction false} StepKeepsSpace(s: State, a: Action)
    requires NoLostSpace(s) && MutexExclusive(s) && Enabled(s, a)
    ensures NoLostSpace(Apply(s, a))
  {
  }

  lemma {:induction false} StepKeepsLifecycle(s: State, a: Action)
    requires Lifecycle(s) && NoLostData(s) && Enabled(s, a)
    ensures Lifecycle(Apply(s, a))
  {
  }

  /** Every step of either goroutine keeps the whole invariant. */
  lemma {:induction false} StepKeepsInv(s: State, a: Action)
    requires Inv(s) && Enabled(s, a)
    ensures Inv(Apply(s, a))
  {
    StepKeepsBytes(s, a);
    StepKeepsTurn(s, a);
    StepKeepsMutex(s, a);
    StepKeepsLocals(s, a);
    StepKeepsAccounts(s, a);
    StepKeepsRefusal(s, a);
    StepKeepsData(s, a);
    StepKeepsSpace(s, a);
    StepKeepsLifecycle(s, a);
  }

  lemma {:induction false} RunKeepsInv(s: State, acts: seq<Action>)
    requires Inv(s) && IsRun(s, acts)
    ensures Inv(Run(s, acts))
    decreases |acts|
  {
    if |acts| > 0 {
      StepKeepsInv(s, acts[0]);
      RunKeepsInv(Apply(s, acts[0]), acts[1..]);
    }
  }

  // ----- safety over whole runs

  /**
   In every interleaving the accepted bytes are the sink, the unwritten rest of the front
   buffer and the back buffer in that order, also after a partial failing sink write; the
   back buffer respects its limit; and what was accepted is a prefix of what was asked for.
   */
  lemma {:induction false} BytesAreNeverLostOrReordered(limit: nat, staleToken: bool, acts: seq<Action>)
    requires IsRun(Start(limit, staleToken), acts)
    ensures
      var s := Run(Start(limit, staleToken), acts);
      && s.f.n <= |s.f.front|
      && s.h.accepted == s.h.sink + s.f.front[s.f.n..] + s.back
      && s.h.sink <= s.h.accepted
      && |s.back| <= limit
      && s.h.accepted <= s.h.asked
      && (s.w.pc.Idle? ==> s.h.returned == |s.h.accepted|)
      && (s.w.pc.Idle? && !s.flags.cancelled ==> s.h.accepted == s.h.asked)
  {
    StartInv(limit, staleToken);
    RunKeepsInv(Start(limit, staleToken), acts);
    RunKeepsLimit(Start(limit, staleToken), acts);
  }

  lemma {:induction false} RunKeepsLimit(s: State, acts: seq<Action>)
    requires IsRun(s, acts)
    ensures Run(s, acts).limit == s.limit
    decreases |acts|
  {
    if |acts| > 0 { RunKeepsLimit(Apply(s, acts[0]), acts[1..]); }
  }

  /** No run sends on the closed channel, closes it twice, or has both goroutines in the mutex. */
  lemma {:induction false} NoPanic(limit: nat, staleToken: bool, acts: seq<Action>)
    requires IsRun(Start(limit, staleToken), acts)
    ensures
      var s := Run(Start(limit, staleToken), acts);
      && (s.w.pc.Signal? || s.w.pc.CloseChannel? ==> !s.flags.closed)
      && !((s.w.pc.Test? || s.w.pc.Full? || s.w.pc.Appended?) && (s.f.pc.Swap? || s.f.pc.Release?))
  {
    StartInv(limit, staleToken);
    RunKeepsInv(Start(limit, staleToken), acts);
  }

  /**
   Close drains: once the flusher has left its loop and no sink write failed, the sink holds
   every accepted byte, and while Close waits that is every byte ever passed to Write.
   */
  lemma {:induction false} CloseDrains(limit: nat, staleToken: bool, acts: seq<Action>)
    requires IsRun(Start(limit, staleToken), acts)
    ensures
      var s := Run(Start(limit, staleToken), acts);
      (s.f.pc.Stop? || s.f.pc.Exited?) && !s.flags.failed ==>
        && s.h.sink == s.h.accepted
        && (s.w.pc.CloseWait? ==> s.h.sink == s.h.asked)
  {
    StartInv(limit, staleToken);
    RunKeepsInv(Start(limit, staleToken), acts);
    var s := Run(Start(limit, staleToken), acts);
    if (s.f.pc.Stop? || s.f.pc.Exited?) && !s.flags.failed {
      assert s.back == [] && s.f.front[s.f.n..] == [];
    }
  }

  // ----- progress under every scheduler

  /** A step that either goroutine could take while the writer is inside a call. */
  function SomeStep(s: State): Action {
    if s.w.pc.Blocked? && s.flags.bufferReady then WakeReady
    else if s.w.pc.Blocked? && s.flags.cancelled then WakeCancelled
    else if Enabled(s, WriterStep) then WriterStep
    else if s.f.pc.Flush? then FlushOk
    else FlusherStep
  }

  /** No deadlock: whenever the writer is inside Write or Close, one of the two can move. */
  lemma {:induction false} NoDeadlock(s: State)
    requires Inv(s) && !s.w.pc.Idle?
    ensures Enabled(s, SomeStep(s))
  {
  }

  function WriterRank(pc: WriterPc): nat {
    match pc
    case Check => 4
    case Lock => 3
    case Test => 2
    case Full => 1
    case Blocked => 0
    case Appended => 1
    case Signal => 0
    case CloseCheck => 3
    case CloseChannel => 2
    case CloseWait => 1
    case Idle => 0
  }

  function FlusherRank(pc: FlusherPc): nat {
    match pc
    case Exited => 0
    case Stop => 1
    case Wait => 2
    case Flush => 3
    case Measure => 4
    case Notify => 10
    case Release => 11
    case Swap => 12
    case Acquire => 13
  }

  /**
   How many more steps the two goroutines together can take before the current call returns.
   A stale bufferReadyFlag token costs one more trip around writeChunk's loop.
   */
  function Rank(s: State): nat {
    40 * |s.w.rest| + WriterRank(s.w.pc) + FlusherRank(s.f.pc)
    + (if s.flags.bufferReady then 5 else 0) + (if s.flags.dataReady then 12 else 0)
  }

  /** Every step inside a call, by either goroutine and with any sink outcome, makes progress. */
  lemma {:induction false} StepDecreasesRank(s: State, a: Action)
    requires Inv(s) && s.limit > 0 && !s.w.pc.Idle? && Enabled(s, a)
    ensures Apply(s, a).w.pc.Idle? || Rank(Apply(s, a)) < Rank(s)
  {
  }

  /**
   Write and Close finish under every scheduler: a call that has begun returns within
   Rank(s) steps of the two goroutines, whichever of them is scheduled.
   */
  lemma {:induction false} CallsFinish(s: State, acts: seq<Action>) returns (i: nat)
    requires Inv(s) && s.limit > 0 && !s.w.pc.Idle?
    requires IsRun(s, acts) && |acts| > Rank(s)
    ensures i <= Rank(s) + 1 && IsRun(s, acts[..i]) && Run(s, acts[..i]).w.pc.Idle?
    decreases |acts|
  {
    var t := Apply(s, acts[0]);
    StepKeepsInv(s, acts[0]);
    StepDecreasesRank(s, acts[0]);
    if t.w.pc.Idle? {
      i := 1;
      assert acts[..1][1..] == [];
    } else {
      i := CallsFinish(t, acts[1..]);
      i := i + 1;
      assert acts[..i][1..] == acts[1..][..i - 1];
    }
  }

  /** A buffer of size zero accepts nothing, so Write of a nonempty slice can never succeed. */
  lemma {:induction false} ZeroLimitAcceptsNothing(s: State, acts: seq<Action>)
    requires Inv(s) && s.limit == 0 && s.h.accepted == [] && IsRun(s, acts)
    ensures Run(s, acts).h.accepted == [] && Run(s, acts).h.returned == 0
    decreases |acts|
  {
    if |acts| > 0 {
      StepKeepsInv(s, acts[0]);
      ZeroLimitAcceptsNothing(Apply(s, acts[0]), acts[1..]);
    }
  }

  // ----- what a returned call and a resting flusher mean

  /** The run leads to the first moment at which the writer is outside any call. */
  predicate ReturnsWith(s: State, acts: seq<Action>)
    decreases |acts|
  {
    if |acts| == 0 then s.w.pc.Idle?
    else !s.w.pc.Idle? && Enabled(s, acts[0]) && ReturnsWith(Apply(s, acts[0]), acts[1..])
  }

  lemma {:induction false} ReturnIsRun(s: State, acts: seq<Action>)
    requires ReturnsWith(s, acts)
    ensures IsRun(s, acts) && Run(s, acts).w.pc.Idle?
    decreases |acts|
  {
    if |acts| > 0 { ReturnIsRun(Apply(s, acts[0]), acts[1..]); }
  }

  predicate Closing(s: State) {
    s.w.pc.CloseCheck? || s.w.pc.CloseChannel? || s.w.pc.CloseWait?
  }

  /** A Close that returns has seen the context done, and its own call ran only through Close. */
  lemma {:induction false} CloseStep(s: State, a: Action)
    requires Closing(s) && Enabled(s, a)
    ensures var t := Apply(s, a); Closing(t) || (t.w.pc.Idle? && t.flags.cancelled)
    ensures Apply(s, a).h.refused == s.h.refused && Apply(s, a).h.asked == s.h.asked
    ensures Apply(s, a).h.accepted == s.h.accepted
  {
  }

  /** The flusher has come to its end, and without a failing sink write the sink has every accepted byte. */
  ghost predicate Drained(s: State) {
    && s.flags.cancelled
    && (!s.flags.failed ==> s.f.pc.Exited? && s.h.sink == s.h.accepted && (!s.h.refused ==> s.h.sink == s.h.asked))
  }

  lemma {:induction false} CancelledIsDrained(s: State)
    requires Inv(s) && s.w.pc.Idle? && s.flags.cancelled
    ensures Drained(s)
  {
    if !s.flags.failed { assert s.back == [] && s.f.front[s.f.n..] == []; }
  }

  /** Whatever the flusher was doing when Close was called, a Close that returns leaves everything drained. */
  lemma {:induction false} CloseReturnsDrained(s: State, acts: seq<Action>)
    requires Inv(s) && ReturnsWith(s, acts) && (Closing(s) || (s.w.pc.Idle? && s.flags.cancelled))
    ensures
      IsRun(s, acts) && var t := Run(s, acts);
      Drained(t) && t.h.accepted == s.h.accepted && t.h.asked == s.h.asked && t.h.refused == s.h.refused
    decreases |acts|
  {
    hide Inv;
    if |acts| == 0 {
      CancelledIsDrained(s);
    } else {
      CloseStep(s, acts[0]);
      StepKeepsInv(s, acts[0]);
      CloseReturnsDrained(Apply(s, acts[0]), acts[1..]);
    }
  }

  /** Under every scheduler a Close that has begun returns, within Rank(s) steps of the two goroutines, and drained. */
  lemma {:induction false} CloseFinishesDrained(s: State, acts: seq<Action>) returns (i: nat)
    requires Inv(s) && s.limit > 0 && Closing(s) && IsRun(s, acts) && |acts| > Rank(s)
    ensures i <= Rank(s) + 1 && i <= |acts| && ReturnsWith(s, acts[..i])
    ensures IsRun(s, acts[..i]) && Drained(Run(s, acts[..i]))
    decreases |acts|
  {
    i := FirstReturn(s, acts);
    CloseReturnsDrained(s, acts[..i]);
  }

  lemma {:induction false} FirstReturn(s: State, acts: seq<Action>) returns (i: nat)
    requires Inv(s) && s.limit > 0 && !s.w.pc.Idle? && IsRun(s, acts) && |acts| > Rank(s)
    ensures i <= Rank(s) + 1 && i <= |acts| && ReturnsWith(s, acts[..i])
    decreases |acts|
  {
    hide Inv, Rank;
    var t := Apply(s, acts[0]);
    StepKeepsInv(s, acts[0]);
    StepDecreasesRank(s, acts[0]);
    StepKeepsLimit(s, acts[0]);
    if t.w.pc.Idle? {
      i := 1;
      assert acts[..1][1..] == [];
    } else {
      i := FirstReturn(t, acts[1..]);
      i := i + 1;
      assert acts[..i][1..] == acts[1..][..i - 1];
    }
  }

  lemma {:induction false} StepKeepsLimit(s: State, a: Action)
    requires Enabled(s, a)
    ensures Apply(s, a).limit == s.limit
  {
  }

  predicate FlusherMove(a: Action) {
    a.FlusherStep? || a.FlushOk? || a.FlushFail?
  }

  /** Left alone, the flusher comes to rest within Rank(s) steps. */
  lemma {:induction false} FlusherComesToRest(s: State, acts: seq<Action>)
    requires IsRun(s, acts) && forall k :: 0 <= k < |acts| ==> FlusherMove(acts[k])
    ensures |acts| <= Rank(s)
    decreases |acts|
  {
    if |acts| > 0 {
      FlusherMoveDecreases(s, acts[0]);
      FlusherComesToRest(Apply(s, acts[0]), acts[1..]);
    }
  }

  lemma {:induction false} FlusherMoveDecreases(s: State, a: Action)
    requires Enabled(s, a) && FlusherMove(a)
    ensures Rank(Apply(s, a)) < Rank(s)
  {
  }

  /** Where it rests while no call is in progress and the sink works, every byte ever passed to Write is in the sink. */
  lemma {:induction false} RestMeansFlushed(s: State)
    requires Inv(s) && s.w.pc.Idle? && !s.flags.failed && forall a :: FlusherMove(a) ==> !Enabled(s, a)
    ensures s.h.sink == s.h.accepted && (!s.h.refused ==> s.h.sink == s.h.asked)
  {
    assert !Enabled(s, FlusherStep) && !Enabled(s, FlushOk);
    assert s.back == [] && s.f.front[s.f.n..] == [];
  }

  /** A Write of at most `limit` bytes enters the buffer in one piece, a longer one in pieces of `limit` bytes. */
  lemma {:induction false} ChunksAreWhole(s: State, a: Action)
    requires Enabled(s, a)
    ensures
      var more := Apply(s, a).h.accepted;
      || more == s.h.accepted
      || (|s.w.rest| <= s.limit && more == s.h.accepted + s.w.rest)
      || (|s.w.rest| > s.limit && more == s.h.accepted + s.w.rest[..s.limit])
  {
  }
}
