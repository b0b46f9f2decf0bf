/**
 The coordinator of a rebalance: for every slot that moves it tells the target, the source
 and then every other node, one command at a time, and stops at the first error or lost
 reply. What each server serves after any number of commands is the subject here.
 */
module MoveSlots {
  import opened Bytes
  import opened Slots
  import opened Bitmap
  import opened ClusterState
  import opened Rebalance

  /** A command for one server. */
  datatype Cmd = Cmd(server: nat, what: SetSlot)

  /** One slot on its way; the other nodes are told in some order. */
  datatype Job = Job(src: nat, dst: nat, slot: nat, others: seq<nat>)

  predicate ValidJob(j: Job, n: nat) {
    j.src < n && j.dst < n && j.src != j.dst && j.slot < SLOTS &&
      forall i :: 0 <= i < |j.others| ==> OtherOf(j, n, j.others[i])
  }

  predicate OtherOf(j: Job, n: nat, o: nat) {
    o < n && o != j.src && o != j.dst
  }

  function TellOthers(names: seq<Str>, j: Job, k: nat): (r: seq<Cmd>)
    requires ValidJob(j, |names|) && k <= |j.others|
    ensures |r| == k
  {
    if k == 0 then [] else TellOthers(names, j, k - 1) + [Cmd(j.others[k - 1], Assign(j.slot, names[j.dst]))]
  }

  /** The commands clusterMoveSlots sends for one slot without keys. A slot with keys ends the run after the second. */
  function Block(names: seq<Str>, j: Job): (r: seq<Cmd>)
    requires ValidJob(j, |names|)
  {
    [Cmd(j.dst, Import(j.slot, names[j.src])),
     Cmd(j.src, Migrate(j.slot, names[j.dst])),
     Cmd(j.dst, Assign(j.slot, names[j.dst])),
     Cmd(j.src, Assign(j.slot, names[j.dst]))] + TellOthers(names, j, |j.others|)
  }

  predicate ValidJobs(jobs: seq<Job>, n: nat) {
    forall i :: 0 <= i < |jobs| ==> ValidJob(jobs[i], n)
  }

  /** All commands of the first `k` slots. */
  function Script(names: seq<Str>, jobs: seq<Job>, k: nat): seq<Cmd>
    requires ValidJobs(jobs, |names|) && k <= |jobs|
  {
    if k == 0 then [] else Script(names, jobs, k - 1) + Block(names, jobs[k - 1])
  }

  predicate ForServers(cmds: seq<Cmd>, n: nat) {
    forall i :: 0 <= i < |cmds| ==> cmds[i].server < n
  }

  /** What the servers serve after the first `p` commands. */
  function Exec(served: seq<set<nat>>, names: seq<Str>, cmds: seq<Cmd>, p: nat): (r: seq<set<nat>>)
    requires |served| == |names| && ForServers(cmds, |names|) && p <= |cmds|
    ensures |r| == |served|
  {
    if p == 0 then served
    else
      var before := Exec(served, names, cmds, p - 1);
      var c := cmds[p - 1];
      before[c.server := ServedAfter(before[c.server], c.what, names[c.server])]
  }

  predicate DistinctNames(names: seq<Str>) {
    forall i, j :: 0 <= i < j < |names| ==> names[i] != names[j]
  }

  // ----- composition

  lemma {:induction false} TellServers(names: seq<Str>, j: Job, k: nat)
    requires ValidJob(j, |names|) && k <= |j.others|
    ensures ForServers(TellOthers(names, j, k), |names|)
  {
    if k > 0 { TellServers(names, j, k - 1); assert OtherOf(j, |names|, j.others[k - 1]); }
  }

  lemma {:induction false} ScriptServers(names: seq<Str>, jobs: seq<Job>, k: nat)
    requires ValidJobs(jobs, |names|) && k <= |jobs|
    ensures ForServers(Script(names, jobs, k), |names|)
  {
    hide TellOthers;
    if k > 0 {
      ScriptServers(names, jobs, k - 1);
      TellServers(names, jobs[k - 1], |jobs[k - 1].others|);
    }
  }

  /** Commands that follow others start from where those end. */
  lemma {:induction false} ExecSum(served: seq<set<nat>>, names: seq<Str>, a: seq<Cmd>, b: seq<Cmd>, q: nat)
    requires |served| == |names| && ForServers(a, |names|) && ForServers(b, |names|) && q <= |b|
    ensures ForServers(a + b, |names|)
    ensures Exec(served, names, a + b, |a| + q) == Exec(Exec(served, names, a, |a|), names, b, q)
  {
    hide ServedAfter;
    if q > 0 {
      ExecSum(served, names, a, b, q - 1);
      assert (a + b)[|a| + q - 1] == b[q - 1];
    } else {
      ExecPrefix(served, names, a, b, |a|);
    }
  }

  lemma {:induction false} ExecPrefix(served: seq<set<nat>>, names: seq<Str>, a: seq<Cmd>, b: seq<Cmd>, p: nat)
    requires |served| == |names| && ForServers(a, |names|) && ForServers(a + b, |names|) && p <= |a|
    ensures Exec(served, names, a + b, p) == Exec(served, names, a, p)
  {
    hide ServedAfter;
    if p > 0 { ExecPrefix(served, names, a, b, p - 1); }
  }

  // ----- one slot

  /** The slot has moved. */
  function Moved1(served: seq<set<nat>>, j: Job): (r: seq<set<nat>>)
    requires ValidJob(j, |served|)
    ensures |r| == |served|
  {
    served[j.dst := served[j.dst] + {j.slot}][j.src := served[j.src] - {j.slot}]
  }

  /** What the servers serve after `p` of a slot's commands. */
  function During(served: seq<set<nat>>, j: Job, p: nat): seq<set<nat>>
    requires ValidJob(j, |served|)
  {
    if p <= 2 then served else if p == 3 then served[j.dst := served[j.dst] + {j.slot}] else Moved1(served, j)
  }

  lemma {:induction false} PartitionAt(sets: seq<set<nat>>, i: nat, j: nat, s: nat)
    requires Partition(sets) && i < |sets| && j < |sets| && i != j && s in sets[i]
    ensures s !in sets[j]
  {
  }

  lemma {:induction false} DuringBlock(served: seq<set<nat>>, names: seq<Str>, j: Job, p: nat)
    requires |served| == |names| && ValidJob(j, |names|) && DistinctNames(names) && Partition(served) &&
      j.slot in served[j.src]
    requires ForServers(Block(names, j), |names|) && p <= |Block(names, j)|
    ensures Exec(served, names, Block(names, j), p) == During(served, j, p)
  {
    hide Partition, TellOthers, DistinctNames;
    NameIs(names, j.dst, j.src);
    if p > 0 {
      DuringBlock(served, names, j, p - 1);
      if p > 4 {
        var o := j.others[p - 5];
        TellOthersAt(names, j, p - 5);
        assert OtherOf(j, |names|, o);
        NameIs(names, j.dst, o);
        PartitionAt(served, j.src, o, j.slot);
        var before := Exec(served, names, Block(names, j), p - 1);
        assert before[o] - {j.slot} == before[o];
      }
    }
  }

  lemma {:induction false} NameIs(names: seq<Str>, i: nat, j: nat)
    requires DistinctNames(names) && i < |names| && j < |names| && i != j
    ensures names[i] != names[j]
  {
  }

  lemma {:induction false} TellOthersAt(names: seq<Str>, j: Job, i: nat)
    requires ValidJob(j, |names|) && i < |j.others|
    ensures Block(names, j)[4 + i] == Cmd(j.others[i], Assign(j.slot, names[j.dst]))
  {
    TellAt(names, j, |j.others|, i);
  }

  lemma {:induction false} TellAt(names: seq<Str>, j: Job, k: nat, i: nat)
    requires ValidJob(j, |names|) && i < k <= |j.others|
    ensures TellOthers(names, j, k)[i] == Cmd(j.others[i], Assign(j.slot, names[j.dst]))
  {
    if i < k - 1 { TellAt(names, j, k - 1, i); }
  }

  /** No slot without a server; two servers only for the slot in flight, and then its source and its target. */
  ghost predicate Safe(served: seq<set<nat>>, j: Job) {
    && (forall s: nat :: s < SLOTS ==> Somewhere(served, s))
    && (forall a, b, s :: 0 <= a < b < |served| && s in served[a] && s in served[b] ==>
          s == j.slot && ((a == j.src && b == j.dst) || (a == j.dst && b == j.src)))
  }

  lemma {:induction false} DuringIsSafe(served: seq<set<nat>>, j: Job, p: nat)
    requires Partition(served) && ValidJob(j, |served|) && j.slot in served[j.src]
    ensures Safe(During(served, j, p), j)
    ensures Partition(Moved1(served, j))
  {
    hide Somewhere;
    var r := During(served, j, p);
    forall s: nat | s < SLOTS ensures Somewhere(r, s) && Somewhere(Moved1(served, j), s) {
      assert Somewhere(served, s);
      StillSomewhere(served, j, p, s);
      StillSomewhere(served, j, 4, s);
    }
  }

  lemma {:induction false} StillSomewhere(served: seq<set<nat>>, j: Job, p: nat, s: nat)
    requires ValidJob(j, |served|) && Somewhere(served, s)
    ensures Somewhere(During(served, j, p), s)
  {
    var i :| 0 <= i < |served| && s in served[i];
    var r := During(served, j, p);
    assert s in r[i] || s in r[j.dst];
  }

  // ----- many slots

  function AfterJobs(served: seq<set<nat>>, jobs: seq<Job>, k: nat): (r: seq<set<nat>>)
    requires ValidJobs(jobs, |served|) && k <= |jobs|
    ensures |r| == |served|
  {
    if k == 0 then served else Moved1(AfterJobs(served, jobs, k - 1), jobs[k - 1])
  }

  /** Every slot is served by its source when its turn comes. */
  predicate Feasible(served: seq<set<nat>>, jobs: seq<Job>)
    requires ValidJobs(jobs, |served|)
  {
    forall k :: 0 <= k < |jobs| ==> jobs[k].slot in AfterJobs(served, jobs, k)[jobs[k].src]
  }

  lemma {:induction false} JobsKeepPartition(served: seq<set<nat>>, jobs: seq<Job>, k: nat)
    requires ValidJobs(jobs, |served|) && k <= |jobs| && Partition(served) && Feasible(served, jobs)
    ensures Partition(AfterJobs(served, jobs, k))
  {
    hide Partition, Moved1, ValidJob;
    if k > 0 {
      JobsKeepPartition(served, jobs, k - 1);
      DuringIsSafe(AfterJobs(served, jobs, k - 1), jobs[k - 1], 4);
    }
  }

  lemma {:induction false} FeasibleAt(served: seq<set<nat>>, jobs: seq<Job>, k: nat)
    requires ValidJobs(jobs, |served|) && Feasible(served, jobs) && k < |jobs|
    ensures ValidJob(jobs[k], |served|) && jobs[k].slot in AfterJobs(served, jobs, k)[jobs[k].src]
  {
  }

  /** After complete blocks the servers are where the jobs put them. */
  lemma {:induction false} ScriptOutcome(served: seq<set<nat>>, names: seq<Str>, jobs: seq<Job>, k: nat)
    requires |served| == |names| && DistinctNames(names) && ValidJobs(jobs, |names|) && k <= |jobs|
    requires Partition(served) && Feasible(served, jobs) && ForServers(Script(names, jobs, k), |names|)
    ensures Exec(served, names, Script(names, jobs, k), |Script(names, jobs, k)|) == AfterJobs(served, jobs, k)
  {
    hide Partition, Feasible, ValidJobs, Block, Exec, DistinctNames, Moved1, ForServers;
    if k == 0 {
      NothingSent(served, names);
    } else {
      ScriptServers(names, jobs, k - 1);
      ScriptOutcome(served, names, jobs, k - 1);
      FeasibleAt(served, jobs, k - 1);
      var j, state := jobs[k - 1], AfterJobs(served, jobs, k - 1);
      JobsKeepPartition(served, jobs, k - 1);
      LongBlock(names, j);
      BlockOutcome(served, names, Script(names, jobs, k - 1), state, j, |Block(names, j)|);
    }
  }

  lemma {:induction false} NothingSent(served: seq<set<nat>>, names: seq<Str>)
    requires |served| == |names|
    ensures Exec(served, names, [], 0) == served
  {
  }

  lemma {:induction false} LongBlock(names: seq<Str>, j: Job)
    requires ValidJob(j, |names|)
    ensures |Block(names, j)| >= 4
  {
  }

  /** The commands of one slot, sent after others. */
  lemma {:induction false} BlockOutcome(served: seq<set<nat>>, names: seq<Str>, before: seq<Cmd>,
          state: seq<set<nat>>, j: Job, q: nat)
    requires |served| == |names| == |state| && ForServers(before, |names|) &&
      Exec(served, names, before, |before|) == state
    requires ValidJob(j, |names|) && DistinctNames(names) && Partition(state) && j.slot in state[j.src]
    requires q <= |Block(names, j)|
    ensures ForServers(before + Block(names, j), |names|)
    ensures Exec(served, names, before + Block(names, j), |before| + q) == During(state, j, q)
  {
    hide Partition, Block, Exec, DistinctNames, During;
    BlockServers(names, j);
    ExecSum(served, names, before, Block(names, j), q);
    DuringBlock(state, names, j, q);
  }

  lemma {:induction false} BlockServers(names: seq<Str>, j: Job)
    requires ValidJob(j, |names|)
    ensures ForServers(Block(names, j), |names|)
  {
    hide TellOthers;
    TellServers(names, j, |j.others|);
  }

  /**
   After any number of commands, so also after an error or a lost reply anywhere, every slot
   has a server, and only the slot then in flight can have two.
   */
  lemma {:induction false} EveryPrefixIsSafe(served: seq<set<nat>>, names: seq<Str>, jobs: seq<Job>, k: nat,
          p: nat) returns (i: nat)
    requires |served| == |names| && DistinctNames(names) && ValidJobs(jobs, |names|) && 0 < k <= |jobs|
    requires Partition(served) && Feasible(served, jobs)
    requires ForServers(Script(names, jobs, k), |names|) && p <= |Script(names, jobs, k)|
    ensures i < k && Safe(Exec(served, names, Script(names, jobs, k), p), jobs[i])
  {
    hide Partition, Feasible, ValidJobs, Block, Exec, DistinctNames, Safe, During, ForServers, AfterJobs;
    var before, j := Script(names, jobs, k - 1), jobs[k - 1];
    ScriptServers(names, jobs, k - 1);
    FeasibleAt(served, jobs, k - 1);
    if p < |before| && k > 1 {
      i := EveryPrefixIsSafe(served, names, jobs, k - 1, p);
      ExecPrefix(served, names, before, Block(names, j), p);
    } else {
      i := k - 1;
      ScriptOutcome(served, names, jobs, k - 1);
      JobsKeepPartition(served, jobs, k - 1);
      var state := AfterJobs(served, jobs, k - 1);
      BlockOutcome(served, names, before, state, j, p - |before|);
      DuringIsSafe(state, j, p - |before|);
    }
  }

  // ----- the jobs of a plan

  predicate TransferOk(sets: seq<set<nat>>, t: Transfer) {
    && t.src < |sets| && t.dst < |sets| && t.src != t.dst && StrictlyAscending(t.slots)
    && forall i :: 0 <= i < |t.slots| ==> t.slots[i] in sets[t.src]
  }

  /** The jobs of the first `m` slots of a transfer; `others` says in which order the other nodes are told. */
  function JobsOf(t: Transfer, others: nat -> seq<nat>, m: nat): (r: seq<Job>)
    requires m <= |t.slots|
    ensures |r| == m
  {
    if m == 0 then [] else JobsOf(t, others, m - 1) + [Job(t.src, t.dst, t.slots[m - 1], others(m - 1))]
  }

  lemma {:induction false} JobsOfAt(t: Transfer, others: nat -> seq<nat>, m: nat, i: nat)
    requires i < m <= |t.slots|
    ensures JobsOf(t, others, m)[i] == Job(t.src, t.dst, t.slots[i], others(i))
  {
    if i < m - 1 { JobsOfAt(t, others, m - 1, i); }
  }

  /** Some slots have gone over. */
  function Shifted(sets: seq<set<nat>>, src: nat, dst: nat, gone: set<nat>): (r: seq<set<nat>>)
    requires src < |sets| && dst < |sets|
    ensures |r| == |sets|
  {
    sets[dst := sets[dst] + gone][src := sets[src] - gone]
  }

  lemma {:induction false} ShiftNone(sets: seq<set<nat>>, src: nat, dst: nat)
    requires src < |sets| && dst < |sets|
    ensures Shifted(sets, src, dst, {}) == sets
  {
    assert sets[dst] + {} == sets[dst] && sets[src] - {} == sets[src];
  }

  lemma {:induction false} ShiftOne(sets: seq<set<nat>>, j: Job, gone: set<nat>)
    requires ValidJob(j, |sets|)
    ensures Moved1(Shifted(sets, j.src, j.dst, gone), j) == Shifted(sets, j.src, j.dst, gone + {j.slot})
  {
    hide ValidJob;
    assert j.src < |sets| && j.dst < |sets| && j.src != j.dst by { JobPair(j, |sets|); }
    assert sets[j.dst] + gone + {j.slot} == sets[j.dst] + (gone + {j.slot});
    assert sets[j.src] - gone - {j.slot} == sets[j.src] - (gone + {j.slot});
  }

  lemma {:induction false} JobPair(j: Job, n: nat)
    requires ValidJob(j, n)
    ensures j.src < n && j.dst < n && j.src != j.dst
  {
  }

  /** What the sets are while a transfer is carried out slot by slot. */
  lemma {:induction false} TransferOutcome(sets: seq<set<nat>>, t: Transfer, others: nat -> seq<nat>, m: nat)
    requires TransferOk(sets, t) && m <= |t.slots| && ValidJobs(JobsOf(t, others, |t.slots|), |sets|)
    ensures AfterJobs(sets, JobsOf(t, others, |t.slots|), m) == Shifted(sets, t.src, t.dst, Elements(t.slots[..m]))
  {
    hide Elements, ValidJob, StrictlyAscending, Shifted, Moved1;
    var jobs := JobsOf(t, others, |t.slots|);
    if m == 0 {
      ElementsOfNothing<nat>();
      assert t.slots[..0] == [];
      ShiftNone(sets, t.src, t.dst);
    } else {
      TransferOutcome(sets, t, others, m - 1);
      JobsOfAt(t, others, |t.slots|, m - 1);
      TakeSnoc(t.slots, m - 1);
      ShiftOne(sets, jobs[m - 1], Elements(t.slots[..m - 1]));
    }
  }

  lemma {:induction false} TakeSnoc(s: seq<nat>, i: nat)
    requires i < |s|
    ensures Elements(s[..i + 1]) == Elements(s[..i]) + {s[i]}
  {
    assert s[..i + 1] == s[..i] + [s[i]];
  }

  /** A transfer carried out slot by slot is feasible and comes to what the plan says. */
  lemma {:induction false} TransferCarriedOut(sets: seq<set<nat>>, t: Transfer, others: nat -> seq<nat>)
    requires TransferOk(sets, t) && ValidJobs(JobsOf(t, others, |t.slots|), |sets|)
    ensures Feasible(sets, JobsOf(t, others, |t.slots|))
    ensures AfterJobs(sets, JobsOf(t, others, |t.slots|), |t.slots|) == Move(sets, t)
  {
    hide AfterJobs, JobsOf;
    var jobs := JobsOf(t, others, |t.slots|);
    forall k | 0 <= k < |jobs| ensures jobs[k].slot in AfterJobs(sets, jobs, k)[jobs[k].src] {
      TransferOutcome(sets, t, others, k);
      JobsOfAt(t, others, |t.slots|, k);
      NotYet(t.slots, k);
    }
    TransferOutcome(sets, t, others, |t.slots|);
    assert t.slots[..|t.slots|] == t.slots;
  }

  lemma {:induction false} NotYet(s: seq<nat>, k: nat)
    requires StrictlyAscending(s) && k < |s|
    ensures s[k] !in Elements(s[..k])
  {
  }

  // ----- the whole plan

  lemma {:induction false} AfterJobsPrefix(sets: seq<set<nat>>, a: seq<Job>, b: seq<Job>, k: nat)
    requires ValidJobs(a, |sets|) && ValidJobs(a + b, |sets|) && k <= |a|
    ensures AfterJobs(sets, a + b, k) == AfterJobs(sets, a, k)
  {
    hide ValidJob, Moved1;
    if k > 0 { AfterJobsPrefix(sets, a, b, k - 1); }
  }

  lemma {:induction false} AfterJobsSum(sets: seq<set<nat>>, a: seq<Job>, b: seq<Job>, q: nat)
    requires ValidJobs(a, |sets|) && ValidJobs(b, |sets|) && ValidJobs(a + b, |sets|) && q <= |b|
    ensures AfterJobs(sets, a + b, |a| + q) == AfterJobs(AfterJobs(sets, a, |a|), b, q)
  {
    hide ValidJob, Moved1;
    if q > 0 {
      AfterJobsSum(sets, a, b, q - 1);
      assert (a + b)[|a| + q - 1] == b[q - 1];
    } else {
      AfterJobsPrefix(sets, a, b, |a|);
    }
  }

  lemma {:induction false} FeasibleSum(sets: seq<set<nat>>, a: seq<Job>, b: seq<Job>)
    requires ValidJobs(a, |sets|) && ValidJobs(b, |sets|) && ValidJobs(a + b, |sets|)
    requires Feasible(sets, a) && Feasible(AfterJobs(sets, a, |a|), b)
    ensures Feasible(sets, a + b)
  {
    hide AfterJobs, Feasible;
    var all := a + b;
    FeasibleIff(sets, a);
    FeasibleIff(AfterJobs(sets, a, |a|), b);
    forall k | 0 <= k < |all| ensures all[k].slot in AfterJobs(sets, all, k)[all[k].src] {
      if k < |a| {
        AfterJobsPrefix(sets, a, b, k);
        assert all[k] == a[k];
      } else {
        AfterJobsSum(sets, a, b, k - |a|);
        assert all[k] == b[k - |a|];
      }
    }
    FeasibleIff(sets, all);
  }

  lemma {:induction false} FeasibleIff(sets: seq<set<nat>>, jobs: seq<Job>)
    requires ValidJobs(jobs, |sets|)
    ensures Feasible(sets, jobs) <==> forall k :: 0 <= k < |jobs| ==>
      jobs[k].slot in AfterJobs(sets, jobs, k)[jobs[k].src]
  {
  }

  /** The jobs of the first `k` transfers. */
  function JobsOfPlan(ts: seq<Transfer>, others: seq<nat -> seq<nat>>, k: nat): seq<Job>
    requires k <= |ts| <= |others|
  {
    if k == 0 then [] else JobsOfPlan(ts, others, k - 1) + JobsOf(ts[k - 1], others[k - 1], |ts[k - 1].slots|)
  }

  predicate InRange(ts: seq<Transfer>, n: nat) {
    forall i :: 0 <= i < |ts| ==> ts[i].src < n && ts[i].dst < n
  }

  /** Each transfer finds its slots at its source when its turn comes. */
  ghost predicate PlanOk(sets: seq<set<nat>>, ts: seq<Transfer>)
    requires InRange(ts, |sets|)
  {
    forall i :: 0 <= i < |ts| ==> TransferOk(After(sets, ts, i), ts[i])
  }

  lemma {:induction false} PlanCarriedOut(sets: seq<set<nat>>, ts: seq<Transfer>, others: seq<nat -> seq<nat>>, k: nat)
    requires InRange(ts, |sets|) && PlanOk(sets, ts) && k <= |ts| <= |others| &&
      ValidJobs(JobsOfPlan(ts, others, k), |sets|)
    ensures Feasible(sets, JobsOfPlan(ts, others, k))
    ensures AfterJobs(sets, JobsOfPlan(ts, others, k), |JobsOfPlan(ts, others, k)|) == After(sets, ts, k)
  {
    hide JobsOf, Move, AfterJobs, Feasible, ValidJob, TransferOk;
    if k == 0 {
      NoJobs(sets);
    } else {
      var a, t := JobsOfPlan(ts, others, k - 1), ts[k - 1];
      var b := JobsOf(t, others[k - 1], |t.slots|);
      SplitValid(a, b, |sets|);
      PlanCarriedOut(sets, ts, others, k - 1);
      assert TransferOk(After(sets, ts, k - 1), t);
      TransferCarriedOut(After(sets, ts, k - 1), t, others[k - 1]);
      FeasibleSum(sets, a, b);
      AfterJobsSum(sets, a, b, |b|);
    }
  }

  lemma {:induction false} NoJobs(sets: seq<set<nat>>)
    ensures ValidJobs([], |sets|) && Feasible(sets, []) && AfterJobs(sets, [], 0) == sets
  {
  }

  lemma {:induction false} SplitValid(a: seq<Job>, b: seq<Job>, n: nat)
    requires ValidJobs(a + b, n)
    ensures ValidJobs(a, n) && ValidJobs(b, n)
  {
    hide ValidJob;
    forall i | 0 <= i < |a| ensures ValidJob(a[i], n) { assert (a + b)[i] == a[i]; }
    forall i | 0 <= i < |b| ensures ValidJob(b[i], n) { assert (a + b)[|a| + i] == b[i]; }
  }

  lemma {:induction false} SliceOk(x: Input, k: nat)
    requires Counted(x) && 0 < k <= |x.order| / 2 && InRange(Plan(x, k - 1), |x.words|)
    ensures
      var src, dst := x.order[|x.order| - k], x.order[k - 1];
      src < |x.words| && dst < |x.words| &&
      TransferOk(After(SetsOf(x), Plan(x, k - 1), |Plan(x, k - 1)|), Transfer(src, dst, Slice(x, src)))
  {
    hide Slice, Owned, Sorted, Target, IsOrder, After, SetsOf, Plan, StrictlyAscending;
    var n := |x.order|;
    CountedSized(x);
    OrderAt(x, n - k, k - 1);
    OrderAt(x, k - 1, k - 1);
    SliceFits(x, x.order[n - k]);
    PlanOutcome(x, k - 1, n - k);
    var s := Slice(x, x.order[n - k]);
    forall i | 0 <= i < |s| ensures s[i] in Owned(x.words[x.order[n - k]]) { assert s[i] in Elements(s); }
  }

  lemma {:induction false} PlanOkSnoc(sets: seq<set<nat>>, before: seq<Transfer>, t: Transfer)
    requires InRange(before, |sets|) && PlanOk(sets, before) && TransferOk(After(sets, before, |before|), t)
    requires t.src < |sets| && t.dst < |sets|
    ensures InRange(before + [t], |sets|) && PlanOk(sets, before + [t])
  {
    hide TransferOk, After;
    var ts := before + [t];
    forall i | 0 <= i < |ts| ensures TransferOk(After(sets, ts, i), ts[i]) {
      AfterSame(sets, before, t, i);
      if i < |before| { assert TransferOk(After(sets, before, i), before[i]); }
    }
  }

  /** The planner's transfers can be carried out one after the other. */
  lemma {:induction false} PlanIsOk(x: Input, k: nat)
    requires Counted(x) && k <= |x.order| / 2
    ensures InRange(Plan(x, k), |x.words|) && PlanOk(SetsOf(x), Plan(x, k))
  {
    hide Slice, Counted, TransferOk, SetsOf, PlanOk, InRange, After;
    CountedSized(x);
    if k == 0 {
      NoPlan(SetsOf(x));
    } else {
      PlanIsOk(x, k - 1);
      OrderAt(x, |x.order| - k, k - 1);
      var src, dst := x.order[|x.order| - k], x.order[k - 1];
      SliceOk(x, k);
      PlanOkSnoc(SetsOf(x), Plan(x, k - 1), Transfer(src, dst, Slice(x, src)));
      if x.balances[src] <= 0 { assert Plan(x, k) == Plan(x, k - 1); }
    }
  }

  lemma {:induction false} NoPlan(sets: seq<set<nat>>)
    ensures InRange([], |sets|) && PlanOk(sets, [])
  {
  }

  /** What the servers serve after the first `p` commands of a run. */
  function ServedAt(served: seq<set<nat>>, names: seq<Str>, jobs: seq<Job>, p: nat): (r: seq<set<nat>>)
    requires |served| == |names| && ValidJobs(jobs, |names|) && p <= |Script(names, jobs, |jobs|)|
    ensures |r| == |served|
  {
    ScriptServers(names, jobs, |jobs|);
    Exec(served, names, Script(names, jobs, |jobs|), p)
  }

  /**
   The jobs of a rebalance; `others` says, transfer by transfer and slot by slot, in which
   order the other nodes are told.
   */
  function RebalanceJobs(x: Input, others: seq<nat -> seq<nat>>): seq<Job>
    requires Sized(x) && |Plan(x, |x.order| / 2)| <= |others|
  {
    JobsOfPlan(Plan(x, |x.order| / 2), others, |Plan(x, |x.order| / 2)|)
  }

  /**
   A whole rebalance, from an exact partition and an accurate snapshot: wherever the run stops,
   every slot has a server and at most the slot in flight has two.
   */
  lemma {:induction false} RebalanceIsSafe(x: Input, names: seq<Str>, others: seq<nat -> seq<nat>>,
          p: nat) returns (i: nat)
    requires Counted(x) && Partition(SetsOf(x)) && |names| == |x.words| && DistinctNames(names)
    requires |Plan(x, |x.order| / 2)| <= |others|
    requires var jobs := RebalanceJobs(x, others);
             ValidJobs(jobs, |names|) && |jobs| > 0 && p <= |Script(names, jobs, |jobs|)|
    ensures var jobs := RebalanceJobs(x, others);
            i < |jobs| && Safe(ServedAt(SetsOf(x), names, jobs, p), jobs[i])
  {
    hide Counted, Partition, Plan, JobsOfPlan, Script, Exec, Safe, ValidJobs, DistinctNames, PlanOk, Feasible,
      ForServers, After;
    CountedSized(x);
    var ts := Plan(x, |x.order| / 2);
    PlanIsOk(x, |x.order| / 2);
    PlanCarriedOut(SetsOf(x), ts, others, |ts|);
    var jobs := RebalanceJobs(x, others);
    ScriptServers(names, jobs, |jobs|);
    i := EveryPrefixIsSafe(SetsOf(x), names, jobs, |jobs|, p);
  }

  /** A rebalance that runs to its end leaves an exact partition, the one the plan describes. */
  lemma {:induction false} RebalanceEndsInPartition(x: Input, names: seq<Str>, others: seq<nat -> seq<nat>>)
    requires Counted(x) && Partition(SetsOf(x)) && |names| == |x.words| && DistinctNames(names)
    requires |Plan(x, |x.order| / 2)| <= |others| && ValidJobs(RebalanceJobs(x, others), |names|)
    ensures
      var jobs := RebalanceJobs(x, others);
      var final := ServedAt(SetsOf(x), names, jobs, |Script(names, jobs, |jobs|)|);
      && Partition(final)
      && forall i :: 0 <= i < |x.order| ==> x.order[i] < |final| && final[x.order[i]] == SlotsAfter(x, |x.order| / 2, i)
  {
    hide Counted, Partition, Plan, JobsOfPlan, Script, Exec, ValidJobs, DistinctNames, PlanOk, Feasible, ForServers,
      After, SlotsAfter, IsOrder;
    CountedSized(x);
    var ts := Plan(x, |x.order| / 2);
    PlanIsOk(x, |x.order| / 2);
    PlanCarriedOut(SetsOf(x), ts, others, |ts|);
    var jobs := RebalanceJobs(x, others);
    ScriptServers(names, jobs, |jobs|);
    ScriptOutcome(SetsOf(x), names, jobs, |jobs|);
    JobsKeepPartition(SetsOf(x), jobs, |jobs|);
    forall i | 0 <= i < |x.order|
      ensures x.order[i] < |x.words| && After(SetsOf(x), ts, |ts|)[x.order[i]] == SlotsAfter(x, |x.order| / 2, i) {
      OrderAt(x, i, i);
      PlanOutcome(x, |x.order| / 2, i);
    }
  }

  // ----- the loop that sends the commands

  /**
   clusterMoveSlots: `answered(i)` says whether the i-th command brings back OK, `keys(s)`
   whether the source still holds keys of the slot, which ends the run. What was sent is
   always the beginning of the script, and all of it when the run succeeds.
   */
  method SendCommands(names: seq<Str>, jobs: seq<Job>, answered: nat -> bool,
          keys: nat -> bool) returns (sent: seq<Cmd>, ok: bool)
    requires ValidJobs(jobs, |names|)
    ensures sent <= Script(names, jobs, |jobs|)
    ensures ok ==> sent == Script(names, jobs, |jobs|) && forall i :: 0 <= i < |sent| ==> answered(i)
    ensures !ok ==> |sent| > 0 && (!answered(|sent| - 1) || HasKeys(sent[|sent| - 1], keys))
    ensures forall i :: 0 <= i < |sent| - 1 ==> answered(i)
    ensures forall i :: 0 <= i < |sent| && !sent[i].what.Import? && !sent[i].what.Migrate? ==>
      sent[i].what.Assign? && !keys(sent[i].what.slot)
  {
    hide Block, ValidJob;
    sent := [];
    for k := 0 to |jobs|
      invariant sent == Script(names, jobs, k) && forall i :: 0 <= i < |sent| ==> answered(i)
      invariant forall i :: 0 <= i < |sent| ==> Spared(sent[i], keys)
    {
      ScriptGrows(names, jobs, k + 1, |jobs|);
      var more;
      more, ok := SendBlock(names, jobs[k], |sent|, answered, keys);
      ghost var before := sent;
      sent := sent + more;
      assert forall i :: |before| <= i < |sent| ==> sent[i] == more[i - |before|];
      if !ok { return; }
    }
    ok := true;
  }

  /**
   How many of the commands sent have taken effect: all, or all but the last when that was not
   answered and is lost.
   */
  function Effective(sent: seq<Cmd>, ok: bool, took: bool): (p: nat)
    ensures p <= |sent|
  {
    if ok || took || |sent| == 0 then |sent| else |sent| - 1
  }

  /**
   A whole rebalance over a network that may lose replies, with slots that may hold keys:
   whatever is answered and wherever the run stops, and whether or not the last unanswered
   command took effect, every slot has a server and at most the slot in flight has two. A run
   that succeeds leaves the planned partition.
   */
  method RunRebalance(x: Input, names: seq<Str>, others: seq<nat -> seq<nat>>, answered: nat -> bool,
          keys: nat -> bool, took: bool) returns (sent: seq<Cmd>, ok: bool)
    requires Counted(x) && Partition(SetsOf(x)) && |names| == |x.words| && DistinctNames(names)
    requires |Plan(x, |x.order| / 2)| <= |others|
    requires ValidJobs(RebalanceJobs(x, others), |names|)
    ensures
      var jobs := RebalanceJobs(x, others);
      && sent <= Script(names, jobs, |jobs|)
      && var served := ServedAt(SetsOf(x), names, jobs, Effective(sent, ok, took));
         && (if |jobs| == 0 then Partition(served) else exists i :: 0 <= i < |jobs| && Safe(served, jobs[i]))
         && (ok ==> Partition(served) && forall i :: 0 <= i < |x.order| ==>
               x.order[i] < |served| && served[x.order[i]] == SlotsAfter(x, |x.order| / 2, i))
  {
    hide Counted, Partition, Plan, JobsOfPlan, Script, Exec, Safe, ValidJobs, DistinctNames, SlotsAfter, ServedAt;
    CountedSized(x);
    var jobs := RebalanceJobs(x, others);
    sent, ok := SendCommands(names, jobs, answered, keys);
    if |jobs| == 0 {
      NothingToDo(SetsOf(x), names, jobs, Effective(sent, ok, took));
    } else {
      ghost var i := RebalanceIsSafe(x, names, others, Effective(sent, ok, took));
    }
    if ok { RebalanceEndsInPartition(x, names, others); }
  }

  lemma {:induction false} NothingToDo(served: seq<set<nat>>, names: seq<Str>, jobs: seq<Job>, p: nat)
    requires |served| == |names| && ValidJobs(jobs, |names|) && |jobs| == 0 && p <= |Script(names, jobs, |jobs|)|
    ensures ServedAt(served, names, jobs, p) == served
  {
  }

  lemma {:induction false} ScriptGrows(names: seq<Str>, jobs: seq<Job>, k: nat, m: nat)
    requires ValidJobs(jobs, |names|) && k <= m <= |jobs|
    ensures Script(names, jobs, k) <= Script(names, jobs, m)
  {
    hide Block, ValidJob;
    if k < m { ScriptGrows(names, jobs, k, m - 1); }
  }

  /** The source has been told that the slot migrates, and has keys of it. */
  predicate HasKeys(c: Cmd, keys: nat -> bool) {
    c.what.Migrate? && keys(c.what.slot)
  }

  /** Only a slot without keys is assigned to another node. */
  predicate Spared(c: Cmd, keys: nat -> bool) {
    c.what.Import? || c.what.Migrate? || (c.what.Assign? && !keys(c.what.slot))
  }

  /** The commands for one slot, sent one at a time until one is not answered. */
  method SendBlock(names: seq<Str>, j: Job, from: nat, answered: nat -> bool,
          keys: nat -> bool) returns (sent: seq<Cmd>, ok: bool)
    requires ValidJob(j, |names|)
    ensures sent <= Block(names, j) && |sent| > 0
    ensures ok ==> sent == Block(names, j) && answered(from + |sent| - 1)
    ensures !ok ==> !answered(from + |sent| - 1) || HasKeys(sent[|sent| - 1], keys)
    ensures forall i :: from <= i < from + |sent| - 1 ==> answered(i)
    ensures forall i :: 0 <= i < |sent| ==> !sent[i].what.Refused? && Spared(sent[i], keys)
  {
    sent := [Cmd(j.dst, Import(j.slot, names[j.src]))];
    if !answered(from) { return sent, false; }
    sent := sent + [Cmd(j.src, Migrate(j.slot, names[j.dst]))];
    if !answered(from + 1) || keys(j.slot) { return sent, false; }
    sent := sent + [Cmd(j.dst, Assign(j.slot, names[j.dst]))];
    if !answered(from + 2) { return sent, false; }
    sent := sent + [Cmd(j.src, Assign(j.slot, names[j.dst]))];
    if !answered(from + 3) { return sent, false; }
    ghost var head := sent;
    for i := 0 to |j.others|
      invariant sent == head + TellOthers(names, j, i)
      invariant forall k :: 0 <= k < |sent| ==> !sent[k].what.Refused? && Spared(sent[k], keys)
      invariant forall k :: from <= k < from + |sent| ==> answered(k)
    {
      assert OtherOf(j, |names|, j.others[i]);
      TellGrows(names, j, i + 1, |j.others|);
      sent := sent + [Cmd(j.others[i], Assign(j.slot, names[j.dst]))];
      if !answered(from + 4 + i) { return sent, false; }
    }
    ok := true;
  }

  lemma {:induction false} TellGrows(names: seq<Str>, j: Job, k: nat, m: nat)
    requires ValidJob(j, |names|) && k <= m <= |j.others|
    ensures TellOthers(names, j, k) <= TellOthers(names, j, m)
  {
    hide ValidJob;
    if k < m { TellGrows(names, j, k, m - 1); }
  }
}
