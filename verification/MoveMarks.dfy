/**
 What the servers are told while slots move, besides what they serve: which slots are marked
 as importing or migrating, and where each server sends the clients of a slot.
 */
module MoveMarks {
  import opened Bytes
  import opened Slots
  import opened ClusterState
  import opened Rebalance
  import opened MoveSlots

  /** One server's marks and its routing table, by the names of the nodes. */
  datatype Marks = Marks(importing: map<nat, Str>, migrating: map<nat, Str>, route: map<nat, Str>)

  function IdOf(c: SetSlot): Str {
    if c.Refused? || c.Stable? then [] else c.id
  }

  /** SETSLOT on one server. */
  function MarkedBy(m: Marks, c: SetSlot): Marks {
    Marks(ImportingAfter(m.importing, c, IdOf(c)), MigratingAfter(m.migrating, c, IdOf(c)),
          if c.Assign? then m.route[c.slot := c.id] else m.route)
  }

  /** The servers after the first `p` commands. */
  function ExecMarks(marks: seq<Marks>, cmds: seq<Cmd>, p: nat): (r: seq<Marks>)
    requires ForServers(cmds, |marks|) && p <= |cmds|
    ensures |r| == |marks|
  {
    if p == 0 then marks
    else
      var before, c := ExecMarks(marks, cmds, p - 1), cmds[p - 1];
      before[c.server := MarkedBy(before[c.server], c.what)]
  }

  lemma {:induction false} MarksPrefix(marks: seq<Marks>, a: seq<Cmd>, b: seq<Cmd>, p: nat)
    requires ForServers(a, |marks|) && ForServers(a + b, |marks|) && p <= |a|
    ensures ExecMarks(marks, a + b, p) == ExecMarks(marks, a, p)
  {
    hide MarkedBy;
    if p > 0 { MarksPrefix(marks, a, b, p - 1); }
  }

  lemma {:induction false} MarksSum(marks: seq<Marks>, a: seq<Cmd>, b: seq<Cmd>, q: nat)
    requires ForServers(a, |marks|) && ForServers(b, |marks|) && q <= |b|
    ensures ForServers(a + b, |marks|)
    ensures ExecMarks(marks, a + b, |a| + q) == ExecMarks(ExecMarks(marks, a, |a|), b, q)
  {
    hide MarkedBy;
    if q > 0 {
      MarksSum(marks, a, b, q - 1);
      assert (a + b)[|a| + q - 1] == b[q - 1];
    } else {
      MarksPrefix(marks, a, b, |a|);
    }
  }

  // ----- one slot

  /** No server is marked. */
  predicate Unmarked(marks: seq<Marks>) {
    forall i :: 0 <= i < |marks| ==> marks[i].importing == map[] && marks[i].migrating == map[]
  }

  /** The server has been told of the new owner by the first `p` commands of the block. */
  predicate Told(j: Job, i: nat, p: nat) {
    (i == j.dst && p >= 3) || (i == j.src && p >= 4) || exists k :: 0 <= k < |j.others| && k < p - 4 && j.others[k] == i
  }

  /**
   One server during a block: the target imports from the source from the first command to the
   third, the source migrates to the target from the second to the fourth, and the new owner is
   in the routing tables of those who have been told.
   */
  function MarksAt(m: Marks, names: seq<Str>, j: Job, i: nat, p: nat): Marks
    requires ValidJob(j, |names|)
  {
    Marks(if i == j.dst && 1 <= p <= 2 then map[j.slot := names[j.src]] else map[],
          if i == j.src && 2 <= p <= 3 then map[j.slot := names[j.dst]] else map[],
          if Told(j, i, p) then m.route[j.slot := names[j.dst]] else m.route)
  }

  lemma {:induction false} MarksDuring(marks: seq<Marks>, names: seq<Str>, j: Job, p: nat, i: nat)
    requires |marks| == |names| && ValidJob(j, |names|) && Unmarked(marks) && i < |marks|
    requires ForServers(Block(names, j), |marks|) && p <= |Block(names, j)|
    ensures ExecMarks(marks, Block(names, j), p)[i] == MarksAt(marks[i], names, j, i, p)
  {
    hide TellOthers, ValidJob;
    if p > 0 {
      MarksDuring(marks, names, j, p - 1, i);
      if p > 4 {
        TellOthersAt(names, j, p - 5);
        OtherFacts(j, |names|, p - 5);
        TellsOne(marks[i], names, j, i, p);
      } else {
        FirstFour(marks[i], names, j, i, p);
      }
    }
  }

  lemma {:induction false} FirstFour(m: Marks, names: seq<Str>, j: Job, i: nat, p: nat)
    requires ValidJob(j, |names|) && 0 < p <= 4
    ensures
      var c := Block(names, j)[p - 1];
      MarksAt(m, names, j, i, p) ==
        if i == c.server then MarkedBy(MarksAt(m, names, j, i, p - 1), c.what) else MarksAt(m, names, j, i, p - 1)
  {
    hide TellOthers;
    var none: map<nat, Str> := map[];
    assert none - {j.slot} == none;
    assert none[j.slot := names[j.src]] == map[j.slot := names[j.src]];
    assert none[j.slot := names[j.dst]] == map[j.slot := names[j.dst]];
    assert map[j.slot := names[j.src]] - {j.slot} == none && map[j.slot := names[j.dst]] - {j.slot} == none;
  }

  lemma {:induction false} OtherFacts(j: Job, n: nat, k: nat)
    requires ValidJob(j, n) && k < |j.others|
    ensures j.src < n && j.dst < n && j.src != j.dst && OtherOf(j, n, j.others[k])
  {
  }

  lemma {:induction false} TellsOne(m: Marks, names: seq<Str>, j: Job, i: nat, p: nat)
    requires ValidJob(j, |names|) && 4 < p <= 4 + |j.others|
    ensures
      var c := Assign(j.slot, names[j.dst]);
      MarksAt(m, names, j, i, p) ==
        if i == j.others[p - 5] then MarkedBy(MarksAt(m, names, j, i, p - 1), c) else MarksAt(m, names, j, i, p - 1)
  {
    var o := j.others[p - 5];
    assert OtherOf(j, |names|, o);
    assert Told(j, o, p);
    var none: map<nat, Str> := map[];
    assert none - {j.slot} == none;
    if Told(j, i, p) && i != j.dst && i != j.src && i != o {
      var k :| 0 <= k < |j.others| && k < p - 4 && j.others[k] == i;
    }
    if i == o && Told(j, i, p - 1) {
      var told := m.route[j.slot := names[j.dst]];
      assert told[j.slot := names[j.dst]] == told;
    }
  }

  // ----- whole runs

  /** The servers after the first `k` slots have moved. */
  function MarksAfter(marks: seq<Marks>, names: seq<Str>, jobs: seq<Job>, k: nat): (r: seq<Marks>)
    requires |marks| == |names| && ValidJobs(jobs, |names|) && k <= |jobs|
    ensures |r| == |marks|
  {
    if k == 0 then marks
    else
      var before, j := MarksAfter(marks, names, jobs, k - 1), jobs[k - 1];
      seq(|marks|, i requires 0 <= i < |marks| => MarksAt(before[i], names, j, i, 4 + |j.others|))
  }

  lemma {:induction false} MarksAfterUnmarked(marks: seq<Marks>, names: seq<Str>, jobs: seq<Job>, k: nat)
    requires |marks| == |names| && ValidJobs(jobs, |names|) && k <= |jobs| && Unmarked(marks)
    ensures Unmarked(MarksAfter(marks, names, jobs, k))
  {
    hide Told;
  }

  lemma {:induction false} BlockLength(names: seq<Str>, j: Job)
    requires ValidJob(j, |names|)
    ensures |Block(names, j)| == 4 + |j.others|
  {
  }

  lemma {:induction false} MarksOfScript(marks: seq<Marks>, names: seq<Str>, jobs: seq<Job>, k: nat)
    requires |marks| == |names| && ValidJobs(jobs, |names|) && k <= |jobs| && Unmarked(marks)
    requires ForServers(Script(names, jobs, k), |names|)
    ensures ExecMarks(marks, Script(names, jobs, k), |Script(names, jobs, k)|) == MarksAfter(marks, names, jobs, k)
  {
    hide Block, MarksAt, Unmarked, ValidJob, ForServers, ExecMarks;
    if k == 0 {
      NoCommands(marks);
    } else {
      var j := jobs[k - 1];
      ScriptServers(names, jobs, k - 1);
      MarksOfScript(marks, names, jobs, k - 1);
      BlockLength(names, j);
      MarksInBlock(marks, names, jobs, k - 1, 4 + |j.others|);
    }
  }

  lemma {:induction false} NoCommands(marks: seq<Marks>)
    ensures ForServers([], |marks|) && ExecMarks(marks, [], 0) == marks
  {
  }

  /** After `k` slots and `q` commands of the next. */
  lemma {:induction false} MarksInBlock(marks: seq<Marks>, names: seq<Str>, jobs: seq<Job>, k: nat, q: nat)
    requires |marks| == |names| && ValidJobs(jobs, |names|) && k < |jobs| && Unmarked(marks)
    requires ForServers(Script(names, jobs, k), |names|) && q <= |Block(names, jobs[k])|
    requires ExecMarks(marks, Script(names, jobs, k), |Script(names, jobs, k)|) == MarksAfter(marks, names, jobs, k)
    ensures
      var script, before := Script(names, jobs, k + 1), MarksAfter(marks, names, jobs, k);
      && ForServers(script, |names|) && |Script(names, jobs, k)| + q <= |script|
      && ExecMarks(marks, script, |Script(names, jobs, k)| + q)
         == seq(|marks|, i requires 0 <= i < |marks| => MarksAt(before[i], names, jobs[k], i, q))
  {
    hide Block, MarksAt, Unmarked, ValidJob, ForServers, ExecMarks, MarksAfter;
    var a, b, before := Script(names, jobs, k), Block(names, jobs[k]), MarksAfter(marks, names, jobs, k);
    BlockServers(names, jobs[k]);
    MarksAfterUnmarked(marks, names, jobs, k);
    MarksSum(marks, a, b, q);
    forall i | 0 <= i < |marks| ensures ExecMarks(before, b, q)[i] == MarksAt(before[i], names, jobs[k], i, q) {
      MarksDuring(before, names, jobs[k], q, i);
    }
  }

  /** Every mark is one of the slot in flight, on its own side, and names the partner. */
  ghost predicate OnlyInFlight(marks: seq<Marks>, names: seq<Str>, j: Job)
    requires ValidJob(j, |names|)
  {
    forall i, s :: 0 <= i < |marks| ==>
      && (s in marks[i].importing ==> i == j.dst && s == j.slot && marks[i].importing[s] == names[j.src])
      && (s in marks[i].migrating ==> i == j.src && s == j.slot && marks[i].migrating[s] == names[j.dst])
  }

  /** The slot is marked on both sides. */
  predicate MarkedOnBothSides(marks: seq<Marks>, names: seq<Str>, j: Job)
    requires ValidJob(j, |names|) && |marks| == |names|
  {
    marks[j.dst].importing == map[j.slot := names[j.src]] && marks[j.src].migrating == map[j.slot := names[j.dst]]
  }

  /** Every server routes every slot to a server of the slot, or the slot in flight still to its source. */
  predicate RoutesHold(marks: seq<Marks>, served: seq<set<nat>>, names: seq<Str>, j: Job)
    requires |served| == |names| && ValidJob(j, |names|)
  {
    forall i, s: nat :: 0 <= i < |marks| && s < SLOTS ==>
      && s in marks[i].route
      && (RoutedTo(marks[i].route[s], served, names, s) || (s == j.slot && marks[i].route[s] == names[j.src]))
  }

  predicate RoutedTo(name: Str, served: seq<set<nat>>, names: seq<Str>, s: nat)
    requires |served| == |names|
  {
    exists o :: 0 <= o < |served| && s in served[o] && name == names[o]
  }

  /** Every server routes every slot to a server of the slot. */
  predicate RoutesExact(marks: seq<Marks>, served: seq<set<nat>>, names: seq<Str>)
    requires |served| == |names|
  {
    forall i, s: nat :: 0 <= i < |marks| && s < SLOTS ==>
      s in marks[i].route && RoutedTo(marks[i].route[s], served, names, s)
  }

  /** Every server that is neither source nor target is told. */
  predicate TellsAll(j: Job, n: nat) {
    forall o :: 0 <= o < n && o != j.src && o != j.dst ==> o in j.others
  }

  lemma {:induction false} AllTold(j: Job, n: nat, i: nat)
    requires ValidJob(j, n) && TellsAll(j, n) && i < n
    ensures Told(j, i, 4 + |j.others|)
  {
    if i != j.src && i != j.dst {
      assert i in j.others;
      var k :| 0 <= k < |j.others| && j.others[k] == i;
    }
  }

  /** One server's routes during a block. */
  lemma {:induction false} RouteDuring(m: Marks, served: seq<set<nat>>, names: seq<Str>, j: Job, i: nat, q: nat, s: nat)
    requires |served| == |names| && ValidJob(j, |names|) && s < SLOTS && j.slot in served[j.src]
    requires s in m.route && RoutedTo(m.route[s], served, names, s)
    requires s == j.slot ==> m.route[s] == names[j.src]
    ensures
      var m', now := MarksAt(m, names, j, i, q), During(served, j, q);
      && |now| == |names| && s in m'.route
      && (RoutedTo(m'.route[s], now, names, s) || (s == j.slot && m'.route[s] == names[j.src]))
      && (Told(j, i, q) && q >= 4 ==> RoutedTo(m'.route[s], now, names, s))
  {
    hide Told;
    var now := During(served, j, q);
    var o :| 0 <= o < |served| && s in served[o] && m.route[s] == names[o];
    if s != j.slot { assert s in now[o]; }
    if s == j.slot && Told(j, i, q) { ToldLate(j, i, q); assert s in now[j.dst]; }
  }

  lemma {:induction false} ToldLate(j: Job, i: nat, q: nat)
    requires Told(j, i, q)
    ensures q >= 3
  {
  }

  /** In an exact partition only the source serves the slot, so everybody routes it there. */
  lemma {:induction false} RouteOfSlot(name: Str, served: seq<set<nat>>, names: seq<Str>, j: Job)
    requires |served| == |names| && Partition(served) && ValidJob(j, |names|) && j.slot in served[j.src]
    requires RoutedTo(name, served, names, j.slot)
    ensures name == names[j.src]
  {
    var o :| 0 <= o < |served| && j.slot in served[o] && name == names[o];
    if o != j.src { PartitionAt(served, j.src, o, j.slot); }
  }

  lemma {:induction false} BlockRoutes(marks: seq<Marks>, served: seq<set<nat>>, names: seq<Str>, j: Job, q: nat)
    requires |marks| == |served| == |names| && ValidJob(j, |names|) && Partition(served) && j.slot in served[j.src]
    requires RoutesExact(marks, served, names)
    ensures
      var now := seq(|marks|, i requires 0 <= i < |marks| => MarksAt(marks[i], names, j, i, q));
      && |During(served, j, q)| == |names| && RoutesHold(now, During(served, j, q), names, j)
      && OnlyInFlight(now, names, j) && (q == 2 ==> MarkedOnBothSides(now, names, j))
      && (TellsAll(j, |names|) && q == 4 + |j.others| ==> RoutesExact(now, During(served, j, q), names))
  {
    hide Partition, Told, RoutedTo, During;
    DuringSize(served, j, q);
    var now := seq(|marks|, i requires 0 <= i < |marks| => MarksAt(marks[i], names, j, i, q));
    forall i, s: nat | 0 <= i < |marks| && s < SLOTS
      ensures s in now[i].route
      ensures
        || RoutedTo(now[i].route[s], During(served, j, q), names, s)
        || (s == j.slot && now[i].route[s] == names[j.src])
      ensures TellsAll(j, |names|) && q == 4 + |j.others| ==> RoutedTo(now[i].route[s], During(served, j, q), names, s)
    {
      if s == j.slot { RouteOfSlot(marks[i].route[s], served, names, j); }
      RouteDuring(marks[i], served, names, j, i, q, s);
      if TellsAll(j, |names|) && q == 4 + |j.others| { AllTold(j, |names|, i); }
    }
  }

  lemma {:induction false} DuringSize(served: seq<set<nat>>, j: Job, q: nat)
    requires ValidJob(j, |served|)
    ensures |During(served, j, q)| == |served|
  {
  }

  lemma {:induction false} RoutesAfter(marks: seq<Marks>, served: seq<set<nat>>, names: seq<Str>, jobs: seq<Job>,
      k: nat)
    requires |marks| == |served| == |names| && ValidJobs(jobs, |names|) && k <= |jobs|
    requires Partition(served) && Feasible(served, jobs) && RoutesExact(marks, served, names)
    requires forall i :: 0 <= i < |jobs| ==> TellsAll(jobs[i], |names|)
    ensures RoutesExact(MarksAfter(marks, names, jobs, k), AfterJobs(served, jobs, k), names)
  {
    hide Partition, Feasible, RoutesExact, RoutesHold, MarksAt, TellsAll, ValidJob, OnlyInFlight;
    if k > 0 {
      RoutesAfter(marks, served, names, jobs, k - 1);
      JobsKeepPartition(served, jobs, k - 1);
      FeasibleAt(served, jobs, k - 1);
      var j := jobs[k - 1];
      assert TellsAll(j, |names|);
      BlockRoutes(MarksAfter(marks, names, jobs, k - 1), AfterJobs(served, jobs, k - 1), names, j, 4 + |j.others|);
    }
  }

  /**
   After any number of commands of a run the only marks are those of the slot in flight, which
   after two commands of its block is marked on both sides, and every server routes every slot
   to one of its servers, except that the slot in flight may still be routed to its source.
   */
  lemma {:induction false} EveryPrefixIsMarked(marks: seq<Marks>, served: seq<set<nat>>, names: seq<Str>,
          jobs: seq<Job>, k: nat, p: nat) returns (i: nat, q: nat)
    requires |marks| == |served| == |names| && DistinctNames(names) && ValidJobs(jobs, |names|) && 0 < k <= |jobs|
    requires Partition(served) && Feasible(served, jobs) && Unmarked(marks) && RoutesExact(marks, served, names)
    requires forall i :: 0 <= i < |jobs| ==> TellsAll(jobs[i], |names|)
    requires ForServers(Script(names, jobs, k), |names|) && p <= |Script(names, jobs, k)|
    ensures i < k && q <= |Block(names, jobs[i])| && p == |Script(names, jobs, i)| + q
    ensures
      var now, where := ExecMarks(marks, Script(names, jobs, k), p), Exec(served, names, Script(names, jobs, k), p);
      && OnlyInFlight(now, names, jobs[i]) && RoutesHold(now, where, names, jobs[i])
      && (q == 2 ==> MarkedOnBothSides(now, names, jobs[i]))
  {
    hide Partition, Feasible, ValidJob, Block, Exec, DistinctNames, During, ForServers, AfterJobs, ExecMarks, Unmarked,
      RoutesExact, RoutesHold, OnlyInFlight, MarkedOnBothSides, TellsAll, MarksAfter, MarksAt;
    var before, j := Script(names, jobs, k - 1), jobs[k - 1];
    ScriptServers(names, jobs, k - 1);
    FeasibleAt(served, jobs, k - 1);
    if p < |before| && k > 1 {
      i, q := EveryPrefixIsMarked(marks, served, names, jobs, k - 1, p);
      ExecPrefix(served, names, before, Block(names, j), p);
      MarksPrefix(marks, before, Block(names, j), p);
    } else {
      i, q := k - 1, p - |before|;
      ScriptOutcome(served, names, jobs, k - 1);
      JobsKeepPartition(served, jobs, k - 1);
      MarksOfScript(marks, names, jobs, k - 1);
      RoutesAfter(marks, served, names, jobs, k - 1);
      MarksInBlock(marks, names, jobs, k - 1, q);
      BlockOutcome(served, names, before, AfterJobs(served, jobs, k - 1), j, q);
      BlockRoutes(MarksAfter(marks, names, jobs, k - 1), AfterJobs(served, jobs, k - 1), names, j, q);
    }
  }

  /** A whole rebalance, from an exact partition, an accurate snapshot and routing tables that agree with it. */
  lemma {:induction false} RebalanceIsMarked(x: Input, names: seq<Str>, others: seq<nat -> seq<nat>>, marks: seq<Marks>,
          p: nat) returns (i: nat, q: nat)
    requires Counted(x) && Partition(SetsOf(x)) && |names| == |x.words| == |marks| && DistinctNames(names)
    requires |Plan(x, |x.order| / 2)| <= |others| && Unmarked(marks) && RoutesExact(marks, SetsOf(x), names)
    requires
      var jobs := RebalanceJobs(x, others);
      && ValidJobs(jobs, |names|) && |jobs| > 0 && p <= |Script(names, jobs, |jobs|)|
      && forall k :: 0 <= k < |jobs| ==> TellsAll(jobs[k], |names|)
    ensures
      var jobs := RebalanceJobs(x, others);
      var script := Script(names, jobs, |jobs|);
      && i < |jobs| && q <= |Block(names, jobs[i])| && p == |Script(names, jobs, i)| + q
      && ForServers(script, |names|)
      && var now := ExecMarks(marks, script, p);
         && OnlyInFlight(now, names, jobs[i]) && (q == 2 ==> MarkedOnBothSides(now, names, jobs[i]))
         && RoutesHold(now, ServedAt(SetsOf(x), names, jobs, p), names, jobs[i])
         && (p == |script| ==> Unmarked(now) && RoutesExact(now, ServedAt(SetsOf(x), names, jobs, p), names))
  {
    hide Counted, Partition, Plan, JobsOfPlan, Script, Exec, ValidJob, DistinctNames, PlanOk, Feasible, ForServers,
      After, RoutesExact, RoutesHold, OnlyInFlight, MarkedOnBothSides, TellsAll, ExecMarks, Unmarked, MarksAfter, Block;
    CountedSized(x);
    var ts := Plan(x, |x.order| / 2);
    PlanIsOk(x, |x.order| / 2);
    PlanCarriedOut(SetsOf(x), ts, others, |ts|);
    var jobs := RebalanceJobs(x, others);
    ScriptServers(names, jobs, |jobs|);
    i, q := EveryPrefixIsMarked(marks, SetsOf(x), names, jobs, |jobs|, p);
    if p == |Script(names, jobs, |jobs|)| {
      MarksOfScript(marks, names, jobs, |jobs|);
      MarksAfterUnmarked(marks, names, jobs, |jobs|);
      RoutesAfter(marks, SetsOf(x), names, jobs, |jobs|);
      ScriptOutcome(SetsOf(x), names, jobs, |jobs|);
    }
  }
}
