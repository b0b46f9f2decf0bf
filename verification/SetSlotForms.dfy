/**
 The text of SETSLOT: which arguments a server understands, byte by byte, and that it
 understands what the coordinator of a rebalance writes.
 */
module SetSlotForms {
  import opened Bytes
  import opened Numbers
  import opened ClusterState
  import opened MoveSlots

  /** `w` is the lower-case `word` with any of its letters in upper case; U+0130 stands for "i" as well. */
  predicate Spells(w: Str, word: Str)
    decreases |word|
  {
    if |word| == 0 then |w| == 0
    else
      || (|w| > 0 && (w[0] == word[0] || w[0] as int == word[0] as int - 32) && Spells(w[1..], word[1..]))
      || (word[0] == 105 && |w| > 1 && w[0] == 0xC4 && w[1] == 0xB0 && Spells(w[2..], word[1..]))
  }

  /** Lower-case letters other than "k". */
  predicate Letters(word: Str) {
    forall i :: 0 <= i < |word| ==> 97 <= word[i] <= 122 && word[i] != 107
  }

  lemma {:induction false} LowerSpells(w: Str, word: Str)
    requires Letters(word)
    ensures ToLower(w) == word <==> Spells(w, word)
    decreases |w|
  {
    if |w| > 0 && |word| > 0 {
      var n, head := Unit(w), HeadOf(w);
      LowerUnit(w);
      LowerSpells(w[n..], word[1..]);
      assert word == [word[0]] + word[1..];
      assert ([head] + ToLower(w[n..]))[1..] == ToLower(w[n..]);
      if |w| > 1 && w[0] == 0xC4 && w[1] == 0xB0 { assert w[0] != word[0] && w[0] as int != word[0] as int - 32; }
    }
  }

  /** How many bytes the first letter takes, and what it becomes. */
  function Unit(w: Str): (n: nat)
    requires |w| > 0
    ensures 0 < n <= |w|
  {
    if |w| >= 2 && w[0] == 0xC4 && w[1] == 0xB0 then 2
    else if |w| >= 3 && w[0] == 0xE2 && w[1] == 0x84 && w[2] == 0xAA then 3 else 1
  }

  function HeadOf(w: Str): byte
    requires |w| > 0
  {
    if Unit(w) == 2 then 105 else if Unit(w) == 3 then 107 else if 65 <= w[0] <= 90 then w[0] as int + 32 else w[0]
  }

  lemma {:induction false} LowerUnit(w: Str)
    requires |w| > 0
    ensures ToLower(w) == [HeadOf(w)] + ToLower(w[Unit(w)..])
  {
  }

  // "stable", "importing", "migrating", "node"
  const STABLE_WORD: Str := [115, 116, 97, 98, 108, 101]
  const IMPORTING_WORD: Str := [105, 109, 112, 111, 114, 116, 105, 110, 103]
  const MIGRATING_WORD: Str := [109, 105, 103, 114, 97, 116, 105, 110, 103]
  const NODE_WORD: Str := [110, 111, 100, 101]

  /** A slot number as strconv.Atoi reads it, within the table. */
  ghost predicate NamesSlot(s: Str, n: int) {
    Atoi(s) == Some(n) && 0 <= n < 16384
  }

  /** Everything a server understands, and that it refuses the rest. */
  lemma {:induction false} Understood(args: seq<Str>, known: set<Str>, n: nat)
    ensures Parse(args, known) == Stable(n) <==>
              |args| == 2 && NamesSlot(args[0], n) && Spells(args[1], STABLE_WORD)
    ensures forall id :: Parse(args, known) == Import(n, id) <==>
              |args| == 3 && NamesSlot(args[0], n) && Spells(args[1], IMPORTING_WORD) && args[2] == id && id in known
    ensures forall id :: Parse(args, known) == Migrate(n, id) <==>
              |args| == 3 && NamesSlot(args[0], n) && Spells(args[1], MIGRATING_WORD) && args[2] == id && id in known
    ensures forall id :: Parse(args, known) == Assign(n, id) <==>
              |args| == 3 && NamesSlot(args[0], n) && Spells(args[1], NODE_WORD) && args[2] == id && id in known
  {
    hide Atoi, ToLower, Spells;
    if |args| >= 2 {
      LowerSpells(args[1], STABLE_WORD);
      LowerSpells(args[1], IMPORTING_WORD);
      LowerSpells(args[1], MIGRATING_WORD);
      LowerSpells(args[1], NODE_WORD);
    }
  }

  // ----- the coordinator

  /** The strings clusterMoveSlots writes: "SETSLOT", the slot, "IMPORTING", "MIGRATING" or "NODE", and a name. */
  function ArgsOf(c: SetSlot): seq<Str>
    requires c.Import? || c.Migrate? || c.Assign?
  {
    [[83, 69, 84, 83, 76, 79, 84], Dec(c.slot),
     if c.Import? then [73, 77, 80, 79, 82, 84, 73, 78, 71]
     else if c.Migrate? then [77, 73, 71, 82, 65, 84, 73, 78, 71]
     else [78, 79, 68, 69],
     c.id]
  }

  lemma {:induction false} UpperSpells(w: Str, word: Str)
    requires |w| == |word| && forall i :: 0 <= i < |w| ==> w[i] as int == word[i] as int - 32
    ensures Spells(w, word)
  {
    if |w| > 0 { UpperSpells(w[1..], word[1..]); }
  }

  lemma {:induction false} UpperImporting()
    ensures Spells([73, 77, 80, 79, 82, 84, 73, 78, 71], IMPORTING_WORD)
  {
    hide Spells;
    UpperSpells([73, 77, 80, 79, 82, 84, 73, 78, 71], IMPORTING_WORD);
  }

  lemma {:induction false} UpperMigrating()
    ensures Spells([77, 73, 71, 82, 65, 84, 73, 78, 71], MIGRATING_WORD)
  {
    hide Spells;
    UpperSpells([77, 73, 71, 82, 65, 84, 73, 78, 71], MIGRATING_WORD);
  }

  lemma {:induction false} UpperNode()
    ensures Spells([78, 79, 68, 69], NODE_WORD)
  {
    hide Spells;
    UpperSpells([78, 79, 68, 69], NODE_WORD);
  }

  /** A server that knows the node named does what the coordinator means. */
  lemma {:induction false} CoordinatorIsUnderstood(c: SetSlot, known: set<Str>)
    requires (c.Import? || c.Migrate? || c.Assign?) && c.slot < 16384 && c.id in known
    ensures Parse(ArgsOf(c)[1..], known) == c
  {
    hide Spells, Atoi, Dec, Parse;
    var args := ArgsOf(c);
    assert args[1..] == [args[1], args[2], args[3]];
    assert Itoa(c.slot) == Dec(c.slot);
    AtoiItoa(c.slot);
    UpperImporting();
    UpperMigrating();
    UpperNode();
    Understood(args[1..], known, c.slot);
  }

  /** Every command of every rebalance is understood as it is meant. */
  lemma {:induction false} ScriptIsUnderstood(names: seq<Str>, jobs: seq<Job>, k: nat, p: nat, known: set<Str>)
    requires ValidJobs(jobs, |names|) && k <= |jobs| && p < |Script(names, jobs, k)|
    requires forall i :: 0 <= i < |names| ==> names[i] in known
    ensures
      var c := Script(names, jobs, k)[p].what;
      (c.Import? || c.Migrate? || c.Assign?) && Parse(ArgsOf(c)[1..], known) == c
  {
    hide Parse, ArgsOf, TellOthers;
    var before, j := Script(names, jobs, k - 1), jobs[k - 1];
    if p < |before| {
      ScriptIsUnderstood(names, jobs, k - 1, p, known);
    } else {
      var q := p - |before|;
      if q >= 4 { TellOthersAt(names, j, q - 4); }
      CoordinatorIsUnderstood(Block(names, j)[q].what, known);
    }
  }
}
