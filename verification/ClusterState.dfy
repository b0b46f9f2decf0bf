/**
 A node's view of the cluster: the nodes it knows, by name, who serves each slot, and the
 slots it serves itself, under CLUSTER ADDSLOTSRANGE, CLUSTER SETSLOT and messages from the
 cluster bus.
 */
module ClusterState {
  import opened Bytes
  import opened Numbers
  import opened Slots
  import opened Bitmap

  class ClusterNode {
    var Name: Str
    var Host: Str
    var ClientPort: int
    var ClusterBusPort: int
    var OwnedSlots: Words
    var NumSlots: nat
    var flags: int
    var balance: int

    /** The cached count is the number of set bits. */
    ghost predicate Valid()
      reads this
    {
      NumSlots == |Owned(OwnedSlots)|
    }

    /** NewNode; the name (a random identifier, after "temp_" for a node that has not been heard of yet) is given. */
    constructor (name: Str, port: int, host: Str, flags: int)
      ensures Valid() && Name == name && Owned(OwnedSlots) == {} && Host == host
      ensures ClientPort == port && ClusterBusPort == port + 10000 && this.flags == flags
    {
      Name, Host, ClientPort, ClusterBusPort, this.flags := name, host, port, port + 10000, flags;
      OwnedSlots, NumSlots, balance := seq(WORDS, _ => 0), 0, 0;
      new;
      forall s: nat | s < SLOTS ensures !Has(OwnedSlots, s) { ZeroHasNoBit(s % 64); }
      assert Owned(OwnedSlots) == {};
    }

    method SetOwnedSlots(slots: Words)
      modifies this`OwnedSlots, this`NumSlots
      ensures Valid() && OwnedSlots == slots
    {
      OwnedSlots := slots;
      NumSlots := CountSlots(slots);
    }

    method AddSlot(slot: nat)
      requires slot < SLOTS
      modifies this`OwnedSlots, this`NumSlots
      ensures Valid() && Owned(OwnedSlots) == old(Owned(OwnedSlots)) + {slot}
    {
      OwnedAfterAdd(OwnedSlots, slot);
      OwnedSlots := Add(OwnedSlots, slot);
      NumSlots := CountSlots(OwnedSlots);
    }

    method AddSlotRange(start: nat, end: nat)
      requires end < SLOTS
      modifies this`OwnedSlots, this`NumSlots
      ensures Valid() && Owned(OwnedSlots) == old(Owned(OwnedSlots)) + Interval(start, end + 1)
    {
      OwnedSlots := AddRange(OwnedSlots, start, end);
      NumSlots := CountSlots(OwnedSlots);
    }

    method RemoveSlot(slot: nat)
      requires slot < SLOTS
      modifies this`OwnedSlots, this`NumSlots
      ensures Valid() && Owned(OwnedSlots) == old(Owned(OwnedSlots)) - {slot}
    {
      OwnedAfterRemove(OwnedSlots, slot);
      OwnedSlots := Remove(OwnedSlots, slot);
      NumSlots := CountSlots(OwnedSlots);
    }

    method UpdateGossip(name: Str, clientPort: int, clusterBusPort: int, flags: int)
      modifies this`Name, this`ClientPort, this`ClusterBusPort, this`flags
      ensures Name == name && ClientPort == clientPort && ClusterBusPort == clusterBusPort && this.flags == flags
    {
      Name, ClientPort, ClusterBusPort, this.flags := name, clientPort, clusterBusPort, flags;
    }

    method UpdateMessage(name: Str, clientPort: int, clusterBusPort: int, flags: int, slots: Words)
      modifies this`Name, this`ClientPort, this`ClusterBusPort, this`flags, this`OwnedSlots, this`NumSlots
      ensures Valid() && Name == name && OwnedSlots == slots
      ensures ClientPort == clientPort && ClusterBusPort == clusterBusPort && this.flags == flags
    {
      Name, ClientPort, ClusterBusPort, this.flags := name, clientPort, clusterBusPort, flags;
      OwnedSlots := slots;
      NumSlots := CountSlots(slots);
    }
  }

  lemma {:induction false} ZeroHasNoBit(b: nat)
    ensures !Bit(0, b)
  {
    if b > 0 { ZeroHasNoBit(b - 1); }
  }

  /** One end of a connection on the cluster bus. */
  class Link {
    const host: Str           // the other end's address, as the connection gives it
    var node: ClusterNode?

    constructor (node: ClusterNode?, host: Str)
      ensures this.node == node && this.host == host
    {
      this.node, this.host := node, host;
    }
  }

  datatype Gossip = Gossip(name: Str, port: int, cport: int, flags: int)

  datatype Message = Message(sender: Str, port: int, cport: int, flags: int, slots: Words, gossip: seq<Gossip>)

  const TEMP: Str := [116, 101, 109, 112, 95]  // "temp_"

  predicate IsTemp(name: Str) {
    |name| >= |TEMP| && name[..|TEMP|] == TEMP
  }

  // ----- CLUSTER SETSLOT

  /**
   strings.ToLower, as far as it can yield ASCII: besides the letters of ASCII only U+0130 and
   U+212A have a lower case there, "i" and "k". Other bytes never become part of a keyword.
   */
  function ToLower(s: Str): Str {
    if |s| == 0 then []
    else if |s| >= 2 && s[0] == 0xC4 && s[1] == 0xB0 then [105] + ToLower(s[2..])
    else if |s| >= 3 && s[0] == 0xE2 && s[1] == 0x84 && s[2] == 0xAA then [107] + ToLower(s[3..])
    else [if 65 <= s[0] <= 90 then s[0] as int + 32 else s[0]] + ToLower(s[1..])
  }

  const STABLE: Str := [115, 116, 97, 98, 108, 101]
  const IMPORTING: Str := [105, 109, 112, 111, 114, 116, 105, 110, 103]
  const MIGRATING: Str := [109, 105, 103, 114, 97, 116, 105, 110, 103]
  const NODE: Str := [110, 111, 100, 101]

  datatype SetSlot =
    | Stable(slot: nat) | Import(slot: nat, id: Str) | Migrate(slot: nat, id: Str) | Assign(slot: nat, id: Str)
    | Refused

  function SlotArgument(s: Str): Option<nat> {
    match Atoi(s)
    case None => None
    case Some(n) => if 0 <= n < SLOTS then Some(n) else None
  }

  /** What the arguments of SETSLOT ask for; a state that needs a node is refused when the node is unknown. */
  function Parse(args: seq<Str>, known: set<Str>): (c: SetSlot)
    ensures !c.Refused? ==> c.slot < SLOTS
  {
    if |args| == 2 then
      if ToLower(args[1]) != STABLE then Refused
      else match SlotArgument(args[0]) case None => Refused case Some(n) => Stable(n)
    else if |args| != 3 then Refused
    else match SlotArgument(args[0])
      case None => Refused
      case Some(n) =>
        var state := ToLower(args[1]);
        if args[2] !in known then Refused
        else if state == IMPORTING then Import(n, args[2])
        else if state == MIGRATING then Migrate(n, args[2])
        else if state == NODE then Assign(n, args[2])
        else Refused
  }

  /** What SETSLOT does to the slots a node serves itself. */
  function ServedAfter(served: set<nat>, c: SetSlot, self: Str): set<nat> {
    if !c.Assign? then served
    else if c.id == self then served + {c.slot}
    else served - {c.slot}
  }

  /** What SETSLOT does to the slots that are being imported, when `node` is the one it names. */
  function ImportingAfter<T>(m: map<nat, T>, c: SetSlot, node: T): map<nat, T> {
    if c.Import? then m[c.slot := node] else if c.Stable? || c.Assign? then m - {c.slot} else m
  }

  /** And to those that are migrating away. */
  function MigratingAfter<T>(m: map<nat, T>, c: SetSlot, node: T): map<nat, T> {
    if c.Migrate? then m[c.slot := node] else if c.Stable? || c.Assign? then m - {c.slot} else m
  }

  class ClusterState {
    const Self: ClusterNode
    var Nodes: map<Str, ClusterNode>
    const Slots: array<ClusterNode?>
    var Importing: map<nat, ClusterNode>
    var Migrating: map<nat, ClusterNode>

    /** Every node object there is: in the table, behind a link, or this node itself. */
    ghost var universe: set<ClusterNode>

    ghost predicate NodesOk()
      reads this`Nodes, this`universe, universe
    {
      && Self in universe
      && (forall n :: n in universe ==> n.Valid() && (n.Name == Self.Name ==> n == Self))
      && (forall k :: k in Nodes ==> Nodes[k] in universe && Nodes[k].Name == k)
      && Self.Name in Nodes
    }

    /** The routing table and this node's own bitmap say the same. */
    ghost predicate SlotsOk()
      reads Self`OwnedSlots, Slots
    {
      Slots.Length == SLOTS && forall s: nat :: s < SLOTS ==> (Slots[s] == Self <==> s in Owned(Self.OwnedSlots))
    }

    ghost predicate Valid()
      reads this, universe, Self, Slots
    {
      NodesOk() && SlotsOk()
    }

    /** A server at start: it knows itself and serves nothing. */
    constructor (self: ClusterNode)
      requires self.Valid() && Owned(self.OwnedSlots) == {}
      ensures Valid() && Self == self && fresh(Slots) && universe == {self}
      ensures Nodes == map[self.Name := self] && Importing == Migrating == map[]
      ensures forall s :: 0 <= s < SLOTS ==> Slots[s] == null
    {
      Self := self;
      var none: map<Str, ClusterNode> := map[];
      Nodes := none[self.Name := self];
      Slots := new ClusterNode?[SLOTS](_ => null);
      Importing, Migrating := map[], map[];
      universe := {self};
    }

    /** The ADDSLOTSRANGE case of handleCluster. */
    method AddSlotsRange(startArg: Str, endArg: Str) returns (ok: bool)
      requires Valid()
      modifies Slots, Self`OwnedSlots, Self`NumSlots
      ensures Valid()
      ensures
        var a, b := Atoi(startArg), Atoi(endArg);
        if a.Some? && b.Some? && 0 <= a.value <= b.value < SLOTS
        then ok && Owned(Self.OwnedSlots) == old(Owned(Self.OwnedSlots)) + Interval(a.value, b.value + 1)
        else !ok && Owned(Self.OwnedSlots) == old(Owned(Self.OwnedSlots))
      ensures forall s: nat :: s < SLOTS && s !in Owned(Self.OwnedSlots) ==> Slots[s] == old(Slots[s])
    {
      hide Owned, Atoi;
      var a, b := Atoi(startArg), Atoi(endArg);
      if a.None? || b.None? { return false; }
      var slotStart, slotEnd := a.value, b.value;
      if slotStart < 0 || slotEnd < slotStart || slotEnd >= SLOTS { return false; }
      Route(slotStart, slotEnd);
      Self.AddSlotRange(slotStart, slotEnd);
      ok := true;
    }

    /** The routing table names this node for the range. */
    method Route(start: nat, end: nat)
      requires Slots.Length == SLOTS && start <= end < SLOTS
      modifies Slots
      ensures forall s: nat :: s < SLOTS ==> Slots[s] == if start <= s <= end then Self else old(Slots[s])
    {
      for slot := start to end + 1
        invariant forall s: nat :: s < SLOTS ==> Slots[s] == if start <= s < slot then Self else old(Slots[s])
      {
        Slots[slot] := Self;
      }
    }

    /** ClusterSetSlot. */
    method ClusterSetSlot(args: seq<Str>) returns (c: SetSlot)
      requires Valid()
      modifies this`Importing, this`Migrating, Slots, Self`OwnedSlots, Self`NumSlots
      ensures Valid()
      ensures c == Parse(args, Nodes.Keys)
      ensures Owned(Self.OwnedSlots) == ServedAfter(old(Owned(Self.OwnedSlots)), c, Self.Name)
      ensures c.Assign? ==> Slots[c.slot] == Nodes[c.id]
      ensures
        var node := if c.Refused? || c.Stable? then Self else Nodes[c.id];
        Importing == ImportingAfter(old(Importing), c, node) && Migrating == MigratingAfter(old(Migrating), c, node)
      ensures forall s: nat :: s < SLOTS && !(c.Assign? && s == c.slot) ==> Slots[s] == old(Slots[s])
    {
      hide Owned, ToLower, SlotArgument;
      c := Parse(args, Nodes.Keys);
      match c {
        case Refused =>
        case Stable(slot) =>
          Importing, Migrating := Importing - {slot}, Migrating - {slot};
        case Import(slot, id) => Importing := Importing[slot := Nodes[id]];
        case Migrate(slot, id) => Migrating := Migrating[slot := Nodes[id]];
        case Assign(slot, id) => AssignSlot(slot, id);
      }
    }

    /** The "node" case of ClusterSetSlot. */
    method AssignSlot(slot: nat, id: Str)
      requires Valid() && slot < SLOTS && id in Nodes
      modifies this`Importing, this`Migrating, Slots, Self`OwnedSlots, Self`NumSlots
      ensures Valid()
      ensures Owned(Self.OwnedSlots) == ServedAfter(old(Owned(Self.OwnedSlots)), Assign(slot, id), Self.Name)
      ensures Slots[slot] == Nodes[id]
      ensures Importing == old(Importing) - {slot} && Migrating == old(Migrating) - {slot}
      ensures forall s: nat :: s < SLOTS && s != slot ==> Slots[s] == old(Slots[s])
    {
      hide Owned, NodesOk;
      var node, self := Resolve(id);
      Slots[slot] := node;
      UpdateServed(slot, self);
      Importing, Migrating := Importing - {slot}, Migrating - {slot};
    }

    /** The node of that name, and whether it is this one. */
    method Resolve(id: Str) returns (node: ClusterNode, self: bool)
      requires NodesOk() && id in Nodes
      ensures node == Nodes[id] && (self <==> node == Self) && (self <==> id == Self.Name)
    {
      node := Nodes[id];
      self := node.Name == Self.Name;
    }

    /** The new owner adds the slot; a node that serves it and is not the new owner gives it up. */
    method UpdateServed(slot: nat, self: bool)
      requires NodesOk() && slot < SLOTS
      modifies Self`OwnedSlots, Self`NumSlots
      ensures NodesOk()
      ensures Owned(Self.OwnedSlots) == if self then old(Owned(Self.OwnedSlots)) + {slot}
        else old(Owned(Self.OwnedSlots)) - {slot}
    {
      hide Owned;
      if self {
        Self.AddSlot(slot);
      } else {
        var served := HasSlot(slot);
        if served { Self.RemoveSlot(slot); }
      }
    }

    method HasSlot(slot: nat) returns (r: bool)
      requires slot < SLOTS
      ensures r <==> slot in Owned(Self.OwnedSlots)
    {
      r := Has(Self.OwnedSlots, slot);
    }

    /** SetNode. */
    method SetNode(node: ClusterNode)
      requires NodesOk() && node.Valid() && (node.Name == Self.Name ==> node == Self)
      modifies this`Nodes, this`universe
      ensures NodesOk() && universe == old(universe) + {node} && Nodes == old(Nodes)[node.Name := node]
    {
      Nodes := Nodes[node.Name := node];
      universe := universe + {node};
    }

    /** Every other node in the first `n` entries is at the ports the last of them about it says. */
    ghost predicate LastTold(gossip: seq<Gossip>, n: nat)
      requires n <= |gossip|
      reads this`Nodes, Nodes.Values, Self`Name
    {
      forall k :: k in NamesIn(gossip, n) && k != Self.Name ==> k in Nodes && Told(Nodes[k], LastAbout(gossip, n, k))
    }

    /** One entry of clusterProcessGossip. */
    method LearnOf(g: Gossip)
      requires NodesOk()
      modifies this`Nodes, this`universe, (universe - {Self})`Name, (universe - {Self})`ClientPort,
        (universe - {Self})`ClusterBusPort, (universe - {Self})`flags
      ensures NodesOk() && fresh(universe - old(universe)) && old(universe) <= universe
      ensures Nodes.Keys == old(Nodes.Keys) + {g.name} && forall n :: n in old(universe) ==> n.Name == old(n.Name)
      ensures g.name != Self.Name ==> Told(Nodes[g.name], g)
      ensures forall k :: k in old(Nodes) ==> Nodes[k] == old(Nodes[k])
      ensures forall n :: n in old(universe) && n.Name != g.name ==>
        n.ClientPort == old(n.ClientPort) && n.ClusterBusPort == old(n.ClusterBusPort) && n.flags == old(n.flags)
    {
      hide Owned;
      // This node does not learn of itself through gossip.
      if g.name == Self.Name { return; }
      if g.name !in Nodes {
        var node := new ClusterNode([], g.port, [], g.flags);
        node.UpdateGossip(g.name, g.port, g.cport, g.flags);
        SetNode(node);
      } else {
        var node := Nodes[g.name];
        node.UpdateGossip(g.name, g.port, g.cport, g.flags);
      }
    }

    lemma {:induction false} NoneTold(gossip: seq<Gossip>)
      ensures LastTold(gossip, 0)
    {
    }

    /** The next entry has the last word about its node and changes no other. */
    method LearnNext(gossip: seq<Gossip>, i: nat)
      requires NodesOk() && i < |gossip| && LastTold(gossip, i) && NamesIn(gossip, i) <= Nodes.Keys
      modifies this`Nodes, this`universe, (universe - {Self})`Name, (universe - {Self})`ClientPort,
        (universe - {Self})`ClusterBusPort, (universe - {Self})`flags
      ensures NodesOk() && fresh(universe - old(universe)) && old(universe) <= universe
      ensures Nodes.Keys == old(Nodes.Keys) + {gossip[i].name}
      ensures forall n :: n in old(universe) ==> n.Name == old(n.Name)
      ensures LastTold(gossip, i + 1)
      ensures forall n :: n in old(universe) && n.Name != gossip[i].name ==>
        n.ClientPort == old(n.ClientPort) && n.ClusterBusPort == old(n.ClusterBusPort) && n.flags == old(n.flags)
    {
      hide Owned;
      LearnOf(gossip[i]);
    }

    /** clusterProcessGossip: learns of nodes and refreshes their addresses; never this node's own entry. */
    method ProcessGossip(gossip: seq<Gossip>)
      requires NodesOk()
      modifies this`Nodes, this`universe, (universe - {Self})`Name, (universe - {Self})`ClientPort,
        (universe - {Self})`ClusterBusPort, (universe - {Self})`flags
      ensures NodesOk() && fresh(universe - old(universe)) && old(universe) <= universe
      ensures Nodes.Keys == old(Nodes.Keys) + NamesIn(gossip, |gossip|)
      ensures forall n :: n in old(universe) ==> n.Name == old(n.Name)
      ensures LastTold(gossip, |gossip|)
      ensures forall n :: n in old(universe) && n.Name !in NamesIn(gossip, |gossip|) ==>
        n.ClientPort == old(n.ClientPort) && n.ClusterBusPort == old(n.ClusterBusPort) && n.flags == old(n.flags)
    {
      hide Owned, NodesOk, LastTold;
      assert LastTold(gossip, 0) by { NoneTold(gossip); }
      for i := 0 to |gossip|
        invariant NodesOk() && fresh(universe - old(universe)) && old(universe) <= universe
        invariant Nodes.Keys == old(Nodes.Keys) + NamesIn(gossip, i)
        invariant forall n :: n in old(universe) ==> n.Name == old(n.Name)
        invariant LastTold(gossip, i)
        invariant forall n :: n in old(universe) && n.Name !in NamesIn(gossip, i) ==>
          n.ClientPort == old(n.ClientPort) && n.ClusterBusPort == old(n.ClusterBusPort) && n.flags == old(n.flags)
      {
        LearnNext(gossip, i);
      }
    }

    /** A message's sender, as far as it is known before the gossip is looked at. */
    method FileSender(link: Link, msg: Message)
      requires NodesOk() && (link.node != null ==> link.node in universe && link.node != Self)
      requires msg.sender != Self.Name
      modifies link, this`Nodes, this`universe, universe - {Self}
      ensures NodesOk() && fresh(universe - old(universe)) && old(universe) <= universe
      ensures link.node != null && link.node in universe && link.node != Self
      ensures old(link.node) != null ==> link.node == old(link.node)
      ensures link.node.OwnedSlots == msg.slots
      ensures old(link.node == null || IsTemp(link.node.Name)) ==>
        Told(link.node, Gossip(msg.sender, msg.port, msg.cport, msg.flags))
      ensures if old(link.node) == null then fresh(link.node) && link.node.Host == link.host
              else link.node.Host == old(link.node.Host)
      ensures forall n :: n in old(universe) && n != old(link.node) ==> n.Name == old(n.Name)
      ensures Nodes.Keys ==
              old(Nodes.Keys - if link.node != null && IsTemp(link.node.Name) then {link.node.Name} else {})
              + {link.node.Name}
      ensures Nodes[link.node.Name] == link.node
      ensures link.node.Name == old(if link.node == null || IsTemp(link.node.Name) then msg.sender else link.node.Name)
    {
      hide Owned;
      var node := link.node;
      if node != null {
        if IsTemp(node.Name) {
          Nodes := Nodes - {node.Name};
          node.UpdateMessage(msg.sender, msg.port, msg.cport, msg.flags, msg.slots);
        } else {
          node.SetOwnedSlots(msg.slots);
        }
      } else {
        node := new ClusterNode([], msg.port, link.host, msg.flags);
        node.UpdateMessage(msg.sender, msg.port, msg.cport, msg.flags, msg.slots);
        link.node := node;
      }
      SetNode(node);
    }

    /**
     The part of clusterProcessMsg that changes the state. A node first known under a
     temporary name is filed under its own name from then on. Nothing a message says changes
     which slots this node serves.
     */
    method ProcessMsg(link: Link, msg: Message)
      requires Valid() && (link.node != null ==> link.node in universe && link.node != Self)
      requires msg.sender != Self.Name
      modifies link, this`Nodes, this`universe, universe - {Self}
      ensures Valid() && fresh(universe - old(universe)) && old(universe) <= universe
      ensures Self.OwnedSlots == old(Self.OwnedSlots) && Slots[..] == old(Slots[..])
      ensures link.node != null && link.node in universe && link.node != Self
      ensures if old(link.node) == null then fresh(link.node) else link.node == old(link.node)
      ensures link.node.OwnedSlots == msg.slots
      ensures forall n :: n in old(universe) && n != old(link.node) ==> n.Name == old(n.Name)
      ensures link.node.Name == old(if link.node == null || IsTemp(link.node.Name) then msg.sender else link.node.Name)
      ensures Nodes.Keys ==
              old(Nodes.Keys - if link.node != null && IsTemp(link.node.Name) then {link.node.Name} else {})
              + {link.node.Name} + NamesIn(msg.gossip, |msg.gossip|)
      ensures LastTold(msg.gossip, |msg.gossip|)
      ensures old(link.node == null || IsTemp(link.node.Name)) && msg.sender !in NamesIn(msg.gossip, |msg.gossip|) ==>
        Told(link.node, Gossip(msg.sender, msg.port, msg.cport, msg.flags))
    {
      hide Owned, NodesOk;
      FileSender(link, msg);
      ProcessGossip(msg.gossip);
    }
  }

  ghost predicate Told(n: ClusterNode, g: Gossip)
    reads n
  {
    n.ClientPort == g.port && n.ClusterBusPort == g.cport && n.flags == g.flags
  }

  /** The last of the first `n` entries that is about the node. */
  function LastAbout(gossip: seq<Gossip>, n: nat, name: Str): (g: Gossip)
    requires n <= |gossip| && name in NamesIn(gossip, n)
    ensures g.name == name
  {
    if gossip[n - 1].name == name then gossip[n - 1] else LastAbout(gossip, n - 1, name)
  }

  /** The names in the first `n` entries. */
  function NamesIn(gossip: seq<Gossip>, n: nat): set<Str>
    requires n <= |gossip|
  {
    if n == 0 then {} else NamesIn(gossip, n - 1) + {gossip[n - 1].name}
  }

  // ----- whole runs

  datatype Event =
    | AddSlots(start: Str, end: Str)                          // CLUSTER ADDSLOTSRANGE
    | Slot(args: seq<Str>)                                    // SETSLOT
    | Meet(host: Str, port: int, name: Str, reached: bool)    // CLUSTER MEET, with the temporary name that is drawn
    | Accept(host: Str)                                       // a connection from another node
    | Receive(link: nat, msg: Message)                        // a bus message on a connection

  /** Bus messages and temporary names do not carry this node's own name. */
  predicate Foreign(e: Event, self: Str) {
    (e.Receive? ==> e.msg.sender != self) && (e.Meet? ==> e.name != self)
  }

  /** The names in the table, and for every connection the name of the node behind it once that is known. */
  datatype View = View(known: set<Str>, peers: seq<Option<Str>>)

  /** What an event does to the names: only MEET and bus messages matter, and only temporary names are forgotten. */
  function ViewAfter(v: View, e: Event): View {
    match e
    case Meet(_, _, name, reached) => View(v.known + {name}, v.peers + if reached then [Some(name)] else [])
    case Accept(_) => v.(peers := v.peers + [None])
    case Receive(i, msg) =>
      if i >= |v.peers| then v
      else
        var was := v.peers[i];
        var temporary := was.Some? && IsTemp(was.value);
        var name := if was.None? || temporary then msg.sender else was.value;
        View((if temporary then v.known - {was.value} else v.known) + {name} + NamesIn(msg.gossip, |msg.gossip|),
             v.peers[i := Some(name)])
    case _ => v
  }

  /** What an event does to the slots this node serves, when the names in `known` are in its table. */
  function ServedBy(served: set<nat>, e: Event, self: Str, known: set<Str>): set<nat> {
    match e
    case AddSlots(start, end) =>
      var a, b := Atoi(start), Atoi(end);
      if a.Some? && b.Some? && 0 <= a.value <= b.value < SLOTS then served + Interval(a.value, b.value + 1) else served
    case Slot(args) => ServedAfter(served, Parse(args, known), self)
    case _ => served
  }

  function ViewOf(v: View, events: seq<Event>): View {
    if |events| == 0 then v else ViewAfter(ViewOf(v, events[..|events| - 1]), events[|events| - 1])
  }

  /** What a node serves after a run, from what it served and whom it knew before. */
  function ServedOf(served: set<nat>, v: View, self: Str, events: seq<Event>): set<nat> {
    if |events| == 0 then served
    else
      var before, e := events[..|events| - 1], events[|events| - 1];
      ServedBy(ServedOf(served, v, self, before), e, self, ViewOf(v, before).known)
  }

  /** Runs without ADDSLOTSRANGE and SETSLOT, whatever is said on the bus, leave what a node serves as it is. */
  lemma {:induction false} BusChangesNoSlot(served: set<nat>, v: View, self: Str, events: seq<Event>)
    requires forall i :: 0 <= i < |events| ==> !events[i].AddSlots? && !events[i].Slot?
    ensures ServedOf(served, v, self, events) == served
  {
    if |events| > 0 { BusChangesNoSlot(served, v, self, events[..|events| - 1]); }
  }

  /** A name that is not temporary is known for good once it is known. */
  lemma {:induction false} NamesStayKnown(v: View, events: seq<Event>, name: Str)
    requires name in v.known && !IsTemp(name)
    ensures name in ViewOf(v, events).known
  {
    hide NamesIn;
    if |events| > 0 { NamesStayKnown(v, events[..|events| - 1], name); }
  }

  /** Every connection has a node of its own, which is not this one. */
  ghost predicate LinksOk(links: seq<Link>, universe: set<ClusterNode>, self: ClusterNode)
    reads links
  {
    && (forall i :: 0 <= i < |links| && links[i].node != null ==> links[i].node in universe && links[i].node != self)
    && (forall i, j :: 0 <= i < j < |links| ==>
          links[i] != links[j] && (links[i].node != null ==> links[i].node != links[j].node))
  }

  ghost predicate PeersAre(links: seq<Link>, peers: seq<Option<Str>>)
    reads links, set l | l in links :: l.node
  {
    |links| == |peers| && forall i :: 0 <= i < |links| ==> PeerIs(links[i], peers[i])
  }

  ghost predicate PeerIs(link: Link, peer: Option<Str>)
    reads link, link.node
  {
    if link.node == null then peer.None? else peer == Some(link.node.Name)
  }

  /**
   ClusterStartHandshake: the peer is filed under a temporary name until it answers, and
   stays there when it cannot be reached; `reached` says whether the connection came about.
   */
  method StartHandshake(st: ClusterState, host: Str, port: int, name: Str, reached: bool) returns (link: Link?)
    requires st.Valid() && name != st.Self.Name
    modifies st`Nodes, st`universe
    ensures st.Valid() && fresh(st.universe - old(st.universe)) && old(st.universe) <= st.universe
    ensures name in st.Nodes && fresh(st.Nodes[name]) && st.Nodes == old(st.Nodes)[name := st.Nodes[name]]
    ensures
      var node := st.Nodes[name];
      && node.Name == name && node.Host == host && node.ClientPort == port && Owned(node.OwnedSlots) == {}
      && node.ClusterBusPort == port + 10000 && node.flags == 160
    ensures reached <==> link != null
    ensures reached ==> fresh(link) && link.node == st.Nodes[name]
  {
    hide Owned;
    var node := new ClusterNode(name, port, host, 160);
    st.SetNode(node);
    if !reached { return null; }
    link := new Link(node, host);
  }

  /** A bus message on one of the connections. */
  method ReceiveOn(st: ClusterState, links: seq<Link>, i: nat, msg: Message, ghost peers: seq<Option<Str>>)
    requires st.Valid() && msg.sender != st.Self.Name && LinksOk(links, st.universe, st.Self) && PeersAre(links, peers)
    modifies st, st.universe, links
    ensures st.Valid() && fresh(st.universe - old(st.universe)) && LinksOk(links, st.universe, st.Self)
    ensures st.Self.Name == old(st.Self.Name) && Owned(st.Self.OwnedSlots) == old(Owned(st.Self.OwnedSlots))
    ensures
      var v := ViewAfter(View(old(st.Nodes.Keys), peers), Receive(i, msg));
      st.Nodes.Keys == v.known && PeersAre(links, v.peers)
  {
    hide Owned, NamesIn, IsTemp, st.SlotsOk, st.LastTold, Told;
    if i < |links| {
      assert PeerIs(links[i], peers[i]);
      st.ProcessMsg(links[i], msg);
      ghost var v := ViewAfter(View(old(st.Nodes.Keys), peers), Receive(i, msg));
      forall k | 0 <= k < |links| ensures PeerIs(links[k], v.peers[k]) {
        assert old(PeerIs(links[k], peers[k]));
      }
    }
  }

  /** CLUSTER ADDSLOTSRANGE and SETSLOT. */
  method Command(st: ClusterState, e: Event)
    requires st.Valid() && (e.AddSlots? || e.Slot?)
    modifies st`Importing, st`Migrating, st.Slots, st.Self`OwnedSlots, st.Self`NumSlots
    ensures st.Valid()
    ensures Owned(st.Self.OwnedSlots) == ServedBy(old(Owned(st.Self.OwnedSlots)), e, st.Self.Name, st.Nodes.Keys)
  {
    hide Owned, Atoi, Parse, ServedAfter;
    match e {
      case AddSlots(start, end) => var _ := st.AddSlotsRange(start, end);
      case Slot(args) => var _ := st.ClusterSetSlot(args);
    }
  }

  /** One event. */
  method Handle(st: ClusterState, links: seq<Link>, e: Event, ghost peers: seq<Option<Str>>) returns (links': seq<Link>)
    requires st.Valid() && Foreign(e, st.Self.Name) && LinksOk(links, st.universe, st.Self) && PeersAre(links, peers)
    modifies st, st.Slots, st.universe, links
    ensures st.Valid() && fresh(st.universe - old(st.universe)) && fresh((set l | l in links') - set l | l in links)
    ensures LinksOk(links', st.universe, st.Self) && st.Self.Name == old(st.Self.Name)
    ensures
      var v := ViewAfter(View(old(st.Nodes.Keys), peers), e);
      st.Nodes.Keys == v.known && PeersAre(links', v.peers)
    ensures Owned(st.Self.OwnedSlots) ==
            ServedBy(old(Owned(st.Self.OwnedSlots)), e, st.Self.Name, old(st.Nodes.Keys))
  {
    hide Owned, Atoi, Parse, ServedAfter, NamesIn, IsTemp, st.SlotsOk;
    links' := links;
    match e {
      case AddSlots(_, _) => Command(st, e);
      case Slot(_) => Command(st, e);
      case Meet(host, port, name, reached) =>
        var link := StartHandshake(st, host, port, name, reached);
        if link != null { links' := links + [link]; }
      case Accept(host) =>
        var link := new Link(null, host);
        links' := links + [link];
      case Receive(i, msg) => ReceiveOn(st, links, i, msg, peers);
    }
  }

  /**
   Over every run the table stays keyed by the nodes' current names, every cached count stays
   right and the routing table agrees with this node's bitmap. Whom this node knows and what
   it serves at the end are functions of the start and the events, and of the events only
   ADDSLOTSRANGE and SETSLOT change what it serves.
   */
  method Run(st: ClusterState, events: seq<Event>)
    requires st.Valid() && forall i :: 0 <= i < |events| ==> Foreign(events[i], st.Self.Name)
    modifies st, st.Slots, st.universe
    ensures st.Valid() && st.Self.Name == old(st.Self.Name)
    ensures st.Nodes.Keys == ViewOf(View(old(st.Nodes.Keys), []), events).known
    ensures Owned(st.Self.OwnedSlots) ==
            ServedOf(old(Owned(st.Self.OwnedSlots)), View(old(st.Nodes.Keys), []), st.Self.Name, events)
  {
    hide Owned, Foreign, ViewAfter, ServedBy, PeerIs, ClusterState.NodesOk, ClusterState.SlotsOk;
    var links: seq<Link> := [];
    ghost var start := View(st.Nodes.Keys, []);
    ghost var v := start;
    for i := 0 to |events|
      invariant st.Valid() && LinksOk(links, st.universe, st.Self) && st.Self.Name == old(st.Self.Name)
      invariant fresh(st.universe - old(st.universe)) && fresh(set l | l in links)
      invariant v == ViewOf(start, events[..i]) && st.Nodes.Keys == v.known && PeersAre(links, v.peers)
      invariant Owned(st.Self.OwnedSlots) ==
                ServedOf(old(Owned(st.Self.OwnedSlots)), start, st.Self.Name, events[..i])
    {
      assert events[..i + 1][..i] == events[..i];
      links := Handle(st, links, events[i], v.peers);
      v := ViewAfter(v, events[i]);
    }
    assert events[..|events|] == events;
  }
}
