/** The table of router ports bound to endpoint listeners (pkg/state/infra.go:94-97, 453-461, 625-704). */
module InfraPorts {
  import opened InfraTypes

  datatype Binding = Unbound | Bound(name: string)

  type Table = map<nat, Binding>

  const FIRST_PORT := 40000

  const END_PORT := 40100

  function ProtocolName(p: Protocol): string {
    match p
    case AMQP => "AMQP"
    case AMQPS => "AMQPS"
    case AMQPWS => "AMQP-WS"
    case AMQPWSS => "AMQP-WSS"
  }

  function PortName(key: ResourceKey, p: Protocol): string { key.namespace + "-" + key.name + "-" + ProtocolName(p) }

  /** No name holds two ports. */
  ghost predicate OnePortPerName(t: Table) {
    forall p, q :: p in t && q in t && t[p].Bound? && t[p] == t[q] ==> p == q
  }

  predicate Holds(t: Table, name: string) { exists p :: p in t && t[p] == Bound(name) }

  /** What binding a name to a port may do: find the port it holds, or take a port that nobody holds. */
  ghost predicate Allocated(before: Table, name: string, port: nat, after: Table) {
    && after == before[port := Bound(name)] && port in before
    && (before[port] == Bound(name) || (before[port].Unbound? && !Holds(before, name)))
  }

  /** The only reason to fail: every port is bound, none of them to the name. */
  predicate Exhausted(t: Table, name: string) { !Holds(t, name) && forall p :: p in t ==> t[p].Bound? }

  lemma AllocatedKeeps(before: Table, name: string, port: nat, after: Table)
    requires Allocated(before, name, port, after)
    ensures OnePortPerName(before) ==> OnePortPerName(after)
    ensures after.Keys == before.Keys && Holds(after, name)
    ensures forall p :: p in before && before[p].Bound? ==> after[p] == before[p]
  {
    assert after[port] == Bound(name);
    if OnePortPerName(before) {
      forall p, q | p in after && q in after && after[p].Bound? && after[p] == after[q]
        ensures p == q
      {
        if before[port].Unbound? && (p == port || q == port) {
          assert p in before && q in before;
        }
      }
    }
  }

  predicate IsWebsocket(p: Protocol) { p.AMQPWS? || p.AMQPWSS? }

  /** The table after the ports that are not websocket ports are freed. */
  function Freed(t: Table, ports: seq<Port>): Table {
    if ports == [] then t
    else
      var last := ports[|ports| - 1];
      var rest := Freed(t, ports[..|ports| - 1]);
      if IsWebsocket(last.protocol) then rest else rest[last.number := Unbound]
  }

  function WebsocketPorts(ports: seq<Port>): seq<Port> {
    if ports == [] then []
    else
      WebsocketPorts(ports[..|ports| - 1]) + if IsWebsocket(ports[|ports| - 1].protocol) then [ports[|ports| - 1]] else []
  }

  /** The list has the port for AMQP or AMQPS. */
  predicate GivesUp(listed: seq<Port>, p: nat) { exists x :: x in listed && (x.protocol.AMQP? || x.protocol.AMQPS?) && x.number == p }

  /** Exactly the ports that are not websocket ports are freed, and no name gains a port. */
  lemma {:induction false} FreedExactly(t: Table, ports: seq<Port>)
    ensures forall p :: p in Freed(t, ports) <==> p in t || GivesUp(ports, p)
    ensures forall p :: p in Freed(t, ports) ==> Freed(t, ports)[p] == if GivesUp(ports, p) then Unbound else t[p]
    decreases |ports|
  {
    if ports != [] {
      var front, last := ports[..|ports| - 1], ports[|ports| - 1];
      FreedExactly(t, front);
      assert forall x :: x in ports <==> x in front || x == last;
    }
  }

  lemma FreedKeeps(t: Table, ports: seq<Port>)
    ensures OnePortPerName(t) ==> OnePortPerName(Freed(t, ports))
    ensures (forall x :: x in ports ==> x.number in t) ==> Freed(t, ports).Keys == t.Keys
  {
    hide Freed;
    FreedExactly(t, ports);
    if forall x :: x in ports ==> x.number in t {
      assert forall p :: p in Freed(t, ports) <==> p in t;
    }
  }

  class PortTable {
    var ports: Table

    constructor ()
      ensures OnePortPerName(ports) && forall p :: p in ports <==> FIRST_PORT <= p < END_PORT
      ensures forall p :: p in ports ==> ports[p].Unbound?
    {
      var table: Table := map[];
      for i := FIRST_PORT to END_PORT
        invariant forall p :: p in table <==> FIRST_PORT <= p < i
        invariant forall p :: p in table ==> table[p].Unbound?
      {
        table := table[i := Unbound];
      }
      ports := table;
    }

    /** The port that the name holds, or any free one. */
    method AllocatePort(name: string) returns (failed: bool, port: nat)
      modifies this
      ensures failed <==> Exhausted(old(ports), name)
      ensures if failed then ports == old(ports) else Allocated(old(ports), name, port, ports)
    {
      var todo := ports.Keys;
      while todo != {}
        invariant ports == old(ports) && todo <= ports.Keys
        invariant forall p :: p in ports && p !in todo ==> ports[p] != Bound(name)
        decreases |todo|
      {
        var p :| p in todo;
        if ports[p] == Bound(name) {
          assert ports[p := Bound(name)] == ports;
          return false, p;
        }
        todo := todo - {p};
      }
      assert !Holds(ports, name);
      todo := ports.Keys;
      while todo != {}
        invariant ports == old(ports) && todo <= ports.Keys
        invariant forall p :: p in ports && p !in todo ==> ports[p].Bound?
        decreases |todo|
      {
        var p :| p in todo;
        if ports[p].Unbound? {
          ports := ports[p := Bound(name)];
          return false, p;
        }
        todo := todo - {p};
      }
      return true, 0;
    }

    /** freePortsInternal: `left` are the ports that the endpoint still lists. */
    method FreePorts(initialized: bool, e: Endpoint) returns (left: seq<Port>)
      modifies this
      ensures ports == (if initialized then Freed(old(ports), e.ports) else old(ports))
      ensures left == if initialized then WebsocketPorts(e.ports) else e.ports
    {
      if !initialized {
        return e.ports;
      }
      left := [];
      var i := 0;
      while i < |e.ports|
        invariant 0 <= i <= |e.ports| && ports == Freed(old(ports), e.ports[..i]) && left == WebsocketPorts(e.ports[..i])
      {
        var p := e.ports[i];
        assert e.ports[..i + 1][..i] == e.ports[..i];
        if !IsWebsocket(p.protocol) {
          ports := ports[p.number := Unbound];
        } else {
          left := left + [p];
        }
        i := i + 1;
      }
      assert e.ports[..i] == e.ports;
    }

    /** AllocatePorts for one endpoint goes through `states`, one for each protocol served. It fails at the first protocol for which
        no port is left, and keeps what was allocated before that. */
    method AllocatePorts(initialized: bool, e: Endpoint, protocols: seq<Protocol>)
      returns (failed: bool, listed: seq<Port>, ghost states: seq<PortState>)
      modifies this
      ensures initialized ==> Allocating(e.key, protocols, states) && (failed <==> |states| <= |protocols|)
      ensures !initialized ==> failed && |states| == 1
      ensures states[0] == PortState(old(ports), e.ports) && states[|states| - 1] == PortState(ports, listed)
      ensures Grew(e.key, PortState(old(ports), e.ports), PortState(ports, listed))
      ensures !failed ==> forall q :: q in protocols ==> Lists(listed, PortName(e.key, q))
    {
      listed, states := e.ports, [PortState(ports, e.ports)];
      if !initialized {
        return true, listed, states;
      }
      assert Served(e.key, protocols, states);
      var i := 0;
      while i < |protocols|
        invariant 0 <= i <= |protocols| && |states| == i + 1 && Served(e.key, protocols, states)
        invariant states[0] == PortState(old(ports), e.ports) && states[i] == PortState(ports, listed)
      {
        hide Served, Exhausted, Allocated, PortName;
        var name := PortName(e.key, protocols[i]);
        var found := ListsName(listed, name);
        if !found {
          var full, port := AllocatePort(name);
          if full {
            StuckServing(e.key, protocols, states);
            AllocatingGrows(e.key, protocols, states, i);
            return true, listed, states;
          }
          listed := listed + [Port(name, protocols[i], port)];
          assert Gave(states[i], PortState(ports, listed), name, protocols[i], port);
        }
        ServedNext(e.key, protocols, states, PortState(ports, listed));
        states := states + [PortState(ports, listed)];
        i := i + 1;
      }
      AllocatingGrows(e.key, protocols, states, i);
      failed := false;
    }
  }

  // ----- What allocating does -----

  /** The table, and the ports that an endpoint lists. */
  datatype PortState = PortState(table: Table, listed: seq<Port>)

  predicate Lists(ports: seq<Port>, name: string) { exists x :: x in ports && x.name == name }

  /** A port is allocated to the name and listed. */
  ghost predicate Gave(s: PortState, s': PortState, name: string, q: Protocol, port: nat) {
    Allocated(s.table, name, port, s'.table) && s'.listed == s.listed + [Port(name, q, port)]
  }

  /** Serving a protocol: nothing if its name is listed, and otherwise a port of that name. */
  ghost predicate Serves(key: ResourceKey, q: Protocol, s: PortState, s': PortState) {
    var name := PortName(key, q);
    if Lists(s.listed, name) then s' == s else exists port :: Gave(s, s', name, q, port)
  }

  ghost predicate Served(key: ResourceKey, protocols: seq<Protocol>, states: seq<PortState>) {
    && 0 < |states| <= |protocols| + 1
    && forall j :: 0 <= j < |states| - 1 ==> Serves(key, protocols[j], states[j], states[j + 1])
  }

  /** The protocols are served in order, all of them or up to one that finds every port bound to other names. */
  ghost predicate Allocating(key: ResourceKey, protocols: seq<Protocol>, states: seq<PortState>) {
    && Served(key, protocols, states)
    && (|states| <= |protocols| ==>
          var name, s := PortName(key, protocols[|states| - 1]), states[|states| - 1];
          !Lists(s.listed, name) && Exhausted(s.table, name))
  }

  lemma ServedNext(key: ResourceKey, protocols: seq<Protocol>, states: seq<PortState>, s: PortState)
    requires Served(key, protocols, states) && |states| <= |protocols| && Serves(key, protocols[|states| - 1], states[|states| - 1], s)
    ensures Served(key, protocols, states + [s])
  {
    hide Serves;
  }

  lemma StuckServing(key: ResourceKey, protocols: seq<Protocol>, states: seq<PortState>)
    requires Served(key, protocols, states) && |states| <= |protocols|
    requires var name, s := PortName(key, protocols[|states| - 1]), states[|states| - 1];
             !Lists(s.listed, name) && Exhausted(s.table, name)
    ensures Allocating(key, protocols, states)
  {
  }

  /** No bound port changes hands, the table keeps its ports and no name gets a second one; what is listed is added to, by ports
      bound to their names. */
  ghost predicate Grew(key: ResourceKey, s: PortState, s': PortState) {
    && s'.table.Keys == s.table.Keys && (OnePortPerName(s.table) ==> OnePortPerName(s'.table))
    && (forall p :: p in s.table && s.table[p].Bound? ==> s'.table[p] == s.table[p])
    && s.listed <= s'.listed
    && forall x :: x in s'.listed ==> x in s.listed || (x.number in s'.table && s'.table[x.number] == Bound(x.name) && x.name == PortName(key, x.protocol))
  }

  lemma {:induction false} AllocatingGrows(key: ResourceKey, protocols: seq<Protocol>, states: seq<PortState>, i: nat)
    requires Served(key, protocols, states) && i < |states|
    ensures Grew(key, states[0], states[i])
    ensures forall j :: 0 <= j < i ==> Lists(states[i].listed, PortName(key, protocols[j]))
    decreases i
  {
    hide PortName;
    if i > 0 {
      AllocatingGrows(key, protocols, states, i - 1);
      ServingGrows(key, protocols[i - 1], states[i - 1], states[i]);
      assert forall n :: Lists(states[i - 1].listed, n) ==> Lists(states[i].listed, n);
    }
  }

  lemma ServingGrows(key: ResourceKey, q: Protocol, s: PortState, s': PortState)
    requires Serves(key, q, s, s')
    ensures Grew(key, s, s') && Lists(s'.listed, PortName(key, q))
  {
    hide PortName;
    var name := PortName(key, q);
    if !Lists(s.listed, name) {
      var port :| Gave(s, s', name, q, port);
      AllocatedKeeps(s.table, name, port, s'.table);
      AllocatedBinds(s.table, name, port, s'.table);
      hide Allocated, OnePortPerName;
      assert Port(name, q, port) in s'.listed;
    }
  }

  lemma AllocatedBinds(before: Table, name: string, port: nat, after: Table)
    requires Allocated(before, name, port, after)
    ensures port in after && after[port] == Bound(name)
  {
  }

  /** The protocols of one endpoint have names of their own. */
  lemma PortNamesTell(key: ResourceKey, p: Protocol, q: Protocol)
    ensures PortName(key, p) == PortName(key, q) <==> p == q
  {
    var a, b, n := PortName(key, p), PortName(key, q), |key.namespace + "-" + key.name + "-"|;
    assert a[n..] == ProtocolName(p) && b[n..] == ProtocolName(q);
    assert |"AMQP"| == 4 && |"AMQPS"| == 5 && |"AMQP-WS"| == 7 && |"AMQP-WSS"| == 8;
  }

  /** An endpoint that listed nothing gets a port for every protocol, bound to its name, and no port for two of them. */
  lemma EachItsPort(key: ResourceKey, protocols: seq<Protocol>, t: Table, s: PortState)
    requires Grew(key, PortState(t, []), s) && forall q :: q in protocols ==> Lists(s.listed, PortName(key, q))
    ensures forall q :: q in protocols ==>
              exists x :: x in s.listed && x.protocol == q && x.number in s.table && s.table[x.number] == Bound(PortName(key, q))
    ensures forall x, y :: x in s.listed && y in s.listed && x.number == y.number ==> x.protocol == y.protocol
  {
    hide PortName, OnePortPerName;
    forall q | q in protocols
      ensures exists x :: x in s.listed && x.protocol == q && x.number in s.table && s.table[x.number] == Bound(PortName(key, q))
    {
      var x :| x in s.listed && x.name == PortName(key, q);
      PortNamesTell(key, x.protocol, q);
    }
    forall x, y | x in s.listed && y in s.listed && x.number == y.number
      ensures x.protocol == y.protocol
    {
      PortNamesTell(key, x.protocol, y.protocol);
    }
  }

  method ListsName(ports: seq<Port>, name: string) returns (found: bool)
    ensures found <==> Lists(ports, name)
  {
    found := false;
    var i := 0;
    while i < |ports| && !found
      invariant 0 <= i <= |ports|
      invariant found <==> exists j :: 0 <= j < i && ports[j].name == name
    {
      found := ports[i].name == name;
      i := i + 1;
    }
    assert found ==> exists j :: 0 <= j < |ports| && ports[j].name == name && ports[j] in ports;
  }

  // ----- Runs -----

  datatype PortOp = Allocate(key: ResourceKey, protocols: seq<Protocol>) | Free(key: ResourceKey)

  type Listing = map<ResourceKey, seq<Port>>

  /** The table, and the ports that each endpoint lists. */
  datatype Ports = Ports(table: Table, status: Listing)

  function ListedBy(status: Listing, key: ResourceKey): seq<Port> { if key in status then status[key] else [] }

  ghost predicate PortEffect(op: PortOp, b: Ports, a: Ports) {
    match op
    case Allocate(key, protocols) => exists states :: AllocateEffect(key, protocols, states, b, a)
    case Free(key) =>
      a == Ports(Freed(b.table, ListedBy(b.status, key)), b.status[key := WebsocketPorts(ListedBy(b.status, key))])
  }

  ghost predicate AllocateEffect(key: ResourceKey, protocols: seq<Protocol>, states: seq<PortState>, b: Ports, a: Ports) {
    && Allocating(key, protocols, states) && states[0] == PortState(b.table, ListedBy(b.status, key))
    && a == Ports(states[|states| - 1].table, b.status[key := states[|states| - 1].listed])
  }

  ghost predicate Unused(s: Ports) {
    && (forall p :: p in s.table <==> FIRST_PORT <= p < END_PORT)
    && (forall p :: p in s.table ==> s.table[p].Unbound?)
    && s.status == map[]
  }

  ghost predicate PortRun(ops: seq<PortOp>, trace: seq<Ports>) {
    |trace| == |ops| + 1 && Unused(trace[0]) && forall i :: 0 <= i < |ops| ==> PortEffect(ops[i], trace[i], trace[i + 1])
  }

  /** Any run of allocations and frees from a fresh table, with the ports each endpoint lists. */
  method RunPorts(ops: seq<PortOp>) returns (t: PortTable, status: Listing, ghost trace: seq<Ports>)
    ensures PortRun(ops, trace) && trace[|ops|] == Ports(t.ports, status)
    ensures Orderly(ops, Ports(t.ports, status)) && (OwnNames(ops) ==> Backed(Ports(t.ports, status)))
  {
    t := new PortTable();
    status := map[];
    trace := [Ports(t.ports, status)];
    hide OnePortPerName, Unused, PortEffect, Served, AllocateEffect, Orderly, Backed, OwnNames;
    var i := 0;
    while i < |ops|
      modifies t
      invariant 0 <= i <= |ops| && |trace| == i + 1 && trace[i] == Ports(t.ports, status) && Unused(trace[0])
      invariant forall j :: 0 <= j < i ==> PortEffect(ops[j], trace[j], trace[j + 1])
    {
      var listed := PerformPorts(t, ops[i], status);
      status := status[ops[i].key := listed];
      trace := trace + [Ports(t.ports, status)];
      i := i + 1;
    }
    AlwaysOrderly(ops, trace, |ops|);
    if OwnNames(ops) {
      AlwaysBacked(ops, trace, |ops|);
    }
  }

  method PerformPorts(t: PortTable, op: PortOp, status: Listing) returns (listed: seq<Port>)
    modifies t
    ensures PortEffect(op, Ports(old(t.ports), status), Ports(t.ports, status[op.key := listed]))
  {
    hide Allocating, Freed, WebsocketPorts;
    var e := Endpoint(op.key, true, "", ListedBy(status, op.key));
    match op {
      case Allocate(key, protocols) =>
        var failed;
        ghost var states;
        failed, listed, states := t.AllocatePorts(true, e, protocols);
        assert AllocateEffect(key, protocols, states, Ports(old(t.ports), status), Ports(t.ports, status[key := listed]));
      case Free(_) =>
        listed := t.FreePorts(true, e);
    }
  }

  /** The endpoint lists a port that freeing gives up. */
  /** A bound port keeps its name in every step, unless the step frees an endpoint that lists it; then it is unbound. */
  lemma BoundStays(op: PortOp, b: Ports, a: Ports, p: nat)
    requires PortEffect(op, b, a) && p in b.table && b.table[p].Bound?
    ensures p in a.table && a.table[p] == if op.Free? && GivesUp(ListedBy(b.status, op.key), p) then Unbound else b.table[p]
  {
    if op.Free? {
      hide Freed;
      FreedExactly(b.table, ListedBy(b.status, op.key));
    } else {
      AllocateGrows(op, b, a);
    }
  }

  lemma AllocateGrows(op: PortOp, b: Ports, a: Ports)
    requires op.Allocate? && PortEffect(op, b, a)
    ensures a.status == b.status[op.key := ListedBy(a.status, op.key)]
    ensures Grew(op.key, PortState(b.table, ListedBy(b.status, op.key)), PortState(a.table, ListedBy(a.status, op.key)))
  {
    hide Grew;
    var states :| AllocateEffect(op.key, op.protocols, states, b, a);
    AllocatingGrows(op.key, op.protocols, states, |states| - 1);
  }

  /** In every state of a run the table has its 100 ports, no name holds two of them, every port listed is one of them, and a listed
      port has the name of its endpoint and protocol. */
  ghost predicate Orderly(ops: seq<PortOp>, s: Ports) {
    OnePortPerName(s.table) && IsFull(s.table) && ProperlyListed(ops, s)
  }

  ghost predicate IsFull(t: Table) { forall p: nat :: p in t <==> FIRST_PORT <= p < END_PORT }

  ghost predicate ProperlyListed(ops: seq<PortOp>, s: Ports) {
    forall k :: k in s.status ==> IsKey(ops, k) && Proper(k, s.status[k], s.table)
  }

  ghost predicate Proper(k: ResourceKey, listed: seq<Port>, t: Table) {
    forall x :: x in listed ==> x.number in t && x.name == PortName(k, x.protocol)
  }

  predicate IsKey(ops: seq<PortOp>, k: ResourceKey) { exists op :: op in ops && op.key == k }

  lemma {:induction false} AlwaysOrderly(ops: seq<PortOp>, trace: seq<Ports>, i: nat)
    requires PortRun(ops, trace) && i < |trace|
    ensures Orderly(ops, trace[i])
    decreases i
  {
    if i > 0 {
      hide PortEffect, Orderly;
      AlwaysOrderly(ops, trace, i - 1);
      assert ops[i - 1] in ops && IsKey(ops, ops[i - 1].key);
      StaysOrderly(ops, ops[i - 1], trace[i - 1], trace[i]);
    }
  }

  lemma StaysOrderly(ops: seq<PortOp>, op: PortOp, b: Ports, a: Ports)
    requires Orderly(ops, b) && PortEffect(op, b, a) && IsKey(ops, op.key)
    ensures Orderly(ops, a)
  {
    hide PortName, IsKey, OnePortPerName;
    var listed := ListedBy(b.status, op.key);
    if op.Free? {
      hide Freed, WebsocketPorts;
      FreedKeeps(b.table, listed);
      WebsocketPortsAmong(listed);
      SameKeysFull(b.table, a.table);
    } else {
      hide PortEffect, IsFull, ProperlyListed;
      AllocateGrows(op, b, a);
      SameKeysFull(b.table, a.table);
      AllocateLists(ops, op, b, a);
    }
  }

  lemma SameKeysFull(t: Table, t': Table)
    requires IsFull(t) && t'.Keys == t.Keys
    ensures IsFull(t')
  {
    forall p: nat
      ensures p in t' <==> FIRST_PORT <= p < END_PORT
    {
      assert p in t'.Keys <==> p in t.Keys;
    }
  }

  lemma AllocateLists(ops: seq<PortOp>, op: PortOp, b: Ports, a: Ports)
    requires ProperlyListed(ops, b) && IsKey(ops, op.key) && a.status == b.status[op.key := ListedBy(a.status, op.key)]
    requires Grew(op.key, PortState(b.table, ListedBy(b.status, op.key)), PortState(a.table, ListedBy(a.status, op.key)))
    ensures ProperlyListed(ops, a)
  {
    hide PortName, IsKey, OnePortPerName;
    assert a.table.Keys == b.table.Keys;
    forall k | k in a.status
      ensures IsKey(ops, k) && Proper(k, a.status[k], a.table)
    {
      if k in b.status {
        assert Proper(k, b.status[k], b.table);
      }
      if k == op.key {
        assert a.status[k] == ListedBy(a.status, op.key);
      } else {
        assert k in b.status && a.status[k] == b.status[k];
      }
    }
  }

  /** Every port that an endpoint lists is bound to its name. */
  ghost predicate Backed(s: Ports) {
    forall k, x :: k in s.status && x in s.status[k] ==> x.number in s.table && s.table[x.number] == Bound(x.name)
  }

  /** Allocating keeps this, whether it fails or not. */
  lemma AllocatingBacks(op: PortOp, b: Ports, a: Ports)
    requires op.Allocate? && PortEffect(op, b, a) && Backed(b)
    ensures Backed(a)
  {
    hide PortName, PortEffect;
    AllocateGrows(op, b, a);
  }

  /** Freeing keeps it exactly when nothing that stays listed is on a port given up. */
  lemma FreeingBacks(op: PortOp, b: Ports, a: Ports)
    requires op.Free? && PortEffect(op, b, a) && Backed(b)
    ensures Backed(a) <==> forall k, x :: k in b.status && x in b.status[k] && (k != op.key || IsWebsocket(x.protocol)) ==>
                             !GivesUp(ListedBy(b.status, op.key), x.number)
  {
    hide Freed, WebsocketPorts;
    var listed := ListedBy(b.status, op.key);
    FreedExactly(b.table, listed);
    WebsocketPortsAmong(listed);
    assert forall k, x :: k in a.status && x in a.status[k] <==>
                            k in b.status && x in b.status[k] && (k != op.key || IsWebsocket(x.protocol));
    forall k, x | k in b.status && x in b.status[k] && (k != op.key || IsWebsocket(x.protocol))
      ensures a.table[x.number] == Bound(x.name) <==> !GivesUp(listed, x.number)
    {
      assert b.table[x.number] == Bound(x.name);
    }
  }

  /** No two endpoints have ports of one name. */
  predicate OwnNames(ops: seq<PortOp>) {
    forall f, g, p, q :: f in ops && g in ops && PortName(f.key, p) == PortName(g.key, q) ==> f.key == g.key
  }

  /** Then every listed port is bound to its name in every state of a run. */
  lemma {:induction false} AlwaysBacked(ops: seq<PortOp>, trace: seq<Ports>, i: nat)
    requires PortRun(ops, trace) && i < |trace| && OwnNames(ops)
    ensures Backed(trace[i])
    decreases i
  {
    if i > 0 {
      hide PortEffect, OwnNames, Orderly, Backed;
      AlwaysBacked(ops, trace, i - 1);
      AlwaysOrderly(ops, trace, i - 1);
      var op := ops[i - 1];
      if op.Allocate? {
        AllocatingBacks(op, trace[i - 1], trace[i]);
      } else {
        OwnPorts(ops, trace[i - 1], op);
        FreeingBacks(op, trace[i - 1], trace[i]);
      }
    }
  }

  lemma OwnPorts(ops: seq<PortOp>, s: Ports, op: PortOp)
    requires OwnNames(ops) && Orderly(ops, s) && Backed(s) && op in ops
    ensures forall k, x :: k in s.status && x in s.status[k] && (k != op.key || IsWebsocket(x.protocol)) ==>
                             !GivesUp(ListedBy(s.status, op.key), x.number)
  {
    hide PortName, OnePortPerName;
    forall k, x, y | k in s.status && x in s.status[k] && y in ListedBy(s.status, op.key) && x.number == y.number
      ensures k == op.key && x.protocol == y.protocol
    {
      assert x.name == y.name;
      var f :| f in ops && f.key == k;
      NamesTell(k, x.protocol, y.protocol);
    }
  }

  lemma NamesTell(key: ResourceKey, p: Protocol, q: Protocol)
    requires PortName(key, p) == PortName(key, q)
    ensures p == q
  {
    assert |PortName(key, p)| == |key.namespace| + |key.name| + |ProtocolName(p)| + 2;
    assert |PortName(key, q)| == |key.namespace| + |key.name| + |ProtocolName(q)| + 2;
  }

  /** The endpoints "c" in "a-b" and "b-c" in "a" share a port name. Freeing one of them unbinds the port of the other, in every
      run. */
  lemma SharedNameFails(ops: seq<PortOp>, trace: seq<Ports>)
    requires ops == [Allocate(ResourceKey("c", "a-b"), [AMQP]), Allocate(ResourceKey("b-c", "a"), [AMQP]), Free(ResourceKey("c", "a-b"))]
    requires PortRun(ops, trace)
    ensures !Backed(trace[3])
  {
    var k, l := ResourceKey("c", "a-b"), ResourceKey("b-c", "a");
    assert PortName(k, AMQP) == PortName(l, AMQP) == "a-b-c-AMQP";
    hide PortName, Freed, WebsocketPorts, PortEffect;
    assert PortEffect(ops[0], trace[0], trace[1]) && PortEffect(ops[1], trace[1], trace[2]) && PortEffect(ops[2], trace[2], trace[3]);
    assert trace[0].table[FIRST_PORT].Unbound?;
    var port := FirstGiven(k, trace[0], trace[1]);
    assert trace[1].table[port] == Bound(PortName(k, AMQP));
    var port' := FirstGiven(l, trace[1], trace[2]);
    assert trace[0].table[port'].Unbound?;
    GivenUp(k, l, port, trace[2], trace[3]);
  }

  lemma GivenUp(k: ResourceKey, l: ResourceKey, port: nat, b: Ports, a: Ports)
    requires k != l && k in b.status && l in b.status && PortEffect(Free(k), b, a)
    requires b.status[k] == b.status[l] == [Port(PortName(k, AMQP), AMQP, port)]
    ensures !Backed(a)
  {
    hide PortName, Freed, WebsocketPorts;
    var x := b.status[l][0];
    assert x in b.status[k] && x in b.status[l];
    FreedExactly(b.table, b.status[k]);
    assert l in a.status && x in a.status[l];
  }

  lemma FirstGiven(key: ResourceKey, b: Ports, a: Ports) returns (port: nat)
    requires PortEffect(Allocate(key, [AMQP]), b, a) && key !in b.status && !Exhausted(b.table, PortName(key, AMQP))
    ensures Allocated(b.table, PortName(key, AMQP), port, a.table)
    ensures a.status == b.status[key := [Port(PortName(key, AMQP), AMQP, port)]]
  {
    hide PortName, Exhausted, Allocated;
    var states: seq<PortState> :| AllocateEffect(key, [AMQP], states, b, a);
    assert |states| == 2;
    assert Serves(key, AMQP, states[0], states[1]);
    port :| Gave(states[0], states[1], PortName(key, AMQP), AMQP, port);
    assert states[1].listed == [Port(PortName(key, AMQP), AMQP, port)];
  }

  lemma {:induction false} WebsocketPortsAmong(ports: seq<Port>)
    ensures forall x :: x in WebsocketPorts(ports) <==> x in ports && IsWebsocket(x.protocol)
    decreases |ports|
  {
    if ports != [] {
      var front, last := ports[..|ports| - 1], ports[|ports| - 1];
      WebsocketPortsAmong(front);
      assert forall x :: x in ports <==> x in front || x == last;
    }
  }

  // ----- Restoring the table from the held endpoints -----

  /** initPorts for one endpoint: the address taken is that of the loop variable's field, so every port ends up bound to
      the name of the last one. */
  function Restored(t: Table, ports: seq<Port>, name: string): Table {
    if ports == [] then t else Restored(t, ports[..|ports| - 1], name)[ports[|ports| - 1].number := Bound(name)]
  }

  lemma {:induction false} RestoredAt(t: Table, ports: seq<Port>, name: string)
    ensures forall p :: p in Restored(t, ports, name) <==> p in t || exists x :: x in ports && x.number == p
    ensures forall p :: p in Restored(t, ports, name) ==>
              Restored(t, ports, name)[p] == if exists x :: x in ports && x.number == p then Bound(name) else t[p]
    decreases |ports|
  {
    if ports != [] {
      var front, last := ports[..|ports| - 1], ports[|ports| - 1];
      RestoredAt(t, front, name);
      assert forall x :: x in ports <==> x in front || x == last;
    }
  }

  /** Restoring what is already in the table leaves it alone exactly when all ports of the endpoint have one name,
      that is, when it lists no two protocols. */
  lemma RestoreExact(t: Table, ports: seq<Port>)
    requires ports != [] && forall x :: x in ports ==> x.number in t && t[x.number] == Bound(x.name)
    ensures var last := ports[|ports| - 1].name;
            Restored(t, ports, last) == t <==> forall x :: x in ports ==> x.name == last
  {
    var last := ports[|ports| - 1].name;
    RestoredAt(t, ports, last);
    if Restored(t, ports, last) == t {
      forall x | x in ports
        ensures x.name == last
      {
        assert x.number in t;
      }
    }
    if forall x :: x in ports ==> x.name == last {
      var r := Restored(t, ports, last);
      assert forall p :: p in r <==> p in t;
      assert forall p :: p in r ==> r[p] == t[p];
    }
  }

  /** An endpoint with two protocols: restoring binds the port of the first to the name of the second. */
  lemma RestoreFails(key: ResourceKey, t: Table)
    ensures var ports := [Port(PortName(key, AMQP), AMQP, 40000), Port(PortName(key, AMQPS), AMQPS, 40001)];
            var bound := t[40000 := Bound(PortName(key, AMQP))][40001 := Bound(PortName(key, AMQPS))];
            var after := Restored(bound, ports, PortName(key, AMQPS));
            40000 in after && after[40000] == Bound(PortName(key, AMQPS)) != bound[40000] && !OnePortPerName(after)
  {
    var ports := [Port(PortName(key, AMQP), AMQP, 40000), Port(PortName(key, AMQPS), AMQPS, 40001)];
    var bound := t[40000 := Bound(PortName(key, AMQP))][40001 := Bound(PortName(key, AMQPS))];
    RestoredAt(bound, ports, PortName(key, AMQPS));
    assert ports[0] in ports && ports[1] in ports;
    if PortName(key, AMQP) == PortName(key, AMQPS) {
      NamesTell(key, AMQP, AMQPS);
    }
  }
}
