/** The messaging infrastructure client: two batch workers and the direct operations, each a step under one
    lock (pkg/state/infra.go:50-147, 296-503, 580-606, 709-879, 1245-1370, 1399-1414). */
module InfraClient {
  import opened InfraTypes
  import opened InfraHosts
  import opened InfraPorts
  import opened InfraSteps
  import opened InfraReplies
  import opened InfraAnswers

  // ----- States of the client -----

  /** Everything the client holds at one moment. */
  datatype World = Snapshot(
    held: Held, initialized: bool,
    syncRequests: seq<Request>, deleteRequests: seq<Request>, syncBatch: seq<Request>, deleteBatch: seq<Request>,
    replies: Replies, issued: nat,
    routers: States, brokers: States, directory: Directory, shutdowns: multiset<nat>, next: nat, ports: Table)

  function KnownIn(w: World): Lookup { LookupIn(w.directory, w.brokers) }

  function Waiting(w: World, id: nat): nat {
    Times(w.syncRequests, id) + Times(w.syncBatch, id) + Times(w.deleteRequests, id) + Times(w.deleteBatch, id)
  }

  /** Every request accepted so far waits in one place or has one reply, and nothing else has. */
  ghost predicate Conserved(w: World) {
    forall id: nat :: Waiting(w, id) + (if id in w.replies then 1 else 0) == if id < w.issued then 1 else 0
  }

  /** What every step keeps. */
  ghost predicate ValidWorld(w: World) {
    && Sane(w.routers, w.brokers, w.next) && Conserved(w) && Integral(w.held)
    && |w.syncRequests| <= SYNC_BUFFER_SIZE && |w.deleteRequests| <= SYNC_BUFFER_SIZE
    && |w.syncBatch| <= MAX_BATCH_SIZE && |w.deleteBatch| <= MAX_BATCH_SIZE
  }

  /** The directory lists exactly the hosts, none of them with an empty name and address. */
  ghost predicate InStep(w: World) { Directed(w.directory, w.routers, w.brokers) && Host("", "") !in w.brokers }

  /** Every held queue, topic and subscription is on known brokers. */
  ghost predicate WellPlaced(w: World) { Placed(w.held, KnownIn(w)) }

  // ----- What the steps do -----

  /** A request enters its queue, unless the queue is full. */
  function SyncSubmitted(w: World, r: Resource): World {
    if |w.syncRequests| < SYNC_BUFFER_SIZE then w.(syncRequests := w.syncRequests + [Request(w.issued, r)], issued := w.issued + 1) else w
  }

  function DeleteSubmitted(w: World, r: Resource): World {
    if |w.deleteRequests| < SYNC_BUFFER_SIZE then w.(deleteRequests := w.deleteRequests + [Request(w.issued, r)], issued := w.issued + 1)
    else w
  }

  /** The batch takes the oldest request, unless it is full. */
  function SyncTaken(w: World): World {
    if w.syncRequests != [] && |w.syncBatch| < MAX_BATCH_SIZE
    then w.(syncBatch := w.syncBatch + [w.syncRequests[0]], syncRequests := w.syncRequests[1..]) else w
  }

  function DeleteTaken(w: World): World {
    if w.deleteRequests != [] && |w.deleteBatch| < MAX_BATCH_SIZE
    then w.(deleteBatch := w.deleteBatch + [w.deleteRequests[0]], deleteRequests := w.deleteRequests[1..]) else w
  }

  /** Every request of the batch is answered once, and the resources of the successful ones are held. */
  ghost predicate SyncHandled(ok: bool, w: World, w': World) {
    var answer := SyncAnswer(w.initialized, w.held, KnownIn(w), ok);
    && AllAnswered(w.replies, w.syncBatch, answer, w'.replies)
    && w' == w.(held := AfterSync(w.held, w.syncBatch, answer), syncBatch := [], replies := w'.replies)
  }

  /** The same for deletion, with the ports of the deleted endpoints freed. */
  ghost predicate DeleteHandled(ok: bool, w: World, w': World) {
    var answer := DeleteAnswer(w.initialized, w.held, KnownIn(w), ok);
    && AllAnswered(w.replies, w.deleteBatch, answer, w'.replies)
    && w' == w.(held := AfterDelete(w.held, w.deleteBatch, answer), deleteBatch := [], replies := w'.replies,
                ports := FreedBy(w.ports, w.deleteBatch, answer))
  }

  /** The batch holds an address in a namespace that has an active endpoint but no "default" project. */
  ghost predicate BatchCrashes(w: World) { w.initialized && exists r :: r in w.deleteBatch && Crashes(w.held, r.resource) }

  /** The named broker is gone, unlisted and its state shut down once, unless something refers to it. */
  ghost predicate BrokerDeleted(host: string, w: World, w': World) {
    && (forall b :: b in w'.brokers <==> b in w.brokers && (RefersTo(w.held, host) || b.hostname != host))
    && (forall b :: b in w'.brokers ==> w'.brokers[b] == w.brokers[b])
    && ShutDown(w.brokers, w.brokers.Keys - w'.brokers.Keys, w.shutdowns, w'.shutdowns)
    && w'.directory == (if HasBroker(w.brokers, host) && !RefersTo(w.held, host) then w.directory - {host} else w.directory)
    && w' == w.(brokers := w'.brokers, directory := w'.directory, shutdowns := w'.shutdowns, next := w'.next)
  }

  /** Ports are allocated for an endpoint's protocols, in a client that is initialized. */
  ghost predicate PortsAllocated(e: Endpoint, protocols: seq<Protocol>, w: World, w': World) {
    if !w.initialized then w' == w
    else exists states :: AllocatedThrough(e, protocols, states, w, w')
  }

  ghost predicate AllocatedThrough(e: Endpoint, protocols: seq<Protocol>, states: seq<PortState>, w: World, w': World) {
    && Allocating(e.key, protocols, states) && states[0] == PortState(w.ports, e.ports)
    && w' == w.(ports := states[|states| - 1].table)
  }

  /** The ports of an endpoint are freed, but for websocket ports. */
  function PortsFreed(e: Endpoint, w: World): World { if w.initialized then w.(ports := Freed(w.ports, e.ports)) else w }

  /** The outcomes of the calls that SyncAll makes. */
  datatype Outcomes = Outcomes(connectorFails: Host -> bool, initialized: bool, configured: bool, connected: bool)

  /** The hosts dropped by a resync, and the directory, shutdowns and state counter between its two updates. */
  datatype HostLog = HostLog(goneRouters: set<Host>, goneBrokers: set<Host>, directory: Directory, shutdowns: multiset<nat>, next: nat)

  /** The hosts are brought up to date, routers first. `cut` means that deleting connectors failed on the way. */
  ghost predicate HostsSynced(routerHosts: seq<Host>, brokerHosts: seq<Host>, connectorFails: Host -> bool, cut: bool, log: HostLog,
                              w: World, w': World) {
    && Replaced(w.routers, Requested(routerHosts), log.goneRouters, false, w.next, w'.routers)
    && Redirected(w.directory, w.routers, Requested(routerHosts), log.goneRouters, false, log.directory)
    && ShutDown(w.routers, log.goneRouters, w.shutdowns, log.shutdowns)
    && Replaced(w.brokers, Requested(brokerHosts), log.goneBrokers, cut, log.next, w'.brokers)
    && Redirected(log.directory, w.brokers, Requested(brokerHosts), log.goneBrokers, cut, w'.directory)
    && ShutDown(w.brokers, log.goneBrokers, log.shutdowns, w'.shutdowns)
    && w.next <= log.next <= w'.next
    && (cut <==> exists b :: b in w.brokers && b.hostname !in Requested(brokerHosts) && connectorFails(b))
  }

  /** A held address cannot be built for an active endpoint of its namespace. */
  ghost predicate Unbuildable(w: World) {
    exists e, k :: e in w.held.endpoints && IsActive(w.held.endpoints[e]) && k in w.held.addresses && k.namespace == e.namespace &&
                   HasProject(w.held, w.held.addresses[k].key.namespace) && !Buildable(w.held, w.held.addresses[k], KnownIn(w))
  }

  /** Everything SyncAll does: hosts, ports and the flag; what is held stays. It fails exactly when one of its calls does or
      a held address cannot be built. */
  ghost predicate AllSynced(routerHosts: seq<Host>, brokerHosts: seq<Host>, done: Outcomes, failed: bool, cut: bool, log: HostLog,
                            w: World, w': World) {
    && HostsSynced(routerHosts, brokerHosts, done.connectorFails, cut, log, w, w')
    && failed == (cut || !done.initialized || !done.configured || !done.connected || Unbuildable(w'))
    && (if cut || !done.initialized then w'.ports == w.ports else PortsRestored(w.held.endpoints, w.ports, w'.ports))
    && w' == w.(routers := w'.routers, brokers := w'.brokers, directory := w'.directory, shutdowns := w'.shutdowns, next := w'.next,
                ports := w'.ports, initialized := w.initialized || !failed)
  }

  // ----- What the answers mean in a client in step -----

  ghost predicate SyncExplains(ok: bool, w: World, w': World) {
    forall r :: r in w.syncBatch ==>
      r.id in w'.replies && SyncAnswered(w.initialized, w.held, w.brokers, ok, r.resource, w'.replies[r.id])
  }

  ghost predicate DeleteExplains(ok: bool, w: World, w': World) {
    forall r :: r in w.deleteBatch ==>
      r.id in w'.replies && DeleteAnswered(w.initialized, w.held, w.brokers, ok, r.resource, w'.replies[r.id])
  }

  lemma SyncIsExplained(ok: bool, w: World, w': World)
    requires InStep(w) && SyncHandled(ok, w, w')
    ensures SyncExplains(ok, w, w')
  {
    hide Directed, SyncAnswered, SyncAnswer, AfterSync;
    forall r | r in w.syncBatch
      ensures SyncAnswered(w.initialized, w.held, w.brokers, ok, r.resource, w'.replies[r.id])
    {
      SyncExplained(w.initialized, w.held, w.directory, w.routers, w.brokers, ok, r.resource);
    }
  }

  lemma DeleteIsExplained(ok: bool, w: World, w': World)
    requires InStep(w) && !BatchCrashes(w) && DeleteHandled(ok, w, w')
    ensures DeleteExplains(ok, w, w')
  {
    hide Directed, DeleteAnswered, DeleteAnswer, AfterDelete, FreedBy, Crashes;
    forall r | r in w.deleteBatch
      ensures DeleteAnswered(w.initialized, w.held, w.brokers, ok, r.resource, w'.replies[r.id])
    {
      DeleteExplained(w.initialized, w.held, w.directory, w.routers, w.brokers, ok, r.resource);
    }
  }

  /** An address to delete is in a namespace with an active endpoint and no "default" project. */
  ghost predicate Orphans(w: World, r: Request) {
    r in w.deleteBatch && r.resource.AnAddress? && Reached(w.held, r.resource.a.key.namespace) && !Projected(w.held, r.resource.a.key.namespace)
  }

  lemma CrashExplained(w: World)
    ensures BatchCrashes(w) <==> w.initialized && exists r :: Orphans(w, r)
  {
    if w.initialized && exists r :: r in w.deleteBatch && Crashes(w.held, r.resource) {
      var r :| r in w.deleteBatch && Crashes(w.held, r.resource);
      assert Orphans(w, r);
    }
  }

  /** A held address is reached through an active endpoint and misses a broker that it needs. */
  ghost predicate Stranded(w: World, k: ResourceKey) {
    k in w.held.addresses && Reached(w.held, k.namespace) && MissesBroker(w.held, w.brokers, w.held.addresses[k])
  }

  lemma UnbuildableByName(w: World)
    requires Integral(w.held) && InStep(w)
    ensures Unbuildable(w) <==> exists k :: Stranded(w, k)
  {
    hide Directed, MissesBroker, Buildable, HasEndpoint;
    var h := w.held;
    forall k | k in h.addresses
      ensures Buildable(h, h.addresses[k], KnownIn(w)) <==> !MissesBroker(h, w.brokers, h.addresses[k])
    {
      assert HasProject(h, k.namespace);
      BuildableByName(h, w.directory, w.routers, w.brokers, h.addresses[k]);
    }
    if Unbuildable(w) {
      var e, k :| e in h.endpoints && IsActive(h.endpoints[e]) && k in h.addresses && k.namespace == e.namespace &&
                  HasProject(h, h.addresses[k].key.namespace) && !Buildable(h, h.addresses[k], KnownIn(w));
      assert Stranded(w, k);
    }
    if k :| Stranded(w, k) {
      assert h.addresses[k].key == k && HasProject(h, k.namespace);
    }
  }

  // ----- What the steps keep -----

  /** Queueing a request keeps the client valid: it is in one place, and has no reply yet. */
  lemma SubmitKeeps(w: World, r: Resource)
    requires ValidWorld(w)
    ensures ValidWorld(SyncSubmitted(w, r)) && ValidWorld(DeleteSubmitted(w, r))
  {
    hide Times, Integral, Sane;
    QueuedWaits(w, Request(w.issued, r));
    hide Waiting;
    assert Conserved(SyncSubmitted(w, r)) && Conserved(DeleteSubmitted(w, r));
  }

  lemma QueuedWaits(w: World, x: Request)
    ensures forall id: nat :: Waiting(w.(syncRequests := w.syncRequests + [x], issued := w.issued + 1), id) ==
                              Waiting(w, id) + if id == x.id then 1 else 0
    ensures forall id: nat :: Waiting(w.(deleteRequests := w.deleteRequests + [x], issued := w.issued + 1), id) ==
                              Waiting(w, id) + if id == x.id then 1 else 0
  {
    hide Times;
    TimesSnoc(w.syncRequests, x);
    TimesSnoc(w.deleteRequests, x);
  }

  /** Collecting a request moves it. */
  lemma TakeKeeps(w: World)
    requires ValidWorld(w)
    ensures ValidWorld(SyncTaken(w)) && ValidWorld(DeleteTaken(w))
  {
    hide Times, Integral, Sane;
    TakenWaits(w);
    hide Waiting;
    assert Conserved(SyncTaken(w)) && Conserved(DeleteTaken(w));
  }

  lemma TakenWaits(w: World)
    ensures forall id: nat :: Waiting(SyncTaken(w), id) == Waiting(w, id) == Waiting(DeleteTaken(w), id)
  {
    hide Times;
    if w.syncRequests != [] {
      TimesSnoc(w.syncBatch, w.syncRequests[0]);
      TimesCons(w.syncRequests);
    }
    if w.deleteRequests != [] {
      TimesSnoc(w.deleteBatch, w.deleteRequests[0]);
      TimesCons(w.deleteRequests);
    }
  }

  lemma WorldFacts(w: World)
    requires ValidWorld(w)
    ensures Integral(w.held)
    ensures forall id: nat :: Times(w.syncBatch, id) + (if id in w.replies then 1 else 0) <= 1
    ensures forall id: nat :: Times(w.deleteBatch, id) + (if id in w.replies then 1 else 0) <= 1
  {
    hide Times, Integral, Sane;
    forall id: nat
      ensures Times(w.syncBatch, id) + Times(w.deleteBatch, id) + (if id in w.replies then 1 else 0) <= 1
    {
      assert Waiting(w, id) + (if id in w.replies then 1 else 0) <= 1;
    }
  }

  /** Answering a whole batch moves its requests from the waiting to the answered. */
  lemma HandledKeeps(w: World, w': World, batch: seq<Request>, answer: Resource -> Reply)
    requires ValidWorld(w) && Integral(w'.held) && AllAnswered(w.replies, batch, answer, w'.replies)
    requires (batch == w.syncBatch && w' == w.(held := w'.held, syncBatch := [], replies := w'.replies)) ||
             (batch == w.deleteBatch && w' == w.(held := w'.held, deleteBatch := [], replies := w'.replies, ports := w'.ports))
    ensures ValidWorld(w')
  {
    hide Times, Integral, Sane;
    NoTimes();
    forall id: nat
      ensures Waiting(w', id) + (if id in w'.replies then 1 else 0) == if id < w'.issued then 1 else 0
    {
      assert Waiting(w, id) + (if id in w.replies then 1 else 0) == if id < w.issued then 1 else 0;
      assert Waiting(w', id) == Waiting(w, id) - Times(batch, id);
    }
  }

  /** Requests, replies and what is held are no matter of hosts and ports. */
  lemma HostsKeep(w: World, w': World)
    requires ValidWorld(w) && (Sane(w.routers, w.brokers, w.next) ==> Sane(w'.routers, w'.brokers, w'.next))
    requires w' == w.(routers := w'.routers, brokers := w'.brokers, directory := w'.directory, shutdowns := w'.shutdowns, next := w'.next,
                      ports := w'.ports, initialized := w'.initialized)
    ensures ValidWorld(w')
  {
    hide Times, Integral, Sane;
    assert forall id: nat :: Waiting(w', id) == Waiting(w, id);
  }

  // ----- The client -----

  class Client {
    const hosts: HostTable
    const ports: PortTable
    var initialized: bool
    var projects: Projects
    var endpoints: Endpoints
    var addresses: Addresses
    var syncRequests: seq<Request>
    var deleteRequests: seq<Request>
    var syncBatch: seq<Request>
    var deleteBatch: seq<Request>
    var replies: Replies
    var issued: nat

    constructor ()
      ensures fresh(hosts) && fresh(ports) && Valid() && InStep(World()) && WellPlaced(World())
      ensures World() == Snapshot(InfraSteps.Held(map[], map[], map[]), false, [], [], [], [], map[], 0,
                                           map[], map[], World().directory, multiset{}, World().next, World().ports)
    {
      hosts := new HostTable();
      ports := new PortTable();
      initialized, projects, endpoints, addresses := false, map[], map[], map[];
      syncRequests, deleteRequests, syncBatch, deleteBatch, replies, issued := [], [], [], [], map[], 0;
    }

    ghost function Held(): Held
      reads this
    {
      InfraSteps.Held(projects, endpoints, addresses)
    }

    ghost function World(): World
      reads this, hosts, ports
    {
      Snapshot(Held(), initialized, syncRequests, deleteRequests, syncBatch, deleteBatch, replies, issued,
                        hosts.routers, hosts.brokers, hosts.hostMap, hosts.shutdowns, hosts.next, ports.ports)
    }

    ghost function Brokers(): Lookup
      reads this, hosts
    {
      LookupIn(hosts.hostMap, hosts.brokers)
    }

    ghost predicate Valid()
      reads this, hosts, ports
    {
      ValidWorld(World())
    }

    // ----- The queues -----

    /** requestSync: a full queue refuses. */
    method RequestSync(r: Resource) returns (accepted: bool)
      requires Valid()
      modifies this
      ensures Valid() && World() == SyncSubmitted(old(World()), r) && (accepted <==> |old(syncRequests)| < SYNC_BUFFER_SIZE)
    {
      hide ValidWorld;
      SubmitKeeps(World(), r);
      accepted := |syncRequests| < SYNC_BUFFER_SIZE;
      if accepted {
        syncRequests := syncRequests + [Request(issued, r)];
        issued := issued + 1;
      }
    }

    method RequestDelete(r: Resource) returns (accepted: bool)
      requires Valid()
      modifies this
      ensures Valid() && World() == DeleteSubmitted(old(World()), r) && (accepted <==> |old(deleteRequests)| < SYNC_BUFFER_SIZE)
    {
      hide ValidWorld;
      SubmitKeeps(World(), r);
      accepted := |deleteRequests| < SYNC_BUFFER_SIZE;
      if accepted {
        deleteRequests := deleteRequests + [Request(issued, r)];
        issued := issued + 1;
      }
    }

    /** One round of collectRequests. */
    method TakeSync()
      requires Valid()
      modifies this
      ensures Valid() && World() == SyncTaken(old(World()))
    {
      hide ValidWorld;
      TakeKeeps(World());
      if syncRequests != [] && |syncBatch| < MAX_BATCH_SIZE {
        syncBatch, syncRequests := syncBatch + [syncRequests[0]], syncRequests[1..];
      }
    }

    method TakeDelete()
      requires Valid()
      modifies this
      ensures Valid() && World() == DeleteTaken(old(World()))
    {
      hide ValidWorld;
      TakeKeeps(World());
      if deleteRequests != [] && |deleteBatch| < MAX_BATCH_SIZE {
        deleteBatch, deleteRequests := deleteBatch + [deleteRequests[0]], deleteRequests[1..];
      }
    }

    // ----- Batches -----

    /** A reply goes into the one slot of the request's channel, which must be empty for the sender not to block. */
    method Send(id: nat, r: Reply)
      requires id !in replies
      modifies this`replies
      ensures replies == old(replies)[id := r]
    {
      replies := replies[id := r];
    }

    /** Requests that do not pass are answered at once. */
    method Sift(rs: seq<Request>, judge: Resource -> Reply, ghost before: Replies, ghost batch: seq<Request>, ghost answer: Resource -> Reply)
      returns (kept: seq<Request>)
      requires DistinctIds(rs) && DistinctIds(batch) && Progress(before, batch, answer, (set r | r in rs), replies)
      requires forall r :: r in rs && judge(r.resource) != Done ==> answer(r.resource) == judge(r.resource)
      modifies this`replies
      ensures kept == Passing(rs, IsDone(judge)) && DistinctIds(kept)
      ensures Progress(before, batch, answer, (set r | r in kept), replies)
    {
      kept := [];
      ghost var pending := set r | r in rs;
      LinedEnds(pending, rs, IsDone(judge));
      assert rs[..0] == [];
      hide Lined, Progress, DistinctIds, Passing;
      assert Passing([], IsDone(judge)) == [] by { NonePassing(judge); }
      var i := 0;
      while i < |rs|
        invariant 0 <= i <= |rs| && kept == Passing(rs[..i], IsDone(judge)) && Lined(pending, rs, i, IsDone(judge))
        invariant Progress(before, batch, answer, pending, replies)
      {
        var r := rs[i];
        LinedStep(pending, rs, i, IsDone(judge));
        PassingStep(rs, i, IsDone(judge));
        if judge(r.resource) != Done {
          assert r in rs;
          ProgressStep(before, batch, answer, pending, replies, r);
          PendingIsFree(before, batch, answer, pending, replies, r);
          Send(r.id, judge(r.resource));
          pending := pending - {r};
          assert kept + [] == kept;
        } else {
          kept := kept + [r];
        }
        i := i + 1;
      }
      LinedEnds(pending, rs, IsDone(judge));
      assert rs[..i] == rs;
      PassingDistinct(rs, IsDone(judge));
    }

    /** getActiveEndpoints: the active endpoints by namespace. */
    method GetActiveEndpoints() returns (active: map<string, seq<Endpoint>>)
      ensures forall ns :: ns in active <==> HasActive(Held(), ns)
      ensures forall ns :: ns in active ==> active[ns] != [] && forall e :: e in active[ns] ==> IsActive(e)
    {
      active := map[];
      var todo := endpoints.Keys;
      while todo != {}
        invariant todo <= endpoints.Keys
        invariant forall ns :: ns in active <==>
                    exists k :: k in endpoints && k !in todo && endpoints[k].key.namespace == ns && IsActive(endpoints[k])
        invariant forall ns :: ns in active ==> active[ns] != [] && forall e :: e in active[ns] ==> IsActive(e)
        decreases |todo|
      {
        var k :| k in todo;
        var e := endpoints[k];
        if IsActive(e) {
          var ns := e.key.namespace;
          active := active[ns := (if ns in active then active[ns] else []) + [e]];
        }
        todo := todo - {k};
      }
    }

    /** The endpoint loop of buildEntities for one address: the first error is sent, and ends it. A missing project is a crash. */
    method BuildAddress(id: nat, a: Address, active: seq<Endpoint>, h: Held, known: Lookup) returns (failed: bool, crashed: bool)
      requires id !in replies && active != [] && forall e :: e in active ==> IsActive(e)
      modifies this`replies
      ensures crashed <==> !HasProject(h, a.key.namespace)
      ensures !crashed ==> (failed <==> !Buildable(h, a, known))
      ensures !crashed ==> replies == if failed then old(replies)[id := UnknownBroker] else old(replies)
    {
      hide RouterBuildable, BrokerBuildable;
      failed, crashed := false, false;
      var i := 0;
      while i < |active| && !failed
        invariant 0 <= i <= |active| && (i > 0 ==> HasProject(h, a.key.namespace))
        invariant i > 0 && !failed ==> Buildable(h, a, known)
        invariant failed ==> HasProject(h, a.key.namespace) && !Buildable(h, a, known)
        invariant replies == if failed then old(replies)[id := UnknownBroker] else old(replies)
      {
        var e := active[i];
        assert e in active;
        if !HasProject(h, a.key.namespace) {
          return false, true;
        }
        var reply := RouterReply(h, e, a, known);
        if reply != Done {
          Send(id, reply);
          failed := true;
        } else {
          reply := BrokerReply(e, a, known);
          if reply != Done {
            Send(id, reply);
            failed := true;
          }
        }
        i := i + 1;
      }
    }

    /** buildEntities: a request that cannot be built is answered on the spot, once, and the others are returned in order. It
        crashes exactly when an address with an active endpoint has no project. */
    method BuildEntities(rs: seq<Request>, h: Held, known: Lookup, ghost before: Replies, ghost batch: seq<Request>,
                         ghost answer: Resource -> Reply)
      returns (built: seq<Request>, crashed: bool)
      requires h == Held() && DistinctIds(rs) && DistinctIds(batch) && Progress(before, batch, answer, (set r | r in rs), replies)
      requires forall r :: r in rs && !Crashes(h, r.resource) && BuildJudge(h, known)(r.resource) != Done ==>
                 answer(r.resource) == BuildJudge(h, known)(r.resource)
      modifies this`replies
      ensures crashed <==> exists r :: r in rs && Crashes(h, r.resource)
      ensures !crashed ==> built == Passing(rs, IsDone(BuildJudge(h, known))) && DistinctIds(built)
      ensures !crashed ==> Progress(before, batch, answer, (set r | r in built), replies)
    {
      hide Lined, Progress, DistinctIds, Passing, Buildable;
      var active := GetActiveEndpoints();
      ghost var pass := IsDone(BuildJudge(h, known));
      ghost var pending := set r | r in rs;
      LinedEnds(pending, rs, pass);
      assert rs[..0] == [];
      NonePassing(BuildJudge(h, known));
      built, crashed := [], false;
      var i := 0;
      while i < |rs|
        invariant 0 <= i <= |rs| && forall j :: 0 <= j < i ==> !Crashes(h, rs[j].resource)
        invariant built == Passing(rs[..i], pass) && Lined(pending, rs, i, pass)
        invariant Progress(before, batch, answer, pending, replies)
      {
        var r := rs[i];
        assert r in rs;
        LinedStep(pending, rs, i, pass);
        PassingStep(rs, i, pass);
        ProgressStep(before, batch, answer, pending, replies, r);
        PendingIsFree(before, batch, answer, pending, replies, r);
        var failed := false;
        match r.resource {
          case AnAddress(a) =>
            if a.key.namespace !in active {
              Send(r.id, NoEndpoints);
              failed := true;
            } else {
              failed, crashed := BuildAddress(r.id, a, active[a.key.namespace], h, known);
              if crashed {
                return;
              }
            }
          case AnEndpoint(_) =>
          case AProject(_) =>
          case OtherResource(_) =>
            Send(r.id, UnknownType);
            failed := true;
        }
        assert failed <==> BuildJudge(h, known)(r.resource) != Done;
        if !failed {
          built := built + [r];
        } else {
          pending := pending - {r};
          assert built + [] == built;
        }
        i := i + 1;
      }
      LinedEnds(pending, rs, pass);
      assert rs[..i] == rs;
      PassingDistinct(rs, pass);
    }

    /** One resource is entered. */
    method EnterOne(r: Resource)
      modifies this`projects, this`endpoints, this`addresses
      ensures Held() == Enter(old(Held()), r)
    {
      match r {
        case AnAddress(a) => addresses := addresses[a.key := a];
        case AnEndpoint(e) => endpoints := endpoints[e.key := e];
        case AProject(p) => projects := projects[p.key := p];
        case OtherResource(_) =>
      }
    }

    /** The resources of built requests are entered, or not if the infrastructure failed, and all are answered. */
    method FinishSync(built: seq<Request>, ok: bool, ghost known: Lookup, ghost before: Replies, ghost batch: seq<Request>,
                      ghost answer: Resource -> Reply)
      requires DistinctIds(built) && DistinctIds(batch) && Progress(before, batch, answer, (set r | r in built), replies)
      requires Integral(Held()) && Syncable(Held(), known, built, answer, ok)
      modifies this`replies, this`projects, this`endpoints, this`addresses
      ensures Progress(before, batch, answer, {}, replies)
      ensures Integral(Held()) && Held() == AfterSync(old(Held()), built, answer)
      ensures Placed(old(Held()), known) ==> Placed(Held(), known)
    {
      hide Syncing, Progress, DistinctIds, Integral, Syncable, AfterSync, Placed, Enter;
      ghost var base, pending := Held(), set r | r in built;
      SyncingStart(base, known, before, batch, answer, built, ok, replies);
      var i := 0;
      while i < |built|
        invariant 0 <= i <= |built| && Syncing(base, known, before, batch, answer, built, ok, i, pending, Held(), replies)
      {
        var r := built[i];
        SyncingStep(base, known, before, batch, answer, built, ok, i, pending, Held(), replies);
        if ok {
          EnterOne(r.resource);
        }
        Send(r.id, if ok then Done else InfraFailure);
        pending := pending - {r};
        i := i + 1;
      }
      SyncingEnd(base, known, before, batch, answer, built, ok, pending, Held(), replies);
    }

    method LeaveOne(r: Resource)
      modifies this`projects, this`endpoints, this`addresses, ports
      ensures Held() == Leave(old(Held()), r)
      ensures ports.ports == if r.AnEndpoint? then Freed(old(ports.ports), r.e.ports) else old(ports.ports)
    {
      match r {
        case AnAddress(a) => addresses := addresses - {a.key};
        case AnEndpoint(e) =>
          var _ := ports.FreePorts(true, e);
          endpoints := endpoints - {e.key};
        case AProject(p) => projects := projects - {p.key};
        case OtherResource(_) =>
      }
    }

    /** The resources of built requests are removed, or not if the infrastructure failed, and all are answered. */
    method FinishDelete(built: seq<Request>, ok: bool, ghost before: Replies, ghost batch: seq<Request>, ghost answer: Resource -> Reply)
      requires DistinctIds(built) && DistinctIds(batch) && Progress(before, batch, answer, (set r | r in built), replies)
      requires Integral(Held()) && Deletable(Held(), built, answer, ok)
      modifies this`replies, this`projects, this`endpoints, this`addresses, ports
      ensures Progress(before, batch, answer, {}, replies)
      ensures Integral(Held()) && Held() == AfterDelete(old(Held()), built, answer)
      ensures forall known :: Placed(old(Held()), known) ==> Placed(Held(), known)
      ensures ports.ports == FreedBy(old(ports.ports), built, answer)
    {
      hide Deleting, Progress, DistinctIds, Integral, Deletable, AfterDelete, Placed, Leave, FreedBy, Freed;
      ghost var base, pending := Held(), set r | r in built;
      DeletingStart(base, before, batch, answer, built, ok, replies, ports.ports);
      var i := 0;
      while i < |built|
        invariant 0 <= i <= |built|
        invariant Deleting(base, before, batch, answer, built, ok, i, pending, Held(), replies, old(ports.ports), ports.ports)
      {
        var r := built[i];
        DeletingStep(base, before, batch, answer, built, ok, i, pending, Held(), replies, old(ports.ports), ports.ports);
        if ok {
          LeaveOne(r.resource);
        }
        Send(r.id, if ok then Done else InfraFailure);
        pending := pending - {r};
        i := i + 1;
      }
      DeletingEnd(base, before, batch, answer, built, ok, pending, Held(), replies, old(ports.ports), ports.ports);
    }

    /** doSync on the batch collected: every request in it gets exactly one reply, decided by what was held before, and the
        resources of the successful ones are held afterwards. `ok` is the outcome of configuring brokers and routers. */
    method DoSync(ok: bool)
      requires Valid()
      modifies this
      ensures Valid() && SyncHandled(ok, old(World()), World())
      ensures old(WellPlaced(World())) ==> WellPlaced(World())
      ensures old(InStep(World())) ==> SyncExplains(ok, old(World()), World())
    {
      hide InStep, SyncExplains, Integral, Progress, DistinctIds, AfterSync, Placed, SyncAnswer, Passing, ValidWorld, AllAnswered;
      ghost var w := World();
      ghost var batch, before, answer := syncBatch, replies, SyncAnswer(initialized, Held(), Brokers(), ok);
      WorldFacts(w);
      BatchReady(before, batch, answer);
      if !initialized {
        RefuseFacts(Held(), Brokers(), ok, batch);
        NothingDone(Held(), batch, answer);
        var none := Sift(syncBatch, Refuse(), before, batch, answer);
        assert (set r | r in none) == {};
      } else {
        SyncChecked(syncBatch, ok, before);
      }
      ProgressEnd(before, batch, answer, replies);
      syncBatch := [];
      HandledKeeps(w, World(), batch, answer);
      if InStep(w) {
        SyncIsExplained(ok, w, World());
      }
    }

    /** Check, build, configure and finish. */
    method SyncChecked(batch: seq<Request>, ok: bool, ghost before: Replies)
      requires Integral(Held()) && DistinctIds(batch)
      requires Progress(before, batch, SyncAnswer(true, Held(), Brokers(), ok), (set r | r in batch), replies)
      modifies this`replies, this`projects, this`endpoints, this`addresses
      ensures Progress(before, batch, SyncAnswer(true, old(Held()), Brokers(), ok), {}, replies)
      ensures Integral(Held()) && Held() == AfterSync(old(Held()), batch, SyncAnswer(true, old(Held()), Brokers(), ok))
      ensures Placed(old(Held()), Brokers()) ==> Placed(Held(), Brokers())
    {
      hide Integral, Progress, DistinctIds, Passing, AfterSync, Placed, SyncAnswer, Syncable, CheckSync, BuildJudge, Crashes;
      var h, known := InfraSteps.Held(projects, endpoints, addresses), LookupIn(hosts.hostMap, hosts.brokers);
      ghost var answer := SyncAnswer(true, h, known, ok);
      SyncFacts(h, known, ok);
      var valid := Sift(batch, CheckSync(h), before, batch, answer);
      var built, crashed := BuildEntities(valid, h, known, before, batch, answer);
      assert !crashed;
      SyncIsSyncable(h, known, ok, built);
      SyncPassing(h, batch, IsDone(CheckSync(h)), answer);
      SyncPassing(h, valid, IsDone(BuildJudge(h, known)), answer);
      FinishSync(built, ok, known, before, batch, answer);
    }

    /** doDelete on the batch collected, the same way, unless it crashes. */
    method DoDelete(ok: bool) returns (crashed: bool)
      requires Valid()
      modifies this, ports
      ensures crashed <==> BatchCrashes(old(World()))
      ensures !crashed ==> Valid() && DeleteHandled(ok, old(World()), World())
      ensures !crashed && old(WellPlaced(World())) ==> WellPlaced(World())
      ensures crashed <==> old(initialized) && exists r :: Orphans(old(World()), r)
      ensures !crashed && old(InStep(World())) ==> DeleteExplains(ok, old(World()), World())
    {
      CrashExplained(World());
      hide InStep, DeleteExplains, Orphans, Integral, Progress, DistinctIds, AfterDelete, Placed, DeleteAnswer, Passing, Crashes, FreedBy, ValidWorld, AllAnswered;
      ghost var w := World();
      ghost var batch, before, answer := deleteBatch, replies, DeleteAnswer(initialized, Held(), Brokers(), ok);
      WorldFacts(w);
      BatchReady(before, batch, answer);
      crashed := false;
      if !initialized {
        RefuseFacts(Held(), Brokers(), ok, batch);
        NothingDone(Held(), batch, answer);
        NothingFreed(ports.ports, batch, answer);
        var none := Sift(deleteBatch, Refuse(), before, batch, answer);
        assert (set r | r in none) == {};
      } else {
        crashed := DeleteChecked(deleteBatch, ok, before);
        if crashed {
          return;
        }
      }
      ProgressEnd(before, batch, answer, replies);
      deleteBatch := [];
      HandledKeeps(w, World(), batch, answer);
      if InStep(w) {
        DeleteIsExplained(ok, w, World());
      }
    }

    method DeleteChecked(batch: seq<Request>, ok: bool, ghost before: Replies) returns (crashed: bool)
      requires Integral(Held()) && DistinctIds(batch)
      requires Progress(before, batch, DeleteAnswer(true, Held(), Brokers(), ok), (set r | r in batch), replies)
      modifies this`replies, this`projects, this`endpoints, this`addresses, ports
      ensures crashed <==> exists r :: r in batch && Crashes(old(Held()), r.resource)
      ensures !crashed ==>
                var answer := DeleteAnswer(true, old(Held()), Brokers(), ok);
                && Progress(before, batch, answer, {}, replies)
                && Integral(Held()) && Held() == AfterDelete(old(Held()), batch, answer)
                && ports.ports == FreedBy(old(ports.ports), batch, answer)
                && (Placed(old(Held()), Brokers()) ==> Placed(Held(), Brokers()))
    {
      hide Integral, Progress, DistinctIds, Passing, AfterDelete, Placed, DeleteAnswer, Deletable, CheckDelete, BuildJudge, Crashes, FreedBy;
      var h, known := InfraSteps.Held(projects, endpoints, addresses), LookupIn(hosts.hostMap, hosts.brokers);
      ghost var answer := DeleteAnswer(true, h, known, ok);
      DeleteFacts(h, known, ok);
      var valid := Sift(batch, CheckDelete(h), before, batch, answer);
      var built;
      built, crashed := BuildEntities(valid, h, known, before, batch, answer);
      if crashed {
        return;
      }
      DeleteIsDeletable(h, known, ok, built);
      DeletePassing(h, batch, IsDone(CheckDelete(h)), answer);
      DeletePassing(h, valid, IsDone(BuildJudge(h, known)), answer);
      FreedPassing(ports.ports, batch, IsDone(CheckDelete(h)), answer);
      FreedPassing(ports.ports, valid, IsDone(BuildJudge(h, known)), answer);
      FinishDelete(built, ok, before, batch, answer);
    }

    /** DeleteBroker: refuses a broker that is referred to, and otherwise removes just that one. */
    method DeleteBroker(host: string) returns (inUse: bool)
      requires Valid()
      modifies hosts
      ensures Valid() && BrokerDeleted(host, old(World()), World())
      ensures inUse <==> HasBroker(old(hosts.brokers), host) &&
                         ((exists k :: k in projects && projects[k].broker == Some(host)) ||
                          (exists k :: k in addresses && host in addresses[k].brokers))
      ensures inUse ==> World() == old(World())
      ensures old(InStep(World())) ==> InStep(World()) && (old(WellPlaced(World())) ==> WellPlaced(World()))
    {
      ghost var w := World();
      assert hosts.Valid() && UniqueNames(w.brokers);
      hide ValidWorld, Placed, Directed, ShutDown, Requested, Sane, Replaced, Redirected, RefersTo, BrokerDeleted, InStep, WellPlaced, UniqueNames;
      var found, others := Others(hosts.brokers, host);
      inUse := found && RefersTo(InfraSteps.Held(projects, endpoints, addresses), host);
      if !found || inUse {
        NoneDeleted(host, w);
        return;
      }
      var failed;
      ghost var gone;
      failed, gone := hosts.UpdateBrokers(others, false, h => false);
      OneDeleted(host, others, gone, w, World());
      HostsKeep(w, World());
      if InStep(w) {
        DeletedInStep(host, w, World());
      }
    }

    /** AllocatePorts: it fails exactly when the client is not initialized or a protocol finds every port bound to other names. */
    method AllocatePorts(e: Endpoint, protocols: seq<Protocol>) returns (failed: bool, listed: seq<Port>, ghost states: seq<PortState>)
      requires Valid()
      modifies ports
      ensures Valid() && PortsAllocated(e, protocols, old(World()), World())
      ensures failed <==> !initialized || |states| <= |protocols|
      ensures if initialized then AllocatedThrough(e, protocols, states, old(World()), World()) && states[|states| - 1].listed == listed
              else listed == e.ports
    {
      hide ValidWorld, Allocating, Grew;
      ghost var w := World();
      failed, listed, states := ports.AllocatePorts(initialized, e, protocols);
      assert if initialized then AllocatedThrough(e, protocols, states, w, World()) else states[0] == states[|states| - 1];
      HostsKeep(w, World());
    }

    /** FreePorts: `left` are the ports that the endpoint still lists. */
    method FreePorts(e: Endpoint) returns (left: seq<Port>)
      requires Valid()
      modifies ports
      ensures Valid() && World() == PortsFreed(e, old(World()))
      ensures left == if initialized then WebsocketPorts(e.ports) else e.ports
    {
      hide ValidWorld, Freed, WebsocketPorts;
      ghost var w := World();
      left := ports.FreePorts(initialized, e);
      HostsKeep(w, World());
    }

    /** initPorts: every port a held endpoint lists ends up bound to the last name that such an endpoint lists. */
    method InitPorts()
      modifies ports
      ensures PortsRestored(endpoints, old(ports.ports), ports.ports)
    {
      var todo := endpoints.Keys;
      while todo != {}
        invariant todo <= endpoints.Keys
        invariant forall p :: p in ports.ports <==> p in old(ports.ports) || ListsSoFar(endpoints, todo, p)
        invariant forall p :: p in old(ports.ports) && !ListsSoFar(endpoints, todo, p) ==> ports.ports[p] == old(ports.ports)[p]
        invariant forall p :: p in ports.ports && ListsSoFar(endpoints, todo, p) ==>
                    exists k :: k in endpoints && ListsPort(endpoints[k], p) && ports.ports[p] == Bound(LastName(endpoints[k]))
        decreases |todo|
      {
        var k :| k in todo;
        var e := endpoints[k];
        RestoredAt(ports.ports, e.ports, LastName(e));
        ListsNext(endpoints, todo, k);
        hide Restored, LastName, ListsSoFar;
        ports.ports := Restored(ports.ports, e.ports, LastName(e));
        todo := todo - {k};
      }
      AllListed(endpoints);
      LastNamesBind(endpoints, ports.ports);
    }

    /** syncConfiguration: every held address is built for every active endpoint in its namespace. The project that this looks
        up is always there. */
    method SyncConfiguration(ok: bool) returns (failed: bool)
      requires Valid()
      modifies ports
      ensures PortsRestored(endpoints, old(ports.ports), ports.ports)
      ensures failed <==> !ok || Unbuildable(World())
    {
      hide Buildable, Sane, Conserved, HasEndpoint, PortsRestored;
      InitPorts();
      var h, known := InfraSteps.Held(projects, endpoints, addresses), LookupIn(hosts.hostMap, hosts.brokers);
      ghost var w := World();
      var es := endpoints.Keys;
      while es != {}
        invariant es <= endpoints.Keys && World() == w
        invariant forall e, k :: e in endpoints && e !in es && IsActive(endpoints[e]) && k in addresses && k.namespace == e.namespace ==>
                    Buildable(h, addresses[k], known)
        decreases |es|
      {
        var e :| e in es;
        if IsActive(endpoints[e]) {
          var bad := AnyUnbuildable(h, known, endpoints[e].key.namespace);
          if bad {
            assert Unbuildable(w);
            return true;
          }
        }
        es := es - {e};
      }
      assert !Unbuildable(w);
      failed := !ok;
    }

    /** The inner loop: some held address of the namespace cannot be built. */
    method AnyUnbuildable(h: Held, known: Lookup, ns: string) returns (bad: bool)
      requires h == Held() && Integral(h)
      ensures bad <==> exists k :: k in addresses && k.namespace == ns && !Buildable(h, addresses[k], known)
      ensures forall k :: k in addresses && k.namespace == ns ==> HasProject(h, addresses[k].key.namespace)
    {
      hide Buildable, HasEndpoint;
      var ks := addresses.Keys;
      while ks != {}
        invariant ks <= addresses.Keys
        invariant forall k :: k in addresses && k !in ks && k.namespace == ns ==> Buildable(h, addresses[k], known)
        decreases |ks|
      {
        var k :| k in ks;
        if addresses[k].key.namespace == ns && !Buildable(h, addresses[k], known) {
          return true;
        }
        ks := ks - {k};
      }
      return false;
    }

    /** The part of SyncAll that changes the hosts. */
    method SyncHosts(routerHosts: seq<Host>, brokerHosts: seq<Host>, connectorFails: Host -> bool) returns (cut: bool, ghost log: HostLog)
      requires hosts.Valid()
      modifies hosts
      ensures hosts.Valid() && HostsSynced(routerHosts, brokerHosts, connectorFails, cut, log, old(World()), World())
      ensures old(hosts.InStep()) && Apart(routerHosts, old(hosts.brokers)) && (cut || Separate(routerHosts, brokerHosts)) ==> hosts.InStep()
    {
      hide Requested, ShutDown, Distinct, Redirected, Directed, Sane;
      ghost var w := World();
      ghost var goneRouters := hosts.UpdateRouters(routerHosts);
      ghost var directory, shutdowns, next := hosts.hostMap, hosts.shutdowns, hosts.next;
      ghost var goneBrokers;
      cut, goneBrokers := hosts.UpdateBrokers(brokerHosts, true, connectorFails);
      log := HostLog(goneRouters, goneBrokers, directory, shutdowns, next);
      assert Separate(routerHosts, brokerHosts) ==> Apart(brokerHosts, hosts.routers) by {
        Converged(w.routers, Requested(routerHosts), goneRouters, w.next, hosts.routers);
      }
    }

    /** SyncAll: the hosts are brought up to date and everything held is configured again. If deleting connectors fails, `cut` is
        set and some brokers may be missing. */
    method SyncAll(routerHosts: seq<Host>, brokerHosts: seq<Host>, done: Outcomes) returns (failed: bool, cut: bool, ghost log: HostLog)
      requires Valid()
      modifies this`initialized, hosts, ports
      ensures Valid() && AllSynced(routerHosts, brokerHosts, done, failed, cut, log, old(World()), World())
      ensures InStep(World()) ==>
                (failed <==> cut || !done.initialized || !done.configured || !done.connected || exists k :: Stranded(World(), k))
    {
      ghost var w := World();
      assert hosts.Valid();
      hide ValidWorld, Requested, Sane, HostsSynced, PortsRestored, Unbuildable, InStep, Stranded;
      cut, log := SyncHosts(routerHosts, brokerHosts, done.connectorFails);
      ghost var w1 := World();
      HostsKeep(w, w1);
      failed := cut || !done.initialized;
      if !failed {
        failed := SyncConfiguration(done.configured);
      }
      if !failed {
        failed := !done.connected;
      }
      if !failed {
        initialized := true;
      }
      HostsOnly(routerHosts, brokerHosts, done.connectorFails, cut, log, w, w1, World());
      HostsKeep(w, World());
      SameBuild(w1, World());
      if InStep(World()) {
        WorldFacts(World());
        UnbuildableByName(World());
      }
    }
  }

  lemma SameBuild(w: World, w': World)
    requires w'.held == w.held && w'.directory == w.directory && w'.brokers == w.brokers
    ensures Unbuildable(w) <==> Unbuildable(w')
  {
  }

  /** HostsSynced speaks of hosts only. */
  lemma HostsOnly(routerHosts: seq<Host>, brokerHosts: seq<Host>, connectorFails: Host -> bool, cut: bool, log: HostLog,
                  w: World, w1: World, w': World)
    requires HostsSynced(routerHosts, brokerHosts, connectorFails, cut, log, w, w1)
    requires w'.routers == w1.routers && w'.brokers == w1.brokers && w'.directory == w1.directory && w'.shutdowns == w1.shutdowns &&
             w'.next == w1.next
    ensures HostsSynced(routerHosts, brokerHosts, connectorFails, cut, log, w, w')
  {
    hide Requested, Replaced, Redirected, ShutDown;
  }

  // ----- What a resync means -----

  /** No hostname is requested both as a router and as a broker. */
  predicate Separate(routerHosts: seq<Host>, brokerHosts: seq<Host>) {
    forall r, b :: r in routerHosts && b in brokerHosts ==> r.hostname != b.hostname
  }

  /** The routers, and unless it was cut the brokers, are exactly the requested hosts, and hosts that stay keep their state. */
  lemma ResyncConverges(routerHosts: seq<Host>, brokerHosts: seq<Host>, connectorFails: Host -> bool, cut: bool, log: HostLog, w: World, w': World)
    requires HostsSynced(routerHosts, brokerHosts, connectorFails, cut, log, w, w')
    ensures forall r :: r in w'.routers <==> r.hostname in Requested(routerHosts) && Requested(routerHosts)[r.hostname] == r
    ensures !cut ==> forall b :: b in w'.brokers <==> b.hostname in Requested(brokerHosts) && Requested(brokerHosts)[b.hostname] == b
    ensures forall r :: r in w.routers && r in w'.routers ==> w'.routers[r] == w.routers[r]
    ensures forall b :: b in w.brokers && b in w'.brokers ==> w'.brokers[b] == w.brokers[b]
    ensures forall b :: b in w.brokers && b.hostname in Requested(brokerHosts) && Requested(brokerHosts)[b.hostname] == b ==> b in w'.brokers
    ensures forall b :: b in w'.brokers ==> b in w.brokers || b in brokerHosts
  {
    hide Requested, Redirected, ShutDown;
    Converged(w.routers, Requested(routerHosts), log.goneRouters, w.next, w'.routers);
    if !cut {
      Converged(w.brokers, Requested(brokerHosts), log.goneBrokers, log.next, w'.brokers);
    }
  }

  /** Each dropped host's state is shut down once, and no other. */
  lemma ResyncShutsDown(routerHosts: seq<Host>, brokerHosts: seq<Host>, connectorFails: Host -> bool, cut: bool, log: HostLog, w: World, w': World, id: nat)
    requires HostsSynced(routerHosts, brokerHosts, connectorFails, cut, log, w, w')
    requires Sane(w.routers, w.brokers, w.next)
    ensures w'.shutdowns[id] == w.shutdowns[id] +
              if (exists r :: r in w.routers && r !in w'.routers && w.routers[r] == id) ||
                 (exists b :: b in w.brokers && b !in w'.brokers && w.brokers[b] == id) then 1 else 0
  {
  }

  /** Hosts with names of their own keep the directory in step. Then no queue, topic or subscription is left on an unknown broker
      exactly when each broker that such an address needs was requested; and none is if every known hostname was. */
  lemma ResyncPlaces(routerHosts: seq<Host>, brokerHosts: seq<Host>, connectorFails: Host -> bool, cut: bool, log: HostLog, w: World, w': World)
    requires HostsSynced(routerHosts, brokerHosts, connectorFails, cut, log, w, w') && w'.held == w.held
    requires InStep(w) && Apart(routerHosts, w.brokers) && Separate(routerHosts, brokerHosts) && forall b :: b in brokerHosts ==> b.hostname != ""
    ensures InStep(w')
    ensures !cut ==> (WellPlaced(w') <==> forall n :: Requires(w.held, n) ==> n in Requested(brokerHosts))
    ensures (forall b :: b in w.brokers ==> b.hostname in Requested(brokerHosts)) && WellPlaced(w) ==> !cut && WellPlaced(w')
  {
    hide Requested, Requires, Placed, Listed, ShutDown, Directed, Redirected, Replaced;
    ResyncConverges(routerHosts, brokerHosts, connectorFails, cut, log, w, w');
    ResyncDirects(routerHosts, brokerHosts, connectorFails, cut, log, w, w');
    PlacedByName(w);
    PlacedByName(w');
    if !cut {
      PlacedByRequest(w'.brokers, brokerHosts);
    }
  }

  /** A resync that keeps the directory in step fails, besides when one of its calls does, exactly when a held address that an active
      endpoint reaches needs a broker that was not requested. */
  lemma ResyncFails(routerHosts: seq<Host>, brokerHosts: seq<Host>, done: Outcomes, failed: bool, log: HostLog, w: World, w': World)
    requires AllSynced(routerHosts, brokerHosts, done, failed, false, log, w, w') && Integral(w.held) && InStep(w')
    ensures failed <==> !done.initialized || !done.configured || !done.connected ||
                        exists k, n :: k in w.held.addresses && Reached(w.held, k.namespace) && Needs(w.held, w.held.addresses[k], n) &&
                                       n !in Requested(brokerHosts)
  {
    hide Requested, Directed, PortsRestored, Unbuildable, Integral, Reached, Needs, HostsSynced, Replaced;
    ResyncConverges(routerHosts, brokerHosts, done.connectorFails, false, log, w, w');
    PlacedByRequest(w'.brokers, brokerHosts);
    UnbuildableByName(w');
    hide InStep, HasBroker;
    if k :| Stranded(w', k) {
      var n :| Needs(w.held, w.held.addresses[k], n) && !HasBroker(w'.brokers, n);
    }
    forall k, n | k in w.held.addresses && Reached(w.held, k.namespace) && Needs(w.held, w.held.addresses[k], n) && n !in Requested(brokerHosts)
      ensures Stranded(w', k)
    {
    }
  }

  lemma ResyncDirects(routerHosts: seq<Host>, brokerHosts: seq<Host>, connectorFails: Host -> bool, cut: bool, log: HostLog, w: World, w': World)
    requires HostsSynced(routerHosts, brokerHosts, connectorFails, cut, log, w, w')
    requires Directed(w.directory, w.routers, w.brokers) && Apart(routerHosts, w.brokers) && Separate(routerHosts, brokerHosts)
    ensures Directed(w'.directory, w'.routers, w'.brokers)
  {
    hide Requested, ShutDown, Directed, Redirected;
    RelistedExactly(w.routers, w.brokers, w.directory, routerHosts, log.goneRouters, false, w.next, w'.routers, log.directory);
    Converged(w.routers, Requested(routerHosts), log.goneRouters, w.next, w'.routers);
    assert Apart(brokerHosts, w'.routers);
    DirectedFlips(log.directory, w'.routers, w.brokers);
    RelistedExactly(w.brokers, w'.routers, log.directory, brokerHosts, log.goneBrokers, cut, log.next, w'.brokers, w'.directory);
    DirectedFlips(w'.directory, w'.routers, w'.brokers);
  }

  lemma PlacedByRequest(brokers: States, hosts: seq<Host>)
    requires forall b :: b in brokers <==> b.hostname in Requested(hosts) && Requested(hosts)[b.hostname] == b
    ensures forall n :: HasBroker(brokers, n) <==> n in Requested(hosts)
  {
    hide Requested;
    forall n | n in Requested(hosts)
      ensures HasBroker(brokers, n)
    {
      assert Requested(hosts)[n] in brokers;
    }
  }

  // ----- Ports of held endpoints -----

  predicate ListsPort(e: Endpoint, p: nat) { exists x :: x in e.ports && x.number == p }

  predicate Lists(es: Endpoints, p: nat) { exists k :: k in es && ListsPort(es[k], p) }

  ghost predicate ListsSoFar(es: Endpoints, todo: set<ResourceKey>, p: nat) { exists k :: k in es && k !in todo && ListsPort(es[k], p) }

  function LastName(e: Endpoint): string { if e.ports == [] then "" else e.ports[|e.ports| - 1].name }

  predicate BoundToLast(ports: seq<Port>, b: Binding) { ports != [] && b == Bound(ports[|ports| - 1].name) }

  /** Every port that an endpoint lists is bound to the last name that such an endpoint lists; the others are as before. */
  ghost predicate PortsRestored(es: Endpoints, before: Table, after: Table) {
    && (forall p :: p in after <==> p in before || Lists(es, p))
    && (forall p :: p in before && !Lists(es, p) ==> after[p] == before[p])
    && (forall p :: p in after && Lists(es, p) ==> exists k :: k in es && ListsPort(es[k], p) && BoundToLast(es[k].ports, after[p]))
  }

  /** Every port that an endpoint lists is bound to its name. */
  ghost predicate AllBacked(es: Endpoints, t: Table) {
    forall k, x :: k in es && x in es[k].ports ==> x.number in t && t[x.number] == Bound(x.name)
  }

  /** Every endpoint lists ports of one name only. */
  predicate OneNameEach(es: Endpoints) { forall k, x :: k in es && x in es[k].ports ==> x.name == LastName(es[k]) }

  /** No port is listed by two endpoints. */
  ghost predicate PortsApart(es: Endpoints) { forall j, k, p :: j in es && k in es && ListsPort(es[j], p) && ListsPort(es[k], p) ==> j == k }

  /** Restoring a table in which every listed port is bound to its name leaves it alone if every endpoint lists one name, and only
      then if no port is listed by two endpoints. */
  lemma RestoreAllExact(es: Endpoints, before: Table, after: Table)
    requires PortsRestored(es, before, after) && AllBacked(es, before)
    ensures OneNameEach(es) ==> after == before
    ensures PortsApart(es) && after == before ==> OneNameEach(es)
  {
    hide LastName, BoundToLast;
    forall p | Lists(es, p)
      ensures p in before
    {
      var k :| k in es && ListsPort(es[k], p);
      var x :| x in es[k].ports && x.number == p;
    }
    if OneNameEach(es) {
      forall p | p in after && Lists(es, p)
        ensures after[p] == before[p]
      {
        var k :| k in es && ListsPort(es[k], p) && BoundToLast(es[k].ports, after[p]);
        LastIsBound(es[k], p, after[p]);
        var x :| x in es[k].ports && x.number == p;
      }
    }
    if PortsApart(es) && after == before {
      forall k, x | k in es && x in es[k].ports
        ensures x.name == LastName(es[k])
      {
        assert ListsPort(es[k], x.number) && Lists(es, x.number);
        var j :| j in es && ListsPort(es[j], x.number) && BoundToLast(es[j].ports, after[x.number]);
        assert j == k;
        LastIsBound(es[k], x.number, after[x.number]);
      }
    }
  }

  lemma LastIsBound(e: Endpoint, p: nat, b: Binding)
    requires ListsPort(e, p)
    ensures BoundToLast(e.ports, b) <==> b == Bound(LastName(e))
  {
  }

  lemma LastNamesBind(es: Endpoints, t: Table)
    ensures (forall p :: p in t && Lists(es, p) ==> exists k :: k in es && ListsPort(es[k], p) && t[p] == Bound(LastName(es[k]))) ==>
            (forall p :: p in t && Lists(es, p) ==> exists k :: k in es && ListsPort(es[k], p) && BoundToLast(es[k].ports, t[p]))
  {
    hide LastName, BoundToLast;
    forall k, p | k in es && p in t && ListsPort(es[k], p)
      ensures BoundToLast(es[k].ports, t[p]) <==> t[p] == Bound(LastName(es[k]))
    {
      LastIsBound(es[k], p, t[p]);
    }
  }

  lemma ListsNext(es: Endpoints, todo: set<ResourceKey>, k: ResourceKey)
    requires k in es && k in todo
    ensures forall p :: ListsSoFar(es, todo - {k}, p) <==> ListsSoFar(es, todo, p) || ListsPort(es[k], p)
  {
  }

  lemma AllListed(es: Endpoints)
    ensures forall p :: ListsSoFar(es, {}, p) <==> Lists(es, p)
  {
  }

  // ----- Brokers -----

  /** A held queue, topic or subscription is on the named broker. */
  ghost predicate Requires(h: Held, n: string) {
    exists k :: k in h.addresses && OnBrokers(h.addresses[k].type_) && n in h.addresses[k].brokers
  }

  /** A project or an address refers to the broker. */
  predicate RefersTo(h: Held, n: string) {
    || (exists k :: k in h.projects && h.projects[k].broker == Some(n))
    || (exists k :: k in h.addresses && n in h.addresses[k].brokers)
  }

  /** With the directory in step, placement is a matter of broker names. */
  lemma PlacedByName(w: World)
    requires InStep(w)
    ensures WellPlaced(w) <==> forall n :: Requires(w.held, n) ==> HasBroker(w.brokers, n)
  {
    hide Listed;
    var known, h := KnownIn(w), w.held;
    forall n
      ensures known(n) <==> HasBroker(w.brokers, n)
    {
      KnownIsNamed(w.directory, w.routers, w.brokers, n);
    }
    if forall n :: Requires(h, n) ==> HasBroker(w.brokers, n) {
      forall k, n | k in h.addresses && OnBrokers(h.addresses[k].type_) && n in h.addresses[k].brokers
        ensures known(n)
      {
        assert Requires(h, n);
      }
    }
  }

  method Others(brokers: States, host: string) returns (found: bool, others: seq<Host>)
    ensures found <==> HasBroker(brokers, host)
    ensures forall b :: b in others <==> b in brokers && b.hostname != host
  {
    found, others := false, [];
    var todo := brokers.Keys;
    while todo != {}
      invariant todo <= brokers.Keys
      invariant found <==> exists b :: b in brokers && b !in todo && b.hostname == host
      invariant forall b :: b in others <==> b in brokers && b !in todo && b.hostname != host
      decreases |todo|
    {
      var b :| b in todo;
      if b.hostname == host {
        found := true;
      } else {
        others := others + [b];
      }
      todo := todo - {b};
    }
  }

  lemma NoneDeleted(host: string, w: World)
    requires !HasBroker(w.brokers, host) || RefersTo(w.held, host)
    ensures BrokerDeleted(host, w, w)
  {
    hide RefersTo;
    assert w.brokers.Keys - w.brokers.Keys == {};
  }

  lemma OneDeleted(host: string, others: seq<Host>, gone: set<Host>, w: World, w': World)
    requires UniqueNames(w.brokers) && HasBroker(w.brokers, host) && !RefersTo(w.held, host)
    requires forall b :: b in others <==> b in w.brokers && b.hostname != host
    requires Replaced(w.brokers, Requested(others), gone, false, w.next, w'.brokers)
    requires Redirected(w.directory, w.brokers, Requested(others), gone, false, w'.directory)
    requires ShutDown(w.brokers, gone, w.shutdowns, w'.shutdowns)
    requires w' == w.(brokers := w'.brokers, directory := w'.directory, shutdowns := w'.shutdowns, next := w'.next)
    ensures BrokerDeleted(host, w, w')
  {
    hide Requested, Replaced, RefersTo, UniqueNames, ShutDown, Redirected;
    OthersStay(w.brokers, host, others, gone, w.next, w'.brokers);
    assert gone == w.brokers.Keys - w'.brokers.Keys;
    NameUnlisted(w.brokers, host, others, gone, w.directory, w'.directory);
  }

  lemma NameUnlisted(brokers: States, host: string, others: seq<Host>, gone: set<Host>, d: Directory, d': Directory)
    requires HasBroker(brokers, host) && forall b :: b in others <==> b in brokers && b.hostname != host
    requires forall b :: b in gone <==> b in brokers && b.hostname == host
    requires Redirected(d, brokers, Requested(others), gone, false, d')
    ensures d' == d - {host}
  {
    hide Requested;
    assert forall n :: Names(gone, n) <==> n == host;
  }

  /** A broker that nothing refers to can go without unplacing anything. */
  lemma DeletedInStep(host: string, w: World, w': World)
    requires InStep(w) && BrokerDeleted(host, w, w')
    ensures InStep(w') && (WellPlaced(w) ==> WellPlaced(w')) && forall b :: b in w'.brokers ==> b in w.brokers
  {
    hide Placed, ShutDown;
    assert Directed(w'.directory, w'.routers, w'.brokers);
    hide Directed;
    PlacedByName(w);
    PlacedByName(w');
    assert RefersTo(w.held, host) || !Requires(w.held, host);
    hide Requires, RefersTo;
    forall n | HasBroker(w.brokers, n) && (n != host || RefersTo(w.held, host))
      ensures HasBroker(w'.brokers, n)
    {
      var b :| b in w.brokers && b.hostname == n;
      assert b in w'.brokers;
    }
  }

  /** Asking for all brokers but one drops just that one. */
  lemma OthersStay(before: States, host: string, others: seq<Host>, gone: set<Host>, first: nat, after: States)
    requires UniqueNames(before) && forall b :: b in others <==> b in before && b.hostname != host
    requires Replaced(before, Requested(others), gone, false, first, after)
    ensures forall b :: b in after <==> b in before && b.hostname != host
    ensures forall b :: b in after ==> after[b] == before[b]
    ensures forall b :: b in gone <==> b in before && b !in after
  {
    hide Requested;
    var want := Requested(others);
    forall b | b in before
      ensures Stays(b, want) <==> b.hostname != host
    {
      if b.hostname != host {
        assert b in others;
        assert want[b.hostname] in others;
      }
    }
    assert forall n :: n in want ==> want[n] in others;
  }
}
