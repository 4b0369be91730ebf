/** Whole runs of the infrastructure client: any interleaving of requests, rounds of the two workers, broker deletions and resyncs
    (pkg/state/infra.go:121-147, 296-451, 580-770, 1245-1370). */
module InfraRun {
  import opened InfraTypes
  import opened InfraHosts
  import opened InfraPorts
  import opened InfraSteps
  import opened InfraReplies
  import opened InfraAnswers
  import opened InfraClient

  datatype Step =
    | SubmitSync(r: Resource) | SubmitDelete(r: Resource) | CollectSync | CollectDelete | HandleSync(ok: bool) | HandleDelete(ok: bool)
    | RemoveBroker(host: string) | Resync(routers: seq<Host>, brokers: seq<Host>, done: Outcomes)
    | Allocate(e: Endpoint, protocols: seq<Protocol>) | Free(e: Endpoint)

  /** What a step does, from one state of the client to the next. */
  ghost predicate Effect(s: Step, w: World, w': World) {
    match s
    case SubmitSync(r) => w' == SyncSubmitted(w, r)
    case SubmitDelete(r) => w' == DeleteSubmitted(w, r)
    case CollectSync => w' == SyncTaken(w)
    case CollectDelete => w' == DeleteTaken(w)
    case HandleSync(ok) => SyncHandled(ok, w, w')
    case HandleDelete(ok) => DeleteHandled(ok, w, w')
    case RemoveBroker(host) => BrokerDeleted(host, w, w')
    case Resync(routers, brokers, done) => Resynced(routers, brokers, done, w, w')
    case Allocate(e, protocols) => PortsAllocated(e, protocols, w, w')
    case Free(e) => w' == PortsFreed(e, w)
  }

  ghost predicate Resynced(routers: seq<Host>, brokers: seq<Host>, done: Outcomes, w: World, w': World) {
    exists failed, cut, log :: AllSynced(routers, brokers, done, failed, cut, log, w, w')
  }

  /** The process ends in this step. */
  ghost predicate Ends(s: Step, w: World) { s.HandleDelete? && BatchCrashes(w) }

  /** The states a run goes through: one more than the steps made, none of which ends the process. */
  ghost predicate Behaves(steps: seq<Step>, trace: seq<World>) {
    && 0 < |trace| <= |steps| + 1
    && forall i :: 0 <= i < |trace| - 1 ==> !Ends(steps[i], trace[i]) && Effect(steps[i], trace[i], trace[i + 1])
  }

  /** Routers and brokers have names of their own. */
  ghost predicate Fits(s: Step, routerNames: iset<string>, brokerNames: iset<string>) {
    s.Resync? ==> (forall h :: h in s.routers ==> h.hostname in routerNames) && (forall h :: h in s.brokers ==> h.hostname in brokerNames)
  }

  ghost predicate Within(brokers: States, names: iset<string>) { forall b :: b in brokers ==> b.hostname in names }

  /** A resync asks for every broker hostname that is known. */
  ghost predicate KeepsBrokers(s: Step, brokers: States) {
    s.Resync? ==> forall b :: b in brokers ==> b.hostname in Requested(s.brokers)
  }

  /** Every run: the client goes through the states of a trace, in each of which every accepted request waits once or has its one
      reply and every held address has its project and an endpoint. It crashes exactly where a step ends the process. `kept` says
      that no resync dropped a broker hostname. */
  method Run(client: Client, steps: seq<Step>) returns (crashed: bool, ghost kept: bool, ghost trace: seq<World>)
    requires client.Valid()
    modifies client, client.hosts, client.ports
    ensures Behaves(steps, trace) && trace[0] == old(client.World())
    ensures forall i :: 0 <= i < |trace| ==> ValidWorld(trace[i])
    ensures crashed <==> |trace| <= |steps|
    ensures crashed ==> Ends(steps[|trace| - 1], trace[|trace| - 1])
    ensures !crashed ==> client.Valid() && client.World() == trace[|trace| - 1]
    ensures kept <==> forall i :: 0 <= i < |trace| - 1 ==> KeepsBrokers(steps[i], trace[i].brokers)
  {
    hide Running, Ends, Effect, Client.World, ValidWorld, KeepsBrokers, Behaves;
    crashed, kept, trace := false, true, [client.World()];
    var i := 0;
    StartsRunning(steps, client.World());
    while i < |steps|
      invariant 0 <= i <= |steps| && |trace| == i + 1 && trace[0] == old(client.World()) && trace[i] == client.World()
      invariant client.Valid() && Running(steps, i, kept, trace) && !crashed
    {
      crashed := Perform(client, steps[i]);
      if crashed {
        RunningFacts(steps, i, kept, trace);
        return;
      }
      Proceeds(steps, i, kept, trace, client.World());
      kept := kept && KeepsBrokers(steps[i], trace[i].brokers);
      trace := trace + [client.World()];
      i := i + 1;
    }
    RunningFacts(steps, i, kept, trace);
  }

  ghost predicate Running(steps: seq<Step>, i: nat, kept: bool, trace: seq<World>)
    requires i <= |steps| && |trace| == i + 1
  {
    && Behaves(steps, trace) && (forall j :: 0 <= j <= i ==> ValidWorld(trace[j]))
    && (kept <==> forall j :: 0 <= j < i ==> KeepsBrokers(steps[j], trace[j].brokers))
  }

  lemma StartsRunning(steps: seq<Step>, w: World)
    requires ValidWorld(w)
    ensures Running(steps, 0, true, [w])
  {
    hide ValidWorld;
  }

  lemma Proceeds(steps: seq<Step>, i: nat, kept: bool, trace: seq<World>, w: World)
    requires i < |steps| && |trace| == i + 1 && Running(steps, i, kept, trace) && ValidWorld(w)
    requires !Ends(steps[i], trace[i]) && Effect(steps[i], trace[i], w)
    ensures Running(steps, i + 1, kept && KeepsBrokers(steps[i], trace[i].brokers), trace + [w])
  {
    hide Ends, Effect, ValidWorld, KeepsBrokers;
    var longer := trace + [w];
    assert forall j :: 0 <= j <= i ==> longer[j] == trace[j];
  }

  lemma RunningFacts(steps: seq<Step>, i: nat, kept: bool, trace: seq<World>)
    requires i <= |steps| && |trace| == i + 1 && Running(steps, i, kept, trace)
    ensures Behaves(steps, trace) && (forall j :: 0 <= j < |trace| ==> ValidWorld(trace[j]))
    ensures kept <==> forall j :: 0 <= j < |trace| - 1 ==> KeepsBrokers(steps[j], trace[j].brokers)
  {
    hide Ends, Effect, ValidWorld, KeepsBrokers;
  }

  method Perform(client: Client, s: Step) returns (crashed: bool)
    requires client.Valid()
    modifies client, client.hosts, client.ports
    ensures crashed <==> Ends(s, old(client.World()))
    ensures !crashed ==> client.Valid() && Effect(s, old(client.World()), client.World())
  {
    hide ValidWorld, SyncHandled, DeleteHandled, BrokerDeleted, AllSynced, BatchCrashes, Placed, PortsAllocated, AllocatedThrough, Freed,
      Allocating, WebsocketPorts;
    crashed := false;
    match s {
      case SubmitSync(r) => var _ := client.RequestSync(r);
      case SubmitDelete(r) => var _ := client.RequestDelete(r);
      case CollectSync => client.TakeSync();
      case CollectDelete => client.TakeDelete();
      case HandleSync(ok) => client.DoSync(ok);
      case HandleDelete(ok) => crashed := client.DoDelete(ok);
      case RemoveBroker(host) => var _ := client.DeleteBroker(host);
      case Resync(routers, brokers, done) =>
        var failed, cut;
        ghost var log;
        failed, cut, log := client.SyncAll(routers, brokers, done);
      case Allocate(e, protocols) =>
        var failed, listed;
        ghost var states;
        failed, listed, states := client.AllocatePorts(e, protocols);
      case Free(e) => var _ := client.FreePorts(e);
    }
  }

  // ----- What holds of every run -----

  /** A reply, once given, stays as it is. */
  lemma {:induction false} RepliesStay(steps: seq<Step>, trace: seq<World>, i: nat, j: nat, id: nat)
    requires Behaves(steps, trace) && i <= j < |trace| && id in trace[i].replies
    ensures id in trace[j].replies && trace[j].replies[id] == trace[i].replies[id]
    decreases j - i
  {
    hide Effect;
    if i < j {
      RepliesStay(steps, trace, i, j - 1, id);
      ReplyStays(steps[j - 1], trace[j - 1], trace[j], id);
    }
  }

  lemma ReplyStays(s: Step, w: World, w': World, id: nat)
    requires Effect(s, w, w') && id in w.replies
    ensures id in w'.replies && w'.replies[id] == w.replies[id]
  {
    hide AfterSync, AfterDelete, FreedBy, ShutDown, HostsSynced, PortsRestored, Times, SyncAnswer, DeleteAnswer, Unbuildable;
  }

  /** The step answers the request, as the state before it and the outcome of the batch decide. */
  ghost predicate Answers(s: Step, w: World, id: nat, reply: Reply) {
    || (s.HandleSync? && exists r :: r in w.syncBatch && r.id == id && reply == SyncAnswer(w.initialized, w.held, KnownIn(w), s.ok)(r.resource))
    || (s.HandleDelete? && exists r :: r in w.deleteBatch && r.id == id && reply == DeleteAnswer(w.initialized, w.held, KnownIn(w), s.ok)(r.resource))
  }

  /** Every reply of a run was given by one step of it, to a request of the batch it handled. */
  lemma {:induction false} ReplyExplained(steps: seq<Step>, trace: seq<World>, j: nat, id: nat)
    requires Behaves(steps, trace) && j < |trace| && id in trace[j].replies && id !in trace[0].replies
    ensures exists i :: 0 <= i < j && Answers(steps[i], trace[i], id, trace[j].replies[id])
    decreases j
  {
    assert j > 0;
    var w, w', s := trace[j - 1], trace[j], steps[j - 1];
    assert Effect(s, w, w');
    if id in w.replies {
      RepliesStay(steps, trace, j - 1, j, id);
      ReplyExplained(steps, trace, j - 1, id);
    } else {
      NewReply(s, w, w', id);
      assert Answers(steps[j - 1], trace[j - 1], id, trace[j].replies[id]);
    }
  }

  lemma NewReply(s: Step, w: World, w': World, id: nat)
    requires Effect(s, w, w') && id in w'.replies && id !in w.replies
    ensures Answers(s, w, id, w'.replies[id])
  {
    hide AfterSync, AfterDelete, FreedBy, ShutDown, HostsSynced, PortsRestored;
    TimesHas(w.syncBatch, id);
    TimesHas(w.deleteBatch, id);
  }

  /** With names of their own for routers and brokers, the directory lists exactly the hosts in every state of a run. As long as
      no resync drops a broker hostname, nothing held is on an unknown broker. */
  lemma {:induction false} PlacedThroughout(steps: seq<Step>, trace: seq<World>, j: nat, routerNames: iset<string>, brokerNames: iset<string>)
    requires Behaves(steps, trace) && j < |trace| && InStep(trace[0]) && WellPlaced(trace[0]) && Within(trace[0].brokers, brokerNames)
    requires routerNames !! brokerNames && "" !in brokerNames && forall s :: s in steps ==> Fits(s, routerNames, brokerNames)
    ensures InStep(trace[j]) && Within(trace[j].brokers, brokerNames)
    ensures (forall i :: 0 <= i < j ==> KeepsBrokers(steps[i], trace[i].brokers)) ==> WellPlaced(trace[j])
    decreases j
  {
    hide InStep, WellPlaced, Within, KeepsBrokers, Effect, Fits;
    if j > 0 {
      PlacedThroughout(steps, trace, j - 1, routerNames, brokerNames);
      assert steps[j - 1] in steps && Effect(steps[j - 1], trace[j - 1], trace[j]);
      PlacedStep(steps[j - 1], trace[j - 1], trace[j], routerNames, brokerNames);
    }
  }

  /** The step answers the request for the reason that the projects, endpoints and broker hostnames of the state before it give. */
  ghost predicate Reasons(s: Step, w: World, id: nat, reply: Reply) {
    || (s.HandleSync? && exists r :: r in w.syncBatch && r.id == id && SyncAnswered(w.initialized, w.held, w.brokers, s.ok, r.resource, reply))
    || (s.HandleDelete? && exists r :: r in w.deleteBatch && r.id == id && DeleteAnswered(w.initialized, w.held, w.brokers, s.ok, r.resource, reply))
  }

  lemma AnswerReasons(s: Step, w: World, id: nat, reply: Reply)
    requires InStep(w) && !Ends(s, w) && Answers(s, w, id, reply)
    ensures Reasons(s, w, id, reply)
  {
    hide Directed, SyncAnswered, DeleteAnswered, SyncAnswer, DeleteAnswer, Crashes;
    if s.HandleSync? {
      var r :| r in w.syncBatch && r.id == id && reply == SyncAnswer(w.initialized, w.held, KnownIn(w), s.ok)(r.resource);
      SyncExplained(w.initialized, w.held, w.directory, w.routers, w.brokers, s.ok, r.resource);
    } else {
      var r :| r in w.deleteBatch && r.id == id && reply == DeleteAnswer(w.initialized, w.held, KnownIn(w), s.ok)(r.resource);
      DeleteExplained(w.initialized, w.held, w.directory, w.routers, w.brokers, s.ok, r.resource);
    }
  }

  /** With names of their own for routers and brokers, every reply of a run has its reason in the state of one step. */
  lemma ReplyReasons(steps: seq<Step>, trace: seq<World>, j: nat, id: nat, routerNames: iset<string>, brokerNames: iset<string>)
    requires Behaves(steps, trace) && j < |trace| && InStep(trace[0]) && WellPlaced(trace[0]) && Within(trace[0].brokers, brokerNames)
    requires routerNames !! brokerNames && "" !in brokerNames && forall s :: s in steps ==> Fits(s, routerNames, brokerNames)
    requires id in trace[j].replies && id !in trace[0].replies
    ensures exists i :: 0 <= i < j && Reasons(steps[i], trace[i], id, trace[j].replies[id])
  {
    hide InStep, WellPlaced, Within, Effect, Fits, Answers, Reasons, Ends;
    ReplyExplained(steps, trace, j, id);
    var i :| 0 <= i < j && Answers(steps[i], trace[i], id, trace[j].replies[id]);
    PlacedThroughout(steps, trace, i, routerNames, brokerNames);
    AnswerReasons(steps[i], trace[i], id, trace[j].replies[id]);
  }

  lemma PlacedStep(s: Step, w: World, w': World, routerNames: iset<string>, brokerNames: iset<string>)
    requires Effect(s, w, w') && InStep(w) && Within(w.brokers, brokerNames)
    requires routerNames !! brokerNames && "" !in brokerNames && Fits(s, routerNames, brokerNames)
    ensures InStep(w') && Within(w'.brokers, brokerNames) && (WellPlaced(w) && KeepsBrokers(s, w.brokers) ==> WellPlaced(w'))
  {
    hide Directed, Placed, AfterSync, AfterDelete, SyncAnswer, DeleteAnswer, FreedBy, AllAnswered, HostsSynced, BrokerDeleted, PortsRestored, Requested, Unbuildable;
    if s.HandleSync? && WellPlaced(w) {
      SyncPlaces(w.held, w.syncBatch, w.initialized, w.held, KnownIn(w), s.ok);
    } else if s.HandleDelete? && WellPlaced(w) {
      DeletePlaces(w.held, w.deleteBatch, DeleteAnswer(w.initialized, w.held, KnownIn(w), s.ok), KnownIn(w));
    } else if s.RemoveBroker? {
      DeletedInStep(s.host, w, w');
    } else if s.Resync? {
      var failed, cut, log :| AllSynced(s.routers, s.brokers, s.done, failed, cut, log, w, w');
      ResyncConverges(s.routers, s.brokers, s.done.connectorFails, cut, log, w, w');
      ResyncPlaces(s.routers, s.brokers, s.done.connectorFails, cut, log, w, w');
    }
  }

  lemma {:induction false} SyncPlaces(h: Held, rs: seq<Request>, initialized: bool, base: Held, known: Lookup, ok: bool)
    requires Placed(h, known)
    ensures Placed(AfterSync(h, rs, SyncAnswer(initialized, base, known, ok)), known)
  {
    if rs != [] {
      SyncPlaces(h, rs[..|rs| - 1], initialized, base, known, ok);
    }
  }

  lemma {:induction false} DeletePlaces(h: Held, rs: seq<Request>, answer: Resource -> Reply, known: Lookup)
    requires Placed(h, known)
    ensures Placed(AfterDelete(h, rs, answer), known)
  {
    if rs != [] {
      DeletePlaces(h, rs[..|rs| - 1], answer, known);
    }
  }

  // ----- Ports over a run -----

  /** The step may change what the port is bound to: it frees an endpoint that lists it, or it is a resync and a held endpoint
      lists it. */
  ghost predicate Releases(s: Step, w: World, p: nat) {
    match s
    case Free(e) => w.initialized && GivesUp(e.ports, p)
    case HandleDelete(ok) => GivenUpBy(w.deleteBatch, DeleteAnswer(w.initialized, w.held, KnownIn(w), ok), p)
    case Resync(_, _, _) => InfraClient.Lists(w.held.endpoints, p)
    case _ => false
  }

  /** An endpoint among the requests answered with success gives up the port. */
  ghost predicate GivenUpBy(rs: seq<Request>, answer: Resource -> Reply, p: nat) {
    exists r :: r in rs && r.resource.AnEndpoint? && answer(r.resource) == Done && GivesUp(r.resource.e.ports, p)
  }

  lemma {:induction false} FreedByAt(t: Table, rs: seq<Request>, answer: Resource -> Reply, p: nat)
    requires p in t && !GivenUpBy(rs, answer, p)
    ensures p in FreedBy(t, rs, answer) && FreedBy(t, rs, answer)[p] == t[p]
    decreases |rs|
  {
    hide Freed, GivesUp;
    if rs != [] {
      var front, last := rs[..|rs| - 1], rs[|rs| - 1];
      assert forall r :: r in front ==> r in rs;
      FreedByAt(t, front, answer, p);
      if last.resource.AnEndpoint? && answer(last.resource) == Done {
        assert last in rs;
        FreedAt(FreedBy(t, front, answer), last.resource.e.ports, p);
      }
    }
  }

  lemma FreedAt(t: Table, ports: seq<Port>, p: nat)
    requires p in t && !GivesUp(ports, p)
    ensures p in Freed(t, ports) && Freed(t, ports)[p] == t[p]
  {
    hide Freed;
    FreedExactly(t, ports);
  }

  lemma PortStays(s: Step, w: World, w': World, p: nat)
    requires Effect(s, w, w') && p in w.ports && w.ports[p].Bound? && !Releases(s, w, p)
    ensures p in w'.ports && w'.ports[p] == w.ports[p]
  {
    hide AfterSync, AfterDelete, ShutDown, HostsSynced, AllAnswered, Unbuildable, FreedBy, Freed, GivesUp, GivenUpBy, Served, DeleteAnswer;
    match s {
      case Free(e) =>
        if w.initialized {
          FreedAt(w.ports, e.ports, p);
        }
      case HandleDelete(ok) => FreedByAt(w.ports, w.deleteBatch, DeleteAnswer(w.initialized, w.held, KnownIn(w), ok), p);
      case Allocate(e, protocols) =>
        if w.initialized {
          AllocationKeeps(e, protocols, w, w');
        }
      case _ =>
    }
  }

  lemma AllocationKeeps(e: Endpoint, protocols: seq<Protocol>, w: World, w': World)
    requires w.initialized && PortsAllocated(e, protocols, w, w')
    ensures forall p :: p in w.ports && w.ports[p].Bound? ==> p in w'.ports && w'.ports[p] == w.ports[p]
    ensures OnePortPerName(w.ports) ==> OnePortPerName(w'.ports)
  {
    var states :| AllocatedThrough(e, protocols, states, w, w');
    hide OnePortPerName;
    AllocatingGrows(e.key, protocols, states, |states| - 1);
  }

  /** Through any stretch of a run, a bound port keeps its name unless a step releases it. */
  lemma {:induction false} PortStaysThroughout(steps: seq<Step>, trace: seq<World>, i: nat, j: nat, p: nat)
    requires Behaves(steps, trace) && i <= j < |trace| && p in trace[i].ports && trace[i].ports[p].Bound?
    requires forall k :: i <= k < j ==> !Releases(steps[k], trace[k], p)
    ensures p in trace[j].ports && trace[j].ports[p] == trace[i].ports[p]
    decreases j - i
  {
    hide Effect, Releases;
    if i < j {
      PortStaysThroughout(steps, trace, i, j - 1, p);
      PortStays(steps[j - 1], trace[j - 1], trace[j], p);
    }
  }

  /** Until a resync restores ports, no name comes to hold two of them. */
  lemma {:induction false} OnePortThroughout(steps: seq<Step>, trace: seq<World>, j: nat)
    requires Behaves(steps, trace) && j < |trace| && OnePortPerName(trace[0].ports) && forall k :: 0 <= k < j ==> !steps[k].Resync?
    ensures OnePortPerName(trace[j].ports)
    decreases j
  {
    hide Effect, OnePortPerName;
    if j > 0 {
      OnePortThroughout(steps, trace, j - 1);
      OnePortStep(steps[j - 1], trace[j - 1], trace[j]);
    }
  }

  lemma OnePortStep(s: Step, w: World, w': World)
    requires Effect(s, w, w') && OnePortPerName(w.ports) && !s.Resync?
    ensures OnePortPerName(w'.ports)
  {
    hide AfterSync, AfterDelete, ShutDown, AllAnswered, FreedBy, Freed, Served, DeleteAnswer, OnePortPerName;
    match s {
      case Free(e) => FreedKeeps(w.ports, e.ports);
      case HandleDelete(ok) => FreedByKeeps(w.ports, w.deleteBatch, DeleteAnswer(w.initialized, w.held, KnownIn(w), ok));
      case Allocate(e, protocols) =>
        if w.initialized {
          AllocationKeeps(e, protocols, w, w');
        }
      case _ =>
    }
  }

  lemma {:induction false} FreedByKeeps(t: Table, rs: seq<Request>, answer: Resource -> Reply)
    requires OnePortPerName(t)
    ensures OnePortPerName(FreedBy(t, rs, answer))
    decreases |rs|
  {
    hide Freed, OnePortPerName;
    if rs != [] {
      FreedByKeeps(t, rs[..|rs| - 1], answer);
      if rs[|rs| - 1].resource.AnEndpoint? {
        FreedKeeps(FreedBy(t, rs[..|rs| - 1], answer), rs[|rs| - 1].resource.e.ports);
      }
    }
  }

  // ----- A run that crashes -----

  /** A project can be deleted while endpoints of its namespace are still held. Deleting an address of that namespace then looks up
      the missing project. */
  method DeletingCrashes() returns (crashed: bool)
    ensures crashed
  {
    hide ValidWorld, BatchCrashes, AllAnswered;
    var p := Project(DefaultProject("ns"), None);
    var e := Endpoint(ResourceKey("e", "ns"), true, "host", []);
    var a := Address(ResourceKey("a", "ns"), Anycast, []);
    var client := Fresh();
    HoldOne(client, AProject(p));
    HoldOne(client, AnEndpoint(e));
    DropOne(client, AProject(p));
    var _ := client.RequestDelete(AnAddress(a));
    client.TakeDelete();
    assert client.endpoints == map[e.key := e] && client.projects == map[];
    Missing(client.World(), e, client.deleteBatch[0]);
    crashed := client.DoDelete(true);
  }

  lemma Missing(w: World, e: Endpoint, r: Request)
    requires w.initialized && w.held.endpoints == map[e.key := e] && IsActive(e) && w.held.projects == map[] && r in w.deleteBatch
    requires r.resource.AnAddress? && r.resource.a.key.namespace == e.key.namespace
    ensures BatchCrashes(w)
  {
    assert e.key in w.held.endpoints;
  }

  method Fresh() returns (client: Client)
    ensures fresh(client) && fresh(client.hosts) && fresh(client.ports)
    ensures client.Valid() && Idle(client.World()) && client.Held() == InfraSteps.Held(map[], map[], map[])
  {
    hide ValidWorld, ShutDown, Requested, Redirected, Replaced, PortsRestored;
    client := new Client();
    var failed, cut;
    ghost var log;
    failed, cut, log := client.SyncAll([], [], Outcomes(h => false, true, true, true));
  }

  ghost predicate Idle(w: World) { w.initialized && w.syncRequests == w.deleteRequests == w.syncBatch == w.deleteBatch == [] }

  method HoldOne(client: Client, r: Resource)
    requires client.Valid() && Idle(client.World()) && SyncReply(client.Held(), KnownIn(client.World()), true, r) == Done
    modifies client
    ensures client.Valid() && Idle(client.World()) && client.Held() == Enter(old(client.Held()), r)
  {
    hide ValidWorld, AllAnswered, SyncReply, Enter, Placed, AfterSync;
    var _ := client.RequestSync(r);
    client.TakeSync();
    assert client.syncBatch == [client.syncBatch[0]];
    OneDone(client.Held(), client.syncBatch[0], SyncAnswer(true, client.Held(), KnownIn(client.World()), true));
    client.DoSync(true);
  }

  lemma OneDone(h: Held, r: Request, answer: Resource -> Reply)
    requires answer(r.resource) == Done
    ensures AfterSync(h, [r], answer) == Enter(h, r.resource) && AfterDelete(h, [r], answer) == Leave(h, r.resource)
  {
    assert AfterSync(h, [r][..0], answer) == h == AfterDelete(h, [r][..0], answer);
  }

  method DropOne(client: Client, r: Resource)
    requires client.Valid() && Idle(client.World()) && !Crashes(client.Held(), r)
    requires DeleteReply(client.Held(), KnownIn(client.World()), true, r) == Done
    modifies client, client.ports
    ensures client.Valid() && Idle(client.World()) && client.Held() == Leave(old(client.Held()), r)
  {
    hide ValidWorld, AllAnswered, DeleteReply, Leave, Placed, FreedBy, AfterDelete, Crashes;
    var _ := client.RequestDelete(r);
    client.TakeDelete();
    assert client.deleteBatch == [client.deleteBatch[0]];
    OneDone(client.Held(), client.deleteBatch[0], DeleteAnswer(true, client.Held(), KnownIn(client.World()), true));
    var crashed := client.DoDelete(true);
  }
}
