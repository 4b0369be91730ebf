/** The answers of a batch in terms of projects, endpoints and broker hostnames, and what the batch leaves held
    (pkg/state/infra.go:709-770, 805-879, 949-1222, 1290-1370). */
module InfraAnswers {
  import opened InfraTypes
  import opened InfraHosts
  import opened InfraSteps
  import opened InfraReplies

  // ----- The vocabulary -----

  /** The address cannot do without the named broker: a queue, a topic or a subscription is scheduled to it, or it is the broker of
      its transactional project. */
  predicate Needs(h: Held, a: Address, n: string) {
    || ((a.type_.Queue? || a.type_.Topic? || a.type_.Subscription?) && n in a.brokers)
    || (var k := ResourceKey("default", a.key.namespace); k in h.projects && h.projects[k].broker == Some(n))
  }

  /** No broker has the name of one that the address needs. */
  ghost predicate MissesBroker(h: Held, brokers: States, a: Address) { exists n :: Needs(h, a, n) && !HasBroker(brokers, n) }

  /** The namespace has a "default" project. */
  predicate Projected(h: Held, ns: string) { ResourceKey("default", ns) in h.projects }

  /** The namespace has an active endpoint with a host. */
  ghost predicate Reached(h: Held, ns: string) {
    exists k :: k in h.endpoints && h.endpoints[k].key.namespace == ns && h.endpoints[k].active && h.endpoints[k].host != ""
  }

  /** The namespace has an address. */
  ghost predicate Occupied(h: Held, ns: string) { exists k :: k in h.addresses && k.namespace == ns }

  /** Success, or that configuring the routers or brokers failed. */
  function BatchReply(ok: bool): Reply { if ok then Done else InfraFailure }

  // ----- Answers -----

  /** The answer to a sync. */
  ghost predicate SyncAnswered(initialized: bool, h: Held, brokers: States, ok: bool, r: Resource, reply: Reply) {
    if !initialized then reply == NotInitialized
    else
      match r
      case AnAddress(a) =>
        reply == (if !Projected(h, a.key.namespace) then ProjectNotSynced
                  else if !Reached(h, a.key.namespace) then NoEndpoints
                  else if MissesBroker(h, brokers, a) then UnknownBroker
                  else BatchReply(ok))
      case AnEndpoint(e) => reply == if Projected(h, e.key.namespace) then BatchReply(ok) else ProjectNotSynced
      case AProject(_) => reply == BatchReply(ok)
      case OtherResource(_) => reply == UnknownType
  }

  /** The answer to a deletion that does not crash. */
  ghost predicate DeleteAnswered(initialized: bool, h: Held, brokers: States, ok: bool, r: Resource, reply: Reply) {
    if !initialized then reply == NotInitialized
    else
      match r
      case AnAddress(a) =>
        reply == (if !Reached(h, a.key.namespace) then NoEndpoints
                  else if MissesBroker(h, brokers, a) then UnknownBroker
                  else BatchReply(ok))
      case AnEndpoint(e) => reply == if Occupied(h, e.key.namespace) then StillInUse else BatchReply(ok)
      case AProject(p) => reply == if Occupied(h, p.key.namespace) then StillInUse else BatchReply(ok)
      case OtherResource(_) => reply == UnknownType
  }

  /** Building an address fails exactly when a broker that it needs is missing. */
  lemma BuildableByName(h: Held, d: Directory, routers: States, brokers: States, a: Address)
    requires Directed(d, routers, brokers) && Host("", "") !in brokers && Projected(h, a.key.namespace)
    ensures Buildable(h, a, LookupIn(d, brokers)) <==> !MissesBroker(h, brokers, a)
  {
    hide Listed, Covers, HasBroker, Known;
    forall n
      ensures LookupIn(d, brokers)(n) <==> HasBroker(brokers, n)
    {
      KnownIsNamed(d, routers, brokers, n);
    }
    var known, p := LookupIn(d, brokers), h.projects[ResourceKey("default", a.key.namespace)];
    hide LookupIn;
    if !Buildable(h, a, known) {
      if p.broker.Some? && !known(p.broker.v) {
        assert Needs(h, a, p.broker.v);
      } else {
        var n :| n in a.brokers && !known(n);
        assert Needs(h, a, n);
      }
    }
  }

  lemma SyncExplained(initialized: bool, h: Held, d: Directory, routers: States, brokers: States, ok: bool, r: Resource)
    requires Directed(d, routers, brokers) && Host("", "") !in brokers
    ensures SyncAnswered(initialized, h, brokers, ok, r, SyncAnswer(initialized, h, LookupIn(d, brokers), ok)(r))
  {
    hide Directed, MissesBroker, Buildable, LookupIn;
    if r.AnAddress? && Projected(h, r.a.key.namespace) {
      BuildableByName(h, d, routers, brokers, r.a);
    }
  }

  lemma DeleteExplained(initialized: bool, h: Held, d: Directory, routers: States, brokers: States, ok: bool, r: Resource)
    requires Directed(d, routers, brokers) && Host("", "") !in brokers && (initialized ==> !Crashes(h, r))
    ensures DeleteAnswered(initialized, h, brokers, ok, r, DeleteAnswer(initialized, h, LookupIn(d, brokers), ok)(r))
  {
    hide Directed, MissesBroker, Buildable, LookupIn;
    if r.AnAddress? && Projected(h, r.a.key.namespace) {
      BuildableByName(h, d, routers, brokers, r.a);
    }
  }

  // ----- What is held afterwards -----

  /** The last request that succeeds on a resource of this kind and key, by its position, or -1. */
  function LastDone(rs: seq<Request>, answer: Resource -> Reply, alike: Resource -> bool): (i: int)
    ensures -1 <= i < |rs|
    ensures i >= 0 ==> alike(rs[i].resource) && answer(rs[i].resource) == Done
    ensures forall j :: i < j < |rs| ==> !(alike(rs[j].resource) && answer(rs[j].resource) == Done)
  {
    if rs == [] then -1
    else
      var last := rs[|rs| - 1].resource;
      if alike(last) && answer(last) == Done then |rs| - 1 else LastDone(rs[..|rs| - 1], answer, alike)
  }

  datatype Kind = Addressing | Reaching | Grouping

  /** The resource held under a key, of one of the three kinds. */
  function HeldAt(h: Held, kind: Kind, k: ResourceKey): Optional<Resource> {
    match kind
    case Addressing => if k in h.addresses then Some(AnAddress(h.addresses[k])) else None
    case Reaching => if k in h.endpoints then Some(AnEndpoint(h.endpoints[k])) else None
    case Grouping => if k in h.projects then Some(AProject(h.projects[k])) else None
  }

  predicate IsAt(kind: Kind, k: ResourceKey, r: Resource) {
    match kind
    case Addressing => r.AnAddress? && r.a.key == k
    case Reaching => r.AnEndpoint? && r.e.key == k
    case Grouping => r.AProject? && r.p.key == k
  }

  lemma EnteredAt(h: Held, r: Resource, kind: Kind, k: ResourceKey)
    ensures HeldAt(Enter(h, r), kind, k) == if IsAt(kind, k, r) then Some(r) else HeldAt(h, kind, k)
    ensures HeldAt(Leave(h, r), kind, k) == if IsAt(kind, k, r) then None else HeldAt(h, kind, k)
  {
  }

  /** After a sync, each key holds the resource last synced under it with success, or what it held before. */
  lemma {:induction false} SyncHolds(h: Held, rs: seq<Request>, answer: Resource -> Reply, kind: Kind, k: ResourceKey)
    ensures var i := LastDone(rs, answer, r => IsAt(kind, k, r));
            HeldAt(AfterSync(h, rs, answer), kind, k) == if i < 0 then HeldAt(h, kind, k) else Some(rs[i].resource)
    decreases |rs|
  {
    hide HeldAt, IsAt, Enter, Leave;
    if rs != [] {
      SyncHolds(h, rs[..|rs| - 1], answer, kind, k);
      EnteredAt(AfterSync(h, rs[..|rs| - 1], answer), rs[|rs| - 1].resource, kind, k);
    }
  }

  /** After a deletion, a key holds what it held before, or nothing if a deletion under it succeeded. */
  lemma {:induction false} DeleteHolds(h: Held, rs: seq<Request>, answer: Resource -> Reply, kind: Kind, k: ResourceKey)
    ensures HeldAt(AfterDelete(h, rs, answer), kind, k) ==
            if LastDone(rs, answer, r => IsAt(kind, k, r)) < 0 then HeldAt(h, kind, k) else None
    decreases |rs|
  {
    hide HeldAt, IsAt, Enter, Leave;
    if rs != [] {
      DeleteHolds(h, rs[..|rs| - 1], answer, kind, k);
      EnteredAt(AfterDelete(h, rs[..|rs| - 1], answer), rs[|rs| - 1].resource, kind, k);
    }
  }
}
