/** What one batch of requests does to the held projects, endpoints and addresses
    (pkg/state/infra.go:709-770, 805-879, 949-1222, 1290-1370). */
module InfraSteps {
  import opened InfraTypes

  type Projects = map<ResourceKey, Project>

  type Endpoints = map<ResourceKey, Endpoint>

  type Addresses = map<ResourceKey, Address>

  datatype Held = Held(projects: Projects, endpoints: Endpoints, addresses: Addresses)

  /** Whether a broker name leads to a broker state. */
  type Lookup = string -> bool

  predicate HasProject(h: Held, ns: string) { DefaultProject(ns) in h.projects }

  predicate HasEndpoint(h: Held, ns: string) { exists k :: k in h.endpoints && k.namespace == ns }

  predicate HasActive(h: Held, ns: string) { exists k :: k in h.endpoints && h.endpoints[k].key.namespace == ns && IsActive(h.endpoints[k]) }

  predicate InUse(h: Held, ns: string) { exists k :: k in h.addresses && k.namespace == ns }

  /** Addresses that live on the brokers they are scheduled to. */
  predicate OnBrokers(t: AddressType) { t.Queue? || t.Topic? || t.Subscription? }

  predicate AllKnown(a: Address, known: Lookup) { forall b :: b in a.brokers ==> known(b) }

  /** buildRouterAddressEntities succeeds: for a transactional project only its own broker counts. */
  predicate RouterBuildable(h: Held, a: Address, known: Lookup)
    requires HasProject(h, a.key.namespace)
  {
    var p := h.projects[DefaultProject(a.key.namespace)];
    if p.broker.Some? then known(p.broker.v) else OnBrokers(a.type_) ==> AllKnown(a, known)
  }

  /** buildBrokerAddressEntities succeeds. */
  predicate BrokerBuildable(a: Address, known: Lookup) { OnBrokers(a.type_) ==> AllKnown(a, known) }

  /** The outcome of buildRouterAddressEntities for one endpoint; `Done` stands for success. */
  function RouterReply(h: Held, e: Endpoint, a: Address, known: Lookup): Reply
    requires HasProject(h, a.key.namespace)
  {
    if !IsActive(e) then InactiveEndpoint else if RouterBuildable(h, a, known) then Done else UnknownBroker
  }

  /** The outcome of buildBrokerAddressEntities for one endpoint. */
  function BrokerReply(e: Endpoint, a: Address, known: Lookup): Reply {
    if !IsActive(e) then InactiveEndpoint else if BrokerBuildable(a, known) then Done else UnknownBroker
  }

  predicate Buildable(h: Held, a: Address, known: Lookup)
    requires HasProject(h, a.key.namespace)
  {
    RouterBuildable(h, a, known) && BrokerBuildable(a, known)
  }

  function Outcome(ok: bool): Reply { if ok then Done else InfraFailure }

  /** buildEntities on a request that passed the checks: an error, or nothing. `Done` stands for nothing. */
  function BuildReply(h: Held, known: Lookup, r: Resource): Reply
    requires r.AnAddress? && HasActive(h, r.a.key.namespace) ==> HasProject(h, r.a.key.namespace)
  {
    match r
    case AnAddress(a) => if !HasActive(h, a.key.namespace) then NoEndpoints else if !Buildable(h, a, known) then UnknownBroker else Done
    case OtherResource(_) => UnknownType
    case _ => Done
  }

  /** The checks before a sync. */
  function SyncCheck(h: Held, r: Resource): Reply {
    if (r.AnAddress? || r.AnEndpoint?) && !HasProject(h, KeyOf(r).namespace) then ProjectNotSynced else Done
  }

  /** The checks before a deletion. */
  function DeleteCheck(h: Held, r: Resource): Reply {
    if (r.AProject? || r.AnEndpoint?) && InUse(h, KeyOf(r).namespace) then StillInUse else Done
  }

  /** Building looks up a project that is not there. */
  predicate Crashes(h: Held, r: Resource) { r.AnAddress? && HasActive(h, r.a.key.namespace) && !HasProject(h, r.a.key.namespace) }

  function SyncReply(h: Held, known: Lookup, ok: bool, r: Resource): Reply {
    if SyncCheck(h, r) != Done then SyncCheck(h, r)
    else if BuildReply(h, known, r) != Done then BuildReply(h, known, r)
    else Outcome(ok)
  }

  function DeleteReply(h: Held, known: Lookup, ok: bool, r: Resource): Reply
    requires !Crashes(h, r)
  {
    if DeleteCheck(h, r) != Done then DeleteCheck(h, r)
    else if BuildReply(h, known, r) != Done then BuildReply(h, known, r)
    else Outcome(ok)
  }

  /** Entering and removing one resource. */
  function Enter(h: Held, r: Resource): Held {
    match r
    case AnAddress(a) => h.(addresses := h.addresses[a.key := a])
    case AnEndpoint(e) => h.(endpoints := h.endpoints[e.key := e])
    case AProject(p) => h.(projects := h.projects[p.key := p])
    case OtherResource(_) => h
  }

  function Leave(h: Held, r: Resource): Held {
    match r
    case AnAddress(a) => h.(addresses := h.addresses - {a.key})
    case AnEndpoint(e) => h.(endpoints := h.endpoints - {e.key})
    case AProject(p) => h.(projects := h.projects - {p.key})
    case OtherResource(_) => h
  }

  // ----- Reference integrity -----

  ghost predicate Keyed(h: Held) {
    && (forall k :: k in h.projects ==> h.projects[k].key == k)
    && (forall k :: k in h.endpoints ==> h.endpoints[k].key == k)
    && (forall k :: k in h.addresses ==> h.addresses[k].key == k)
  }

  /** Every held address has a "default" project and an endpoint in its namespace. */
  ghost predicate Integral(h: Held) {
    Keyed(h) && forall k :: k in h.addresses ==> HasProject(h, k.namespace) && HasEndpoint(h, k.namespace)
  }

  /** Every held queue, topic and subscription is on known brokers. */
  ghost predicate Placed(h: Held, known: Lookup) {
    forall k :: k in h.addresses && OnBrokers(h.addresses[k].type_) ==> AllKnown(h.addresses[k], known)
  }

  /** `h` holds all that `base` holds, possibly replaced. */
  ghost predicate Grown(base: Held, h: Held) {
    base.projects.Keys <= h.projects.Keys && base.endpoints.Keys <= h.endpoints.Keys
  }

  /** A resource accepted against `base` can be entered into anything grown from it. */
  lemma EnterKeeps(base: Held, h: Held, r: Resource, known: Lookup)
    requires Integral(h) && Keyed(base) && Grown(base, h)
    requires SyncCheck(base, r) == Done && BuildReply(base, known, r) == Done
    ensures Integral(Enter(h, r)) && Grown(base, Enter(h, r)) && (Placed(h, known) ==> Placed(Enter(h, r), known))
  {
    hide Integral, HasProject, HasActive;
    if r.AnAddress? {
      AcceptedAddress(base, r.a, known);
      EnterAddress(base, h, r.a);
    } else {
      EnterOther(h, r);
    }
  }

  lemma AcceptedAddress(base: Held, a: Address, known: Lookup)
    requires Keyed(base) && SyncCheck(base, AnAddress(a)) == Done && BuildReply(base, known, AnAddress(a)) == Done
    ensures HasProject(base, a.key.namespace) && HasEndpoint(base, a.key.namespace) && BrokerBuildable(a, known)
  {
    hide RouterBuildable;
    ActiveIsHeld(base, a.key.namespace);
  }

  lemma EnterAddress(base: Held, h: Held, a: Address)
    requires Integral(h) && Grown(base, h) && HasProject(base, a.key.namespace) && HasEndpoint(base, a.key.namespace)
    ensures Integral(Enter(h, AnAddress(a)))
  {
    var x :| x in base.endpoints && x.namespace == a.key.namespace;
    assert x in h.endpoints && HasEndpoint(h, a.key.namespace);
  }

  lemma EnterOther(h: Held, r: Resource)
    requires Integral(h) && !r.AnAddress?
    ensures Integral(Enter(h, r))
  {
    var h' := Enter(h, r);
    forall k | k in h'.addresses
      ensures HasEndpoint(h', k.namespace)
    {
      var x :| x in h.endpoints && x.namespace == k.namespace;
      assert x in h'.endpoints;
    }
  }

  lemma ActiveIsHeld(h: Held, ns: string)
    requires Keyed(h) && HasActive(h, ns)
    ensures HasEndpoint(h, ns)
  {
  }

  /** `h` holds no address that `base` does not hold. */
  ghost predicate Shrunk(base: Held, h: Held) { h.addresses.Keys <= base.addresses.Keys }

  /** A resource found unused in `base` can be removed from anything shrunk from it. */
  lemma LeaveKeeps(base: Held, h: Held, r: Resource, known: Lookup)
    requires Integral(h) && Shrunk(base, h) && DeleteCheck(base, r) == Done
    ensures Integral(Leave(h, r)) && Shrunk(base, Leave(h, r)) && (Placed(h, known) ==> Placed(Leave(h, r), known))
  {
    var h' := Leave(h, r);
    forall k | k in h'.addresses
      ensures HasProject(h', k.namespace) && HasEndpoint(h', k.namespace)
    {
      assert k in h.addresses && k in base.addresses;
      var x :| x in h.endpoints && x.namespace == k.namespace;
      assert (r.AProject? || r.AnEndpoint?) ==> KeyOf(r).namespace != k.namespace;
      assert x in h'.endpoints;
    }
  }

  /** The project lookup finds a project for every request that passed the checks of a sync and for every held address. */
  lemma ProjectIsThere(h: Held, r: Resource)
    ensures SyncCheck(h, r) == Done ==> !Crashes(h, r)
    ensures Integral(h) && r.AnAddress? && r.a.key in h.addresses ==> !Crashes(h, r)
  {
  }
}
