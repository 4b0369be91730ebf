/** The resources and requests that the messaging infrastructure client handles
    (pkg/state/infra.go:34-48, 881-883, pkg/apis/enmasse/v1/types_endpoint.go:104-107). */
module InfraTypes {
  datatype ResourceKey = ResourceKey(name: string, namespace: string)

  datatype Host = Host(hostname: string, ip: string)

  datatype Protocol = AMQP | AMQPS | AMQPWS | AMQPWSS

  datatype Port = Port(name: string, protocol: Protocol, number: nat)

  datatype AddressType = Anycast | Multicast | Queue | DeadLetter | Topic | Subscription | Untyped

  datatype Optional<T> = None | Some(v: T)

  datatype Address = Address(key: ResourceKey, type_: AddressType, brokers: seq<string>)

  datatype Endpoint = Endpoint(key: ResourceKey, active: bool, host: string, ports: seq<Port>)

  /** `broker` is set for a transactional project. */
  datatype Project = Project(key: ResourceKey, broker: Optional<string>)

  datatype Resource = AnAddress(a: Address) | AnEndpoint(e: Endpoint) | AProject(p: Project) | OtherResource(key: ResourceKey)

  function KeyOf(r: Resource): ResourceKey {
    match r
    case AnAddress(a) => a.key
    case AnEndpoint(e) => e.key
    case AProject(p) => p.key
    case OtherResource(key) => key
  }

  function DefaultProject(namespace: string): ResourceKey { ResourceKey("default", namespace) }

  predicate IsActive(e: Endpoint) { e.active && e.host != "" }

  /** A request and its one-slot reply channel, named by a number. */
  datatype Request = Request(id: nat, resource: Resource)

  datatype Reply =
    | Done | InfraFailure | NotInitialized | ProjectNotSynced | NoEndpoints | InactiveEndpoint | UnknownBroker | StillInUse | UnknownType

  const SYNC_BUFFER_SIZE := 100

  const MAX_BATCH_SIZE := 50
}
