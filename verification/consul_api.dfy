/** The Consul client library's data, as plain values. Only the fields the
    registration code reads or writes are kept. */
module ConsulApi {

  /** `time.Duration`: a signed count of nanoseconds. */
  type Duration = int

  const Second: Duration := 1_000_000_000

  /** `api.Config`. `datacenter`, `token` and `namespace` stand for the
      fields the registration code never touches. */
  datatype Config = Config(
    address: string,
    scheme: string,
    datacenter: string,
    token: string,
    namespace: string)

  /** `api.AgentServiceCheck`, the TTL health check sent with a
      registration. Both durations travel as `Duration.String()` text. */
  datatype AgentServiceCheck = AgentServiceCheck(
    checkID: string,
    ttl: Duration,
    deregisterCriticalServiceAfter: Duration,
    failuresBeforeCritical: int,
    tlsSkipVerify: bool)

  /** `api.AgentServiceRegistration`. */
  datatype AgentServiceRegistration = AgentServiceRegistration(
    id: string,
    name: string,
    tags: seq<string>,
    address: string,
    port: int,
    check: AgentServiceCheck)

  /** `api.AgentService`, one live instance as the catalog reports it. */
  datatype AgentService = AgentService(
    id: string,
    service: string,
    address: string,
    port: int,
    tags: seq<string>)

  /** `api.ServiceEntry`. */
  datatype ServiceEntry = ServiceEntry(service: AgentService)

  /** The untyped value a watch plan hands its handler: either the slice of
      service entries of a `service` watch, or something else. */
  datatype WatchResult = ServiceEntries(entries: seq<ServiceEntry>) | OtherResult

  /** The parameters given to `watch.Parse`. */
  datatype WatchParams = WatchParams(kind: string, service: string, passingOnly: bool)
}
