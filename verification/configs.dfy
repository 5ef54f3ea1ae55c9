/** Configuration loading of the newer implementation: the struct-tag
    defaults and the normalisation applied after the environment is read. */
module Configs {
  import opened Results
  import opened GoStrings
  import opened ConsulApi
  import opened Lifecycle

  datatype ServiceConfig = ServiceConfig(name: string, address: string, port: int, tags: seq<string>)

  datatype DiscoveryConfig = DiscoveryConfig(
    address: string,
    scheme: string,
    healthCheckTTL: Duration,
    enablePlanWatch: bool)

  /** The environment after `envconfig` has parsed it: each variable is
      absent, or present with its parsed value. */
  datatype Environment = Environment(
    serviceName: Option<string>,
    serviceAddress: Option<string>,
    servicePort: Option<int>,
    serviceTags: Option<seq<string>>,
    consulAddress: Option<string>,
    consulScheme: Option<string>,
    consulHealthCheckTTL: Option<Duration>,
    consulEnablePlanWatch: Option<bool>,
    debug: Option<bool>)

  const DefaultServiceConfig: ServiceConfig := ServiceConfig("", "localhost", 0, ["go", "service"])
  const DefaultDiscoveryConfig: DiscoveryConfig := DiscoveryConfig("127.0.0.1:8500", "http", 10 * Second, false)

  /** The range of TCP ports. */
  const MinPort: int := 0
  const MaxPort: int := 65535

  /** The domain under which a service without a name is registered. */
  const FallbackNameSuffix: string := ".services.local"

  predicate InPortRange(port: int) {
    MinPort <= port <= MaxPort
  }

  function OrElse<T>(o: Option<T>, default: T): T {
    match o
    case Some(v) => v
    case None => default
  }

  /** What `envconfig.Process` fills in: every absent variable takes the
      default declared in its struct tag, every present one its value. */
  function ApplyDefaults(env: Environment): (r: (ServiceConfig, DiscoveryConfig))
    ensures env.serviceName.None? ==> r.0.name == ""
    ensures env.serviceAddress.None? ==> r.0.address == "localhost"
    ensures env.servicePort.None? ==> r.0.port == 0
    ensures env.serviceTags.None? ==> r.0.tags == ["go", "service"]
    ensures env.consulAddress.None? ==> r.1.address == "127.0.0.1:8500"
    ensures env.consulScheme.None? ==> r.1.scheme == "http"
    ensures env.consulHealthCheckTTL.None? ==> r.1.healthCheckTTL == 10 * Second
    ensures env.consulEnablePlanWatch.None? ==> !r.1.enablePlanWatch
    ensures env.serviceName.Some? ==> r.0.name == env.serviceName.value
    ensures env.serviceAddress.Some? ==> r.0.address == env.serviceAddress.value
    ensures env.servicePort.Some? ==> r.0.port == env.servicePort.value
    ensures env.serviceTags.Some? ==> r.0.tags == env.serviceTags.value
    ensures env.consulAddress.Some? ==> r.1.address == env.consulAddress.value
    ensures env.consulScheme.Some? ==> r.1.scheme == env.consulScheme.value
    ensures env.consulHealthCheckTTL.Some? ==> r.1.healthCheckTTL == env.consulHealthCheckTTL.value
    ensures env.consulEnablePlanWatch.Some? ==> r.1.enablePlanWatch == env.consulEnablePlanWatch.value
  {
    var s := DefaultServiceConfig;
    var d := DefaultDiscoveryConfig;
    (ServiceConfig(
       OrElse(env.serviceName, s.name),
       OrElse(env.serviceAddress, s.address),
       OrElse(env.servicePort, s.port),
       OrElse(env.serviceTags, s.tags)),
     DiscoveryConfig(
       OrElse(env.consulAddress, d.address),
       OrElse(env.consulScheme, d.scheme),
       OrElse(env.consulHealthCheckTTL, d.healthCheckTTL),
       OrElse(env.consulEnablePlanWatch, d.enablePlanWatch)))
  }

  /** The name used when none is configured: the hex MD5 sum of the module
      name under `.services.local`, lower-cased and trimmed. Only leading
      white space of the sum can be cut, since the suffix closes the name. */
  function FallbackName(moduleMD5: string): (name: string)
    ensures name != [] && Trimmed(name) && Lowered(name)
    ensures name == ToLower(TrimLeft(moduleMD5)) + FallbackNameSuffix
  {
    var suffix := FallbackNameSuffix;
    assert Lowered(suffix) && !IsSpace(suffix[0]) && !IsSpace(suffix[|suffix| - 1]);
    LowerBeforeLowered(moduleMD5, suffix);
    TrimSpaceBeforeSuffix(ToLower(moduleMD5), suffix);
    TrimLeftLower(moduleMD5);
    TrimSpace(ToLower(moduleMD5 + suffix))
  }

  /** The post-load normalisation of the service section. */
  function NormalizeService(s: ServiceConfig, moduleMD5: string): (r: ServiceConfig)
    ensures AllSpace(s.name) ==> r.name == FallbackName(moduleMD5)
    ensures !AllSpace(s.name) ==> r.name == s.name
    ensures !AllSpace(r.name)
    ensures r.address == ToLower(TrimSpace(s.address))
    ensures Trimmed(r.address) && Lowered(r.address)
    ensures InPortRange(r.port)
    ensures InPortRange(s.port) ==> r.port == s.port
    ensures !InPortRange(s.port) ==> r.port == 0
    ensures r.tags == s.tags
  {
    var name := if TrimSpace(s.name) == "" then FallbackName(moduleMD5) else s.name;
    var port := if s.port < MinPort || s.port > MaxPort then 0 else s.port;
    TrimLowerCommute(s.address);
    ServiceConfig(name, TrimSpace(ToLower(s.address)), port, s.tags)
  }

  /** The post-load normalisation of the Consul section: the address is
      trimmed and lower-cased, the scheme only trimmed. */
  function NormalizeDiscovery(d: DiscoveryConfig): (r: DiscoveryConfig)
    ensures r.address == ToLower(TrimSpace(d.address))
    ensures Trimmed(r.address) && Lowered(r.address)
    ensures r.scheme == TrimSpace(d.scheme)
    ensures r.healthCheckTTL == d.healthCheckTTL
    ensures r.enablePlanWatch == d.enablePlanWatch
  {
    TrimLowerCommute(d.address);
    DiscoveryConfig(TrimSpace(ToLower(d.address)), TrimSpace(d.scheme), d.healthCheckTTL, d.enablePlanWatch)
  }

  /** `LoadConfigs`: a failure to process the environment is fatal; otherwise
      the defaulted configuration is normalised. */
  function LoadConfigs(processed: Result<Environment, string>, moduleMD5: string)
    : (r: Result<(ServiceConfig, DiscoveryConfig), Fatal>)
    ensures processed.Failure? <==> r.Failure?
    ensures processed.Failure? ==> r.error == ConfigLoadFailed(processed.error)
    ensures processed.Success? ==>
      var (s, d) := ApplyDefaults(processed.value);
      r.value == (NormalizeService(s, moduleMD5), NormalizeDiscovery(d))
  {
    match processed
    case Failure(e) => Failure(ConfigLoadFailed(e))
    case Success(env) =>
      var (s, d) := ApplyDefaults(env);
      Success((NormalizeService(s, moduleMD5), NormalizeDiscovery(d)))
  }

  /** Normalising an already normalised service section changes nothing. */
  lemma NormalizeServiceIdempotent(s: ServiceConfig, moduleMD5: string)
    ensures NormalizeService(NormalizeService(s, moduleMD5), moduleMD5) == NormalizeService(s, moduleMD5)
  {
    var r := NormalizeService(s, moduleMD5);
    LoweredIsFixed(r.address);
    assert TrimSpace(ToLower(r.address)) == r.address;
  }

  /** Normalising an already normalised Consul section changes nothing. */
  lemma NormalizeDiscoveryIdempotent(d: DiscoveryConfig)
    ensures NormalizeDiscovery(NormalizeDiscovery(d)) == NormalizeDiscovery(d)
  {
    var r := NormalizeDiscovery(d);
    assert TrimSpace(ToLower(r.address)) == r.address by {
      LoweredIsFixed(r.address);
    }
    assert TrimSpace(r.scheme) == r.scheme by {
      TrimSpaceIdempotent(d.scheme);
    }
  }
}
