/** The Consul side of the newer implementation: client configuration, the
    register call with its optional watch, and the heartbeat it starts. */
module Discovery {
  import opened Results
  import opened GoStrings
  import opened ConsulApi
  import opened Lifecycle
  import opened Configs
  import Watch

  datatype ServiceDiscovery = ServiceDiscovery(
    healthCheckTTL: Duration,
    isPlanWatchEnabled: bool,
    config: ConsulApi.Config)

  /** What `RegisterService` hands back when it does not abort: success, or
      the register call's error. */
  datatype Reply = Registered | Rejected(reason: string)

  /** `createConsulConfig`: the client library's defaults, with the address
      and the scheme overridden only where the configuration asks for
      something different. */
  function CreateConsulConfig(cfg: DiscoveryConfig, defaults: ConsulApi.Config): (r: ConsulApi.Config)
    ensures r == defaults.(address := r.address, scheme := r.scheme)
    ensures cfg.address != "" && cfg.address != TrimSpace(ToLower(defaults.address))
            ==> r.address == cfg.address
    ensures cfg.address == "" || cfg.address == TrimSpace(ToLower(defaults.address))
            ==> r.address == defaults.address
    ensures cfg.scheme != "" && ToLower(cfg.scheme) != ToLower(defaults.scheme)
            ==> r.scheme == cfg.scheme
    ensures cfg.scheme == "" || ToLower(cfg.scheme) == ToLower(defaults.scheme)
            ==> r.scheme == defaults.scheme
  {
    var withAddress :=
      if cfg.address != "" && cfg.address != TrimSpace(ToLower(defaults.address))
      then defaults.(address := cfg.address)
      else defaults;
    if cfg.scheme != "" && ToLower(cfg.scheme) != ToLower(defaults.scheme)
    then withAddress.(scheme := cfg.scheme)
    else withAddress
  }

  /** The resulting address is always one of the two candidates, and the
      same holds for the scheme. */
  lemma ConsulConfigChoosesCandidates(cfg: DiscoveryConfig, defaults: ConsulApi.Config)
    ensures CreateConsulConfig(cfg, defaults).address in {cfg.address, defaults.address}
    ensures CreateConsulConfig(cfg, defaults).scheme in {cfg.scheme, defaults.scheme}
  {
  }

  /** A scheme spelled like the default's up to letter case acts as if no
      scheme were configured: the default's spelling is kept. */
  lemma SchemeCaseIgnored(cfg: DiscoveryConfig, defaults: ConsulApi.Config)
    requires ToLower(cfg.scheme) == ToLower(defaults.scheme)
    ensures CreateConsulConfig(cfg, defaults) == CreateConsulConfig(cfg.(scheme := ""), defaults)
    ensures CreateConsulConfig(cfg, defaults).scheme == defaults.scheme
  {
  }

  /** `NewServiceDiscovery`: failing to create the client is fatal. */
  function NewServiceDiscovery(cfg: DiscoveryConfig, defaults: ConsulApi.Config, client: Outcome<string>)
    : (r: Result<ServiceDiscovery, Fatal>)
    ensures r.Failure? <==> client.Fail?
    ensures r.Failure? ==> r.error == ClientCreationFailed(client.error)
    ensures r.Success? ==>
      && r.value.healthCheckTTL == cfg.healthCheckTTL
      && r.value.isPlanWatchEnabled == cfg.enablePlanWatch
      && r.value.config == CreateConsulConfig(cfg, defaults)
  {
    match client
    case Fail(e) => Failure(ClientCreationFailed(e))
    case Pass => Success(ServiceDiscovery(cfg.healthCheckTTL, cfg.enablePlanWatch, CreateConsulConfig(cfg, defaults)))
  }

  /** The watch handler: reports the last entry of a snapshot as joined
      when it is not this instance. */
  function HybridHandler(service: AgentServiceRegistration, result: WatchResult): (r: Option<AgentService>)
    ensures r.Some? <==>
      result.ServiceEntries? && |result.entries| > 0
      && result.entries[|result.entries| - 1].service.id != service.id
    ensures r.Some? ==> r.value == result.entries[|result.entries| - 1].service
  {
    Watch.Joined(result, service.id)
  }

  /** `RegisterService`. When the watch is enabled it is parsed (a parse
      error is fatal) and launched before anything else; then the service is
      registered; the register call's error is returned, and only after a
      successful register is the heartbeat started, on the check's ID.
      `parse` and `register` are the replies of `watch.Parse` and of the
      agent's register call. */
  function RegisterService(
    d: ServiceDiscovery,
    service: AgentServiceRegistration,
    parse: Outcome<string>,
    register: Outcome<string>): (r: Run<Reply>)
    ensures r.result.Failure? <==> d.isPlanWatchEnabled && parse.Fail?
    ensures r.result.Failure? ==> r.result.error == WatchParseFailed(parse.error) && r.effects == []
    ensures LaunchesWatch(r.effects) <==> d.isPlanWatchEnabled && parse.Pass?
    ensures LaunchesWatch(r.effects) ==> r.effects[0] == WatchLaunched(Watch.ServicePlan(service.name), service.id)
    ensures r.result.Success? ==> RegisterCalled(service) in r.effects
    ensures forall e :: e in r.effects && e.RegisterCalled? ==> e.registration == service
    ensures r.result.Success? && register.Fail? ==> r.result.value == Rejected(register.error)
    ensures !(d.isPlanWatchEnabled && parse.Fail?) && register.Pass? ==> r.result == Success(Registered)
    ensures StartsHeartbeat(r.effects) <==> r.result == Success(Registered)
    ensures r.result == Success(Registered) ==>
      r.effects[|r.effects| - 1] == HeartbeatStarted(service.check.checkID)
    ensures WellOrdered(r.effects)
  {
    if d.isPlanWatchEnabled && parse.Fail? then
      Run(Failure(WatchParseFailed(parse.error)), [])
    else
      var plan := if d.isPlanWatchEnabled then Some(Watch.ServicePlan(service.name)) else None;
      match register
      case Fail(e) => Run(Success(Rejected(e)), BringUp(plan, service, None))
      case Pass => Run(Success(Registered), BringUp(plan, service, Some(service.check.checkID)))
  }
}
