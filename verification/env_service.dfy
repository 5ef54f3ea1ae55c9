/** The older, environment-driven service: settings are read from
    environment variables with per-setting fallbacks, the bound address is
    split into the registered host and port, and the heartbeat recomputes
    its check ID from the service's state. */
module EnvService {
  import opened Results
  import opened GoStrings
  import opened GoStrconv
  import opened GoNet
  import opened ConsulApi
  import opened Lifecycle
  import Identifiers
  import Watch
  import Configs

  /** The environment variables the service reads; an unset variable reads
      as the empty string. */
  datatype Env = Env(
    serviceName: string,
    serviceAddress: string,
    servicePort: string,
    serviceTags: string,
    ttlInSeconds: string,
    consulAddress: string,
    consulScheme: string,
    enablePlanWatch: string)

  datatype Service = Service(
    name: string,
    port: int,
    tags: seq<string>,
    listener: Option<string>,
    consulConfig: ConsulApi.Config,
    healthCheckTTL: Duration)

  const DefaultServiceAddress: string := "localhost"
  const DefaultTags: seq<string> := ["go", "service"]
  const MinTTLSeconds: int := 5
  const DefaultTTL: Duration := 8 * Second
  /** The largest whole number of seconds a `time.Duration` can hold. */
  const MaxTTLSeconds: int := MaxInt64 / Second

  /** `getServiceName`: every `' '` removed, then trimmed; a blank result
      falls back to the module's MD5 sum under `.services.local`. By
      `TrimSpaceUnique`, the first two conditions on a non-blank name pin it
      down to `TrimSpace(RemoveChar(raw, ' '))`. */
  function GetServiceName(raw: string, moduleMD5: string): (name: string)
    ensures !AllSpace(RemoveChar(raw, ' ')) ==>
      && StripsTo(RemoveChar(raw, ' '), name) && Trimmed(name)
      && name != [] && ' ' !in name && forall c :: c in name ==> c in raw
    ensures AllSpace(RemoveChar(raw, ' ')) ==> name == moduleMD5 + Configs.FallbackNameSuffix
  {
    var removed := RemoveChar(raw, ' ');
    var stripped := TrimSpace(removed);
    TrimSpaceStrips(removed);
    assert ' ' !in stripped && forall c :: c in stripped ==> c in raw;
    if stripped != "" then stripped else moduleMD5 + Configs.FallbackNameSuffix
  }

  /** A name without any white space is used exactly as given. */
  lemma PlainNameKept(raw: string, moduleMD5: string)
    requires raw != [] && forall i :: 0 <= i < |raw| ==> !IsSpace(raw[i])
    ensures GetServiceName(raw, moduleMD5) == raw
  {
    assert raw[0] != ' ';
    assert ' ' !in raw;
  }

  /** `getServicePort`: the trimmed value if it parses and lies in
      0..65535, otherwise 0 (an ephemeral port). */
  function GetServicePort(raw: string): (port: int)
    ensures 0 <= port <= Configs.MaxPort
    ensures Atoi(TrimSpace(raw)).Success? && 0 <= Atoi(TrimSpace(raw)).value <= Configs.MaxPort
            ==> port == Atoi(TrimSpace(raw)).value
    ensures Atoi(TrimSpace(raw)).Failure? || !(0 <= Atoi(TrimSpace(raw)).value <= Configs.MaxPort)
            ==> port == 0
  {
    match Atoi(TrimSpace(raw))
    case Failure(_) => 0
    case Success(p) => if p < 0 || p > Configs.MaxPort then 0 else p
  }

  /** Every valid port survives being written to the environment. */
  lemma ServicePortRoundTrip(port: int)
    requires 0 <= port <= Configs.MaxPort
    ensures GetServicePort(Itoa(port)) == port
  {
    ItoaTrimmed(port);
    AtoiItoa(port);
    PortOfText(Itoa(port), port);
  }

  /** A port whose trimmed text parses in range is taken as is. */
  lemma PortOfText(raw: string, port: int)
    requires Atoi(TrimSpace(raw)) == Success(port) && 0 <= port <= Configs.MaxPort
    ensures GetServicePort(raw) == port
  {
  }

  /** `getServiceTags`: all `' '` removed, trimmed, and split on commas,
      keeping empty pieces; blank input gives the default tags. */
  function GetServiceTags(raw: string): (tags: seq<string>)
    ensures |tags| >= 1
    ensures forall i :: 0 <= i < |tags| ==> ' ' !in tags[i] && ',' !in tags[i]
    ensures AllSpace(RemoveChar(raw, ' ')) ==> tags == DefaultTags
    ensures !AllSpace(RemoveChar(raw, ' ')) ==> Join(tags, ',') == TrimSpace(RemoveChar(raw, ' '))
  {
    var stripped := TrimSpace(RemoveChar(raw, ' '));
    if stripped != "" then
      JoinSplit(stripped, ',');
      assert ' ' !in stripped;
      SplitAvoids(stripped, ',', ' ');
      Split(stripped, ',')
    else DefaultTags
  }

  /** Tags written to the environment as a comma-separated list read back
      unchanged, empty ones included, as long as no tag holds white space
      or a comma and the list is not blank. */
  lemma TagsRoundTrip(tags: seq<string>)
    requires |tags| >= 1 && Join(tags, ',') != []
    requires forall i, j :: 0 <= i < |tags| && 0 <= j < |tags[i]| ==>
      !IsSpace(tags[i][j]) && tags[i][j] != ','
    ensures GetServiceTags(Join(tags, ',')) == tags
  {
    var j := Join(tags, ',');
    forall c | c in j ensures !IsSpace(c) {
      JoinChars(tags, ',', c);
    }
    assert j[0] in j && j[|j| - 1] in j;
    assert ' ' !in j;
    SplitJoin(tags, ',');
  }

  /** `getHealthCheckTTL` as written: a parsed value of at least five is
      multiplied by one second in 64-bit arithmetic, which wraps around for
      values above `MaxTTLSeconds`; anything else gives eight seconds. */
  function GetHealthCheckTTLAsWritten(raw: string): (ttl: Duration)
    ensures InInt64(ttl)
    ensures Atoi(TrimSpace(raw)).Failure? || Atoi(TrimSpace(raw)).value < MinTTLSeconds
            ==> ttl == DefaultTTL
    ensures Atoi(TrimSpace(raw)).Success? && MinTTLSeconds <= Atoi(TrimSpace(raw)).value <= MaxTTLSeconds
            ==> ttl == Atoi(TrimSpace(raw)).value * Second
  {
    match Atoi(TrimSpace(raw))
    case Success(t) => if t >= MinTTLSeconds then Wrap64(t * Second) else DefaultTTL
    case Failure(_) => DefaultTTL
  }

  /** Every value above `MaxTTLSeconds` passes the five-second check but
      comes out wrapped, never as the requested duration; ten billion
      seconds, for one, becomes a negative duration. */
  lemma TTLWraps(t: int)
    requires MaxTTLSeconds < t <= MaxInt64
    ensures GetHealthCheckTTLAsWritten(Itoa(t)) == Wrap64(t * Second)
    ensures GetHealthCheckTTLAsWritten(Itoa(t)) != t * Second
    ensures t == 10_000_000_000 ==>
      GetHealthCheckTTLAsWritten(Itoa(t)) == -8_446_744_073_709_551_616 < MinTTLSeconds * Second
  {
    assert Atoi(TrimSpace(Itoa(t))) == Success(t) by {
      ItoaTrimmed(t);
      AtoiItoa(t);
    }
    assert t * Second > MaxInt64 by {
      assert t >= MaxTTLSeconds + 1;
    }
    if t == 10_000_000_000 {
      var x := 10_000_000_000_000_000_000;
      assert t * Second == x;
      assert x - MinInt64 == 19_223_372_036_854_775_808;
      assert 19_223_372_036_854_775_808 % TwoTo64 == 776_627_963_145_224_192;
    }
  }

  /** `getHealthCheckTTL` as intended: a parsed value of at least five
      seconds that a `time.Duration` can hold is used; anything else gives
      eight seconds. The result always respects the five-second floor. */
  function GetHealthCheckTTL(raw: string): (ttl: Duration)
    ensures MinTTLSeconds * Second <= ttl <= MaxInt64
    ensures ttl == DefaultTTL || (Atoi(TrimSpace(raw)).Success? && ttl == Atoi(TrimSpace(raw)).value * Second)
    ensures Atoi(TrimSpace(raw)).Success? && MinTTLSeconds <= Atoi(TrimSpace(raw)).value <= MaxTTLSeconds
            ==> ttl == Atoi(TrimSpace(raw)).value * Second
  {
    match Atoi(TrimSpace(raw))
    case Success(t) => if MinTTLSeconds <= t <= MaxTTLSeconds then t * Second else DefaultTTL
    case Failure(_) => DefaultTTL
  }

  /** The correction only changes the inputs whose product wrapped. */
  lemma TTLCorrectionAgrees(raw: string)
    requires Atoi(TrimSpace(raw)).Failure? || Atoi(TrimSpace(raw)).value <= MaxTTLSeconds
    ensures GetHealthCheckTTL(raw) == GetHealthCheckTTLAsWritten(raw)
  {
  }

  /** `createConsulConfig`: the library defaults, with the address and the
      scheme replaced by their trimmed environment values when those are not
      blank. */
  function CreateConsulConfig(env: Env, defaults: ConsulApi.Config): (r: ConsulApi.Config)
    ensures r == defaults.(address := r.address, scheme := r.scheme)
    ensures TrimSpace(env.consulAddress) != "" ==> r.address == TrimSpace(env.consulAddress)
    ensures TrimSpace(env.consulAddress) == "" ==> r.address == defaults.address
    ensures TrimSpace(env.consulScheme) != "" ==> r.scheme == TrimSpace(env.consulScheme)
    ensures TrimSpace(env.consulScheme) == "" ==> r.scheme == defaults.scheme
  {
    var address := TrimSpace(env.consulAddress);
    var scheme := TrimSpace(env.consulScheme);
    defaults.(address := if address != "" then address else defaults.address,
              scheme := if scheme != "" then scheme else defaults.scheme)
  }

  /** `NewService`: gathers the settings; failing to create the Consul
      client is fatal. No listener exists yet. The TTL is the corrected
      one, which agrees with the source's wherever its product does not
      wrap. */
  function NewService(env: Env, moduleMD5: string, defaults: ConsulApi.Config, client: Outcome<string>)
    : (r: Result<Service, Fatal>)
    ensures r.Failure? <==> client.Fail?
    ensures r.Failure? ==> r.error == ClientCreationFailed(client.error)
    ensures r.Success? ==>
      && r.value.listener.None?
      && r.value.port == GetServicePort(env.servicePort)
      && r.value.tags == GetServiceTags(env.serviceTags)
      && 0 <= r.value.port <= Configs.MaxPort
      && r.value.healthCheckTTL == GetHealthCheckTTL(env.ttlInSeconds)
      && r.value.healthCheckTTL >= MinTTLSeconds * Second
      && |r.value.tags| >= 1
      && r.value.name == GetServiceName(env.serviceName, moduleMD5)
      && r.value.consulConfig == CreateConsulConfig(env, defaults)
    ensures r.Success? && (Atoi(TrimSpace(env.ttlInSeconds)).Failure? ||
                           Atoi(TrimSpace(env.ttlInSeconds)).value <= MaxTTLSeconds) ==>
      r.value.healthCheckTTL == GetHealthCheckTTLAsWritten(env.ttlInSeconds)
  {
    match client
    case Fail(e) => Failure(ClientCreationFailed(e))
    case Pass =>
      Success(Service(
        GetServiceName(env.serviceName, moduleMD5),
        GetServicePort(env.servicePort),
        GetServiceTags(env.serviceTags),
        None,
        CreateConsulConfig(env, defaults),
        GetHealthCheckTTL(env.ttlInSeconds)))
  }

  /** The host `Start` listens on: the trimmed `SERVICE_ADDRESS`, or
      `localhost` when that is blank. */
  function ListenHost(env: Env): (host: string)
    ensures host != [] && Trimmed(host)
    ensures AllSpace(env.serviceAddress) ==> host == DefaultServiceAddress
    ensures !AllSpace(env.serviceAddress) ==> StripsTo(env.serviceAddress, host)
  {
    var address := TrimSpace(env.serviceAddress);
    TrimSpaceStrips(env.serviceAddress);
    if address == "" then DefaultServiceAddress else address
  }

  /** The address `Start` listens on: `fmt.Sprintf("%s:%d", host, port)`. */
  function ListenAddress(env: Env, port: int): (addr: string)
    ensures var n := |ListenHost(env)|;
      && |addr| > n + 1
      && addr[..n] == ListenHost(env) && addr[n] == ':' && addr[n + 1..] == Itoa(port)
  {
    var host := ListenHost(env);
    JoinedAround(host, ':', Itoa(port));
    host + ":" + Itoa(port)
  }

  /** For a host without colons or brackets the listen address splits back
      into that host and the port's decimal text. */
  lemma ListenAddressSplits(env: Env, port: int)
    requires ':' !in ListenHost(env) && '[' !in ListenHost(env) && ']' !in ListenHost(env)
    requires port >= 0
    ensures SplitHostPort(ListenAddress(env, port)) == Success(HostPort(ListenHost(env), Itoa(port)))
  {
    var text := Itoa(port);
    assert ':' !in text && '[' !in text && ']' !in text by {
      assert forall i :: 0 <= i < |text| ==> IsDigit(text[i]);
    }
    SplitJoinHostPort(ListenHost(env), text);
  }

  /** `ENABLE_PLAN_WATCH` switches the watch on only when its trimmed value
      is one of the spellings `strconv.ParseBool` reads as true. */
  function WatchEnabled(raw: string): (on: bool)
    ensures on <==> TrueSpelling(TrimSpace(raw))
  {
    ParseBool(TrimSpace(raw)) == Success(true)
  }

  /** `serviceID()`: computed from the service's current name and port. */
  function ServiceID(s: Service): string {
    Identifiers.ServiceID(s.name, s.port)
  }

  /** The check ID the heartbeat computes for itself: the service ID of the
      current name and port, then `_health`. */
  function HeartbeatCheckID(s: Service): (c: string)
    ensures var id := Identifiers.ServiceID(s.name, s.port);
      |c| == |id| + |Identifiers.HealthSuffix|
      && c[..|id|] == id && c[|id|..] == Identifiers.HealthSuffix
  {
    Identifiers.CheckID(ServiceID(s))
  }

  /** The split, parse and ID steps of `registerService`: the bound address
      must split into a non-empty host and port, and the trimmed port must
      parse; the service's port is then overwritten with it before the IDs
      are derived. */
  function Prepare(s: Service, bound: string): (r: Result<(Service, AgentServiceRegistration), Fatal>)
    ensures r.Success? <==>
      && SplitHostPort(bound).Success?
      && SplitHostPort(bound).value.host != ""
      && SplitHostPort(bound).value.port != ""
      && Atoi(TrimSpace(SplitHostPort(bound).value.port)).Success?
    ensures r.Success? ==>
      var (s', reg) := r.value;
      && reg.address == SplitHostPort(bound).value.host
      && reg.port == Atoi(TrimSpace(SplitHostPort(bound).value.port)).value
      && s' == s.(port := reg.port)
      && reg.id == ServiceID(s')
      && reg.check.checkID == HeartbeatCheckID(s')
      && reg.name == s.name && reg.tags == s.tags
      && reg.check.ttl == s.healthCheckTTL && reg.check.deregisterCriticalServiceAfter == reg.check.ttl
      && reg.check.failuresBeforeCritical == 3 && reg.check.tlsSkipVerify
  {
    match SplitHostPort(bound)
    case Failure(_) => Failure(AddressUnresolved)
    case Success(hp) =>
      if hp.host == "" || hp.port == "" then Failure(AddressUnresolved)
      else
        match Atoi(TrimSpace(hp.port))
        case Failure(_) => Failure(PortUnparsable(hp.port))
        case Success(port) =>
          var s' := s.(port := port);
          var id := ServiceID(s');
          Success((s', AgentServiceRegistration(id, s.name, s.tags, hp.host, port,
            AgentServiceCheck(Identifiers.CheckID(id), s.healthCheckTTL, s.healthCheckTTL, 3, true))))
  }

  /** The calls `registerService` makes once the record `reg` for the
      updated service `s'` is built: launch the watch if `watch` (the
      parsed `ENABLE_PLAN_WATCH`) is set, register (an error is fatal), and only then start the
      heartbeat, whose check ID is recomputed from `s'`. */
  function Announce(s': Service, reg: AgentServiceRegistration, watch: bool, register: Outcome<string>)
    : (r: Run<Service>)
    ensures LaunchesWatch(r.effects) <==> watch
    ensures LaunchesWatch(r.effects) ==> r.effects[0] == WatchLaunched(Watch.ServicePlan(s'.name), reg.id)
    ensures RegisterCalled(reg) in r.effects
    ensures forall e :: e in r.effects && e.RegisterCalled? ==> e.registration == reg
    ensures register.Fail? ==> r.result == Failure(RegisterFailed(register.error)) && !StartsHeartbeat(r.effects)
    ensures register.Pass? ==> r.result == Success(s')
    ensures r.result.Success? ==> r.result.value == s' && r.effects[|r.effects| - 1] == HeartbeatStarted(HeartbeatCheckID(s'))
    ensures StartsHeartbeat(r.effects) <==> r.result.Success?
    ensures WellOrdered(r.effects)
  {
    var plan := if watch then Some(Watch.ServicePlan(s'.name)) else None;
    match register
    case Fail(e) => Run(Failure(RegisterFailed(e)), BringUp(plan, reg, None))
    case Pass => Run(Success(s'), BringUp(plan, reg, Some(HeartbeatCheckID(s'))))
  }

  /** `registerService` on the listener's address `bound`: a record that
      cannot be prepared is fatal before any call is made; otherwise the
      calls of `Announce` follow, and a started heartbeat uses the check ID
      that was registered. */
  function RegisterService(s: Service, bound: string, watchFlag: string, register: Outcome<string>)
    : (r: Run<Service>)
    ensures Prepare(s, bound).Failure? ==> r == Run(Failure(Prepare(s, bound).error), [])
    ensures Prepare(s, bound).Success? ==>
      r == Announce(Prepare(s, bound).value.0, Prepare(s, bound).value.1, WatchEnabled(watchFlag), register)
    ensures r.result.Success? ==>
      r.effects[|r.effects| - 1] == HeartbeatStarted(Prepare(s, bound).value.1.check.checkID)
  {
    match Prepare(s, bound)
    case Failure(f) => Run(Failure(f), [])
    case Success((s', reg)) => Announce(s', reg, WatchEnabled(watchFlag), register)
  }

  /** `Start` up to the accept loop: listen on the configured host and port
      (failure is fatal), remember the listener, and register. `listen` is
      `net.Listen`, giving the bound address or the error. */
  function Start(s: Service, env: Env, listen: string -> Result<string, string>, register: Outcome<string>)
    : (r: Run<Service>)
    ensures listen(ListenAddress(env, s.port)).Failure? ==>
      r == Run(Failure(ListenFailed(listen(ListenAddress(env, s.port)).error)), [])
    ensures listen(ListenAddress(env, s.port)).Success? ==>
      var bound := listen(ListenAddress(env, s.port)).value;
      r == RegisterService(s.(listener := Some(bound)), bound, env.enablePlanWatch, register)
    ensures r.result.Success? ==> r.result.value.listener.Some?
  {
    match listen(ListenAddress(env, s.port))
    case Failure(e) => Run(Failure(ListenFailed(e)), [])
    case Success(bound) => RegisterService(s.(listener := Some(bound)), bound, env.enablePlanWatch, register)
  }

  /** After a successful start the heartbeat, which recomputes its check ID
      from the service, uses exactly the check ID that was registered. */
  lemma HeartbeatMatchesRegistration(
    s: Service, env: Env, listen: string -> Result<string, string>, register: Outcome<string>)
    requires Start(s, env, listen, register).result.Success?
    ensures var r := Start(s, env, listen, register);
      forall e :: e in r.effects && e.RegisterCalled? ==>
        e.registration.check.checkID == HeartbeatCheckID(r.result.value)
        && e.registration.port == r.result.value.port
  {
    var bound := listen(ListenAddress(env, s.port)).value;
    var s1 := s.(listener := Some(bound));
    var p := Prepare(s1, bound);
    assert p.Success?;
    var r := Announce(p.value.0, p.value.1, WatchEnabled(env.enablePlanWatch), register);
    assert r.result.value == p.value.0;
  }

  /** `updateHealthCheck`, observed over the replies of a finite run of
      ticks: every update names the check ID recomputed from the service; a
      TTL under two nanoseconds makes the ticker panic first. */
  method UpdateHealthCheck(s: Service, replies: seq<Outcome<string>>)
    returns (calls: seq<string>, stop: Option<Fatal>)
    ensures forall i :: 0 <= i < |calls| ==> calls[i] == HeartbeatCheckID(s)
    ensures s.healthCheckTTL < 2 ==> calls == [] && stop == Some(TickerPanicked)
    ensures s.healthCheckTTL >= 2 ==>
      (stop.None? <==> forall i :: 0 <= i < |replies| ==> replies[i].Pass?)
  {
    calls, stop := Heartbeat(HeartbeatCheckID(s), s.healthCheckTTL, replies);
  }

  /** The plan-watch handler bound to this instance's service ID. */
  function PlanWatchHandler(serviceID: string, result: WatchResult): (r: Option<AgentService>)
    ensures r.Some? <==>
      result.ServiceEntries? && |result.entries| > 0
      && result.entries[|result.entries| - 1].service.id != serviceID
    ensures r.Some? ==> r.value == result.entries[|result.entries| - 1].service
  {
    Watch.Joined(result, serviceID)
  }
}
