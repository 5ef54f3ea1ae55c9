/** The newer, configuration-driven service: it binds its listener, reads the
    bound port back strictly, registers through `Discovery`, and serves only
    once a listener exists. */
module ConfigService {
  import opened Results
  import opened GoStrings
  import opened GoStrconv
  import opened GoNet
  import opened ConsulApi
  import opened Lifecycle
  import opened Configs
  import Identifiers
  import Discovery

  datatype Service = Service(
    listener: Option<string>,
    config: ServiceConfig,
    discovery: Discovery.ServiceDiscovery)

  /** `NewService`: load the configuration and create the discovery client;
      no listener exists yet. */
  function NewService(
    processed: Result<Environment, string>,
    moduleMD5: string,
    defaults: ConsulApi.Config,
    client: Outcome<string>): (r: Result<Service, Fatal>)
    ensures processed.Failure? ==> r == Failure(ConfigLoadFailed(processed.error))
    ensures processed.Success? && client.Fail? ==> r == Failure(ClientCreationFailed(client.error))
    ensures r.Success? <==> processed.Success? && client.Pass?
    ensures r.Success? ==>
      && r.value.listener.None?
      && r.value.config == LoadConfigs(processed, moduleMD5).value.0
      && r.value.discovery ==
         Discovery.NewServiceDiscovery(LoadConfigs(processed, moduleMD5).value.1, defaults, client).value
  {
    var (service, consul) :- LoadConfigs(processed, moduleMD5);
    var discovery :- Discovery.NewServiceDiscovery(consul, defaults, client);
    Success(Service(None, service, discovery))
  }

  /** The address handed to `net.Listen`: `fmt.Sprintf("%s:%d", ...)`. */
  function ListenAddress(cfg: ServiceConfig): (addr: string)
    ensures var n := |cfg.address|;
      && |addr| > n + 1
      && addr[..n] == cfg.address && addr[n] == ':' && addr[n + 1..] == Itoa(cfg.port)
  {
    JoinedAround(cfg.address, ':', Itoa(cfg.port));
    cfg.address + ":" + Itoa(cfg.port)
  }

  /** The port read back from the listener's address. The split must succeed
      and leave a non-blank port, and the port text must be the exact
      spelling `Itoa` gives the number it parses to. */
  function BoundPort(bound: string): (r: Result<int, Fatal>)
    ensures r.Success? <==>
      && SplitHostPort(bound).Success?
      && Canonical(TrimSpace(SplitHostPort(bound).value.port))
      && Atoi(TrimSpace(SplitHostPort(bound).value.port)).Success?
    ensures r.Success? ==> Itoa(r.value) == TrimSpace(SplitHostPort(bound).value.port)
    ensures r.Success? ==> InInt64(r.value)
  {
    match SplitHostPort(bound)
    case Failure(_) => Failure(AddressUnresolved)
    case Success(hp) =>
      var text := TrimSpace(hp.port);
      StrictRoundTrip(text);
      if text == "" then Failure(AddressUnresolved)
      else
        match Atoi(text)
        case Failure(_) => Failure(PortUnparsable(hp.port))
        case Success(p) => if Itoa(p) != text then Failure(PortUnparsable(hp.port)) else Success(p)
  }

  /** A listener address written by `net.JoinHostPort` with a non-negative
      port reads back as that port. */
  lemma BoundPortOfJoined(host: string, port: int)
    requires '[' !in host && ']' !in host
    requires 0 <= port <= MaxInt64
    ensures BoundPort(JoinHostPort(host, Itoa(port))) == Success(port)
  {
    var text := Itoa(port);
    assert ':' !in text && '[' !in text && ']' !in text by {
      assert forall i :: 0 <= i < |text| ==> IsDigit(text[i]);
    }
    SplitJoinHostPort(host, text);
    ItoaTrimmed(port);
    AtoiItoa(port);
    BoundPortOfText(JoinHostPort(host, text), host, text, port);
  }

  /** An address that splits into canonical, trimmed port text is accepted
      with the port that text spells. */
  lemma BoundPortOfText(bound: string, host: string, text: string, port: int)
    requires SplitHostPort(bound) == Success(HostPort(host, text))
    requires TrimSpace(text) == text && Atoi(text) == Success(port) && Itoa(port) == text
    ensures BoundPort(bound) == Success(port)
  {
    var hp := SplitHostPort(bound).value;
    assert hp.port == text;
    assert TrimSpace(hp.port) == text;
    StrictRoundTrip(text);
    assert Canonical(text);
  }

  /** Port text with a superfluous leading zero or an explicit `+` is
      rejected, even though `Atoi` alone would accept it. */
  lemma NonCanonicalPortRejected(bound: string)
    requires SplitHostPort(bound).Success?
    requires var t := TrimSpace(SplitHostPort(bound).value.port);
      |t| > 1 && (t[0] == '0' || t[0] == '+')
    ensures BoundPort(bound).Failure?
  {
  }

  /** The service ID: `strings.TrimSpace` of the dashed name, a `-` and the
      bound port. */
  function ServiceIDOf(cfg: ServiceConfig): (id: string)
    ensures '.' !in id && Trimmed(id)
    ensures id == TrimLeft(Identifiers.ServiceID(cfg.name, cfg.port))
  {
    var raw := Identifiers.ServiceID(cfg.name, cfg.port);
    EndsInDigit(cfg.name, cfg.port);
    var l := TrimLeft(raw);
    assert l != [] && l[|l| - 1] == raw[|raw| - 1] by {
      TrimLeftSpaces(raw);
    }
    TrimSpace(raw)
  }

  /** A service ID ends in the last digit of the port. */
  lemma EndsInDigit(name: string, port: int)
    ensures var id := Identifiers.ServiceID(name, port);
      IsDigit(id[|id| - 1]) && !IsSpace(id[|id| - 1])
  {
    var id := Identifiers.ServiceID(name, port);
    var digits := Itoa(port);
    assert id[|id| - 1] == digits[|digits| - 1];
  }

  /** The trim only matters for a name that starts with white space;
      otherwise the ID is exactly the one the older implementation builds. */
  lemma ServiceIDUntrimmedUnlessLeadingSpace(cfg: ServiceConfig)
    requires cfg.name == [] || !IsSpace(cfg.name[0])
    ensures ServiceIDOf(cfg) == Identifiers.ServiceID(cfg.name, cfg.port)
  {
    var id := Identifiers.ServiceID(cfg.name, cfg.port);
    var digits := Itoa(cfg.port);
    assert id[|id| - 1] == digits[|digits| - 1];
    assert !IsSpace(id[0]);
    assert !IsSpace(id[|id| - 1]);
  }

  /** The registration record: name, tags and address straight from the
      configuration, the configured (bound) port, the derived IDs, and a TTL
      check whose deregister timeout equals its TTL. */
  function RegistrationFor(cfg: ServiceConfig, ttl: Duration): (reg: AgentServiceRegistration)
    ensures reg.id == ServiceIDOf(cfg)
    ensures reg.check.checkID == Identifiers.CheckID(reg.id)
    ensures reg.name == cfg.name && reg.tags == cfg.tags && reg.address == cfg.address
    ensures reg.port == cfg.port
    ensures reg.check.ttl == ttl && reg.check.deregisterCriticalServiceAfter == reg.check.ttl
    ensures reg.check.failuresBeforeCritical == 3 && reg.check.tlsSkipVerify
  {
    var id := ServiceIDOf(cfg);
    AgentServiceRegistration(id, cfg.name, cfg.tags, cfg.address, cfg.port,
      AgentServiceCheck(Identifiers.CheckID(id), ttl, ttl, 3, true))
  }

  /** The part of `RegisterService` after the bind: read the bound port back
      from the listener's address `bound`, overwrite the configured port with
      it, and register. Every failure is fatal. */
  function RegisterBound(
    s: Service,
    bound: string,
    parse: Outcome<string>,
    register: Outcome<string>): (r: Run<Service>)
    ensures BoundPort(bound).Failure? ==> r == Run(Failure(BoundPort(bound).error), [])
    ensures BoundPort(bound).Success? ==>
      var cfg := s.config.(port := BoundPort(bound).value);
      r.effects == Discovery.RegisterService(
        s.discovery, RegistrationFor(cfg, s.discovery.healthCheckTTL), parse, register).effects
      && (r.result.Success? ==> r.result.value.config == cfg)
    ensures r.result.Success? ==>
      && r.result.value.listener == Some(bound)
      && r.result.value.config == s.config.(port := r.result.value.config.port)
      && r.result.value.discovery == s.discovery
    ensures register.Fail? ==> r.result.Failure? && !StartsHeartbeat(r.effects)
    ensures StartsHeartbeat(r.effects) ==> r.result.Success?
    ensures BoundPort(bound).Success? ==>
      (r.result.Success? <==> register.Pass? && !(s.discovery.isPlanWatchEnabled && parse.Fail?))
    ensures BoundPort(bound).Success? && s.discovery.isPlanWatchEnabled && parse.Fail? ==>
      r.result == Failure(WatchParseFailed(parse.error))
    ensures BoundPort(bound).Success? && !(s.discovery.isPlanWatchEnabled && parse.Fail?) && register.Fail? ==>
      r.result == Failure(RegisterFailed(register.error))
    ensures WellOrdered(r.effects)
  {
    match BoundPort(bound)
    case Failure(f) => Run(Failure(f), [])
    case Success(port) =>
      var cfg := s.config.(port := port);
      var reg := RegistrationFor(cfg, s.discovery.healthCheckTTL);
      var run := Discovery.RegisterService(s.discovery, reg, parse, register);
      if run.result.Failure? then Run(Failure(run.result.error), run.effects)
      else if run.result.value.Rejected? then Run(Failure(RegisterFailed(run.result.value.reason)), run.effects)
      else Run(Success(Service(Some(bound), cfg, s.discovery)), run.effects)
  }

  /** Every register call `RegisterBound` makes sends the record built from
      the configuration with its port replaced by the bound port; after a
      successful registration the heartbeat runs on that record's check ID. */
  lemma RegisterBoundRecord(s: Service, bound: string, parse: Outcome<string>, register: Outcome<string>)
    ensures var r := RegisterBound(s, bound, parse, register);
      forall e :: e in r.effects && e.RegisterCalled? ==>
        && BoundPort(bound) == Success(e.registration.port)
        && e.registration == RegistrationFor(s.config.(port := e.registration.port), s.discovery.healthCheckTTL)
    ensures var r := RegisterBound(s, bound, parse, register);
      r.result.Success? ==>
        && RegisterCalled(RegistrationFor(r.result.value.config, s.discovery.healthCheckTTL)) in r.effects
        && r.effects[|r.effects| - 1] == HeartbeatStarted(Identifiers.CheckID(ServiceIDOf(r.result.value.config)))
  {
    if BoundPort(bound).Success? {
      var cfg := s.config.(port := BoundPort(bound).value);
      var reg := RegistrationFor(cfg, s.discovery.healthCheckTTL);
      var run := Discovery.RegisterService(s.discovery, reg, parse, register);
      var r := RegisterBound(s, bound, parse, register);
      assert r.effects == run.effects;
      forall e | e in r.effects && e.RegisterCalled?
        ensures BoundPort(bound) == Success(e.registration.port)
        ensures e.registration == RegistrationFor(s.config.(port := e.registration.port), s.discovery.healthCheckTTL)
      {
        assert e.registration == reg;
      }
      if r.result.Success? {
        assert run.result == Success(Discovery.Registered);
        assert r.result.value.config == cfg;
      }
    } else {
      assert RegisterBound(s, bound, parse, register).effects == [];
    }
  }

  /** `RegisterService`: bind the configured address and port, then carry on
      as `RegisterBound` on the bound address. `listen` is `net.Listen`,
      giving the bound address or the error. */
  function RegisterService(
    s: Service,
    listen: string -> Result<string, string>,
    parse: Outcome<string>,
    register: Outcome<string>): (r: Run<Service>)
    ensures listen(ListenAddress(s.config)).Failure? ==>
      r == Run(Failure(ListenFailed(listen(ListenAddress(s.config)).error)), [])
    ensures listen(ListenAddress(s.config)).Success? ==>
      r == RegisterBound(s, listen(ListenAddress(s.config)).value, parse, register)
  {
    match listen(ListenAddress(s.config))
    case Failure(e) => Run(Failure(ListenFailed(e)), [])
    case Success(bound) => RegisterBound(s, bound, parse, register)
  }

  /** `Start`: serving without a listener is fatal. */
  function Start(s: Service): (r: Outcome<Fatal>)
    ensures r.Fail? <==> s.listener.None?
    ensures r.Fail? ==> r.error == NoListener
  {
    if s.listener.None? then Fail(NoListener) else Pass
  }

  /** A freshly created service cannot start; one that registered can. */
  lemma StartNeedsRegistration(
    processed: Result<Environment, string>, moduleMD5: string, defaults: ConsulApi.Config,
    client: Outcome<string>, listen: string -> Result<string, string>,
    parse: Outcome<string>, register: Outcome<string>)
    requires NewService(processed, moduleMD5, defaults, client).Success?
    ensures Start(NewService(processed, moduleMD5, defaults, client).value) == Fail(NoListener)
    ensures var s := NewService(processed, moduleMD5, defaults, client).value;
      RegisterService(s, listen, parse, register).result.Success? ==>
      Start(RegisterService(s, listen, parse, register).result.value) == Pass
  {
    var s := NewService(processed, moduleMD5, defaults, client).value;
    var b := listen(ListenAddress(s.config));
    if b.Success? {
      var r := RegisterBound(s, b.value, parse, register);
    }
  }
}
