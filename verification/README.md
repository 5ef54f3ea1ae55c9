# dbmservice in Dafny

This project models dbmservice, a small Go library. It brings up an HTTP
service and registers it with a Consul agent. The library contains two
implementations of the same bring-up, and both are modelled here.

- **The older, environment-driven service** (`dbmservice.go`, module
  `EnvService`). Each setting is read from an environment variable, and each
  has its own fallback.
  - The name is stripped of spaces, with a fallback under `.services.local`.
  - The port is coerced into 0..65535.
  - The tags are split on commas, with the defaults `go`, `service`.
  - The TTL has a five-second floor and an eight-second default.
  - The Consul address and scheme are overridden when set.
  - `registerService` splits the listener's bound address into the host and
    port it registers, parses the port, and overwrites the service's port
    with it. It then derives the service ID and the check ID. It optionally
    launches the membership watch, registers, and starts the heartbeat.
- **The newer, configuration-driven service**:
  - `configs/config.go` (module `Configs`): the struct-tag defaults and the
    normalisation applied after loading.
  - `internal/discovery/discovery.go` (module `Discovery`): the Consul
    client configuration, and the register sequence with its optional watch
    and heartbeat.
  - `pkg/dbmservice/dbmservice.go` (module `ConfigService`): binding,
    reading the bound port back strictly, assembling the record, and the
    guard against serving without a listener.

The modules they share:

- `Identifiers`: the service ID (`name` with dots turned into dashes, `-`,
  the port) and the health-check ID (`serviceID + "_health"`).
- `Watch`: the "instance joined" decision of the watch handler, which looks
  only at the last entry of a snapshot.
- `Lifecycle`:
  - `Fatal` turns every `log.Fatal` into a value.
  - `Effect` records each call into Consul and each task spawned, in order.
  - `WellOrdered` is the ordering every bring-up keeps. At most one watch is
    launched, and it comes before the single register call. A heartbeat
    comes only after that call, and only last.
  - `BringUp` builds such traces.
  - `Heartbeat` is the TTL update loop over a finite run of replies. It
    panics first, as `time.NewTicker` does, when half the TTL is not positive.
- `GoStrings`, `GoStrconv`, `GoNet` and `ConsulApi` hold the parts of Go's
  standard library that the code depends on. They are stated in Dafny with
  their edge cases:
  - `strings.TrimSpace` uses the full `unicode.IsSpace` set.
  - `strings.Split` keeps empty pieces.
  - `strconv.Atoi` accepts a sign and is limited to 64-bit range.
  - `net.SplitHostPort` follows Go's bracket rules.
  - `ConsulApi` holds the Consul API records as plain data.

Everything outside the process becomes a parameter:

- The environment: a record of strings, or for the newer service the
  already-parsed `envconfig` result.
- The module's MD5 name.
- `consul.DefaultConfig()`.
- The client-creation outcome.
- `net.Listen`, as a function from the address to the bound address or an
  error.
- The replies of `watch.Parse`, of the register call and of the TTL updates.

## Model

| member | source | states |
|---|---|---|
| Identifiers.ServiceID | dbmservice.go:174-176 | the ID holds no `.`; its first `\|name\|` characters are the name with every `.` made `-`, then comes `-`, then exactly the decimal spelling of the port |
| Identifiers.ServiceIDKeepsName | dbmservice.go:174-176 | every character of the name stays at its position in the ID, a `.` becoming `-` and anything else unchanged |
| Identifiers.ServiceIDKeepsPort | dbmservice.go:174-176 | for any name and any non-negative port, the text after the ID's last `-` parses back to the port |
| Identifiers.SameIDSameDashedName | dbmservice.go:174-176 | for one port, two names get the same ID exactly when they are equal once their dots are made dashes |
| Identifiers.DotsAndDashesCollide | dbmservice.go:174-176 | `a.b` and `a-b` get the same ID for every port, so the name cannot be recovered from an ID |
| Identifiers.CheckID | pkg/dbmservice/dbmservice.go:57 | the check ID is the service ID followed by exactly `_health` |
| EnvService.GetServiceName | dbmservice.go:189-198 | when the input still holds a non-space character once its `' '` are removed, the name is what remains of the space-free input after white space is cut from its ends, down to a non-space character at each end; it is non-empty, has no `' '`, and uses only the input's characters; otherwise it is the MD5 name plus `.services.local` |
| GoStrings.TrimSpaceStrips | dbmservice.go:191 | `strings.TrimSpace` only cuts white space, and only from the two ends |
| GoStrings.TrimSpaceUnique | dbmservice.go:191 | cutting white space from the ends of a string until neither end is white space can only give `strings.TrimSpace`'s result, so the name above is unique |
| GoStrings.RemoveCharAppend | dbmservice.go:191 | removing every `' '` works piecewise over a concatenation, so the characters that stay keep their order |
| EnvService.PlainNameKept | dbmservice.go:191-192 | a non-empty name without white space is used exactly as given |
| EnvService.GetServicePort | dbmservice.go:200-208 | the result is in 0..65535; it is the parsed value when that parses and is in range, and 0 otherwise |
| EnvService.ServicePortRoundTrip | dbmservice.go:200-208 | every port in 0..65535, written as decimal, reads back as itself |
| EnvService.GetServiceTags | dbmservice.go:210-218 | there is at least one tag, and no tag holds `' '` or `,`; blank input gives `go`,`service`; otherwise joining the tags with `,` gives back the stripped input, so empty pieces are kept |
| EnvService.TagsRoundTrip | dbmservice.go:210-218 | a list of tags free of white space and commas, written comma-separated, reads back unchanged, empty tags included |
| EnvService.GetHealthCheckTTLAsWritten | dbmservice.go:220-228 | a failed parse or a value under 5 gives 8s; a value from 5 to the largest one a `time.Duration` can hold gives that many seconds; the result always fits 64 bits |
| EnvService.TTLWraps | dbmservice.go:221-223 | every value above that limit passes the floor but comes out wrapped and not as requested; ten billion seconds comes out negative |
| EnvService.GetHealthCheckTTL | dbmservice.go:220-228 | the result is always at least 5s and fits 64 bits; it is 8s or the parsed number of seconds, and it is the parsed number whenever that is at least 5 and representable |
| EnvService.TTLCorrectionAgrees | dbmservice.go:220-228 | the corrected TTL and the as-written TTL agree on every input whose product does not overflow |
| EnvService.CreateConsulConfig | dbmservice.go:178-187 | only the address and the scheme can differ from the defaults; each is replaced by its trimmed variable exactly when that is non-blank |
| EnvService.ListenHost | dbmservice.go:56-60 | the host is non-empty and trimmed: `localhost` when `SERVICE_ADDRESS` is blank, and otherwise that variable with white space cut from its ends |
| EnvService.ListenAddress | dbmservice.go:62 | the listen address is the host, `:`, and the decimal spelling of the port, in that order |
| EnvService.NewService | dbmservice.go:27-46 | a failed client creation is fatal; a new service has no listener, the getters' name, port (in range), tags and Consul configuration, and the corrected TTL, which is at least 5s and equals the source's TTL whenever the parsed value does not overflow |
| EnvService.ListenAddressSplits | dbmservice.go:56-62 | the listen address of a host without colons or brackets splits back into that host and the port's decimal text |
| EnvService.WatchEnabled | dbmservice.go:113 | the watch is on exactly when the trimmed flag is a spelling `strconv.ParseBool` reads as true |
| EnvService.HeartbeatCheckID | dbmservice.go:161 | the heartbeat's check ID is the service ID of the current name and port followed by exactly `_health` |
| EnvService.Prepare | dbmservice.go:94-105 | preparation succeeds exactly when the split succeeds with a non-empty host and port and the trimmed port parses; then the record holds the split host and the parsed port, the service's port is overwritten first, and both IDs are derived from the updated service; the check fields are TTL = deregister timeout = the service TTL, 3 failures, skip-verify |
| EnvService.Announce | dbmservice.go:113-120 | the watch is launched exactly when enabled, and first, with the registered ID; register is called once with the record; a register error is fatal and starts no heartbeat; a passing register succeeds with the updated service, and the heartbeat, last, uses the check ID recomputed from it; the trace is well ordered |
| EnvService.RegisterService | dbmservice.go:80-128 | a record that cannot be prepared is fatal before any call; otherwise the calls of `Announce` follow, and a started heartbeat uses the registered check ID |
| EnvService.Start | dbmservice.go:55-67 | a failed listen is fatal before any call; otherwise registration runs with the listener set, and a successful start keeps a listener |
| EnvService.HeartbeatMatchesRegistration | dbmservice.go:99-105 | after a successful start, the registered check ID and port are exactly those the heartbeat recomputes from the service |
| EnvService.UpdateHealthCheck | dbmservice.go:160-172 | every TTL update names the heartbeat check ID, `serviceID + "_health"` of the current name and port; a TTL under 2ns makes the ticker panic before any update; otherwise the loop stops exactly when some reply fails |
| EnvService.PlanWatchHandler | dbmservice.go:141-151 | "joined" is reported exactly when the result is a non-empty slice of entries whose last entry's ID is not the own ID, and it reports that entry |
| Configs.ApplyDefaults | configs/config.go:13-31 | every absent variable takes its struct-tag default: name empty, `localhost`, port 0, tags `go`,`service`, `127.0.0.1:8500`, `http`, 10s, watch off; every present one takes its value |
| Configs.FallbackName | configs/config.go:44-47 | the fallback name is the MD5 name, lower-cased and without leading white space, followed by `.services.local`; it is non-empty, trimmed and lower case |
| Configs.NormalizeService | configs/config.go:44-54 | a blank name becomes the fallback and any other name is kept untouched; the address is trimmed and lower-cased; the port is kept when in range and is 0 otherwise; tags pass through |
| Configs.NormalizeServiceIdempotent | configs/config.go:44-54 | normalising a normalised service section changes nothing |
| Configs.NormalizeDiscovery | configs/config.go:56-57 | the Consul address is trimmed and lower-cased, the scheme only trimmed; the TTL and the watch flag pass through, with no TTL floor |
| Configs.NormalizeDiscoveryIdempotent | configs/config.go:56-57 | normalising a normalised Consul section changes nothing |
| Configs.LoadConfigs | configs/config.go:33-60 | an environment that fails to process is fatal; otherwise the result is the defaulted sections, normalised |
| GoStrings.TrimLowerCommute | configs/config.go:49 | lower-casing and then trimming, as written there, equals trimming and then lower-casing |
| Discovery.CreateConsulConfig | internal/discovery/discovery.go:78-89 | only the address and the scheme can differ from the defaults; the address is replaced exactly when the configured one is non-empty and differs from the trimmed, lower-cased default; the scheme exactly when it is non-empty and differs ignoring case |
| Discovery.ConsulConfigChoosesCandidates | internal/discovery/discovery.go:78-89 | the resulting address is the configured or the default one, and so is the scheme |
| Discovery.SchemeCaseIgnored | internal/discovery/discovery.go:84-86 | a configured scheme equal to the default's up to letter case gives the same client configuration as no scheme at all, so the default's spelling is kept |
| Discovery.NewServiceDiscovery | internal/discovery/discovery.go:20-34 | a failed client creation is fatal and nothing else is; the TTL and the watch flag are copied and the client configuration is `CreateConsulConfig`'s |
| Discovery.HybridHandler | internal/discovery/discovery.go:49-58 | "joined" is reported exactly when the result is a non-empty slice of entries whose last entry's ID differs from the registered ID, and it reports that entry |
| Discovery.RegisterService | internal/discovery/discovery.go:36-76 | a watch parse error is fatal and is the only fatal case, with no calls made; the watch is launched exactly when enabled and parsed, and first; every register call sends the record; a register error is returned and starts no heartbeat; a passing register (the watch parsed or off) gives `Registered`, and the heartbeat starts exactly then, last, with the record's check ID; the trace is well ordered |
| Watch.Joined | internal/discovery/discovery.go:52-56 | the decision is made on the last entry alone |
| Watch.JoinedIgnoresEarlierEntries | internal/discovery/discovery.go:52-56 | entries before the last never change the decision |
| Watch.ForeignEntryBeforeOwnIsMissed | internal/discovery/discovery.go:52-56 | a foreign instance listed before this instance's own entry is not reported |
| Watch.ServicePlan | dbmservice.go:132-136 | the watch is of type `service`, on the service's name, passing instances only; `internal/discovery/discovery.go` builds the same parameters |
| Lifecycle.BringUp | internal/discovery/discovery.go:37-73 | a watch is launched exactly when planned, and first; register is called once with the record; a heartbeat is started exactly when asked for, and last; the trace is well ordered, so no second watch is launched |
| Lifecycle.HalfDuration | internal/discovery/discovery.go:93 | half a duration truncates toward zero, and is positive exactly for durations of at least 2ns |
| Lifecycle.Heartbeat | internal/discovery/discovery.go:91-101 | when half the TTL is not positive the ticker panics and no update is sent; otherwise every update names the check ID, all but the last update were answered by a pass, and the loop ends fatally exactly when some reply fails, then on the first failure and with its error |
| ConfigService.NewService | pkg/dbmservice/dbmservice.go:22-30 | a configuration or client failure is fatal, and the configuration failure comes first; a new service has no listener, and holds the loaded service section and the discovery that `NewServiceDiscovery` builds from the loaded Consul section |
| ConfigService.ListenAddress | pkg/dbmservice/dbmservice.go:35 | the listen address is the configured address, `:`, and the decimal spelling of the configured port, in that order |
| ConfigService.BoundPort | pkg/dbmservice/dbmservice.go:39-47 | the bound port is accepted exactly when the address splits and the trimmed port text parses and is spelled the way `Itoa` spells it; then `Itoa` of the port is that text |
| GoStrconv.StrictRoundTrip | pkg/dbmservice/dbmservice.go:44-47 | `Atoi` succeeding with `Itoa` giving the text back holds exactly for canonical decimal text in 64-bit range |
| ConfigService.BoundPortOfJoined | pkg/dbmservice/dbmservice.go:39-47 | any bracket-free host joined with a non-negative port reads back as that port |
| ConfigService.NonCanonicalPortRejected | pkg/dbmservice/dbmservice.go:44-47 | port text with a leading `0` or `+` is rejected, although `Atoi` alone accepts it |
| ConfigService.ServiceIDOf | pkg/dbmservice/dbmservice.go:49 | the ID holds no `.`, is trimmed, and is the older implementation's ID with only its leading white space dropped, since it always ends in a digit |
| ConfigService.ServiceIDUntrimmedUnlessLeadingSpace | pkg/dbmservice/dbmservice.go:49 | for a name that does not start with white space, the trim changes nothing and the ID is the older implementation's |
| ConfigService.RegistrationFor | pkg/dbmservice/dbmservice.go:49-63 | the ID and check ID are derived, name, tags and address are copied from the configuration, the port is the configured port, and the check is TTL = deregister timeout, 3 failures, skip-verify |
| ConfigService.RegisterBound | pkg/dbmservice/dbmservice.go:39-73 | a bad bound port is fatal before any call; otherwise the calls are those of `Discovery.RegisterService` for the record with the bound port, and the result succeeds exactly when the register passes and the watch parsed or is off; an enabled watch that fails to parse is fatal with its parse error, and otherwise a register error is fatal with its error; success records the bound address as the listener, keeps the discovery, and changes only the port of the configuration |
| ConfigService.RegisterBoundRecord | pkg/dbmservice/dbmservice.go:44-71 | every register call sends the record for the configuration with its port replaced by the bound port; after success, the heartbeat runs last on that record's check ID |
| ConfigService.RegisterService | pkg/dbmservice/dbmservice.go:32-37 | a failed listen is fatal before any call; otherwise registration goes on with the bound address |
| ConfigService.Start | pkg/dbmservice/dbmservice.go:82-86 | starting is fatal exactly when there is no listener |
| ConfigService.StartNeedsRegistration | pkg/dbmservice/dbmservice.go:83-85 | a freshly created service cannot start; one whose registration succeeded can |
| GoNet.SplitJoinHostPort | pkg/dbmservice/dbmservice.go:39 | splitting a joined address gives back the host and the port when neither holds a bracket and the port holds no colon |

## Left out

- Sockets: `net.Listen`, the accept loop, `http.Serve` and `ServiceAddr`. They are I/O. The bound address is an input, and `net.Listen` is a function parameter.
- The Consul client: `ServiceRegister`, `UpdateTTL`, `watch.Parse` and `RunWithConfig`. This is a foreign library. The register call and the watch launch are effects in the trace. The `UpdateTTL` calls are the check IDs `Lifecycle.Heartbeat` returns. `watch.Parse` appears only through its reply. Every reply is a parameter.
- `consul.DefaultConfig()`: it reads the process environment, so its result is a parameter.
- Goroutines and the TTL/2 heartbeat cadence. They concern concurrency and timing. The heartbeat is a loop over a finite sequence of replies. The ticker's panic on an interval that is not positive is modelled.
- The root `enablePlanWatch` goroutine: it launches concurrently, and its parse and run failures kill the process asynchronously. Only the launch is recorded. The fatal `RunWithConfig` of the newer watch is left out for the same reason.
- `godotenv` and `envconfig` parsing, and `os.Getenv`: the environment is a parameter. For the newer service, that parameter is the already-parsed `envconfig` result, or its error.
- `internal/modinfo`: it reads `go.mod` and hashes it, so its MD5 name is a string parameter. Its `log.Fatalf` when `go.mod` cannot be read (internal/modinfo/modinfo.go:17-20) is therefore not modelled.
- EnvService.NewService: does not include the fatal end from `modinfo.ModInfo`. That end is reachable only when the name is blank (dbmservice.go:194). It also builds the service with the corrected TTL described under Findings, not with `GetHealthCheckTTLAsWritten`, although it states that the two agree wherever the source's product does not wrap.
- Configs.LoadConfigs: does not include the fatal end from `modinfo.ModInfo`. That end is reachable only when the name is blank (configs/config.go:45).
- `time.Duration.String()`: durations are kept as nanosecond counts, so the record's TTL strings are compared as numbers.
- Debug and log output, and the `Debug` setting.
- `StartService`: it is deprecated and only calls `Start`.
- A snapshot entry with a nil `Service`: in Go it would panic. The model's entries always hold a service.
- GoStrings.ToLower: maps only ASCII letters. Go's `strings.ToLower` also lower-cases other Unicode letters.
- EnvService.UpdateHealthCheck: states the call IDs and the stop condition only. The loop itself is `Lifecycle.Heartbeat`, which has the full contract.
- Go's `int` is taken to be 64 bits, so `strconv.Atoi` accepts exactly the 64-bit range.

## Findings

| source | as written | input that shows it | evidently intended | confidence | as-written member | corrected member |
|---|---|---|---|---|---|---|
| dbmservice.go:221-223 | `time.Duration(ttl) * time.Second` is evaluated in 64-bit arithmetic for any parsed `ttl >= 5`, so values above 9223372036 wrap around | `CONSUL_TTL_IN_SECONDS=10000000000` passes the five-second check and yields a TTL of -8446744073709551616 ns | a TTL that cannot be represented falls back to the 8s default, like any other invalid value, so the result is always at least 5s | not executed | EnvService.GetHealthCheckTTLAsWritten | EnvService.GetHealthCheckTTL |
