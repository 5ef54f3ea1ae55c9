/** What the bring-up sequence does to the outside world, and how it stops.
    Every `log.Fatal` of the source becomes a `Fatal` value. */
module Lifecycle {
  import opened Results
  import opened ConsulApi

  datatype Fatal =
    | ConfigLoadFailed(reason: string)
    | ClientCreationFailed(reason: string)
    | ListenFailed(reason: string)
    | AddressUnresolved
    | PortUnparsable(text: string)
    | WatchParseFailed(reason: string)
    | RegisterFailed(reason: string)
    | HeartbeatFailed(reason: string)
    | NoListener
    /** Not a `log.Fatal` but a panic: `time.NewTicker` refuses an interval
        that is not positive. */
    | TickerPanicked

  /** A call into the Consul client or a background task being spawned. */
  datatype Effect =
    | WatchLaunched(params: WatchParams, ownID: string)
    | RegisterCalled(registration: AgentServiceRegistration)
    | HeartbeatStarted(checkID: string)

  /** The result of a step together with the effects it performed, in order. */
  datatype Run<+T> = Run(result: Result<T, Fatal>, effects: seq<Effect>)

  predicate LaunchesWatch(effects: seq<Effect>) {
    exists i :: 0 <= i < |effects| && effects[i].WatchLaunched?
  }

  predicate StartsHeartbeat(effects: seq<Effect>) {
    exists i :: 0 <= i < |effects| && effects[i].HeartbeatStarted?
  }

  /** The ordering every bring-up must keep: at most one watch and at most
      one register call, any watch is launched before the register call, and
      a heartbeat is started only after it and only as the last step. */
  predicate WellOrdered(effects: seq<Effect>) {
    && (forall i, j :: 0 <= i < j < |effects| && effects[i].WatchLaunched? ==> !effects[j].WatchLaunched?)
    && (forall i, j :: 0 <= i < j < |effects| && effects[j].WatchLaunched? ==> !effects[i].RegisterCalled?)
    && (forall i, j :: 0 <= i < j < |effects| && effects[i].RegisterCalled? ==> !effects[j].RegisterCalled?)
    && (forall j :: 0 <= j < |effects| && effects[j].HeartbeatStarted? ==>
          j == |effects| - 1 && exists i :: 0 <= i < j && effects[i].RegisterCalled?)
  }

  /** The calls of a bring-up that gets as far as registering: the watch on
      `plan`, if any, is launched for the registered ID; then the register
      call; then, if `heartbeat` names a check, its heartbeat. */
  function BringUp(plan: Option<WatchParams>, reg: AgentServiceRegistration, heartbeat: Option<string>)
    : (effects: seq<Effect>)
    ensures LaunchesWatch(effects) <==> plan.Some?
    ensures plan.Some? ==> effects[0] == WatchLaunched(plan.value, reg.id)
    ensures RegisterCalled(reg) in effects
    ensures forall e :: e in effects && e.RegisterCalled? ==> e.registration == reg
    ensures StartsHeartbeat(effects) <==> heartbeat.Some?
    ensures heartbeat.Some? ==> effects[|effects| - 1] == HeartbeatStarted(heartbeat.value)
    ensures WellOrdered(effects)
  {
    var launch := if plan.Some? then [WatchLaunched(plan.value, reg.id)] else [];
    var registered := launch + [RegisterCalled(reg)];
    assert plan.Some? ==> registered[0].WatchLaunched?;
    match heartbeat
    case None => registered
    case Some(id) =>
      var effects := registered + [HeartbeatStarted(id)];
      assert effects[|registered|].HeartbeatStarted?;
      assert plan.Some? ==> effects[0].WatchLaunched?;
      effects
  }

  /** `d / 2` on a `time.Duration`: Go's integer division truncates toward
      zero, so it is positive exactly from two nanoseconds up. */
  function HalfDuration(d: Duration): (h: Duration)
    ensures d >= 0 ==> 0 <= d - 2 * h <= 1
    ensures d < 0 ==> 0 <= 2 * h - d <= 1
    ensures h > 0 <==> d >= 2
  {
    if d >= 0 then d / 2 else -((-d) / 2)
  }

  /** The heartbeat loop, observed over a finite run of ticks. The ticker
      runs at half the TTL, and creating it panics before any update when
      that half is not positive. Otherwise each tick reports the check as
      passing through `UpdateTTL`, whose reply is the next element of
      `replies`; the first failed reply is fatal and ends the loop. `calls`
      lists the check IDs the loop sent, in order. */
  method Heartbeat(checkID: string, ttl: Duration, replies: seq<Outcome<string>>)
    returns (calls: seq<string>, stop: Option<Fatal>)
    ensures HalfDuration(ttl) <= 0 ==> calls == [] && stop == Some(TickerPanicked)
    ensures |calls| <= |replies|
    ensures forall i :: 0 <= i < |calls| ==> calls[i] == checkID
    ensures forall i :: 0 <= i < |calls| - 1 ==> replies[i].Pass?
    ensures HalfDuration(ttl) > 0 ==>
      (stop.None? <==> forall i :: 0 <= i < |replies| ==> replies[i].Pass?)
    ensures stop.None? ==> |calls| == |replies|
    ensures HalfDuration(ttl) > 0 && stop.Some? ==>
      && |calls| >= 1
      && replies[|calls| - 1].Fail?
      && stop.value == HeartbeatFailed(replies[|calls| - 1].error)
  {
    calls := [];
    if HalfDuration(ttl) <= 0 {
      stop := Some(TickerPanicked);
      return;
    }
    stop := None;
    var k := 0;
    while k < |replies|
      invariant 0 <= k <= |replies|
      invariant |calls| == k
      invariant forall i :: 0 <= i < k ==> calls[i] == checkID
      invariant forall i :: 0 <= i < k ==> replies[i].Pass?
    {
      calls := calls + [checkID];
      if replies[k].Fail? {
        stop := Some(HeartbeatFailed(replies[k].error));
        return;
      }
      k := k + 1;
    }
  }
}
