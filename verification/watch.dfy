/** The "instance joined" decision of the membership watch. */
module Watch {
  import opened Results
  import opened ConsulApi

  /** The `watch.Parse` parameters: a `service` watch on `name` that reports
      passing instances only. */
  function ServicePlan(name: string): (p: WatchParams)
    ensures p.kind == "service" && p.service == name && p.passingOnly
  {
    WatchParams("service", name, true)
  }

  /** The handler's decision on one watch result: only a slice of service
      entries is looked at, and of it only the last entry, which is reported
      as joined when its ID is not `ownID`. */
  function Joined(result: WatchResult, ownID: string): (r: Option<AgentService>)
    ensures r.Some? <==>
      result.ServiceEntries? && |result.entries| > 0
      && result.entries[|result.entries| - 1].service.id != ownID
    ensures r.Some? ==> r.value == result.entries[|result.entries| - 1].service
  {
    match result
    case OtherResult => None
    case ServiceEntries(entries) =>
      if |entries| > 0 && entries[|entries| - 1].service.id != ownID
      then Some(entries[|entries| - 1].service)
      else None
  }

  /** Entries before the last one never influence the decision. */
  lemma JoinedIgnoresEarlierEntries(earlier: seq<ServiceEntry>, last: ServiceEntry, ownID: string)
    ensures Joined(ServiceEntries(earlier + [last]), ownID) == Joined(ServiceEntries([last]), ownID)
  {
  }

  /** So a foreign instance reported before this one's own entry is missed. */
  lemma ForeignEntryBeforeOwnIsMissed(foreign: AgentService, own: AgentService)
    requires foreign.id != own.id
    ensures Joined(ServiceEntries([ServiceEntry(foreign), ServiceEntry(own)]), own.id) == None
  {
  }
}
