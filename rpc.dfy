/**
 * AdminWebServer.authorized_rpc: which RPCs the browser may ask the admin
 * web server to forward to a backend service.
 */
module Rpc {

  /** One shard of a named service; equality is by (name, shard). */
  datatype ServiceCoord = ServiceCoord(name: string, shard: int)

  /**
   * The gate as the source writes it: three guarded groups of method names
   * and a fall-through to False. The call's arguments are not consulted.
   */
  function AuthorizedRpc<A>(service: ServiceCoord, methodName: string, arguments: A): (ok: bool)
    ensures ok ==> service.name == "ResourceService" || service.shard == 0
    ensures ok ==> methodName in ["submissions_status", "queue_status", "workers_status", "last_messages",
                                  "get_resources", "kill_service"]
  {
    if service == ServiceCoord("EvaluationService", 0) &&
       (methodName == "submissions_status" || methodName == "queue_status" || methodName == "workers_status")
    then true
    else if service == ServiceCoord("LogService", 0) && methodName == "last_messages"
    then true
    else if service.name == "ResourceService" && (methodName == "get_resources" || methodName == "kill_service")
    then true
    else false
  }

  /** One entry of an allow-list: a single coordinate, or every shard of a service. */
  datatype Grant =
    | OnShard(coord: ServiceCoord, methodName: string)
    | OnEveryShard(name: string, methodName: string)

  predicate Grants(g: Grant, service: ServiceCoord, methodName: string) {
    match g
    case OnShard(c, m) => c == service && m == methodName
    case OnEveryShard(n, m) => n == service.name && m == methodName
  }

  /** The allow-list that authorized_rpc implements, one entry per permitted pair. */
  const BrowserAllowList: seq<Grant> := [
    OnShard(ServiceCoord("EvaluationService", 0), "submissions_status"),
    OnShard(ServiceCoord("EvaluationService", 0), "queue_status"),
    OnShard(ServiceCoord("EvaluationService", 0), "workers_status"),
    OnShard(ServiceCoord("LogService", 0), "last_messages"),
    OnEveryShard("ResourceService", "get_resources"),
    OnEveryShard("ResourceService", "kill_service")
  ]

  predicate Listed(service: ServiceCoord, methodName: string) {
    exists i | 0 <= i < |BrowserAllowList| :: Grants(BrowserAllowList[i], service, methodName)
  }

  /**
   * The gate admits exactly the listed pairs and denies everything else,
   * whatever the arguments.
   */
  lemma AuthorizedExactlyWhenListed<A>(service: ServiceCoord, methodName: string, arguments: A)
    ensures AuthorizedRpc(service, methodName, arguments) <==> Listed(service, methodName)
  {
    if AuthorizedRpc(service, methodName, arguments) {
      var i: nat :=
        if service.name == "EvaluationService" && methodName == "submissions_status" then 0
        else if service.name == "EvaluationService" && methodName == "queue_status" then 1
        else if service.name == "EvaluationService" && methodName == "workers_status" then 2
        else if service.name == "LogService" then 3
        else if methodName == "get_resources" then 4
        else 5;
      assert Grants(BrowserAllowList[i], service, methodName);
    }
  }

  /** EvaluationService and LogService are reachable only on shard 0. */
  lemma OtherShardsDenied<A>(shard: int, methodName: string, arguments: A)
    requires shard != 0
    ensures !AuthorizedRpc(ServiceCoord("EvaluationService", shard), methodName, arguments)
    ensures !AuthorizedRpc(ServiceCoord("LogService", shard), methodName, arguments)
  {
  }

  /** ResourceService is reachable on every shard, for its two methods only. */
  lemma ResourceServiceAnyShard<A>(shard: int, methodName: string, arguments: A)
    ensures AuthorizedRpc(ServiceCoord("ResourceService", shard), methodName, arguments) <==>
              methodName == "get_resources" || methodName == "kill_service"
  {
  }

  /** The gate fails closed: a service it does not name is never reachable. */
  lemma UnlistedServiceDenied<A>(service: ServiceCoord, methodName: string, arguments: A)
    requires service.name != "EvaluationService" && service.name != "LogService"
    requires service.name != "ResourceService"
    ensures !AuthorizedRpc(service, methodName, arguments)
  {
  }
}
