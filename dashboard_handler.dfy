/**
 * The address resolution of the dashboard proxy handler: from a cluster id
 * and the incoming request to the local port whose server the request is
 * relayed to. The relay itself (HTTP and WebSocket forwarding by the
 * inherited proxy handler) is not modelled; `Dispatch` records only what
 * each handler method hands to it.
 */
module DashboardHandler {
  import opened Wrappers
  import opened Strings
  import opened UrlPath
  import opened UrlParse

  /** A cluster model as the cluster manager returns it, key by key (only text values are modelled). */
  type ClusterModel = map<string, string>

  /** The cluster manager's clusters by id, read-only here. */
  type Registry = map<string, ClusterModel>

  /** The two parts of the incoming request that normalisation reads. */
  datatype Request = Request(protocol: string, host: string)

  /** What `_get_port` can raise. */
  datatype Error =
    | HttpError(status: nat, message: string)  // tornado's web.HTTPError
    | KeyError(key: string)                    // a cluster model without the link
    | ValueError(message: string)              // from reading the link's port

  const StatusSuffix := "/status"
  const DashboardLinkKey := "dashboard_link"
  const DefaultPort := 443

  function NotFoundMessage(clusterId: string): string {
    "Dask cluster " + clusterId + " not found"
  }

  /** `manager.get_cluster(cluster_id)`: the cluster's model, or `None` for an unknown id. */
  function GetCluster(registry: Registry, clusterId: string): Option<ClusterModel> {
    if clusterId in registry then Some(registry[clusterId]) else None
  }

  /** Python truthiness of the manager's answer: `None` and an empty model are both false. */
  predicate IsTruthy(cluster: Option<ClusterModel>) {
    cluster.Some? && |cluster.value| > 0
  }

  /** `f"{request.protocol}://{request.host}"`. */
  function Origin(request: Request): string {
    request.protocol + "://" + request.host
  }

  /**
   * The first step of normalisation: a link that does not start with "http"
   * is joined onto the request's origin. An origin with no slash at either
   * end is kept whole in front; one slash and the link's stripped text
   * follow when the link has any, and the link's trailing slash, if any,
   * ends the result.
   */
  function Absolutize(link: string, request: Request): (r: string)
    ensures StartsWith(link, "http") ==> r == link
    ensures !StartsWith(link, "http") && NoEdgeSlash(Origin(request)) && Strip(link) != [] ==>
              r == Origin(request) + "/" + Strip(link) + TrailingSlash(link)
    ensures !StartsWith(link, "http") && NoEdgeSlash(Origin(request)) && Strip(link) == [] ==>
              r == Origin(request) + TrailingSlash(link)
  {
    if StartsWith(link, "http") then link
    else
      var origin := Origin(request);
      assert origin[|request.protocol|] == ':';
      var joined := UrlPathJoin([origin, link]);
      if NoEdgeSlash(origin) then UrlPathJoinOntoBase(origin, link); joined
      else joined
  }

  /**
   * The second step of normalisation: one final "/status" is cut off, and
   * only that. The result is a prefix of the input, shorter by exactly the
   * suffix when there was one and equal to it otherwise.
   */
  function CutStatus(link: string): (r: string)
    ensures EndsWith(link, StatusSuffix) ==> r + StatusSuffix == link
    ensures !EndsWith(link, StatusSuffix) ==> r == link
  {
    if EndsWith(link, StatusSuffix) then
      var r := link[..|link| - |StatusSuffix|];
      assert link == r + StatusSuffix;
      r
    else link
  }

  /**
   * `_normalize_dashboard_link`: make the link absolute, then cut one final
   * "/status" off. A link that already starts with "http" is never
   * prefixed: it comes back whole, or without its final "/status", exactly
   * when it ends with one.
   */
  function NormalizeDashboardLink(link: string, request: Request): (r: string)
    ensures StartsWith(link, "http") ==>
              && (EndsWith(link, StatusSuffix) ==> r + StatusSuffix == link)
              && (!EndsWith(link, StatusSuffix) ==> r == link)
  {
    CutStatus(Absolutize(link, request))
  }

  /**
   * `urlparse(link).port or 443`: the explicit port, unless there is none
   * or it is 0 (which Python's `or` also treats as missing); the scheme
   * plays no part. A malformed port raises `ValueError`.
   */
  function ChoosePort(link: string): (r: Result<nat, Error>)
    ensures r.Success? ==> 0 < r.value <= MaxPort
    ensures r.Failure? <==> Port(link).Failure?
    ensures r.Failure? ==> r.error == ValueError(Port(link).error)
  {
    match Port(link)
    case Failure(message) => Failure(ValueError(message))
    case Success(port) =>
      if port.Some? && port.value != 0 then Success(port.value) else Success(DefaultPort)
  }

  /**
   * `DaskDashboardHandler._get_port`: look the cluster up, fail with 404
   * when the manager has nothing (truthy) for the id, otherwise normalise
   * the model's dashboard link and choose its port.
   */
  function GetPort(registry: Registry, clusterId: string, request: Request): (r: Result<nat, Error>)
    ensures r == Failure(HttpError(404, NotFoundMessage(clusterId))) <==>
              clusterId !in registry || registry[clusterId] == map[]
    ensures r == Failure(KeyError(DashboardLinkKey)) <==>
              clusterId in registry && registry[clusterId] != map[] && DashboardLinkKey !in registry[clusterId]
    ensures r.Success? ==> 0 < r.value <= MaxPort
  {
    var cluster := GetCluster(registry, clusterId);
    if !IsTruthy(cluster) then Failure(HttpError(404, NotFoundMessage(clusterId)))
    else if DashboardLinkKey !in cluster.value then Failure(KeyError(DashboardLinkKey))
    else ChoosePort(NormalizeDashboardLink(cluster.value[DashboardLinkKey], request))
  }

  /** The handler methods: the six forwarded HTTP verbs, `http_get`, and the WebSocket `open`. */
  datatype Verb = HttpGet | Post | Put | Delete | Head | Patch | Options | Open

  /** What the inherited proxy handler is asked to do: relay to local `port` at `path`, over a WebSocket or plain HTTP. */
  datatype Relay = Relay(websocket: bool, port: nat, path: string)

  /**
   * Each handler method: resolve the port with `GetPort` and hand it, with
   * the proxied path untouched, to the inherited `proxy` (HTTP verbs) or
   * `open` (WebSocket). An error from `GetPort` is raised before anything is
   * relayed.
   */
  function Dispatch(registry: Registry, request: Request, verb: Verb, clusterId: string, proxiedPath: string)
    : (r: Result<Relay, Error>)
    ensures r.Success? ==> r.value.path == proxiedPath && r.value.websocket == (verb == Open)
    ensures r.Success? ==> GetPort(registry, clusterId, request) == Success(r.value.port)
    ensures r.Failure? ==> GetPort(registry, clusterId, request) == Failure(r.error)
  {
    match GetPort(registry, clusterId, request)
    case Failure(e) => Failure(e)
    case Success(port) => Success(Relay(verb == Open, port, proxiedPath))
  }
}
