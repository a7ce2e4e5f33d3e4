/** What the handler's address resolution guarantees, stated over the model in DashboardHandler. */
module DashboardHandlerLemmas {
  import opened Wrappers
  import opened Strings
  import opened UrlPath
  import opened UrlParse
  import opened DashboardHandler

  /**
   * A relative link is joined onto the request's origin with one slash:
   * whatever "/status" cutting follows never eats into the origin, so the
   * result is the origin itself or the origin followed by "/". An empty link
   * leaves the origin alone, so only there must the origin itself not end in
   * "/status".
   */
  lemma RelativeLinkOnOrigin(link: string, request: Request)
    requires NoEdgeSlash(Origin(request))
    requires !StartsWith(link, "http")
    requires link != [] || !EndsWith(Origin(request), StatusSuffix)
    ensures var r := NormalizeDashboardLink(link, request);
            r == Origin(request) || StartsWith(r, Origin(request) + "/")
  {
    var origin, trail := Origin(request), TrailingSlash(link);
    var joined := Absolutize(link, request);
    if Strip(link) != [] {
      assert joined == origin + "/" + Strip(link) + trail;
      StatusCutKeepsOrigin(origin, Strip(link), trail);
    } else {
      assert joined == origin + trail;
      if link != [] {
        assert link[|link| - 1] == '/';
      }
      StatusCutOnBareOrigin(origin, trail);
    }
  }

  /** An origin followed by "/" survives the cut whole, and so does a bare origin that does not end in "/status". */
  lemma StatusCutOnBareOrigin(origin: string, trail: string)
    requires trail == "/" || (trail == "" && !EndsWith(origin, StatusSuffix))
    ensures var r := CutStatus(origin + trail);
            r == origin || StartsWith(r, origin + "/")
  {
    var joined := origin + trail;
    if trail == "/" {
      assert joined[|joined| - 1] == '/';
    } else {
      assert joined == origin;
    }
  }

  /** Cutting "/status" off `origin/s` (with an optional trailing slash) leaves `origin` or `origin/...`. */
  lemma StatusCutKeepsOrigin(origin: string, s: string, trail: string)
    requires s != [] && NoEdgeSlash(s) && (trail == "" || trail == "/")
    ensures var r := CutStatus(origin + "/" + s + trail);
            r == origin || StartsWith(r, origin + "/")
  {
    var joined := origin + "/" + s + trail;
    var n := |joined| - |StatusSuffix|;
    if EndsWith(joined, StatusSuffix) {
      assert joined[|joined| - 1] == 's';
      assert trail == "";
      assert joined[|origin|] == '/';
      assert joined[..n] == origin + ("/" + s)[..|s| - 6];
      if |s| > 6 {
        assert (origin + ("/" + s)[..|s| - 6])[..|origin| + 1] == origin + "/";
      }
    } else {
      assert joined == (origin + "/") + (s + trail);
    }
  }

  /** "/status" is cut at most once per call: a doubled suffix loses only one copy. */
  lemma StatusRemovedOnce(base: string, request: Request)
    requires StartsWith(base, "http")
    ensures NormalizeDashboardLink(base + "/status/status", request) == base + "/status"
  {
    var link := base + "/status/status";
    assert StartsWith(link, "http") by { assert link[..4] == base[..4]; }
    assert link[|link| - 7..] == StatusSuffix;
    assert link == (base + "/status") + StatusSuffix;
  }

  /** Hence normalisation is not idempotent: normalising again cuts a second "/status". */
  lemma NormalizeNotIdempotent(base: string, request: Request)
    requires StartsWith(base, "http")
    ensures var once := NormalizeDashboardLink(base + "/status/status", request);
            NormalizeDashboardLink(once, request) == base != once
  {
    StatusRemovedOnce(base, request);
    var once := base + "/status";
    assert StartsWith(once, "http") by { assert once[..4] == base[..4]; }
    assert once[|once| - 7..] == StatusSuffix;
    assert |base| < |once|;
  }

  /** An explicit, non-zero port in the link is the port chosen. */
  lemma ExplicitPortChosen(scheme: string, host: string, port: nat, rest: string)
    requires IsScheme(scheme) && IsPlainHost(host) && 0 < port <= MaxPort
    requires rest == [] || rest[0] in AuthorityEnd
    ensures ChoosePort(scheme + "://" + host + ":" + Digits(port) + rest) == Success(port)
  {
    PortOfExplicit(scheme, host, port, rest);
  }

  /** An explicit port 0 is falsy in Python, so `or 443` replaces it. */
  lemma ZeroPortFallsBackTo443(scheme: string, host: string, rest: string)
    requires IsScheme(scheme) && IsPlainHost(host)
    requires rest == [] || rest[0] in AuthorityEnd
    ensures ChoosePort(scheme + "://" + host + ":" + Digits(0) + rest) == Success(443)
  {
    PortOfExplicit(scheme, host, 0, rest);
  }

  /** Without an explicit port the port is 443, whatever the scheme (also for "http"). */
  lemma MissingPortIs443(scheme: string, host: string, rest: string)
    requires IsScheme(scheme) && IsPlainHost(host)
    requires rest == [] || rest[0] in AuthorityEnd
    ensures ChoosePort(scheme + "://" + host + rest) == Success(443)
  {
    PortOfImplicit(scheme, host, rest);
  }

  /**
   * Of everything in the registry, only the looked-up cluster's
   * "dashboard_link" decides the port: two registries that agree on it (for
   * a cluster both know, truthily) give the same answer.
   */
  lemma OnlyDashboardLinkMatters(r1: Registry, r2: Registry, clusterId: string, request: Request)
    requires IsTruthy(GetCluster(r1, clusterId)) && IsTruthy(GetCluster(r2, clusterId))
    requires DashboardLinkKey in r1[clusterId] && DashboardLinkKey in r2[clusterId]
    requires r1[clusterId][DashboardLinkKey] == r2[clusterId][DashboardLinkKey]
    ensures GetPort(r1, clusterId, request) == GetPort(r2, clusterId, request)
  {
  }

  /**
   * Python truthiness: a cluster the manager knows but whose model is empty
   * is refused like an unknown one, with 404, whatever the verb.
   */
  lemma EmptyModelIs404(registry: Registry, request: Request, verb: Verb, clusterId: string, proxiedPath: string)
    requires clusterId in registry && registry[clusterId] == map[]
    ensures Dispatch(registry, request, verb, clusterId, proxiedPath)
            == Failure(HttpError(404, "Dask cluster " + clusterId + " not found"))
  {
  }

  /** With a single cluster in the registry, its port is the one chosen for its normalised link. */
  lemma GetPortOfLink(clusterId: string, link: string, request: Request)
    ensures GetPort(map[clusterId := map[DashboardLinkKey := link]], clusterId, request)
            == ChoosePort(NormalizeDashboardLink(link, request))
  {
    var model := map[DashboardLinkKey := link];
    assert DashboardLinkKey in model;
    assert |model| > 0;
  }

  /** An unknown cluster fails with 404 for every verb, before the request is looked at. */
  lemma UnknownClusterIs404(registry: Registry, request: Request, verb: Verb, clusterId: string, proxiedPath: string)
    requires clusterId !in registry
    ensures Dispatch(registry, request, verb, clusterId, proxiedPath)
            == Failure(HttpError(404, "Dask cluster " + clusterId + " not found"))
  {
  }

  /**
   * All handler methods resolve alike: two verbs on the same cluster and
   * path fail together with the same error, or relay the same path to the
   * same port; only `open` relays over a WebSocket.
   */
  lemma VerbsResolveAlike(registry: Registry, request: Request, v1: Verb, v2: Verb, clusterId: string, proxiedPath: string)
    ensures var a := Dispatch(registry, request, v1, clusterId, proxiedPath);
            var b := Dispatch(registry, request, v2, clusterId, proxiedPath);
            && a.Success? == b.Success?
            && (a.Failure? ==> a.error == b.error)
            && (a.Success? ==> a.value.port == b.value.port && a.value.path == b.value.path == proxiedPath)
  {
  }

  /**
   * For a relative link (empty and all-slash links included) the port is
   * the one in the request's own host: the link is joined onto the origin,
   * so `urlparse` reads the notebook server's port, not a port named in the
   * relative path.
   */
  lemma RelativeLinkUsesRequestPort(link: string, protocol: string, name: string, port: nat)
    requires IsScheme(protocol) && IsPlainHost(name) && 0 < port <= MaxPort
    requires !StartsWith(link, "http")
    ensures ChoosePort(NormalizeDashboardLink(link, Request(protocol, name + ":" + Digits(port)))) == Success(port)
  {
    var host := name + ":" + Digits(port);
    var request := Request(protocol, host);
    var origin := Origin(request);
    PortOriginEdges(protocol, name, port);
    RelativeLinkOnOrigin(link, request);
    var r := NormalizeDashboardLink(link, request);
    SplitAfterOrigin(r, protocol, host);
    var rest := r[|origin|..];
    AuthorityRegroup(protocol + "://", name, Digits(port), rest);
    ExplicitPortChosen(protocol, name, port, rest);
  }

  /** An origin `scheme://name:port` has no edge slash and does not end in "/status": it ends in a digit. */
  lemma PortOriginEdges(protocol: string, name: string, port: nat)
    requires IsScheme(protocol)
    ensures var origin := Origin(Request(protocol, name + ":" + Digits(port)));
            NoEdgeSlash(origin) && !EndsWith(origin, StatusSuffix)
  {
    var digits := Digits(port);
    var host := name + ":" + digits;
    var request := Request(protocol, host);
    var origin := Origin(request);
    assert host[|host| - 1] == digits[|digits| - 1];
    assert IsAsciiDigit(digits[|digits| - 1]);
    OriginEdges(request);
    assert origin[|origin| - 1] == host[|host| - 1];
  }

  /**
   * The origin `f"{request.protocol}://{request.host}"` has no slash at
   * either end when the protocol does not start with one and the host does
   * not end with one, so `url_path_join` keeps it whole.
   */
  lemma OriginEdges(request: Request)
    requires request.protocol != [] && request.protocol[0] != '/'
    requires request.host != [] && request.host[|request.host| - 1] != '/'
    ensures NoEdgeSlash(Origin(request))
  {
    var origin := Origin(request);
    assert origin[0] == request.protocol[0];
    assert origin[|origin| - 1] == request.host[|request.host| - 1];
  }

  /** A text that is the origin, or the origin and a slash, is the origin followed by nothing or a path. */
  lemma SplitAfterOrigin(r: string, protocol: string, host: string)
    requires var origin := protocol + "://" + host;
             r == origin || StartsWith(r, origin + "/")
    ensures var origin := protocol + "://" + host;
            var rest := r[|origin|..];
            r == protocol + "://" + host + rest && (rest == [] || rest[0] == '/')
  {
    var origin := protocol + "://" + host;
    if r != origin {
      assert r[|origin|] == (origin + "/")[|origin|];
    }
    assert r == origin + r[|origin|..];
  }
}
