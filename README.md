# Dask dashboard proxy: address resolution

This project models the address resolution of `DaskDashboardHandler`, the
notebook-server handler that relays a Dask cluster's dashboard (HTTP and
WebSocket traffic) through the notebook server's own origin. Each request
names a cluster id and a proxied path. The handler asks the cluster manager
for the cluster's model and reads its `dashboard_link`. It makes that link
absolute and cuts off a final `/status`. The port of the resulting URL (443
when it names none) is handed, with the proxied path untouched, to the
inherited proxy handler.

Modules:

- `Wrappers`: `Option` and `Result`.
- `Strings`: the Python `str` operations used: `startswith`, `endswith`,
  `partition`, `rpartition`, and finding the first of a set of characters.
- `UrlPath`: `url_path_join` from the notebook server. Its source is not part
  of this model. Its docstring promises only that the initial and final `/`
  of the pieces stay in place. The rest is an assumed specification:
  - strip every leading and trailing `/` from each piece (`str.strip('/')`);
  - join the pieces that are still non-empty with one `/`;
  - put back a leading `/` when the first piece had one, and a trailing `/`
    when the last piece had one;
  - turn a result of `//` into `/`.
- `UrlParse`: how `urllib.parse.urlparse(link).port` gets its value, as
  current CPython computes it (older releases do not clean the URL or check
  where the brackets sit, so the tab and bracket examples hold only on
  current releases):
  - leading control characters and spaces are stripped, and every tab, line
    feed and carriage return is removed;
  - the scheme is removed;
  - the authority is taken after `//`;
  - brackets must be balanced, with nothing before `[` and only `:...`
    after `]`, or `ValueError("Invalid IPv6 URL")` is raised;
  - the text after the host's `:` is read, skipping any user info before
    the last `@` and any colons inside a bracketed IPv6 host;
  - that text becomes a port, or a `ValueError` is raised.
- `DashboardHandler`: the handler itself: registry lookup (`GetCluster`,
  `IsTruthy`), `_normalize_dashboard_link` (`Absolutize`, `CutStatus`,
  `NormalizeDashboardLink`), the port choice (`ChoosePort`), `_get_port`
  (`GetPort`) and the verb methods (`Dispatch`).
- `DashboardHandlerLemmas`: what the resolution guarantees, over all inputs.
- `ExampleText`, `DashboardExamples`: the worked examples. They cover a
  relative link on a request to `http://localhost:8888`, and absolute links
  with and without a port, a tab inside the port, and text before or after a
  bracketed host.

The cluster manager is a read-only `map` from cluster id to cluster model.
A cluster model is a `map` from key to text. This keeps both Python details
of `_get_port`:

- `not cluster_model` is true for `None` and for an empty model, and both
  give the 404.
- A model without `"dashboard_link"` raises `KeyError`.

The request is reduced to `protocol` and `host`. Errors are the values
`HttpError(404, "Dask cluster <id> not found")`, `KeyError` and
`ValueError(message)`.

Behaviour worth knowing, proved here:

- The port default is 443 whatever the scheme, so `http://host/` gives 443.
- An explicit port `0` also gives 443, because Python's `or` treats 0 as
  false.
- For a relative link, the port is that of the request's own host. For
  example, `/proxy/8787/status` on a request to `localhost:8888` resolves to
  port 8888, not 8787.
- Normalisation cuts one `/status` per call, so it is not idempotent.

Two more facts about the code:

- A link whose port cannot be read raises a plain `ValueError` (the web
  framework's 500). No separate "bad gateway" error exists.
- A relative link takes whatever scheme the request has. Nothing checks that
  the result starts with `http`.

## Model

| member | source | states |
|---|---|---|
| DashboardHandler.Absolutize | dask_labextension/dashboardhandler.py:67-70 | a link starting with "http" is kept as it is. Any other link is joined onto the origin: when the origin has no slash at either end, the result is the origin, then "/" and the stripped link when that has text, then the link's trailing slash |
| DashboardHandler.CutStatus | dask_labextension/dashboardhandler.py:71-73 | a link ending in "/status" loses exactly that suffix (result + "/status" is the link); any other link is returned unchanged |
| DashboardHandler.NormalizeDashboardLink | dask_labextension/dashboardhandler.py:63-74 | a link starting with "http" is never prefixed: it comes back whole, or with its final "/status" removed, exactly when it ends with "/status" |
| DashboardHandler.ChoosePort | dask_labextension/dashboardhandler.py:60 | the chosen port is always in 1..65535; it fails exactly when the modelled Port fails, and then with that ValueError |
| DashboardHandler.GetPort | dask_labextension/dashboardhandler.py:50-60 | fails with 404 "Dask cluster {id} not found" exactly when the id is unknown or its model is empty; fails with KeyError exactly when a non-empty model lacks "dashboard_link"; otherwise any port is in 1..65535 |
| DashboardHandler.Dispatch | dask_labextension/dashboardhandler.py:19-48 | every handler method relays the proxied path unchanged, to the port GetPort resolves, over a WebSocket only for `open`; a GetPort error is raised instead of relaying |
| DashboardHandlerLemmas.RelativeLinkOnOrigin | dask_labextension/dashboardhandler.py:67-73 | a relative link (not starting with "http") on a request whose origin has no edge slash normalises to the origin itself or to the origin followed by "/"; only an empty link, which leaves the origin alone, needs an origin not ending in "/status" |
| DashboardHandlerLemmas.StatusCutOnBareOrigin | dask_labextension/dashboardhandler.py:71-73 | an origin followed by "/" survives the cut whole, and so does a bare origin not ending in "/status" |
| DashboardHandlerLemmas.StatusCutKeepsOrigin | dask_labextension/dashboardhandler.py:70-73 | cutting "/status" from origin + "/" + piece never removes any of the origin |
| DashboardHandlerLemmas.OriginEdges | dask_labextension/dashboardhandler.py:70 | the origin f"{protocol}://{host}" has no slash at either end when the protocol does not start with one and the host does not end with one |
| DashboardHandlerLemmas.PortOriginEdges | dask_labextension/dashboardhandler.py:70 | an origin scheme://name:port has no edge slash and does not end in "/status" |
| DashboardHandlerLemmas.StatusRemovedOnce | dask_labextension/dashboardhandler.py:71-73 | an absolute link ending in "/status/status" loses only one "/status" |
| DashboardHandlerLemmas.NormalizeNotIdempotent | dask_labextension/dashboardhandler.py:71-73 | normalising that result again removes a second "/status", so normalisation is not idempotent |
| DashboardHandlerLemmas.ExplicitPortChosen | dask_labextension/dashboardhandler.py:60 | scheme://host:port followed by nothing or a path, query or fragment gives exactly that port, for every port in 1..65535 |
| DashboardHandlerLemmas.ZeroPortFallsBackTo443 | dask_labextension/dashboardhandler.py:60 | an explicit port 0 gives 443 |
| DashboardHandlerLemmas.MissingPortIs443 | dask_labextension/dashboardhandler.py:60 | a URL without an explicit port gives 443 for every scheme, "http" included |
| DashboardHandlerLemmas.OnlyDashboardLinkMatters | dask_labextension/dashboardhandler.py:53-60 | two registries that agree on the cluster's "dashboard_link" (both with a truthy model) give the same result: no other registry data affects the port |
| DashboardHandlerLemmas.EmptyModelIs404 | dask_labextension/dashboardhandler.py:53-55 | a known id whose model is empty is falsy, so every verb fails with 404 "Dask cluster {id} not found" |
| DashboardHandlerLemmas.GetPortOfLink | dask_labextension/dashboardhandler.py:53-60 | for a cluster whose model holds only its link, the result is the port chosen for the normalised link |
| DashboardHandlerLemmas.UnknownClusterIs404 | dask_labextension/dashboardhandler.py:46-55 | an unknown id fails with 404 "Dask cluster {id} not found" for every verb, and nothing is relayed |
| DashboardHandlerLemmas.VerbsResolveAlike | dask_labextension/dashboardhandler.py:19-48 | any two verbs on the same cluster and path either fail with the same error or relay the same path to the same port |
| DashboardHandlerLemmas.RelativeLinkUsesRequestPort | dask_labextension/dashboardhandler.py:59-70 | for every relative link, the port is the one in the request's own host, whatever port the relative path mentions |
| DashboardExamples.ExampleRelativeLink | dask_labextension/dashboardhandler.py:67-73 | "/proxy/8787/status" on http / localhost:8888 normalises to "http://localhost:8888/proxy/8787", with one slash at the join |
| DashboardExamples.ExampleExplicitPort | dask_labextension/dashboardhandler.py:50-60 | a cluster with link "http://localhost:8787/status" resolves to port 8787 |
| DashboardExamples.ExampleMissingPort | dask_labextension/dashboardhandler.py:50-60 | a cluster with link "https://dask.example.com/status" resolves to port 443 |
| DashboardExamples.ExampleTabInPort | dask_labextension/dashboardhandler.py:50-60 | a cluster with link "http://localhost:87\t87/status" resolves to port 8787, because the tab is removed before parsing |
| DashboardExamples.ExampleMisplacedBracket | dask_labextension/dashboardhandler.py:60 | "http://[::1]x:8787/" has text after "]" that is not a port, so reading its port raises "Invalid IPv6 URL" |
| DashboardExamples.ExampleHostBeforeBracket | dask_labextension/dashboardhandler.py:60 | "http://h[::1]:8787/" has a host name before "[", so reading its port raises "Invalid IPv6 URL" although the port is well formed |
| DashboardExamples.ExampleRelativeLinkPort | dask_labextension/dashboardhandler.py:50-73 | a cluster with link "/proxy/8787/status", on a request to localhost:8888, resolves to port 8888 |
| UrlPath.Strip | dask_labextension/dashboardhandler.py:70 | the stripped text has no slash at either end; it is empty exactly when the piece is all slashes; a piece without edge slashes is unchanged |
| UrlPath.StripRemovesOnlyEdgeSlashes | dask_labextension/dashboardhandler.py:70 | the stripped text is a slice of the piece, and everything cut off on either side is slashes |
| UrlPath.JoinStripped | dask_labextension/dashboardhandler.py:70 | the join of the stripped pieces is empty exactly when every piece is all slashes, and never has a slash at either end |
| UrlPath.UrlPathJoin | dask_labextension/dashboardhandler.py:70 | the initial "/" of the first piece and the final "/" of the last piece stay in place |
| UrlPath.UrlPathJoinTwo | dask_labextension/dashboardhandler.py:70 | joining two pieces that keep some text gives the leading slash of the first, both stripped pieces with one "/" between them, and the trailing slash of the last |
| UrlPath.UrlPathJoinSeam | dask_labextension/dashboardhandler.py:70 | at the seam of two such pieces there is exactly one slash: no doubled and no missing slash |
| UrlPath.UrlPathJoinOntoBase | dask_labextension/dashboardhandler.py:70 | a base without edge slashes, such as scheme://host, is kept whole in front, followed by "/" and the stripped piece when it has text, then the piece's trailing slash |
| UrlPath.UrlPathJoinEmptyLast | dask_labextension/dashboardhandler.py:70 | joining a piece with one that is only slashes gives the first piece stripped, with the outer slashes and no separator |
| UrlParse.Sanitize | dask_labextension/dashboardhandler.py:60 | the URL urlsplit parses holds no tab, line feed or carriage return |
| UrlParse.SanitizeCommutes | dask_labextension/dashboardhandler.py:60 | stripping leading control characters and removing tabs and newlines can be done in either order |
| UrlParse.SanitizeDropsUnsafe | dask_labextension/dashboardhandler.py:60 | a tab, line feed or carriage return anywhere in the URL is dropped before parsing |
| UrlParse.PortIgnoresUnsafe | dask_labextension/dashboardhandler.py:60 | inserting a tab, line feed or carriage return anywhere in a URL does not change its port or its error |
| UrlParse.AfterScheme | dask_labextension/dashboardhandler.py:60 | when a scheme is removed, what is removed is a valid scheme and the first ":" |
| UrlParse.AfterSchemeOf | dask_labextension/dashboardhandler.py:60 | after a valid scheme and ":", the rest of the URL is what remains |
| UrlParse.Netloc | dask_labextension/dashboardhandler.py:60 | the authority never contains "/", "?" or "#" |
| UrlParse.NetlocOf | dask_labextension/dashboardhandler.py:60 | in scheme://authority followed by a path, query, fragment or nothing, the authority is exactly what urlsplit returns as netloc |
| UrlParse.PortText | dask_labextension/dashboardhandler.py:60 | a port text is found only in an authority that contains ":" |
| UrlParse.PortTextAfterUserInfo | dask_labextension/dashboardhandler.py:60 | user info before the last "@" changes neither the port text nor the bracket check |
| UrlParse.PortTextPlain | dask_labextension/dashboardhandler.py:60 | the port text of host:text is text |
| UrlParse.PortTextBracketed | dask_labextension/dashboardhandler.py:60 | the port text of [address]:text is text, whatever colons the address holds, and the brackets are well placed |
| UrlParse.DigitsValue | dask_labextension/dashboardhandler.py:60 | ASCII digits read as 0 exactly when they are all zeros |
| UrlParse.Digits | dask_labextension/dashboardhandler.py:60 | writing a number in decimal gives ASCII digits that read back as the same number |
| UrlParse.Port | dask_labextension/dashboardhandler.py:60 | an explicit port is at most 65535 and comes from an authority with ":"; when the authority has no ":", a successful read finds no port |
| UrlParse.PortOfExplicit | dask_labextension/dashboardhandler.py:60 | round trip: writing a port of 0..65535 after host: and reading the URL's port gives that port |
| UrlParse.PortOfImplicit | dask_labextension/dashboardhandler.py:60 | a URL whose host has no ":" has no port |
| UrlParse.PortOutOfRange | dask_labextension/dashboardhandler.py:60 | a port above 65535 raises "Port out of range 0-65535" |
| UrlParse.PortNotDigits | dask_labextension/dashboardhandler.py:60 | a non-empty port text that is not all ASCII digits raises "Port could not be cast to integer value" with that text |
| UrlParse.UnbalancedBracketRejected | dask_labextension/dashboardhandler.py:60 | an authority with "[" but no "]", or "]" but no "[", raises "Invalid IPv6 URL" |
| UrlParse.TextAfterBracketRejected | dask_labextension/dashboardhandler.py:60 | text after "]" that does not start with ":" raises "Invalid IPv6 URL" |
| UrlParse.TextBeforeBracketRejected | dask_labextension/dashboardhandler.py:60 | text before "[" in the host part raises "Invalid IPv6 URL", whatever follows "]" |
| UrlParse.PortOfBracketedHost | dask_labextension/dashboardhandler.py:60 | round trip: writing a port of 0..65535 after [address]: and reading the URL's port gives that port |

## Left out

- The relay itself: the HTTP and WebSocket forwarding done by the inherited proxy handler's `proxy` and `open`. This is network I/O, streaming and frame relaying in a library that is not part of this model. `Dispatch` records only what is handed to it.
- The web framework's request and handler machinery. `request.protocol` and `request.host` are plain text inputs. A raised `KeyError` or `ValueError` is kept as an error value; the 500 response the framework turns it into is not modelled.
- The cluster manager's internals. It is a read-only map from id to model. Model values other than `dashboard_link` are reduced to text, since nothing else is read.
- The async/await structure and any concurrency between connections.
- `url_path_join`'s source is not part of this model. Its behaviour beyond the initial and final `/`, as stated under the `UrlPath` module, is an assumption. The model needs at least one piece, as the Python function fails with no pieces. The lemmas cover the two-piece call the handler makes.
- The validation of the bracketed text as an IPv6 address or an IPvFuture literal is not modelled. On a link whose bracketed address is not valid, Python raises `ValueError` and the model reads the port. Some CPython releases validate the first bracketed text anywhere in the netloc, user info included, so they also reject a link such as `http://a[b]@host:80`, from which the model reads port 80.
- The Unicode check on a non-ASCII netloc (NFKC normalisation) is not modelled. On such a link Python may raise `ValueError` where the model reads the port.
- The parts of `urlparse` that do not reach the port: lower-casing the scheme, and splitting path, params, query and fragment.
- UrlParse.Port: follows the current CPython rule that the port text must be ASCII digits. Older versions called `int()`, which also accepts signs, spaces and underscores. The `ValueError` message shows the port text in single quotes instead of the full `repr`.
