/**
 * The concrete examples of the handler's behaviour: a relative link on a
 * request to the notebook server, an absolute link with a port and one
 * without.
 */

/** Plain text facts about the example links, kept apart from the model so that they are cheap to check. */
module ExampleText {
  import opened Strings

  lemma RelativeLinkText()
    ensures "http" + "://" + "localhost:8888" == "http://localhost:8888"
    ensures !StartsWith("/proxy/8787/status", "http")
    ensures |"/proxy/8787/status"| == 18 && "/proxy/8787/status"[17] == 's'
    ensures |"http://localhost:8888"| == 21 && "http://localhost:8888"[0] == 'h' && "http://localhost:8888"[20] == '8'
    ensures "http://localhost:8888" + "/" + "proxy/8787/status" + "" == "http://localhost:8888/proxy/8787/status"
    ensures EndsWith("http://localhost:8888/proxy/8787/status", "/status")
    ensures "http://localhost:8888/proxy/8787/status"[..32] == "http://localhost:8888/proxy/8787"
  {
    assert "/proxy/8787/status"[0] == '/';
  }

  /** The text facts the explicit-port example rests on. */
  lemma ExplicitPortText()
    ensures StartsWith("http://localhost:8787/status", "http")
    ensures EndsWith("http://localhost:8787/status", "/status")
    ensures "http://localhost:8787/status"[..21] == "http" + "://" + "localhost" + ":" + "8787" + ""
  {
  }
  /** The text facts the missing-port example rests on. */
  lemma MissingPortText()
    ensures StartsWith("https://dask.example.com/status", "http")
    ensures EndsWith("https://dask.example.com/status", "/status")
    ensures "https://dask.example.com/status"[..24] == "https" + "://" + "dask.example.com" + ""
  {
  }
  /** The link with a tab inside its port, split before and after the tab. */
  lemma TabInPortText()
    ensures "http://localhost:87\t87/status" == "http://localhost:87" + ['\t'] + "87/status"
    ensures StartsWith("http://localhost:87\t87/status", "http")
    ensures EndsWith("http://localhost:87\t87/status", "/status")
    ensures "http://localhost:87\t87/status"[..22] == "http://localhost:87" + ['\t'] + "87"
    ensures "http://localhost:87" + "87" == "http" + "://" + "localhost" + ":" + "8787" + ""
  {
  }

  /** The link with text between `]` and the port, split as scheme, address, text after `]` and path. */
  lemma BracketText()
    ensures "http://[::1]x:8787/" == "http" + "://[" + "::1" + "]" + "x:8787" + "/"
  {
  }

  /** The link with a host name before `[`, split as scheme, host, address, port and path. */
  lemma HostBeforeBracketText()
    ensures "http://h[::1]:8787/" == "http" + "://" + "h" + "[" + "::1" + "]" + ":8787" + "/"
  {
  }

  /** The normalised relative example, split as scheme, host, port and path. */
  lemma RelativePortText()
    ensures "http" + "://" + "localhost" + ":" + "8888" + "/proxy/8787" == "http://localhost:8888/proxy/8787"
  {
  }
}

/** The examples, stated over the model. */
module DashboardExamples {
  import opened Wrappers
  import opened Strings
  import opened UrlPath
  import opened UrlParse
  import opened DashboardHandler
  import opened DashboardHandlerLemmas
  import opened ExampleText

  /** `/proxy/8787/status` on a request to `http://localhost:8888` normalises to `http://localhost:8888/proxy/8787`. */
  lemma ExampleRelativeLink()
    ensures NormalizeDashboardLink("/proxy/8787/status", Request("http", "localhost:8888"))
            == "http://localhost:8888/proxy/8787"
  {
    var link, origin := "/proxy/8787/status", "http://localhost:8888";
    var request := Request("http", "localhost:8888");
    RelativeLinkText();
    assert Origin(request) == origin;
    assert NoEdgeSlash(origin);
    assert TrailingSlash(link) == "";
    RelativeExampleStrip();
    UrlPathJoinOntoBase(origin, link);
    var joined := "http://localhost:8888/proxy/8787/status";
    assert Absolutize(link, request) == joined;
    assert CutStatus(joined) == joined[..32];
  }

  /** `"/proxy/8787/status".strip('/')`. */
  lemma RelativeExampleStrip()
    ensures Strip("/proxy/8787/status") == "proxy/8787/status"
  {
    var s, t := "/proxy/8787/status", "proxy/8787/status";
    assert s[0] == '/' && s[1..] == t;
    assert t[0] == 'p' && t[|t| - 1] == 's';
    assert TrimLeadingSlashes(t) == t;
    assert TrimLeadingSlashes(s) == t;
    assert TrimTrailingSlashes(t) == t;
  }

  /** 8787 in decimal. */
  lemma Digits8787()
    ensures Digits(8787) == "8787"
  {
    assert Digits(8) == "8";
    assert Digits(87) == Digits(8) + "7";
    assert Digits(878) == Digits(87) + "8";
  }

  /** 8888 in decimal. */
  lemma Digits8888()
    ensures Digits(8888) == "8888"
  {
    assert Digits(8) == "8";
    assert Digits(88) == Digits(8) + "8";
    assert Digits(888) == Digits(88) + "8";
  }

  /** The schemes and hosts of the examples are well formed. */
  lemma ExampleNames()
    ensures IsScheme("http") && IsScheme("https")
    ensures IsPlainHost("localhost") && IsPlainHost("dask.example.com")
  {
    assert forall k :: 0 <= k < 5 ==> IsAsciiLetter("https"[k]);
    assert forall k :: 0 <= k < 4 ==> IsAsciiLetter("http"[k]);
    ExampleHosts();
    HostNameIsPlain("localhost");
    HostNameIsPlain("dask.example.com");
  }

  lemma ExampleHosts()
    ensures forall k :: 0 <= k < |"localhost"| ==> IsSchemeChar("localhost"[k])
    ensures forall k :: 0 <= k < |"dask.example.com"| ==> IsSchemeChar("dask.example.com"[k])
  {
  }

  /** An absolute link with an explicit port: `http://localhost:8787/status` gives port 8787. */
  lemma ExampleExplicitPort(request: Request)
    ensures GetPort(map["c" := map["dashboard_link" := "http://localhost:8787/status"]], "c", request)
            == Success(8787)
  {
    ExampleNames();
    ExplicitPortText();
    GetPortOfLink("c", "http://localhost:8787/status", request);
    Digits8787();
    ExplicitPortChosen("http", "localhost", 8787, "");
  }

  /** An absolute link without a port: `https://dask.example.com/status` gives 443. */
  lemma ExampleMissingPort(request: Request)
    ensures GetPort(map["c" := map["dashboard_link" := "https://dask.example.com/status"]], "c", request)
            == Success(443)
  {
    ExampleNames();
    MissingPortText();
    GetPortOfLink("c", "https://dask.example.com/status", request);
    MissingPortIs443("https", "dask.example.com", "");
  }

  /**
   * A tab inside the port is removed before the port is read: the link
   * `http://localhost:87<TAB>87/status` resolves to 8787.
   */
  lemma ExampleTabInPort(request: Request)
    ensures GetPort(map["c" := map["dashboard_link" := "http://localhost:87\t87/status"]], "c", request)
            == Success(8787)
  {
    var link := "http://localhost:87\t87/status";
    ExampleNames();
    TabInPortText();
    GetPortOfLink("c", link, request);
    assert NormalizeDashboardLink(link, request) == "http://localhost:87" + ['\t'] + "87";
    PortIgnoresUnsafe("http://localhost:87", '\t', "87");
    Digits8787();
    ExplicitPortChosen("http", "localhost", 8787, "");
  }

  /** Text between `]` and the port's `:` is refused: `http://[::1]x:8787/` raises "Invalid IPv6 URL". */
  lemma ExampleMisplacedBracket()
    ensures Port("http://[::1]x:8787/") == Failure("Invalid IPv6 URL")
  {
    ExampleNames();
    BracketText();
    assert IsPlainText("::1") && IsPlainText("x:8787");
    TextAfterBracketRejected("http", "::1", "x:8787", "/");
  }

  /** A host name before `[` is refused even with a well-formed port: `http://h[::1]:8787/` raises "Invalid IPv6 URL". */
  lemma ExampleHostBeforeBracket()
    ensures Port("http://h[::1]:8787/") == Failure("Invalid IPv6 URL")
  {
    ExampleNames();
    HostBeforeBracketText();
    assert IsPlainText("h") && IsPlainText("::1") && IsPlainText(":8787");
    TextBeforeBracketRejected("http", "h", "::1", ":8787", "/");
  }

  /** The relative link of the first example resolves to the notebook server's port 8888, not 8787. */
  lemma ExampleRelativeLinkPort()
    ensures GetPort(map["c" := map["dashboard_link" := "/proxy/8787/status"]], "c", Request("http", "localhost:8888"))
            == Success(8888)
  {
    ExampleRelativeLink();
    ExampleNames();
    RelativePortText();
    GetPortOfLink("c", "/proxy/8787/status", Request("http", "localhost:8888"));
    Digits8888();
    ExplicitPortChosen("http", "localhost", 8888, "/proxy/8787");
  }
}
