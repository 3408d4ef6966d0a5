/**
 * The request gate: the handler behind every path. It reads the health
 * status once and either redirects to the target or answers 503, choosing
 * JSON or HTML by substring tests on the `Accept` header and the path.
 */
module Gate {
  import opened Text
  import opened Wrappers
  import opened Health

  const StatusTemporaryRedirect := 307
  const StatusServiceUnavailable := 503

  /** What the handler looks at in a request. `accept` is the first `Accept` header value, "" when absent. */
  datatype Request = Request(remoteAddr: string, verb: string, path: string, query: string, accept: string)

  datatype Representation = Json | Html

  /** The response the handler sends. */
  datatype Reply = Redirect(location: string) | Unavailable(representation: Representation)

  /** The access-log line: remote address, method (verb), path and a status code. */
  datatype AccessEntry = AccessEntry(remoteAddr: string, verb: string, path: string, code: int)

  const JsonBody := "{\"status\": \"unavailable\", \"message\": \"service is currently undergoing a migration. Please try again later.\", \"detail\": \"service is currently undergoing a migration. Please try again later.\", \"code\": 503}"

  const PageTitle := "<title>Server Migration</title>"
  const PageHeading := "<h1>We&rsquo;ll be back soon!</h1>"

  const PageHead := "<!doctype html>\n"
  const PageStyle :=
    "\n<style>\n"
    + "  body { text-align: center; padding: 150px; }\n"
    + "  h1 { font-size: 50px; }\n"
    + "  body { font: 20px Helvetica, sans-serif; color: #333; }\n"
    + "  article { display: block; text-align: left; width: 650px; margin: 0 auto; }\n"
    + "  a { color: #dc8100; text-decoration: none; }\n"
    + "  a:hover { color: #333; text-decoration: none; }\n"
    + "</style>\n<article>\n    "
  const PageTail :=
    "\n    <div>\n"
    + "        <p>Sorry for the inconvenience but we&rsquo;re performing a migration at the moment. We&rsquo;ll be back online shortly!</p>\n"
    + "        <p>&mdash; Server Team</p>\n"
    + "    </div>\n</article>"

  /** The migration page, a fixed text: the template has no actions, so rendering it yields it unchanged. */
  const HtmlPage := PageHead + PageTitle + PageStyle + PageHeading + PageTail

  function StatusCode(reply: Reply): int
  {
    if reply.Redirect? then StatusTemporaryRedirect else StatusServiceUnavailable
  }

  function ContentType(representation: Representation): string
  {
    match representation
    case Json => "application/json"
    case Html => "text/html"
  }

  function Body(representation: Representation): string
  {
    match representation
    case Json => JsonBody
    case Html => HtmlPage
  }

  /** The JSON choice: the client accepts JSON, or asks under /api/ without accepting HTML. */
  predicate WantsJson(req: Request): (r: bool)
    ensures Contains(req.accept, "application/json") ==> r
    ensures !HasPrefix(req.path, "/api/") ==> (r <==> Contains(req.accept, "application/json"))
    ensures Contains(req.accept, "text/html") ==> (r <==> Contains(req.accept, "application/json"))
    ensures HasPrefix(req.path, "/api/") && !Contains(req.accept, "text/html") ==> r
  {
    Contains(req.accept, "application/json")
    || (HasPrefix(req.path, "/api/") && !Contains(req.accept, "text/html"))
  }

  /** The handler for every path: the reply sent and the access line logged. */
  function Handle(status: NullBool, target: string, req: Request): (r: (Reply, AccessEntry))
    ensures r.0.Redirect? <==> status.valid && status.healthy
    ensures r.0.Redirect? ==> r.0.location == target + req.path
    ensures r.0.Unavailable? ==> (r.0.representation == Json <==> WantsJson(req))
    ensures r.1 == AccessEntry(req.remoteAddr, req.verb, req.path, StatusTemporaryRedirect)
  {
    if status.valid && status.healthy then
      (Redirect(target + req.path), AccessEntry(req.remoteAddr, req.verb, req.path, StatusTemporaryRedirect))
    else
      var representation := if WantsJson(req) then Json else Html;
      (Unavailable(representation), AccessEntry(req.remoteAddr, req.verb, req.path, StatusTemporaryRedirect))
  }

  /** Fail-closed: before any check has reached a verdict no request is redirected. */
  lemma FailClosed(target: string, req: Request)
    ensures Handle(Undetermined, target, req).0 == Unavailable(if WantsJson(req) then Json else Html)
    ensures StatusCode(Handle(Undetermined, target, req).0) == StatusServiceUnavailable
  {
  }

  /**
   * The gate after a run of checks from start-up: it redirects exactly when
   * the latest verdict reached (a network error included) was a pass, and
   * never before the first verdict.
   */
  lemma GateFollowsLatestVerdict(config: Probe.Config, outcomes: seq<Probe.Outcome>, target: string, req: Request)
    ensures Handle(Run(config, Undetermined, outcomes).0, target, req).0.Redirect?
            <==> LastVerdict(None, Verdicts(config, outcomes)) == Some(true)
  {
    RunFollowsVerdicts(config, Undetermined, outcomes);
  }

  /** The query string is not part of the redirect location: only the path is appended. */
  lemma QueryDropped(status: NullBool, target: string, req: Request, query: string)
    ensures Handle(status, target, req) == Handle(status, target, req.(query := query))
  {
  }

  /** Whatever the reply, the access line records 307, so on the 503 paths it disagrees with the status sent. */
  lemma AccessCodeOnUnavailable(status: NullBool, target: string, req: Request)
    requires !(status.valid && status.healthy)
    ensures var (reply, entry) := Handle(status, target, req);
            StatusCode(reply) == StatusServiceUnavailable && entry.code == StatusTemporaryRedirect
  {
  }

  /** A client accepting JSON gets the JSON reply on any path, even if it accepts HTML too. */
  lemma JsonAcceptWins(status: NullBool, target: string, req: Request)
    requires !(status.valid && status.healthy)
    requires Contains(req.accept, "application/json")
    ensures Handle(status, target, req).0 == Unavailable(Json)
  {
  }

  /** The HTML reply carries the page title and the "back soon" heading. */
  lemma HtmlPageContent()
    ensures Contains(Body(Html), PageTitle) && Contains(Body(Html), PageHeading)
    ensures ContentType(Html) == "text/html"
  {
    PageShape(PageHead, PageTitle, PageStyle, PageHeading, PageTail);
  }

  /** A healthy gate sends the request path on to the target: "/" goes to target + "/". */
  lemma HealthyRootRedirects(target: string, req: Request)
    requires req.path == "/"
    ensures Handle(NullBool(true, true), target, req).0 == Redirect(target + "/")
    ensures StatusCode(Handle(NullBool(true, true), target, req).0) == StatusTemporaryRedirect
  {
  }

  /** An unhealthy gate answers a JSON client under /api/ with the fixed JSON document. */
  lemma UnhealthyApiJson(target: string)
    ensures var req := Request("", "POST", "/api/neberkenezer/crew/", "", "application/json");
            var reply := Handle(NullBool(false, true), target, req).0;
            reply == Unavailable(Json) && StatusCode(reply) == StatusServiceUnavailable
            && ContentType(reply.representation) == "application/json" && Body(reply.representation) == JsonBody
  {
    var req := Request("", "POST", "/api/neberkenezer/crew/", "", "application/json");
    OccursInside("", "application/json", "");
    assert "" + "application/json" + "" == req.accept;
  }

  /** An unhealthy gate answers a browser asking for HTML at "/" with the migration page. */
  lemma UnhealthyBrowserHtml(target: string)
    ensures var req := Request("", "GET", "/", "", "text/html");
            Handle(NullBool(false, true), target, req).0 == Unavailable(Html)
  {
    var req := Request("", "GET", "/", "", "text/html");
    assert !HasPrefix(req.path, "/api/");
    assert !Contains("text/html", "application/json");
  }

  /** Under /api/ with no Accept header the reply is JSON; at "/" it is HTML. */
  lemma NoAcceptHeader(target: string, path: string)
    ensures var req := Request("", "GET", path, "", "");
            Handle(NullBool(false, true), target, req).0
            == Unavailable(if HasPrefix(path, "/api/") then Json else Html)
  {
    assert !Contains("", "application/json");
    assert !Contains("", "text/html");
  }
}
