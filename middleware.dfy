/**
  `onRequest` of functions/_middleware.js. The handler is cut at its one
  upstream `fetch`: OnRequest decides, from the routing table, either to
  forward a rewritten request or to fall through to `context.next()`; Respond
  turns the upstream's response into the one sent back, injecting a
  `<base href>` tag into HTML so that the upstream's relative asset URLs
  resolve against the upstream rather than against the router's prefix.
*/
module Middleware {
  import opened Wrappers
  import opened JsStrings
  import opened RouteTables
  import opened Http
  import opened Routing
  import opened RouteCache

  /** Forward a request upstream (remembering the upstream origin for the base tag), or `return context.next()`. */
  datatype Decision = Forward(request: Outbound, target: string) | Next

  /** The `for...of` loop over `Object.entries(routes)` with its early return on the first match. */
  method Dispatch(pathname: string, routes: Table) returns (m: Option<nat>)
    ensures IsFirstMatch(pathname, routes, m)
  {
    var i := 0;
    while i < |routes|
      invariant 0 <= i <= |routes|
      invariant forall j :: 0 <= j < i ==> !Matches(pathname, routes[j].key)
    {
      if Matches(pathname, routes[i].key) {
        return Some(i);
      }
      i := i + 1;
    }
    return None;
  }

  /**
    onRequest up to the upstream fetch: get the routes through the cache,
    then forward to the first matching route or fall through. A request that
    matches no route is never forwarded.
  */
  method OnRequest(cache: Cache, now: int, outcome: FetchOutcome, req: Request) returns (d: Decision, fetched: bool)
    requires cache.Valid()
    modifies cache
    ensures cache.Valid()
    ensures var served := Step(old(cache.State()), now, outcome);
      && cache.State() == served.state
      && fetched == served.fetched
      && (d.Next? <==> forall j :: 0 <= j < |served.routes| ==> !Matches(req.pathname, served.routes[j].key))
      && (d.Forward? ==>
            exists i: nat ::
              && IsFirstMatch(req.pathname, served.routes, Some(i))
              && d == Forward(ForwardRequest(req, served.routes[i]), served.routes[i].value))
  {
    var routes;
    routes, fetched := cache.GetRoutes(now, outcome);
    var m := Dispatch(req.pathname, routes);
    match m
    case None =>
      d := Next;
    case Some(i) =>
      d := Forward(ForwardRequest(req, routes[i]), routes[i].value);
  }

  /** `<base href="${target}">`. */
  function BaseTag(target: string): string {
    "<base href=\"" + target + "\">"
  }

  /** The HTML rewrite: after the first `<head>`, else after the first `<HEAD>`, else at the very start. */
  function InjectBaseTag(html: string, target: string): string {
    var tag := BaseTag(target);
    if Includes(html, "<head>") then ReplaceFirst(html, "<head>", "<head>" + tag)
    else if Includes(html, "<HEAD>") then ReplaceFirst(html, "<HEAD>", "<HEAD>" + tag)
    else tag + html
  }

  /** Where the base tag belongs: just past the first `<head>`, else just past the first `<HEAD>`, else 0. */
  function InsertionPoint(html: string): (k: nat)
    ensures k <= |html|
    ensures Includes(html, "<head>") ==>
      6 <= k && html[k - 6..k] == "<head>" && forall j :: 0 <= j < k - 6 ==> !OccursAt(html, "<head>", j)
    ensures !Includes(html, "<head>") && Includes(html, "<HEAD>") ==>
      6 <= k && html[k - 6..k] == "<HEAD>" && forall j :: 0 <= j < k - 6 ==> !OccursAt(html, "<HEAD>", j)
    ensures !Includes(html, "<head>") && !Includes(html, "<HEAD>") ==> k == 0
  {
    match IndexOf(html, "<head>")
    case Some(i) => i + 6
    case None =>
      match IndexOf(html, "<HEAD>")
      case Some(i) => i + 6
      case None => 0
  }

  lemma BaseTagLiteral(target: string)
    requires '$' !in target
    ensures '$' !in BaseTag(target)
  {}

  /** `html.replace(pat, pat + tag)` puts `tag` just past the first `pat` when neither holds a `$`. */
  lemma InsertAfterFirst(html: string, pat: string, tag: string)
    requires '$' !in pat && '$' !in tag && IndexOf(html, pat).Some?
    ensures var k := IndexOf(html, pat).value + |pat|;
      ReplaceFirst(html, pat, pat + tag) == html[..k] + tag + html[k..]
  {
    var i := IndexOf(html, pat).value;
    assert '$' !in pat + tag;
    ReplaceFirstLiteral(html, pat, pat + tag);
    assert html[..i + |pat|] == html[..i] + pat;
  }

  /** When `target` holds no `$`, the rewrite inserts the base tag once, at the insertion point, and changes nothing else. */
  lemma InjectSplit(html: string, target: string)
    ensures '$' !in target ==>
      var k := InsertionPoint(html);
      InjectBaseTag(html, target) == html[..k] + BaseTag(target) + html[k..]
  {
    if '$' !in target {
      BaseTagLiteral(target);
      if Includes(html, "<head>") {
        InsertAfterFirst(html, "<head>", BaseTag(target));
      } else if Includes(html, "<HEAD>") {
        InsertAfterFirst(html, "<HEAD>", BaseTag(target));
      } else {
        assert html[..0] == [] && html[0..] == html;
      }
    }
  }

  /** Deleting the one inserted tag gives back the original document. */
  lemma InjectReversible(html: string, target: string)
    requires '$' !in target
    ensures var r, k, n := InjectBaseTag(html, target), InsertionPoint(html), |BaseTag(target)|;
      k + n <= |r| && r[k..k + n] == BaseTag(target) && r[..k] + r[k + n..] == html
  {
    InjectSplit(html, target);
    var r, k, tag := InjectBaseTag(html, target), InsertionPoint(html), BaseTag(target);
    var front, back := html[..k], html[k..];
    assert r == front + tag + back;
    assert |front| == k;
    assert r[..k] == front;
    assert r[k..k + |tag|] == tag;
    assert r[k + |tag|..] == back;
    assert front + back == html;
  }

  /** `(response.headers.get('content-type') || '').includes('text/html')`. */
  predicate IsHtml(resp: Response) {
    Includes(GetHeader(resp.headers, "content-type").GetOr(""), "text/html")
  }

  /**
    The response onRequest returns for a forwarded request: an HTML body gets
    the base tag; status, status text and headers are kept; anything else is
    passed through as it is. None stands for the error that
    `new Response(html, {status})` throws when the status is a null body
    status (a TypeError, or a RangeError for 101 and 103), which no `catch`
    in onRequest handles.
  */
  function Respond(resp: Response, target: string): (r: Option<Response>)
    ensures r.None? <==> IsHtml(resp) && IsNullBodyStatus(resp.status)
    ensures r.Some? ==>
      r.value.status == resp.status && r.value.statusText == resp.statusText && r.value.headers == resp.headers
    ensures !IsHtml(resp) ==> r == Some(resp)
    ensures IsHtml(resp) && r.Some? && '$' !in target ==>
      var k := InsertionPoint(resp.body);
      r.value.body == resp.body[..k] + BaseTag(target) + resp.body[k..]
  {
    if IsHtml(resp) then
      if IsNullBodyStatus(resp.status) then None
      else
        InjectSplit(resp.body, target);
        Some(Response(resp.status, resp.statusText, resp.headers, InjectBaseTag(resp.body, target)))
    else
      Some(resp)
  }
}
