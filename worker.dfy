/**
  The default export's `fetch` of worker.js: the same dispatch and rewrite
  as the middleware over a fixed two-entry table, a CORS header on every
  forwarded response, and a 404 JSON document listing the table's prefixes
  when nothing matches. The handler is cut at its upstream `fetch`: Route
  decides, Finish builds the response from the upstream's.
*/
module Worker {
  import opened Wrappers
  import opened RouteTables
  import opened Http
  import opened Routing

  /** The `routes` object literal, in its insertion order. */
  const Routes: Table := [
    Entry("/timecapsule", "https://timecapsule-d3y.pages.dev"),
    Entry("/aic", "https://b625b9d0.atlasincontext.pages.dev")
  ]

  const CorsHeader: string := "Access-Control-Allow-Origin"

  const NotFoundError: string := "Project not found"

  const NotFoundMessage: string := "Visit https://labs.srirams.me for a list of available projects"

  /** Forward a request upstream, or answer 404 without any upstream request. */
  datatype Decision = Forward(request: Outbound) | NotFound(response: Response)

  /** The table is the fixed pair `/timecapsule`, `/aic`, in that order. */
  lemma RoutesKeys()
    ensures Keys(Routes) == ["/timecapsule", "/aic"]
  {}

  /** No path matches both prefixes, so for this table the first-match order decides nothing. */
  lemma RoutesExclusive(pathname: string)
    ensures !(Matches(pathname, "/timecapsule") && Matches(pathname, "/aic"))
  {
    if Matches(pathname, "/timecapsule") {
      assert "/timecapsule" <= pathname;
      assert pathname[1] == 't';
      assert !("/aic" <= pathname);
      assert !("/aic/" <= pathname);
    }
  }

  /** The object passed to `JSON.stringify` for a 404. */
  datatype NotFoundBody = NotFoundBody(error: string, availableProjects: seq<string>, message: string)

  const HexDigits: string := "0123456789abcdef"

  /** How `JSON.stringify` writes one character inside a string literal. */
  function EscapeChar(c: char): string {
    if c == '"' then "\\\""
    else if c == '\\' then "\\\\"
    else if c == '\U{0008}' then "\\b"
    else if c == '\t' then "\\t"
    else if c == '\n' then "\\n"
    else if c == '\U{000C}' then "\\f"
    else if c == '\r' then "\\r"
    else if c < ' ' then "\\u00" + [HexDigits[c as int / 16], HexDigits[c as int % 16]]
    else [c]
  }

  /** A character `JSON.stringify` writes as itself. */
  predicate PlainChar(c: char) {
    c != '"' && c != '\\' && c >= ' '
  }

  /** Every character of `s` is written as itself. */
  predicate Plain(s: string) {
    s == [] || (PlainChar(s[0]) && Plain(s[1..]))
  }

  function Escape(s: string): string {
    if s == [] then [] else EscapeChar(s[0]) + Escape(s[1..])
  }

  function JsonString(s: string): string {
    "\"" + Escape(s) + "\""
  }

  /** The elements of a JSON array of strings, comma-separated. */
  function JsonStrings(ss: seq<string>): string {
    if ss == [] then ""
    else if |ss| == 1 then JsonString(ss[0])
    else JsonString(ss[0]) + "," + JsonStrings(ss[1..])
  }

  /** `JSON.stringify` of the 404 object: no white space, keys in the order written. */
  function Stringify(b: NotFoundBody): string {
    "{\"error\":" + JsonString(b.error)
    + ",\"availableProjects\":[" + JsonStrings(b.availableProjects)
    + "],\"message\":" + JsonString(b.message) + "}"
  }

  /** A string that needs no escape is written as it is. */
  lemma {:induction false} EscapePlain(s: string)
    requires Plain(s)
    ensures Escape(s) == s
  {
    if s != [] {
      EscapePlain(s[1..]);
      assert s == [s[0]] + s[1..];
    }
  }

  /** The 404 response: status 404, a JSON content type, and the 404 object as its body. */
  function NotFoundResponse(): (r: Response)
    ensures r.status == 404
    ensures GetHeader(r.headers, "Content-Type") == Some("application/json")
    ensures LowerKeys(r.headers)
  {
    Response(404, "", SetHeader(map[], "Content-Type", "application/json"),
      Stringify(NotFoundBody(NotFoundError, Keys(Routes), NotFoundMessage)))
  }

  /** The 404 body is the JSON text of the fixed error, the table's keys in insertion order, and the fixed message. */
  lemma NotFoundBodyLists()
    ensures NotFoundResponse().body ==
      Stringify(NotFoundBody("Project not found", ["/timecapsule", "/aic"], NotFoundMessage))
  {
    RoutesKeys();
  }

  /**
    The request half of `fetch`: forward to the first matching entry of the
    fixed table, or answer 404; the 404 is reached only when every entry
    fails to match, and then nothing is sent upstream.
  */
  function Route(req: Request): (d: Decision)
    ensures d.NotFound? <==> forall j :: 0 <= j < |Routes| ==> !Matches(req.pathname, Routes[j].key)
    ensures d.Forward? ==>
      exists i: nat :: IsFirstMatch(req.pathname, Routes, Some(i)) && d.request == ForwardRequest(req, Routes[i])
    ensures d.NotFound? ==> d.response == NotFoundResponse()
  {
    match FirstMatch(req.pathname, Routes)
    case Some(i) => Forward(ForwardRequest(req, Routes[i]))
    case None => NotFound(NotFoundResponse())
  }

  /**
    The response half of `fetch`: a copy of the upstream response (status,
    status text, body and headers) with `Access-Control-Allow-Origin: *` set
    and every other header left as the upstream sent it.
  */
  function Finish(upstream: Response): (r: Response)
    ensures r.status == upstream.status && r.statusText == upstream.statusText && r.body == upstream.body
    ensures GetHeader(r.headers, CorsHeader) == Some("*")
    ensures forall n :: Lower(n) != Lower(CorsHeader) ==> GetHeader(r.headers, n) == GetHeader(upstream.headers, n)
    ensures LowerKeys(upstream.headers) ==> LowerKeys(r.headers)
  {
    upstream.(headers := SetHeader(upstream.headers, CorsHeader, "*"))
  }
}
