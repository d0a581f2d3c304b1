/**
  The dispatch rule and the request rewrite that functions/_middleware.js
  and worker.js share: a route prefix matches a path that equals it or that
  continues it with `/`; the first matching entry in table order wins; the
  prefix is cut from the path and the request is re-sent, with its method,
  headers, body and query string, to the route's upstream origin, without
  following redirects.
*/
module Routing {
  import opened Wrappers
  import opened RouteTables
  import opened Http

  /** `pathname === route || pathname.startsWith(route + '/')`. */
  predicate Matches(pathname: string, route: string) {
    pathname == route || route + "/" <= pathname
  }

  /** `m` is the index of the first entry of `t` whose key matches `pathname`, or None when no entry does. */
  predicate IsFirstMatch(pathname: string, t: Table, m: Option<nat>) {
    match m
    case Some(i) =>
      i < |t| && Matches(pathname, t[i].key) && forall j :: 0 <= j < i ==> !Matches(pathname, t[j].key)
    case None =>
      forall j :: 0 <= j < |t| ==> !Matches(pathname, t[j].key)
  }

  /** The first entry at or after `from` whose key matches `pathname`. */
  function FirstMatchFrom(pathname: string, t: Table, from: nat): (m: Option<nat>)
    requires from <= |t|
    ensures m.Some? ==> from <= m.value < |t| && Matches(pathname, t[m.value].key)
    ensures m.Some? ==> forall j :: from <= j < m.value ==> !Matches(pathname, t[j].key)
    ensures m.None? ==> forall j :: from <= j < |t| ==> !Matches(pathname, t[j].key)
    decreases |t| - from
  {
    if from == |t| then None
    else if Matches(pathname, t[from].key) then Some(from)
    else FirstMatchFrom(pathname, t, from + 1)
  }

  /** The `for (const [route, target] of Object.entries(routes))` search with its early return. */
  function FirstMatch(pathname: string, t: Table): (m: Option<nat>)
    ensures IsFirstMatch(pathname, t, m)
  {
    FirstMatchFrom(pathname, t, 0)
  }

  /** There is only one first match: any search that meets IsFirstMatch finds the same entry. */
  lemma FirstMatchUnique(pathname: string, t: Table, m1: Option<nat>, m2: Option<nat>)
    requires IsFirstMatch(pathname, t, m1) && IsFirstMatch(pathname, t, m2)
    ensures m1 == m2
  {}

  /**
    The entry a search over `t` finds: the entry at the first match, or None.
    This is what dispatch depends on, independent of where the entry sits.
  */
  function MatchedEntry(pathname: string, t: Table): (e: Option<Entry>)
    ensures e.None? <==> IsFirstMatch(pathname, t, None)
    ensures e.Some? ==> exists i: nat :: IsFirstMatch(pathname, t, Some(i)) && t[i] == e.value
  {
    match FirstMatch(pathname, t)
    case Some(i) => Some(t[i])
    case None => None
  }

  /** The search looks at the first entry, and only when it does not match goes on to the rest. */
  lemma MatchedEntryCons(pathname: string, t: Table)
    requires t != []
    ensures MatchedEntry(pathname, t) ==
      if Matches(pathname, t[0].key) then Some(t[0]) else MatchedEntry(pathname, t[1..])
  {
    if !Matches(pathname, t[0].key) {
      match FirstMatch(pathname, t[1..])
      case Some(i) =>
        assert IsFirstMatch(pathname, t, Some(i + 1));
        FirstMatchUnique(pathname, t, FirstMatch(pathname, t), Some(i + 1));
      case None =>
        assert IsFirstMatch(pathname, t, None);
    }
  }

  /** A key that could match a request path: empty, or beginning with `/`. */
  predicate IsPathKey(key: string) {
    key == "" || key[0] == '/'
  }

  /** The entries of `t` whose key could match a request path, in table order. */
  function PathEntries(t: Table): (r: Table)
    ensures forall e :: e in r <==> e in t && IsPathKey(e.key)
  {
    if t == [] then []
    else if IsPathKey(t[0].key) then [t[0]] + PathEntries(t[1..])
    else PathEntries(t[1..])
  }

  /**
    A request path begins with `/`, so a key that is neither empty nor begins
    with `/` (an array index such as `"7"`, or `__proto__`) never matches it:
    the entry dispatch finds depends only on the path keys and their order.
  */
  lemma {:induction false} OtherKeysNeverMatch(pathname: string, t: Table)
    requires "/" <= pathname
    ensures MatchedEntry(pathname, t) == MatchedEntry(pathname, PathEntries(t))
  {
    if t != [] {
      OtherKeysNeverMatch(pathname, t[1..]);
      MatchedEntryCons(pathname, t);
      if !IsPathKey(t[0].key) {
        assert pathname[0] != t[0].key[0];
        assert !Matches(pathname, t[0].key);
      } else {
        assert PathEntries(t)[1..] == PathEntries(t[1..]);
        MatchedEntryCons(pathname, PathEntries(t));
      }
    }
  }

  /** `pathname.slice(route.length) || '/'`: the path the upstream sees. */
  function TargetPath(pathname: string, route: string): (p: string)
    requires Matches(pathname, route)
    ensures |p| > 0 && p[0] == '/'
    ensures pathname == route ==> p == "/"
    ensures pathname != route ==> pathname == route + p
  {
    var rest := pathname[|route|..];
    assert pathname == route + rest;
    if rest == "" then "/" else rest
  }

  /**
    The target path is a network-path reference (it starts with `//`, section
    4.2 of RFC 3986), which resolves to a host of its own rather than the
    upstream's (section 5.2.2), exactly when the request path continues the
    prefix with `//`.
  */
  lemma NetworkPathReference(pathname: string, route: string)
    requires Matches(pathname, route)
    ensures "//" <= TargetPath(pathname, route) <==> route + "//" <= pathname
  {}

  /** An instance: `/aic//evil.com/x` is forwarded with the path `//evil.com/x`. */
  lemma NetworkPathExample()
    ensures TargetPath("/aic//evil.com/x", "/aic") == "//evil.com/x"
  {}

  /**
    The forwarded request: the target URL is `targetPath` against the route's
    upstream origin, with the original query string copied over any query the
    origin carries; method, headers and body are the original's and redirects
    are returned, not followed.
  */
  function ForwardRequest(req: Request, route: Entry): (out: Outbound)
    requires Matches(req.pathname, route.key)
    ensures out.url.base == route.value && out.url.search == req.search
    ensures out.url.path == TargetPath(req.pathname, route.key)
    ensures out.verb == req.verb && out.headers == req.headers && out.body == req.body
    ensures out.redirect == Manual
  {
    Outbound(TargetUrl(route.value, TargetPath(req.pathname, route.key), req.search), req.verb, req.headers, req.body, Manual)
  }

  /** Two matching paths have the same target path exactly when they are equal or are `route` and `route/`. */
  lemma TargetPathInjective(a: string, b: string, route: string)
    requires Matches(a, route) && Matches(b, route)
    ensures TargetPath(a, route) == TargetPath(b, route) <==> a == b || {a, b} == {route, route + "/"}
  {
    if {a, b} == {route, route + "/"} {
      assert TargetPath(route + "/", route) == "/";
    }
  }

  /**
    The rewrite loses nothing but the difference between `route` and
    `route + "/"`: two matching requests are forwarded identically exactly
    when they are equal or differ only in having those two paths.
  */
  lemma ForwardRequestInjective(r1: Request, r2: Request, route: Entry)
    requires Matches(r1.pathname, route.key) && Matches(r2.pathname, route.key)
    ensures ForwardRequest(r1, route) == ForwardRequest(r2, route) <==>
      r1.(pathname := "") == r2.(pathname := "") &&
      (r1.pathname == r2.pathname || {r1.pathname, r2.pathname} == {route.key, route.key + "/"})
  {
    TargetPathInjective(r1.pathname, r2.pathname, route.key);
  }

}
