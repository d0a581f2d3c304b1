/**
  The parts of the Fetch API's Request, Response and Headers objects that the
  router reads or writes, as values. Header names are case-insensitive: a
  header list is a map keyed by the ASCII-lower-cased name, as the Headers
  object normalises them. Bodies are strings; streaming is not modelled.
*/
module Http {
  import opened Wrappers

  /** ASCII lower-casing of a header name. */
  function Lower(name: string): (r: string)
    ensures |r| == |name|
    ensures forall i :: 0 <= i < |name| ==> r[i] == if 'A' <= name[i] <= 'Z' then (name[i] as int + 32) as char else name[i]
  {
    if name == [] then []
    else [if 'A' <= name[0] <= 'Z' then (name[0] as int + 32) as char else name[0]] + Lower(name[1..])
  }

  /** Lower-casing an already lower-cased name changes nothing. */
  lemma LowerIdempotent(name: string)
    ensures Lower(Lower(name)) == Lower(name)
  {
    var r := Lower(name);
    assert forall i :: 0 <= i < |r| ==> !('A' <= r[i] <= 'Z');
  }

  /** A header list, from name to value. */
  type Headers = map<string, string>

  /** Every name is stored lower-cased, as a Headers object stores it. */
  predicate LowerKeys(h: Headers) {
    forall k | k in h :: Lower(k) == k
  }

  /** `headers.get(name)`: None where the Fetch API gives `null`. */
  function GetHeader(h: Headers, name: string): Option<string> {
    if Lower(name) in h then Some(h[Lower(name)]) else None
  }

  /** `headers.set(name, value)`: replaces every value of `name`, whatever its case, and touches no other header. */
  function SetHeader(h: Headers, name: string, value: string): (r: Headers)
    ensures GetHeader(r, name) == Some(value)
    ensures forall n :: Lower(n) != Lower(name) ==> GetHeader(r, n) == GetHeader(h, n)
    ensures LowerKeys(h) ==> LowerKeys(r)
  {
    LowerIdempotent(name);
    h[Lower(name) := value]
  }

  /** The inbound request (`verb` is its HTTP method), with its URL already split into `pathname` and `search` (`""` or `"?..."`). */
  datatype Request = Request(verb: string, pathname: string, search: string, headers: Headers, body: string)

  datatype Response = Response(status: int, statusText: string, headers: Headers, body: string)

  /**
    A null body status of the Fetch Standard: a response with one of these
    statuses cannot carry a body, so `new Response(body, {status})` with a
    non-null `body` throws (a TypeError, or a RangeError for 101 and 103,
    which the 200 to 599 range check rejects first).
  */
  predicate IsNullBodyStatus(status: int) {
    status == 101 || status == 103 || status == 204 || status == 205 || status == 304
  }

  /** The `redirect` option of a Request: follow upstream redirects, or hand them back to the caller. */
  datatype RedirectMode = Follow | Manual

  /**
    The URL `new URL(path, base)` after its `search` has been overwritten.
    Resolving `path` against `base` (the WHATWG URL Standard) is not modelled.
  */
  datatype TargetUrl = TargetUrl(base: string, path: string, search: string)

  /** The request the router sends upstream. */
  datatype Outbound = Outbound(url: TargetUrl, verb: string, headers: Headers, body: string, redirect: RedirectMode)
}
