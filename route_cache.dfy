/**
  `getRoutes` of functions/_middleware.js: the routing table is rebuilt from a
  remote project list and kept in two module-level variables, `routesCache`
  and `cacheTimestamp`, for five minutes. The clock value and the result of
  fetching and parsing the project list are inputs.
*/
module RouteCache {
  import opened Wrappers
  import opened RouteTables

  /** `CACHE_DURATION`: five minutes, in milliseconds. */
  const CacheDuration: int := 5 * 60 * 1000

  /**
    One element of the parsed project array. `null` is Nullish: reading a
    property of it throws. A number, boolean or string has no such
    properties and reads as a Project with both fields absent.
  */
  datatype Item = Nullish | Project(labUrl: Option<string>, pagesWorkerUrl: Option<string>)

  /**
    The parsed JSON document: something `for...of` can walk through (an array;
    a string walks through one-character strings, which read as field-less
    Projects), or something it cannot (an object, a number, a boolean, `null`),
    on which the loop throws.
  */
  datatype Payload = Iterable(items: seq<Item>) | NotIterable

  /**
    What `fetch` and `response.json()` yield: a response whose `ok` is false,
    an exception (network failure, invalid JSON), or a parsed document.
  */
  datatype FetchOutcome = NotOk(status: int) | Threw | Ok(payload: Payload)

  /** JavaScript truthiness of an optional string field: present and non-empty. */
  predicate Truthy(v: Option<string>) {
    v.Some? && v.value != ""
  }

  /** The project contributes a route: both `labUrl` and `pagesWorkerUrl` are truthy. */
  predicate IsRoute(item: Item) {
    item.Project? && Truthy(item.labUrl) && Truthy(item.pagesWorkerUrl)
  }

  /** One iteration of the build loop; None when reading the item throws. */
  function AddItem(t: Table, item: Item): Option<Table> {
    match item
    case Nullish => None
    case Project(labUrl, pagesWorkerUrl) =>
      if Truthy(labUrl) && Truthy(pagesWorkerUrl) then Some(Assign(t, labUrl.value, pagesWorkerUrl.value))
      else Some(t)
  }

  /** The object the build loop leaves after walking `items` from the empty object; None when the loop throws. */
  function Build(items: seq<Item>): Option<Table>
    decreases |items|
  {
    if items == [] then Some([])
    else
      match Build(items[..|items| - 1])
      case None => None
      case Some(t) => AddItem(t, items[|items| - 1])
  }

  /** The `labUrl`s of the projects that contribute a route, in array order, repeats included. */
  function LabUrls(items: seq<Item>): seq<string>
    decreases |items|
  {
    if items == [] then []
    else
      var last := items[|items| - 1];
      LabUrls(items[..|items| - 1]) + if IsRoute(last) then [last.labUrl.value] else []
  }

  /** `ks` with every repeat after the first occurrence dropped. */
  function Dedup(ks: seq<string>): (r: seq<string>)
    ensures forall k :: k in r <==> k in ks
    ensures forall i, j :: 0 <= i < j < |r| ==> r[i] != r[j]
    decreases |ks|
  {
    if ks == [] then []
    else
      var d := Dedup(ks[..|ks| - 1]);
      var k := ks[|ks| - 1];
      assert forall x :: x in ks <==> x in ks[..|ks| - 1] || x == k by {
        assert ks == ks[..|ks| - 1] + [k];
      }
      if k in d then d else d + [k]
  }

  /** The `pagesWorkerUrl` of the last project that contributes a route for `k`. */
  function LastTarget(items: seq<Item>, k: string): Option<string>
    decreases |items|
  {
    if items == [] then None
    else
      var last := items[|items| - 1];
      if IsRoute(last) && last.labUrl.value == k then Some(last.pagesWorkerUrl.value)
      else LastTarget(items[..|items| - 1], k)
  }

  /** Once an exception is thrown on a prefix of the array, the whole loop throws. */
  lemma {:induction false} BuildFailureSticks(items: seq<Item>, n: nat)
    requires n <= |items| && Build(items[..n]).None?
    ensures Build(items).None?
    decreases |items|
  {
    if n < |items| {
      var init := items[..|items| - 1];
      assert init[..n] == items[..n];
      BuildFailureSticks(init, n);
    } else {
      assert items[..n] == items;
    }
  }

  /** Some element of the array is `null`. */
  predicate HasNullish(items: seq<Item>) {
    exists i :: 0 <= i < |items| && items[i].Nullish?
  }

  lemma HasNullishSnoc(init: seq<Item>, last: Item)
    ensures HasNullish(init + [last]) <==> HasNullish(init) || last.Nullish?
  {
    var items := init + [last];
    if HasNullish(init) {
      var i :| 0 <= i < |init| && init[i].Nullish?;
      assert items[i] == init[i];
    }
    if HasNullish(items) {
      var i :| 0 <= i < |items| && items[i].Nullish?;
      if i < |init| {
        assert init[i] == items[i];
      }
    }
    if last.Nullish? {
      assert items[|init|] == last;
    }
  }

  /** The loop throws exactly when the array holds a `null` element. */
  lemma {:induction false} BuildFailsIffNullish(items: seq<Item>)
    ensures Build(items).None? <==> HasNullish(items)
    decreases |items|
  {
    if items != [] {
      var init, last := items[..|items| - 1], items[|items| - 1];
      BuildFailsIffNullish(init);
      assert items == init + [last];
      HasNullishSnoc(init, last);
    }
  }

  /**
    A completed build holds each key at most once, in the order of the
    first project that named it, with the target of the last project that
    named it.
  */
  lemma {:induction false} BuildTable(items: seq<Item>)
    requires Build(items).Some?
    ensures UniqueKeys(Build(items).value)
    ensures Keys(Build(items).value) == Dedup(LabUrls(items))
    ensures forall k :: Lookup(Build(items).value, k) == LastTarget(items, k)
    decreases |items|
  {
    if items != [] {
      var init, last := items[..|items| - 1], items[|items| - 1];
      BuildTable(init);
      if IsRoute(last) {
        var ks := LabUrls(items);
        assert ks == LabUrls(init) + [last.labUrl.value];
        assert ks[..|ks| - 1] == LabUrls(init);
      } else {
        assert LabUrls(items) == LabUrls(init);
      }
    }
  }

  /** The routes come exactly from the projects whose `labUrl` and `pagesWorkerUrl` are both truthy. */
  lemma BuildKeysAreLabUrls(items: seq<Item>, k: string)
    requires Build(items).Some?
    ensures k in Keys(Build(items).value) <==> exists i :: 0 <= i < |items| && IsRoute(items[i]) && items[i].labUrl.value == k
  {
    BuildTable(items);
    LabUrlsMembers(items, k);
  }

  lemma {:induction false} LabUrlsMembers(items: seq<Item>, k: string)
    ensures k in LabUrls(items) <==> exists i :: 0 <= i < |items| && IsRoute(items[i]) && items[i].labUrl.value == k
    decreases |items|
  {
    if items != [] {
      var init := items[..|items| - 1];
      LabUrlsMembers(init, k);
      assert forall i :: 0 <= i < |init| ==> init[i] == items[i];
    }
  }

  /** The `for (const project of projects)` loop of getRoutes, filling `routes` in place. */
  method BuildRoutes(items: seq<Item>) returns (r: Option<Table>)
    ensures r == Build(items)
  {
    var routes: Table := [];
    for i := 0 to |items|
      invariant Build(items[..i]) == Some(routes)
    {
      assert items[..i + 1][..i] == items[..i];
      match items[i]
      case Nullish =>
        BuildFailureSticks(items, i + 1);
        return None;
      case Project(labUrl, pagesWorkerUrl) =>
        if Truthy(labUrl) && Truthy(pagesWorkerUrl) {
          routes := Assign(routes, labUrl.value, pagesWorkerUrl.value);
        }
    }
    assert items[..|items|] == items;
    return Some(routes);
  }

  /** The table a refresh produces, or None when the `try` block ends in the `!response.ok` return or in `catch`. */
  function Refreshed(outcome: FetchOutcome): Option<Table> {
    match outcome
    case NotOk(_) => None
    case Threw => None
    case Ok(NotIterable) => None
    case Ok(Iterable(items)) => Build(items)
  }

  /** The two module-level variables. */
  datatype CacheState = CacheState(routesCache: Option<Table>, cacheTimestamp: int)

  /** The cached table, if any, has unique keys. */
  predicate WellFormed(s: CacheState) {
    s.routesCache.Some? ==> UniqueKeys(s.routesCache.value)
  }

  /** The result of one call: the new state, the table returned, and whether the project list was fetched. */
  datatype Served = Served(state: CacheState, routes: Table, fetched: bool)

  /** `routesCache && (now - cacheTimestamp) < CACHE_DURATION` (an empty table is still a truthy object). */
  predicate IsFresh(s: CacheState, now: int) {
    s.routesCache.Some? && now - s.cacheTimestamp < CacheDuration
  }

  /** One call of getRoutes at time `now`, as a transition of the cache state. */
  function Step(s: CacheState, now: int, outcome: FetchOutcome): (r: Served)
    ensures r.fetched == !IsFresh(s, now)
    ensures r.state == s || (r.fetched && r.state == CacheState(Some(r.routes), now))
    ensures WellFormed(s) ==> WellFormed(r.state) && UniqueKeys(r.routes)
  {
    if IsFresh(s, now) then Served(s, s.routesCache.value, false)
    else
      match Refreshed(outcome)
      case Some(t) =>
        BuildTable(outcome.payload.items);
        Served(CacheState(Some(t), now), t, true)
      case None => Served(s, s.routesCache.GetOr([]), true)
  }

  /** A fresh cache is served as it is, whatever the fetch would have given, and nothing changes. */
  lemma FreshHitServesCache(s: CacheState, now: int, outcome: FetchOutcome)
    requires IsFresh(s, now)
    ensures Step(s, now, outcome) == Served(s, s.routesCache.value, false)
  {}

  /** A failed refresh returns the old table, or the empty one, and leaves both variables as they were. */
  lemma FailureKeepsState(s: CacheState, now: int, outcome: FetchOutcome)
    requires !IsFresh(s, now) && Refreshed(outcome).None?
    ensures Step(s, now, outcome) == Served(s, s.routesCache.GetOr([]), true)
  {}

  /** A successful refresh replaces the table and stamps it with `now`. */
  lemma SuccessReplacesState(s: CacheState, now: int, outcome: FetchOutcome)
    requires !IsFresh(s, now) && Refreshed(outcome).Some?
    ensures var t := Refreshed(outcome).value;
      Step(s, now, outcome) == Served(CacheState(Some(t), now), t, true)
  {}

  /** After a refresh at `t0`, a call before `t0 + CACHE_DURATION` serves the same table without fetching; a call from then on fetches. */
  lemma RefreshThenExpire(s: CacheState, t0: int, t1: int, o0: FetchOutcome, o1: FetchOutcome)
    requires !IsFresh(s, t0) && Refreshed(o0).Some?
    ensures var first := Step(s, t0, o0);
      var second := Step(first.state, t1, o1);
      (t1 - t0 < CacheDuration ==> second == Served(first.state, first.routes, false)) &&
      (t1 - t0 >= CacheDuration ==> second.fetched)
  {}

  /** A failed refresh leaves the cache stale or empty, so any later call fetches again. */
  lemma FailureRetries(s: CacheState, t0: int, t1: int, o0: FetchOutcome, o1: FetchOutcome)
    requires !IsFresh(s, t0) && Refreshed(o0).None? && t0 <= t1
    ensures Step(Step(s, t0, o0).state, t1, o1).fetched
  {}

  /** The module-level cache of functions/_middleware.js. */
  class Cache {
    var routesCache: Option<Table>
    var cacheTimestamp: int

    /** The state at module load: `routesCache = null`, `cacheTimestamp = 0`. */
    constructor ()
      ensures routesCache == None && cacheTimestamp == 0
      ensures Valid()
    {
      routesCache := None;
      cacheTimestamp := 0;
    }

    function State(): CacheState
      reads this
    {
      CacheState(routesCache, cacheTimestamp)
    }

    ghost predicate Valid()
      reads this
    {
      WellFormed(State())
    }

    /**
      getRoutes: serve the cached table while it is fresh; otherwise consult
      `outcome`, replace both variables after a complete build, or keep them
      and return the old table (or the empty one) when anything fails.
    */
    method GetRoutes(now: int, outcome: FetchOutcome) returns (routes: Table, fetched: bool)
      requires Valid()
      modifies this
      ensures Valid() && UniqueKeys(routes)
      ensures Served(State(), routes, fetched) == Step(old(State()), now, outcome)
    {
      if routesCache.Some? && now - cacheTimestamp < CacheDuration {
        return routesCache.value, false;
      }
      fetched := true;
      match outcome
      case NotOk(_) =>
        routes := routesCache.GetOr([]);
      case Threw =>
        routes := routesCache.GetOr([]);
      case Ok(NotIterable) =>
        routes := routesCache.GetOr([]);
      case Ok(Iterable(items)) =>
        var built := BuildRoutes(items);
        match built
        case None =>
          routes := routesCache.GetOr([]);
        case Some(t) =>
          BuildTable(items);
          routesCache := Some(t);
          cacheTimestamp := now;
          routes := t;
    }
  }
}
