/**
 * Model of the cache controller in public/sw.js: the install, activate and
 * fetch handlers of the service worker, over the browser's CacheStorage.
 * CacheStorage is a list of named caches in creation order, each mapping a
 * request URL to a stored response. The network is an oracle parameter;
 * each handler runs as one sequential step.
 */
module ServiceWorker {
  import opened Wrappers

  /** The cache generation this worker version owns. */
  const CacheName: string := "trw-countdown-v1"

  /** The static assets cached at install, as paths relative to the worker's origin. */
  const StaticCacheUrls: seq<string> :=
    ["/", "/index.html", "/static/js/bundle.js", "/static/css/main.css", "/manifest.json"]

  /** The page served to a navigation when the network fails. */
  const OfflinePage: string := "/index.html"

  datatype Request = Request(httpMethod: string, url: string, destination: string)

  datatype Response = Response(status: int, responseType: string, headers: map<string, string>, body: seq<bv8>)

  /** The network's answer to one fetch: the promise resolves (to a response, or to nothing) or rejects. */
  datatype NetworkOutcome = Fetched(response: Option<Response>) | NetworkError

  /** One cache: request URL to stored response. */
  type Store = map<string, Response>

  /** CacheStorage: cache names in creation order, and each cache's entries. */
  datatype CacheState = CacheState(names: seq<string>, stores: map<string, Store>)

  predicate Distinct(s: seq<string>)
  {
    forall i, j :: 0 <= i < j < |s| ==> s[i] != s[j]
  }

  /** Each name is listed once, and exactly the listed names have a cache. */
  ghost predicate WellFormed(c: CacheState)
  {
    && Distinct(c.names)
    && (forall n :: n in c.stores <==> n in c.names)
  }

  // ---------------------------------------------------------------------
  // CacheStorage operations as functions of the storage's value

  /** `caches.open(name)`: an existing cache is reused; a new one is created empty, after the others. */
  function Opened(c: CacheState, name: string): (r: CacheState)
    ensures WellFormed(c) ==> WellFormed(r)
    ensures name in r.stores
  {
    if name in c.stores then c
    else CacheState(c.names + [name], c.stores[name := map[]])
  }

  /** `seq` without any occurrence of `x`. */
  function Remove(s: seq<string>, x: string): (r: seq<string>)
    ensures forall y :: y in r <==> y in s && y != x
    ensures Distinct(s) ==> Distinct(r)
  {
    if s == [] then []
    else if s[0] == x then Remove(s[1..], x)
    else
      var rest := Remove(s[1..], x);
      assert Distinct(s) ==> s[0] !in s[1..];
      [s[0]] + rest
  }

  /** `caches.delete(name)`. */
  function Deleted(c: CacheState, name: string): (r: CacheState)
    ensures WellFormed(c) ==> WellFormed(r)
    ensures name !in r.stores
  {
    CacheState(Remove(c.names, name), c.stores - {name})
  }

  /** `cache.put(url, response)` on the cache called `name`: replaces any entry with the same URL. */
  function WithEntry(c: CacheState, name: string, url: string, response: Response): (r: CacheState)
    requires name in c.stores
    ensures WellFormed(c) ==> WellFormed(r)
  {
    c.(stores := c.stores[name := c.stores[name][url := response]])
  }

  /** The entries of a successful `cache.addAll`, written in one batch. */
  function WithEntries(c: CacheState, name: string, entries: Store): (r: CacheState)
    requires name in c.stores
    ensures WellFormed(c) ==> WellFormed(r)
  {
    c.(stores := c.stores[name := c.stores[name] + entries])
  }

  /**
   * `caches.match(url)`: the entry for `url` in the first cache, in creation
   * order, that holds one; `None` if no cache does.
   */
  function MatchIn(names: seq<string>, stores: map<string, Store>, url: string): (r: Option<Response>)
    ensures r.None? <==> forall i :: 0 <= i < |names| && names[i] in stores ==> url !in stores[names[i]]
    ensures r.Some? ==> exists i :: 0 <= i < |names| && names[i] in stores && url in stores[names[i]]
                                    && r.value == stores[names[i]][url]
                                    && forall j :: 0 <= j < i && names[j] in stores ==> url !in stores[names[j]]
  {
    if names == [] then None
    else if names[0] in stores && url in stores[names[0]] then Some(stores[names[0]][url])
    else
      var r := MatchIn(names[1..], stores, url);
      assert forall i :: 1 <= i < |names| ==> names[i] == names[1..][i - 1];
      r
  }

  function Match(c: CacheState, url: string): Option<Response>
  {
    MatchIn(c.names, c.stores, url)
  }

  /**
   * An older generation that still holds the URL shadows the current cache:
   * until activation deletes it, its entry is the one served.
   */
  lemma {:induction false} OlderGenerationShadows(c: CacheState, url: string, stale: string)
    requires WellFormed(c) && c.names == [stale, CacheName]
    requires url in c.stores[stale] && url in c.stores[CacheName]
    ensures Match(c, url) == Some(c.stores[stale][url])
  {
  }

  /** With one cache left, matching is looking the URL up in it. */
  lemma {:induction false} MatchSingleCache(c: CacheState, url: string)
    requires WellFormed(c) && c.names == [CacheName]
    ensures Match(c, url) == if url in c.stores[CacheName] then Some(c.stores[CacheName][url]) else None
  {
    assert c.names[1..] == [];
  }

  // ---------------------------------------------------------------------
  // cache.addAll

  /** A response `addAll` accepts: a response arrived, it is not a network error, and its status is ok but not 206. */
  predicate AddAllAccepts(outcome: NetworkOutcome)
  {
    && outcome.Fetched?
    && outcome.response.Some?
    && outcome.response.value.responseType != "error"
    && 200 <= outcome.response.value.status <= 299
    && outcome.response.value.status != 206
  }

  /** `addAll` succeeds: no request is listed twice and every fetch gives an accepted response. */
  predicate AddAllSucceeds(urls: seq<string>, network: string -> NetworkOutcome)
  {
    Distinct(urls) && forall u :: u in urls ==> AddAllAccepts(network(u))
  }

  /** The response of an accepted fetch. */
  function Accepted(outcome: NetworkOutcome): Response
    requires AddAllAccepts(outcome)
  {
    outcome.response.value
  }

  /** The entries a successful `addAll` writes. */
  function Responses(urls: seq<string>, network: string -> NetworkOutcome): (entries: Store)
    requires forall u :: u in urls ==> AddAllAccepts(network(u))
    ensures entries.Keys == set u | u in urls
    ensures forall u :: u in urls ==> entries[u] == Accepted(network(u))
  {
    map u | u in urls :: Accepted(network(u))
  }

  lemma ResponsesExtend(prefix: seq<string>, u: string, network: string -> NetworkOutcome)
    requires forall v :: v in prefix + [u] ==> AddAllAccepts(network(v))
    ensures Responses(prefix + [u], network) == Responses(prefix, network)[u := Accepted(network(u))]
  {
    var longer := Responses(prefix + [u], network);
    var extended := Responses(prefix, network)[u := Accepted(network(u))];
    assert longer.Keys == extended.Keys;
  }

  /**
   * The fetching half of `cache.addAll`: every URL is fetched; the batch is
   * refused when a response is not accepted or a URL repeats.
   */
  method FetchAll(urls: seq<string>, network: string -> NetworkOutcome) returns (entries: Option<Store>)
    ensures entries.Some? <==> AddAllSucceeds(urls, network)
    ensures entries.Some? ==> entries.value == Responses(urls, network)
  {
    var acc: Store := map[];
    var i := 0;
    while i < |urls|
      invariant 0 <= i <= |urls|
      invariant Distinct(urls[..i])
      invariant forall u :: u in urls[..i] ==> AddAllAccepts(network(u))
      invariant acc == Responses(urls[..i], network)
    {
      var outcome := network(urls[i]);
      if !AddAllAccepts(outcome) {
        return None;
      }
      if urls[i] in acc {
        var k :| 0 <= k < i && urls[k] == urls[i];
        assert !Distinct(urls);
        return None;
      }
      assert urls[..i + 1] == urls[..i] + [urls[i]];
      ResponsesExtend(urls[..i], urls[i], network);
      acc := acc[urls[i] := Accepted(outcome)];
      i := i + 1;
    }
    assert urls[..i] == urls;
    entries := Some(acc);
  }

  // ---------------------------------------------------------------------
  // The fetch decision

  /** `sub` occurs in `s` starting at index `i`. */
  predicate OccursAt(s: string, sub: string, i: nat)
  {
    i + |sub| <= |s| && s[i..i + |sub|] == sub
  }

  /** `String.prototype.includes`, scanning for `sub` from index `from` on. */
  function ContainsFrom(s: string, sub: string, from: nat): (b: bool)
    ensures b <==> exists i: nat :: from <= i && OccursAt(s, sub, i)
    decreases |s| - from
  {
    if from + |sub| > |s| then false
    else if s[from..from + |sub|] == sub then assert OccursAt(s, sub, from); true
    else ContainsFrom(s, sub, from + 1)
  }

  predicate Contains(s: string, sub: string)
  {
    ContainsFrom(s, sub, 0)
  }

  /** Firebase and Google API traffic is never handled by the worker. */
  predicate IsExcluded(url: string)
  {
    Contains(url, "firebase") || Contains(url, "googleapis") || Contains(url, "google.com")
  }

  /** The worker answers a request only when it is a GET outside the excluded hosts. */
  predicate Intercepts(request: Request)
  {
    request.httpMethod == "GET" && !IsExcluded(request.url)
  }

  /** Only a present, status-200, same-origin ("basic") network response is written to the cache. */
  predicate IsCacheable(response: Option<Response>)
  {
    response.Some? && response.value.status == 200 && response.value.responseType == "basic"
  }

  /**
   * How the handler settles: the request goes to the browser untouched
   * (`respondWith` is not called), `respondWith` resolves to a response or to
   * `undefined` (`Responded(None)`), or its promise rejects. The page sees
   * `Responded(None)` and `Rejected` alike, as a network error.
   */
  datatype FetchOutcome = NotIntercepted | Responded(response: Option<Response>) | Rejected

  /** One run of the fetch handler: its outcome, whether it went to the network, and the response it writes behind. */
  datatype FetchStep = FetchStep(outcome: FetchOutcome, networkFetched: bool, cacheWrite: Option<Response>)

  /** The fetch handler's decision, cache first and network second, with the offline page for failed navigations. */
  function FetchDecision(c: CacheState, origin: string, request: Request, network: NetworkOutcome): FetchStep
  {
    if !Intercepts(request) then FetchStep(NotIntercepted, false, None)
    else
      match Match(c, request.url)
      case Some(cached) => FetchStep(Responded(Some(cached)), false, None)
      case None =>
        match network
        case Fetched(response) =>
          FetchStep(Responded(response), true, if IsCacheable(response) then response else None)
        case NetworkError =>
          var fallback := if request.destination == "document" then Responded(Match(c, origin + OfflinePage)) else Rejected;
          FetchStep(fallback, true, None)
  }

  /**
   * The storage after the handler: a write-behind opens the current cache
   * (creating it if needed) and puts the response under the request's URL.
   * `persisted` is whether that write went through.
   */
  function AfterFetch(c: CacheState, request: Request, step: FetchStep, persisted: bool): CacheState
  {
    if step.cacheWrite.Some? && persisted then
      WithEntry(Opened(c, CacheName), CacheName, request.url, step.cacheWrite.value)
    else c
  }

  /** Requests the worker does not intercept never reach the cache or the network, whatever they hold. */
  lemma BypassedRequestsUntouched(c: CacheState, origin: string, request: Request, network: NetworkOutcome, persisted: bool)
    requires request.httpMethod != "GET" || IsExcluded(request.url)
    ensures FetchDecision(c, origin, request, network) == FetchStep(NotIntercepted, false, None)
    ensures AfterFetch(c, request, FetchDecision(c, origin, request, network), persisted) == c
  {
  }

  /** A cache hit returns the stored response without touching the network or the cache, whatever the network would do. */
  lemma CacheHitSkipsNetwork(c: CacheState, origin: string, request: Request, network: NetworkOutcome, other: NetworkOutcome, persisted: bool)
    requires Intercepts(request) && Match(c, request.url).Some?
    ensures FetchDecision(c, origin, request, network) == FetchDecision(c, origin, request, other)
    ensures FetchDecision(c, origin, request, network) == FetchStep(Responded(Match(c, request.url)), false, None)
    ensures AfterFetch(c, request, FetchDecision(c, origin, request, network), persisted) == c
  {
  }

  /**
   * On a miss the page gets the network response itself, cached or not; the
   * storage changes exactly when the response is cacheable and the write
   * goes through.
   */
  lemma {:induction false} MissServesNetworkResponse(c: CacheState, origin: string, request: Request, response: Option<Response>, persisted: bool)
    requires WellFormed(c)
    requires Intercepts(request) && Match(c, request.url).None?
    ensures var step := FetchDecision(c, origin, request, Fetched(response));
            && step.outcome == Responded(response) && step.networkFetched
            && (AfterFetch(c, request, step, persisted) != c <==> IsCacheable(response) && persisted)
  {
    var step := FetchDecision(c, origin, request, Fetched(response));
    MissMeansAbsent(c, request.url);
    if IsCacheable(response) && persisted {
      var after := AfterFetch(c, request, step, persisted);
      assert request.url in after.stores[CacheName];
      assert CacheName in c.stores ==> request.url !in c.stores[CacheName];
    }
  }

  /** Whatever happens, a write reaches the cache only for an intercepted miss whose network response is cacheable. */
  lemma {:induction false} OnlyCacheableMissesAreWritten(c: CacheState, origin: string, request: Request, network: NetworkOutcome, persisted: bool)
    requires AfterFetch(c, request, FetchDecision(c, origin, request, network), persisted) != c
    ensures Intercepts(request) && Match(c, request.url).None?
    ensures network.Fetched? && IsCacheable(network.response) && persisted
  {
  }

  /** When the network fails on a miss, a navigation gets the stored offline page (or nothing) and anything else is rejected. */
  lemma NetworkFailureFallback(c: CacheState, origin: string, request: Request, persisted: bool)
    requires Intercepts(request) && Match(c, request.url).None?
    ensures var step := FetchDecision(c, origin, request, NetworkError);
            && step.outcome == (if request.destination == "document" then Responded(Match(c, origin + OfflinePage)) else Rejected)
            && step.networkFetched
            && AfterFetch(c, request, step, persisted) == c
  {
  }

  /**
   * A response written behind on a miss is what the next request for the
   * same URL is served, from the cache and without the network.
   */
  lemma {:induction false} WriteBehindRoundTrip(c: CacheState, origin: string, request: Request, response: Response, next: NetworkOutcome)
    requires WellFormed(c)
    requires Intercepts(request) && Match(c, request.url).None? && IsCacheable(Some(response))
    ensures var after := AfterFetch(c, request, FetchDecision(c, origin, request, Fetched(Some(response))), true);
            && Match(after, request.url) == Some(response)
            && FetchDecision(after, origin, request, next) == FetchStep(Responded(Some(response)), false, None)
  {
    var url := request.url;
    var after := WithEntry(Opened(c, CacheName), CacheName, url, response);
    assert after == AfterFetch(c, request, FetchDecision(c, origin, request, Fetched(Some(response))), true);
    MissMeansAbsent(c, url);
    assert forall n :: n in after.stores && n != CacheName ==> n in c.stores && after.stores[n] == c.stores[n];
    SoleHolderMatches(after, url, CacheName);
  }

  /** On a miss no cache holds the URL. */
  lemma MissMeansAbsent(c: CacheState, url: string)
    requires WellFormed(c) && Match(c, url).None?
    ensures forall n :: n in c.stores ==> url !in c.stores[n]
  {
    forall n | n in c.stores ensures url !in c.stores[n] {
      var k :| 0 <= k < |c.names| && c.names[k] == n;
    }
  }

  /** When exactly one cache holds the URL, matching returns that cache's entry, wherever it sits in the order. */
  lemma SoleHolderMatches(c: CacheState, url: string, name: string)
    requires WellFormed(c) && name in c.stores && url in c.stores[name]
    requires forall n :: n in c.stores && n != name ==> url !in c.stores[n]
    ensures Match(c, url) == Some(c.stores[name][url])
  {
    var k :| 0 <= k < |c.names| && c.names[k] == name;
    assert url in c.stores[c.names[k]];
    var i :| 0 <= i < |c.names| && c.names[i] in c.stores && url in c.stores[c.names[i]]
             && Match(c, url).value == c.stores[c.names[i]][url];
  }

  // ---------------------------------------------------------------------
  // The install and activate steps as functions of the storage

  /** The static assets as request URLs on the worker's origin. */
  function Manifest(origin: string): (urls: seq<string>)
    ensures |urls| == |StaticCacheUrls|
  {
    seq(|StaticCacheUrls|, i requires 0 <= i < |StaticCacheUrls| => origin + StaticCacheUrls[i])
  }

  /** Resolving against one origin keeps the five asset URLs distinct, so `addAll` never refuses them as duplicates. */
  lemma {:induction false} ManifestDistinct(origin: string)
    ensures Distinct(Manifest(origin))
  {
    var urls := Manifest(origin);
    forall i, j | 0 <= i < j < |urls| ensures urls[i] != urls[j] {
      assert urls[i][|origin|..] == StaticCacheUrls[i];
      assert urls[j][|origin|..] == StaticCacheUrls[j];
    }
  }

  /** The install step: open the current cache, then `addAll` the manifest; a failure is swallowed. */
  function AfterInstall(c: CacheState, origin: string, network: string -> NetworkOutcome): (r: CacheState)
    ensures WellFormed(c) ==> WellFormed(r)
    ensures CacheName in r.stores
  {
    var created := Opened(c, CacheName);
    var urls := Manifest(origin);
    if AddAllSucceeds(urls, network) then WithEntries(created, CacheName, Responses(urls, network)) else created
  }

  /** Install succeeds exactly when every asset's fetch is one `addAll` accepts. */
  lemma {:induction false} InstallSucceedsIff(origin: string, network: string -> NetworkOutcome)
    ensures AddAllSucceeds(Manifest(origin), network) <==> forall p :: p in StaticCacheUrls ==> AddAllAccepts(network(origin + p))
  {
    ManifestAssets(origin);
  }

  /** The manifest is exactly the static assets resolved against the origin. */
  lemma ManifestAssets(origin: string)
    ensures Distinct(Manifest(origin))
    ensures forall u :: u in Manifest(origin) <==> exists p :: p in StaticCacheUrls && u == origin + p
  {
    ManifestDistinct(origin);
    var urls := Manifest(origin);
    forall p | p in StaticCacheUrls ensures origin + p in urls {
      var i :| 0 <= i < |StaticCacheUrls| && StaticCacheUrls[i] == p;
      assert urls[i] == origin + p;
    }
    forall u | u in urls ensures exists p :: p in StaticCacheUrls && u == origin + p {
      var i :| 0 <= i < |urls| && urls[i] == u;
      assert StaticCacheUrls[i] in StaticCacheUrls;
    }
  }

  /** Install touches no cache but the current one, and the current one exists afterwards even when `addAll` failed. */
  lemma {:induction false} InstallKeepsOtherCaches(c: CacheState, origin: string, network: string -> NetworkOutcome)
    ensures var r := AfterInstall(c, origin, network);
            && CacheName in r.stores
            && (forall n :: n != CacheName ==> (n in r.stores <==> n in c.stores))
            && (forall n :: n in c.stores && n != CacheName ==> r.stores[n] == c.stores[n])
  {
  }

  /** A failed install leaves the current cache as it was (new and empty if it did not exist). */
  lemma {:induction false} InstallFailureAddsNothing(c: CacheState, origin: string, network: string -> NetworkOutcome)
    requires !AddAllSucceeds(Manifest(origin), network)
    ensures AfterInstall(c, origin, network).stores[CacheName] == if CacheName in c.stores then c.stores[CacheName] else map[]
  {
  }

  /** A successful install stores every asset under its URL, as the network gave it. */
  lemma {:induction false} InstallStoresEveryAsset(c: CacheState, origin: string, network: string -> NetworkOutcome)
    requires AddAllSucceeds(Manifest(origin), network)
    ensures forall p :: p in StaticCacheUrls ==> AddAllAccepts(network(origin + p))
    ensures forall p :: p in StaticCacheUrls ==> origin + p in AfterInstall(c, origin, network).stores[CacheName]
    ensures forall p :: p in StaticCacheUrls ==> AfterInstall(c, origin, network).stores[CacheName][origin + p] == Accepted(network(origin + p))
  {
    ManifestAssets(origin);
  }

  /** Installing twice with the same network answers is installing once: each asset has one entry. */
  lemma {:induction false} InstallIdempotent(c: CacheState, origin: string, network: string -> NetworkOutcome)
    ensures AfterInstall(AfterInstall(c, origin, network), origin, network) == AfterInstall(c, origin, network)
  {
    var once := AfterInstall(c, origin, network);
    var urls := Manifest(origin);
    assert Opened(once, CacheName) == once;
    if AddAllSucceeds(urls, network) {
      var entries := Responses(urls, network);
      var store := once.stores[CacheName];
      assert store + entries == store;
    }
  }

  /** The activate step: every cache other than the current one is deleted. */
  function AfterActivate(c: CacheState): CacheState
  {
    CacheState(if CacheName in c.names then [CacheName] else [],
               if CacheName in c.stores then map[CacheName := c.stores[CacheName]] else map[])
  }

  /** After activation only the current generation is left, with its entries as they were; activating again changes nothing. */
  lemma {:induction false} ActivateEffect(c: CacheState, url: string)
    requires WellFormed(c)
    ensures var r := AfterActivate(c);
            && WellFormed(r)
            && (forall n :: n in r.stores ==> n == CacheName)
            && (CacheName in c.stores <==> CacheName in r.stores)
            && (CacheName in c.stores ==> r.stores[CacheName] == c.stores[CacheName])
            && AfterActivate(r) == r
            && Match(r, url) == if CacheName in c.stores && url in c.stores[CacheName] then Some(c.stores[CacheName][url]) else None
  {
    var r := AfterActivate(c);
    if CacheName in c.stores {
      MatchSingleCache(r, url);
    }
  }

  /** The current generation kept from a list of cache names. */
  function KeepCurrent(names: seq<string>): seq<string>
  {
    if CacheName in names then [CacheName] else []
  }

  /**
   * One turn of the activate loop over a distinct snapshot of the names:
   * deleting a stale name, or passing over the current one, moves the split
   * point of "kept so far, still to visit" by one.
   */
  lemma {:induction false} ActivateStep(snapshot: seq<string>, i: nat)
    requires Distinct(snapshot) && i < |snapshot|
    ensures var names := KeepCurrent(snapshot[..i]) + snapshot[i..];
            var next := KeepCurrent(snapshot[..i + 1]) + snapshot[i + 1..];
            if snapshot[i] == CacheName then names == next else Remove(names, snapshot[i]) == next
  {
    var name := snapshot[i];
    assert snapshot[..i + 1] == snapshot[..i] + [name];
    assert snapshot[i..] == [name] + snapshot[i + 1..];
    assert name !in snapshot[..i] by {
      assert forall k :: 0 <= k < i ==> snapshot[k] != snapshot[i];
    }
    if name != CacheName {
      assert name !in snapshot[i + 1..] by {
        assert forall k :: i < k < |snapshot| ==> snapshot[k] != snapshot[i];
      }
      RemoveAppend(KeepCurrent(snapshot[..i]), snapshot[i..], name);
      RemoveAppend([name], snapshot[i + 1..], name);
      RemoveAbsent(KeepCurrent(snapshot[..i]), name);
      RemoveAbsent(snapshot[i + 1..], name);
      assert Remove([name], name) == [];
    }
  }

  /** A well-formed storage whose names are the kept ones and whose caches are unchanged is the activated storage. */
  lemma ActivatedState(c: CacheState, before: CacheState)
    requires WellFormed(c) && WellFormed(before)
    requires c.names == KeepCurrent(before.names)
    requires KeptFrom(c, before)
    ensures c == AfterActivate(before)
  {
    assert c.stores == AfterActivate(before).stores;
  }

  lemma {:induction false} RemoveAppend(a: seq<string>, b: seq<string>, x: string)
    ensures Remove(a + b, x) == Remove(a, x) + Remove(b, x)
  {
    if a == [] {
      assert a + b == b;
    } else {
      assert (a + b)[0] == a[0] && (a + b)[1..] == a[1..] + b;
      RemoveAppend(a[1..], b, x);
    }
  }

  lemma {:induction false} RemoveAbsent(s: seq<string>, x: string)
    requires x !in s
    ensures Remove(s, x) == s
  {
    if s != [] {
      RemoveAbsent(s[1..], x);
      assert s == [s[0]] + s[1..];
    }
  }

  // ---------------------------------------------------------------------
  // The browser's CacheStorage, updated in place

  class CacheStorage {
    var names: seq<string>
    var stores: map<string, Store>

    function State(): CacheState
      reads this
    {
      CacheState(names, stores)
    }

    ghost predicate Valid()
      reads this
    {
      WellFormed(State())
    }

    constructor (initial: CacheState)
      requires WellFormed(initial)
      ensures Valid() && State() == initial
    {
      names := initial.names;
      stores := initial.stores;
    }

    /** `caches.open(name)`. */
    method Open(name: string)
      requires Valid()
      modifies this
      ensures Valid() && State() == Opened(old(State()), name)
    {
      if name !in stores {
        names := names + [name];
        stores := stores[name := map[]];
      }
    }

    /** `caches.delete(name)`: reports whether the cache existed. */
    method Delete(name: string) returns (existed: bool)
      requires Valid()
      modifies this
      ensures Valid() && State() == Deleted(old(State()), name)
      ensures existed == (name in old(stores))
    {
      existed := name in stores;
      names := Remove(names, name);
      stores := stores - {name};
    }

    /** `cache.put` on the cache called `name`. */
    method Put(name: string, url: string, response: Response)
      requires Valid() && name in stores
      modifies this
      ensures Valid() && State() == WithEntry(old(State()), name, url, response)
    {
      stores := stores[name := stores[name][url := response]];
    }

    /** `cache.addAll` on the cache called `name`: all the entries are written, or none. */
    method AddAll(name: string, urls: seq<string>, network: string -> NetworkOutcome) returns (ok: bool)
      requires Valid() && name in stores
      modifies this
      ensures Valid()
      ensures ok == AddAllSucceeds(urls, network)
      ensures State() == if ok then WithEntries(old(State()), name, Responses(urls, network)) else old(State())
    {
      var entries := FetchAll(urls, network);
      ok := entries.Some?;
      if ok {
        stores := stores[name := stores[name] + entries.value];
      }
    }
  }

  // ---------------------------------------------------------------------
  // The three event handlers

  /**
   * The `install` handler: open the current cache, `addAll` the static
   * assets and, only if that succeeded, `skipWaiting`. A failure is caught
   * and logged, so the handler always completes.
   */
  method Install(caches: CacheStorage, origin: string, network: string -> NetworkOutcome) returns (skippedWaiting: bool)
    requires caches.Valid()
    modifies caches
    ensures caches.Valid()
    ensures skippedWaiting == AddAllSucceeds(Manifest(origin), network)
    ensures caches.State() == AfterInstall(old(caches.State()), origin, network)
  {
    caches.Open(CacheName);
    skippedWaiting := caches.AddAll(CacheName, Manifest(origin), network);
  }

  /**
   * The `activate` handler: list the cache names, delete each one that is
   * not the current generation, then claim the open pages.
   */
  method Activate(caches: CacheStorage) returns (claimedClients: bool)
    requires caches.Valid()
    modifies caches
    ensures caches.Valid()
    ensures caches.State() == AfterActivate(old(caches.State()))
    ensures claimedClients
  {
    var cacheNames := caches.names;
    ghost var before := caches.State();
    var i := 0;
    assert cacheNames[..0] == [] && cacheNames[0..] == cacheNames;
    while i < |cacheNames|
      invariant 0 <= i <= |cacheNames|
      invariant Distinct(cacheNames)
      invariant caches.Valid()
      invariant caches.names == KeepCurrent(cacheNames[..i]) + cacheNames[i..]
      invariant KeptFrom(caches.State(), before)
    {
      DeleteIfStale(caches, cacheNames, i, before);
      i := i + 1;
    }
    assert cacheNames[..i] == cacheNames && cacheNames[i..] == [];
    ActivatedState(caches.State(), before);
    claimedClients := true;
  }

  /** Every cache of `c` is one of `before`'s, with the same entries. */
  ghost predicate KeptFrom(c: CacheState, before: CacheState)
  {
    forall n :: n in c.stores ==> n in before.stores && c.stores[n] == before.stores[n]
  }

  /** One turn of the activate loop: delete the `i`-th name of the snapshot unless it is the current generation. */
  method DeleteIfStale(caches: CacheStorage, snapshot: seq<string>, i: nat, ghost before: CacheState)
    requires caches.Valid() && Distinct(snapshot) && i < |snapshot|
    requires caches.names == KeepCurrent(snapshot[..i]) + snapshot[i..]
    requires KeptFrom(caches.State(), before)
    modifies caches
    ensures caches.Valid()
    ensures caches.names == KeepCurrent(snapshot[..i + 1]) + snapshot[i + 1..]
    ensures KeptFrom(caches.State(), before)
  {
    ActivateStep(snapshot, i);
    if snapshot[i] != CacheName {
      var _ := caches.Delete(snapshot[i]);
    }
  }

  /**
   * The `fetch` handler. `network` is what `fetch` would give and
   * `persisted` whether the write-behind `put` goes through.
   */
  method OnFetch(caches: CacheStorage, origin: string, request: Request, network: NetworkOutcome, persisted: bool)
    returns (outcome: FetchOutcome, networkFetched: bool)
    requires caches.Valid()
    modifies caches
    ensures caches.Valid()
    ensures var step := FetchDecision(old(caches.State()), origin, request, network);
            && outcome == step.outcome && networkFetched == step.networkFetched
            && caches.State() == AfterFetch(old(caches.State()), request, step, persisted)
  {
    if request.httpMethod != "GET" {
      return NotIntercepted, false;
    }
    if Contains(request.url, "firebase") || Contains(request.url, "googleapis") || Contains(request.url, "google.com") {
      return NotIntercepted, false;
    }
    var cachedResponse := Match(caches.State(), request.url);
    if cachedResponse.Some? {
      return Responded(cachedResponse), false;
    }
    networkFetched := true;
    match network {
      case Fetched(response) =>
        if response.None? || response.value.status != 200 || response.value.responseType != "basic" {
          return Responded(response), true;
        }
        if persisted {
          caches.Open(CacheName);
          caches.Put(CacheName, request.url, response.value);
        }
        outcome := Responded(response);
      case NetworkError =>
        if request.destination == "document" {
          outcome := Responded(Match(caches.State(), origin + OfflinePage));
        } else {
          outcome := Rejected;
        }
    }
  }
}
