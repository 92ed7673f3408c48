/** The offline cache controller of public/sw.js: one versioned cache bucket for the
    application shell, filled at install, the older generations swept at activation, and three
    per-request policies at fetch time. Responses are opaque values keyed by URL; the network is
    an input (a response, or none for a network error), and the writes the source issues in the
    background are applied in sequence. */
module ServiceWorker {
  import opened Wrappers

  const CACHE_PREFIX := "alcance-sol-"
  const CACHE_VERSION := "v1"
  const CACHE_NAME := CACHE_PREFIX + CACHE_VERSION

  /** The application shell cached at install. */
  const STATIC_ASSETS: seq<string> := ["/", "/login", "/home", "/report", "/history", "/contact",
    "/manifest.json", "/icons/icon-192x192.png", "/icons/icon-512x512.png"]

  lemma CacheNameValue()
    ensures CACHE_NAME == "alcance-sol-v1"
    ensures |STATIC_ASSETS| == 9
    ensures forall i, j :: 0 <= i < j < |STATIC_ASSETS| ==> STATIC_ASSETS[i] != STATIC_ASSETS[j]
  {
  }

  predicate StartsWith(s: string, p: string)
  {
    |p| <= |s| && s[..|p|] == p
  }

  /** A URL as the cache sees it: origin, path and query. */
  datatype Url = Url(origin: string, path: string, search: string)

  datatype Request = Request(url: Url, mode: string, destination: string)

  datatype Response = Response(status: int, body: string)
  {
    /** `Response.ok`: a status in the 2xx range. */
    predicate Ok()
    {
      200 <= status <= 299
    }

    /** What `cache.addAll` accepts: an ok response that is not a partial one (206), as
        section 5.4.4 of the W3C Service Workers specification requires. */
    predicate Storable()
    {
      Ok() && status != 206
    }
  }

  type Bucket = map<Url, Response>

  /** `CacheStorage`: named buckets, listed in the order they were created. */
  datatype CacheStorage = CacheStorage(names: seq<string>, buckets: map<string, Bucket>)

  ghost predicate CacheStorageOk(cs: CacheStorage)
  {
    forall n :: n in cs.names <==> n in cs.buckets
  }

  const NO_CACHES := CacheStorage([], map[])

  /** `caches.open(name)`: the bucket of that name, created empty at the end of the list when it
      does not exist yet. */
  function OpenBucket(cs: CacheStorage, name: string): (r: CacheStorage)
    ensures CacheStorageOk(cs) ==> CacheStorageOk(r)
    ensures name in r.buckets
    ensures name in cs.buckets ==> r == cs
    ensures name !in cs.buckets ==> r.names == cs.names + [name] && r.buckets == cs.buckets[name := map[]]
  {
    if name in cs.buckets then cs else CacheStorage(cs.names + [name], cs.buckets[name := map[]])
  }

  /** `cache.put(request, response)` on an open bucket. */
  function PutEntry(cs: CacheStorage, name: string, url: Url, resp: Response): (r: CacheStorage)
    requires name in cs.buckets
    ensures CacheStorageOk(cs) ==> CacheStorageOk(r)
    ensures r.names == cs.names && r.buckets.Keys == cs.buckets.Keys
    ensures r.buckets[name] == cs.buckets[name][url := resp]
    ensures forall n :: n in cs.buckets && n != name ==> r.buckets[n] == cs.buckets[n]
  {
    CacheStorage(cs.names, cs.buckets[name := cs.buckets[name][url := resp]])
  }

  /** The names of `s` that are not in `d`, in their order. */
  function Without(s: seq<string>, d: set<string>): (r: seq<string>)
    ensures forall x :: x in r <==> x in s && x !in d
    ensures |r| <= |s|
  {
    if |s| == 0 then []
    else if s[0] in d then Without(s[1..], d)
    else [s[0]] + Without(s[1..], d)
  }

  lemma {:induction false} WithoutTwice(s: seq<string>, d: set<string>, n: string)
    ensures Without(Without(s, d), {n}) == Without(s, d + {n})
  {
    if |s| > 0 {
      WithoutTwice(s[1..], d, n);
      if s[0] !in d {
        assert Without(s, d) == [s[0]] + Without(s[1..], d);
        assert ([s[0]] + Without(s[1..], d))[1..] == Without(s[1..], d);
      }
    }
  }

  lemma {:induction false} WithoutNothing(s: seq<string>)
    ensures Without(s, {}) == s
  {
    if |s| > 0 {
      WithoutNothing(s[1..]);
      assert s == [s[0]] + s[1..];
    }
  }

  /** `caches.delete(name)`: the bucket and its name are gone; deleting a missing bucket
      changes nothing. */
  function DeleteBucket(cs: CacheStorage, name: string): (r: CacheStorage)
    ensures CacheStorageOk(cs) ==> CacheStorageOk(r)
    ensures name !in r.buckets
    ensures forall n :: n != name ==> (n in r.buckets <==> n in cs.buckets)
    ensures forall n :: n in r.buckets ==> r.buckets[n] == cs.buckets[n]
  {
    CacheStorage(Without(cs.names, {name}), cs.buckets - {name})
  }

  predicate HasEntry(buckets: map<string, Bucket>, n: string, url: Url)
  {
    n in buckets && url in buckets[n]
  }

  /** `caches.match(url)` over the buckets named by `names`: the entry of the first bucket,
      in creation order, that holds the URL. */
  function MatchIn(names: seq<string>, buckets: map<string, Bucket>, url: Url): (r: Option<Response>)
    ensures r.None? <==> forall i :: 0 <= i < |names| ==> !HasEntry(buckets, names[i], url)
    ensures r.Some? ==> exists i :: (0 <= i < |names| && HasEntry(buckets, names[i], url)
      && r.value == buckets[names[i]][url]
      && forall j :: 0 <= j < i ==> !HasEntry(buckets, names[j], url))
  {
    if |names| == 0 then None
    else if HasEntry(buckets, names[0], url) then Some(buckets[names[0]][url])
    else
      var r := MatchIn(names[1..], buckets, url);
      assert forall i :: 1 <= i < |names| ==> names[i] == names[1..][i - 1];
      r
  }

  function MatchAll(cs: CacheStorage, url: Url): (r: Option<Response>)
  {
    MatchIn(cs.names, cs.buckets, url)
  }

  /** When only one bucket holds the URL, `caches.match` answers with its entry. */
  lemma MatchOnly(cs: CacheStorage, name: string, url: Url)
    requires CacheStorageOk(cs) && HasEntry(cs.buckets, name, url)
    requires forall n :: n in cs.buckets && n != name ==> url !in cs.buckets[n]
    ensures MatchAll(cs, url) == Some(cs.buckets[name][url])
  {
  }

  /** Every URL of the list answered, with a 2xx response other than 206. */
  predicate AllFetched(urls: seq<Url>, network: map<Url, Response>)
  {
    forall i :: 0 <= i < |urls| ==> urls[i] in network && network[urls[i]].Storable()
  }

  function PutAll(bucket: Bucket, urls: seq<Url>, network: map<Url, Response>): (r: Bucket)
    requires forall i :: 0 <= i < |urls| ==> urls[i] in network
    decreases |urls|
    ensures r.Keys == bucket.Keys + set u | u in urls
    ensures forall u :: u in r ==> r[u] == if u in urls then network[u] else bucket[u]
  {
    if |urls| == 0 then bucket
    else
      assert forall i :: 1 <= i < |urls| ==> urls[i] == urls[1..][i - 1];
      PutAll(bucket[urls[0] := network[urls[0]]], urls[1..], network)
  }

  /** `cache.addAll(urls)`: fetch every URL; if any fetch fails, answers outside 2xx or answers
      206, the whole call rejects and the bucket is left as it was, otherwise every response is
      stored. */
  function AddAll(bucket: Bucket, urls: seq<Url>, network: map<Url, Response>): (r: Option<Bucket>)
    ensures r.Some? <==> AllFetched(urls, network)
    ensures r.Some? ==> r.value.Keys == bucket.Keys + set u | u in urls
    ensures r.Some? ==> forall u :: u in r.value ==> r.value[u] == if u in urls then network[u] else bucket[u]
  {
    if AllFetched(urls, network) then Some(PutAll(bucket, urls, network)) else None
  }

  function ShellUrls(origin: string): (r: seq<Url>)
    ensures |r| == |STATIC_ASSETS|
    ensures forall i :: 0 <= i < |r| ==> r[i] == Url(origin, STATIC_ASSETS[i], "")
  {
    seq(|STATIC_ASSETS|, i requires 0 <= i < |STATIC_ASSETS| => Url(origin, STATIC_ASSETS[i], ""))
  }

  /** A bucket of an older generation of this application. */
  predicate Stale(name: string)
  {
    StartsWith(name, CACHE_PREFIX) && name != CACHE_NAME
  }

  function StaleNames(names: seq<string>): (r: seq<string>)
    ensures forall x :: x in r <==> x in names && Stale(x)
  {
    if |names| == 0 then []
    else if Stale(names[0]) then [names[0]] + StaleNames(names[1..])
    else StaleNames(names[1..])
  }

  ghost function StaleSet(cs: CacheStorage): set<string>
  {
    set n | n in cs.buckets && Stale(n)
  }

  /** Deleting one more bucket from a storage that already lacks the buckets `gone`. */
  lemma DeleteStep(orig: CacheStorage, cs: CacheStorage, gone: set<string>, n: string)
    requires cs.buckets == orig.buckets - gone && cs.names == Without(orig.names, gone)
    ensures DeleteBucket(cs, n).buckets == orig.buckets - (gone + {n})
    ensures DeleteBucket(cs, n).names == Without(orig.names, gone + {n})
  {
    WithoutTwice(orig.names, gone, n);
  }

  function Elems(ns: seq<string>): (r: set<string>)
    ensures forall x :: x in r <==> x in ns
  {
    if ns == [] then {} else Elems(ns[..|ns| - 1]) + {ns[|ns| - 1]}
  }

  /** `caches.delete` of each name in turn. */
  function DeleteAll(cs: CacheStorage, ns: seq<string>): (r: CacheStorage)
  {
    if ns == [] then cs else DeleteBucket(DeleteAll(cs, ns[..|ns| - 1]), ns[|ns| - 1])
  }

  /** Deleting the names one by one removes exactly those buckets and names. */
  lemma {:induction false} DeleteAllRemoves(cs: CacheStorage, ns: seq<string>)
    ensures DeleteAll(cs, ns).buckets == cs.buckets - Elems(ns)
    ensures DeleteAll(cs, ns).names == Without(cs.names, Elems(ns))
  {
    if ns == [] {
      WithoutNothing(cs.names);
      assert cs.buckets - {} == cs.buckets;
    } else {
      DeleteAllRemoves(cs, ns[..|ns| - 1]);
      DeleteStep(cs, DeleteAll(cs, ns[..|ns| - 1]), Elems(ns[..|ns| - 1]), ns[|ns| - 1]);
    }
  }

  /** Once every stale name is deleted, the storage is the original minus its stale buckets. */
  lemma SweepDone(orig: CacheStorage, cs: CacheStorage, doomed: seq<string>, gone: set<string>)
    requires CacheStorageOk(orig)
    requires forall x :: x in doomed <==> x in orig.names && Stale(x)
    requires forall x :: x in gone <==> x in doomed
    requires cs.buckets == orig.buckets - gone && cs.names == Without(orig.names, gone)
    ensures CacheStorageOk(cs)
    ensures cs.buckets == orig.buckets - StaleSet(orig)
    ensures cs.names == Without(orig.names, StaleSet(orig))
  {
    assert gone == StaleSet(orig);
  }

  /** How the fetch handler treats a request. */
  datatype Route = Skip | Navigate | StaticAsset | Default

  predicate IsStaticDestination(destination: string)
  {
    destination == "script" || destination == "style" || destination == "image" || destination == "font"
  }

  /** Cross-origin and `/api/` requests are left to the browser; a navigation is recognised by
      its mode before its destination is looked at. */
  function Classify(req: Request, origin: string): (r: Route)
    ensures r == Skip <==> req.url.origin != origin || StartsWith(req.url.path, "/api/")
    ensures r == Navigate <==> r != Skip && req.mode == "navigate"
    ensures r == StaticAsset <==> r != Skip && req.mode != "navigate" && IsStaticDestination(req.destination)
  {
    if req.url.origin != origin then Skip
    else if StartsWith(req.url.path, "/api/") then Skip
    else if req.mode == "navigate" then Navigate
    else if IsStaticDestination(req.destination) then StaticAsset
    else Default
  }

  /** What the handler does with the fetch event: not respond (the browser fetches on its own),
      or respond with a response or with nothing, which the page sees as a network error. */
  datatype Answer = NotHandled | Respond(response: Option<Response>)

  class Worker {
    var caches: CacheStorage
    var skipWaitingRequested: bool
    var clientsClaimed: bool
    /** `location.origin`: the origin the worker was registered for. */
    const origin: string

    ghost predicate Valid()
      reads this
    {
      CacheStorageOk(caches)
    }

    constructor (origin: string, cs: CacheStorage)
      requires CacheStorageOk(cs)
      ensures Valid() && this.origin == origin && caches == cs
      ensures !skipWaitingRequested && !clientsClaimed
    {
      this.origin := origin;
      caches := cs;
      skipWaitingRequested := false;
      clientsClaimed := false;
    }

    /** The install handler: open the current bucket, add the whole shell at once, and only
        then ask to skip waiting. A failure is caught, so the bucket stays opened but empty of
        the shell and no skip is asked for. */
    method Install(network: map<Url, Response>)
      requires Valid()
      modifies this
      ensures Valid() && clientsClaimed == old(clientsClaimed)
      ensures CACHE_NAME in caches.buckets
      ensures var ready := OpenBucket(old(caches), CACHE_NAME);
        var added := AddAll(ready.buckets[CACHE_NAME], ShellUrls(origin), network);
        caches.names == ready.names
        && caches.buckets == ready.buckets[CACHE_NAME := if added.Some? then added.value else ready.buckets[CACHE_NAME]]
      ensures skipWaitingRequested == (old(skipWaitingRequested) || AllFetched(ShellUrls(origin), network))
      ensures AllFetched(ShellUrls(origin), network) ==>
        forall i :: 0 <= i < |STATIC_ASSETS| ==>
          caches.buckets[CACHE_NAME][Url(origin, STATIC_ASSETS[i], "")] == network[Url(origin, STATIC_ASSETS[i], "")]
      ensures !AllFetched(ShellUrls(origin), network) ==>
        caches.buckets[CACHE_NAME] == if CACHE_NAME in old(caches.buckets) then old(caches.buckets[CACHE_NAME]) else map[]
    {
      caches := OpenBucket(caches, CACHE_NAME);
      var urls := ShellUrls(origin);
      var added := AddAll(caches.buckets[CACHE_NAME], urls, network);
      if added.Some? {
        caches := CacheStorage(caches.names, caches.buckets[CACHE_NAME := added.value]);
        assert forall i :: 0 <= i < |STATIC_ASSETS| ==> urls[i] in urls;
        skipWaitingRequested := true;
      }
    }

    /** The deletions of the activate handler (`cacheNames.filter(...).map(caches.delete)`),
        taken one at a time in the order `caches.keys()` lists the names. */
    method DeleteStale()
      modifies this
      ensures caches == DeleteAll(old(caches), StaleNames(old(caches).names))
      ensures skipWaitingRequested == old(skipWaitingRequested) && clientsClaimed == old(clientsClaimed)
    {
      var orig := caches;
      var doomed := StaleNames(orig.names);
      var i := 0;
      while i < |doomed|
        invariant 0 <= i <= |doomed|
        invariant skipWaitingRequested == old(skipWaitingRequested) && clientsClaimed == old(clientsClaimed)
        invariant caches == DeleteAll(orig, doomed[..i])
      {
        assert doomed[..i + 1][..i] == doomed[..i];
        caches := DeleteBucket(caches, doomed[i]);
        i := i + 1;
      }
      assert doomed[..i] == doomed;
    }

    /** The activate handler: delete every bucket of an older generation, then claim the
        open pages. The current bucket and buckets of other applications stay. */
    method Activate()
      requires Valid()
      modifies this
      ensures Valid() && skipWaitingRequested == old(skipWaitingRequested)
      ensures clientsClaimed
      ensures caches.buckets == old(caches.buckets) - StaleSet(old(caches))
      ensures caches.names == Without(old(caches.names), StaleSet(old(caches)))
    {
      ghost var orig := caches;
      DeleteStale();
      DeleteAllRemoves(orig, StaleNames(orig.names));
      SweepDone(orig, caches, StaleNames(orig.names), Elems(StaleNames(orig.names)));
      clientsClaimed := true;
    }

    /** The fetch handler, with `network` the outcome of `fetch(request)`. */
    method HandleFetch(req: Request, network: Option<Response>) returns (a: Answer)
      requires Valid()
      modifies this
      ensures Valid()
      ensures skipWaitingRequested == old(skipWaitingRequested) && clientsClaimed == old(clientsClaimed)
      ensures Classify(req, origin) == Skip ==> a == NotHandled && caches == old(caches)
      ensures Classify(req, origin) == Navigate ==>
        if network.Some? then
          a == Respond(network) && caches == PutEntry(OpenBucket(old(caches), CACHE_NAME), CACHE_NAME, req.url, network.value)
        else
          caches == old(caches)
          && a == Respond(if MatchAll(old(caches), req.url).Some? then MatchAll(old(caches), req.url)
                          else MatchAll(old(caches), Url(origin, "/", "")))
      ensures Classify(req, origin) == StaticAsset ==>
        var ready := OpenBucket(old(caches), CACHE_NAME);
        var cached := if req.url in ready.buckets[CACHE_NAME] then Some(ready.buckets[CACHE_NAME][req.url]) else None;
        a == Respond(if cached.Some? then cached else network)
        && caches == if network.Some? then PutEntry(ready, CACHE_NAME, req.url, network.value) else ready
      ensures Classify(req, origin) == Default ==>
        if network.Some? then
          a == Respond(network) && caches == PutEntry(OpenBucket(old(caches), CACHE_NAME), CACHE_NAME, req.url, network.value)
        else
          caches == old(caches) && a == Respond(MatchAll(old(caches), req.url))
    {
      var route := Classify(req, origin);
      match route
      case Skip =>
        a := NotHandled;
      case Navigate =>
        if network.Some? {
          caches := OpenBucket(caches, CACHE_NAME);
          caches := PutEntry(caches, CACHE_NAME, req.url, network.value);
          a := Respond(network);
        } else {
          var cached := MatchAll(caches, req.url);
          if cached.Some? {
            a := Respond(cached);
          } else {
            a := Respond(MatchAll(caches, Url(origin, "/", "")));
          }
        }
      case StaticAsset =>
        caches := OpenBucket(caches, CACHE_NAME);
        var bucket := caches.buckets[CACHE_NAME];
        var cached := if req.url in bucket then Some(bucket[req.url]) else None;
        if network.Some? {
          caches := PutEntry(caches, CACHE_NAME, req.url, network.value);
        }
        a := Respond(if cached.Some? then cached else network);
      case Default =>
        if network.Some? {
          caches := OpenBucket(caches, CACHE_NAME);
          caches := PutEntry(caches, CACHE_NAME, req.url, network.value);
          a := Respond(network);
        } else {
          a := Respond(MatchAll(caches, req.url));
        }
    }

    /** The message handler: only a message whose `type` is `SKIP_WAITING` asks to skip
        waiting. `msgType` is the message's `type`, absent when the message has no data. */
    method HandleMessage(msgType: Option<string>)
      modifies this
      ensures caches == old(caches) && clientsClaimed == old(clientsClaimed)
      ensures skipWaitingRequested == (old(skipWaitingRequested) || msgType == Some("SKIP_WAITING"))
    {
      if msgType == Some("SKIP_WAITING") {
        skipWaitingRequested := true;
      }
    }
  }

  lemma ShellOutsideApi()
    ensures forall i :: 0 <= i < |STATIC_ASSETS| ==> !StartsWith(STATIC_ASSETS[i], "/api/")
  {
    forall i | 0 <= i < |STATIC_ASSETS|
      ensures !StartsWith(STATIC_ASSETS[i], "/api/")
    {
      var p := STATIC_ASSETS[i];
      assert |p| < 2 || p[1] != 'a';
      if |p| >= 5 {
        assert p[..5][1] == p[1];
      }
    }
  }

  /** The activation sweep leaves exactly the buckets that are not an older generation, the
      current one among them, each with its entries; so no older generation can answer a
      later `caches.match`. */
  lemma SweepKeeps(cs: CacheStorage, url: Url)
    requires CacheStorageOk(cs)
    ensures var kept := cs.buckets - StaleSet(cs);
      (forall n :: n in kept <==> n in cs.buckets && !Stale(n))
      && (CACHE_NAME in cs.buckets ==> CACHE_NAME in kept)
      && (forall n :: n in kept ==> kept[n] == cs.buckets[n])
    ensures var swept := CacheStorage(Without(cs.names, StaleSet(cs)), cs.buckets - StaleSet(cs));
      CacheStorageOk(swept)
      && (MatchAll(swept, url).Some? ==>
            exists n :: n in swept.buckets && !Stale(n) && url in cs.buckets[n]
                        && MatchAll(swept, url) == Some(cs.buckets[n][url]))
  {
  }

  /** After a complete install and activation on a device with no caches, every shell page
      keeps loading without network. */
  method OfflineShellPage(origin: string, network: map<Url, Response>, k: nat)
    returns (a: Answer)
    requires AllFetched(ShellUrls(origin), network)
    requires k < |STATIC_ASSETS|
    ensures a == Respond(Some(network[Url(origin, STATIC_ASSETS[k], "")]))
  {
    var w := new Worker(origin, NO_CACHES);
    w.Install(network);
    var installed := w.caches;
    assert installed.buckets.Keys == {CACHE_NAME};
    assert StaleSet(installed) == {};
    w.Activate();
    WithoutNothing(installed.names);
    assert w.caches == installed;
    var url := Url(origin, STATIC_ASSETS[k], "");
    assert w.caches.buckets[CACHE_NAME][url] == network[url];
    MatchOnly(w.caches, CACHE_NAME, url);
    ShellOutsideApi();
    var req := Request(url, "navigate", "document");
    assert Classify(req, origin) == Navigate;
    a := w.HandleFetch(req, None);
  }

  /** Offline, a page outside the shell falls back to the cached root page. */
  method OfflineOtherPage(origin: string, network: map<Url, Response>, path: string)
    returns (a: Answer)
    requires AllFetched(ShellUrls(origin), network)
    requires path !in STATIC_ASSETS && !StartsWith(path, "/api/")
    ensures Url(origin, "/", "") in network && a == Respond(Some(network[Url(origin, "/", "")]))
  {
    var w := new Worker(origin, NO_CACHES);
    w.Install(network);
    var installed := w.caches;
    assert installed.buckets.Keys == {CACHE_NAME};
    assert StaleSet(installed) == {};
    w.Activate();
    WithoutNothing(installed.names);
    assert w.caches == installed;
    var url := Url(origin, path, "");
    assert url !in ShellUrls(origin);
    assert MatchAll(w.caches, url) == None;
    var root := Url(origin, "/", "");
    assert ShellUrls(origin)[0] == root;
    MatchOnly(w.caches, CACHE_NAME, root);
    a := w.HandleFetch(Request(url, "navigate", "document"), None);
  }

  /** When one shell resource cannot be fetched, the install asks for no skip and leaves the
      current bucket empty, so an offline load finds nothing. */
  method FailedInstallOffline(origin: string, network: map<Url, Response>)
    returns (skipWaiting: bool, a: Answer)
    requires !AllFetched(ShellUrls(origin), network)
    ensures !skipWaiting && a == Respond(None)
  {
    var w := new Worker(origin, NO_CACHES);
    w.Install(network);
    skipWaiting := w.skipWaitingRequested;
    assert w.caches.names == [CACHE_NAME];
    a := w.HandleFetch(Request(Url(origin, "/", ""), "navigate", "document"), None);
  }

  /** A shell served only as partial (206) responses cannot be installed: no skip is asked for
      and an offline navigation finds nothing. */
  method PartialShellOffline(origin: string, body: string) returns (skipWaiting: bool, a: Answer)
    ensures !skipWaiting && a == Respond(None)
  {
    var network := map u | u in ShellUrls(origin) :: Response(206, body);
    var root := ShellUrls(origin)[0];
    assert root in network && !network[root].Storable();
    skipWaiting, a := FailedInstallOffline(origin, network);
  }
}
