/** The site's service worker: it precaches the static assets under one named
    cache, drops every other cache on activation, and answers GET requests from
    the caches while refreshing the current cache from the network. The browser's
    cache storage is a class; network answers are parameters. */
module ServiceWorker {
  import opened Text

  const CacheName := "folneb-v1"

  const PrecacheUrls: seq<string> := [
    "/",
    "index.html",
    "home.html",
    "converter.html",
    "main.css",
    "main.js",
    "converter.js",
    "src/assets/images/FOLNEB-horizontal.png",
    "src/assets/images/FOLNEB-logo.png",
    "src/assets/images/FOLNEB-logo-transparent.png",
    "src/assets/images/FOLNEB-story.png",
    "src/js/lib/pdf.min.js",
    "src/js/lib/pdf.worker.min.js",
    "src/js/lib/html2canvas.min.js",
    "src/js/lib/pdf-lib.min.js",
    "src/js/lib/jspdf.umd.min.js",
    "src/js/lib/mammoth.min.js",
    "src/js/lib/xlsx.full.min.js",
    "src/js/lib/tesseract.min.js",
    "src/js/lib/jszip.min.js"
  ]

  datatype Request = Request(verb: string, url: string)

  datatype Response = Response(status: nat, body: seq<Byte>)

  /** One cache: responses by request URL. */
  type Cache = map<string, Response>

  /** `Response.ok`: a status in 200..299. */
  predicate IsOk(r: Response) {
    200 <= r.status <= 299
  }

  /** The names `activate` deletes: every name other than the current cache's, in order. */
  function StaleCacheNames(names: seq<string>): (r: seq<string>)
    ensures forall n :: n in r <==> n in names && n != CacheName
    ensures |r| <= |names|
  {
    if names == [] then []
    else (if names[0] == CacheName then [] else [names[0]]) + StaleCacheNames(names[1..])
  }

  /** `caches.match`: the response of the first cache, in creation order, that holds the URL. */
  function Match(names: seq<string>, caches: map<string, Cache>, url: string): (r: Option<Response>)
    ensures r.Some? <==> exists i :: 0 <= i < |names| && names[i] in caches && url in caches[names[i]]
    ensures r.Some? ==>
      exists i :: 0 <= i < |names| && names[i] in caches && url in caches[names[i]] && r.value == caches[names[i]][url]
        && forall j :: 0 <= j < i ==> !(names[j] in caches && url in caches[names[j]])
  {
    if names == [] then None
    else if names[0] in caches && url in caches[names[0]] then Some(caches[names[0]][url])
    else
      var rest := Match(names[1..], caches, url);
      assert forall i :: 1 <= i < |names| ==> names[i] == names[1..][i - 1];
      if rest.Some? then
        var i :| 0 <= i < |names[1..]| && names[1..][i] in caches && url in caches[names[1..][i]]
          && rest.value == caches[names[1..][i]][url]
          && forall j :: 0 <= j < i ==> !(names[1..][j] in caches && url in caches[names[1..][j]]);
        assert names[i + 1] in caches && url in caches[names[i + 1]] && rest.value == caches[names[i + 1]][url];
        assert forall j :: 0 <= j < i + 1 ==> !(names[j] in caches && url in caches[names[j]]);
        rest
      else rest
  }

  /** Once only the current cache is left, a match is that cache's entry. */
  lemma MatchAfterActivation(caches: map<string, Cache>, url: string)
    requires CacheName in caches
    ensures Match([CacheName], caches, url) == if url in caches[CacheName] then Some(caches[CacheName][url]) else None
  {
  }

  /** A response `addAll` accepts: ok, and not a partial `206`. */
  predicate Cacheable(r: Response) {
    IsOk(r) && r.status != 206
  }

  /** The addAll of the precache list succeeds exactly when every URL answers with
      a cacheable response and no URL is requested twice; then these are the
      entries it writes. */
  function PrecacheEntries(urls: seq<string>, network: string -> Option<Response>): (r: Option<Cache>)
    ensures r.Some? <==>
      (forall i :: 0 <= i < |urls| ==> network(urls[i]).Some? && Cacheable(network(urls[i]).value))
        && forall i, j :: 0 <= i < j < |urls| ==> urls[i] != urls[j]
    ensures r.Some? ==> forall u :: u in r.value <==> u in urls
    ensures r.Some? ==> forall u :: u in r.value ==> r.value[u] == network(u).value
  {
    if urls == [] then Some(map[])
    else
      var n := |urls| - 1;
      var last := urls[n];
      var init := PrecacheEntries(urls[..n], network);
      assert urls == urls[..n] + [last];
      assert forall i :: 0 <= i < n ==> urls[..n][i] == urls[i];
      if init.None? || network(last).None? || !Cacheable(network(last).value) then None
      else if last in init.value then
        assert last in urls[..n];
        None
      else Some(init.value[last := network(last).value])
  }

  /** No URL is listed twice for precaching. */
  lemma PrecacheUrlsDistinct()
    ensures forall i, j :: 0 <= i < j < |PrecacheUrls| ==> PrecacheUrls[i] != PrecacheUrls[j]
  {
  }

  /** So installing fails only when some precache URL answers with no
      cacheable response. */
  lemma PrecacheFailsOnlyOnBadAnswer(network: string -> Option<Response>)
    ensures PrecacheEntries(PrecacheUrls, network).Some? <==>
      forall i :: 0 <= i < |PrecacheUrls| ==>
        network(PrecacheUrls[i]).Some? && Cacheable(network(PrecacheUrls[i]).value)
  {
    PrecacheUrlsDistinct();
  }

  /** The cache names after `caches.open(CacheName)`: a missing current cache is
      created after the others. */
  function OpenedNames(names: seq<string>, caches: map<string, Cache>): seq<string> {
    if CacheName in caches then names else names + [CacheName]
  }

  /** Every cache other than the current one is as it was. */
  ghost predicate OthersUnchanged(before: map<string, Cache>, after: map<string, Cache>) {
    forall n :: n != CacheName ==> (n in after <==> n in before) && (n in after ==> after[n] == before[n])
  }

  /** The current cache's entries; none when it does not exist yet. */
  function Current(caches: map<string, Cache>): Cache {
    if CacheName in caches then caches[CacheName] else map[]
  }

  /** The browser's cache storage: cache names in creation order and the caches by name. */
  class CacheStorage {
    var names: seq<string>
    var caches: map<string, Cache>

    ghost predicate Valid()
      reads this
    {
      (forall n :: n in caches <==> n in names) && Distinct(names)
    }

    constructor ()
      ensures Valid() && names == [] && caches == map[]
    {
      names := [];
      caches := map[];
    }

    /** `caches.open(name)`: an existing cache is kept, a new one is created last. */
    method Open(name: string)
      requires Valid()
      modifies this
      ensures Valid()
      ensures name in old(caches) ==> names == old(names) && caches == old(caches)
      ensures name !in old(caches) ==> names == old(names) + [name] && caches == old(caches)[name := map[]]
    {
      if name !in caches {
        DistinctSnoc(names, name);
        names := names + [name];
        caches := caches[name := map[]];
      }
    }

    /** `cache.put(url, response)` on an open cache. */
    method Put(name: string, url: string, response: Response)
      requires Valid() && name in caches
      modifies this
      ensures Valid() && names == old(names)
      ensures caches == old(caches)[name := old(caches)[name][url := response]]
    {
      caches := caches[name := caches[name][url := response]];
    }

    /** `cache.addAll(...)` once every response is in: all entries at once. */
    method PutAll(name: string, entries: Cache)
      requires Valid() && name in caches
      modifies this
      ensures Valid() && names == old(names)
      ensures caches == old(caches)[name := old(caches)[name] + entries]
    {
      caches := caches[name := caches[name] + entries];
    }

    /** `caches.delete(name)`. */
    method Delete(name: string)
      requires Valid()
      modifies this
      ensures Valid()
      ensures names == Without(old(names), name)
      ensures caches == old(caches) - {name}
    {
      WithoutKeepsOthers(names, name);
      names := Without(names, name);
      caches := caches - {name};
    }
  }

  /** `names` without `name`, order kept. */
  function Without(names: seq<string>, name: string): seq<string> {
    if names == [] then []
    else (if names[0] == name then [] else [names[0]]) + Without(names[1..], name)
  }

  /** No name occurs twice. */
  ghost predicate Distinct(names: seq<string>) {
    names == [] || (names[0] !in names[1..] && Distinct(names[1..]))
  }

  lemma {:induction false} DistinctSnoc(names: seq<string>, name: string)
    requires Distinct(names) && name !in names
    ensures Distinct(names + [name])
  {
    if names != [] {
      assert (names + [name])[1..] == names[1..] + [name];
      DistinctSnoc(names[1..], name);
    }
  }

  lemma {:induction false} WithoutKeepsOthers(names: seq<string>, name: string)
    requires Distinct(names)
    ensures forall n :: n in Without(names, name) <==> n in names && n != name
    ensures Distinct(Without(names, name))
  {
    if names != [] {
      var rest := Without(names[1..], name);
      WithoutKeepsOthers(names[1..], name);
      if names[0] != name {
        assert Without(names, name) == [names[0]] + rest;
        assert ([names[0]] + rest)[1..] == rest;
      } else {
        assert Without(names, name) == rest;
      }
    }
  }

  /** `install`: open the current cache and add the whole precache list at once.
      The add is all or nothing; the cache itself is created either way. */
  method Install(storage: CacheStorage, network: string -> Option<Response>) returns (installed: bool)
    requires storage.Valid()
    modifies storage
    ensures storage.Valid()
    ensures installed <==> PrecacheEntries(PrecacheUrls, network).Some?
    ensures storage.names == OpenedNames(old(storage.names), old(storage.caches))
    ensures CacheName in storage.caches
    ensures OthersUnchanged(old(storage.caches), storage.caches)
    ensures installed ==>
      storage.caches[CacheName] == Current(old(storage.caches)) + PrecacheEntries(PrecacheUrls, network).value
    ensures !installed ==> storage.caches[CacheName] == Current(old(storage.caches))
  {
    installed := Precache(storage, PrecacheUrls, network);
  }

  /** The body of `install` for any list of URLs. */
  method Precache(storage: CacheStorage, urls: seq<string>, network: string -> Option<Response>)
    returns (installed: bool)
    requires storage.Valid()
    modifies storage
    ensures storage.Valid()
    ensures installed <==> PrecacheEntries(urls, network).Some?
    ensures storage.names == OpenedNames(old(storage.names), old(storage.caches))
    ensures CacheName in storage.caches
    ensures OthersUnchanged(old(storage.caches), storage.caches)
    ensures installed ==>
      storage.caches[CacheName] == Current(old(storage.caches)) + PrecacheEntries(urls, network).value
    ensures !installed ==> storage.caches[CacheName] == Current(old(storage.caches))
  {
    storage.Open(CacheName);
    var entries := PrecacheEntries(urls, network);
    if entries.None? {
      return false;
    }
    storage.PutAll(CacheName, entries.value);
    installed := true;
  }

  /** `activate`: delete every cache but the current one. */
  method Activate(storage: CacheStorage)
    requires storage.Valid()
    modifies storage
    ensures storage.Valid()
    ensures storage.caches == if CacheName in old(storage.caches)
      then map[CacheName := old(storage.caches)[CacheName]] else map[]
    ensures storage.names == if CacheName in old(storage.caches) then [CacheName] else []
  {
    var stale := StaleCacheNames(storage.names);
    ghost var start := storage.caches;
    for i := 0 to |stale|
      invariant storage.Valid()
      invariant forall n :: n in storage.caches <==> n in start && n !in stale[..i]
      invariant forall n :: n in storage.caches ==> storage.caches[n] == start[n]
    {
      storage.Delete(stale[i]);
      assert stale[..i + 1] == stale[..i] + [stale[i]];
    }
    assert stale[..|stale|] == stale;
    OnlyCurrentLeft(storage.names);
  }

  lemma OnlyCurrentLeft(names: seq<string>)
    requires Distinct(names)
    requires forall n :: n in names ==> n == CacheName
    ensures names == if CacheName in names then [CacheName] else []
  {
    if names != [] {
      assert names[0] in names;
      var rest := names[1..];
      assert forall n :: n in rest ==> n in names;
      assert forall n :: n !in rest;
      assert rest == [];
      assert names == [names[0]] + rest;
    }
  }

  /** `fetch` for a GET: the answer is the first cached response if there is one,
      otherwise the network's. The network is asked either way; once it answers,
      the current cache is opened and any response except a partial one (206) is
      written to it. When the network fails the caches are left alone. A request
      that is not a GET is left to the browser (`handled` is false). */
  method OnFetch(storage: CacheStorage, req: Request, network: Option<Response>)
    returns (handled: bool, answer: Option<Response>)
    requires storage.Valid()
    modifies storage
    ensures storage.Valid()
    ensures handled <==> req.verb == "GET"
    ensures !handled ==> storage.names == old(storage.names) && storage.caches == old(storage.caches) && answer.None?
    ensures handled ==> answer == match Match(old(storage.names), old(storage.caches), req.url)
      case Some(cached) => Some(cached)
      case None => network
    ensures handled && network.None? ==> storage.names == old(storage.names) && storage.caches == old(storage.caches)
    ensures handled && network.Some? ==>
      && storage.names == OpenedNames(old(storage.names), old(storage.caches))
      && CacheName in storage.caches
      && OthersUnchanged(old(storage.caches), storage.caches)
      && storage.caches[CacheName] == if network.value.status == 206 then Current(old(storage.caches))
                                       else Current(old(storage.caches))[req.url := network.value]
  {
    if req.verb != "GET" {
      return false, None;
    }
    handled := true;
    var cached := Match(storage.names, storage.caches, req.url);
    answer := if cached.Some? then cached else network;
    if network.Some? {
      Refresh(storage, req.url, network.value);
    }
  }

  /** The `then` of the network request: open the current cache and write the
      response to it, unless it is partial (206), which `put` refuses. */
  method Refresh(storage: CacheStorage, url: string, response: Response)
    requires storage.Valid()
    modifies storage
    ensures storage.Valid()
    ensures storage.names == OpenedNames(old(storage.names), old(storage.caches))
    ensures CacheName in storage.caches
    ensures OthersUnchanged(old(storage.caches), storage.caches)
    ensures storage.caches[CacheName] == if response.status == 206 then Current(old(storage.caches))
                                         else Current(old(storage.caches))[url := response]
  {
    storage.Open(CacheName);
    if response.status != 206 {
      storage.Put(CacheName, url, response);
    }
  }

  /** After activation, a GET answered from the network is served from the cache
      on the next request, whatever the network then says. */
  lemma RefreshedEntryServedNext(caches: map<string, Cache>, url: string, latest: Response)
    requires CacheName in caches && latest.status != 206
    ensures Match([CacheName], caches[CacheName := caches[CacheName][url := latest]], url) == Some(latest)
  {
  }
}
