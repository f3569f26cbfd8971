/** The service worker of sw.js: which requests it leaves to the browser,
    the network-first answer with the cache as fallback, and the cleanup of
    old caches on activation. The network and the cache lookup are
    parameters; the cache storage is the list of its cache names. */
module ServiceWorker {

  import opened Outcomes
  import opened Seqs
  import opened JsStrings

  const CacheName := "global-chat-v1"

  /** A request's URL and its HTTP method. */
  datatype Request = Request(url: string, verb: string)

  /** A response, by its body. */
  datatype Response = Response(body: string)

  /** What the `fetch` listener does: nothing (the browser handles the
      request), or answer with a response or with `undefined`. */
  datatype FetchDecision = PassThrough | Respond(response: Option<Response>)

  /** API calls, Socket.IO traffic and every non-GET request bypass the worker. */
  function Bypass(req: Request): (r: bool)
    ensures r <==> (exists i: nat :: OccursAt(req.url, "/api/", i)) ||
                   (exists i: nat :: OccursAt(req.url, "socket.io", i)) ||
                   req.verb != "GET"
  {
    Includes(req.url, "/api/") || Includes(req.url, "socket.io") || req.verb != "GET"
  }

  /** The `fetch` listener: the network's response when it answers, and the
      cache's match (possibly none) only when the network fails. */
  function HandleFetch(req: Request, network: Outcome<Response>, cached: Option<Response>): (d: FetchDecision)
    ensures d.PassThrough? <==> Bypass(req)
    ensures !Bypass(req) && network.Ok? ==> d == Respond(Some(network.value))
    ensures !Bypass(req) && network.Err? ==> d == Respond(cached)
  {
    if Bypass(req) then PassThrough
    else if network.Ok? then Respond(Some(network.value))
    else Respond(cached)
  }

  /** The cache is never consulted while the network answers. */
  lemma CacheUnusedOnline(req: Request, network: Outcome<Response>, a: Option<Response>, b: Option<Response>)
    requires network.Ok?
    ensures HandleFetch(req, network, a) == HandleFetch(req, network, b)
  {
  }

  /** A URL with `/api/` anywhere in it is left to the browser, whatever
      the method. */
  lemma ApiBypasses(prefix: string, suffix: string, verb: string)
    ensures Bypass(Request(prefix + "/api/" + suffix, verb))
  {
    var url := prefix + "/api/" + suffix;
    assert url[|prefix|..|prefix| + 5] == "/api/";
    assert OccursAt(url, "/api/", |prefix|);
  }

  /** The caches the activate handler deletes: every one not named `CacheName`. */
  function CachesToDelete(names: seq<string>): (r: seq<string>)
    ensures forall n :: n in r <==> n in names && n != CacheName
  {
    RemoveAll(names, Itself, CacheName)
  }

  /** The current cache is never deleted. */
  lemma CurrentCacheKept(names: seq<string>)
    ensures CacheName !in CachesToDelete(names)
  {
  }

  class Worker {
    /** The cache storage's cache names, in creation order. */
    var cacheNames: seq<string>
    /** The caches deleted, oldest first. */
    var deleted: seq<string>

    constructor (names: seq<string>)
      ensures cacheNames == names && deleted == []
    {
      cacheNames, deleted := names, [];
    }

    /** `install`: `caches.open(CACHE_NAME)` creates the cache if needed. */
    method Install()
      modifies this
      ensures CacheName in cacheNames
      ensures cacheNames == (if CacheName in old(cacheNames) then old(cacheNames) else old(cacheNames) + [CacheName])
      ensures deleted == old(deleted)
    {
      if CacheName !in cacheNames {
        cacheNames := cacheNames + [CacheName];
      }
    }

    /** `activate`: every other cache is deleted; only `CacheName` survives,
        if it was there. */
    method Activate()
      modifies this
      ensures deleted == old(deleted) + CachesToDelete(old(cacheNames))
      ensures forall n :: n in cacheNames <==> n in old(cacheNames) && n == CacheName
    {
      var doomed := CachesToDelete(cacheNames);
      deleted := deleted + doomed;
      cacheNames := Select(cacheNames, Itself, CacheName);
    }
  }
}
