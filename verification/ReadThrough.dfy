/** The web connector over the shared cache: look up, else ask SearXNG and store what came
    back, degraded answers for a shorter time. */
module ReadThrough {
  import opened Options
  import opened CacheLog
  import opened SearchTypes
  import Cache

  const DEGRADED_TTL: int := 30_000_000_000
  const WEB_SOURCES: seq<string> := ["searxng"]
  const DEFAULT_LIMIT := 10

  /** The key material, taken as collision-free: sources and the request with its query
      trimmed and its limit made effective. */
  datatype Key = Key(sources: seq<string>, request: Request)

  function SearchKey(query: string, sources: seq<string>, req: Request, limit: int): Key {
    Key(sources, req.(query := query, maxResults := limit))
  }

  function WebKey(req: Request): Key {
    SearchKey(TrimSpace(req.query), WEB_SOURCES, req, MaxResults(req.maxResults, DEFAULT_LIMIT))
  }

  /** How many results a request is good for: what it asks for from 1 to 100, ten when it
      asks for none, a hundred when it asks for more. */
  function GoodFor(req: Request): (n: int)
    ensures 1 <= n <= 100
  {
    if req.maxResults <= 0 then 10 else if req.maxResults > 100 then 100 else req.maxResults
  }

  /** Two requests share a cache entry exactly when they agree on everything but the padding
      of the query and the spelling of the limit. */
  lemma SameKeyIff(a: Request, b: Request)
    ensures WebKey(a) == WebKey(b) <==>
              && TrimSpace(a.query) == TrimSpace(b.query)
              && GoodFor(a) == GoodFor(b)
              && a.(query := b.query, maxResults := b.maxResults) == b
  {
    if WebKey(a) == WebKey(b) {
      var ka, kb := WebKey(a).request, WebKey(b).request;
      assert ka.query == kb.query && ka.maxResults == kb.maxResults;
      assert ka.sources == kb.sources && ka.language == kb.language && ka.filters == kb.filters;
      assert ka.safeSearch == kb.safeSearch && ka.timeRange == kb.timeRange && ka.format == kb.format;
      assert ka.cachePolicy == kb.cachePolicy && ka.deepResearch == kb.deepResearch;
    }
  }

  // ---- the upstream ----------------------------------------------------------------------

  datatype Hit = Hit(title: string, url: string, content: string, engine: string, domain: string)

  /** What SearXNG does with one query: fail outright, or answer, perhaps naming engines that
      did not respond. */
  datatype Upstream = Fails(reason: string) | Answers(hits: seq<Hit>, unresponsive: seq<string>)

  datatype SearchError = Unresponsive(text: string) | Failed(text: string)

  function ItemFor(h: Hit, limit: int, i: int): Item {
    Item(h.title, h.url, h.content, "searxng", h.engine, "web", limit - i, "web:" + h.domain, "")
  }

  const UNCONFIGURED := Item("SearxNG not configured", "",
    "Web search requires SearxNG to be configured. Set --searxng-url flag.",
    "searxng", "", "web", 0, "searxng:unconfigured", "")

  /** An item shows a hit, with a score. */
  predicate Shows(item: Item, h: Hit, score: int) {
    && item.title == h.title && item.url == h.url && item.snippet == h.content && item.engine == h.engine
    && item.source == "searxng" && item.kind == "web" && item.citationId == "web:" + h.domain && item.score == score
  }

  /** The first `limit` hits in upstream order, scored limit, limit-1, and so on. */
  predicate FirstHits(hits: seq<Hit>, limit: int, results: seq<Item>)
    requires limit >= 1
  {
    && |results| == (if |hits| < limit then |hits| else limit)
    && forall i :: 0 <= i < |results| ==> Shows(results[i], hits[i], limit - i)
  }

  method CollectHits(hits: seq<Hit>, limit: int) returns (results: seq<Item>)
    requires limit >= 1
    ensures FirstHits(hits, limit, results)
    ensures forall i :: 0 <= i < |results| ==> results[i].score >= 1
    ensures forall i, j :: 0 <= i < j < |results| ==> results[i].score > results[j].score
  {
    results := [];
    var i := 0;
    while i < |hits|
      invariant 0 <= i <= |hits| && i <= limit && |results| == i
      invariant forall j :: 0 <= j < i ==> Shows(results[j], hits[j], limit - j)
    {
      if i >= limit {
        break;
      }
      results := results + [ItemFor(hits[i], limit, i)];
      i := i + 1;
    }
  }

  method SearchSearxng(up: Upstream, limit: int) returns (results: seq<Item>, err: Option<SearchError>)
    requires limit >= 1
    ensures |results| <= limit
    ensures err.None? <==> up.Answers? && up.unresponsive == []
    ensures up.Fails? ==> results == [] && err == Some(Failed(up.reason))
    ensures up.Answers? ==> FirstHits(up.hits, limit, results)
    ensures err.Some? && up.Answers? ==> err.value.Unresponsive?
  {
    match up
    case Fails(reason) =>
      results, err := [], Some(Failed(reason));
    case Answers(hits, unresponsive) =>
      results := CollectHits(hits, limit);
      err := if unresponsive == [] then None else Some(Unresponsive(Join(unresponsive, ", ")));
  }

  // ---- what the cache holds for this connector -------------------------------------------

  /** An entry some web search stored under `k`. */
  predicate WebEntry(k: Key, e: Entry<Response>, ttl: int) {
    && !e.value.cached
    && |e.value.results| <= k.request.maxResults
    && TrimSpace(e.value.query) == k.request.query
    && e.expires - e.created <= ttl
    && (e.value.partial ==> e.expires - e.created <= DEGRADED_TTL)
  }

  /** A cache may keep a degraded answer for at most thirty seconds. */
  function Lifetime(ttl: int, partial: bool): int {
    if partial && DEGRADED_TTL < ttl then DEGRADED_TTL else ttl
  }

  /** What storing a response at a time writes to the log. */
  function Store(req: Request, resp: Response, storeTime: int, ttl: int): Event<Key, Response> {
    Stored(WebKey(req), Entry(resp, storeTime, storeTime + Lifetime(ttl, resp.partial), resp.sourcesUsed))
  }

  ghost predicate OnlySweeps(before: seq<Event<Key, Response>>, after: seq<Event<Key, Response>>) {
    before <= after && forall i :: |before| <= i < |after| ==> after[i].Swept?
  }

  /** The lookup that begins a search: a hit is the last response stored for the key, still
      live, marked cached; either way nothing but sweeps is done. */
  ghost predicate LookStep(before: seq<Event<Key, Response>>, after: seq<Event<Key, Response>>,
                           req: Request, hit: Option<Response>, readTime: int)
  {
    var last := LastSet(before, WebKey(req));
    && OnlySweeps(before, after)
    && hit == if last.Some? && LiveAt(last.value, readTime) then Some(last.value.value.(cached := true)) else None
  }

  /** The end of a search that missed: a fresh response within the request's limit is stored,
      after nothing but sweeps. */
  ghost predicate AnswerStep(before: seq<Event<Key, Response>>, after: seq<Event<Key, Response>>,
                             req: Request, resp: Response, storeTime: int, ttl: int)
  {
    && !resp.cached && resp.query == req.query
    && |resp.results| <= GoodFor(req)
    && |after| > 0 && OnlySweeps(before, after[..|after| - 1])
    && after[|after| - 1] == Store(req, resp, storeTime, ttl)
  }

  /** A search nobody comes between: its lookup and, after a miss, its answer. */
  ghost predicate WebStep(before: seq<Event<Key, Response>>, mid: seq<Event<Key, Response>>,
                          after: seq<Event<Key, Response>>, req: Request, resp: Response,
                          readTime: int, storeTime: int, ttl: int)
  {
    if resp.cached then LookStep(before, after, req, Some(resp), readTime) && mid == after
    else LookStep(before, mid, req, None, readTime) && AnswerStep(mid, after, req, resp, storeTime, ttl)
  }

  /** What other users of the cache do: anything but store under a web key, since every other
      connector names itself among its key's sources. */
  ghost predicate OthersStep(before: seq<Event<Key, Response>>, after: seq<Event<Key, Response>>) {
    before <= after &&
    forall i :: |before| <= i < |after| ==> !(after[i].Stored? && after[i].key.sources == WEB_SOURCES)
  }

  ghost predicate WebLog(log: seq<Event<Key, Response>>, ttl: int) {
    forall i :: 0 <= i < |log| && log[i].Stored? && log[i].key.sources == WEB_SOURCES ==>
                  WebEntry(log[i].key, log[i].entry, ttl)
  }

  lemma OthersKeepWebLog(before: seq<Event<Key, Response>>, after: seq<Event<Key, Response>>, ttl: int)
    requires WebLog(before, ttl) && OthersStep(before, after)
    ensures WebLog(after, ttl)
  {
    forall i | 0 <= i < |after| && after[i].Stored? && after[i].key.sources == WEB_SOURCES
      ensures WebEntry(after[i].key, after[i].entry, ttl)
    {
      assert i < |before| && after[i] == before[i];
    }
  }

  lemma LookupsKeepWebLog(before: seq<Event<Key, Response>>, after: seq<Event<Key, Response>>, ttl: int)
    requires WebLog(before, ttl) && OnlySweeps(before, after)
    ensures WebLog(after, ttl)
  {
    OthersKeepWebLog(before, after, ttl);
  }

  lemma AnswersKeepWebLog(before: seq<Event<Key, Response>>, after: seq<Event<Key, Response>>,
                          req: Request, resp: Response, storeTime: int, ttl: int)
    requires WebLog(before, ttl) && AnswerStep(before, after, req, resp, storeTime, ttl)
    ensures WebLog(after, ttl)
  {
    var swept := after[..|after| - 1];
    OthersKeepWebLog(before, swept, ttl);
    forall i | 0 <= i < |after| && after[i].Stored? && after[i].key.sources == WEB_SOURCES
      ensures WebEntry(after[i].key, after[i].entry, ttl)
    {
      if i < |swept| {
        assert after[i] == swept[i];
      }
    }
  }

  /** A served entry was stored for this very key less than its lifetime ago, thirty seconds
      at most if it was degraded, and fits the key's limit. */
  lemma ServedIsYoungAndSmall(log: seq<Event<Key, Response>>, k: Key, ttl: int, now: int)
    requires WebLog(log, ttl) && k.sources == WEB_SOURCES
    requires LastSet(log, k).Some? && LiveAt(LastSet(log, k).value, now)
    ensures var e := LastSet(log, k).value;
            && WebEntry(k, e, ttl)
            && now - e.created < ttl
            && (e.value.partial ==> now - e.created < DEGRADED_TTL)
            && exists i :: StoredLast(log, k, e, i)
  {
    var e := LastSet(log, k).value;
    LastSetMeaning(log, k, e);
    var i :| StoredLast(log, k, e, i);
    assert log[i].Stored? && log[i].key.sources == WEB_SOURCES;
  }

  class WebConnector {
    const configured: bool
    const cacheSvc: Cache.Service<Key, Response>

    constructor (configured: bool, cacheSvc: Cache.Service<Key, Response>)
      ensures this.configured == configured && this.cacheSvc == cacheSvc
      ensures cacheSvc.Valid() && cacheSvc.log == [] ==> Valid()
    {
      this.configured := configured;
      this.cacheSvc := cacheSvc;
    }

    ghost predicate Valid()
      reads this, cacheSvc
    {
      cacheSvc.Valid() && WebLog(cacheSvc.log, cacheSvc.ttl)
    }

    /** Stores a response under its key, a degraded one for at most thirty seconds. */
    method CacheResponse(key: Key, resp: Response, now: int)
      requires cacheSvc.Valid() && cacheSvc.clock <= now
      modifies cacheSvc
      ensures cacheSvc.Valid() && cacheSvc.clock == now
      ensures cacheSvc.log == old(cacheSvc.log) +
                [Swept(now), Stored(key, Entry(resp, now, now + Lifetime(cacheSvc.ttl, resp.partial), resp.sourcesUsed))]
    {
      var cap := 0;
      if resp.partial {
        cap := DEGRADED_TTL;
      }
      cacheSvc.SetWithMaxTTL(key, resp, resp.sourcesUsed, cap, now);
    }

    /** Unresponsive engines degrade any answer; another failure degrades an empty one. */
    method RecordError(results: seq<Item>, err: Option<SearchError>, resp: Response) returns (r: Response)
      ensures r == resp.(partial := r.partial, warnings := r.warnings)
      ensures var degraded := err.Some? && (err.value.Unresponsive? || results == []);
              && r.partial == (resp.partial || degraded)
              && r.warnings == resp.warnings + (if degraded then [err.value.text] else [])
    {
      r := resp;
      if err.Some? {
        if err.value.Unresponsive? || |results| == 0 {
          r := r.(partial := true, warnings := r.warnings + [err.value.text]);
        }
      }
    }

    /** What a miss answers with. */
    method FreshAnswer(req: Request, up: Upstream, limit: int) returns (resp: Response)
      requires limit == MaxResults(req.maxResults, DEFAULT_LIMIT)
      ensures !resp.cached && resp.query == req.query && |resp.results| <= limit
      ensures configured ==>
                && (resp.partial <==> up.Fails? || up.unresponsive != [])
                && (if up.Answers? then FirstHits(up.hits, limit, resp.results) else resp.results == [])
      ensures !configured ==> resp.results == [UNCONFIGURED] && !resp.partial
    {
      var results, err := [UNCONFIGURED], None;
      if configured {
        results, err := SearchSearxng(up, limit);
      }
      resp := Response(req.query, results, WEB_SOURCES, "searxng", false, false, []);
      resp := RecordError(results, err, resp);
    }

    /** The lookup that begins a search. */
    method LookUp(req: Request, readTime: int, sweepTime: int) returns (hit: Option<Response>)
      requires Valid() && cacheSvc.clock <= readTime <= sweepTime
      modifies cacheSvc
      ensures Valid() && cacheSvc.clock <= sweepTime
      ensures LookStep(old(cacheSvc.log), cacheSvc.log, req, hit, readTime)
      ensures hit.Some? ==>
                && hit.value.cached
                && |hit.value.results| <= GoodFor(req)
                && TrimSpace(hit.value.query) == TrimSpace(req.query)
    {
      var query := TrimSpace(req.query);
      var limit := MaxResults(req.maxResults, DEFAULT_LIMIT);
      var key := SearchKey(query, WEB_SOURCES, req, limit);
      ghost var before := cacheSvc.log;
      if cacheSvc.Visible(key, readTime).Some? {
        ServedIsYoungAndSmall(before, key, cacheSvc.ttl, readTime);
      }
      var cached := cacheSvc.Get(key, readTime, sweepTime);
      LookupsKeepWebLog(before, cacheSvc.log, cacheSvc.ttl);
      hit := if cached.Some? then Some(cached.value.value.(cached := true)) else None;
    }

    /** The rest of a search that missed: ask, then store what came back. Anything may have
        happened to the cache since the lookup. */
    method Answer(req: Request, up: Upstream, storeTime: int) returns (resp: Response)
      requires Valid() && cacheSvc.clock <= storeTime
      modifies cacheSvc
      ensures Valid() && cacheSvc.clock == storeTime
      ensures AnswerStep(old(cacheSvc.log), cacheSvc.log, req, resp, storeTime, cacheSvc.ttl)
      ensures configured ==>
                && (resp.partial <==> up.Fails? || up.unresponsive != [])
                && if up.Answers? then FirstHits(up.hits, GoodFor(req), resp.results) else resp.results == []
      ensures !configured ==> resp.results == [UNCONFIGURED] && !resp.partial
    {
      var limit := MaxResults(req.maxResults, DEFAULT_LIMIT);
      ghost var before := cacheSvc.log;
      resp := FreshAnswer(req, up, limit);
      CacheResponse(WebKey(req), resp, storeTime);
      assert cacheSvc.log[..|cacheSvc.log| - 1] == before + [Swept(storeTime)];
      AnswersKeepWebLog(before, cacheSvc.log, req, resp, storeTime, cacheSvc.ttl);
    }

    /** A search with nobody else at work. A miss is marked partial exactly when the upstream
        degraded. Hit or miss, the effective limit holds, because the limit is part of the key. */
    method Search(req: Request, up: Upstream, readTime: int, sweepTime: int, storeTime: int)
      returns (resp: Response, ghost mid: seq<Event<Key, Response>>)
      requires Valid() && cacheSvc.clock <= readTime <= sweepTime <= storeTime
      modifies cacheSvc
      ensures Valid()
      ensures WebStep(old(cacheSvc.log), mid, cacheSvc.log, req, resp, readTime, storeTime, cacheSvc.ttl)
      ensures resp.cached <==> old(cacheSvc.Visible(WebKey(req), readTime)).Some?
      ensures TrimSpace(resp.query) == TrimSpace(req.query)
      ensures var n := if req.maxResults <= 0 then 10 else if req.maxResults > 100 then 100 else req.maxResults;
              && |resp.results| <= n
              && (!resp.cached && configured && up.Answers? ==>
                    && |resp.results| == (if |up.hits| < n then |up.hits| else n)
                    && forall i :: 0 <= i < |resp.results| ==>
                         && resp.results[i].title == up.hits[i].title && resp.results[i].url == up.hits[i].url
                         && resp.results[i].score == n - i)
      ensures !resp.cached && configured ==>
                && (resp.partial <==> up.Fails? || up.unresponsive != [])
                && (up.Fails? ==> resp.results == [])
      ensures !resp.cached && !configured ==> resp.results == [UNCONFIGURED] && !resp.partial
    {
      var hit := LookUp(req, readTime, sweepTime);
      mid := cacheSvc.log;
      if hit.Some? {
        return hit.value, mid;
      }
      resp := Answer(req, up, storeTime);
    }
  }
}
