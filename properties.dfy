/** What `resolveNotionPage` promises, proved about its specification in
    module Cascade.  Together with the contract of
    Resolver.ResolveNotionPage these are statements about every call. */
module Properties {
  import opened Wrappers
  import opened Collaborators
  import opened Cascade
  import Db

  /** Which collaborator a call goes to. */
  datatype Kind = Parse | Lookup | Read | Load | Fetch | Write | Acl

  function KindOf(e: Effect): Kind {
    match e
    case ParseId(_) => Parse
    case OverrideLookup(_) => Lookup
    case CacheGet(_) => Read
    case SiteMapLoad => Load
    case PageLoad(_) => Fetch
    case CacheSet(_) => Write
    case AclCheck(_) => Acl
  }

  /** The number of calls of kind `k` in `es`. */
  function Count(es: seq<Effect>, k: Kind): nat {
    if es == [] then 0 else (if KindOf(es[0]) == k then 1 else 0) + Count(es[1..], k)
  }

  lemma {:induction false} CountAppend(a: seq<Effect>, b: seq<Effect>, k: Kind)
    ensures Count(a + b, k) == Count(a, k) + Count(b, k)
  {
    if a == [] {
      assert a + b == b;
    } else {
      assert (a + b)[1..] == a[1..] + b;
      CountAppend(a[1..], b, k);
    }
  }

  // ---- the root path -------------------------------------------------------

  /** No path, an empty one or "index": the root page is fetched and nothing
      else happens; the cache's answer plays no part. */
  lemma RootPathSkipsCascade(cfg: Config, svc: Services, req: Request, reply: Db.Reply)
    requires !NamesSubpage(req.rawPageId)
    ensures Resolve(cfg, svc, req, reply) == FromRoot(cfg.site.rootNotionPageId)
    ensures Effects(cfg, svc, req, reply) == Conclusion(svc, cfg.site.rootNotionPageId, None)
    ensures WriteBack(cfg, svc, req, reply).None?
    ensures Respond(cfg, svc, req, reply) ==
              Present(cfg, svc, cfg.site.rootNotionPageId, svc.getPage(cfg.site.rootNotionPageId, svc.exposedRouteIds))
  {
  }

  // ---- precedence of the strategies ----------------------------------------

  /** A path that parses as a page id is used as it is: no override lookup,
      no cache read, no site map, no write-back. */
  lemma DirectParseShortCircuits(cfg: Config, svc: Services, req: Request, reply: Db.Reply)
    requires NamesSubpage(req.rawPageId) && DirectId(svc, req.rawPageId.value).Some?
    ensures var id := DirectId(svc, req.rawPageId.value).value;
            Resolve(cfg, svc, req, reply) == Found(DirectParse, id) &&
            Effects(cfg, svc, req, reply) == [ParseId(req.rawPageId.value)] + Conclusion(svc, id, None)
  {
  }

  /** When the direct parse fails, the override (forward map first, static
      additions second) is parsed; if that yields an id, the cascade stops
      there without touching the cache or the site map. */
  lemma OverrideShortCircuits(cfg: Config, svc: Services, req: Request, reply: Db.Reply)
    requires NamesSubpage(req.rawPageId)
    requires DirectId(svc, req.rawPageId.value).None? && OverrideId(cfg, svc, req.rawPageId.value).Some?
    ensures var raw := req.rawPageId.value;
            var id := OverrideId(cfg, svc, raw).value;
            OverrideFor(cfg, svc, raw).Some? &&
            Resolve(cfg, svc, req, reply) == Found(UrlOverride, id) &&
            Effects(cfg, svc, req, reply) ==
              [ParseId(raw), OverrideLookup(raw), ParseId(OverrideFor(cfg, svc, raw).value)] + Conclusion(svc, id, None)
  {
  }

  /** An override that does not parse falls through to the cache. */
  lemma UnparsableOverrideFallsThrough(cfg: Config, svc: Services, raw: string)
    requires DirectId(svc, raw).None? && OverrideFor(cfg, svc, raw).Some?
    requires Truthy(svc.parsePageId(OverrideFor(cfg, svc, raw).value)).None?
    ensures ReachesCache(cfg, svc, raw)
  {
  }

  lemma CountSingle(e: Effect, k: Kind)
    ensures Count([e], k) == if KindOf(e) == k then 1 else 0
  {
  }

  /** The calls made before any page is fetched, in four parts. */
  lemma SearchParts(cfg: Config, svc: Services, req: Request, reply: Db.Reply)
    requires NamesSubpage(req.rawPageId)
    ensures var raw := req.rawPageId.value;
            Search(cfg, svc, req, reply) ==
              [ParseId(raw)]
              + (if DirectId(svc, raw).Some? then []
                 else [OverrideLookup(raw)] + (if OverrideFor(cfg, svc, raw).Some? then [ParseId(OverrideFor(cfg, svc, raw).value)] else []))
              + (if ReachesCache(cfg, svc, raw) then [CacheGet(CacheKey(req.domain, cfg.environment, raw))] else [])
              + (if ReachesSiteMap(cfg, svc, raw, reply) then [SiteMapLoad] else [])
  {
  }

  /** The cache is read only under the documented key, and exactly when the
      path names a sub-page and both the direct parse and the override
      failed. */
  lemma CacheReadExactlyWhenReached(cfg: Config, svc: Services, req: Request, reply: Db.Reply, key: string)
    ensures CacheGet(key) in Effects(cfg, svc, req, reply) <==>
              NamesSubpage(req.rawPageId) && ReachesCache(cfg, svc, req.rawPageId.value) &&
              key == CacheKey(req.domain, cfg.environment, req.rawPageId.value)
  {
  }

  /** Every call reads the cache at most once, fetches a page exactly once
      unless the path is not found, and writes the cache exactly when it
      has a write-back to do. */
  lemma CallCounts(cfg: Config, svc: Services, req: Request, reply: Db.Reply)
    ensures Count(Effects(cfg, svc, req, reply), Read) <= 1
    ensures Count(Effects(cfg, svc, req, reply), Fetch) == if Resolve(cfg, svc, req, reply).Missing? then 0 else 1
    ensures Count(Effects(cfg, svc, req, reply), Write) == if WriteBack(cfg, svc, req, reply).Some? then 1 else 0
  {
    var res := Resolve(cfg, svc, req, reply);
    var search := Search(cfg, svc, req, reply);
    var tail := if res.Missing? then [] else Conclusion(svc, res.pageId, WriteBack(cfg, svc, req, reply));
    if !res.Missing? {
      ConclusionCounts(svc, res.pageId, WriteBack(cfg, svc, req, reply));
    } else {
      assert WriteBack(cfg, svc, req, reply).None?;
    }
    forall k: Kind ensures Count(Effects(cfg, svc, req, reply), k) == Count(search, k) + Count(tail, k) {
      CountAppend(search, tail, k);
    }
    SearchCounts(cfg, svc, req, reply);
  }

  /** Looking for the page id reads the cache at most once and makes no
      fetch and no write. */
  lemma SearchCounts(cfg: Config, svc: Services, req: Request, reply: Db.Reply)
    ensures Count(Search(cfg, svc, req, reply), Read) <= 1
    ensures Count(Search(cfg, svc, req, reply), Fetch) == 0
    ensures Count(Search(cfg, svc, req, reply), Write) == 0
  {
    if NamesSubpage(req.rawPageId) {
      var raw := req.rawPageId.value;
      var parse := [ParseId(raw)];
      var over := if DirectId(svc, raw).Some? then []
                  else [OverrideLookup(raw)] + (if OverrideFor(cfg, svc, raw).Some? then [ParseId(OverrideFor(cfg, svc, raw).value)] else []);
      var get := if ReachesCache(cfg, svc, raw) then [CacheGet(CacheKey(req.domain, cfg.environment, raw))] else [];
      var load := if ReachesSiteMap(cfg, svc, raw, reply) then [SiteMapLoad] else [];
      SearchParts(cfg, svc, req, reply);
      forall k: Kind | k != Parse && k != Lookup
        ensures Count(Search(cfg, svc, req, reply), k) ==
                  (if get != [] && k == Read then 1 else 0) + (if load != [] && k == Load then 1 else 0)
      {
        CountOfParts(parse, over, get, load, k);
        CountSingle(ParseId(raw), k);
        OverrideCallsCount(raw, DirectId(svc, raw).Some?, OverrideFor(cfg, svc, raw), k);
        if get != [] { CountSingle(CacheGet(CacheKey(req.domain, cfg.environment, raw)), k); }
        if load != [] { CountSingle(SiteMapLoad, k); }
      }
    }
  }

  lemma CountOfParts(a: seq<Effect>, b: seq<Effect>, c: seq<Effect>, d: seq<Effect>, k: Kind)
    ensures Count(a + b + c + d, k) == Count(a, k) + Count(b, k) + Count(c, k) + Count(d, k)
  {
    CountAppend(a + b + c, d, k);
    CountAppend(a + b, c, k);
    CountAppend(a, b, k);
  }

  /** The override step calls only the override lookup and the parser. */
  lemma OverrideCallsCount(raw: string, direct: bool, override: Option<string>, k: Kind)
    requires k != Parse && k != Lookup
    ensures Count(if direct then [] else [OverrideLookup(raw)] + (if override.Some? then [ParseId(override.value)] else []), k) == 0
  {
    if !direct {
      CountSingle(OverrideLookup(raw), k);
      if override.Some? {
        CountAppend([OverrideLookup(raw)], [ParseId(override.value)], k);
        CountSingle(ParseId(override.value), k);
      } else {
        assert [OverrideLookup(raw)] + [] == [OverrideLookup(raw)];
      }
    }
  }

  /** The calls after the page id is known: one fetch, at most one cache
      write and no cache read. */
  lemma ConclusionCounts(svc: Services, pageId: string, write: Option<CacheWrite>)
    ensures Count(Conclusion(svc, pageId, write), Fetch) == 1
    ensures Count(Conclusion(svc, pageId, write), Write) == if write.Some? then 1 else 0
    ensures Count(Conclusion(svc, pageId, write), Read) == 0
    ensures forall key :: CacheGet(key) !in Conclusion(svc, pageId, write)
  {
    var w := if write.Some? then [CacheSet(write.value)] else [];
    var a := if svc.getPage(pageId, svc.exposedRouteIds).Record? then [AclCheck(pageId)] else [];
    assert Conclusion(svc, pageId, write) == [PageLoad(pageId)] + w + a;
    forall k: Kind
      ensures Count(Conclusion(svc, pageId, write), k) ==
                (if k == Fetch then 1 else 0) + (if write.Some? && k == Write then 1 else 0) + (if a != [] && k == Acl then 1 else 0)
    {
      CountAppend([PageLoad(pageId)] + w, a, k);
      CountAppend([PageLoad(pageId)], w, k);
      CountSingle(PageLoad(pageId), k);
      if write.Some? { CountSingle(CacheSet(write.value), k); }
      if a != [] { CountSingle(AclCheck(pageId), k); }
      assert Count(w, k) == if write.Some? && k == Write then 1 else 0;
      assert Count(a, k) == if a != [] && k == Acl then 1 else 0;
    }
  }

  lemma {:induction false} StoreOpsAppend(a: seq<Effect>, b: seq<Effect>, reply: Db.Reply)
    ensures StoreOps(a + b, reply) == StoreOps(a, reply) + StoreOps(b, reply)
  {
    if a == [] {
      assert a + b == b;
    } else {
      assert (a + b)[1..] == a[1..] + b;
      StoreOpsAppend(a[1..], b, reply);
    }
  }

  /** The store calls made before the page is known: the read, if reached. */
  lemma StoreOpsOfSearch(cfg: Config, svc: Services, req: Request, reply: Db.Reply)
    ensures StoreOps(Search(cfg, svc, req, reply), reply) ==
              if NamesSubpage(req.rawPageId) && ReachesCache(cfg, svc, req.rawPageId.value)
              then [Db.GetOp(CacheKey(req.domain, cfg.environment, req.rawPageId.value), reply)] else []
  {
    if NamesSubpage(req.rawPageId) {
      var raw := req.rawPageId.value;
      var over := if DirectId(svc, raw).Some? then []
                  else [OverrideLookup(raw)] + (if OverrideFor(cfg, svc, raw).Some? then [ParseId(OverrideFor(cfg, svc, raw).value)] else []);
      var get := if ReachesCache(cfg, svc, raw) then [CacheGet(CacheKey(req.domain, cfg.environment, raw))] else [];
      var load := if ReachesSiteMap(cfg, svc, raw, reply) then [SiteMapLoad] else [];
      SearchParts(cfg, svc, req, reply);
      StoreOpsOfParts([ParseId(raw)], over, get, load, reply);
      OverrideStoreOps(raw, DirectId(svc, raw).Some?, OverrideFor(cfg, svc, raw), reply);
    }
  }

  lemma StoreOpsOfParts(a: seq<Effect>, b: seq<Effect>, c: seq<Effect>, d: seq<Effect>, reply: Db.Reply)
    ensures StoreOps(a + b + c + d, reply) ==
              StoreOps(a, reply) + StoreOps(b, reply) + StoreOps(c, reply) + StoreOps(d, reply)
  {
    StoreOpsAppend(a + b + c, d, reply);
    StoreOpsAppend(a + b, c, reply);
    StoreOpsAppend(a, b, reply);
  }

  /** The override step makes no store call. */
  lemma OverrideStoreOps(raw: string, direct: bool, override: Option<string>, reply: Db.Reply)
    ensures StoreOps(if direct then [] else [OverrideLookup(raw)] + (if override.Some? then [ParseId(override.value)] else []), reply) == []
  {
    if !direct {
      StoreOpsAppend([OverrideLookup(raw)], if override.Some? then [ParseId(override.value)] else [], reply);
    }
  }

  /** The store calls made once the page id is known: the write-back, if any. */
  lemma StoreOpsOfConclusion(svc: Services, pageId: string, write: Option<CacheWrite>, reply: Db.Reply)
    ensures StoreOps(Conclusion(svc, pageId, write), reply) ==
              if write.Some? then [Db.SetOp(write.value.key, write.value.entry)] else []
  {
    var w := if write.Some? then [CacheSet(write.value)] else [];
    var a := if svc.getPage(pageId, svc.exposedRouteIds).Record? then [AclCheck(pageId)] else [];
    assert Conclusion(svc, pageId, write) == [PageLoad(pageId)] + w + a;
    StoreOpsAppend([PageLoad(pageId)] + w, a, reply);
    StoreOpsAppend([PageLoad(pageId)], w, reply);
    StoreOpsSingle(PageLoad(pageId), reply);
    if write.Some? { StoreOpsSingle(CacheSet(write.value), reply); }
    if a != [] { StoreOpsSingle(AclCheck(pageId), reply); }
  }

  lemma StoreOpsSingle(e: Effect, reply: Db.Reply)
    ensures StoreOps([e], reply) ==
              if e.CacheGet? then [Db.GetOp(e.key, reply)]
              else if e.CacheSet? then [Db.SetOp(e.write.key, e.write.entry)]
              else []
  {
    assert [e][1..] == [];
  }

  /** The store calls of a whole invocation, read off its collaborator calls,
      are the read when the cache is reached and then the write-back: the
      store log of Resolver.ResolveNotionPage agrees with its `Effects`. */
  lemma StoreCallsFollowEffects(cfg: Config, svc: Services, req: Request, reply: Db.Reply)
    ensures StoreOps(Effects(cfg, svc, req, reply), reply) == StoreCalls(cfg, svc, req, reply)
  {
    var res := Resolve(cfg, svc, req, reply);
    var write := WriteBack(cfg, svc, req, reply);
    var tail := if res.Missing? then [] else Conclusion(svc, res.pageId, write);
    StoreOpsOfSearch(cfg, svc, req, reply);
    if !res.Missing? {
      StoreOpsOfConclusion(svc, res.pageId, write, reply);
    }
    StoreOpsAppend(Search(cfg, svc, req, reply), tail, reply);
  }

  // ---- the cache and the site map ------------------------------------------

  /** A truthy cache answer is the page id as it is (not parsed again), the
      site map is not loaded and nothing is written back. */
  lemma CacheHitIsFinal(cfg: Config, svc: Services, req: Request, reply: Db.Reply)
    requires NamesSubpage(req.rawPageId) && ReachesCache(cfg, svc, req.rawPageId.value)
    requires CachedId(reply).Some?
    ensures reply.Answer? && reply.value.Some?
    ensures Resolve(cfg, svc, req, reply) == Found(UriCache, reply.value.value)
    ensures WriteBack(cfg, svc, req, reply).None?
    ensures SiteMapLoad !in Effects(cfg, svc, req, reply)
  {
  }

  /** A page id found in the site map is fetched and written back under the
      cache key with no expiry. */
  lemma SiteMapHitIsWrittenBack(cfg: Config, svc: Services, req: Request, reply: Db.Reply)
    requires NamesSubpage(req.rawPageId) && ReachesSiteMap(cfg, svc, req.rawPageId.value, reply)
    requires SiteMapId(svc, req.rawPageId.value).Some?
    ensures var id := SiteMapId(svc, req.rawPageId.value).value;
            Resolve(cfg, svc, req, reply) == Found(SiteMapLookup, id) &&
            WriteBack(cfg, svc, req, reply) ==
              Some(CacheWrite(CacheKey(req.domain, cfg.environment, req.rawPageId.value), Db.Entry(id, None)))
  {
  }

  /** Nothing found anywhere: the not-found error naming the path, no fetch
      and no write-back. */
  lemma SiteMapMissIsNotFound(cfg: Config, svc: Services, req: Request, reply: Db.Reply)
    requires NamesSubpage(req.rawPageId) && ReachesSiteMap(cfg, svc, req.rawPageId.value, reply)
    requires SiteMapId(svc, req.rawPageId.value).None?
    ensures Respond(cfg, svc, req, reply) ==
              ErrorResponse(ErrorBody(NotFoundMessage(req.rawPageId.value), NotFoundStatus))
    ensures WriteBack(cfg, svc, req, reply).None?
    ensures Effects(cfg, svc, req, reply) == Probes(cfg, svc, req.domain, req.rawPageId.value) + [SiteMapLoad]
  {
  }

  /** The only write-back is of a site-map hit; a not-found result is never
      cached. */
  lemma OnlySiteMapHitsAreCached(cfg: Config, svc: Services, req: Request, reply: Db.Reply)
    ensures WriteBack(cfg, svc, req, reply).Some? <==>
              Resolve(cfg, svc, req, reply).Found? && Resolve(cfg, svc, req, reply).strategy == SiteMapLookup
    ensures Resolve(cfg, svc, req, reply).Missing? ==>
              WriteBack(cfg, svc, req, reply).None? &&
              forall w :: CacheSet(w) !in Effects(cfg, svc, req, reply)
  {
  }

  /** A failed cache read is a miss: it gives the same resolution, result,
      calls and write-back as an empty answer. */
  lemma ReadFailureIsMiss(cfg: Config, svc: Services, req: Request)
    ensures Resolve(cfg, svc, req, Db.Failed) == Resolve(cfg, svc, req, Db.Answer(None))
    ensures Respond(cfg, svc, req, Db.Failed) == Respond(cfg, svc, req, Db.Answer(None))
    ensures Effects(cfg, svc, req, Db.Failed) == Effects(cfg, svc, req, Db.Answer(None))
    ensures WriteBack(cfg, svc, req, Db.Failed) == WriteBack(cfg, svc, req, Db.Answer(None))
  {
  }

  /** When the cascade stops before the cache, what the cache would have
      answered makes no difference at all. */
  lemma ReplyUnusedUnlessCacheReached(cfg: Config, svc: Services, req: Request, r1: Db.Reply, r2: Db.Reply)
    requires !(NamesSubpage(req.rawPageId) && ReachesCache(cfg, svc, req.rawPageId.value))
    ensures Resolve(cfg, svc, req, r1) == Resolve(cfg, svc, req, r2)
    ensures Respond(cfg, svc, req, r1) == Respond(cfg, svc, req, r2)
    ensures Effects(cfg, svc, req, r1) == Effects(cfg, svc, req, r2)
    ensures WriteBack(cfg, svc, req, r1) == WriteBack(cfg, svc, req, r2)
  {
  }

  /** A failing cache read does not change the result, provided whatever the
      store holds for the path agrees with the site map. */
  lemma ReadFailureKeepsResponse(cfg: Config, svc: Services, req: Request, entries: map<string, Db.Entry>)
    requires NamesSubpage(req.rawPageId)
    requires var raw := req.rawPageId.value;
             var cached := CachedId(Db.Answer(Db.Stored(entries, CacheKey(req.domain, cfg.environment, raw))));
             cached.None? || cached == SiteMapId(svc, raw)
    ensures Respond(cfg, svc, req, Db.Failed) ==
              Respond(cfg, svc, req, Db.Answer(Db.Stored(entries, CacheKey(req.domain, cfg.environment, req.rawPageId.value))))
  {
  }

  /** After a site-map hit whose write-back succeeded, the same request finds
      the page in the cache (when the read does not fail), with the same
      result and no further write. */
  lemma SiteMapHitThenCacheHit(cfg: Config, svc: Services, req: Request, reply: Db.Reply, entries: map<string, Db.Entry>)
    requires Resolve(cfg, svc, req, reply).Found? && Resolve(cfg, svc, req, reply).strategy == SiteMapLookup
    ensures WriteBack(cfg, svc, req, reply).Some?
    ensures var w := WriteBack(cfg, svc, req, reply).value;
            var next := Db.Answer(Db.Stored(entries[w.key := w.entry], w.key));
            Resolve(cfg, svc, req, next) == Found(UriCache, Resolve(cfg, svc, req, reply).pageId) &&
            Respond(cfg, svc, req, next) == Respond(cfg, svc, req, reply) &&
            WriteBack(cfg, svc, req, next).None?
  {
  }

  // ---- the results ---------------------------------------------------------

  /** The two error messages never coincide. */
  lemma NotFoundIsNotUnauthorised(raw: string, pageId: string)
    ensures NotFoundMessage(raw) != UnauthorisedMessage(pageId)
  {
    assert NotFoundPrefix[0] == 'N' && NotFoundMessage(raw)[0] == 'N';
    assert UnauthorisedPrefix[0] == 'Y' && UnauthorisedMessage(pageId)[0] == 'Y';
  }

  /** The not-found message names the path it was given. */
  lemma NotFoundNamesPath(a: string, b: string)
    requires NotFoundMessage(a) == NotFoundMessage(b)
    ensures a == b
  {
  }

  /** The unauthorised message names the page it refused. */
  lemma UnauthorisedNamesPage(a: string, b: string)
    requires UnauthorisedMessage(a) == UnauthorisedMessage(b)
    ensures a == b
  {
  }

  /** Distinct paths never share a cache key for one domain and environment. */
  lemma CacheKeyDeterminesPath(domain: string, environment: string, a: string, b: string)
    requires CacheKey(domain, environment, a) == CacheKey(domain, environment, b)
    ensures a == b
  {
  }

  ghost predicate IsNotFound(r: Response) {
    r.ErrorResponse? && r.error.statusCode == NotFoundStatus &&
    exists raw :: r.error.message == NotFoundMessage(raw)
  }

  ghost predicate IsUnauthorised(r: Response) {
    r.ErrorResponse? && r.error.statusCode == NotFoundStatus &&
    exists id :: r.error.message == UnauthorisedMessage(id)
  }

  /** The page object is built from the resolved page: unless the ACL result
      overrides them, its `pageId` is the id the cascade resolved, its
      `recordMap` the record fetched for that id, and the remaining keys the
      site and the loaded route ids and inverse overrides. */
  lemma PageObjectCarriesPage(cfg: Config, svc: Services, req: Request, reply: Db.Reply)
    requires Respond(cfg, svc, req, reply).PageResponse?
    ensures var res := Resolve(cfg, svc, req, reply);
            var f := svc.getPage(res.pageId, svc.exposedRouteIds);
            var fields := Respond(cfg, svc, req, reply).fields;
            var acl := svc.pageAcl(Props(cfg.site, f.recordMap, res.pageId, svc.exposedRouteIds, svc.inversePageUrlOverrides));
            !res.Missing? && f.Record? &&
            ("pageId" !in acl ==> fields["pageId"] == TextField(res.pageId)) &&
            ("recordMap" !in acl ==> fields["recordMap"] == RecordField(f.recordMap)) &&
            ("site" !in acl ==> fields["site"] == SiteField(cfg.site)) &&
            ("exposedRouteIds" !in acl ==> fields["exposedRouteIds"] == MapField(svc.exposedRouteIds)) &&
            ("inversePageUrlOverrides" !in acl ==>
               fields["inversePageUrlOverrides"] == MapField(svc.inversePageUrlOverrides))
  {
  }

  /** Every result is exactly one of: not found (nothing resolved the path),
      unauthorised (the resolved page came back as the marker), or the page
      object (the resolved page came back as a record). */
  lemma OutcomesAreExclusive(cfg: Config, svc: Services, req: Request, reply: Db.Reply)
    ensures var r := Respond(cfg, svc, req, reply);
            var res := Resolve(cfg, svc, req, reply);
            (IsNotFound(r) <==> res.Missing?) &&
            (IsUnauthorised(r) <==> !res.Missing? && svc.getPage(res.pageId, svc.exposedRouteIds).Unauthorised?) &&
            (r.PageResponse? <==> !res.Missing? && svc.getPage(res.pageId, svc.exposedRouteIds).Record?) &&
            !(IsNotFound(r) && IsUnauthorised(r))
  {
    var r := Respond(cfg, svc, req, reply);
    var res := Resolve(cfg, svc, req, reply);
    if res.Missing? {
      assert r.error.message == NotFoundMessage(req.rawPageId.value);
      forall id ensures r.error.message != UnauthorisedMessage(id) {
        NotFoundIsNotUnauthorised(req.rawPageId.value, id);
      }
    } else if r.ErrorResponse? {
      assert r.error.message == UnauthorisedMessage(res.pageId);
      forall raw ensures r.error.message != NotFoundMessage(raw) {
        NotFoundIsNotUnauthorised(raw, res.pageId);
      }
    }
  }
}
