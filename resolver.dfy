/** `resolveNotionPage(domain, rawPageId)` of lib/resolve-notion-page.ts as
    methods over the shared store `db`.  The page id is a local that each
    step reassigns when the previous steps left it falsy; the two error
    results are early returns.  Lines 21-50 (direct parse, override, cache
    read) are the method `ProbePageId`, lines 57-86 (site map, write-back)
    `FallBackToSiteMap` and lines 95-103 (the result) `PresentPage`.  The ghost
    outputs record what the store answered, whether the write-back took
    effect, and the collaborator calls in order. */
module Resolver {
  import opened Wrappers
  import opened Collaborators
  import opened Cascade
  import Db

  /** Lines 21-50 for a sub-page path `raw`: parse it, else parse its
      override, else read the cache (a failed read leaves the id unset).
      The store is only read, at most once. */
  method ProbePageId(db: Db.Store, cfg: Config, svc: Services, domain: string, raw: string)
    returns (pageId: Option<string>, ghost reply: Db.Reply, ghost probes: seq<Effect>)
    modifies db
    ensures db.entries == old(db.entries)
    ensures db.log == old(db.log) +
              if ReachesCache(cfg, svc, raw) then [Db.GetOp(CacheKey(domain, cfg.environment, raw), reply)] else []
    ensures Truthy(pageId) ==
              if DirectId(svc, raw).Some? then DirectId(svc, raw)
              else if OverrideId(cfg, svc, raw).Some? then OverrideId(cfg, svc, raw)
              else CachedId(reply)
    ensures ReachesCache(cfg, svc, raw) ==>
              reply == Db.Failed || reply == Db.Answer(Db.Stored(db.entries, CacheKey(domain, cfg.environment, raw)))
    ensures probes == Probes(cfg, svc, domain, raw)
    ensures !ReachesCache(cfg, svc, raw) ==>
              Truthy(pageId) == if DirectId(svc, raw).Some? then DirectId(svc, raw) else OverrideId(cfg, svc, raw)
    ensures ReachesCache(cfg, svc, raw) ==>
              Truthy(pageId).None? ||
              Truthy(pageId) == Truthy(Db.Stored(db.entries, CacheKey(domain, cfg.environment, raw)))
  {
    reply := Db.Answer(None);
    pageId := svc.parsePageId(raw);
    probes := [ParseId(raw)];

    if Truthy(pageId).None? {
      // an override from the fetched overrides, else from the static additions
      var override := OverrideFor(cfg, svc, raw);
      probes := probes + [OverrideLookup(raw)];
      if override.Some? {
        pageId := svc.parsePageId(override.value);
        probes := probes + [ParseId(override.value)];
      }
    }

    var cacheKey := CacheKey(domain, cfg.environment, raw);
    if Truthy(pageId).None? {
      var r := db.Get(cacheKey);
      probes := probes + [CacheGet(cacheKey)];
      reply := r;
      if r.Answer? {
        // a hit is taken as it is, not parsed
        pageId := r.value;
      }
    }
  }

  /** Lines 57-86, when the probes left the page id falsy: look the path up
      in the site map; on a hit fetch the page and try to store the mapping
      under the cache key with no expiry.  A miss (`pageId` falsy) fetches
      nothing and leaves the store alone.  `calls` are the calls made after
      the site map is loaded. */
  method FallBackToSiteMap(db: Db.Store, cfg: Config, svc: Services, domain: string, raw: string)
    returns (pageId: Option<string>, recordMap: PageFetch, ghost stored: bool, ghost calls: seq<Effect>)
    modifies db
    ensures Truthy(pageId) == SiteMapId(svc, raw)
    ensures pageId.Some? && pageId.value != "" ==> recordMap == svc.getPage(pageId.value, svc.exposedRouteIds)
    ensures calls ==
              (if SiteMapId(svc, raw).Some? then
                   [PageLoad(pageId.value),
                    CacheSet(CacheWrite(CacheKey(domain, cfg.environment, raw), Db.Entry(pageId.value, None)))]
                 else [])
    ensures stored ==> SiteMapId(svc, raw).Some?
    ensures db.log == old(db.log) +
              if SiteMapId(svc, raw).Some? then
                [Db.SetOp(CacheKey(domain, cfg.environment, raw), Db.Entry(pageId.value, None))]
              else []
    ensures db.entries ==
              if stored then old(db.entries)[CacheKey(domain, cfg.environment, raw) := Db.Entry(pageId.value, None)]
              else old(db.entries)
  {
    var cacheKey := CacheKey(domain, cfg.environment, raw);
    var cacheTtl: Option<nat> := None;
    stored := false;
    recordMap := Unauthorised;

    var siteMap := svc.siteMap;
    calls := [];
    pageId := if siteMap.Some? then Get(siteMap.value.canonicalPageMap, raw) else None;

    if Truthy(pageId).Some? {
      recordMap := svc.getPage(pageId.value, svc.exposedRouteIds);
      var ok := db.Set(cacheKey, pageId.value, cacheTtl);
      calls := [PageLoad(pageId.value), CacheSet(CacheWrite(cacheKey, Db.Entry(pageId.value, cacheTtl)))];
      stored := ok;
    }
  }

  /** Lines 95-103 for the fetched `recordMap` of `pageId`: refuse the
      unauthorised marker, otherwise build `props` and merge the ACL's fields
      over it.  `calls` is the ACL check, made only for a record. */
  method PresentPage(cfg: Config, svc: Services, pageId: string, recordMap: PageFetch)
    returns (response: Response, ghost calls: seq<Effect>)
    ensures response == Present(cfg, svc, pageId, recordMap)
    ensures calls == if recordMap.Record? then [AclCheck(pageId)] else []
  {
    calls := [];
    if recordMap.Unauthorised? {
      response := ErrorResponse(ErrorBody(UnauthorisedMessage(pageId), NotFoundStatus));
      return;
    }

    var props := Props(cfg.site, recordMap.recordMap, pageId, svc.exposedRouteIds, svc.inversePageUrlOverrides);
    var aclFields := svc.pageAcl(props);
    calls := [AclCheck(pageId)];
    response := PageResponse(Spread(Bundle(props), aclFields));
  }

  /** Lines 20-87, for a path `raw` that names a sub-page: the page id found
      by the cascade and the page fetched for it.  `pageId` is unset exactly
      when nothing resolved, and then nothing is fetched.  `search` are the
      calls made before the id is known, `tail` the fetch and the write-back
      after it. */
  method LocateSubpage(db: Db.Store, cfg: Config, svc: Services, domain: string, raw: string)
    returns (pageId: Option<string>, recordMap: PageFetch, ghost reply: Db.Reply, ghost stored: bool,
             ghost search: seq<Effect>, ghost tail: seq<Effect>)
    requires NamesSubpage(Some(raw))
    modifies db
    ensures var res := Resolve(cfg, svc, Request(domain, Some(raw)), reply);
            (pageId.None? <==> res.Missing?) &&
            (pageId.Some? ==> pageId.value == res.pageId && recordMap == svc.getPage(res.pageId, svc.exposedRouteIds))
    ensures search == Search(cfg, svc, Request(domain, Some(raw)), reply)
    ensures tail ==
              if pageId.None? then []
              else
                var write := WriteBack(cfg, svc, Request(domain, Some(raw)), reply);
                [PageLoad(pageId.value)] + (if write.Some? then [CacheSet(write.value)] else [])
    ensures ReachesCache(cfg, svc, raw) ==>
              reply == Db.Failed || reply == Db.Answer(Db.Stored(old(db.entries), CacheKey(domain, cfg.environment, raw)))
    ensures stored ==> WriteBack(cfg, svc, Request(domain, Some(raw)), reply).Some?
    ensures db.entries ==
              if stored then
                var w := WriteBack(cfg, svc, Request(domain, Some(raw)), reply).value;
                old(db.entries)[w.key := w.entry]
              else old(db.entries)
    ensures db.log == old(db.log) + StoreCalls(cfg, svc, Request(domain, Some(raw)), reply)
  {
    ghost var req := Request(domain, Some(raw));
    stored := false;
    pageId, reply, search := ProbePageId(db, cfg, svc, domain, raw);
    // the store calls: the read, then the write-back
    ghost var readOps := if ReachesCache(cfg, svc, raw) then [Db.GetOp(CacheKey(domain, cfg.environment, raw), reply)] else [];
    ghost var writeOps: seq<Db.Op> := [];

    if Truthy(pageId).Some? {
      recordMap := svc.getPage(pageId.value, svc.exposedRouteIds);
      tail := [PageLoad(pageId.value)];
    } else {
      search := search + [SiteMapLoad];
      pageId, recordMap, stored, tail := FallBackToSiteMap(db, cfg, svc, domain, raw);
      writeOps := db.log[|old(db.log)| + |readOps|..];
      if Truthy(pageId).None? {
        // a miss is deliberately not cached
        pageId := None;
        assert Resolve(cfg, svc, req, reply).Missing?;
        tail := [];
        assert StoreCalls(cfg, svc, req, reply) == readOps + [];
        return;
      }
    }

    var id := pageId.value;
    pageId := Some(id);
    ghost var write := WriteBack(cfg, svc, req, reply);
    assert Resolve(cfg, svc, req, reply).pageId == id;
    assert tail == [PageLoad(id)] + (if write.Some? then [CacheSet(write.value)] else []);
    assert db.log == old(db.log) + (readOps + writeOps);
    assert StoreCalls(cfg, svc, req, reply) == readOps + writeOps;
  }

  /** Lines 20-93: the cascade for a sub-page, the root page's id otherwise,
      and the page fetched for it; the same contract as `LocateSubpage`, for
      any path. */
  method FetchPage(db: Db.Store, cfg: Config, svc: Services, domain: string, rawPageId: Option<string>)
    returns (pageId: Option<string>, recordMap: PageFetch, ghost reply: Db.Reply, ghost stored: bool,
             ghost search: seq<Effect>, ghost tail: seq<Effect>)
    modifies db
    ensures var res := Resolve(cfg, svc, Request(domain, rawPageId), reply);
            (pageId.None? <==> res.Missing?) &&
            (pageId.Some? ==> pageId.value == res.pageId && recordMap == svc.getPage(res.pageId, svc.exposedRouteIds))
    ensures search == Search(cfg, svc, Request(domain, rawPageId), reply)
    ensures tail ==
              if pageId.None? then []
              else
                var write := WriteBack(cfg, svc, Request(domain, rawPageId), reply);
                [PageLoad(pageId.value)] + (if write.Some? then [CacheSet(write.value)] else [])
    ensures NamesSubpage(rawPageId) && ReachesCache(cfg, svc, rawPageId.value) ==>
              reply == Db.Failed ||
              reply == Db.Answer(Db.Stored(old(db.entries), CacheKey(domain, cfg.environment, rawPageId.value)))
    ensures stored ==> WriteBack(cfg, svc, Request(domain, rawPageId), reply).Some?
    ensures db.entries ==
              if stored then
                var w := WriteBack(cfg, svc, Request(domain, rawPageId), reply).value;
                old(db.entries)[w.key := w.entry]
              else old(db.entries)
    ensures db.log == old(db.log) + StoreCalls(cfg, svc, Request(domain, rawPageId), reply)
  {
    if NamesSubpage(rawPageId) {
      pageId, recordMap, reply, stored, search, tail := LocateSubpage(db, cfg, svc, domain, rawPageId.value);
    } else {
      // the root page; the cache is not consulted and the reply plays no part
      reply, stored, search := Db.Answer(None), false, [];
      pageId := Some(cfg.site.rootNotionPageId);
      recordMap := svc.getPage(pageId.value, svc.exposedRouteIds);
      tail := [PageLoad(pageId.value)];
      assert StoreCalls(cfg, svc, Request(domain, rawPageId), reply) == [] + [];
    }
  }

  datatype Observation = Observation(reply: Db.Reply, stored: bool, effects: seq<Effect>)

  /** `resolveNotionPage(domain, rawPageId)`: the result is `Respond` for what
      the store answered, the calls are `Effects`, and the store changes at
      most in the written-back entry. */
  method ResolveNotionPage(db: Db.Store, cfg: Config, svc: Services, domain: string, rawPageId: Option<string>)
    returns (response: Response, ghost seen: Observation)
    modifies db
    ensures response == Respond(cfg, svc, Request(domain, rawPageId), seen.reply)
    ensures seen.effects == Effects(cfg, svc, Request(domain, rawPageId), seen.reply)
    ensures NamesSubpage(rawPageId) && ReachesCache(cfg, svc, rawPageId.value) ==>
              seen.reply == Db.Failed ||
              seen.reply == Db.Answer(Db.Stored(old(db.entries), CacheKey(domain, cfg.environment, rawPageId.value)))
    ensures seen.stored ==> WriteBack(cfg, svc, Request(domain, rawPageId), seen.reply).Some?
    ensures db.entries ==
              if seen.stored then
                var w := WriteBack(cfg, svc, Request(domain, rawPageId), seen.reply).value;
                old(db.entries)[w.key := w.entry]
              else old(db.entries)
    ensures db.log == old(db.log) + StoreCalls(cfg, svc, Request(domain, rawPageId), seen.reply)
  {
    // the loads of lines 14-18 are the fields of `svc`
    var pageId, recordMap, reply, stored, search, tail := FetchPage(db, cfg, svc, domain, rawPageId);
    ghost var req := Request(domain, rawPageId);
    if pageId.None? {
      response := ErrorResponse(ErrorBody(NotFoundMessage(rawPageId.value), NotFoundStatus));
      assert Effects(cfg, svc, req, reply) == search + [];
      seen := Observation(reply, stored, search);
      return;
    }

    ghost var acl;
    response, acl := PresentPage(cfg, svc, pageId.value, recordMap);
    assert tail + acl == Conclusion(svc, pageId.value, WriteBack(cfg, svc, req, reply));
    seen := Observation(reply, stored, search + (tail + acl));
  }
}
