/** The decision procedure of `resolveNotionPage` (lib/resolve-notion-page.ts)
    stated as functions of its inputs: which strategy resolves the page id,
    what the call returns, which collaborator calls it makes in which order,
    and which cache entry it tries to store.  The cache's answer is an input
    (`reply`); it matters only when the cascade reaches the cache. */
module Cascade {
  import opened Wrappers
  import opened Collaborators
  import Db

  /** The raw path that stands for the site root. */
  const IndexPath := "index"

  /** The status code of both error results. */
  const NotFoundStatus := 404

  /** The fixed parts of the cache key and of the two error messages. */
  const CacheKeyPrefix := "uri-to-page-id:"
  const Separator := ":"
  const NotFoundPrefix := "Not found \""
  const NotFoundSuffix := "\""
  const UnauthorisedPrefix := "You are currently not authorised to view '"
  const UnauthorisedSuffix := "'."

  datatype Request = Request(domain: string, rawPageId: Option<string>)

  /** `rawPageId && rawPageId !== 'index'`: the path names a page other than
      the root. */
  predicate NamesSubpage(rawPageId: Option<string>): (r: bool)
    ensures r <==> Truthy(rawPageId).Some? && rawPageId.value != IndexPath
  {
    rawPageId.Some? && rawPageId.value != "" && rawPageId.value != IndexPath
  }

  /** The cache key `uri-to-page-id:{domain}:{environment}:{rawPageId}`. */
  function CacheKey(domain: string, environment: string, rawPageId: string): (r: string)
    ensures |r| == |CacheKeyPrefix| + |domain| + |environment| + |rawPageId| + 2 * |Separator|
    ensures r[..|CacheKeyPrefix|] == CacheKeyPrefix
    ensures r[|CacheKeyPrefix|..|CacheKeyPrefix| + |domain|] == domain
    ensures r[|r| - |rawPageId|..] == rawPageId
  {
    CacheKeyPrefix + domain + Separator + environment + Separator + rawPageId
  }

  /** `Not found "{rawPageId}"`. */
  function NotFoundMessage(rawPageId: string): (r: string)
    ensures |r| == |NotFoundPrefix| + |rawPageId| + |NotFoundSuffix|
    ensures r[..|NotFoundPrefix|] == NotFoundPrefix
    ensures r[|NotFoundPrefix|..|r| - |NotFoundSuffix|] == rawPageId
    ensures r[|r| - |NotFoundSuffix|..] == NotFoundSuffix
  {
    NotFoundPrefix + rawPageId + NotFoundSuffix
  }

  /** `You are currently not authorised to view '{pageId}'.` */
  function UnauthorisedMessage(pageId: string): (r: string)
    ensures |r| == |UnauthorisedPrefix| + |pageId| + |UnauthorisedSuffix|
    ensures r[..|UnauthorisedPrefix|] == UnauthorisedPrefix
    ensures r[|UnauthorisedPrefix|..|r| - |UnauthorisedSuffix|] == pageId
    ensures r[|r| - |UnauthorisedSuffix|..] == UnauthorisedSuffix
  {
    UnauthorisedPrefix + pageId + UnauthorisedSuffix
  }

  /** The error object `{ message, statusCode }`. */
  datatype ErrorBody = ErrorBody(message: string, statusCode: int)

  /** What the resolver returns: `{ error }`, or the merged page object. */
  datatype Response = ErrorResponse(error: ErrorBody) | PageResponse(fields: map<string, Field>)

  /** The strategies tried for a sub-page, in the order the source tries them. */
  datatype Strategy = DirectParse | UrlOverride | UriCache | SiteMapLookup

  const CascadeOrder: seq<Strategy> := [DirectParse, UrlOverride, UriCache, SiteMapLookup]

  /** `pageUrlOverrides[rawPageId] || pageUrlAdditions[rawPageId]`, as far as
      `if (override)` can tell: the forward override when it is set and
      non-empty, and otherwise the static addition. */
  function OverrideFor(cfg: Config, svc: Services, raw: string): (r: Option<string>)
    ensures r.Some? ==> r.value != ""
    ensures raw in svc.pageUrlOverrides && svc.pageUrlOverrides[raw] != "" ==>
              r == Some(svc.pageUrlOverrides[raw])
    ensures !(raw in svc.pageUrlOverrides && svc.pageUrlOverrides[raw] != "") ==>
              (r.Some? <==> raw in cfg.pageUrlAdditions && cfg.pageUrlAdditions[raw] != "") &&
              (r.Some? ==> r.value == cfg.pageUrlAdditions[raw])
  {
    var forward := Get(svc.pageUrlOverrides, raw);
    Truthy(if Truthy(forward).Some? then forward else Get(cfg.pageUrlAdditions, raw))
  }

  /** Line 21: the raw path parsed as a page id. */
  function DirectId(svc: Services, raw: string): (r: Option<string>)
    ensures r.Some? <==> svc.parsePageId(raw).Some? && svc.parsePageId(raw).value != ""
    ensures r.Some? ==> r == svc.parsePageId(raw)
  {
    Truthy(svc.parsePageId(raw))
  }

  /** Lines 26-31: the override, if there is one, parsed as a page id. */
  function OverrideId(cfg: Config, svc: Services, raw: string): (r: Option<string>)
    ensures r.Some? <==>
              OverrideFor(cfg, svc, raw).Some? &&
              svc.parsePageId(OverrideFor(cfg, svc, raw).value).Some? &&
              svc.parsePageId(OverrideFor(cfg, svc, raw).value).value != ""
    ensures r.Some? ==> r == svc.parsePageId(OverrideFor(cfg, svc, raw).value)
  {
    match OverrideFor(cfg, svc, raw)
    case None => None
    case Some(o) => Truthy(svc.parsePageId(o))
  }

  /** Lines 41-49: the cache's answer taken as it is; a failed read counts as
      a miss. */
  function CachedId(reply: Db.Reply): (r: Option<string>)
    ensures r.Some? <==> reply.Answer? && reply.value.Some? && reply.value.value != ""
    ensures r.Some? ==> r == reply.value
  {
    if reply.Answer? then Truthy(reply.value) else None
  }

  /** Lines 57-58: `siteMap?.canonicalPageMap[rawPageId]`. */
  function SiteMapId(svc: Services, raw: string): (r: Option<string>)
    ensures r.Some? <==>
              svc.siteMap.Some? && raw in svc.siteMap.value.canonicalPageMap &&
              svc.siteMap.value.canonicalPageMap[raw] != ""
    ensures r.Some? ==> r.value == svc.siteMap.value.canonicalPageMap[raw]
  {
    if svc.siteMap.Some? then Truthy(Get(svc.siteMap.value.canonicalPageMap, raw)) else None
  }

  function Candidate(s: Strategy, cfg: Config, svc: Services, raw: string, reply: Db.Reply): (r: Option<string>)
    ensures r.Some? ==> r.value != ""
  {
    match s
    case DirectParse => DirectId(svc, raw)
    case UrlOverride => OverrideId(cfg, svc, raw)
    case UriCache => CachedId(reply)
    case SiteMapLookup => SiteMapId(svc, raw)
  }

  /** The position of the first strategy of `order` that yields a page id,
      or `|order|` when none does. */
  function FirstHit(order: seq<Strategy>, cfg: Config, svc: Services, raw: string, reply: Db.Reply): (k: nat)
    ensures k <= |order|
    ensures forall j :: 0 <= j < k ==> Candidate(order[j], cfg, svc, raw, reply).None?
    ensures k < |order| ==> Candidate(order[k], cfg, svc, raw, reply).Some?
    decreases |order|
  {
    if order == [] then 0
    else if Candidate(order[0], cfg, svc, raw, reply).Some? then 0
    else 1 + FirstHit(order[1..], cfg, svc, raw, reply)
  }

  /** How the page id was obtained: the root page, the first strategy of the
      cascade that hit, or nothing. */
  datatype Resolution =
    | FromRoot(pageId: string)
    | Found(strategy: Strategy, pageId: string)
    | Missing

  /** Lines 20-58 and 88-89: the root page for the root path; otherwise the
      direct parse, the override, the cache and the site map, each consulted
      only when everything before it left the id falsy. */
  function Resolve(cfg: Config, svc: Services, req: Request, reply: Db.Reply): (r: Resolution)
    ensures r.FromRoot? <==> !NamesSubpage(req.rawPageId)
    ensures r.FromRoot? ==> r.pageId == cfg.site.rootNotionPageId
    ensures r.Found? ==> r.pageId != "" && Candidate(r.strategy, cfg, svc, req.rawPageId.value, reply) == Some(r.pageId)
  {
    if !NamesSubpage(req.rawPageId) then FromRoot(cfg.site.rootNotionPageId)
    else
      var raw := req.rawPageId.value;
      if DirectId(svc, raw).Some? then Found(DirectParse, DirectId(svc, raw).value)
      else if OverrideId(cfg, svc, raw).Some? then Found(UrlOverride, OverrideId(cfg, svc, raw).value)
      else if CachedId(reply).Some? then Found(UriCache, CachedId(reply).value)
      else if SiteMapId(svc, raw).Some? then Found(SiteMapLookup, SiteMapId(svc, raw).value)
      else Missing
  }

  /** The cascade reaches the cache read: neither the direct parse nor the
      override produced a page id (line 40). */
  predicate ReachesCache(cfg: Config, svc: Services, raw: string): (r: bool)
    ensures r <==>
              Candidate(DirectParse, cfg, svc, raw, Db.Failed).None? &&
              Candidate(UrlOverride, cfg, svc, raw, Db.Failed).None?
  {
    DirectId(svc, raw).None? && OverrideId(cfg, svc, raw).None?
  }

  /** The cascade reaches the site map: the cache produced nothing either
      (line 52's else branch). */
  predicate ReachesSiteMap(cfg: Config, svc: Services, raw: string, reply: Db.Reply): (r: bool)
    ensures r ==> ReachesCache(cfg, svc, raw)
    ensures r <==>
              Candidate(DirectParse, cfg, svc, raw, reply).None? &&
              Candidate(UrlOverride, cfg, svc, raw, reply).None? &&
              Candidate(UriCache, cfg, svc, raw, reply).None?
  {
    ReachesCache(cfg, svc, raw) && CachedId(reply).None?
  }

  /** The cache entry the call tries to store. */
  datatype CacheWrite = CacheWrite(key: string, entry: Db.Entry)

  /** Only a page id found in the site map is written back, under the cache
      key, with no expiry (lines 60-70). */
  function WriteBack(cfg: Config, svc: Services, req: Request, reply: Db.Reply): (r: Option<CacheWrite>)
    ensures r.Some? <==>
              NamesSubpage(req.rawPageId) && ReachesSiteMap(cfg, svc, req.rawPageId.value, reply) &&
              SiteMapId(svc, req.rawPageId.value).Some?
    ensures r.Some? ==>
              r.value.key == CacheKey(req.domain, cfg.environment, req.rawPageId.value) &&
              r.value.entry.ttl.None? && Some(r.value.entry.value) == SiteMapId(svc, req.rawPageId.value)
  {
    var res := Resolve(cfg, svc, req, reply);
    if res.Found? && res.strategy == SiteMapLookup then
      Some(CacheWrite(CacheKey(req.domain, cfg.environment, req.rawPageId.value), Db.Entry(res.pageId, None)))
    else None
  }

  /** Lines 95-103, once the page is fetched: refuse the unauthorised
      marker, and otherwise merge the ACL's fields over `props`. */
  function Present(cfg: Config, svc: Services, pageId: string, fetched: PageFetch): (r: Response)
    ensures r.ErrorResponse? <==> fetched.Unauthorised?
    ensures r.ErrorResponse? ==> r.error == ErrorBody(UnauthorisedMessage(pageId), NotFoundStatus)
    ensures r.PageResponse? ==>
              var p := Props(cfg.site, fetched.recordMap, pageId, svc.exposedRouteIds, svc.inversePageUrlOverrides);
              r.fields == Spread(Bundle(p), svc.pageAcl(p))
  {
    match fetched
    case Unauthorised => ErrorResponse(ErrorBody(UnauthorisedMessage(pageId), NotFoundStatus))
    case Record(recordMap) =>
      var p := Props(cfg.site, recordMap, pageId, svc.exposedRouteIds, svc.inversePageUrlOverrides);
      PageResponse(Spread(Bundle(p), svc.pageAcl(p)))
  }

  /** What `resolveNotionPage` returns: both errors carry status 404; the
      not-found error names the path and occurs exactly when nothing
      resolved; the page object occurs exactly when a record was fetched. */
  function Respond(cfg: Config, svc: Services, req: Request, reply: Db.Reply): (r: Response)
    ensures r.ErrorResponse? ==> r.error.statusCode == NotFoundStatus
    ensures Resolve(cfg, svc, req, reply).Missing? ==>
              r == ErrorResponse(ErrorBody(NotFoundMessage(req.rawPageId.value), NotFoundStatus))
    ensures r.PageResponse? <==>
              var res := Resolve(cfg, svc, req, reply);
              !res.Missing? && svc.getPage(res.pageId, svc.exposedRouteIds).Record?
    ensures var res := Resolve(cfg, svc, req, reply);
            !res.Missing? ==> r == Present(cfg, svc, res.pageId, svc.getPage(res.pageId, svc.exposedRouteIds))
  {
    var res := Resolve(cfg, svc, req, reply);
    if res.Missing? then ErrorResponse(ErrorBody(NotFoundMessage(req.rawPageId.value), NotFoundStatus))
    else Present(cfg, svc, res.pageId, svc.getPage(res.pageId, svc.exposedRouteIds))
  }

  /** The calls one invocation makes on the store: a read under the call's
      cache key when the cascade reaches the cache, then the write-back if
      there is one.  Every call uses the call's own key. */
  function StoreCalls(cfg: Config, svc: Services, req: Request, reply: Db.Reply): (r: seq<Db.Op>)
    ensures |r| <= 2
    ensures r != [] ==>
              NamesSubpage(req.rawPageId) &&
              forall i :: 0 <= i < |r| ==> r[i].key == CacheKey(req.domain, cfg.environment, req.rawPageId.value)
  {
    (if NamesSubpage(req.rawPageId) && ReachesCache(cfg, svc, req.rawPageId.value)
     then [Db.GetOp(CacheKey(req.domain, cfg.environment, req.rawPageId.value), reply)] else [])
    + (match WriteBack(cfg, svc, req, reply)
       case None => []
       case Some(w) => [Db.SetOp(w.key, w.entry)])
  }

  /** The calls one invocation makes on its collaborators. */
  datatype Effect =
    | ParseId(text: string)
    | OverrideLookup(rawPageId: string)
    | CacheGet(key: string)
    | SiteMapLoad
    | PageLoad(pageId: string)
    | CacheSet(write: CacheWrite)
    | AclCheck(pageId: string)

  /** The calls made while trying the direct parse, the override and the
      cache, in that order (lines 21-50). */
  function Probes(cfg: Config, svc: Services, domain: string, raw: string): seq<Effect> {
    [ParseId(raw)]
    + (if DirectId(svc, raw).Some? then []
       else [OverrideLookup(raw)] + (if OverrideFor(cfg, svc, raw).Some? then [ParseId(OverrideFor(cfg, svc, raw).value)] else []))
    + (if ReachesCache(cfg, svc, raw) then [CacheGet(CacheKey(domain, cfg.environment, raw))] else [])
  }

  /** The calls made once a page id is known: the fetch, the write-back if
      any, and the ACL check unless the page is unauthorised. */
  function Conclusion(svc: Services, pageId: string, write: Option<CacheWrite>): seq<Effect> {
    [PageLoad(pageId)]
    + (if write.Some? then [CacheSet(write.value)] else [])
    + (if svc.getPage(pageId, svc.exposedRouteIds).Record? then [AclCheck(pageId)] else [])
  }

  /** The calls made before any page is fetched. */
  function Search(cfg: Config, svc: Services, req: Request, reply: Db.Reply): seq<Effect> {
    if !NamesSubpage(req.rawPageId) then []
    else
      var raw := req.rawPageId.value;
      Probes(cfg, svc, req.domain, raw) + (if ReachesSiteMap(cfg, svc, raw, reply) then [SiteMapLoad] else [])
  }

  /** Every call of one invocation, in order: it starts with the parse of the
      path, or with the fetch of the root page for the root path, and a call
      that finds nothing ends with the site-map load. */
  function Effects(cfg: Config, svc: Services, req: Request, reply: Db.Reply): (r: seq<Effect>)
    ensures |r| > 0
    ensures NamesSubpage(req.rawPageId) ==> r[0] == ParseId(req.rawPageId.value)
    ensures !NamesSubpage(req.rawPageId) ==> r[0] == PageLoad(cfg.site.rootNotionPageId)
    ensures Resolve(cfg, svc, req, reply).Missing? ==> r[|r| - 1] == SiteMapLoad
  {
    var res := Resolve(cfg, svc, req, reply);
    Search(cfg, svc, req, reply)
    + (if res.Missing? then [] else Conclusion(svc, res.pageId, WriteBack(cfg, svc, req, reply)))
  }

  /** The store calls among `es`, in order, the read answered with `reply`. */
  function StoreOps(es: seq<Effect>, reply: Db.Reply): seq<Db.Op> {
    if es == [] then []
    else
      (match es[0]
       case CacheGet(key) => [Db.GetOp(key, reply)]
       case CacheSet(w) => [Db.SetOp(w.key, w.entry)]
       case _ => [])
      + StoreOps(es[1..], reply)
  }

  /** The cache is reached when the first two strategies of the cascade
      miss, and the site map when the first three do. */
  lemma ReachesIsFirstHit(cfg: Config, svc: Services, raw: string, reply: Db.Reply)
    ensures ReachesCache(cfg, svc, raw) <==> FirstHit(CascadeOrder, cfg, svc, raw, reply) >= 2
    ensures ReachesSiteMap(cfg, svc, raw, reply) <==> FirstHit(CascadeOrder, cfg, svc, raw, reply) >= 3
  {
  }

  /** The cascade is an ordered list of strategies of which the first that
      yields a truthy page id wins. */
  lemma ResolveIsFirstHit(cfg: Config, svc: Services, req: Request, reply: Db.Reply)
    requires NamesSubpage(req.rawPageId)
    ensures var raw := req.rawPageId.value;
            var k := FirstHit(CascadeOrder, cfg, svc, raw, reply);
            Resolve(cfg, svc, req, reply) ==
              if k < |CascadeOrder| then Found(CascadeOrder[k], Candidate(CascadeOrder[k], cfg, svc, raw, reply).value)
              else Missing
  {
  }
}
