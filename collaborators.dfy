/** The modules that lib/resolve-notion-page.ts imports (config, notion,
    acl, get-site-map, get-exposed-routes), reduced to the values and
    functions the resolver uses.  Their bodies are not part of this model:
    each collaborator is an input. */
module Collaborators {
  import opened Wrappers

  /** The site configuration object `site` of lib/config. */
  datatype Site = Site(name: string, domain: string, rootNotionPageId: string)

  /** What the resolver reads from lib/config: `site`, `environment` and the
      static `pageUrlAdditions` table. */
  datatype Config = Config(site: Site, environment: string, pageUrlAdditions: map<string, string>)

  /** A page's content as fetched from the content API; opaque here. */
  datatype RecordMap = RecordMap(blocks: map<string, string>)

  /** What `getPage` yields: a record, or the `UNAUTHORISED` marker. */
  datatype PageFetch = Record(recordMap: RecordMap) | Unauthorised

  /** The result of `getExposedRouteIds()`, handed on to `getPage`. */
  type RouteIds = map<string, string>

  /** The part of `getSiteMap()`'s result that the resolver reads. */
  datatype SiteMap = SiteMap(canonicalPageMap: map<string, string>)

  /** The bundle `props` assembled for a page the caller may see. */
  datatype Props = Props(
    site: Site,
    recordMap: RecordMap,
    pageId: string,
    exposedRouteIds: RouteIds,
    inversePageUrlOverrides: map<string, string>)

  /** A property value of the returned object. */
  datatype Field =
    | SiteField(site: Site)
    | RecordField(recordMap: RecordMap)
    | TextField(text: string)
    | MapField(entries: map<string, string>)
    | FlagField(flag: bool)

  /** The external collaborators of one call: `parsePageId`, `getPage` and
      `acl.pageAcl` as functions, and the results of the loads the resolver
      awaits (`getExposedRouteIds`, `getPageUrlOverrides`,
      `getInversePageUrlOverrides`, `getSiteMap`; a missing site map is
      `None`). */
  datatype Services = Services(
    parsePageId: string -> Option<string>,
    getPage: (string, RouteIds) -> PageFetch,
    pageAcl: Props -> map<string, Field>,
    exposedRouteIds: RouteIds,
    pageUrlOverrides: map<string, string>,
    inversePageUrlOverrides: map<string, string>,
    siteMap: Option<SiteMap>)

  /** The object literal `props` as a property map. */
  function Bundle(p: Props): (m: map<string, Field>)
    ensures m.Keys == {"site", "recordMap", "pageId", "exposedRouteIds", "inversePageUrlOverrides"}
  {
    map[
      "site" := SiteField(p.site),
      "recordMap" := RecordField(p.recordMap),
      "pageId" := TextField(p.pageId),
      "exposedRouteIds" := MapField(p.exposedRouteIds),
      "inversePageUrlOverrides" := MapField(p.inversePageUrlOverrides)]
  }

  /** Object spread `{ ...base, ...over }`: every key of either object, the
      later object winning on a shared key. */
  function Spread(base: map<string, Field>, over: map<string, Field>): (r: map<string, Field>)
    ensures r.Keys == base.Keys + over.Keys
    ensures forall k :: k in over ==> r[k] == over[k]
    ensures forall k :: k in base && k !in over ==> r[k] == base[k]
  {
    base + over
  }
}
