# Page-id resolution for a content site, in Dafny

This project models `resolveNotionPage(domain, rawPageId)` from `lib/resolve-notion-page.ts`. The function takes a raw URL path segment and returns one of three results:

- the not-found error `{ error: { message: 'Not found "<rawPageId>"', statusCode: 404 } }`;
- the unauthorised error `{ error: { statusCode: 404, message: "You are currently not authorised to view '<pageId>'." } }`;
- the page object `{ site, recordMap, pageId, exposedRouteIds, inversePageUrlOverrides, ...pageAcl(props) }`.

To find the page id it runs a cascade of strategies:

1. The root page, when the path is absent, empty or `index`.
2. The path parsed directly as a page id.
3. An override: the fetched `pageUrlOverrides` first, the static `pageUrlAdditions` second. The override value is then parsed.
4. The URI→page-id cache `db`, under the key `uri-to-page-id:{domain}:{environment}:{rawPageId}`.
5. The site map's `canonicalPageMap`. On a hit the mapping is written back to the cache with no expiry. A miss is never cached.

Cache errors on `get` and `set` are swallowed.

Files:

- `wrappers.dfy`: `Option` (JavaScript's `undefined`). `Truthy` models JavaScript truthiness: `""` is falsy. `Get` models property access on a plain object.
- `collaborators.dfy`: the imported collaborators as fields of `Config` and `Services`. `Config` holds `site`, `environment` and `pageUrlAdditions`. `Services` holds `getPage` with its `UNAUTHORISED` marker, `acl.pageAcl`, the site map and the route/override loads, as values and function-typed fields. Also the object literal `props` (`Bundle`) and object spread (`Spread`).
- `db.dfy`: the store `db` as a class `Store` whose field `entries: map<string, Entry>` is changed in place. A ghost field `log` records every `get` with the answer it gave and every `set` with what it was asked to store, in order. `Get` and `Set` may each fail; the store, not the resolver, chooses when.
- `cascade.dfy`: the specification as functions of the inputs and of the cache's answer `reply`:
  - `Resolve`: which strategy fired and which page id it gave;
  - `Respond`: the result;
  - `WriteBack`: the cache write attempted;
  - `Effects`: the ordered calls made on the collaborators.

  Also `FirstHit`, the same cascade written as an ordered list of strategies where the first hit wins.
- `resolver.dfy`: the imperative model. `ResolveNotionPage` is a method over a `Db.Store`. It reassigns a local `pageId` step by step and returns early with the errors. Lines 21-50 (parse, override, cache read) are the method `ProbePageId`. Lines 57-86 (site map, fetch, write-back) are the method `FallBackToSiteMap`. Lines 95-103 (the result) are the method `PresentPage`. Lines 20-87 for a sub-page are `LocateSubpage`, and lines 20-93 for any path are `FetchPage`. Each method's postcondition ties its result, its new store and the store's log to the specification. It also ties the method's ghost record of all collaborator calls to the specification.
- `properties.dfy`: lemmas about the specification, covering precedence, when the cache is read and written, call counts, fault tolerance, a second call after a site-map hit, and the three result kinds.

Inputs that stand for I/O: the results of the eager loads at lines 14-18 and of `getSiteMap` are fields of `Services`. `parsePageId`, `getPage` and `pageAcl` are uninterpreted functions in `Services`. The outcome of each `db.get` and `db.set` is chosen inside `Db.Store`.

Two consequences of the code are easy to miss:

- A call whose path is not found makes no record fetch: lines 78-86 return before any `getPage`. `Properties.CallCounts` proves one fetch unless not found, and none then.
- A failing cache read is not always harmless. A stale entry is returned by a working read and skipped by a failing one, which then falls through to the site map. `Properties.ReadFailureIsMiss` proves that a failed read acts exactly like an empty answer. `Properties.ReadFailureKeepsResponse` proves the result is the same when the stored value is absent or agrees with the site map.

## Model

| member | source | states |
|---|---|---|
| `Wrappers.Get` | lib/resolve-notion-page.ts:27 | `object[key]` on a plain object used as a dictionary: defined exactly when the key is present, and then the stored value |
| `Wrappers.Truthy` | lib/resolve-notion-page.ts:23 | `if (!pageId)` style tests: a value is present exactly when it is defined and not the empty string |
| `Collaborators.Bundle` | lib/resolve-notion-page.ts:102 | `props` has exactly the keys site, recordMap, pageId, exposedRouteIds and inversePageUrlOverrides; `Properties.PageObjectCarriesPage` proves the page object holds the resolved id, the fetched record map and the site under them unless the ACL overrides a key |
| `Collaborators.Spread` | lib/resolve-notion-page.ts:103 | the merged object has every key of `props` and of the ACL result; on a shared key the ACL's value wins, and otherwise `props` keeps its own |
| `Db.Store.Get` | lib/resolve-notion-page.ts:41-49 | a cache read either fails or returns exactly what the store holds under the key (`undefined` when absent); it never changes the entries and appends exactly that read, with the answer it gave, to the log |
| `Db.Store.Set` | lib/resolve-notion-page.ts:67-76 | a successful write maps the key to the value with the given TTL; a failed write leaves the entries as they were; either way exactly that write is appended to the log |
| `Cascade.CacheKey` | lib/resolve-notion-page.ts:35 | the key starts with `uri-to-page-id:` followed by the domain, ends with the raw path, and has exactly the length of its parts and two separators; `Properties.CacheKeyDeterminesPath` proves distinct paths get distinct keys |
| `Cascade.NotFoundMessage` | lib/resolve-notion-page.ts:82 | the message is `Not found "`, then the raw path, then `"`; `Properties.NotFoundNamesPath` proves it determines the path and `Properties.NotFoundIsNotUnauthorised` that it differs from every unauthorised message |
| `Cascade.UnauthorisedMessage` | lib/resolve-notion-page.ts:98 | the message is `You are currently not authorised to view '`, then the page id, then `'.`; `Properties.UnauthorisedNamesPage` proves it determines the page id |
| `Cascade.DirectId` | lib/resolve-notion-page.ts:21-23 | the direct parse produces an id exactly when `parsePageId(rawPageId)` is defined and non-empty, and then it is that value |
| `Cascade.OverrideFor` | lib/resolve-notion-page.ts:26-27 | the forward override wins when it is set and non-empty; otherwise the static addition is used, and only a non-empty one counts |
| `Cascade.OverrideId` | lib/resolve-notion-page.ts:26-31 | the override step produces an id exactly when there is an override and its parse is defined and non-empty, and then it is that parse |
| `Cascade.CachedId` | lib/resolve-notion-page.ts:40-49 | the cache step produces an id exactly when the read succeeded with a defined, non-empty value, and then it is that value, not parsed; a failed read produces none |
| `Cascade.SiteMapId` | lib/resolve-notion-page.ts:57-58 | the site-map step produces an id exactly when the site map exists and maps the raw path to a non-empty id, and then it is that id |
| `Cascade.NamesSubpage` | lib/resolve-notion-page.ts:20 | `rawPageId && rawPageId !== 'index'`: the path is truthy and not `index` |
| `Cascade.ReachesCache` | lib/resolve-notion-page.ts:40 | the cache is consulted exactly when the direct-parse and override strategies both yield nothing |
| `Cascade.ReachesSiteMap` | lib/resolve-notion-page.ts:52-57 | the site map is consulted exactly when the direct-parse, override and cache strategies all yield nothing, which implies the cache was consulted |
| `Cascade.ReachesIsFirstHit` | lib/resolve-notion-page.ts:20-58 | in the first-hit formulation, the cache is reached exactly when the first hit is at position 2 or later, and the site map exactly when it is at position 3 or later |
| `Cascade.FirstHit` | lib/resolve-notion-page.ts:20-58 | returns the position of the first strategy in the list that yields a page id: every earlier strategy yields none, and the one at that position yields one |
| `Cascade.Resolve` | lib/resolve-notion-page.ts:20-93 | resolves to the root page exactly when the path is absent, empty or `index`, and its id is then `site.rootNotionPageId`; any other resolved id is non-empty and is exactly what the named strategy produced |
| `Cascade.ResolveIsFirstHit` | lib/resolve-notion-page.ts:20-58 | the nested conditionals of the source pick the same page id as taking the first hit of direct parse, then override, then cache, then site map |
| `Cascade.WriteBack` | lib/resolve-notion-page.ts:60-70 | a cache write is attempted exactly when the path names a sub-page, the cascade reached the site map and the site map produced an id; it stores that id under the call's cache key with no TTL. `Properties.OnlySiteMapHitsAreCached` and `Properties.SiteMapHitIsWrittenBack` restate this in terms of the resolution |
| `Cascade.Present` | lib/resolve-notion-page.ts:95-103 | an `UNAUTHORISED` record gives the unauthorised error naming the page id with status 404; a record gives `props` for that record merged with `pageAcl(props)` |
| `Cascade.Respond` | lib/resolve-notion-page.ts:52-103 | both errors carry status 404; when nothing resolved the result is the not-found error naming the path; the result is the page object exactly when an id resolved and its fetch gave a record; whenever an id resolved, the result is `Present` for that id and its fetched page, so the unauthorised error names the resolved id and the page object is built from it. `Properties.OutcomesAreExclusive` and `Properties.SiteMapMissIsNotFound` prove the other directions |
| `Cascade.StoreCalls` | lib/resolve-notion-page.ts:35-76 | an invocation makes at most two store calls, and every one of them uses the call's own cache key, which exists only for a sub-page path; the read is logged with the answer the resolution used; `Properties.StoreCallsFollowEffects` proves they are exactly the store calls among `Effects` |
| `Cascade.Effects` | lib/resolve-notion-page.ts:20-103 | the calls of one invocation start with the parse of the path, or with the fetch of the root page for the root path, and a call that finds nothing ends with the site-map load; `Properties.CallCounts`, `Properties.CacheReadExactlyWhenReached` and the short-circuit lemmas give the counts and the order |
| `Resolver.ProbePageId` | lib/resolve-notion-page.ts:21-50 | the page id is the direct parse if truthy, else the parsed override if truthy, else the cache's answer unparsed (a failed read leaves it unset); the store is read once, under the documented key, exactly when both earlier steps failed and never otherwise, as the store's log shows; the answer it acts on is the one the store logged for that read, and a cache-supplied id is what the store holds there |
| `Resolver.FallBackToSiteMap` | lib/resolve-notion-page.ts:57-86 | the page id is the site map's entry; on a hit the page is fetched and the store gains exactly that key mapped to the id with no TTL, or stays as it was if the write failed; on a miss nothing is fetched and the store is unchanged; the store's log gains exactly one write on a hit and nothing on a miss |
| `Resolver.LocateSubpage` | lib/resolve-notion-page.ts:20-87 | for a sub-page path, the id is unset exactly when nothing resolved, and is otherwise the resolved id with its fetched page; the calls before and after the id are `Search` and the fetch plus write-back; the store's log gains exactly `StoreCalls`, whose read carries the answer the resolution used, and its entries change only by a successful write-back |
| `Resolver.FetchPage` | lib/resolve-notion-page.ts:20-93 | the same for any path; for the root path the id is the root page's, and the store is neither read nor written |
| `Resolver.PresentPage` | lib/resolve-notion-page.ts:95-103 | the result is `Present` for the fetched page, so the marker gives the unauthorised error and a record gives `props` merged with `pageAcl(props)`; the ACL is consulted only for a record |
| `Resolver.ResolveNotionPage` | lib/resolve-notion-page.ts:11-104 | the result equals `Respond` for what the cache answered, whatever happened to the write; the calls made are exactly `Effects`; the cache answer is a failure or the old store's value; the store changes only when a site-map hit was written back, and then in exactly that entry; the calls made on the store, as its log records them, are exactly `StoreCalls`, so the cache answer the result depends on is the one the store's read returned |
| `Properties.RootPathSkipsCascade` | lib/resolve-notion-page.ts:88-93 | for the root path the root page is fetched and nothing else: no parse, override, cache read, site map or write-back |
| `Properties.DirectParseShortCircuits` | lib/resolve-notion-page.ts:21-23 | a path that parses is used directly; the only calls are that parse, the fetch and the ACL |
| `Properties.OverrideShortCircuits` | lib/resolve-notion-page.ts:23-31 | after a failed parse, an override whose value parses decides the id; no cache or site map is consulted |
| `Properties.UnparsableOverrideFallsThrough` | lib/resolve-notion-page.ts:29-40 | an override that does not parse leads to the cache read |
| `Properties.CacheReadExactlyWhenReached` | lib/resolve-notion-page.ts:35-49 | a cache read under a key happens if and only if the path names a sub-page, direct parse and override both failed, and the key is `uri-to-page-id:{domain}:{environment}:{rawPageId}` |
| `Properties.CallCounts` | lib/resolve-notion-page.ts:52-92 | every call reads the cache at most once, fetches a page exactly once unless not found (then never), and writes the cache exactly once when there is a write-back and otherwise never |
| `Properties.SearchCounts` | lib/resolve-notion-page.ts:20-58 | looking for the page id reads the cache at most once and neither fetches a page nor writes the cache |
| `Properties.ConclusionCounts` | lib/resolve-notion-page.ts:60-103 | once the id is known there is one fetch, one write exactly when there is a write-back, and no cache read |
| `Properties.CacheHitIsFinal` | lib/resolve-notion-page.ts:43-53 | a truthy cache answer is the page id exactly as stored, not parsed again; the site map is not loaded and nothing is written back |
| `Properties.SiteMapHitIsWrittenBack` | lib/resolve-notion-page.ts:57-70 | a site-map hit resolves to its id, and the write-back maps the cache key to that id with no TTL |
| `Properties.SiteMapMissIsNotFound` | lib/resolve-notion-page.ts:78-86 | a site-map miss returns `Not found "<rawPageId>"` with 404, writes nothing and fetches nothing |
| `Properties.OnlySiteMapHitsAreCached` | lib/resolve-notion-page.ts:60-86 | there is a write-back if and only if the site map supplied the id; a not-found result attempts no cache write |
| `Properties.ReadFailureIsMiss` | lib/resolve-notion-page.ts:41-49 | a failed read gives the same resolution, result, calls and write-back as an empty answer |
| `Properties.ReplyUnusedUnlessCacheReached` | lib/resolve-notion-page.ts:40 | when the cascade stops before the cache, the cache's answer changes nothing: resolution, result, calls and write-back |
| `Properties.ReadFailureKeepsResponse` | lib/resolve-notion-page.ts:40-58 | if the stored value for the path is absent or agrees with the site map, a failed read returns the same result as a working one |
| `Properties.SiteMapHitThenCacheHit` | lib/resolve-notion-page.ts:40-70 | after a site-map hit whose write succeeded, the same request resolves from the cache to the same id with the same result and no further write |
| `Properties.NotFoundIsNotUnauthorised` | lib/resolve-notion-page.ts:80-99 | no not-found message equals any unauthorised message |
| `Properties.NotFoundNamesPath` | lib/resolve-notion-page.ts:82 | equal not-found messages name equal paths |
| `Properties.UnauthorisedNamesPage` | lib/resolve-notion-page.ts:98 | equal unauthorised messages name equal page ids |
| `Properties.CacheKeyDeterminesPath` | lib/resolve-notion-page.ts:35 | within one domain and environment, distinct paths have distinct cache keys |
| `Properties.StoreOpsOfSearch` | lib/resolve-notion-page.ts:20-58 | before the page id is known, the only store call is the read, made exactly when the cascade reaches the cache, with the answer the resolution used |
| `Properties.StoreOpsOfConclusion` | lib/resolve-notion-page.ts:60-103 | after the page id is known, the only store call is the write-back, made exactly when there is one |
| `Properties.StoreCallsFollowEffects` | lib/resolve-notion-page.ts:35-76 | the store calls among an invocation's collaborator calls are exactly `StoreCalls`, so the ghost `Effects` and the store's own log agree |
| `Properties.PageObjectCarriesPage` | lib/resolve-notion-page.ts:95-103 | whenever the result is the page object, an id resolved and its fetch gave a record; unless the ACL result overrides them, the object's `pageId` is that id, its `recordMap` the fetched record map, its `site` the site, and its route ids and inverse overrides the loaded ones |
| `Properties.OutcomesAreExclusive` | lib/resolve-notion-page.ts:52-103 | the result is not-found if and only if nothing resolved; unauthorised if and only if the fetched page is the marker; the page object if and only if it is a record; never both errors |

## Left out

- `lib/proxy-signed-urls.ts` is not part of this model. It only fetches URLs through the foreign libraries `got`, `p-map` (concurrency 8) and `p-memoize`.
- The grammar of `parsePageId` (notion-utils) is not shown, so it is an uninterpreted function. A parse that yields `undefined`, `null` or `""` is `None`, or `Some("")` treated as falsy.
- The bodies of `getPage`, `getSiteMap`, `acl.pageAcl`, `getExposedRouteIds`, `getPageUrlOverrides` and `getInversePageUrlOverrides` are not shown. They are inputs, and their exceptions, which propagate uncaught, are not modelled.
- The loads at lines 14-18 happen on every call. They are inputs and are not recorded among the calls.
- Logging (lines 48, 75, 91) and the `async`/`await` suspensions are left out.
- The backing store of `db` is not shown. Its TTL is stored with the entry but expiry is not modelled.
- Db.Store.Set: a throwing `set` is assumed to leave the store unchanged. A partial write by the real store is not modelled.
- Resolver.ResolveNotionPage: its ghost trace `Effects` records the parse, override, site-map, fetch and ACL calls itself, because those collaborators are pure functions here with no state of their own. Only the store calls are checked against a log kept by `Db.Store`, through `Properties.StoreCallsFollowEffects`.
- The constant `useUriToPageIdCache` is always `true`, so the model has no switch for it.
- Property lookup on plain objects (`pageUrlOverrides[rawPageId]`, `pageUrlAdditions[rawPageId]` and `siteMap.canonicalPageMap[rawPageId]`) also finds inherited members such as `constructor`. The model treats the override tables and `canonicalPageMap` as plain maps.
- The ACL's extra fields are values of a small `Field` datatype. Their actual shapes, including an `error` field the ACL might add, are not modelled.
- The cache reply and the values read are strings. A non-string value in the store is not modelled.
