# Lazy route list of movisio/lazy-router, modelled in Dafny

`LazyRouteList` (src/Routing/LazyRouteList.php) is a Nette `RouteList` that does not hold all of
an application's routes in memory. When it is set up, it reads a summary from the cache. On a
miss, it runs the user's route loader. It then partitions the loaded routes two ways:

- by the static part of each mask (the text before the first parameter, optional bracket or
  query part, with trailing `/` removed);
- by each route's `presenter` default.

It saves every group under `lazy_routes_by_path:<key>` or `lazy_routes_by_presenter:<key>`.
It then keeps only two placeholder arrays that map every group key to `null`. A request
(`match`) loads the path groups whose key is a literal prefix of the relative path and are
still `null`, and appends their routes to the active list. A link (`constructUrl`) does the
same for the one presenter group named in the parameters. Both then delegate to the inherited
first-match-wins logic.

The model has six modules:

- `Routes` (routes.dfy): routes, parameters, and first-match-wins over a list of routes.
- `StaticPath` (static_path.dfy): the path key of a mask. The leftmost match of the route
  pattern used by the split is characterised exactly, and PHP's `rtrim($s, '/')` is written out.
- `Partition` (partition.dfy): `categorizeRoutes`. PHP's ordered arrays are sequences of groups
  with distinct keys. It is proved against an independent reference definition: keys in order of
  first occurrence, and each group equal to the input filtered by its key.
- `RouteCache` (route_cache.dfy): the cache as a class over a key-value map, the cache keys, and
  what seeding stores.
- `LazyExpansion` (expansion.dfy): specification functions for the two expansion loops, with
  their properties.
- `LazyRouting` (lazy_route_list.dfy): the class `LazyRouteList`. It has the fields `routers`
  (the inherited list), `routersByPath`, `routersByPresenter` and `cache`. Its methods are proved
  against the functions above. Its invariant `Valid` states two things:
  - placeholder keys are distinct;
  - every router is either one of the others, or comes from exactly one loaded slot. The
    others are the routers that no current slot accounts for: those added directly, and
    those loaded into placeholder arrays that a later setup replaced.

Behaviour of the code that the model keeps, although it is easy to assume otherwise:

- The cache keys are `lazy_routes_groups`, `lazy_routes_by_path:<key>` and
  `lazy_routes_by_presenter:<key>`.
- A route without a `presenter` default is not a configuration error. PHP reads `null`, warns,
  and groups the route under the key `""`. The model writes such a route with presenter `""`.
  Because `""` is falsy, that group is never loaded by `constructUrl`
  (`ExpandByPresenter`).
- A cache miss while expanding is not fatal. A path slot stays `null` and nothing is appended.
  A presenter slot becomes `[]` and is never retried.
- The empty path key is a prefix of every path, so its group is loaded by the first request of
  any kind (`EmptyKeyAlwaysExpanded`).
- Routes are not deduplicated across the two schemes. A route can enter the active list once
  through its path group and again through its presenter group (`NoDedupAcrossSchemes`). What
  holds is that each group is loaded at most once (`ExpandByPathIdempotent`,
  `ExpandByPresenterIdempotent`) and the class's accounting invariant.

## Model

| member | source | states |
|---|---|---|
| `Routes.FirstHitIndex` | src/Routing/LazyRouteList.php:111 | the inherited match scans the list in order: every route before the index declines and the route at the index accepts |
| `Routes.FirstHit` | src/Routing/LazyRouteList.php:111 | first match wins: None exactly when every route declines, otherwise the answer of the earliest accepting route |
| `Routes.FirstHitAppend` | src/Routing/LazyRouteList.php:105-106 | routes appended behind the active ones never change an answer the list already gave |
| `StaticPath.FirstMarker` | src/Routing/LazyRouteList.php:80 | the leftmost position where the split pattern (parameter, bracket or query part) matches |
| `StaticPath.StaticPart` | src/Routing/LazyRouteList.php:80 | the first piece of the split is a prefix of the mask with no match inside it, and ends where the first match starts |
| `StaticPath.TrimTrailingSlashes` | src/Routing/LazyRouteList.php:81 | rtrim with '/': a prefix of the input that does not end in '/', with only '/' removed |
| `StaticPath.PathKey` | src/Routing/LazyRouteList.php:80-81 | the key a route is grouped under for matching is a prefix of its mask and never ends in '/' |
| `StaticPath.PathKeyShape` | src/Routing/LazyRouteList.php:80-81 | the path key is a prefix of the mask, never ends in '/', holds no pattern match, and only '/' lies between it and the first match |
| `StaticPath.PathKeyOfParameterMasks` | src/Routing/LazyRouteList.php:80-81 | `blog/<id>` and `blog/<id>/edit` both get the key `blog` |
| `StaticPath.PathKeyOfOptionalMask` | src/Routing/LazyRouteList.php:80-81 | an optional segment ends the static part: `shop[/<sku>]` gets `shop` |
| `StaticPath.PathKeyOfQueryMask` | src/Routing/LazyRouteList.php:80-81 | a query part ends the static part, together with the white space before '?' |
| `StaticPath.PathKeyOfRootAndEmptyBrackets` | src/Routing/LazyRouteList.php:80-81 | a mask that is parametric from its start gets the empty key; `<>` is not a parameter and stays in the key |
| `Partition.Tag` | src/Routing/LazyRouteList.php:78-84 | each route paired with the key it is appended under in a scheme, in input order |
| `Partition.KeyIndex` | src/Routing/LazyRouteList.php:82 | how a PHP array finds an entry by key: the position of the key, with no earlier occurrence, or the length when the key is absent |
| `Partition.IndexOf` | src/Routing/LazyRouteList.php:82 | the position of an existing key in the array of groups, or the array's length when the key is new |
| `Partition.Append` | src/Routing/LazyRouteList.php:82 | `$byPath[$staticPath][] = $route`: the route goes at the end of the group under its key, or opens a new group at the end of the array; stated by the two lemmas below |
| `Partition.AppendToExistingGroup` | src/Routing/LazyRouteList.php:82 | appending under a key that has a group keeps the array equal to the reference grouping of the longer input |
| `Partition.AppendNewGroup` | src/Routing/LazyRouteList.php:82 | appending under a new key opens its group last and keeps the array equal to the reference grouping of the longer input |
| `Partition.GroupBy` | src/Routing/LazyRouteList.php:78-85 | the array that appending every keyed route in order builds; characterised by `GroupByCharacterized` |
| `Partition.Grouping` | src/Routing/LazyRouteList.php:78-85 | the groups of one scheme; characterised by `CategorizeKeepsOrder` and `CategorizeLossless` |
| `Partition.Categorize` | src/Routing/LazyRouteList.php:73-88 | the loop builds both groupings in one pass, equal to appending each route to its path group and its presenter group |
| `Partition.FirstOccurrences` | src/Routing/LazyRouteList.php:82-84 | reference order of group keys: every key once, in order of first occurrence |
| `Partition.GroupByCharacterized` | src/Routing/LazyRouteList.php:82-84 | the grouping the loop builds has distinct keys, in order of first occurrence, each group holding exactly the routes with its key in input order |
| `Partition.GroupByLossless` | src/Routing/LazyRouteList.php:78-85 | over all groups every keyed route occurs as often as in the input, and the group sizes sum to the input length |
| `Partition.CategorizeLossless` | src/Routing/LazyRouteList.php:78-85 | in each scheme the routes of all groups are the input routes as a multiset, and the sizes sum to the number of routes |
| `Partition.CategorizeKeepsOrder` | src/Routing/LazyRouteList.php:82-84 | keys are distinct and in first-occurrence order; each group is the input filtered by its key, so order within a group is kept |
| `Partition.EachRouteInOneGroup` | src/Routing/LazyRouteList.php:78-85 | every input route lies in the group of its own key, which exists, and in no other group |
| `Partition.FilterSelects` | src/Routing/LazyRouteList.php:82-84 | the routes filtered by a key are every and only the input routes with that key |
| `Partition.GroupMember` | src/Routing/LazyRouteList.php:82-84 | a group holds only input routes, and only those whose key is the group's key |
| `RouteCache.GroupCacheKey` | src/Routing/LazyRouteList.php:53 | the cache key of a group starts with its scheme's prefix and ':' and ends with the group key (the same text is used for reads at lines 104 and 128) |
| `RouteCache.GroupCacheKeysDistinct` | src/Routing/LazyRouteList.php:23-25 | two group cache keys are equal exactly when scheme and key are equal, and none equals the summary key |
| `RouteCache.Cache.constructor` | src/Routing/LazyRouteList.php:21 | a cache over the given entries |
| `RouteCache.Cache.Load` | src/Routing/LazyRouteList.php:104 | a read returns the stored value, or None exactly when the key is absent |
| `RouteCache.Cache.Save` | src/Routing/LazyRouteList.php:53 | a write replaces the one entry and keeps every other |
| `RouteCache.SaveGroups` | src/Routing/LazyRouteList.php:51-58 | the save loops never remove an entry from the store |
| `RouteCache.SaveGroupsStored` | src/Routing/LazyRouteList.php:51-58 | after the save loop every group of distinct keys can be read back under its cache key |
| `RouteCache.SaveGroupsKeeps` | src/Routing/LazyRouteList.php:51-58 | the save loop adds exactly the groups' cache keys and keeps every other entry |
| `RouteCache.Placeholders` | src/Routing/LazyRouteList.php:61-62 | array_fill_keys(array_keys(...), null): the group keys in array order, each unloaded |
| `RouteCache.PlaceholdersPristine` | src/Routing/LazyRouteList.php:61-62 | the placeholders of distinct groups have distinct keys and are all null |
| `RouteCache.SeededPathGroups` | src/Routing/LazyRouteList.php:51-54 | seeding stores every path group under `lazy_routes_by_path:<key>` |
| `RouteCache.SeededPresenterGroups` | src/Routing/LazyRouteList.php:55-58 | seeding stores every presenter group under `lazy_routes_by_presenter:<key>` |
| `RouteCache.Seeded` | src/Routing/LazyRouteList.php:43-63 | the store after the loader fallback keeps every earlier key and holds a summary under `lazy_routes_groups` |
| `RouteCache.SeededKeeps` | src/Routing/LazyRouteList.php:51-58 | seeding keeps the value of every entry that is neither a group cache key of the two groupings nor the summary key |
| `RouteCache.SeededContents` | src/Routing/LazyRouteList.php:43-63 | after seeding, both schemes' groups are stored, the summary holds exactly the group keys, all null, and every placeholder can be loaded |
| `LazyExpansion.Lookup` | src/Routing/LazyRouteList.php:104 | a group read yields the stored routes exactly when a group is stored under the key |
| `LazyExpansion.LoadedUpdate` | src/Routing/LazyRouteList.php:129-133 | filling one null slot adds exactly its routes to the routes held by loaded slots |
| `LazyExpansion.LoadedRoutesUnloaded` | src/Routing/LazyRouteList.php:61-62 | placeholder arrays with every slot null hold no routes |
| `LazyExpansion.StrncmpPrefix` | src/Routing/LazyRouteList.php:99 | PHP's binary-safe strncmp over the key's length (first difference decides, a string that ends first is smaller) is zero exactly when the key is a prefix of the path, also when the path is shorter than the key |
| `LazyExpansion.Wants` | src/Routing/LazyRouteList.php:99-103 | the expansion test of match, a null slot whose key is a prefix of the path; tied to the source's strncmp by `WantsByStrncmp` |
| `LazyExpansion.WantsByStrncmp` | src/Routing/LazyRouteList.php:99-103 | a slot is expanded exactly when it is null and `strncmp($url, $path, strlen($path))` is zero, as computed by the separate strncmp model |
| `LazyExpansion.ExpandByPath` | src/Routing/LazyRouteList.php:98-109 | the expansion loop of match keeps the number of slots |
| `LazyExpansion.ExpandByPathShape` | src/Routing/LazyRouteList.php:98-108 | match keeps keys and order; a slot changes only if its key is a prefix of the path and it is null, and then becomes its stored group |
| `LazyExpansion.ExpandByPathLoadsWanted` | src/Routing/LazyRouteList.php:98-108 | with the groups in the store, a slot changes exactly when its key is a prefix of the path and it is null, and it then holds its group |
| `LazyExpansion.EmptyKeyAlwaysExpanded` | src/Routing/LazyRouteList.php:99 | an unloaded group under the empty key is loaded by every match |
| `LazyExpansion.ExpandByPathAddedFrom` | src/Routing/LazyRouteList.php:103-107 | a route is appended by match exactly when it belongs to the stored group of a slot that is a prefix of the path and still null |
| `LazyExpansion.ExpandByPathAccounts` | src/Routing/LazyRouteList.php:103-107 | the routes of loaded slots grow by exactly the routes match appends |
| `LazyExpansion.ExpandByPathAppendsInOrder` | src/Routing/LazyRouteList.php:98-108 | the active list grows by exactly the groups of the slots that went from null to loaded, concatenated in placeholder-array order, each group in its stored order |
| `LazyExpansion.ExpandByPathIdempotent` | src/Routing/LazyRouteList.php:103 | each path group is loaded at most once: a second match on the same path appends nothing and changes no slot |
| `LazyExpansion.PrefixExample` | src/Routing/LazyRouteList.php:99 | for `admin/users`, groups `adm` and `""` are loaded (prefix test on characters), `api` is not |
| `LazyExpansion.Truthy` | src/Routing/LazyRouteList.php:124 | PHP truthiness of a presenter name: the empty string and "0" are false, every other string (including "00" and " ") is true |
| `LazyExpansion.SlotIndex` | src/Routing/LazyRouteList.php:125 | array_key_exists: the position of the presenter's slot, or the length when it is not a key |
| `LazyExpansion.ExpandByPresenter` | src/Routing/LazyRouteList.php:122-133 | constructUrl keeps the number and the keys of the slots, and a missing or falsy presenter ("" or "0") loads nothing |
| `LazyExpansion.ExpandByPresenterShape` | src/Routing/LazyRouteList.php:122-133 | constructUrl changes at most one slot, that of a truthy requested presenter while it is null; it then holds exactly the appended routes, which are the stored group; on a cache miss it becomes the empty list and nothing is appended; otherwise nothing changes |
| `LazyExpansion.ExpandByPresenterAccounts` | src/Routing/LazyRouteList.php:128-133 | the routes of loaded slots grow by exactly the routes constructUrl appends |
| `LazyExpansion.ExpandByPresenterIdempotent` | src/Routing/LazyRouteList.php:126 | each presenter group is loaded at most once: a second link to it appends nothing |
| `LazyExpansion.GroupByUnder` | src/Routing/LazyRouteList.php:78-85 | the groups whose key is a prefix of a path hold, as a multiset, exactly the keyed routes whose key is such a prefix |
| `LazyExpansion.ColdMatchLoadsPrefixRoutes` | src/Routing/LazyRouteList.php:98-108 | right after seeding, match appends the path groups whose key is a prefix of the path, whole and in group order; these are every and only the loaded routes whose path key is such a prefix, each exactly as often as it was loaded |
| `LazyExpansion.ColdLinkLoadsPresenterRoutes` | src/Routing/LazyRouteList.php:122-133 | right after seeding, a link to a truthy presenter appends exactly the loaded routes of that presenter, in loading order; every and only those routes |
| `LazyExpansion.NoDedupAcrossSchemes` | src/Routing/LazyRouteList.php:104-132 | one route reached through its path group and through its presenter group is appended twice |
| `LazyRouting.CanonicalInt` | src/Routing/LazyRouteList.php:99 | the path keys PHP would turn into integer array keys: never empty, never containing '/', and including "0" |
| `LazyRouting.LazyRouteList.constructor` | src/Routing/LazyRouteList.php:31-35 | a new list with no routers and empty placeholder arrays, over the given cache |
| `LazyRouting.LazyRouteList.Add` | src/Routing/LazyRouteList.php:106 | add appends one router and keeps the invariant |
| `LazyRouting.LazyRouteList.AddAll` | src/Routing/LazyRouteList.php:105-107 | the foreach appends the loaded routers in order |
| `LazyRouting.LazyRouteList.SaveAll` | src/Routing/LazyRouteList.php:51-58 | the save loop leaves the store as saving each group in array order |
| `LazyRouting.LazyRouteList.Seed` | src/Routing/LazyRouteList.php:45-63 | the loader fallback saves both groupings of the loaded routes and returns their placeholders |
| `LazyRouting.LazyRouteList.SetLazyCachedRoutes` | src/Routing/LazyRouteList.php:41-66 | the loader runs exactly on a summary miss; on a hit the store is unchanged and both arrays come from the summary; on a miss the store is seeded; both arrays are all null, their groups are stored, and the invariant holds |
| `LazyRouting.LazyRouteList.ExpandPaths` | src/Routing/LazyRouteList.php:98-109 | the loop of match leaves the slots and the router list as the path expansion specifies |
| `LazyRouting.LazyRouteList.Match` | src/Routing/LazyRouteList.php:95-112 | expands the path slots, keeps the invariant and the other routers, answers first-match-wins over the grown list, and keeps any answer the old list already gave |
| `LazyRouting.LazyRouteList.ExpandPresenter` | src/Routing/LazyRouteList.php:122-134 | the branch of constructUrl leaves the slots and the router list as the presenter expansion specifies |
| `LazyRouting.LazyRouteList.ConstructUrl` | src/Routing/LazyRouteList.php:120-137 | expands the requested presenter, keeps the invariant and the other routers, builds first-wins over the grown list, and keeps any URL the old list already built |
| `LazyRouting.ColdThenWarmStart` | src/Routing/LazyRouteList.php:41-66 | a cold start runs the loader, a warm start on the seeded cache does not, and both lists get the same placeholder arrays over the same store |

## Left out

- The route loader is not called. Its result is the parameter `loaded`, and `loaderRan` records whether setup asked for it. The dependencies it passes to the cache are not modelled.
- Nette's `Cache` is a key-value map with load and save. Serialisation, dependencies, expiry and stampede protection are not modelled.
- A value under a group cache key that is not a list of routes is treated like a miss. It cannot arise from this class, because group keys never collide with each other or with the summary key.
- `parent::match` and `parent::constructUrl` are first-match-wins over the router list, with a per-route function supplied by the caller. Nette's RouteList internals are not part of this model: module prefixes, its link-generation caches, and the treatment of an empty parameter array as no match.
- Route flags passed to `add` are an opaque integer field of the route.
- The HTTP request is reduced to its relative path. `refUrl` is not used by the lazy logic and is left out.
- The constructor's `module` argument is passed to the parent and is not modelled.
- PHP's strings are byte strings, and the split pattern (compiled without `/u`), `rtrim` and `strncmp` work on bytes. The model works on sequences of characters. For valid UTF-8 the results agree, because every character the pattern, `rtrim` and the prefix test single out is ASCII, and UTF-8 keeps the order of characters.
- PHP's warnings (a missing presenter default, `foreach` over `null` after a cache miss) are not modelled. The values PHP continues with are.
- LazyRouting.LazyRouteList.Match: requires that no path key is a canonical decimal integer string. PHP would store such a key as an int, and under strict_types `strlen` would then throw a TypeError. `CanonicalInt` also ignores PHP's 64-bit limit on such keys.
- LazyRouting.LazyRouteList.SetLazyCachedRoutes: requires that a stored summary has the shape this class stores: two null-filled arrays with distinct keys, whose groups are in the store. A summary written by other code is not modelled.
- Concurrent requests sharing one list are not modelled; the source assumes one request at a time.
- Deferred subtree routers with load callbacks are not part of this model; no such code exists in this file.
