/** The lazily filled, cache-backed route list (src/Routing/LazyRouteList.php:15-138).
    The inherited RouteList is reduced to its ordered list of routers, which `add`
    appends to, and to first-match-wins over that list; how a single route matches a
    request or builds a URL is supplied by the caller as a function. */
module LazyRouting {
  import opened Routes
  import opened Partition
  import opened RouteCache
  import opened LazyExpansion

  predicate IsDigit(c: char) {
    '0' <= c <= '9'
  }

  /** A string PHP turns into an integer when it is used as an array key: decimal
      digits with an optional '-', no leading zero except for "0" itself. */
  function CanonicalInt(s: string): (canonical: bool)
    ensures canonical ==> s != "" && '/' !in s
    ensures s == "0" ==> canonical
  {
    var digits := if |s| > 0 && s[0] == '-' then s[1..] else s;
    && |digits| > 0
    && (forall i :: 0 <= i < |digits| ==> IsDigit(digits[i]))
    && (digits[0] != '0' || s == "0")
  }

  /** The per-route test of the inherited match, for one relative path. */
  function Matching(matcher: (Route, string) -> Option<Params>, url: string): Route -> Option<Params> {
    r => matcher(r, url)
  }

  /** The per-route step of the inherited constructUrl, for one set of parameters. */
  function Building(builder: (Route, Params) -> Option<string>, params: Params): Route -> Option<string> {
    r => builder(r, params)
  }

  class LazyRouteList {
    /** The inherited RouteList's routers, in the order add appended them. */
    var routers: seq<Route>
    /** Path key => null or the loaded group, in the summary's order (for matching). */
    var routersByPath: seq<Slot>
    /** Presenter => null or the loaded group, in the summary's order (for links). */
    var routersByPresenter: seq<Slot>
    const cache: Cache
    /** The routers that no current slot accounts for: added directly, or loaded
        before the placeholder arrays were last replaced. */
    ghost var others: multiset<Route>

    /** Placeholder keys are distinct, and every router is either one of the others or
        comes from exactly one loaded slot: each loaded group was appended once. */
    ghost predicate Valid()
      reads this
    {
      && DistinctSlotKeys(routersByPath)
      && DistinctSlotKeys(routersByPresenter)
      && multiset(routers) == others + LoadedRoutes(routersByPath) + LoadedRoutes(routersByPresenter)
    }

    constructor (cache: Cache)
      ensures this.cache == cache
      ensures routers == [] && routersByPath == [] && routersByPresenter == []
      ensures Valid()
    {
      this.cache := cache;
      routers, routersByPath, routersByPresenter := [], [], [];
      others := multiset{};
    }

    /** RouteList::add: the router goes to the end of the list. */
    method Add(r: Route)
      modifies this
      ensures routers == old(routers) + [r]
      ensures others == old(others) + multiset{r}
      ensures routersByPath == old(routersByPath) && routersByPresenter == old(routersByPresenter)
      ensures old(Valid()) ==> Valid()
    {
      routers := routers + [r];
      others := others + multiset{r};
    }

    /** A foreach over loaded routers that adds each of them, in order. */
    method AddAll(rs: seq<Route>)
      modifies this
      ensures routers == old(routers) + rs
      ensures others == old(others) + multiset(rs)
      ensures routersByPath == old(routersByPath) && routersByPresenter == old(routersByPresenter)
    {
      for j := 0 to |rs|
        invariant routers == old(routers) + rs[..j]
        invariant others == old(others) + multiset(rs[..j])
        invariant routersByPath == old(routersByPath) && routersByPresenter == old(routersByPresenter)
      {
        Add(rs[j]);
        assert rs[..j + 1] == rs[..j] + [rs[j]];
      }
      assert rs[..|rs|] == rs;
    }

    /** The two foreach loops of setLazyCachedRoutes that save router groups: each
        group of gs, in array order, under its cache key. */
    method SaveAll(scheme: Scheme, gs: seq<Group>)
      modifies cache
      ensures cache.entries == SaveGroups(old(cache.entries), scheme, gs)
    {
      for i := 0 to |gs|
        invariant cache.entries == SaveGroups(old(cache.entries), scheme, gs[..i])
      {
        cache.Save(GroupCacheKey(scheme, gs[i].key), RouteGroup(gs[i].routes));
        assert gs[..i + 1][..i] == gs[..i];
      }
      assert gs[..|gs|] == gs;
    }

    /** The loader fallback of setLazyCachedRoutes: partition the loaded routes, save
        every path group and every presenter group, and return the placeholder arrays
        (Nette's cache then saves them under the summary key). */
    method Seed(loaded: seq<Route>) returns (byPathKeys: seq<Slot>, byPresenterKeys: seq<Slot>)
      modifies cache
      ensures byPathKeys == Placeholders(Grouping(ByPath, loaded))
      ensures byPresenterKeys == Placeholders(Grouping(ByPresenter, loaded))
      ensures cache.entries ==
                SaveGroups(SaveGroups(old(cache.entries), ByPath, Grouping(ByPath, loaded)),
                           ByPresenter, Grouping(ByPresenter, loaded))
    {
      var byPath, byPresenter := Categorize(loaded);
      SaveAll(ByPath, byPath);
      SaveAll(ByPresenter, byPresenter);
      byPathKeys, byPresenterKeys := Placeholders(byPath), Placeholders(byPresenter);
    }

    /** setLazyCachedRoutes: read the summary; on a miss run the loader (its result is
        `loaded`) through Seed and save the summary. Both placeholder arrays come from
        the summary, every group still unloaded. */
    method SetLazyCachedRoutes(loaded: seq<Route>) returns (loaderRan: bool)
      requires SummaryWellFormed(cache.entries)
      modifies this, cache
      ensures loaderRan <==> CACHE_KEY_GROUPS !in old(cache.entries)
      ensures !loaderRan ==>
                && cache.entries == old(cache.entries)
                && routersByPath == old(cache.entries)[CACHE_KEY_GROUPS].byPath
                && routersByPresenter == old(cache.entries)[CACHE_KEY_GROUPS].byPresenter
      ensures loaderRan ==>
                && cache.entries == Seeded(old(cache.entries), Grouping(ByPath, loaded), Grouping(ByPresenter, loaded))
                && routersByPath == Placeholders(Grouping(ByPath, loaded))
                && routersByPresenter == Placeholders(Grouping(ByPresenter, loaded))
      ensures routers == old(routers)
      ensures Pristine(routersByPath) && Pristine(routersByPresenter)
      ensures GroupsCached(cache.entries, ByPath, routersByPath)
      ensures GroupsCached(cache.entries, ByPresenter, routersByPresenter)
      ensures SummaryWellFormed(cache.entries)
      ensures Valid()
    {
      var summary := cache.Load(CACHE_KEY_GROUPS);
      if summary.Some? {
        loaderRan := false;
        routersByPath, routersByPresenter := summary.value.byPath, summary.value.byPresenter;
      } else {
        loaderRan := true;
        var byPathKeys, byPresenterKeys := Seed(loaded);
        cache.Save(CACHE_KEY_GROUPS, GroupSummary(byPathKeys, byPresenterKeys));
        SeededContents(old(cache.entries), loaded);
        routersByPath, routersByPresenter := byPathKeys, byPresenterKeys;
      }
      others := multiset(routers);
      LoadedRoutesUnloaded(routersByPath);
      LoadedRoutesUnloaded(routersByPresenter);
    }

    /** The expansion loop of match, walking the path slots in array order. */
    method ExpandPaths(url: string)
      modifies this
      ensures routersByPath == ExpandByPath(old(routersByPath), url, cache.entries).slots
      ensures routers == old(routers) + ExpandByPath(old(routersByPath), url, cache.entries).added
      ensures routersByPresenter == old(routersByPresenter)
    {
      ghost var slots0 := routersByPath;
      var i := 0;
      while i < |routersByPath|
        invariant i <= |slots0| == |routersByPath|
        invariant routersByPath == ExpandByPath(slots0[..i], url, cache.entries).slots + slots0[i..]
        invariant routers == old(routers) + ExpandByPath(slots0[..i], url, cache.entries).added
        invariant routersByPresenter == old(routersByPresenter)
      {
        ExpandByPathStep(slots0, i, url, cache.entries);
        var path := routersByPath[i].key;
        if path <= url && routersByPath[i].loaded.None? {
          var group := cache.Load(GroupCacheKey(ByPath, path));
          if group.Some? && group.value.RouteGroup? {
            routersByPath := routersByPath[i := Slot(path, Some(group.value.routes))];
            AddAll(group.value.routes);
          }
        }
        i := i + 1;
      }
      assert slots0[..i] == slots0;
    }

    /** match: load every unloaded path group whose key is a prefix of the relative
        path, appending its routers, then match first-wins over the whole list. A
        result the list already produced before the expansion is kept. */
    method Match(url: string, matcher: (Route, string) -> Option<Params>) returns (params: Option<Params>)
      requires Valid()
      requires forall i :: 0 <= i < |routersByPath| ==> !CanonicalInt(routersByPath[i].key)
      modifies this
      ensures routersByPath == ExpandByPath(old(routersByPath), url, cache.entries).slots
      ensures routers == old(routers) + ExpandByPath(old(routersByPath), url, cache.entries).added
      ensures routersByPresenter == old(routersByPresenter)
      ensures others == old(others)
      ensures Valid()
      ensures params == FirstHit(routers, Matching(matcher, url))
      ensures FirstHit(old(routers), Matching(matcher, url)).Some? ==> params == FirstHit(old(routers), Matching(matcher, url))
    {
      ExpandPaths(url);
      others := old(others);
      ghost var x := ExpandByPath(old(routersByPath), url, cache.entries);
      ExpandByPathShape(old(routersByPath), url, cache.entries);
      ExpandByPathAccounts(old(routersByPath), url, cache.entries);
      assert multiset(routers) == multiset(old(routers)) + multiset(x.added);
      params := FirstHit(routers, Matching(matcher, url));
      if FirstHit(old(routers), Matching(matcher, url)).Some? {
        FirstHitAppend(old(routers), x.added, Matching(matcher, url));
      }
    }

    /** The expansion of constructUrl: when the parameters name a truthy presenter
        whose group is known and unloaded, the slot becomes [] and then receives each
        loaded router as it is added. */
    method ExpandPresenter(params: Params)
      modifies this
      ensures routersByPresenter == ExpandByPresenter(old(routersByPresenter), params, cache.entries).slots
      ensures routers == old(routers) + ExpandByPresenter(old(routersByPresenter), params, cache.entries).added
      ensures routersByPath == old(routersByPath)
    {
      ghost var slots0 := routersByPresenter;
      if "presenter" in params && Truthy(params["presenter"]) {
        var presenter := params["presenter"];
        var i := SlotIndex(routersByPresenter, presenter);
        if i < |routersByPresenter| && routersByPresenter[i].loaded.None? {
          var group := cache.Load(GroupCacheKey(ByPresenter, presenter));
          var rs := if group.Some? && group.value.RouteGroup? then group.value.routes else [];
          routersByPresenter := routersByPresenter[i := Slot(presenter, Some([]))];
          for j := 0 to |rs|
            invariant routersByPresenter == slots0[i := Slot(presenter, Some(rs[..j]))]
            invariant routers == old(routers) + rs[..j]
            invariant routersByPath == old(routersByPath)
          {
            Add(rs[j]);
            routersByPresenter := routersByPresenter[i := Slot(presenter, Some(routersByPresenter[i].loaded.value + [rs[j]]))];
            assert rs[..j + 1] == rs[..j] + [rs[j]];
          }
          assert rs[..|rs|] == rs;
        }
      }
    }

    /** constructUrl: expand the requested presenter's group, then build first-wins
        over the whole list. A URL the list already built before the expansion is kept. */
    method ConstructUrl(params: Params, builder: (Route, Params) -> Option<string>) returns (url: Option<string>)
      requires Valid()
      modifies this
      ensures routersByPresenter == ExpandByPresenter(old(routersByPresenter), params, cache.entries).slots
      ensures routers == old(routers) + ExpandByPresenter(old(routersByPresenter), params, cache.entries).added
      ensures routersByPath == old(routersByPath)
      ensures others == old(others)
      ensures Valid()
      ensures url == FirstHit(routers, Building(builder, params))
      ensures FirstHit(old(routers), Building(builder, params)).Some? ==> url == FirstHit(old(routers), Building(builder, params))
    {
      ExpandPresenter(params);
      others := old(others);
      ghost var x := ExpandByPresenter(old(routersByPresenter), params, cache.entries);
      ExpandByPresenterShape(old(routersByPresenter), params, cache.entries);
      ExpandByPresenterAccounts(old(routersByPresenter), params, cache.entries);
      assert multiset(routers) == multiset(old(routers)) + multiset(x.added);
      url := FirstHit(routers, Building(builder, params));
      if FirstHit(old(routers), Building(builder, params)).Some? {
        FirstHitAppend(old(routers), x.added, Building(builder, params));
      }
    }
  }

  /** Cold start and warm start agree: a list set up on an empty cache runs the loader
      and seeds the cache; a second list set up on that cache skips the loader (whatever
      it would have returned) and holds the same placeholder arrays, over the same
      store, so every later match and constructUrl behaves identically on both. */
  method ColdThenWarmStart(cache: Cache, loaded: seq<Route>, reloaded: seq<Route>)
      returns (cold: LazyRouteList, warm: LazyRouteList, coldRan: bool, warmRan: bool)
    requires CACHE_KEY_GROUPS !in cache.entries
    modifies cache
    ensures coldRan && !warmRan
    ensures cold.cache == cache && warm.cache == cache
    ensures cold.routers == warm.routers == []
    ensures cold.routersByPath == warm.routersByPath == Placeholders(Grouping(ByPath, loaded))
    ensures cold.routersByPresenter == warm.routersByPresenter == Placeholders(Grouping(ByPresenter, loaded))
    ensures cold.Valid() && warm.Valid()
  {
    cold := new LazyRouteList(cache);
    coldRan := cold.SetLazyCachedRoutes(loaded);
    warm := new LazyRouteList(cache);
    warmRan := warm.SetLazyCachedRoutes(reloaded);
  }
}
