/** The cache the lazy route list writes its groups to and reads them back from
    (src/Routing/LazyRouteList.php:21-25, 43-63, 104, 128). The store is a key-value
    map; dependencies, serialisation and invalidation belong to the cache itself and
    are not modelled. */
module RouteCache {
  import opened Routes
  import opened Partition

  /** One entry of a placeholder array: a group key and, once the group is loaded,
      its routes (None stands for the source's null). */
  datatype Slot = Slot(key: string, loaded: Option<seq<Route>>)

  /** What is stored under a cache key: one group of routes, or the summary of both
      placeholder arrays. */
  datatype Entry = RouteGroup(routes: seq<Route>) | GroupSummary(byPath: seq<Slot>, byPresenter: seq<Slot>)

  const CACHE_KEY_GROUPS: string := "lazy_routes_groups"
  const CACHE_KEY_BY_PATHS: string := "lazy_routes_by_path"
  const CACHE_KEY_BY_PRESENTER: string := "lazy_routes_by_presenter"

  /** The cache key of one group: the scheme's prefix, ':' and the group key. */
  function GroupCacheKey(scheme: Scheme, k: string): (key: string)
    ensures scheme == ByPath ==> CACHE_KEY_BY_PATHS + ":" <= key
    ensures scheme == ByPresenter ==> CACHE_KEY_BY_PRESENTER + ":" <= key
    ensures |key| > |k| && key[|key| - |k|..] == k
  {
    (match scheme case ByPath => CACHE_KEY_BY_PATHS case ByPresenter => CACHE_KEY_BY_PRESENTER) + ":" + k
  }

  /** Group cache keys never collide with each other or with the summary key: the
      path and presenter prefixes differ at their 17th character, and the summary key
      is shorter than either prefix. */
  lemma {:induction false} GroupCacheKeysDistinct(s1: Scheme, k1: string, s2: Scheme, k2: string)
    ensures GroupCacheKey(s1, k1) == GroupCacheKey(s2, k2) <==> s1 == s2 && k1 == k2
    ensures GroupCacheKey(s1, k1) != CACHE_KEY_GROUPS
  {
    var a, b := GroupCacheKey(s1, k1), GroupCacheKey(s2, k2);
    assert |a| > |CACHE_KEY_GROUPS|;
    assert a[16] == (if s1 == ByPath then 'a' else 'r');
    assert b[16] == (if s2 == ByPath then 'a' else 'r');
    if a == b && s1 == s2 {
      var n := |GroupCacheKey(s1, "")|;
      assert a[n..] == k1 && b[n..] == k2;
    }
  }

  /** The cache: a mutable key-value store shared by reference. */
  class Cache {
    var entries: map<string, Entry>

    constructor (initial: map<string, Entry>)
      ensures entries == initial
    {
      entries := initial;
    }

    /** A read: the stored value, or None (the source's null) on a miss. */
    method Load(key: string) returns (v: Option<Entry>)
      ensures v.Some? <==> key in entries
      ensures v.Some? ==> v.value == entries[key]
    {
      v := if key in entries then Some(entries[key]) else None;
    }

    /** A write of one entry; every other entry is kept. */
    method Save(key: string, value: Entry)
      modifies this
      ensures entries == old(entries)[key := value]
    {
      entries := entries[key := value];
    }
  }

  /** The store after saving every group of gs under its cache key, in array order. */
  function SaveGroups(e: map<string, Entry>, scheme: Scheme, gs: seq<Group>): (m: map<string, Entry>)
    ensures forall key :: key in e ==> key in m
  {
    if gs == [] then e
    else SaveGroups(e, scheme, gs[..|gs| - 1])[GroupCacheKey(scheme, gs[|gs| - 1].key) := RouteGroup(gs[|gs| - 1].routes)]
  }

  /** The cache keys of the groups of gs. */
  function GroupCacheKeys(scheme: Scheme, gs: seq<Group>): set<string> {
    set i | 0 <= i < |gs| :: GroupCacheKey(scheme, gs[i].key)
  }

  /** After the saves, every group can be read back under its key. */
  lemma {:induction false} SaveGroupsStored(e: map<string, Entry>, scheme: Scheme, gs: seq<Group>)
    requires DistinctKeys(gs)
    ensures forall i :: 0 <= i < |gs| ==>
              GroupCacheKey(scheme, gs[i].key) in SaveGroups(e, scheme, gs) &&
              SaveGroups(e, scheme, gs)[GroupCacheKey(scheme, gs[i].key)] == RouteGroup(gs[i].routes)
  {
    if gs != [] {
      var pre, last := gs[..|gs| - 1], gs[|gs| - 1];
      SaveGroupsStored(e, scheme, pre);
      var m := SaveGroups(e, scheme, gs);
      forall i | 0 <= i < |gs|
        ensures GroupCacheKey(scheme, gs[i].key) in m && m[GroupCacheKey(scheme, gs[i].key)] == RouteGroup(gs[i].routes)
      {
        if i < |pre| {
          GroupCacheKeysDistinct(scheme, gs[i].key, scheme, last.key);
          assert pre[i] == gs[i];
        }
      }
    }
  }

  /** The saves add exactly the group cache keys and keep every other entry. */
  lemma {:induction false} SaveGroupsKeeps(e: map<string, Entry>, scheme: Scheme, gs: seq<Group>)
    ensures forall key :: key in e && key !in GroupCacheKeys(scheme, gs) ==>
              key in SaveGroups(e, scheme, gs) && SaveGroups(e, scheme, gs)[key] == e[key]
    ensures SaveGroups(e, scheme, gs).Keys == e.Keys + GroupCacheKeys(scheme, gs)
  {
    if gs != [] {
      var pre, last := gs[..|gs| - 1], gs[|gs| - 1];
      SaveGroupsKeeps(e, scheme, pre);
      assert GroupCacheKeys(scheme, gs) == GroupCacheKeys(scheme, pre) + {GroupCacheKey(scheme, last.key)} by {
        forall key | key in GroupCacheKeys(scheme, gs)
          ensures key in GroupCacheKeys(scheme, pre) + {GroupCacheKey(scheme, last.key)}
        {
          var i :| 0 <= i < |gs| && key == GroupCacheKey(scheme, gs[i].key);
          if i < |pre| {
            assert pre[i] == gs[i];
          }
        }
        forall key | key in GroupCacheKeys(scheme, pre) ensures key in GroupCacheKeys(scheme, gs) {
          var i :| 0 <= i < |pre| && key == GroupCacheKey(scheme, pre[i].key);
          assert pre[i] == gs[i];
        }
      }
    }
  }

  /** array_fill_keys(array_keys($groups), null): every group key, unloaded. */
  function Placeholders(gs: seq<Group>): (ps: seq<Slot>)
    ensures |ps| == |gs|
    ensures forall i :: 0 <= i < |gs| ==> ps[i] == Slot(gs[i].key, None)
  {
    if gs == [] then [] else Placeholders(gs[..|gs| - 1]) + [Slot(gs[|gs| - 1].key, None)]
  }

  /** Slot keys are distinct, as the keys of a PHP array are. */
  predicate DistinctSlotKeys(ps: seq<Slot>) {
    forall i, j :: 0 <= i < j < |ps| ==> ps[i].key != ps[j].key
  }

  /** A placeholder array as stored: distinct keys, nothing loaded. */
  predicate Pristine(ps: seq<Slot>) {
    DistinctSlotKeys(ps) && forall i :: 0 <= i < |ps| ==> ps[i].loaded.None?
  }

  /** Every unloaded slot has its group stored under its cache key. */
  predicate GroupsCached(e: map<string, Entry>, scheme: Scheme, ps: seq<Slot>) {
    forall i :: 0 <= i < |ps| && ps[i].loaded.None? ==>
      GroupCacheKey(scheme, ps[i].key) in e && e[GroupCacheKey(scheme, ps[i].key)].RouteGroup?
  }

  /** The summary entry, when present, is one this class stored: two pristine
      placeholder arrays whose groups are all in the store. */
  predicate SummaryWellFormed(e: map<string, Entry>) {
    CACHE_KEY_GROUPS in e ==>
      && e[CACHE_KEY_GROUPS].GroupSummary?
      && Pristine(e[CACHE_KEY_GROUPS].byPath) && Pristine(e[CACHE_KEY_GROUPS].byPresenter)
      && GroupsCached(e, ByPath, e[CACHE_KEY_GROUPS].byPath)
      && GroupsCached(e, ByPresenter, e[CACHE_KEY_GROUPS].byPresenter)
  }

  /** The store after the cold-cache branch of setLazyCachedRoutes: all path groups,
      then all presenter groups, then the summary of both placeholder arrays. */
  function Seeded(e: map<string, Entry>, byPath: seq<Group>, byPresenter: seq<Group>): (m: map<string, Entry>)
    ensures forall key :: key in e ==> key in m
    ensures CACHE_KEY_GROUPS in m && m[CACHE_KEY_GROUPS].GroupSummary?
  {
    SaveGroups(SaveGroups(e, ByPath, byPath), ByPresenter, byPresenter)
      [CACHE_KEY_GROUPS := GroupSummary(Placeholders(byPath), Placeholders(byPresenter))]
  }

  /** Placeholders of distinct groups are pristine. */
  lemma {:induction false} PlaceholdersPristine(gs: seq<Group>)
    requires DistinctKeys(gs)
    ensures Pristine(Placeholders(gs))
  {
    var ps := Placeholders(gs);
    forall i, j | 0 <= i < j < |ps| ensures ps[i].key != ps[j].key {
      assert ps[i].key == gs[i].key && ps[j].key == gs[j].key;
    }
  }

  /** Seeding stores every path group under `lazy_routes_by_path:<key>`. */
  lemma {:induction false} SeededPathGroups(e: map<string, Entry>, p: seq<Group>, q: seq<Group>)
    requires DistinctKeys(p)
    ensures forall i :: 0 <= i < |p| ==>
              GroupCacheKey(ByPath, p[i].key) in Seeded(e, p, q) &&
              Seeded(e, p, q)[GroupCacheKey(ByPath, p[i].key)] == RouteGroup(p[i].routes)
  {
    var e1 := SaveGroups(e, ByPath, p);
    SaveGroupsStored(e, ByPath, p);
    SaveGroupsKeeps(e1, ByPresenter, q);
    forall i | 0 <= i < |p|
      ensures GroupCacheKey(ByPath, p[i].key) in Seeded(e, p, q) &&
              Seeded(e, p, q)[GroupCacheKey(ByPath, p[i].key)] == RouteGroup(p[i].routes)
    {
      var key := GroupCacheKey(ByPath, p[i].key);
      GroupCacheKeysDistinct(ByPath, p[i].key, ByPath, p[i].key);
      if key in GroupCacheKeys(ByPresenter, q) {
        var j :| 0 <= j < |q| && key == GroupCacheKey(ByPresenter, q[j].key);
        GroupCacheKeysDistinct(ByPath, p[i].key, ByPresenter, q[j].key);
      }
    }
  }

  /** Seeding stores every presenter group under `lazy_routes_by_presenter:<key>`. */
  lemma {:induction false} SeededPresenterGroups(e: map<string, Entry>, p: seq<Group>, q: seq<Group>)
    requires DistinctKeys(q)
    ensures forall i :: 0 <= i < |q| ==>
              GroupCacheKey(ByPresenter, q[i].key) in Seeded(e, p, q) &&
              Seeded(e, p, q)[GroupCacheKey(ByPresenter, q[i].key)] == RouteGroup(q[i].routes)
  {
    SaveGroupsStored(SaveGroups(e, ByPath, p), ByPresenter, q);
    forall i | 0 <= i < |q|
      ensures GroupCacheKey(ByPresenter, q[i].key) in Seeded(e, p, q) &&
              Seeded(e, p, q)[GroupCacheKey(ByPresenter, q[i].key)] == RouteGroup(q[i].routes)
    {
      GroupCacheKeysDistinct(ByPresenter, q[i].key, ByPresenter, q[i].key);
    }
  }

  /** Seeding keeps every entry that is neither a group cache key of the two
      groupings nor the summary key, with its value. */
  lemma {:induction false} SeededKeeps(e: map<string, Entry>, p: seq<Group>, q: seq<Group>)
    ensures forall key :: (key in e && key != CACHE_KEY_GROUPS &&
                           key !in GroupCacheKeys(ByPath, p) && key !in GroupCacheKeys(ByPresenter, q)) ==>
              key in Seeded(e, p, q) && Seeded(e, p, q)[key] == e[key]
  {
    SaveGroupsKeeps(e, ByPath, p);
    SaveGroupsKeeps(SaveGroups(e, ByPath, p), ByPresenter, q);
  }

  /** Seeding from the partition of the loaded routes: every path group is stored under
      `lazy_routes_by_path:<key>`, every presenter group under
      `lazy_routes_by_presenter:<key>`, the summary holds exactly the group keys, all
      unloaded, and every unloaded placeholder can be expanded from the store. */
  lemma {:induction false} SeededContents(e: map<string, Entry>, routes: seq<Route>)
    ensures var p, q := Grouping(ByPath, routes), Grouping(ByPresenter, routes);
            && (forall i :: 0 <= i < |p| ==>
                  GroupCacheKey(ByPath, p[i].key) in Seeded(e, p, q) &&
                  Seeded(e, p, q)[GroupCacheKey(ByPath, p[i].key)] == RouteGroup(p[i].routes))
            && (forall i :: 0 <= i < |q| ==>
                  GroupCacheKey(ByPresenter, q[i].key) in Seeded(e, p, q) &&
                  Seeded(e, p, q)[GroupCacheKey(ByPresenter, q[i].key)] == RouteGroup(q[i].routes))
            && Seeded(e, p, q)[CACHE_KEY_GROUPS] == GroupSummary(Placeholders(p), Placeholders(q))
            && SummaryWellFormed(Seeded(e, p, q))
            && GroupsCached(Seeded(e, p, q), ByPath, Placeholders(p))
            && GroupsCached(Seeded(e, p, q), ByPresenter, Placeholders(q))
  {
    var p, q := Grouping(ByPath, routes), Grouping(ByPresenter, routes);
    CategorizeKeepsOrder(ByPath, routes);
    CategorizeKeepsOrder(ByPresenter, routes);
    SeededPathGroups(e, p, q);
    SeededPresenterGroups(e, p, q);
    PlaceholdersPristine(p);
    PlaceholdersPristine(q);
    var e' := Seeded(e, p, q);
    assert GroupsCached(e', ByPath, Placeholders(p)) by {
      forall i | 0 <= i < |p| ensures GroupCacheKey(ByPath, Placeholders(p)[i].key) in e' {
        assert Placeholders(p)[i].key == p[i].key;
      }
    }
    assert GroupsCached(e', ByPresenter, Placeholders(q)) by {
      forall i | 0 <= i < |q| ensures GroupCacheKey(ByPresenter, Placeholders(q)[i].key) in e' {
        assert Placeholders(q)[i].key == q[i].key;
      }
    }
  }
}
