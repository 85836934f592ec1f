/** What the lazy list loads before it delegates to the inherited first-match-wins
    logic: the path groups a request's relative path asks for
    (src/Routing/LazyRouteList.php:98-108) and the presenter group a link asks for
    (src/Routing/LazyRouteList.php:122-133). These functions specify the loops of
    LazyRouting.LazyRouteList.Match and ConstructUrl. */
module LazyExpansion {
  import opened Routes
  import opened Partition
  import opened RouteCache

  /** The placeholder array after an expansion, and the routes appended to the active
      list, in the order they were appended. */
  datatype Outcome = Outcome(slots: seq<Slot>, added: seq<Route>)

  /** A read of a group: its routes, or None when the store has no group under key
      (Nette's load then returns null). */
  function Lookup(e: map<string, Entry>, key: string): (r: Option<seq<Route>>)
    ensures r.Some? <==> key in e && e[key].RouteGroup?
    ensures r.Some? ==> e[key] == RouteGroup(r.value)
  {
    if key in e && e[key].RouteGroup? then Some(e[key].routes) else None
  }

  /** All routes held by loaded slots, counted with multiplicity. */
  function LoadedRoutes(slots: seq<Slot>): multiset<Route> {
    if slots == [] then multiset{}
    else
      var last := slots[|slots| - 1];
      LoadedRoutes(slots[..|slots| - 1]) + (if last.loaded.Some? then multiset(last.loaded.value) else multiset{})
  }

  /** Slots of which none is loaded hold no routes. */
  lemma {:induction false} LoadedRoutesUnloaded(slots: seq<Slot>)
    requires forall i :: 0 <= i < |slots| ==> slots[i].loaded.None?
    ensures LoadedRoutes(slots) == multiset{}
  {
    if slots != [] {
      LoadedRoutesUnloaded(slots[..|slots| - 1]);
    }
  }

  /** Loading one unloaded slot adds exactly its routes to the loaded routes. */
  lemma {:induction false} LoadedUpdate(slots: seq<Slot>, i: nat, rs: seq<Route>)
    requires i < |slots| && slots[i].loaded.None?
    ensures LoadedRoutes(slots[i := Slot(slots[i].key, Some(rs))]) == LoadedRoutes(slots) + multiset(rs)
  {
    var n := |slots|;
    var slots' := slots[i := Slot(slots[i].key, Some(rs))];
    var pre, pre' := slots[..n - 1], slots'[..n - 1];
    if i == n - 1 {
      assert pre' == pre;
    } else {
      assert pre' == pre[i := Slot(slots[i].key, Some(rs))];
      LoadedUpdate(pre, i, rs);
      assert slots'[n - 1] == slots[n - 1];
      var tail := if slots[n - 1].loaded.Some? then multiset(slots[n - 1].loaded.value) else multiset{};
      UnionSwap(LoadedRoutes(pre), multiset(rs), tail);
    }
  }

  // ----- match: prefix-driven expansion -----

  /** PHP's binary-safe strncmp(a, b, n): compares character by character, at most n
      of them; the first difference decides, and a string that ends first is the
      smaller one. Only the sign of the result is kept. */
  function Strncmp(a: string, b: string, n: nat): int {
    if n == 0 || (a == [] && b == []) then 0
    else if a == [] then -1
    else if b == [] then 1
    else if a[0] < b[0] then -1
    else if a[0] > b[0] then 1
    else Strncmp(a[1..], b[1..], n - 1)
  }

  /** strncmp over the length of b is zero exactly when b is a prefix of a. */
  lemma {:induction false} StrncmpPrefix(a: string, b: string)
    ensures Strncmp(a, b, |b|) == 0 <==> b <= a
  {
    if a != [] && b != [] && a[0] == b[0] {
      StrncmpPrefix(a[1..], b[1..]);
      assert b <= a <==> b[1..] <= a[1..];
    }
  }

  /** The loop of match loads a path slot when its key is a prefix of the relative
      path and the slot is still null. */
  predicate Wants(s: Slot, url: string) {
    s.key <= url && s.loaded.None?
  }

  /** The prefix test is the source's: a slot is wanted exactly when it is null and
      `strncmp($url, $path, strlen($path))` is zero. */
  lemma {:induction false} WantsByStrncmp(s: Slot, url: string)
    ensures Wants(s, url) <==> s.loaded.None? && Strncmp(url, s.key, |s.key|) == 0
  {
    StrncmpPrefix(url, s.key);
  }

  /** The expansion loop of match over the path slots, in array order: each wanted
      slot whose group is in the store becomes that group and its routes are appended;
      a wanted slot whose group is missing stays null; every other slot is skipped. */
  function ExpandByPath(slots: seq<Slot>, url: string, e: map<string, Entry>): (r: Outcome)
    ensures |r.slots| == |slots|
  {
    if slots == [] then Outcome([], [])
    else
      var x := ExpandByPath(slots[..|slots| - 1], url, e);
      var s := slots[|slots| - 1];
      var group := Lookup(e, GroupCacheKey(ByPath, s.key));
      if Wants(s, url) && group.Some? then Outcome(x.slots + [Slot(s.key, group)], x.added + group.value)
      else Outcome(x.slots + [s], x.added)
  }

  /** One step of the loop of match: expanding one more slot rewrites that slot of
      the partly expanded array and appends the slot's group when it is loaded. */
  lemma {:induction false} ExpandByPathStep(slots: seq<Slot>, i: nat, url: string, e: map<string, Entry>)
    requires i < |slots|
    ensures var x, y := ExpandByPath(slots[..i], url, e), ExpandByPath(slots[..i + 1], url, e);
            var group := Lookup(e, GroupCacheKey(ByPath, slots[i].key));
            && (x.slots + slots[i..])[i := y.slots[i]] == y.slots + slots[i + 1..]
            && (x.slots + slots[i..])[i] == slots[i]
            && (if Wants(slots[i], url) && group.Some?
                then y.slots[i] == Slot(slots[i].key, group) && y.added == x.added + group.value
                else y.slots[i] == slots[i] && y.added == x.added)
  {
    assert slots[..i + 1][..i] == slots[..i];
    var x, y := ExpandByPath(slots[..i], url, e), ExpandByPath(slots[..i + 1], url, e);
    assert y.slots[..i] == x.slots;
    assert slots[i..] == [slots[i]] + slots[i + 1..];
  }

  /** match touches only slots whose key is a prefix of the path and that are still
      null: those with a stored group become that group, every other slot is kept;
      keys and order never change. */
  lemma {:induction false} ExpandByPathShape(slots: seq<Slot>, url: string, e: map<string, Entry>)
    ensures forall i :: 0 <= i < |slots| ==> ExpandByPath(slots, url, e).slots[i].key == slots[i].key
    ensures forall i :: 0 <= i < |slots| && Wants(slots[i], url) ==>
              ExpandByPath(slots, url, e).slots[i].loaded == Lookup(e, GroupCacheKey(ByPath, slots[i].key)) ||
              (ExpandByPath(slots, url, e).slots[i] == slots[i] && Lookup(e, GroupCacheKey(ByPath, slots[i].key)).None?)
    ensures forall i :: 0 <= i < |slots| && !Wants(slots[i], url) ==> ExpandByPath(slots, url, e).slots[i] == slots[i]
  {
    if slots != [] {
      ExpandByPathShape(slots[..|slots| - 1], url, e);
    }
  }

  /** With every wanted group in the store, exactly the wanted slots end up loaded. */
  lemma {:induction false} ExpandByPathLoadsWanted(slots: seq<Slot>, url: string, e: map<string, Entry>)
    requires GroupsCached(e, ByPath, slots)
    ensures forall i :: 0 <= i < |slots| ==>
              (ExpandByPath(slots, url, e).slots[i] != slots[i] <==> Wants(slots[i], url))
    ensures forall i :: 0 <= i < |slots| && Wants(slots[i], url) ==>
              ExpandByPath(slots, url, e).slots[i].loaded == Some(e[GroupCacheKey(ByPath, slots[i].key)].routes)
  {
    ExpandByPathShape(slots, url, e);
  }

  /** The empty path key is a prefix of every path: an unloaded group under it is
      loaded by every call of match. */
  lemma {:induction false} EmptyKeyAlwaysExpanded(slots: seq<Slot>, url: string, e: map<string, Entry>, i: nat)
    requires GroupsCached(e, ByPath, slots)
    requires i < |slots| && slots[i] == Slot("", None)
    ensures ExpandByPath(slots, url, e).slots[i].loaded.Some?
  {
    ExpandByPathLoadsWanted(slots, url, e);
    assert Wants(slots[i], url);
  }

  /** Each route appended by match comes from a wanted slot's stored group, and every
      route of such a group is appended. */
  lemma {:induction false} ExpandByPathAddedFrom(slots: seq<Slot>, url: string, e: map<string, Entry>, r: Route)
    ensures r in ExpandByPath(slots, url, e).added <==>
            exists i :: 0 <= i < |slots| && Wants(slots[i], url) &&
                        Lookup(e, GroupCacheKey(ByPath, slots[i].key)).Some? &&
                        r in Lookup(e, GroupCacheKey(ByPath, slots[i].key)).value
  {
    if slots != [] {
      var n := |slots|;
      var pre := slots[..n - 1];
      ExpandByPathAddedFrom(pre, url, e, r);
      if r in ExpandByPath(slots, url, e).added {
        if r in ExpandByPath(pre, url, e).added {
          var i :| 0 <= i < |pre| && Wants(pre[i], url) &&
                   Lookup(e, GroupCacheKey(ByPath, pre[i].key)).Some? &&
                   r in Lookup(e, GroupCacheKey(ByPath, pre[i].key)).value;
          assert slots[i] == pre[i];
        } else {
          assert Wants(slots[n - 1], url);
        }
      } else {
        forall i | 0 <= i < |slots| && Wants(slots[i], url) && Lookup(e, GroupCacheKey(ByPath, slots[i].key)).Some?
          ensures r !in Lookup(e, GroupCacheKey(ByPath, slots[i].key)).value
        {
          if i < n - 1 {
            assert slots[i] == pre[i];
          }
        }
      }
    }
  }

  /** match keeps the class's accounting: the routes of loaded slots grow by exactly
      the routes it appends. */
  lemma {:induction false} ExpandByPathAccounts(slots: seq<Slot>, url: string, e: map<string, Entry>)
    ensures LoadedRoutes(ExpandByPath(slots, url, e).slots) == LoadedRoutes(slots) + multiset(ExpandByPath(slots, url, e).added)
  {
    if slots != [] {
      var n := |slots|;
      var pre := slots[..n - 1];
      var x := ExpandByPath(pre, url, e);
      var r := ExpandByPath(slots, url, e);
      ExpandByPathAccounts(pre, url, e);
      ExpandByPathShape(pre, url, e);
      assert r.slots[..n - 1] == x.slots;
      var s := slots[n - 1];
      var group := Lookup(e, GroupCacheKey(ByPath, s.key));
      if Wants(s, url) && group.Some? {
        assert multiset(r.added) == multiset(x.added) + multiset(group.value);
      } else {
        var tail := if s.loaded.Some? then multiset(s.loaded.value) else multiset{};
        UnionSwap(LoadedRoutes(pre), multiset(x.added), tail);
      }
    }
  }

  /** The routes of the slots that went from null to loaded, slot after slot in array
      order, each group's routes in their own order. */
  function NewlyLoaded(before: seq<Slot>, after: seq<Slot>): seq<Route>
    requires |before| == |after|
  {
    if before == [] then []
    else
      var n := |before|;
      NewlyLoaded(before[..n - 1], after[..n - 1]) +
        (if before[n - 1].loaded.None? && after[n - 1].loaded.Some? then after[n - 1].loaded.value else [])
  }

  /** match appends exactly the groups it loads, in the order of the placeholder
      array, each group whole and in its stored order. */
  lemma {:induction false} ExpandByPathAppendsInOrder(slots: seq<Slot>, url: string, e: map<string, Entry>)
    ensures ExpandByPath(slots, url, e).added == NewlyLoaded(slots, ExpandByPath(slots, url, e).slots)
  {
    if slots != [] {
      var n := |slots|;
      var r := ExpandByPath(slots, url, e);
      ExpandByPathAppendsInOrder(slots[..n - 1], url, e);
      assert r.slots[..n - 1] == ExpandByPath(slots[..n - 1], url, e).slots;
    }
  }

  /** Each path group is loaded at most once: a second expansion for the same path
      and the same store appends nothing and changes no slot. */
  lemma {:induction false} ExpandByPathIdempotent(slots: seq<Slot>, url: string, e: map<string, Entry>)
    ensures ExpandByPath(ExpandByPath(slots, url, e).slots, url, e) == Outcome(ExpandByPath(slots, url, e).slots, [])
  {
    if slots != [] {
      var n := |slots|;
      var pre := slots[..n - 1];
      var x := ExpandByPath(pre, url, e);
      var r := ExpandByPath(slots, url, e);
      ExpandByPathIdempotent(pre, url, e);
      ExpandByPathShape(pre, url, e);
      assert r.slots[..n - 1] == x.slots;
      var y := ExpandByPath(r.slots, url, e);
      assert y.slots == x.slots + [r.slots[n - 1]];
    }
  }

  /** The prefix test is on characters, not on path segments: a group keyed "adm" is
      loaded for the path "admin/users", one keyed "api" is not, and the root group is
      loaded for every path. */
  lemma {:induction false} PrefixExample(a: seq<Route>, b: seq<Route>, c: seq<Route>)
    ensures var slots := [Slot("api", None), Slot("adm", None), Slot("", None)];
            var e := map[GroupCacheKey(ByPath, "api") := RouteGroup(a),
                         GroupCacheKey(ByPath, "adm") := RouteGroup(b),
                         GroupCacheKey(ByPath, "") := RouteGroup(c)];
            ExpandByPath(slots, "admin/users", e) ==
              Outcome([Slot("api", None), Slot("adm", Some(b)), Slot("", Some(c))], b + c)
  {
    var slots := [Slot("api", None), Slot("adm", None), Slot("", None)];
    var e := map[GroupCacheKey(ByPath, "api") := RouteGroup(a),
                 GroupCacheKey(ByPath, "adm") := RouteGroup(b),
                 GroupCacheKey(ByPath, "") := RouteGroup(c)];
    GroupCacheKeysDistinct(ByPath, "api", ByPath, "adm");
    GroupCacheKeysDistinct(ByPath, "api", ByPath, "");
    GroupCacheKeysDistinct(ByPath, "adm", ByPath, "");
    assert Lookup(e, GroupCacheKey(ByPath, "adm")) == Some(b);
    assert Lookup(e, GroupCacheKey(ByPath, "")) == Some(c);
    assert "adm" <= "admin/users" && !("api" <= "admin/users");
    assert slots[..1] == [Slot("api", None)] && slots[..1][..0] == [];
    assert ExpandByPath(slots[..1], "admin/users", e) == Outcome([Slot("api", None)], []);
    assert slots[..2][..1] == slots[..1];
    assert slots[..2] == [Slot("api", None), Slot("adm", None)];
    assert ExpandByPath(slots[..2], "admin/users", e) == Outcome([Slot("api", None), Slot("adm", Some(b))], b);
  }

  // ----- constructUrl: presenter-driven expansion -----

  /** PHP truthiness of a string: "" and "0" are false. */
  function Truthy(s: string): (truthy: bool)
    ensures truthy ==> s != ""
    ensures |s| == 1 ==> (truthy <==> s[0] != '0')
    ensures |s| > 1 ==> truthy
  {
    s != "" && s != "0"
  }

  /** The link parameters name presenter k, and the name is truthy. */
  predicate Requested(params: Params, k: string) {
    "presenter" in params && Truthy(params["presenter"]) && params["presenter"] == k
  }

  /** Position of key k among the slots, or |slots| when k is not a key. */
  function SlotIndex(slots: seq<Slot>, k: string): (i: nat)
    ensures i <= |slots|
    ensures i < |slots| ==> slots[i].key == k
    ensures forall j :: 0 <= j < i ==> slots[j].key != k
  {
    var ks := seq(|slots|, j requires 0 <= j < |slots| => slots[j].key);
    assert forall j :: 0 <= j < |slots| ==> ks[j] == slots[j].key;
    KeyIndex(ks, k)
  }

  /** The expansion of constructUrl: when the parameters name a truthy presenter whose
      slot is still null, the slot becomes the stored group (the empty list when the
      store has none) and those routes are appended; otherwise nothing happens. A
      presenter that PHP reads as false ("" or "0") is never loaded, so routes without
      a presenter default (grouped under "") are only reached by path. */
  function ExpandByPresenter(slots: seq<Slot>, params: Params, e: map<string, Entry>): (r: Outcome)
    ensures |r.slots| == |slots|
    ensures forall i :: 0 <= i < |slots| ==> r.slots[i].key == slots[i].key
    ensures !("presenter" in params && Truthy(params["presenter"])) ==> r == Outcome(slots, [])
  {
    if "presenter" in params && Truthy(params["presenter"]) then
      var p := params["presenter"];
      var i := SlotIndex(slots, p);
      if i < |slots| && slots[i].loaded.None? then
        var group := Lookup(e, GroupCacheKey(ByPresenter, p));
        var rs := if group.Some? then group.value else [];
        Outcome(slots[i := Slot(p, Some(rs))], rs)
      else Outcome(slots, [])
    else Outcome(slots, [])
  }

  /** constructUrl loads at most one group: the slot of the requested presenter, and
      only while it is null. It then holds exactly the appended routes, which are the
      stored group; when no slot qualifies nothing changes. */
  lemma {:induction false} ExpandByPresenterShape(slots: seq<Slot>, params: Params, e: map<string, Entry>)
    requires DistinctSlotKeys(slots)
    ensures |ExpandByPresenter(slots, params, e).slots| == |slots|
    ensures forall i :: 0 <= i < |slots| ==> ExpandByPresenter(slots, params, e).slots[i].key == slots[i].key
    ensures forall i :: 0 <= i < |slots| && !(Requested(params, slots[i].key) && slots[i].loaded.None?) ==>
              ExpandByPresenter(slots, params, e).slots[i] == slots[i]
    ensures forall i :: 0 <= i < |slots| && Requested(params, slots[i].key) && slots[i].loaded.None? ==>
              && ExpandByPresenter(slots, params, e).slots[i].loaded == Some(ExpandByPresenter(slots, params, e).added)
              && (GroupCacheKey(ByPresenter, slots[i].key) in e && e[GroupCacheKey(ByPresenter, slots[i].key)].RouteGroup? ==>
                    ExpandByPresenter(slots, params, e).added == e[GroupCacheKey(ByPresenter, slots[i].key)].routes)
    ensures forall i :: (0 <= i < |slots| && Requested(params, slots[i].key) && slots[i].loaded.None? &&
                         Lookup(e, GroupCacheKey(ByPresenter, slots[i].key)).None?) ==>
              ExpandByPresenter(slots, params, e) == Outcome(slots[i := Slot(slots[i].key, Some([]))], [])
    ensures (forall i :: 0 <= i < |slots| ==> !(Requested(params, slots[i].key) && slots[i].loaded.None?)) ==>
              ExpandByPresenter(slots, params, e) == Outcome(slots, [])
    ensures forall i, j :: 0 <= i < |slots| && 0 <= j < |slots| &&
              ExpandByPresenter(slots, params, e).slots[i] != slots[i] &&
                ExpandByPresenter(slots, params, e).slots[j] != slots[j]
              ==> i == j
  {
    if "presenter" in params && Truthy(params["presenter"]) {
      var p := params["presenter"];
      var k := SlotIndex(slots, p);
    }
  }

  /** constructUrl keeps the class's accounting: the routes of loaded slots grow by
      exactly the routes it appends. */
  lemma {:induction false} ExpandByPresenterAccounts(slots: seq<Slot>, params: Params, e: map<string, Entry>)
    ensures LoadedRoutes(ExpandByPresenter(slots, params, e).slots) ==
            LoadedRoutes(slots) + multiset(ExpandByPresenter(slots, params, e).added)
  {
    if "presenter" in params && Truthy(params["presenter"]) {
      var p := params["presenter"];
      var i := SlotIndex(slots, p);
      if i < |slots| && slots[i].loaded.None? {
        var r := ExpandByPresenter(slots, params, e);
        assert slots[i := Slot(slots[i].key, Some(r.added))] == r.slots;
        LoadedUpdate(slots, i, r.added);
      }
    }
  }

  /** Each presenter group is loaded at most once: a second link to the same
      presenter appends nothing and changes no slot. */
  lemma {:induction false} ExpandByPresenterIdempotent(slots: seq<Slot>, params: Params, e: map<string, Entry>)
    ensures ExpandByPresenter(ExpandByPresenter(slots, params, e).slots, params, e) ==
            Outcome(ExpandByPresenter(slots, params, e).slots, [])
  {
    if "presenter" in params && Truthy(params["presenter"]) {
      var p := params["presenter"];
      var i := SlotIndex(slots, p);
      if i < |slots| && slots[i].loaded.None? {
        var r := ExpandByPresenter(slots, params, e);
        assert r.slots[i].key == p;
        forall j | 0 <= j < i ensures r.slots[j].key != p {
          assert r.slots[j] == slots[j];
        }
        assert SlotIndex(r.slots, p) == i;
      } else {
        assert ExpandByPresenter(slots, params, e).slots == slots;
      }
    }
  }

  // ----- Cold start: what the first expansion after seeding appends -----

  /** The keyed routes whose key is a literal prefix of url, in input order. */
  function FilterPrefix(ts: seq<Keyed>, url: string): seq<Route> {
    if ts == [] then []
    else
      var last := ts[|ts| - 1];
      FilterPrefix(ts[..|ts| - 1], url) + (if last.key <= url then [last.route] else [])
  }

  /** The routes of the groups whose key is a literal prefix of url, group after
      group in array order. */
  function PrefixGroups(gs: seq<Group>, url: string): seq<Route> {
    if gs == [] then []
    else
      var last := gs[|gs| - 1];
      PrefixGroups(gs[..|gs| - 1], url) + (if last.key <= url then last.routes else [])
  }

  /** Appending routes to one group adds them to the routes under url exactly when
      that group's key is a prefix of url. */
  lemma {:induction false} PrefixGroupsUpdate(gs: seq<Group>, i: nat, more: seq<Route>, url: string)
    requires i < |gs|
    ensures multiset(PrefixGroups(gs[i := Group(gs[i].key, gs[i].routes + more)], url)) ==
            multiset(PrefixGroups(gs, url)) + (if gs[i].key <= url then multiset(more) else multiset{})
  {
    var n := |gs|;
    var g := Group(gs[i].key, gs[i].routes + more);
    var gs' := gs[i := g];
    var pre, pre' := gs[..n - 1], gs'[..n - 1];
    var d := if gs[i].key <= url then multiset(more) else multiset{};
    if i == n - 1 {
      assert pre' == pre;
      var old_tail := if gs[i].key <= url then gs[i].routes else [];
      var new_tail := if gs[i].key <= url then gs[i].routes + more else [];
      assert multiset(new_tail) == multiset(old_tail) + d;
      assert PrefixGroups(gs', url) == PrefixGroups(pre, url) + new_tail;
      assert PrefixGroups(gs, url) == PrefixGroups(pre, url) + old_tail;
    } else {
      assert pre' == pre[i := g];
      PrefixGroupsUpdate(pre, i, more, url);
      assert gs'[n - 1] == gs[n - 1];
      var tail := if gs[n - 1].key <= url then gs[n - 1].routes else [];
      assert PrefixGroups(gs', url) == PrefixGroups(pre', url) + tail;
      assert PrefixGroups(gs, url) == PrefixGroups(pre, url) + tail;
      UnionSwap(multiset(PrefixGroups(pre, url)), d, multiset(tail));
    }
  }

  /** Grouping keeps the routes under url: the groups whose key is a prefix of url
      hold exactly the keyed routes whose key is. */
  lemma {:induction false} GroupByUnder(ts: seq<Keyed>, url: string)
    ensures multiset(PrefixGroups(GroupBy(ts), url)) == multiset(FilterPrefix(ts, url))
  {
    if ts != [] {
      var pre, last := ts[..|ts| - 1], ts[|ts| - 1];
      GroupByUnder(pre, url);
      var g0 := GroupBy(pre);
      var i := IndexOf(g0, last.key);
      if i < |g0| {
        PrefixGroupsUpdate(g0, i, [last.route], url);
      } else {
        var g := GroupBy(ts);
        assert g[..|g0|] == g0;
      }
    }
  }

  /** Null slots that become exactly the groups under url have newly loaded exactly
      the routes of those groups, in array order. */
  lemma {:induction false} NewlyLoadedUnder(before: seq<Slot>, after: seq<Slot>, gs: seq<Group>, url: string)
    requires |before| == |after| == |gs|
    requires forall i :: 0 <= i < |gs| ==> before[i].loaded.None?
    requires forall i :: 0 <= i < |gs| ==>
               after[i].loaded == (if gs[i].key <= url then Some(gs[i].routes) else None)
    ensures NewlyLoaded(before, after) == PrefixGroups(gs, url)
  {
    if gs != [] {
      var n := |gs|;
      NewlyLoadedUnder(before[..n - 1], after[..n - 1], gs[..n - 1], url);
    }
  }

  /** On a freshly seeded store, match appends the path groups whose key is a prefix
      of the relative path, whole and in the order of the groups; together they are
      exactly the loaded routes whose path key is such a prefix, each as often as it
      was loaded. */
  lemma {:induction false} ColdMatchLoadsPrefixRoutes(e: map<string, Entry>, routes: seq<Route>, url: string, x: Route)
    ensures var p, q := Grouping(ByPath, routes), Grouping(ByPresenter, routes);
            ExpandByPath(Placeholders(p), url, Seeded(e, p, q)).added == PrefixGroups(p, url)
    ensures var p, q := Grouping(ByPath, routes), Grouping(ByPresenter, routes);
            multiset(ExpandByPath(Placeholders(p), url, Seeded(e, p, q)).added) ==
            multiset(FilterPrefix(Tag(ByPath, routes), url))
    ensures var p, q := Grouping(ByPath, routes), Grouping(ByPresenter, routes);
            x in ExpandByPath(Placeholders(p), url, Seeded(e, p, q)).added <==>
            x in routes && StaticPath.PathKey(x.mask) <= url
  {
    var p, q := Grouping(ByPath, routes), Grouping(ByPresenter, routes);
    var e', ph := Seeded(e, p, q), Placeholders(p);
    SeededContents(e, routes);
    var r := ExpandByPath(ph, url, e');
    ExpandByPathAppendsInOrder(ph, url, e');
    ExpandByPathLoadsWanted(ph, url, e');
    forall i | 0 <= i < |p|
      ensures r.slots[i].loaded == (if p[i].key <= url then Some(p[i].routes) else None)
    {
      assert ph[i] == Slot(p[i].key, None);
    }
    NewlyLoadedUnder(ph, r.slots, p, url);
    GroupByUnder(Tag(ByPath, routes), url);
    ExpandByPathAddedFrom(ph, url, e', x);
    if x in r.added {
      var i :| 0 <= i < |ph| && Wants(ph[i], url) &&
               Lookup(e', GroupCacheKey(ByPath, ph[i].key)).Some? &&
               x in Lookup(e', GroupCacheKey(ByPath, ph[i].key)).value;
      GroupMember(ByPath, routes, i, x);
    }
    if x in routes && StaticPath.PathKey(x.mask) <= url {
      var j :| 0 <= j < |routes| && routes[j] == x;
      EachRouteInOneGroup(ByPath, routes, j);
      var i :| 0 <= i < |p| && p[i].key == KeyOf(ByPath, routes[j]);
      assert Wants(ph[i], url);
      assert Lookup(e', GroupCacheKey(ByPath, ph[i].key)) == Some(p[i].routes);
    }
  }

  /** On a freshly seeded store, a link to a truthy presenter appends exactly the
      loaded routes whose presenter default is that presenter, in input order. */
  lemma {:induction false} ColdLinkLoadsPresenterRoutes(e: map<string, Entry>, routes: seq<Route>, params: Params, x: Route)
    requires "presenter" in params && Truthy(params["presenter"])
    ensures var p, q := Grouping(ByPath, routes), Grouping(ByPresenter, routes);
            ExpandByPresenter(Placeholders(q), params, Seeded(e, p, q)).added ==
            Filter(Tag(ByPresenter, routes), params["presenter"])
    ensures var p, q := Grouping(ByPath, routes), Grouping(ByPresenter, routes);
            x in ExpandByPresenter(Placeholders(q), params, Seeded(e, p, q)).added <==>
            x in routes && x.presenter == params["presenter"]
  {
    var p, q := Grouping(ByPath, routes), Grouping(ByPresenter, routes);
    var e', ph := Seeded(e, p, q), Placeholders(q);
    var pr := params["presenter"];
    var ts := Tag(ByPresenter, routes);
    SeededContents(e, routes);
    CategorizeKeepsOrder(ByPresenter, routes);
    var i := SlotIndex(ph, pr);
    if i < |ph| {
      assert Lookup(e', GroupCacheKey(ByPresenter, pr)) == Some(q[i].routes);
      assert ExpandByPresenter(ph, params, e').added == q[i].routes;
    } else {
      forall j | 0 <= j < |ts| ensures ts[j].key != pr {
        if routes[j].presenter == pr {
          EachRouteInOneGroup(ByPresenter, routes, j);
        }
      }
      FilterAbsent(ts, pr);
    }
    FilterSelects(ByPresenter, routes, pr, x);
  }

  /** The groups of a single route: one group per scheme, under the route's key. */
  lemma {:induction false} GroupingOfOne(scheme: Scheme, route: Route)
    ensures Grouping(scheme, [route]) == [Group(KeyOf(scheme, route), [route])]
  {
    var t := Tag(scheme, [route]);
    assert t == [Keyed(KeyOf(scheme, route), route)];
    assert t[..0] == [];
    assert GroupBy(t) == Append([], KeyOf(scheme, route), route);
  }

  /** No deduplication across the two schemes: after seeding from the single route
      `blog/<id>` of presenter Blog, matching `blog/5` appends it through its path
      group and a link to Blog appends it again through its presenter group. */
  lemma {:induction false} NoDedupAcrossSchemes(e: map<string, Entry>)
    ensures var route := Route("blog/<id>", "Blog", 0);
            var p, q := Grouping(ByPath, [route]), Grouping(ByPresenter, [route]);
            ExpandByPath(Placeholders(p), "blog/5", Seeded(e, p, q)).added +
              ExpandByPresenter(Placeholders(q), map["presenter" := "Blog"], Seeded(e, p, q)).added
            == [route, route]
  {
    var route := Route("blog/<id>", "Blog", 0);
    StaticPath.PathKeyOfParameterMasks();
    GroupingOfOne(ByPath, route);
    GroupingOfOne(ByPresenter, route);
    var p, q := [Group("blog", [route])], [Group("Blog", [route])];
    SeededContents(e, [route]);
    var e' := Seeded(e, p, q);
    var ph := Placeholders(p);
    assert ph == [Slot("blog", None)] && ph[..0] == [];
    assert Lookup(e', GroupCacheKey(ByPath, "blog")) == Some([route]);
    assert ExpandByPath(ph, "blog/5", e').added == [route];
    assert Placeholders(q) == [Slot("Blog", None)];
    assert Lookup(e', GroupCacheKey(ByPresenter, "Blog")) == Some([route]);
    var params := map["presenter" := "Blog"];
    assert Requested(params, Placeholders(q)[0].key);
    ExpandByPresenterShape(Placeholders(q), params, e');
    var a, b := ExpandByPath(ph, "blog/5", e').added, ExpandByPresenter(Placeholders(q), params, e').added;
    assert Placeholders(q)[0].loaded.None?;
    assert e'[GroupCacheKey(ByPresenter, "Blog")] == RouteGroup([route]);
    assert a == [route] && b == [route];
    assert a + b == [route, route];
    assert p == Grouping(ByPath, [route]) && q == Grouping(ByPresenter, [route]);
  }
}
