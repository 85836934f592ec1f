/** categorizeRoutes (src/Routing/LazyRouteList.php:73-88): one pass over the loaded
    routes that appends each route to the group of its path key and to the group of
    its presenter. A PHP array of groups keeps its keys in order of first insertion;
    it is modelled as a sequence of groups with distinct keys. */
module Partition {
  import opened Routes
  import StaticPath

  /** The two groupings: by path key (used when matching) and by presenter (used when
      building links). */
  datatype Scheme = ByPath | ByPresenter

  /** The key a route is grouped under in a scheme. */
  function KeyOf(scheme: Scheme, r: Route): string {
    match scheme
    case ByPath => StaticPath.PathKey(r.mask)
    case ByPresenter => r.presenter
  }

  /** A route together with the key it is appended under. */
  datatype Keyed = Keyed(key: string, route: Route)

  /** Every route of rs with its key in a scheme, in input order. */
  function Tag(scheme: Scheme, rs: seq<Route>): (ts: seq<Keyed>)
    ensures |ts| == |rs|
    ensures forall i :: 0 <= i < |rs| ==> ts[i] == Keyed(KeyOf(scheme, rs[i]), rs[i])
  {
    if rs == [] then [] else Tag(scheme, rs[..|rs| - 1]) + [Keyed(KeyOf(scheme, rs[|rs| - 1]), rs[|rs| - 1])]
  }

  /** One entry of a PHP array of groups: a key and the routes appended under it. */
  datatype Group = Group(key: string, routes: seq<Route>)

  predicate DistinctKeys(gs: seq<Group>) {
    forall i, j :: 0 <= i < j < |gs| ==> gs[i].key != gs[j].key
  }

  /** The keys of an array of groups, in array order. */
  function GroupKeys(gs: seq<Group>): (ks: seq<string>)
    ensures |ks| == |gs| && forall i :: 0 <= i < |gs| ==> ks[i] == gs[i].key
  {
    if gs == [] then [] else GroupKeys(gs[..|gs| - 1]) + [gs[|gs| - 1].key]
  }

  /** Position of the first k in ks, or |ks| when k does not occur: where a PHP
      array finds an entry by its key. */
  function KeyIndex(ks: seq<string>, k: string): (i: nat)
    ensures i <= |ks|
    ensures i < |ks| ==> ks[i] == k
    ensures forall j :: 0 <= j < i ==> ks[j] != k
  {
    if ks == [] then 0 else if ks[0] == k then 0 else 1 + KeyIndex(ks[1..], k)
  }

  /** Position of key k in the array of groups, or |gs| when k is not a key. */
  function IndexOf(gs: seq<Group>, k: string): (i: nat)
    ensures i <= |gs|
    ensures i < |gs| ==> gs[i].key == k
    ensures forall j :: 0 <= j < i ==> gs[j].key != k
  {
    KeyIndex(GroupKeys(gs), k)
  }

  /** `$groups[$k][] = $r`: append r to the group under k, or open a new group for k
      at the end of the array. */
  function Append(gs: seq<Group>, k: string, r: Route): seq<Group> {
    var i := IndexOf(gs, k);
    if i < |gs| then gs[i := Group(k, gs[i].routes + [r])] else gs + [Group(k, [r])]
  }

  /** The array that appending every keyed route in order builds from nothing. */
  function GroupBy(ts: seq<Keyed>): seq<Group> {
    if ts == [] then []
    else Append(GroupBy(ts[..|ts| - 1]), ts[|ts| - 1].key, ts[|ts| - 1].route)
  }

  /** The groups categorizeRoutes builds from rs in one scheme. */
  function Grouping(scheme: Scheme, rs: seq<Route>): seq<Group> {
    GroupBy(Tag(scheme, rs))
  }

  /** The loop of categorizeRoutes, both groupings in one pass. */
  method Categorize(routes: seq<Route>) returns (byPath: seq<Group>, byPresenter: seq<Group>)
    ensures byPath == Grouping(ByPath, routes)
    ensures byPresenter == Grouping(ByPresenter, routes)
  {
    byPresenter, byPath := [], [];
    for i := 0 to |routes|
      invariant byPath == Grouping(ByPath, routes[..i])
      invariant byPresenter == Grouping(ByPresenter, routes[..i])
    {
      var route := routes[i];
      var staticPath := StaticPath.PathKey(route.mask);
      byPath := Append(byPath, staticPath, route);
      byPresenter := Append(byPresenter, route.presenter, route);
      assert routes[..i + 1][..i] == routes[..i];
    }
    assert routes[..|routes|] == routes;
  }

  // ----- Reference definitions: what a grouping should be, independent of the loop -----

  /** The keys of the keyed routes, in input order. */
  function Keys(ts: seq<Keyed>): (ks: seq<string>)
    ensures |ks| == |ts| && forall i :: 0 <= i < |ts| ==> ks[i] == ts[i].key
  {
    seq(|ts|, i requires 0 <= i < |ts| => ts[i].key)
  }

  /** The keys of a longer list: the keys of all but the last, then the last key. */
  lemma {:induction false} KeysSnoc(ts: seq<Keyed>)
    requires ts != []
    ensures Keys(ts) == Keys(ts[..|ts| - 1]) + [ts[|ts| - 1].key]
    ensures Keys(ts)[..|ts| - 1] == Keys(ts[..|ts| - 1])
  {
    assert Keys(ts) == Keys(ts[..|ts| - 1]) + [ts[|ts| - 1].key];
  }

  /** The routes of the keyed routes, in input order. */
  function Untag(ts: seq<Keyed>): (rs: seq<Route>)
    ensures |rs| == |ts| && forall i :: 0 <= i < |ts| ==> rs[i] == ts[i].route
  {
    if ts == [] then [] else Untag(ts[..|ts| - 1]) + [ts[|ts| - 1].route]
  }

  /** The distinct elements of ks in order of first occurrence. */
  function FirstOccurrences(ks: seq<string>): (r: seq<string>)
    ensures forall k :: k in r <==> k in ks
    ensures forall i, j :: 0 <= i < j < |r| ==> r[i] != r[j]
  {
    if ks == [] then []
    else
      var r' := FirstOccurrences(ks[..|ks| - 1]);
      if ks[|ks| - 1] in r' then r' else r' + [ks[|ks| - 1]]
  }

  /** The routes keyed k, in input order. */
  function Filter(ts: seq<Keyed>, k: string): seq<Route> {
    if ts == [] then []
    else
      var last := ts[|ts| - 1];
      Filter(ts[..|ts| - 1], k) + (if last.key == k then [last.route] else [])
  }

  /** No route is keyed k: the filter for k is empty. */
  lemma {:induction false} FilterAbsent(ts: seq<Keyed>, k: string)
    requires forall i :: 0 <= i < |ts| ==> ts[i].key != k
    ensures Filter(ts, k) == []
  {
    if ts != [] {
      FilterAbsent(ts[..|ts| - 1], k);
    }
  }

  /** The filter for k holds only routes keyed k. */
  lemma {:induction false} FilterMember(ts: seq<Keyed>, k: string, r: Route)
    requires r in Filter(ts, k)
    ensures Keyed(k, r) in ts
  {
    var pre := ts[..|ts| - 1];
    if r in Filter(pre, k) {
      FilterMember(pre, k, r);
      assert Keyed(k, r) in pre;
    } else {
      assert ts[|ts| - 1] == Keyed(k, r);
    }
  }

  /** All routes of all groups, group after group. */
  function Flatten(gs: seq<Group>): seq<Route> {
    if gs == [] then [] else Flatten(gs[..|gs| - 1]) + gs[|gs| - 1].routes
  }

  /** The number of routes over all groups. */
  function Total(gs: seq<Group>): nat {
    if gs == [] then 0 else Total(gs[..|gs| - 1]) + |gs[|gs| - 1].routes|
  }

  // ----- Properties of the grouping -----

  /** The grouping agrees with the reference: distinct keys in order of first
      occurrence, each group holding exactly the routes with its key, in input order. */
  ghost predicate GroupedAsReference(ts: seq<Keyed>, g: seq<Group>) {
    && DistinctKeys(g)
    && GroupKeys(g) == FirstOccurrences(Keys(ts))
    && forall i :: 0 <= i < |g| ==> g[i].routes == Filter(ts, g[i].key)
  }

  /** The array built by the loop is exactly the reference grouping. */
  lemma {:induction false} GroupByCharacterized(ts: seq<Keyed>)
    ensures DistinctKeys(GroupBy(ts))
    ensures GroupKeys(GroupBy(ts)) == FirstOccurrences(Keys(ts))
    ensures forall i :: 0 <= i < |GroupBy(ts)| ==> GroupBy(ts)[i].routes == Filter(ts, GroupBy(ts)[i].key)
  {
    if ts != [] {
      var pre := ts[..|ts| - 1];
      GroupByCharacterized(pre);
      var g0 := GroupBy(pre);
      if IndexOf(g0, ts[|ts| - 1].key) < |g0| {
        AppendToExistingGroup(ts, g0);
      } else {
        AppendNewGroup(ts, g0);
      }
    }
  }

  /** Inductive step when the last key already has a group. */
  lemma {:induction false} AppendToExistingGroup(ts: seq<Keyed>, g0: seq<Group>)
    requires ts != [] && GroupedAsReference(ts[..|ts| - 1], g0)
    requires IndexOf(g0, ts[|ts| - 1].key) < |g0|
    ensures GroupedAsReference(ts, Append(g0, ts[|ts| - 1].key, ts[|ts| - 1].route))
  {
    var i := IndexOf(g0, ts[|ts| - 1].key);
    ExtendGroup(ts, g0, i);
  }

  /** Appending the last route to the group of its key, wherever that group is. */
  lemma {:induction false} ExtendGroup(ts: seq<Keyed>, g0: seq<Group>, i: nat)
    requires ts != [] && GroupedAsReference(ts[..|ts| - 1], g0)
    requires i < |g0| && g0[i].key == ts[|ts| - 1].key
    ensures GroupedAsReference(ts, g0[i := Group(g0[i].key, g0[i].routes + [ts[|ts| - 1].route])])
  {
    var pre, last := ts[..|ts| - 1], ts[|ts| - 1];
    var k := last.key;
    var g := g0[i := Group(k, g0[i].routes + [last.route])];
    assert GroupKeys(g0)[i] == k;
    assert GroupKeys(g) == GroupKeys(g0);
    KeysSnoc(ts);
    forall j | 0 <= j < |g| ensures g[j].routes == Filter(ts, g[j].key) {
      if j != i {
        assert g0[j].key != k;
      }
    }
  }

  /** Inductive step when the last key opens a new group. */
  lemma {:induction false} AppendNewGroup(ts: seq<Keyed>, g0: seq<Group>)
    requires ts != [] && GroupedAsReference(ts[..|ts| - 1], g0)
    requires IndexOf(g0, ts[|ts| - 1].key) == |g0|
    ensures GroupedAsReference(ts, Append(g0, ts[|ts| - 1].key, ts[|ts| - 1].route))
  {
    var pre, last := ts[..|ts| - 1], ts[|ts| - 1];
    var k := last.key;
    var g := Append(g0, k, last.route);
    assert g == g0 + [Group(k, [last.route])];
    assert k !in GroupKeys(g0);
    assert k !in Keys(pre);
    FilterAbsent(pre, k);
    assert GroupKeys(g) == GroupKeys(g0) + [k];
    KeysSnoc(ts);
    forall j | 0 <= j < |g| ensures g[j].routes == Filter(ts, g[j].key) {
      if j < |g0| {
        assert g0[j].key != k;
      }
    }
  }

  /** The multiset of all routes and the route count after replacing one group. */
  lemma {:induction false} FlattenUpdate(gs: seq<Group>, i: nat, g: Group)
    requires i < |gs|
    ensures multiset(Flatten(gs[i := g])) + multiset(gs[i].routes) ==
            multiset(Flatten(gs)) + multiset(g.routes)
    ensures Total(gs[i := g]) + |gs[i].routes| == Total(gs) + |g.routes|
  {
    var n := |gs|;
    var gs' := gs[i := g];
    var pre, pre' := gs[..n - 1], gs'[..n - 1];
    assert Flatten(gs) == Flatten(pre) + gs[n - 1].routes;
    assert Flatten(gs') == Flatten(pre') + gs'[n - 1].routes;
    if i == n - 1 {
      assert pre' == pre;
      UnionSwap(multiset(Flatten(pre)), multiset(gs[i].routes), multiset(g.routes));
    } else {
      assert pre' == pre[i := g];
      FlattenUpdate(pre, i, g);
      assert gs'[n - 1] == gs[n - 1];
      UnionShift(multiset(Flatten(pre')), multiset(gs[n - 1].routes), multiset(gs[i].routes),
                 multiset(Flatten(pre)), multiset(g.routes));
    }
  }

  lemma {:induction false} UnionSwap<T>(a: multiset<T>, b: multiset<T>, c: multiset<T>)
    ensures (a + b) + c == (a + c) + b
  {
  }

  lemma {:induction false} UnionShift<T>(a: multiset<T>, b: multiset<T>, c: multiset<T>, d: multiset<T>, e: multiset<T>)
    requires a + c == d + e
    ensures (a + b) + c == (d + b) + e
  {
    forall x ensures ((a + b) + c)[x] == ((d + b) + e)[x] {
      assert (a + c)[x] == (d + e)[x];
    }
  }

  lemma {:induction false} UnionCancel<T>(a: multiset<T>, b: multiset<T>, c: multiset<T>, d: multiset<T>)
    requires a + b == c + (b + d)
    ensures a == c + d
  {
    forall x ensures a[x] == (c + d)[x] {
      assert (a + b)[x] == (c + (b + d))[x];
    }
  }

  /** No route is lost or duplicated: over all groups every route occurs as often as
      in the input, and the group sizes add up to the number of input routes. */
  lemma {:induction false} GroupByLossless(ts: seq<Keyed>)
    ensures multiset(Flatten(GroupBy(ts))) == multiset(Untag(ts))
    ensures Total(GroupBy(ts)) == |ts|
  {
    if ts != [] {
      var pre, last := ts[..|ts| - 1], ts[|ts| - 1];
      GroupByLossless(pre);
      var g0 := GroupBy(pre);
      var g := GroupBy(ts);
      var i := IndexOf(g0, last.key);
      assert Untag(ts) == Untag(pre) + [last.route];
      assert multiset(Untag(ts)) == multiset(Untag(pre)) + multiset{last.route};
      if i < |g0| {
        FlattenUpdate(g0, i, Group(last.key, g0[i].routes + [last.route]));
        UnionCancel(multiset(Flatten(g)), multiset(g0[i].routes), multiset(Untag(pre)), multiset{last.route});
      } else {
        assert g[..|g0|] == g0;
        assert Flatten(g) == Flatten(g0) + [last.route];
      }
    }
  }

  /** Tagging a route list and dropping the tags gives the list back. */
  lemma {:induction false} UntagTag(scheme: Scheme, rs: seq<Route>)
    ensures Untag(Tag(scheme, rs)) == rs
  {
    var u := Untag(Tag(scheme, rs));
    assert |u| == |rs|;
    forall i | 0 <= i < |rs| ensures u[i] == rs[i] {
      assert Tag(scheme, rs)[i].route == rs[i];
    }
  }

  /** Partition is lossless in each scheme: the routes of all groups are the input
      routes (as a multiset), so the group sizes add up to the number of routes. */
  lemma {:induction false} CategorizeLossless(scheme: Scheme, routes: seq<Route>)
    ensures multiset(Flatten(Grouping(scheme, routes))) == multiset(routes)
    ensures Total(Grouping(scheme, routes)) == |routes|
  {
    GroupByLossless(Tag(scheme, routes));
    UntagTag(scheme, routes);
  }

  /** Within a group, routes keep their input order, and group keys appear in order of
      first occurrence: each group is the input filtered by its key. */
  lemma {:induction false} CategorizeKeepsOrder(scheme: Scheme, routes: seq<Route>)
    ensures DistinctKeys(Grouping(scheme, routes))
    ensures GroupKeys(Grouping(scheme, routes)) == FirstOccurrences(Keys(Tag(scheme, routes)))
    ensures forall i :: 0 <= i < |Grouping(scheme, routes)| ==>
              Grouping(scheme, routes)[i].routes == Filter(Tag(scheme, routes), Grouping(scheme, routes)[i].key)
  {
    GroupByCharacterized(Tag(scheme, routes));
  }

  /** Every input route lands in exactly one group of a scheme: the one whose key is
      the route's own key, which always exists. */
  lemma {:induction false} EachRouteInOneGroup(scheme: Scheme, routes: seq<Route>, j: nat)
    requires j < |routes|
    ensures exists i :: 0 <= i < |Grouping(scheme, routes)| && Grouping(scheme, routes)[i].key == KeyOf(scheme, routes[j])
    ensures forall i :: 0 <= i < |Grouping(scheme, routes)| ==>
              (routes[j] in Grouping(scheme, routes)[i].routes <==> Grouping(scheme, routes)[i].key == KeyOf(scheme, routes[j]))
  {
    var ts := Tag(scheme, routes);
    var g := GroupBy(ts);
    assert g == Grouping(scheme, routes);
    var k := KeyOf(scheme, routes[j]);
    assert ts[j] == Keyed(k, routes[j]);
    GroupByCharacterized(ts);
    assert Keys(ts)[j] == k;
    assert k in GroupKeys(g);
    var i :| 0 <= i < |g| && GroupKeys(g)[i] == k;
    assert g[i].key == k;
    FilterContains(ts, j);
    assert routes[j] in g[i].routes;
    forall i' | 0 <= i' < |g| && routes[j] in g[i'].routes ensures g[i'].key == k {
      FilterMember(ts, g[i'].key, routes[j]);
      var n :| 0 <= n < |ts| && ts[n] == Keyed(g[i'].key, routes[j]);
    }
  }

  /** A keyed route occurs in the filter for its own key. */
  lemma {:induction false} FilterContains(ts: seq<Keyed>, j: nat)
    requires j < |ts|
    ensures ts[j].route in Filter(ts, ts[j].key)
  {
    if j < |ts| - 1 {
      FilterContains(ts[..|ts| - 1], j);
    }
  }

  /** A group holds only input routes, and only those with the group's key. */
  lemma {:induction false} GroupMember(scheme: Scheme, routes: seq<Route>, i: nat, r: Route)
    requires i < |Grouping(scheme, routes)| && r in Grouping(scheme, routes)[i].routes
    ensures r in routes && Grouping(scheme, routes)[i].key == KeyOf(scheme, r)
  {
    var ts := Tag(scheme, routes);
    var g := Grouping(scheme, routes);
    CategorizeKeepsOrder(scheme, routes);
    FilterMember(ts, g[i].key, r);
    var n :| 0 <= n < |ts| && ts[n] == Keyed(g[i].key, r);
    assert routes[n] == r;
  }

  /** The filter for k of a tagged route list selects every and only the routes whose
      key in the scheme is k. */
  lemma {:induction false} FilterSelects(scheme: Scheme, routes: seq<Route>, k: string, x: Route)
    ensures x in Filter(Tag(scheme, routes), k) <==> x in routes && KeyOf(scheme, x) == k
  {
    var ts := Tag(scheme, routes);
    if x in Filter(ts, k) {
      FilterMember(ts, k, x);
      var n :| 0 <= n < |ts| && ts[n] == Keyed(k, x);
      assert routes[n] == x;
    }
    if x in routes && KeyOf(scheme, x) == k {
      var j :| 0 <= j < |routes| && routes[j] == x;
      FilterContains(ts, j);
    }
  }
}
