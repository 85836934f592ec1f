/** Routes as the lazy route list sees them, and the first-match-wins rule that the
    inherited RouteList applies to its ordered list of routers. */
module Routes {

  datatype Option<+T> = None | Some(value: T)

  /** Request or link parameters (`presenter`, `action`, route parameters). */
  type Params = map<string, string>

  /** A route: its mask (path template), the value of its `presenter` default and its
      flags. How one route matches a request or builds a URL belongs to the route
      itself and is supplied by the caller of the list's operations. */
  datatype Route = Route(mask: string, presenter: string, flags: int)

  /** Index of the first route for which `attempt` succeeds, or |rs| if none does. */
  function FirstHitIndex<T>(rs: seq<Route>, attempt: Route -> Option<T>): (k: nat)
    ensures k <= |rs|
    ensures forall j :: 0 <= j < k ==> attempt(rs[j]).None?
    ensures k < |rs| ==> attempt(rs[k]).Some?
  {
    if rs == [] then 0
    else if attempt(rs[0]).Some? then 0
    else 1 + FirstHitIndex(rs[1..], attempt)
  }

  /** First match wins: the result of the first route in list order that accepts,
      or None when no route does. */
  function FirstHit<T>(rs: seq<Route>, attempt: Route -> Option<T>): (r: Option<T>)
    ensures r.None? <==> forall j :: 0 <= j < |rs| ==> attempt(rs[j]).None?
    ensures r.Some? ==> exists k :: 0 <= k < |rs| && r == attempt(rs[k]) &&
                                    forall j :: 0 <= j < k ==> attempt(rs[j]).None?
  {
    var k := FirstHitIndex(rs, attempt);
    if k < |rs| then attempt(rs[k]) else None
  }

  /** Appending routes behind the active ones never changes a result the old list
      already produced: newly loaded groups only add candidates after it. */
  lemma {:induction false} FirstHitAppend<T>(rs: seq<Route>, more: seq<Route>, attempt: Route -> Option<T>)
    requires FirstHit(rs, attempt).Some?
    ensures FirstHit(rs + more, attempt) == FirstHit(rs, attempt)
  {
    if attempt(rs[0]).None? {
      assert (rs + more)[1..] == rs[1..] + more;
      FirstHitAppend(rs[1..], more, attempt);
    }
  }
}
