/** The path key of a route (src/Routing/LazyRouteList.php:80-81): the static part of
    its mask, cut at the first place where the route pattern
      /<([^<>= ]+)(=[^<> ]*)? *([^<>]*)>|(\[!?|\]|\s*\?.*)/
    matches, with every trailing '/' then removed (PHP's rtrim with '/').

    The leftmost match of that pattern starts at the first position holding one of
      - a parameter `<name ...>`: '<', then a character other than '<', '>', '=' and
        space, then characters other than '<' and '>' up to a closing '>';
      - an optional-segment bracket '[' or ']';
      - a query part: a run of white space followed by '?', or '?' alone.
    The part before it is the first piece that the split returns. */
module StaticPath {

  /** PCRE's \s without Unicode properties. */
  predicate IsSpace(c: char) {
    c == ' ' || c == '\t' || c == '\n' || c == '\U{0B}' || c == '\U{0C}' || c == '\r'
  }

  /** From position j on, a '>' comes before any '<' (and before the end). */
  predicate CloserAhead(s: string, j: nat)
    decreases |s| - j
  {
    j < |s| && (s[j] == '>' || (s[j] != '<' && CloserAhead(s, j + 1)))
  }

  /** A parameter `<name ...>` starts at position i. */
  predicate ParameterAt(s: string, i: nat) {
    i + 1 < |s| && s[i] == '<' && s[i + 1] !in "<>= " && CloserAhead(s, i + 1)
  }

  /** A query part (white space, then '?') starts at position i. */
  predicate QueryAt(s: string, i: nat)
    decreases |s| - i
  {
    i < |s| && (s[i] == '?' || (IsSpace(s[i]) && QueryAt(s, i + 1)))
  }

  /** The route pattern has a match starting at position i. */
  predicate MarkerAt(s: string, i: nat) {
    i < |s| && (ParameterAt(s, i) || s[i] == '[' || s[i] == ']' || QueryAt(s, i))
  }

  /** The leftmost position at or after i where the pattern matches, or |s|. */
  function FirstMarker(s: string, i: nat): (k: nat)
    requires i <= |s|
    ensures i <= k <= |s|
    ensures forall j :: i <= j < k ==> !MarkerAt(s, j)
    ensures k < |s| ==> MarkerAt(s, k)
    decreases |s| - i
  {
    if i == |s| || MarkerAt(s, i) then i else FirstMarker(s, i + 1)
  }

  /** The first piece of the split: the mask up to the first match. */
  function StaticPart(mask: string): (p: string)
    ensures p <= mask
    ensures forall j :: 0 <= j < |p| ==> !MarkerAt(mask, j)
    ensures |p| < |mask| ==> MarkerAt(mask, |p|)
  {
    mask[..FirstMarker(mask, 0)]
  }

  /** PHP's rtrim(s, '/'): every trailing '/' removed, nothing else. */
  function TrimTrailingSlashes(s: string): (r: string)
    ensures r <= s
    ensures r == [] || r[|r| - 1] != '/'
    ensures forall j :: |r| <= j < |s| ==> s[j] == '/'
  {
    if |s| > 0 && s[|s| - 1] == '/' then TrimTrailingSlashes(s[..|s| - 1]) else s
  }

  /** The path key under which a route is grouped for matching. */
  function PathKey(mask: string): (k: string)
    ensures k <= mask
    ensures k == [] || k[|k| - 1] != '/'
  {
    TrimTrailingSlashes(StaticPart(mask))
  }

  /** The path key is a prefix of the mask, never ends in '/', contains no place where
      the route pattern matches, and only '/' lies between it and the first match. */
  lemma {:induction false} PathKeyShape(mask: string)
    ensures PathKey(mask) <= mask
    ensures PathKey(mask) == [] || PathKey(mask)[|PathKey(mask)| - 1] != '/'
    ensures forall j :: 0 <= j < |PathKey(mask)| ==> !MarkerAt(mask, j)
    ensures forall j :: |PathKey(mask)| <= j < |StaticPart(mask)| ==> mask[j] == '/'
  {
    var p := StaticPart(mask);
    var k := PathKey(mask);
    assert k <= p;
    forall j | |k| <= j < |p| ensures mask[j] == '/' {
      assert mask[j] == p[j];
    }
  }

  /** Masks in the style of Nette routes: a parameter ends the static part. */
  lemma {:induction false} PathKeyOfParameterMasks()
    ensures PathKey("blog/<id>") == "blog"
    ensures PathKey("blog/<id>/edit") == "blog"
  {
    var m1 := "blog/<id>";
    assert ParameterAt(m1, 5);
    assert FirstMarker(m1, 0) == 5;
    var m2 := "blog/<id>/edit";
    assert ParameterAt(m2, 5);
    assert FirstMarker(m2, 0) == 5;
  }

  /** An optional segment ends the static part. */
  lemma {:induction false} PathKeyOfOptionalMask()
    ensures PathKey("shop[/<sku>]") == "shop"
  {
    var m := "shop[/<sku>]";
    assert FirstMarker(m, 0) == 4;
  }

  /** So does a query part, together with the white space before its '?'. */
  lemma {:induction false} PathKeyOfQueryMask()
    ensures PathKey("admin/users ? page=<page>") == "admin/users"
  {
    var m := "admin/users ? page=<page>";
    assert QueryAt(m, 11);
    assert forall j :: 0 <= j < 11 ==> !MarkerAt(m, j);
    assert FirstMarker(m, 0) == 11;
    assert StaticPart(m) == "admin/users";
  }

  /** A mask that is parametric from its first character gets the empty key; an
      empty pair of angle brackets is not a parameter and stays in the key. */
  lemma {:induction false} PathKeyOfRootAndEmptyBrackets()
    ensures PathKey("<presenter>/<action>") == ""
    ensures PathKey("a<>b/<x>") == "a<>b"
  {
    var m4 := "<presenter>/<action>";
    assert CloserAhead(m4, 10) && CloserAhead(m4, 7) && CloserAhead(m4, 4);
    assert CloserAhead(m4, 1) && ParameterAt(m4, 0);
    var m6 := "a<>b/<x>";
    assert !ParameterAt(m6, 1);
    assert ParameterAt(m6, 5);
    assert FirstMarker(m6, 0) == 5;
  }
}
