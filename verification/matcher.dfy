/**
 * The query matcher: does an element's subtree, as the search walks it,
 * contain a case-insensitive match for the query?
 */
module Matcher {
  import opened Text
  import opened Wrappers
  import opened Dom

  /**
   * The element itself matches: its non-empty text content, or the value of
   * one of its attributes, contains the query, both sides lower-cased.
   */
  predicate ElementContainsQuery(e: Element, query: string)
  {
    var text := TextContent(e);
    (text != "" && Contains(Lower(text), Lower(query)))
    || exists i :: 0 <= i < |e.attributes| && Contains(Lower(e.attributes[i].value), Lower(query))
  }

  /**
   * The element matches, or some element of its shadow root does, or the body of
   * its readable embedded document does (iframes only), or one of its light
   * element children that is not a script, style or svg element does.
   */
  predicate HasDescendantWithQuery(e: Element, query: string)
    decreases e
  {
    ElementContainsQuery(e, query)
    || (exists k :: 0 <= k < |ShadowChildren(e)| && HasDescendantWithQuery(ShadowChildren(e)[k], query))
    || (IsIframe(e) && e.frameBody.Some? && HasDescendantWithQuery(e.frameBody.value, query))
    || exists i :: 0 <= i < |e.childNodes| && IsSearchedChild(e, i) && HasDescendantWithQuery(e.childNodes[i].element, query)
  }

  // ---------------------------------------------------------------------------
  // An independent description of the matcher: the set of elements the search
  // can see from `e`, and "one of them matches by itself".

  /**
   * The elements visible to the search from `e`, in visiting order: `e`, then
   * everything visible from each shadow-root element, then from the readable
   * frame body of an iframe, then from each light element child that is not a
   * script, style or svg element.
   */
  function SearchScope(e: Element): seq<Element>
    decreases e, 2, 0
  {
    [e] + ShadowScope(e, |ShadowChildren(e)|) + FrameScope(e) + LightScope(e, |e.childNodes|)
  }

  function ShadowScope(e: Element, k: nat): seq<Element>
    requires k <= |ShadowChildren(e)|
    decreases e, 1, k
  {
    if k == 0 then [] else ShadowScope(e, k - 1) + SearchScope(ShadowChildren(e)[k - 1])
  }

  function FrameScope(e: Element): seq<Element>
    decreases e, 1, 0
  {
    if IsIframe(e) && e.frameBody.Some? then SearchScope(e.frameBody.value) else []
  }

  function LightScope(e: Element, k: nat): seq<Element>
    requires k <= |e.childNodes|
    decreases e, 1, k
  {
    if k == 0 then []
    else
      LightScope(e, k - 1) + if IsSearchedChild(e, k - 1) then SearchScope(e.childNodes[k - 1].element) else []
  }

  /** Everything visible from the `j`-th shadow-root element is in the shadow part of the scope. */
  lemma {:induction false} ShadowScopeIncludes(e: Element, k: nat, j: nat, x: Element)
    requires j < k <= |ShadowChildren(e)|
    requires x in SearchScope(ShadowChildren(e)[j])
    ensures x in ShadowScope(e, k)
  {
    assert ShadowScope(e, k) == ShadowScope(e, k - 1) + SearchScope(ShadowChildren(e)[k - 1]);
    if j < k - 1 {
      ShadowScopeIncludes(e, k - 1, j, x);
    }
  }

  /** The shadow part of the scope holds nothing else: each member comes from some shadow-root element. */
  lemma {:induction false} ShadowScopeSource(e: Element, k: nat, x: Element) returns (j: nat)
    requires k <= |ShadowChildren(e)|
    requires x in ShadowScope(e, k)
    ensures j < k && x in SearchScope(ShadowChildren(e)[j])
  {
    assert ShadowScope(e, k) == ShadowScope(e, k - 1) + SearchScope(ShadowChildren(e)[k - 1]);
    if x in SearchScope(ShadowChildren(e)[k - 1]) {
      j := k - 1;
    } else {
      j := ShadowScopeSource(e, k - 1, x);
    }
  }

  /** Everything visible from a searched light child `j` is in the light part of the scope. */
  lemma {:induction false} LightScopeIncludes(e: Element, k: nat, j: nat, x: Element)
    requires j < k <= |e.childNodes|
    requires IsSearchedChild(e, j) && x in SearchScope(e.childNodes[j].element)
    ensures x in LightScope(e, k)
  {
    var last := if IsSearchedChild(e, k - 1) then SearchScope(e.childNodes[k - 1].element) else [];
    assert LightScope(e, k) == LightScope(e, k - 1) + last;
    if j < k - 1 {
      LightScopeIncludes(e, k - 1, j, x);
    }
  }

  /** The light part of the scope holds nothing else: each member comes from some searched light child. */
  lemma {:induction false} LightScopeSource(e: Element, k: nat, x: Element) returns (j: nat)
    requires k <= |e.childNodes|
    requires x in LightScope(e, k)
    ensures j < k && IsSearchedChild(e, j) && x in SearchScope(e.childNodes[j].element)
  {
    var last := if IsSearchedChild(e, k - 1) then SearchScope(e.childNodes[k - 1].element) else [];
    assert LightScope(e, k) == LightScope(e, k - 1) + last;
    if x in last {
      j := k - 1;
    } else {
      j := LightScopeSource(e, k - 1, x);
    }
  }

  /** The matcher succeeds exactly when some element in the search scope matches by itself. */
  lemma {:induction false} MatchIffScopeMatches(e: Element, query: string)
    ensures HasDescendantWithQuery(e, query) <==>
            exists x :: x in SearchScope(e) && ElementContainsQuery(x, query)
    decreases e
  {
    if HasDescendantWithQuery(e, query) {
      var x := MatchWitness(e, query);
    }
    if x :| x in SearchScope(e) && ElementContainsQuery(x, query) {
      ScopeMatchFound(e, query, x);
    }
  }

  /** A match found by the matcher is an element of the scope that matches by itself. */
  lemma {:induction false} MatchWitness(e: Element, query: string) returns (x: Element)
    requires HasDescendantWithQuery(e, query)
    ensures x in SearchScope(e) && ElementContainsQuery(x, query)
    decreases e
  {
    var m := |ShadowChildren(e)|;
    var n := |e.childNodes|;
    assert SearchScope(e) == [e] + ShadowScope(e, m) + FrameScope(e) + LightScope(e, n);
    if ElementContainsQuery(e, query) {
      x := e;
    } else if k :| 0 <= k < m && HasDescendantWithQuery(ShadowChildren(e)[k], query) {
      x := MatchWitness(ShadowChildren(e)[k], query);
      ShadowScopeIncludes(e, m, k, x);
    } else if IsIframe(e) && e.frameBody.Some? && HasDescendantWithQuery(e.frameBody.value, query) {
      x := MatchWitness(e.frameBody.value, query);
    } else {
      var i :| 0 <= i < n && IsSearchedChild(e, i) && HasDescendantWithQuery(e.childNodes[i].element, query);
      x := MatchWitness(e.childNodes[i].element, query);
      LightScopeIncludes(e, n, i, x);
    }
  }

  /** An element of the scope that matches by itself makes the matcher succeed. */
  lemma {:induction false} ScopeMatchFound(e: Element, query: string, x: Element)
    requires x in SearchScope(e) && ElementContainsQuery(x, query)
    ensures HasDescendantWithQuery(e, query)
    decreases e
  {
    var m := |ShadowChildren(e)|;
    var n := |e.childNodes|;
    assert SearchScope(e) == [e] + ShadowScope(e, m) + FrameScope(e) + LightScope(e, n);
    if x == e {
    } else if x in ShadowScope(e, m) {
      var j := ShadowScopeSource(e, m, x);
      ScopeMatchFound(ShadowChildren(e)[j], query, x);
    } else if x in FrameScope(e) {
      ScopeMatchFound(e.frameBody.value, query, x);
    } else {
      var j := LightScopeSource(e, n, x);
      ScopeMatchFound(e.childNodes[j].element, query, x);
    }
  }

  /** Queries that lower-case alike match the same subtrees. */
  lemma {:induction false} MatchIgnoresCase(e: Element, q1: string, q2: string)
    requires Lower(q1) == Lower(q2)
    ensures HasDescendantWithQuery(e, q1) == HasDescendantWithQuery(e, q2)
  {
    MatchIffScopeMatches(e, q1);
    MatchIffScopeMatches(e, q2);
    forall x ensures ElementContainsQuery(x, q1) == ElementContainsQuery(x, q2) { }
  }

  /**
   * The text of every element child, script, style and svg included, is part of
   * the parent's text content: a child whose text holds the query makes its
   * parent match by itself, even where the search does not descend into that child.
   */
  lemma ChildTextMatchesParent(e: Element, i: nat, query: string)
    requires i < |e.childNodes| && e.childNodes[i].ElementNode?
    requires TextContent(e.childNodes[i].element) != ""
    requires Contains(Lower(TextContent(e.childNodes[i].element)), Lower(query))
    ensures ElementContainsQuery(e, query) && HasDescendantWithQuery(e, query)
  {
    var t := TextContent(e.childNodes[i].element);
    ChildTextInText(e, |e.childNodes|, i);
    ContainsLower(TextContent(e), t);
    ContainsTransitive(Lower(TextContent(e)), Lower(t), Lower(query));
  }
}
