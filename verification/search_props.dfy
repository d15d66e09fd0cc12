/**
 * Properties of the pruning serialiser: the query's letter case does not
 * matter, exactly the script, style and svg elements render empty, a pruned
 * subtree shows nothing of its descendants, and a `[...]` line stands for a
 * non-matching element child exactly when one of its siblings matches.
 */
module SearchProps {
  import opened Text
  import opened Dom
  import opened Matcher
  import opened Format
  import opened Search
  import opened Layout

  // ---------------------------------------------------------------------------
  // Letter case of the query

  /** Queries that lower-case alike produce the same search output. */
  lemma {:induction false} RenderIgnoresCase(e: Element, q1: string, q2: string, depth: nat)
    requires Lower(q1) == Lower(q2)
    ensures Render(e, q1, depth) == Render(e, q2, depth)
    decreases e, 2, 0
  {
    MatchIgnoresCase(e, q1, q2);
    LightContentIgnoresCase(e, q1, q2, depth, |e.childNodes|);
    ShadowContentIgnoresCase(e, q1, q2, depth, |ShadowChildren(e)|);
    FrameContentIgnoresCase(e, q1, q2, depth);
  }

  lemma {:induction false} LightContentIgnoresCase(e: Element, q1: string, q2: string, depth: nat, k: nat)
    requires Lower(q1) == Lower(q2)
    requires k <= |e.childNodes|
    ensures LightContent(e, q1, depth, k) == LightContent(e, q2, depth, k)
    decreases e, 1, k
  {
    if k > 0 {
      LightContentIgnoresCase(e, q1, q2, depth, k - 1);
      LightItemIgnoresCase(e, q1, q2, depth, k - 1);
    }
  }

  lemma {:induction false} LightItemIgnoresCase(e: Element, q1: string, q2: string, depth: nat, i: nat)
    requires Lower(q1) == Lower(q2)
    requires i < |e.childNodes|
    ensures LightItem(e, q1, depth, i) == LightItem(e, q2, depth, i)
    decreases e, 0, 0
  {
    if e.childNodes[i].ElementNode? {
      var c := e.childNodes[i].element;
      MatchIgnoresCase(c, q1, q2);
      RenderIgnoresCase(c, q1, q2, depth + 1);
      forall j | 0 <= j < |e.childNodes| && e.childNodes[j].ElementNode?
        ensures HasDescendantWithQuery(e.childNodes[j].element, q1) == HasDescendantWithQuery(e.childNodes[j].element, q2)
      {
        MatchIgnoresCase(e.childNodes[j].element, q1, q2);
      }
      assert HasSiblingWithQuery(e, q1, i) == HasSiblingWithQuery(e, q2, i);
    }
  }

  lemma {:induction false} ShadowContentIgnoresCase(e: Element, q1: string, q2: string, depth: nat, k: nat)
    requires Lower(q1) == Lower(q2)
    requires k <= |ShadowChildren(e)|
    ensures ShadowContent(e, q1, depth, k) == ShadowContent(e, q2, depth, k)
    decreases e, 1, k
  {
    if k > 0 {
      ShadowContentIgnoresCase(e, q1, q2, depth, k - 1);
      var c := ShadowChildren(e)[k - 1];
      MatchIgnoresCase(c, q1, q2);
      RenderIgnoresCase(c, q1, q2, depth + 1);
    }
  }

  lemma {:induction false} FrameContentIgnoresCase(e: Element, q1: string, q2: string, depth: nat)
    requires Lower(q1) == Lower(q2)
    ensures FrameContent(e, q1, depth) == FrameContent(e, q2, depth)
    decreases e, 1, 0
  {
    if e.frameBody.Some? {
      MatchIgnoresCase(e.frameBody.value, q1, q2);
      RenderIgnoresCase(e.frameBody.value, q1, q2, depth + 1);
    }
  }

  // ---------------------------------------------------------------------------
  // What renders empty

  /**
   * Exactly the script, style and svg elements render empty; every other
   * element's output begins with its open tag at `depth` and ends with its end tag.
   */
  lemma RenderEmptyIffSkipped(e: Element, query: string, depth: nat)
    ensures Render(e, query, depth) == "" <==> IsSkipped(e)
    ensures !IsSkipped(e) ==> OpenTag(e, depth) <= Render(e, query, depth)
    ensures !IsSkipped(e) ==> EndsWith(Render(e, query, depth), EndTag(e))
  {
    if !IsSkipped(e) {
      var open := OpenTag(e, depth);
      var end := EndTag(e);
      assert EndsWith(CloseTag(e, depth), end);
      if !HasDescendantWithQuery(e, query) {
        if TagName(e) == "body" && !HasElementChild(e) {
          PrefixOfConcat(open, open + "\n", CloseTag(e, depth));
          SuffixOfConcat(open + "\n", CloseTag(e, depth), end);
        } else {
          var front := open + "\n" + Indent(depth) + "  [...]\n";
          PrefixOfConcat(open, front, CloseTag(e, depth));
          SuffixOfConcat(front, CloseTag(e, depth), end);
        }
      } else if HasOnlyTextContent(e) {
        var text := Trim(TextContent(e));
        PrefixOfConcat(open, open + text, end);
        SuffixOfConcat(open + text, end, end);
        InlineFormShape(e, depth);
      } else {
        var content := LightContent(e, query, depth, |e.childNodes|) + ShadowContent(e, query, depth, |ShadowChildren(e)|)
                       + FrameContent(e, query, depth);
        var front := if content != "" then open + content + "\n" else open + "\n";
        PrefixOfConcat(open, front, CloseTag(e, depth));
        SuffixOfConcat(front, CloseTag(e, depth), end);
      }
    }
  }

  // ---------------------------------------------------------------------------
  // Pruning

  /**
   * A non-matching subtree renders as its open tag, a single `[...]` line one
   * level deeper (none for a body without element children) and its close tag:
   * nothing below the element shows.
   */
  lemma PrunedSubtree(e: Element, query: string, depth: nat)
    requires !IsSkipped(e) && !HasDescendantWithQuery(e, query)
    ensures TagName(e) == "body" && !HasElementChild(e) ==>
              Render(e, query, depth) == OpenTag(e, depth) + "\n" + CloseTag(e, depth)
    ensures !(TagName(e) == "body" && !HasElementChild(e)) ==>
              Render(e, query, depth) == OpenTag(e, depth) + PlaceholderLine(depth) + "\n" + CloseTag(e, depth)
  {
    var open, indent := OpenTag(e, depth), Indent(depth);
    assert open + "\n" + indent + "  [...]\n" == open + PlaceholderLine(depth) + "\n";
  }

  /** Two non-matching subtrees with the same tag and attributes render alike, whatever lies below them. */
  lemma PrunedOutputIgnoresDescendants(e1: Element, e2: Element, query: string, depth: nat)
    requires e1.tagName == e2.tagName && e1.attributes == e2.attributes
    requires HasElementChild(e1) == HasElementChild(e2)
    requires !HasDescendantWithQuery(e1, query) && !HasDescendantWithQuery(e2, query)
    ensures Render(e1, query, depth) == Render(e2, query, depth)
  {
  }

  /**
   * In a matching element, element child `i` contributes a `[...]` line exactly
   * when it is searched, does not match and some other element child (script,
   * style and svg included) matches; it contributes nothing exactly when it is
   * skipped or neither it nor a sibling matches; a matching child contributes
   * its own rendering, one level deeper, on a new line.
   */
  lemma PlaceholderIffMatchingSibling(e: Element, query: string, depth: nat, i: nat)
    requires i < |e.childNodes| && e.childNodes[i].ElementNode?
    ensures LightItem(e, query, depth, i) == PlaceholderLine(depth) <==>
            !IsSkipped(e.childNodes[i].element) && !HasDescendantWithQuery(e.childNodes[i].element, query)
            && HasSiblingWithQuery(e, query, i)
    ensures LightItem(e, query, depth, i) == "" <==>
            IsSkipped(e.childNodes[i].element)
            || (!HasDescendantWithQuery(e.childNodes[i].element, query) && !HasSiblingWithQuery(e, query, i))
    ensures !IsSkipped(e.childNodes[i].element) && HasDescendantWithQuery(e.childNodes[i].element, query) ==>
            LightItem(e, query, depth, i) == "\n" + Render(e.childNodes[i].element, query, depth + 1)
  {
    var c := e.childNodes[i].element;
    RenderEmptyIffSkipped(c, query, depth + 1);
    if !IsSkipped(c) && HasDescendantWithQuery(c, query) {
      var r := Render(c, query, depth + 1);
      var at := 2 * depth + 2;
      assert OpenTag(c, depth + 1)[at] == '<';
      assert r[at] == '<';
      assert ("\n" + r)[at + 1] == '<';
      assert PlaceholderLine(depth)[at + 1] == '[';
    }
  }

  /**
   * A shadow-root element contributes to the content exactly when it is searched
   * and matches, and then contributes its own rendering, one level deeper, on a
   * new line; every other one is dropped without a `[...]` line.
   */
  lemma ShadowKeepsOnlyMatching(e: Element, query: string, depth: nat, k: nat)
    requires k < |ShadowChildren(e)|
    ensures ShadowItem(e, query, depth, k) != "" <==>
            !IsSkipped(ShadowChildren(e)[k]) && HasDescendantWithQuery(ShadowChildren(e)[k], query)
    ensures ShadowItem(e, query, depth, k) != "" ==>
            ShadowItem(e, query, depth, k) == "\n" + Render(ShadowChildren(e)[k], query, depth + 1)
  {
    RenderEmptyIffSkipped(ShadowChildren(e)[k], query, depth + 1);
  }

  // ---------------------------------------------------------------------------
  // Layout

  /**
   * For a document without line breaks in its tag names, attributes and trimmed
   * texts, every line of a non-empty rendering at `depth` starts with at least
   * `2 * depth` spaces; the lines of children start with at least two more.
   */
  lemma {:induction false} RenderIndented(e: Element, query: string, depth: nat)
    requires Avoids(e, '\n')
    ensures Render(e, query, depth) != "" ==> LinesIndented(Render(e, query, depth), depth)
    decreases e, 2, 0
  {
    if IsSkipped(e) {
    } else if !HasDescendantWithQuery(e, query) {
      PrunedSubtree(e, query, depth);
      PlaceholderLineIndented(depth);
      BlockIndented(e, depth, PlaceholderLine(depth));
    } else if HasOnlyTextContent(e) {
      InlineIndented(e, depth);
    } else {
      var light := LightContent(e, query, depth, |e.childNodes|);
      var shadow := ShadowContent(e, query, depth, |ShadowChildren(e)|);
      var frame := FrameContent(e, query, depth);
      LightContentIndented(e, query, depth, |e.childNodes|);
      ShadowContentIndented(e, query, depth, |ShadowChildren(e)|);
      FrameContentIndented(e, query, depth);
      BreaksIndentedConcat(light, shadow, depth + 1);
      BreaksIndentedConcat(light + shadow, frame, depth + 1);
      BlockIndented(e, depth, light + shadow + frame);
    }
  }

  lemma {:induction false} LightContentIndented(e: Element, query: string, depth: nat, k: nat)
    requires Avoids(e, '\n')
    requires k <= |e.childNodes|
    ensures BreaksIndented(LightContent(e, query, depth, k), depth + 1)
    decreases e, 1, k
  {
    if k > 0 {
      LightContentIndented(e, query, depth, k - 1);
      LightItemIndented(e, query, depth, k - 1);
      BreaksIndentedConcat(LightContent(e, query, depth, k - 1), LightItem(e, query, depth, k - 1), depth + 1);
    }
  }

  lemma {:induction false} LightItemIndented(e: Element, query: string, depth: nat, i: nat)
    requires Avoids(e, '\n')
    requires i < |e.childNodes|
    ensures BreaksIndented(LightItem(e, query, depth, i), depth + 1)
    decreases e, 0, 0
  {
    match e.childNodes[i]
    case TextNode(data) =>
      if Trim(data) != "" {
        TextLineIndented(Trim(data), depth);
      }
    case ElementNode(c) =>
      if !IsSkipped(c) && HasDescendantWithQuery(c, query) {
        RenderIndented(c, query, depth + 1);
        ChildLinesIndented(Render(c, query, depth + 1), depth);
      } else if !IsSkipped(c) && HasSiblingWithQuery(e, query, i) {
        PlaceholderLineIndented(depth);
      }
    case OtherNode =>
  }

  lemma {:induction false} ShadowContentIndented(e: Element, query: string, depth: nat, k: nat)
    requires Avoids(e, '\n')
    requires k <= |ShadowChildren(e)|
    ensures BreaksIndented(ShadowContent(e, query, depth, k), depth + 1)
    decreases e, 1, k
  {
    if k > 0 {
      ShadowContentIndented(e, query, depth, k - 1);
      ShadowItemIndented(e, query, depth, k - 1);
      BreaksIndentedConcat(ShadowContent(e, query, depth, k - 1), ShadowItem(e, query, depth, k - 1), depth + 1);
    }
  }

  lemma {:induction false} ShadowItemIndented(e: Element, query: string, depth: nat, k: nat)
    requires Avoids(e, '\n')
    requires k < |ShadowChildren(e)|
    ensures BreaksIndented(ShadowItem(e, query, depth, k), depth + 1)
    decreases e, 0, 0
  {
    var c := ShadowChildren(e)[k];
    RenderIndented(c, query, depth + 1);
    ChildLinesIndented(Render(c, query, depth + 1), depth);
  }

  lemma {:induction false} FrameContentIndented(e: Element, query: string, depth: nat)
    requires Avoids(e, '\n')
    ensures BreaksIndented(FrameContent(e, query, depth), depth + 1)
    decreases e, 1, 0
  {
    if IsIframe(e) && e.frameBody.Some? {
      RenderIndented(e.frameBody.value, query, depth + 1);
      ChildLinesIndented(Render(e.frameBody.value, query, depth + 1), depth);
    }
  }

  // ---------------------------------------------------------------------------
  // Document order

  /** The content only grows as the loop goes on: what the first `k1` child nodes produced stays in front. */
  lemma {:induction false} LightContentPrefix(e: Element, query: string, depth: nat, k1: nat, k2: nat)
    requires k1 <= k2 <= |e.childNodes|
    ensures LightContent(e, query, depth, k1) <= LightContent(e, query, depth, k2)
    decreases k2
  {
    if k1 < k2 {
      LightContentPrefix(e, query, depth, k1, k2 - 1);
      PrefixOfConcat(LightContent(e, query, depth, k1), LightContent(e, query, depth, k2 - 1),
                     LightItem(e, query, depth, k2 - 1));
    }
  }

  /**
   * The contributions of the child nodes appear in the content one after the
   * other in document order: child `i`'s ends before child `j`'s starts when `i < j`.
   */
  lemma ChildrenInDocumentOrder(e: Element, query: string, depth: nat, i: nat, j: nat)
    requires i < j < |e.childNodes|
    ensures var all := LightContent(e, query, depth, |e.childNodes|);
            OccursAt(all, LightItem(e, query, depth, i), |LightContent(e, query, depth, i)|)
            && OccursAt(all, LightItem(e, query, depth, j), |LightContent(e, query, depth, j)|)
            && |LightContent(e, query, depth, i)| + |LightItem(e, query, depth, i)| <= |LightContent(e, query, depth, j)|
  {
    LightContentPrefix(e, query, depth, i + 1, j);
    assert |LightContent(e, query, depth, i + 1)| <= |LightContent(e, query, depth, j)|;
    assert LightContent(e, query, depth, i + 1) == LightContent(e, query, depth, i) + LightItem(e, query, depth, i);
    LightItemOccurs(e, query, depth, i);
    LightItemOccurs(e, query, depth, j);
  }

  lemma LightItemOccurs(e: Element, query: string, depth: nat, i: nat)
    requires i < |e.childNodes|
    ensures OccursAt(LightContent(e, query, depth, |e.childNodes|), LightItem(e, query, depth, i),
                     |LightContent(e, query, depth, i)|)
  {
    var all, before, upTo := LightContent(e, query, depth, |e.childNodes|), LightContent(e, query, depth, i),
                             LightContent(e, query, depth, i + 1);
    var item := LightItem(e, query, depth, i);
    LightContentPrefix(e, query, depth, i + 1, |e.childNodes|);
    assert all[..|upTo|] == upTo;
    assert upTo == before + item;
    assert upTo[|before|..] == item;
    assert all[|before|..|before| + |item|] == upTo[|before|..];
  }
}
