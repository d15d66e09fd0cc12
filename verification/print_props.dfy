/**
 * Properties of the full serialiser: every element is rendered, script, style
 * and svg included; no `[...]` is ever emitted, so no character that the
 * document does not hold besides the markup appears; the frame body of an
 * iframe whose light content is text only is never shown, in either mode; lines are
 * indented by depth; children appear in document order; and an element that
 * produced no content is rendered differently from the pruning mode.
 */
module PrintProps {
  import opened Text
  import opened Dom
  import opened Matcher
  import opened Format
  import opened Layout
  import opened Search
  import opened Print

  // ---------------------------------------------------------------------------
  // Nothing is skipped

  /** Every element renders non-empty: its open tag at `depth` first, its end tag last. */
  lemma RenderFullShape(e: Element, depth: nat)
    ensures RenderFull(e, depth) != ""
    ensures OpenTag(e, depth) <= RenderFull(e, depth)
    ensures EndsWith(RenderFull(e, depth), EndTag(e))
  {
    var open := OpenTag(e, depth);
    var end := EndTag(e);
    assert EndsWith(CloseTag(e, depth), end);
    if HasOnlyTextContent(e) {
      var text := Trim(TextContent(e));
      PrefixOfConcat(open, open + text, end);
      SuffixOfConcat(open + text, end, end);
      InlineFormShape(e, depth);
    } else {
      var content := FullLightContent(e, depth, |e.childNodes|) + FullShadowContent(e, depth, |ShadowChildren(e)|)
                     + FullFrameContent(e, depth);
      if content != "" {
        PrefixOfConcat(open, open + content + "\n", CloseTag(e, depth));
        SuffixOfConcat(open + content + "\n", CloseTag(e, depth), end);
      } else {
        PrefixOfConcat(open, open, end);
        SuffixOfConcat(open, end, end);
      }
    }
  }

  /**
   * Every element child, script, style and svg included, contributes its full
   * rendering one level deeper on a new line; a text node contributes exactly
   * when its trimmed text is not empty; any other node contributes nothing.
   */
  lemma FullKeepsEveryChild(e: Element, depth: nat, i: nat)
    requires i < |e.childNodes|
    ensures e.childNodes[i].ElementNode? ==>
            FullLightItem(e, depth, i) == "\n" + RenderFull(e.childNodes[i].element, depth + 1)
    ensures e.childNodes[i].TextNode? ==>
            (FullLightItem(e, depth, i) == "" <==> Trim(e.childNodes[i].data) == "")
    ensures e.childNodes[i].OtherNode? ==> FullLightItem(e, depth, i) == ""
  {
    if e.childNodes[i].ElementNode? {
      RenderFullShape(e.childNodes[i].element, depth + 1);
    }
  }

  /** Every shadow-root element contributes its full rendering one level deeper on a new line. */
  lemma FullKeepsEveryShadowChild(e: Element, depth: nat, k: nat)
    requires k < |ShadowChildren(e)|
    ensures FullShadowItem(e, depth, k) == "\n" + RenderFull(ShadowChildren(e)[k], depth + 1)
  {
    RenderFullShape(ShadowChildren(e)[k], depth + 1);
  }

  /**
   * An element with no shadow root whose child nodes are all text renders on one
   * line, as open tag, trimmed text content and end tag, in full mode and, when
   * it matches and is not skipped, identically in pruning mode.
   */
  lemma InlineLeaf(e: Element, query: string, depth: nat)
    requires HasOnlyTextContent(e)
    ensures RenderFull(e, depth) == OpenTag(e, depth) + Trim(TextContent(e)) + EndTag(e)
    ensures !IsSkipped(e) && HasDescendantWithQuery(e, query) ==> Render(e, query, depth) == RenderFull(e, depth)
  {
    InlineFormShape(e, depth);
  }

  /**
   * An iframe whose light content is text only (the usual case: an iframe's
   * parsed content is text, and it hosts no shadow root) takes the inline form
   * before the frame step is reached. So neither mode ever shows its frame body,
   * although the matcher searches it: a match inside the frame makes the iframe
   * match, yet search renders the iframe as its bare tags and hides the match.
   */
  lemma FrameBodyNeverShown(e: Element, query: string, depth: nat)
    requires IsIframe(e) && HasOnlyTextContent(e)
    requires e.frameBody.Some? && HasDescendantWithQuery(e.frameBody.value, query)
    ensures HasDescendantWithQuery(e, query)
    ensures Render(e, query, depth) == RenderFull(e, depth) == InlineForm(e, depth)
    ensures e.childNodes == [] ==> Render(e, query, depth) == OpenTag(e, depth) + EndTag(e)
  {
    assert !IsSkipped(e);
    if e.childNodes == [] {
      assert TextContent(e) == "";
      assert Trim("") == "";
    }
  }

  // ---------------------------------------------------------------------------
  // Nothing is elided

  /**
   * The output holds only the document's own strings and the markup characters:
   * a character that is not markup and that the document does not hold never appears.
   */
  lemma {:induction false} RenderFullAvoids(e: Element, depth: nat, ch: char)
    requires Avoids(e, ch) && !IsMarkup(ch)
    ensures ch !in RenderFull(e, depth)
    decreases e, 2, 0
  {
    TagsAvoid(e, depth, ch);
    if HasOnlyTextContent(e) {
      InlineAvoids(e, depth, ch);
    } else {
      FullLightContentAvoids(e, depth, |e.childNodes|, ch);
      FullShadowContentAvoids(e, depth, |ShadowChildren(e)|, ch);
      FullFrameContentAvoids(e, depth, ch);
    }
  }

  lemma {:induction false} FullLightContentAvoids(e: Element, depth: nat, k: nat, ch: char)
    requires Avoids(e, ch) && !IsMarkup(ch)
    requires k <= |e.childNodes|
    ensures ch !in FullLightContent(e, depth, k)
    decreases e, 1, k
  {
    if k > 0 {
      FullLightContentAvoids(e, depth, k - 1, ch);
      FullLightItemAvoids(e, depth, k - 1, ch);
    }
  }

  lemma {:induction false} FullLightItemAvoids(e: Element, depth: nat, i: nat, ch: char)
    requires Avoids(e, ch) && !IsMarkup(ch)
    requires i < |e.childNodes|
    ensures ch !in FullLightItem(e, depth, i)
    decreases e, 0, 0
  {
    match e.childNodes[i]
    case TextNode(data) =>
      TextLineAvoids(Trim(data), depth, ch);
    case ElementNode(c) =>
      RenderFullAvoids(c, depth + 1, ch);
    case OtherNode =>
  }

  lemma {:induction false} FullShadowContentAvoids(e: Element, depth: nat, k: nat, ch: char)
    requires Avoids(e, ch) && !IsMarkup(ch)
    requires k <= |ShadowChildren(e)|
    ensures ch !in FullShadowContent(e, depth, k)
    decreases e, 1, k
  {
    if k > 0 {
      FullShadowContentAvoids(e, depth, k - 1, ch);
      FullShadowItemAvoids(e, depth, k - 1, ch);
    }
  }

  lemma {:induction false} FullShadowItemAvoids(e: Element, depth: nat, k: nat, ch: char)
    requires Avoids(e, ch) && !IsMarkup(ch)
    requires k < |ShadowChildren(e)|
    ensures ch !in FullShadowItem(e, depth, k)
    decreases e, 0, 0
  {
    RenderFullAvoids(ShadowChildren(e)[k], depth + 1, ch);
  }

  lemma {:induction false} FullFrameContentAvoids(e: Element, depth: nat, ch: char)
    requires Avoids(e, ch) && !IsMarkup(ch)
    ensures ch !in FullFrameContent(e, depth)
    decreases e, 1, 0
  {
    if IsIframe(e) && e.frameBody.Some? {
      RenderFullAvoids(e.frameBody.value, depth + 1, ch);
    }
  }

  /** So the full mode never emits a `[...]` line of its own: for a document without `[`, none appears. */
  lemma FullModeHasNoPlaceholder(e: Element, depth: nat)
    requires Avoids(e, '[')
    ensures !Contains(RenderFull(e, depth), "[...]")
  {
    RenderFullAvoids(e, depth, '[');
    MissingCharNotContained(RenderFull(e, depth), "[...]");
  }

  // ---------------------------------------------------------------------------
  // Layout

  /**
   * For a document without line breaks in its tag names, attributes and trimmed
   * texts, every line of the full rendering at `depth` starts with at least
   * `2 * depth` spaces.
   */
  lemma {:induction false} RenderFullIndented(e: Element, depth: nat)
    requires Avoids(e, '\n')
    ensures LinesIndented(RenderFull(e, depth), depth)
    decreases e, 2, 0
  {
    if HasOnlyTextContent(e) {
      InlineIndented(e, depth);
    } else {
      var light := FullLightContent(e, depth, |e.childNodes|);
      var shadow := FullShadowContent(e, depth, |ShadowChildren(e)|);
      var frame := FullFrameContent(e, depth);
      FullLightContentIndented(e, depth, |e.childNodes|);
      FullShadowContentIndented(e, depth, |ShadowChildren(e)|);
      FullFrameContentIndented(e, depth);
      BreaksIndentedConcat(light, shadow, depth + 1);
      BreaksIndentedConcat(light + shadow, frame, depth + 1);
      if light + shadow + frame != "" {
        BlockIndented(e, depth, light + shadow + frame);
      } else {
        OpenTagLine(e, depth);
        CloseTagLine(e, depth);
        IndentedAtPrefix(OpenTag(e, depth), EndTag(e), depth);
        NoBreaks(OpenTag(e, depth) + EndTag(e), depth);
      }
    }
  }

  lemma {:induction false} FullLightContentIndented(e: Element, depth: nat, k: nat)
    requires Avoids(e, '\n')
    requires k <= |e.childNodes|
    ensures BreaksIndented(FullLightContent(e, depth, k), depth + 1)
    decreases e, 1, k
  {
    if k > 0 {
      FullLightContentIndented(e, depth, k - 1);
      FullLightItemIndented(e, depth, k - 1);
      BreaksIndentedConcat(FullLightContent(e, depth, k - 1), FullLightItem(e, depth, k - 1), depth + 1);
    }
  }

  lemma {:induction false} FullLightItemIndented(e: Element, depth: nat, i: nat)
    requires Avoids(e, '\n')
    requires i < |e.childNodes|
    ensures BreaksIndented(FullLightItem(e, depth, i), depth + 1)
    decreases e, 0, 0
  {
    match e.childNodes[i]
    case TextNode(data) =>
      if Trim(data) != "" {
        TextLineIndented(Trim(data), depth);
      }
    case ElementNode(c) =>
      RenderFullIndented(c, depth + 1);
      ChildLinesIndented(RenderFull(c, depth + 1), depth);
    case OtherNode =>
  }

  lemma {:induction false} FullShadowContentIndented(e: Element, depth: nat, k: nat)
    requires Avoids(e, '\n')
    requires k <= |ShadowChildren(e)|
    ensures BreaksIndented(FullShadowContent(e, depth, k), depth + 1)
    decreases e, 1, k
  {
    if k > 0 {
      FullShadowContentIndented(e, depth, k - 1);
      FullShadowItemIndented(e, depth, k - 1);
      BreaksIndentedConcat(FullShadowContent(e, depth, k - 1), FullShadowItem(e, depth, k - 1), depth + 1);
    }
  }

  lemma {:induction false} FullShadowItemIndented(e: Element, depth: nat, k: nat)
    requires Avoids(e, '\n')
    requires k < |ShadowChildren(e)|
    ensures BreaksIndented(FullShadowItem(e, depth, k), depth + 1)
    decreases e, 0, 0
  {
    var c := ShadowChildren(e)[k];
    RenderFullIndented(c, depth + 1);
    ChildLinesIndented(RenderFull(c, depth + 1), depth);
  }

  lemma {:induction false} FullFrameContentIndented(e: Element, depth: nat)
    requires Avoids(e, '\n')
    ensures BreaksIndented(FullFrameContent(e, depth), depth + 1)
    decreases e, 1, 0
  {
    if IsIframe(e) && e.frameBody.Some? {
      RenderFullIndented(e.frameBody.value, depth + 1);
      ChildLinesIndented(RenderFull(e.frameBody.value, depth + 1), depth);
    }
  }

  // ---------------------------------------------------------------------------
  // Document order

  /** The content only grows as the loop goes on: what the first `k1` child nodes produced stays in front. */
  lemma {:induction false} FullLightContentPrefix(e: Element, depth: nat, k1: nat, k2: nat)
    requires k1 <= k2 <= |e.childNodes|
    ensures FullLightContent(e, depth, k1) <= FullLightContent(e, depth, k2)
    decreases k2
  {
    if k1 < k2 {
      FullLightContentPrefix(e, depth, k1, k2 - 1);
      PrefixOfConcat(FullLightContent(e, depth, k1), FullLightContent(e, depth, k2 - 1), FullLightItem(e, depth, k2 - 1));
    }
  }

  lemma FullLightItemOccurs(e: Element, depth: nat, i: nat)
    requires i < |e.childNodes|
    ensures OccursAt(FullLightContent(e, depth, |e.childNodes|), FullLightItem(e, depth, i),
                     |FullLightContent(e, depth, i)|)
  {
    var all, before, upTo := FullLightContent(e, depth, |e.childNodes|), FullLightContent(e, depth, i),
                             FullLightContent(e, depth, i + 1);
    var item := FullLightItem(e, depth, i);
    FullLightContentPrefix(e, depth, i + 1, |e.childNodes|);
    assert all[..|upTo|] == upTo;
    assert upTo == before + item;
    assert upTo[|before|..] == item;
    assert all[|before|..|before| + |item|] == upTo[|before|..];
  }

  /**
   * The renderings of the child nodes appear in the content one after the other
   * in document order: child `i`'s ends before child `j`'s starts when `i < j`.
   */
  lemma FullChildrenInDocumentOrder(e: Element, depth: nat, i: nat, j: nat)
    requires i < j < |e.childNodes|
    ensures var all := FullLightContent(e, depth, |e.childNodes|);
            OccursAt(all, FullLightItem(e, depth, i), |FullLightContent(e, depth, i)|)
            && OccursAt(all, FullLightItem(e, depth, j), |FullLightContent(e, depth, j)|)
            && |FullLightContent(e, depth, i)| + |FullLightItem(e, depth, i)| <= |FullLightContent(e, depth, j)|
  {
    FullLightContentPrefix(e, depth, i + 1, j);
    assert |FullLightContent(e, depth, i + 1)| <= |FullLightContent(e, depth, j)|;
    assert FullLightContent(e, depth, i + 1) == FullLightContent(e, depth, i) + FullLightItem(e, depth, i);
    FullLightItemOccurs(e, depth, i);
    FullLightItemOccurs(e, depth, j);
  }

  // ---------------------------------------------------------------------------
  // The two modes on an element that produced no content

  /** Child nodes that are blank text or neither text nor element produce nothing, in either mode. */
  lemma {:induction false} NothingFromBlankChildren(e: Element, query: string, depth: nat, k: nat)
    requires k <= |e.childNodes|
    requires forall i :: 0 <= i < |e.childNodes| ==>
               e.childNodes[i].OtherNode? || (e.childNodes[i].TextNode? && Trim(e.childNodes[i].data) == "")
    ensures LightContent(e, query, depth, k) == "" && FullLightContent(e, depth, k) == ""
  {
    if k > 0 {
      NothingFromBlankChildren(e, query, depth, k - 1);
    }
  }

  /**
   * A matching element that is not text-only but has nothing to show (only blank
   * text and non-element child nodes, no shadow-root element, no frame body)
   * renders as open tag, line break and close tag when pruning, and as open tag
   * directly followed by end tag in full.
   */
  lemma EmptyContentForms(e: Element, query: string, depth: nat)
    requires !IsSkipped(e) && HasDescendantWithQuery(e, query) && !HasOnlyTextContent(e)
    requires forall i :: 0 <= i < |e.childNodes| ==>
               e.childNodes[i].OtherNode? || (e.childNodes[i].TextNode? && Trim(e.childNodes[i].data) == "")
    requires ShadowChildren(e) == [] && !(IsIframe(e) && e.frameBody.Some?)
    ensures Render(e, query, depth) == OpenTag(e, depth) + "\n" + CloseTag(e, depth)
    ensures RenderFull(e, depth) == OpenTag(e, depth) + EndTag(e)
  {
    NothingFromBlankChildren(e, query, depth, |e.childNodes|);
  }
}
