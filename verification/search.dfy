/**
 * Pruning-mode serialisation (`searchHTML`): render the tree below the body,
 * replacing subtrees that do not contain the query by `[...]`.
 */
module Search {
  import opened Text
  import opened Wrappers
  import opened Dom
  import opened Matcher
  import opened Format

  /**
   * `serializeElement(e, query, depth)`. Script, style and svg elements render
   * empty. A subtree without a match renders as its open tag, a `[...]` line and
   * its close tag (a body without element children has no `[...]` line). A
   * matching text-only element renders inline. Any other matching element renders
   * its light child nodes, then its shadow-root elements, then its frame body, one
   * level deeper, between its open and close tags.
   */
  function Render(e: Element, query: string, depth: nat): string
    decreases e, 2, 0
  {
    if IsSkipped(e) then ""
    else if !HasDescendantWithQuery(e, query) then
      if TagName(e) == "body" && !HasElementChild(e) then OpenTag(e, depth) + "\n" + CloseTag(e, depth)
      else OpenTag(e, depth) + "\n" + Indent(depth) + "  [...]\n" + CloseTag(e, depth)
    else if HasOnlyTextContent(e) then InlineForm(e, depth)
    else
      var content := LightContent(e, query, depth, |e.childNodes|) + ShadowContent(e, query, depth, |ShadowChildren(e)|)
                     + FrameContent(e, query, depth);
      if content != "" then OpenTag(e, depth) + content + "\n" + CloseTag(e, depth)
      else OpenTag(e, depth) + "\n" + CloseTag(e, depth)
  }

  /** Some element child other than child node `i` matches (`hasSiblingWithQuery`). */
  predicate HasSiblingWithQuery(e: Element, query: string, i: int)
  {
    exists j :: 0 <= j < |e.childNodes| && j != i && e.childNodes[j].ElementNode?
                && HasDescendantWithQuery(e.childNodes[j].element, query)
  }

  /** The content produced by the first `k` light child nodes of a matching element. */
  function LightContent(e: Element, query: string, depth: nat, k: nat): string
    requires k <= |e.childNodes|
    decreases e, 1, k
  {
    if k == 0 then "" else LightContent(e, query, depth, k - 1) + LightItem(e, query, depth, k - 1)
  }

  /**
   * The content produced by light child node `i`: a non-blank text node as a
   * trimmed text line; a matching element child rendered one level deeper; a
   * non-matching element child as a `[...]` line when a sibling matches, and as
   * nothing otherwise; script, style, svg and non-text, non-element nodes as nothing.
   */
  function LightItem(e: Element, query: string, depth: nat, i: nat): string
    requires i < |e.childNodes|
    decreases e, 0, 0
  {
    match e.childNodes[i]
    case TextNode(data) =>
      var text := Trim(data);
      if text != "" then TextLine(text, depth) else ""
    case ElementNode(c) =>
      if IsSkipped(c) then ""
      else if HasDescendantWithQuery(c, query) then ChildLines(Render(c, query, depth + 1))
      else if HasSiblingWithQuery(e, query, i) then PlaceholderLine(depth)
      else ""
    case OtherNode => ""
  }

  /** The content produced by the first `k` shadow-root elements: only matching ones, one level deeper. */
  function ShadowContent(e: Element, query: string, depth: nat, k: nat): string
    requires k <= |ShadowChildren(e)|
    decreases e, 1, k
  {
    if k == 0 then "" else ShadowContent(e, query, depth, k - 1) + ShadowItem(e, query, depth, k - 1)
  }

  function ShadowItem(e: Element, query: string, depth: nat, k: nat): string
    requires k < |ShadowChildren(e)|
    decreases e, 0, 0
  {
    var c := ShadowChildren(e)[k];
    if IsSkipped(c) then ""
    else if HasDescendantWithQuery(c, query) then ChildLines(Render(c, query, depth + 1))
    else ""
  }

  /** The readable frame body of an iframe, rendered one level deeper when it matches. */
  function FrameContent(e: Element, query: string, depth: nat): string
    decreases e, 1, 0
  {
    if IsIframe(e) && e.frameBody.Some? && HasDescendantWithQuery(e.frameBody.value, query)
    then ChildLines(Render(e.frameBody.value, query, depth + 1))
    else ""
  }

  /** The sibling loop: scans the element children of `e` for a matching one other than child node `i`. */
  method FindSiblingWithQuery(e: Element, query: string, i: nat) returns (found: bool)
    ensures found == HasSiblingWithQuery(e, query, i)
  {
    found := false;
    var j := 0;
    while j < |e.childNodes|
      invariant 0 <= j <= |e.childNodes|
      invariant !found
      invariant forall l :: 0 <= l < j && l != i && e.childNodes[l].ElementNode?
                            ==> !HasDescendantWithQuery(e.childNodes[l].element, query)
    {
      if j != i && e.childNodes[j].ElementNode? && HasDescendantWithQuery(e.childNodes[j].element, query) {
        found := true;
        break;
      }
      j := j + 1;
    }
  }

  /** `serializeElement`, building the content string with the source's loops. */
  method SerializeElement(e: Element, query: string, depth: nat) returns (s: string)
    ensures s == Render(e, query, depth)
    decreases e, 2
  {
    var tagName := TagName(e);
    if tagName == "script" || tagName == "style" || tagName == "svg" {
      return "";
    }
    var indent := Indent(depth);
    var attributes := SerializeAttributes(e.attributes);
    var openTag := indent + "<" + tagName + attributes + ">";
    var endTag := "</" + tagName + ">";
    var closeTag := indent + endTag;
    assert openTag == OpenTag(e, depth) && endTag == EndTag(e) && closeTag == CloseTag(e, depth);

    var hasQueryContent := HasDescendantWithQuery(e, query);
    if !hasQueryContent {
      if tagName == "body" && !HasElementChild(e) {
        return openTag + "\n" + closeTag;
      }
      return openTag + "\n" + indent + "  [...]\n" + closeTag;
    }

    if HasOnlyTextContent(e) {
      var textContent := Trim(TextContent(e));
      if textContent != "" {
        return openTag + textContent + endTag;
      }
      return openTag + endTag;
    }

    var content := SerializeLightChildren(e, query, depth);
    var shadowContent := SerializeShadowChildren(e, query, depth);
    content := content + shadowContent;

    var frameContent := SerializeFrameBody(e, query, depth);
    content := content + frameContent;

    if content != "" {
      s := openTag + content + "\n" + closeTag;
    } else {
      s := openTag + "\n" + closeTag;
    }
  }

  /** The loop of `serializeElement` over the child nodes of a matching element. */
  method SerializeLightChildren(e: Element, query: string, depth: nat) returns (content: string)
    ensures content == LightContent(e, query, depth, |e.childNodes|)
    decreases e, 1
  {
    content := "";
    for i := 0 to |e.childNodes|
      invariant content == LightContent(e, query, depth, i)
    {
      var piece := SerializeLightChild(e, query, depth, i);
      content := content + piece;
    }
  }

  /** One pass of that loop: what child node `i` adds to the content. */
  method SerializeLightChild(e: Element, query: string, depth: nat, i: nat) returns (piece: string)
    requires i < |e.childNodes|
    ensures piece == LightItem(e, query, depth, i)
    decreases e, 0
  {
    var indent := Indent(depth);
    piece := "";
    match e.childNodes[i] {
      case TextNode(data) =>
        var textContent := Trim(data);
        if textContent != "" {
          piece := "\n" + indent + "  " + textContent;
        }
      case ElementNode(child) =>
        var childTagName := TagName(child);
        if !(childTagName == "script" || childTagName == "style" || childTagName == "svg") {
          var childHasQuery := HasDescendantWithQuery(child, query);
          if childHasQuery {
            var serializedChild := SerializeElement(child, query, depth + 1);
            if serializedChild != "" {
              piece := "\n" + serializedChild;
            }
          } else {
            var hasSiblingWithQuery := FindSiblingWithQuery(e, query, i);
            if hasSiblingWithQuery {
              piece := "\n" + indent + "  [...]";
            }
          }
        }
      case OtherNode =>
    }
  }

  /** The loop of `serializeElement` over the shadow-root elements of a matching element. */
  method SerializeShadowChildren(e: Element, query: string, depth: nat) returns (content: string)
    ensures content == ShadowContent(e, query, depth, |ShadowChildren(e)|)
    decreases e, 1
  {
    var shadowChildren := ShadowChildren(e);
    content := "";
    for k := 0 to |shadowChildren|
      invariant content == ShadowContent(e, query, depth, k)
    {
      var child := shadowChildren[k];
      var childTagName := TagName(child);
      if !(childTagName == "script" || childTagName == "style" || childTagName == "svg") {
        var childHasQuery := HasDescendantWithQuery(child, query);
        if childHasQuery {
          var serializedChild := SerializeElement(child, query, depth + 1);
          if serializedChild != "" {
            content := content + ("\n" + serializedChild);
          }
        }
      }
    }
  }

  /** The frame step of `serializeElement`: the readable body of an iframe, when it matches. */
  method SerializeFrameBody(e: Element, query: string, depth: nat) returns (content: string)
    ensures content == FrameContent(e, query, depth)
    decreases e, 1
  {
    content := "";
    if TagName(e) == "iframe" && e.frameBody.Some? {
      var iframeHasQuery := HasDescendantWithQuery(e.frameBody.value, query);
      if iframeHasQuery {
        var serializedIframe := SerializeElement(e.frameBody.value, query, depth + 1);
        if serializedIframe != "" {
          content := "\n" + serializedIframe;
        }
      }
    }
  }

  /** `searchHTML`: the pruned rendering of the document body, or `""` when there is no body. */
  method SearchHtml(body: Option<Element>, query: string) returns (s: string)
    ensures body.None? ==> s == ""
    ensures body.Some? ==> s == Render(body.value, query, 0)
  {
    if body.None? {
      return "";
    }
    s := SerializeElement(body.value, query, 0);
  }
}
