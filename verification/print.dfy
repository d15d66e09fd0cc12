/**
 * Full-mode serialisation (`printElement`): render every reachable node of the
 * subtree rooted at the element a selector picks out, with no pruning.
 */
module Print {
  import opened Text
  import opened Wrappers
  import opened Dom
  import opened Format

  /**
   * `serializeFullElement(e, depth)`. A text-only element renders inline. Any
   * other element renders its light child nodes (non-blank text as trimmed text
   * lines, every element child, script, style and svg included), then its
   * shadow-root elements, then its readable frame body, one level deeper,
   * between its open and close tags; when none of them produced anything the
   * end tag follows the open tag on the same line.
   */
  function RenderFull(e: Element, depth: nat): string
    decreases e, 2, 0
  {
    if HasOnlyTextContent(e) then InlineForm(e, depth)
    else
      var content := FullLightContent(e, depth, |e.childNodes|) + FullShadowContent(e, depth, |ShadowChildren(e)|)
                     + FullFrameContent(e, depth);
      if content != "" then OpenTag(e, depth) + content + "\n" + CloseTag(e, depth)
      else OpenTag(e, depth) + EndTag(e)
  }

  /** The content produced by the first `k` light child nodes. */
  function FullLightContent(e: Element, depth: nat, k: nat): string
    requires k <= |e.childNodes|
    decreases e, 1, k
  {
    if k == 0 then "" else FullLightContent(e, depth, k - 1) + FullLightItem(e, depth, k - 1)
  }

  /** Child node `i`: a non-blank text node as a trimmed text line, an element rendered one level deeper. */
  function FullLightItem(e: Element, depth: nat, i: nat): string
    requires i < |e.childNodes|
    decreases e, 0, 0
  {
    match e.childNodes[i]
    case TextNode(data) =>
      var text := Trim(data);
      if text != "" then TextLine(text, depth) else ""
    case ElementNode(c) => ChildLines(RenderFull(c, depth + 1))
    case OtherNode => ""
  }

  /** The content produced by the first `k` shadow-root elements, each rendered one level deeper. */
  function FullShadowContent(e: Element, depth: nat, k: nat): string
    requires k <= |ShadowChildren(e)|
    decreases e, 1, k
  {
    if k == 0 then "" else FullShadowContent(e, depth, k - 1) + FullShadowItem(e, depth, k - 1)
  }

  function FullShadowItem(e: Element, depth: nat, k: nat): string
    requires k < |ShadowChildren(e)|
    decreases e, 0, 0
  {
    ChildLines(RenderFull(ShadowChildren(e)[k], depth + 1))
  }

  /** The readable frame body of an iframe, rendered one level deeper. */
  function FullFrameContent(e: Element, depth: nat): string
    decreases e, 1, 0
  {
    if IsIframe(e) && e.frameBody.Some? then ChildLines(RenderFull(e.frameBody.value, depth + 1)) else ""
  }

  /** `serializeFullElement`, building the content string with the source's loops. */
  method SerializeFullElement(e: Element, depth: nat) returns (s: string)
    ensures s == RenderFull(e, depth)
    decreases e, 2
  {
    var tagName := TagName(e);
    var indent := Indent(depth);
    var attributes := SerializeAttributes(e.attributes);
    var openTag := indent + "<" + tagName + attributes + ">";
    var endTag := "</" + tagName + ">";
    var closeTag := indent + endTag;
    assert openTag == OpenTag(e, depth) && endTag == EndTag(e) && closeTag == CloseTag(e, depth);

    if HasOnlyTextContent(e) {
      var textContent := Trim(TextContent(e));
      if textContent != "" {
        return openTag + textContent + endTag;
      }
      return openTag + endTag;
    }

    var content := SerializeFullLightChildren(e, depth);
    var shadowContent := SerializeFullShadowChildren(e, depth);
    content := content + shadowContent;
    var frameContent := SerializeFullFrameBody(e, depth);
    content := content + frameContent;

    assert RenderFull(e, depth) == if content != "" then OpenTag(e, depth) + content + "\n" + CloseTag(e, depth)
                                   else OpenTag(e, depth) + EndTag(e);
    if content != "" {
      s := openTag + content + "\n" + closeTag;
    } else {
      s := openTag + endTag;
    }
  }

  /** The loop of `serializeFullElement` over the child nodes. */
  method SerializeFullLightChildren(e: Element, depth: nat) returns (content: string)
    ensures content == FullLightContent(e, depth, |e.childNodes|)
    decreases e, 1
  {
    content := "";
    for i := 0 to |e.childNodes|
      invariant content == FullLightContent(e, depth, i)
    {
      var piece := SerializeFullLightChild(e, depth, i);
      content := content + piece;
    }
  }

  /** One pass of that loop: what child node `i` adds to the content. */
  method SerializeFullLightChild(e: Element, depth: nat, i: nat) returns (piece: string)
    requires i < |e.childNodes|
    ensures piece == FullLightItem(e, depth, i)
    decreases e, 0
  {
    var indent := Indent(depth);
    piece := "";
    match e.childNodes[i] {
      case TextNode(data) =>
        var textContent := Trim(data);
        if textContent != "" {
          piece := "\n" + indent + "  " + textContent;
        }
      case ElementNode(child) =>
        var serializedChild := SerializeFullElement(child, depth + 1);
        if serializedChild != "" {
          piece := "\n" + serializedChild;
        }
      case OtherNode =>
    }
  }

  /** The loop of `serializeFullElement` over the shadow-root elements. */
  method SerializeFullShadowChildren(e: Element, depth: nat) returns (content: string)
    ensures content == FullShadowContent(e, depth, |ShadowChildren(e)|)
    decreases e, 1
  {
    content := "";
    for k := 0 to |ShadowChildren(e)|
      invariant content == FullShadowContent(e, depth, k)
    {
      var piece := SerializeFullShadowChild(e, depth, k);
      content := content + piece;
    }
  }

  /** One pass of that loop: what shadow-root element `k` adds to the content. */
  method SerializeFullShadowChild(e: Element, depth: nat, k: nat) returns (piece: string)
    requires k < |ShadowChildren(e)|
    ensures piece == FullShadowItem(e, depth, k)
    decreases e, 0
  {
    piece := "";
    var serializedChild := SerializeFullElement(ShadowChildren(e)[k], depth + 1);
    if serializedChild != "" {
      piece := "\n" + serializedChild;
    }
  }

  /** The frame step of `serializeFullElement`: the readable body of an iframe. */
  method SerializeFullFrameBody(e: Element, depth: nat) returns (content: string)
    ensures content == FullFrameContent(e, depth)
    decreases e, 1
  {
    content := "";
    if TagName(e) == "iframe" && e.frameBody.Some? {
      var serializedIframe := SerializeFullElement(e.frameBody.value, depth + 1);
      if serializedIframe != "" {
        content := "\n" + serializedIframe;
      }
    }
  }

  /** The message `printElement` fails with when the selector matches nothing. */
  function NotFoundMessage(selector: string): string
  {
    "Element not found: " + selector
  }

  /**
   * `printElement`: resolve the selector (`querySelector` stands for the
   * document's selector lookup) and render the element it finds in full, or
   * fail with the not-found message carrying the selector.
   */
  method PrintElement(querySelector: string -> Option<Element>, selector: string) returns (r: Result<string>)
    ensures querySelector(selector).None? ==> r == Err(NotFoundMessage(selector))
    ensures querySelector(selector).Some? ==> r == Ok(RenderFull(querySelector(selector).value, 0))
  {
    var element := querySelector(selector);
    if element.None? {
      return Err(NotFoundMessage(selector));
    }
    var s := SerializeFullElement(element.value, 0);
    r := Ok(s);
  }
}
