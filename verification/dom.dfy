/**
 * A read-only view of the live document tree the engine walks. The host owns
 * and mutates the tree; the engine only reads it during one call.
 */
module Dom {
  import opened Text
  import opened Wrappers

  /** One `name="value"` attribute, in the element's own attribute order. */
  datatype Attr = Attr(name: string, value: string)

  /**
   * An element. `tagName` is kept as the host reports it (the engine lower-cases
   * it itself). `shadowRoot` is present when an open shadow root is attached; a
   * closed one reads as `None`, as `element.shadowRoot` does. `frameBody` is the
   * body of the embedded document when that document exists, has a body and is readable from this
   * origin, and `None` otherwise (no document, no body, or the cross-origin
   * access failed). The engine only looks at `frameBody` of an `iframe`.
   */
  datatype Element = Element(
    tagName: string,
    attributes: seq<Attr>,
    childNodes: seq<Node>,
    shadowRoot: Option<ShadowRoot>,
    frameBody: Option<Element>)

  /** An attached open shadow root, seen through its element children (`shadowRoot.children`). */
  datatype ShadowRoot = ShadowRoot(children: seq<Element>)

  /** A child node: text, an element, or anything else (comments and the like). */
  datatype Node = TextNode(data: string) | ElementNode(element: Element) | OtherNode

  /** `element.tagName.toLowerCase()`. */
  function TagName(e: Element): string
  {
    Lower(e.tagName)
  }

  /** The element children of the attached shadow root, or none when there is no shadow root. */
  function ShadowChildren(e: Element): seq<Element>
  {
    if e.shadowRoot.Some? then e.shadowRoot.value.children else []
  }

  /** The three tags the engine never descends into when pruning. */
  predicate IsSkippedTag(tag: string)
  {
    tag == "script" || tag == "style" || tag == "svg"
  }

  predicate IsSkipped(e: Element)
  {
    IsSkippedTag(TagName(e))
  }

  predicate IsIframe(e: Element)
  {
    TagName(e) == "iframe"
  }

  /** Child node `i` is an element the pruning search descends into (not script, style or svg). */
  predicate IsSearchedChild(e: Element, i: int)
  {
    0 <= i < |e.childNodes| && e.childNodes[i].ElementNode? && !IsSkipped(e.childNodes[i].element)
  }

  /** Some child node is an element (`element.children.length > 0`). */
  predicate HasElementChild(e: Element)
  {
    exists i :: 0 <= i < |e.childNodes| && e.childNodes[i].ElementNode?
  }

  /** No shadow root, no element child, and every child node is text (vacuously so for none). */
  predicate HasOnlyTextContent(e: Element)
  {
    e.shadowRoot.None? && !HasElementChild(e)
    && forall i :: 0 <= i < |e.childNodes| ==> e.childNodes[i].TextNode?
  }

  /**
   * `element.textContent`: the text of every text node in the light subtree, in
   * document order. Text under script, style and svg elements is included;
   * shadow-root and frame content is not.
   */
  function TextContent(e: Element): string
    decreases e, 1, 0
  {
    TextOfChildren(e, |e.childNodes|)
  }

  /** The text contributed by the first `k` child nodes of `e`. */
  function TextOfChildren(e: Element, k: nat): string
    requires k <= |e.childNodes|
    decreases e, 0, k
  {
    if k == 0 then ""
    else
      TextOfChildren(e, k - 1) +
      match e.childNodes[k - 1]
      case TextNode(data) => data
      case ElementNode(c) => TextContent(c)
      case OtherNode => ""
  }

  /** The text content of each element child is part of the text of the child nodes that include it. */
  lemma {:induction false} ChildTextInText(e: Element, k: nat, i: nat)
    requires i < k <= |e.childNodes| && e.childNodes[i].ElementNode?
    ensures Contains(TextOfChildren(e, k), TextContent(e.childNodes[i].element))
  {
    var t := TextContent(e.childNodes[i].element);
    var last := match e.childNodes[k - 1]
                case TextNode(data) => data
                case ElementNode(c) => TextContent(c)
                case OtherNode => "";
    assert TextOfChildren(e, k) == TextOfChildren(e, k - 1) + last;
    if i == k - 1 {
      assert OccursAt(t, t, 0);
      ContainsInConcat(TextOfChildren(e, k - 1), t, "", t);
    } else {
      ChildTextInText(e, k - 1, i);
      ContainsInConcat("", TextOfChildren(e, k - 1), last, t);
    }
  }
}
