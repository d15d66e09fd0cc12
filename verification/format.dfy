/**
 * The formatting shared by both serialisation modes: attribute lists, opening
 * and closing tags, indented text lines and the one-line form of text leaves.
 */
module Format {
  import opened Text
  import opened Dom

  /** ` name="value"`, the value inserted verbatim (nothing is escaped). */
  function AttributeText(a: Attr): string
  {
    " " + a.name + "=\"" + a.value + "\""
  }

  /** The attributes rendered one after another, in the element's attribute order. */
  function AttributesText(attrs: seq<Attr>): string
  {
    if attrs == [] then "" else AttributesText(attrs[..|attrs| - 1]) + AttributeText(attrs[|attrs| - 1])
  }

  /** Rendering a list of attributes is rendering its parts one after the other. */
  lemma {:induction false} AttributesTextAppend(a: seq<Attr>, b: seq<Attr>)
    ensures AttributesText(a + b) == AttributesText(a) + AttributesText(b)
    decreases |b|
  {
    if b == [] {
      assert a + b == a;
    } else {
      var b', last := b[..|b| - 1], b[|b| - 1];
      assert (a + b)[..|a + b| - 1] == a + b';
      assert (a + b)[|a + b| - 1] == last;
      AttributesTextAppend(a, b');
      calc {
        AttributesText(a + b);
        AttributesText(a + b') + AttributeText(last);
        (AttributesText(a) + AttributesText(b')) + AttributeText(last);
        AttributesText(a) + (AttributesText(b') + AttributeText(last));
        AttributesText(a) + AttributesText(b);
      }
    }
  }

  /** The attribute loop of both serialisers: `attributes += ...` for each attribute. */
  method SerializeAttributes(attrs: seq<Attr>) returns (s: string)
    ensures s == AttributesText(attrs)
  {
    s := "";
    for i := 0 to |attrs|
      invariant s == AttributesText(attrs[..i])
    {
      assert attrs[..i + 1][..i] == attrs[..i];
      s := s + AttributeText(attrs[i]);
    }
    assert attrs[..|attrs|] == attrs;
  }

  /** `<tag attrs>` at `depth`, with the lower-cased tag name. */
  function OpenTag(e: Element, depth: nat): string
  {
    Indent(depth) + "<" + TagName(e) + AttributesText(e.attributes) + ">"
  }

  /** `</tag>` with no indentation. */
  function EndTag(e: Element): string
  {
    "</" + TagName(e) + ">"
  }

  /** `</tag>` on its own line at `depth`. */
  function CloseTag(e: Element, depth: nat): string
  {
    Indent(depth) + EndTag(e)
  }

  /** A text line one level below `depth`: a line break, the indentation, then the text. */
  function TextLine(text: string, depth: nat): string
  {
    "\n" + Indent(depth) + "  " + text
  }

  /** The `[...]` line one level below `depth`, standing for elided content. */
  function PlaceholderLine(depth: nat): string
  {
    "\n" + Indent(depth) + "  [...]"
  }

  /** A rendered child appended to the content on its own line, or nothing when it rendered empty. */
  function ChildLines(rendered: string): string
  {
    if rendered != "" then "\n" + rendered else ""
  }

  /** The one-line form of an element whose child nodes are all text: `<tag attrs>text</tag>`. */
  function InlineForm(e: Element, depth: nat): string
  {
    var text := Trim(TextContent(e));
    if text != "" then OpenTag(e, depth) + text + EndTag(e) else OpenTag(e, depth) + EndTag(e)
  }

  /** Whatever the trimmed text, the inline form is the open tag, the trimmed text and the end tag. */
  lemma InlineFormShape(e: Element, depth: nat)
    ensures InlineForm(e, depth) == OpenTag(e, depth) + Trim(TextContent(e)) + EndTag(e)
  {
  }
}
