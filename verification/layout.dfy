/**
 * Line layout of the serialisers' output: every line of an element rendered at
 * `depth` starts with at least two spaces per level. The engine escapes
 * nothing, so this holds only for documents whose tag names, attributes and
 * trimmed texts carry no line break of their own; `Avoids` states that.
 */
module Layout {
  import opened Text
  import opened Dom
  import opened Format

  /** The `2 * depth` characters of `s` from index `j` on exist and are all spaces. */
  predicate IndentedAt(s: string, j: nat, depth: nat)
  {
    j + 2 * depth <= |s| && forall k :: j <= k < j + 2 * depth ==> s[k] == ' '
  }

  /** Every line break in `s` is followed by at least `2 * depth` spaces. */
  predicate BreaksIndented(s: string, depth: nat)
  {
    forall i :: 0 <= i < |s| && s[i] == '\n' ==> IndentedAt(s, i + 1, depth)
  }

  /** Every line of `s`, the first included, starts with at least `2 * depth` spaces. */
  predicate LinesIndented(s: string, depth: nat)
  {
    IndentedAt(s, 0, depth) && BreaksIndented(s, depth)
  }

  /**
   * Character `ch` occurs nowhere in the tree's text that the serialisers copy:
   * not in a lower-cased tag name, an attribute name or value, a trimmed text
   * node, or the trimmed text of a text-only element; and likewise throughout its
   * light element children, its shadow-root elements and an iframe's frame body.
   */
  predicate Avoids(e: Element, ch: char)
    decreases e
  {
    ch !in TagName(e)
    && (forall a :: a in e.attributes ==> ch !in a.name && ch !in a.value)
    && (HasOnlyTextContent(e) ==> ch !in Trim(TextContent(e)))
    && (forall i :: 0 <= i < |e.childNodes| && e.childNodes[i].TextNode? ==> ch !in Trim(e.childNodes[i].data))
    && (forall i :: 0 <= i < |e.childNodes| && e.childNodes[i].ElementNode? ==> Avoids(e.childNodes[i].element, ch))
    && (forall k :: 0 <= k < |ShadowChildren(e)| ==> Avoids(ShadowChildren(e)[k], ch))
    && (IsIframe(e) && e.frameBody.Some? ==> Avoids(e.frameBody.value, ch))
  }

  // ---------------------------------------------------------------------------
  // Joining indented pieces

  lemma IndentedAtPrefix(a: string, b: string, depth: nat)
    requires IndentedAt(a, 0, depth)
    ensures IndentedAt(a + b, 0, depth)
  {
  }

  /** Line breaks indented in each piece stay indented once the pieces are joined. */
  lemma BreaksIndentedConcat(a: string, b: string, depth: nat)
    requires BreaksIndented(a, depth) && BreaksIndented(b, depth)
    ensures BreaksIndented(a + b, depth)
  {
    var s := a + b;
    forall i | 0 <= i < |s| && s[i] == '\n'
      ensures IndentedAt(s, i + 1, depth)
    {
      if i < |a| {
        assert a[i] == '\n' && IndentedAt(a, i + 1, depth);
        forall k | i + 1 <= k < i + 1 + 2 * depth ensures s[k] == ' ' {
          assert s[k] == a[k];
        }
      } else {
        assert b[i - |a|] == '\n' && IndentedAt(b, i - |a| + 1, depth);
        forall k | i + 1 <= k < i + 1 + 2 * depth ensures s[k] == ' ' {
          assert s[k] == b[k - |a|];
        }
      }
    }
  }

  /** A piece, a line break, then an indented piece: `a + "\n" + b`. */
  lemma BreaksIndentedJoin(a: string, b: string, depth: nat)
    requires BreaksIndented(a, depth) && LinesIndented(b, depth)
    ensures BreaksIndented(a + "\n" + b, depth)
  {
    BreaksIndentedNewline(b, depth);
    BreaksIndentedConcat(a, "\n" + b, depth);
    assert a + "\n" + b == a + ("\n" + b);
  }

  /** A line break followed by an indented piece. */
  lemma BreaksIndentedNewline(b: string, depth: nat)
    requires LinesIndented(b, depth)
    ensures BreaksIndented("\n" + b, depth)
  {
    var s := "\n" + b;
    forall i | 0 <= i < |s| && s[i] == '\n'
      ensures IndentedAt(s, i + 1, depth)
    {
      if i == 0 {
        forall k | 1 <= k < 1 + 2 * depth ensures s[k] == ' ' {
          assert s[k] == b[k - 1];
        }
      } else {
        assert b[i - 1] == '\n' && IndentedAt(b, i, depth);
        forall k | i + 1 <= k < i + 1 + 2 * depth ensures s[k] == ' ' {
          assert s[k] == b[k - 1];
        }
      }
    }
  }

  /** What is indented `depth + 1` levels is indented `depth` levels. */
  lemma BreaksIndentedShallower(s: string, depth: nat)
    requires BreaksIndented(s, depth + 1)
    ensures BreaksIndented(s, depth)
  {
  }

  /** A string without line breaks needs nothing. */
  lemma NoBreaks(s: string, depth: nat)
    requires '\n' !in s
    ensures BreaksIndented(s, depth)
  {
    forall i | 0 <= i < |s| ensures s[i] != '\n' {
      assert s[i] in s;
    }
  }

  /** The indentation followed by a piece without line breaks is one line indented `depth` levels. */
  lemma IndentedLine(depth: nat, x: string)
    requires '\n' !in x
    ensures LinesIndented(Indent(depth) + x, depth)
  {
    var s := Indent(depth) + x;
    IndentIsSpaces(depth);
    forall k | 0 <= k < 2 * depth ensures s[k] == ' ' {
      assert s[k] == Indent(depth)[k];
    }
    IndentAvoids(depth, '\n');
    NoBreaks(s, depth);
  }

  /** The indentation holds no character but the space. */
  lemma {:induction false} IndentAvoids(depth: nat, ch: char)
    requires ch != ' '
    ensures ch !in Indent(depth)
  {
    if depth > 0 {
      IndentAvoids(depth - 1, ch);
    }
  }

  /** One more level of indentation is two more spaces, whichever side they are added on. */
  lemma {:induction false} IndentDeeper(depth: nat)
    ensures Indent(depth) + "  " == Indent(depth + 1)
  {
    if depth > 0 {
      IndentDeeper(depth - 1);
      assert Indent(depth) + "  " == "  " + (Indent(depth - 1) + "  ");
    }
  }

  // ---------------------------------------------------------------------------
  // The pieces the serialisers emit

  /** The attribute list copies no character foreign to the attributes other than space, `=` and `"`. */
  lemma {:induction false} AttributesTextAvoids(attrs: seq<Attr>, ch: char)
    requires ch != ' ' && ch != '=' && ch != '"'
    requires forall a :: a in attrs ==> ch !in a.name && ch !in a.value
    ensures ch !in AttributesText(attrs)
  {
    if attrs != [] {
      assert attrs[|attrs| - 1] in attrs;
      AttributesTextAvoids(attrs[..|attrs| - 1], ch);
    }
  }

  /** The open tag of an element whose tag name and attributes carry no line break is one indented line. */
  lemma OpenTagLine(e: Element, depth: nat)
    requires Avoids(e, '\n')
    ensures LinesIndented(OpenTag(e, depth), depth)
    ensures '\n' !in OpenTag(e, depth)
  {
    AttributesTextAvoids(e.attributes, '\n');
    var x := "<" + TagName(e) + AttributesText(e.attributes) + ">";
    assert OpenTag(e, depth) == Indent(depth) + x;
    IndentedLine(depth, x);
    IndentAvoids(depth, '\n');
  }

  /** The close tag is one indented line. */
  lemma CloseTagLine(e: Element, depth: nat)
    requires Avoids(e, '\n')
    ensures LinesIndented(CloseTag(e, depth), depth)
    ensures '\n' !in EndTag(e)
  {
    IndentedLine(depth, EndTag(e));
  }

  /** A text line is indented one level deeper than its element. */
  lemma TextLineIndented(text: string, depth: nat)
    requires '\n' !in text
    ensures BreaksIndented(TextLine(text, depth), depth + 1)
  {
    IndentDeeper(depth);
    assert TextLine(text, depth) == "\n" + (Indent(depth + 1) + text);
    IndentedLine(depth + 1, text);
    BreaksIndentedNewline(Indent(depth + 1) + text, depth + 1);
  }

  /** So is the `[...]` line. */
  lemma PlaceholderLineIndented(depth: nat)
    ensures BreaksIndented(PlaceholderLine(depth), depth + 1)
  {
    IndentDeeper(depth);
    assert PlaceholderLine(depth) == "\n" + (Indent(depth + 1) + "[...]");
    IndentedLine(depth + 1, "[...]");
    BreaksIndentedNewline(Indent(depth + 1) + "[...]", depth + 1);
  }

  /** A child rendered one level deeper keeps its indentation once put on a new line. */
  lemma ChildLinesIndented(rendered: string, depth: nat)
    requires rendered != "" ==> LinesIndented(rendered, depth + 1)
    ensures BreaksIndented(ChildLines(rendered), depth + 1)
  {
    if rendered != "" {
      BreaksIndentedNewline(rendered, depth + 1);
    }
  }

  /**
   * An element whose inline text, or whose content indented one level deeper,
   * carries no stray line break renders with every line indented `depth` levels,
   * in either of the serialisers' two block forms and in the inline form.
   */
  lemma BlockIndented(e: Element, depth: nat, content: string)
    requires Avoids(e, '\n')
    requires BreaksIndented(content, depth + 1)
    ensures LinesIndented(OpenTag(e, depth) + content + "\n" + CloseTag(e, depth), depth)
    ensures LinesIndented(OpenTag(e, depth) + "\n" + CloseTag(e, depth), depth)
  {
    var open, close := OpenTag(e, depth), CloseTag(e, depth);
    OpenTagLine(e, depth);
    CloseTagLine(e, depth);
    BreaksIndentedShallower(content, depth);
    BreaksIndentedConcat(open, content, depth);
    BreaksIndentedJoin(open + content, close, depth);
    IndentedAtPrefix(open, content + "\n" + close, depth);
    assert open + content + "\n" + close == open + (content + "\n" + close);
    BreaksIndentedJoin(open, close, depth);
    IndentedAtPrefix(open, "\n" + close, depth);
    assert open + "\n" + close == open + ("\n" + close);
  }

  lemma InlineIndented(e: Element, depth: nat)
    requires Avoids(e, '\n') && HasOnlyTextContent(e)
    ensures LinesIndented(InlineForm(e, depth), depth)
  {
    var open := OpenTag(e, depth);
    OpenTagLine(e, depth);
    CloseTagLine(e, depth);
    InlineFormShape(e, depth);
    var rest := Trim(TextContent(e)) + EndTag(e);
    assert InlineForm(e, depth) == open + rest;
    IndentedAtPrefix(open, rest, depth);
    NoBreaks(open + rest, depth);
  }

  // ---------------------------------------------------------------------------
  // Characters of the output

  /** The characters the serialisers add around the document's own strings. */
  predicate IsMarkup(ch: char)
  {
    ch == ' ' || ch == '\n' || ch == '<' || ch == '>' || ch == '/' || ch == '=' || ch == '"'
  }

  /** A character that is not markup and occurs nowhere in the element's name and attributes is absent from its tags. */
  lemma TagsAvoid(e: Element, depth: nat, ch: char)
    requires Avoids(e, ch) && !IsMarkup(ch)
    ensures ch !in OpenTag(e, depth) && ch !in EndTag(e) && ch !in CloseTag(e, depth)
  {
    IndentAvoids(depth, ch);
    AttributesTextAvoids(e.attributes, ch);
  }

  /** Likewise for a text line and for the inline form. */
  lemma TextLineAvoids(text: string, depth: nat, ch: char)
    requires ch !in text && !IsMarkup(ch)
    ensures ch !in TextLine(text, depth)
  {
    IndentAvoids(depth, ch);
  }

  lemma InlineAvoids(e: Element, depth: nat, ch: char)
    requires Avoids(e, ch) && !IsMarkup(ch) && HasOnlyTextContent(e)
    ensures ch !in InlineForm(e, depth)
  {
    TagsAvoid(e, depth, ch);
  }
}
