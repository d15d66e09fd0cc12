# DOM search and serialise engine, modelled in Dafny

This project models the search-and-serialise engine of a browser-automation
tool server (`src/tools/dom.ts`). The engine runs inside the page. It walks the
live document tree and answers two kinds of request:

- **search** (`searchHTML`): render the document body as indented
  pseudo-HTML, keeping only the branches whose text or attributes contain a
  query. Matching ignores case. A branch without a match shrinks to its tags
  around a `[...]` line. A non-matching child of a matching element becomes a
  `[...]` line only when one of its siblings matches.
- **print** (`printElement`): render, in the same format and without
  pruning, the element a CSS selector picks out. Fail with
  `Element not found: <selector>` when the selector finds nothing.

The matcher searches an element's own text content and attribute values,
then its shadow-root elements, then the body of a readable iframe, then its
light element children. It skips `script`, `style` and `svg` children.

Layout of the model:

| file | module | contents |
|---|---|---|
| `wrappers.dfy` | `Wrappers` | `Option`, `Result` |
| `text.dfy` | `Text` | ASCII lower-casing, substring containment, `trim`, indentation |
| `dom.dfy` | `Dom` | the document tree (`Element`, `Node`, `ShadowRoot`), `textContent` |
| `matcher.dfy` | `Matcher` | `elementContainsQuery`, `hasDescendantWithQuery`, and a reference definition by search scope |
| `format.dfy` | `Format` | attribute list, open/close tags, text and `[...]` lines, inline form |
| `search.dfy` | `Search` | pruning serialiser: spec functions plus the loop-based methods proved equal to them; `searchHTML` |
| `print.dfy` | `Print` | full serialiser, the same way; `printElement` |
| `layout.dfy` | `Layout` | line-indentation and character-content predicates with their joining lemmas |
| `search_props.dfy` | `SearchProps` | properties of the pruning serialiser |
| `print_props.dfy` | `PrintProps` | properties of the full serialiser and how it differs from pruning |

Each serialiser is written twice:

- as a function (`Search.Render`, `Print.RenderFull`) that folds over the
  child nodes exactly as the source's `content +=` loops do;
- as recursive methods with `for` loops and early exits that follow the
  source statement by statement.

Every method is proved to return what its function computes. All properties
are then proved about the functions.

Three behaviours of the code differ from what its comments and tests lead one
to expect. The model follows the code:

- **Script text still matches its parent.** The comments beside the skip
  checks and the unit and integration tests expect the content of a `script`
  to be skipped, and the serialisers do not show it. But the matcher's own
  text test reads the parent's `textContent`, which includes the script's
  text, so the parent still matches by itself.
  `Matcher.ChildTextMatchesParent` proves this for script, style and svg
  children alike.
- **The sibling check counts skipped elements.** It scans all of
  `element.children`, so a matching `script` sibling is enough to make a
  non-matching child show as `[...]` (see `SearchProps.PlaceholderIffMatchingSibling`).
- **An iframe's frame body is never shown.** The matcher searches the body of
  a readable iframe. But an iframe's parsed child nodes are text at most, and
  it hosts no shadow root, so both serialisers take the one-line text-only
  form before they reach the frame step. A match inside the frame makes the
  iframe match, yet search renders it as its bare tags
  (`<iframe ...></iframe>` when it has no child nodes) and the match is hidden
  (see `PrintProps.FrameBodyNeverShown`).

## Model

| member | source | states |
|---|---|---|
| Text.TrimSpec | src/tools/dom.ts:135-136 | `trim` yields the empty string exactly when the input is all white space. Otherwise the result starts and ends with a non-white-space character, is a slice of the input, and only white space is cut on either side. |
| Text.IndentIsSpaces | src/tools/dom.ts:85 | `"  ".repeat(depth)` is `2 * depth` characters, all spaces. |
| Dom.ChildTextInText | src/tools/dom.ts:8-9 | The text content of every element child, skipped tags included, occurs inside the text of the child nodes that contain it, so it occurs inside the parent's `textContent`. |
| Matcher.MatchIffScopeMatches | src/tools/dom.ts:24-71 | `hasDescendantWithQuery` holds exactly when some element of the search scope matches by itself. The scope is the element, everything reachable through shadow-root elements, a readable iframe body, and light element children other than script/style/svg. |
| Matcher.MatchWitness | src/tools/dom.ts:24-71 | When the matcher succeeds, it returns a witness: an element of the search scope whose own text or attributes contain the query. |
| Matcher.ScopeMatchFound | src/tools/dom.ts:24-71 | Any self-matching element of the search scope makes the matcher succeed. |
| Matcher.ShadowScopeIncludes | src/tools/dom.ts:30-37 | Everything visible from one shadow-root element is in the shadow part of the scope. |
| Matcher.ShadowScopeSource | src/tools/dom.ts:30-37 | Every member of the shadow part of the scope comes from some shadow-root element. |
| Matcher.LightScopeIncludes | src/tools/dom.ts:55-68 | Everything visible from a searched light child is in the light part of the scope. |
| Matcher.LightScopeSource | src/tools/dom.ts:55-68 | Every member of the light part of the scope comes from a light child that is not script/style/svg. |
| Matcher.MatchIgnoresCase | src/tools/dom.ts:5-22 | Two queries with the same lower-casing give the same match result on every subtree. |
| Matcher.ChildTextMatchesParent | src/tools/dom.ts:7-12 | An element child whose non-empty text contains the query (script, style and svg included) makes its parent match by itself. |
| Format.AttributesTextAppend | src/tools/dom.ts:88-91 | The attribute list renders as the concatenation of its parts, in attribute order. |
| Format.SerializeAttributes | src/tools/dom.ts:88-91 | The `attributes +=` loop yields ` name="value"` per attribute, in element order, values unescaped. |
| Search.FindSiblingWithQuery | src/tools/dom.ts:164-174 | The early-exit sibling loop returns true exactly when some element child other than the given one matches. |
| Search.SerializeElement | src/tools/dom.ts:73-243 | `serializeElement` returns exactly `Render(e, query, depth)`. |
| Search.SerializeLightChildren | src/tools/dom.ts:132-182 | The child-node loop builds exactly the light content. |
| Search.SerializeLightChild | src/tools/dom.ts:133-181 | One pass of that loop appends exactly that child node's item: text line, child rendering, `[...]` line, or nothing. |
| Search.SerializeShadowChildren | src/tools/dom.ts:184-209 | The shadow-root loop builds exactly the shadow content. |
| Search.SerializeFrameBody | src/tools/dom.ts:211-234 | The iframe step appends exactly the frame content. |
| Search.SearchHtml | src/tools/dom.ts:245-251 | `searchHTML` returns `""` when there is no body, and otherwise the pruned rendering of the body at depth 0. |
| Print.SerializeFullElement | src/tools/dom.ts:260-352 | `serializeFullElement` returns exactly `RenderFull(e, depth)`. |
| Print.SerializeFullLightChildren | src/tools/dom.ts:297-311 | The child-node loop builds exactly the full light content. |
| Print.SerializeFullLightChild | src/tools/dom.ts:298-310 | One pass of that loop appends exactly that child node's item. |
| Print.SerializeFullShadowChildren | src/tools/dom.ts:313-325 | The shadow-root loop builds exactly the full shadow content. |
| Print.SerializeFullShadowChild | src/tools/dom.ts:316-324 | One pass of that loop appends exactly that shadow-root element's rendering on a new line. |
| Print.SerializeFullFrameBody | src/tools/dom.ts:327-343 | The iframe step appends exactly the full frame content. |
| Print.PrintElement | src/tools/dom.ts:354-359 | `printElement` fails with `Element not found: <selector>` when the lookup finds nothing, and otherwise returns the full rendering at depth 0. |
| SearchProps.RenderIgnoresCase | src/tools/dom.ts:96 | Queries that lower-case alike produce identical search output. |
| SearchProps.LightContentIgnoresCase | src/tools/dom.ts:133-182 | The same holds for the light content, including the sibling decision for `[...]` lines. |
| SearchProps.ShadowContentIgnoresCase | src/tools/dom.ts:184-209 | The same holds for the shadow content. |
| SearchProps.FrameContentIgnoresCase | src/tools/dom.ts:211-234 | The same holds for the frame content. |
| SearchProps.RenderEmptyIffSkipped | src/tools/dom.ts:80-83 | The output is empty exactly for script, style and svg elements. Every other element's output starts with its open tag and ends with its end tag. |
| SearchProps.PrunedSubtree | src/tools/dom.ts:98-104 | A non-matching element renders as its open tag, one `[...]` line one level deeper, and its close tag. A `body` without element children has no `[...]` line. |
| SearchProps.PrunedOutputIgnoresDescendants | src/tools/dom.ts:98-104 | Two non-matching subtrees with the same tag, attributes and element-child presence render identically, whatever lies below them. |
| SearchProps.PlaceholderIffMatchingSibling | src/tools/dom.ts:139-180 | An element child contributes a `[...]` line iff it is searched, does not match, and some sibling (skipped tags included) matches. It contributes nothing iff it is skipped, or neither it nor a sibling matches. A matching child contributes its rendering one level deeper. |
| SearchProps.ShadowKeepsOnlyMatching | src/tools/dom.ts:184-209 | A shadow-root element contributes iff it is searched and matches, and then it contributes its rendering one level deeper. Other shadow-root elements leave no `[...]`. |
| SearchProps.RenderIndented | src/tools/dom.ts:85-103 | For a document with no line breaks in tag names, attributes or trimmed texts, every line of a rendering at depth d starts with at least 2·d spaces. |
| SearchProps.LightContentPrefix | src/tools/dom.ts:133-182 | The content loop only appends: the content after k1 child nodes is a prefix of the content after k2 ≥ k1. |
| SearchProps.LightItemOccurs | src/tools/dom.ts:133-182 | Each child node's contribution occurs in the final content right after the contributions of the nodes before it. |
| SearchProps.ChildrenInDocumentOrder | src/tools/dom.ts:133-182 | For child nodes i < j, i's contribution ends before j's begins. |
| PrintProps.RenderFullShape | src/tools/dom.ts:260-352 | Full mode renders every element, script/style/svg included, non-empty: open tag first, end tag last. |
| PrintProps.FullKeepsEveryChild | src/tools/dom.ts:298-311 | Every element child contributes its full rendering one level deeper. A text node contributes iff its trimmed text is non-empty. Other nodes contribute nothing. |
| PrintProps.FullKeepsEveryShadowChild | src/tools/dom.ts:313-325 | Every shadow-root element contributes its full rendering one level deeper. |
| PrintProps.InlineLeaf | src/tools/dom.ts:287-295 | A text-only element without a shadow root renders on one line: open tag, trimmed `textContent`, end tag. When it matches, pruning mode renders it identically. |
| PrintProps.FrameBodyNeverShown | src/tools/dom.ts:122-130 | An iframe with text-only light content whose readable frame body matches makes the matcher succeed (lines 39-53), yet both modes render it in the one-line inline form without its frame body (lines 287-295), so the frame step (lines 211-234 and 327-343) is never reached. With no child nodes the output is just the open tag and the end tag. |
| PrintProps.RenderFullAvoids | src/tools/dom.ts:260-352 | Full mode emits only the document's own strings and the markup characters (space, line break, `<`, `>`, `/`, `=`, `"`). |
| PrintProps.FullModeHasNoPlaceholder | src/tools/dom.ts:298-325 | Full mode never emits `[...]` of its own: for a document without `[`, none appears. |
| PrintProps.RenderFullIndented | src/tools/dom.ts:262-351 | For a document with no line breaks in tag names, attributes or trimmed texts, every line of a full rendering at depth d starts with at least 2·d spaces. |
| PrintProps.FullLightContentPrefix | src/tools/dom.ts:298-311 | The full content loop only appends. |
| PrintProps.FullLightItemOccurs | src/tools/dom.ts:298-311 | Each child node's full rendering occurs in the content right after those of the nodes before it. |
| PrintProps.FullChildrenInDocumentOrder | src/tools/dom.ts:298-311 | For child nodes i < j, i's rendering ends before j's begins. |
| PrintProps.EmptyContentForms | src/tools/dom.ts:347-351 | Take a matching element that is not text-only but produced no content. Pruning mode renders it as open tag, line break, close tag (lines 238-242). Full mode renders it as open tag directly followed by end tag. |

## Left out

- The host bridge (`page.evaluate`) and Puppeteer are left out. The engine's
  code runs in the page; the model takes its inputs as values.
- `document.body` is a parameter of `Search.SearchHtml` (an `Option`).
- `document.querySelector` is a function parameter of `Print.PrintElement`.
  CSS selector resolution is not part of this model. An invalid selector makes
  `querySelector` throw a `SyntaxError`, which `printElement` passes on to its
  caller; the `string -> Option<Element>` lookup cannot express that failure.
- The failure of `printElement` is a `Result` error rather than a thrown
  exception.
- A cross-origin iframe, an iframe without a document and a document without a
  body are all `frameBody == None`; the guarded access that swallows the
  cross-origin exception is not modelled separately.
- `toLowerCase` maps only the ASCII letters A-Z. Unicode case mapping is left out.
- `trim` strips the ECMAScript white-space and line-terminator code points.
  UTF-16 surrogate pairs are not modelled; a string is a sequence of characters.
- The sibling check compares element identity (`sibling !== childElement`). The
  model compares positions among the child nodes, which is the same for a tree.
- SearchProps.RenderIndented and PrintProps.RenderFullIndented assume that
  tag names, attribute names and values, trimmed text nodes and inline text
  carry no line break. The engine escapes nothing, so a line break inside text
  breaks the indentation of the output.
- PrintProps.FullModeHasNoPlaceholder is stated for documents without `[`,
  because the engine copies text verbatim and a document may contain `[...]`
  itself.
- The tool-call dispatch, the browser lifecycle, the console-log and
  screenshot stores, the consent-rule test harness (`src/tools/test-rule.ts`)
  and the browser reset (`src/tools/browser-reset.ts`) are I/O and foreign
  calls. They are not part of this model.
