# Google Doc to clean HTML, modelled in Dafny

`script.js` is a Google Apps Script that turns a Google Doc into HTML for
the Drupal footnotes module. It walks the document body depth-first.
Headings become `<h1>` … `<h6>` and other paragraphs become `<p>`.
List items are grouped into `<ul>`/`<ol>` lists using a counter per group;
a group is a list id and a nesting level. Text runs are wrapped in style
tags, links and `[…]` references. Footnotes become `<fn>…</fn>` and keep
only italic and bold. Inline images are collected into a registry under the
names `Image_<k><ext>` and referenced as `cid:` URLs. The fragments of the
body are joined with a carriage return.

The project has these modules:

- `Strings` (strings.dfy): the JavaScript string operations the script uses.
  These are `trim` with the ECMAScript whitespace set, `substring` with its
  clamping and swapping, and `indexOf(p) == 0` as a prefix test. It also
  holds decimal printing of a number, with its round trip, and `join`.
- `Document` (document.dfy): the document tree as a datatype. The
  `DocumentApp` accessors the script calls become fields.
- `Render` (render.dfy): what the script computes, as functions of the tree
  and of the traversal state. That state is the `listCounters` dictionary
  and the `images` registry. A thrown exception, or a loop that never ends,
  becomes an `Err`.
- `Renderer` (renderer.dfy): the script's own imperative form.
  - `class Renderer` holds `listCounters` (a `map`) and `images` (a `seq`),
    which its methods update in place.
  - The text and footnote renderers build their output by appending inside
    loops, as the script does.
  - Every method is proved to compute what `Render` defines.
- `Traversal`, `ListGroups`, `InlineText`, `FootnoteBodies`,
  `ImageRegistry` and `Blocks`: what the conversion guarantees, proved
  about those definitions.

Some of the script's quirks are kept as they are and exhibited as lemmas:

- The first item of a bullet group always closes its `<ul>`.
  - The remaining items therefore stand outside any list.
  - The end of the group adds a second `</ul>`.
- Closing style tags come out in the same order as the opening tags.
- `processFootnoteItem` reuses the child loop's index in its breakpoint loop.
  - After a child with `n` breakpoints, the next child looked at is child
    `n + 1`.
  - Children can be skipped.
  - The loop can revisit a child and never end.
- Nothing is HTML-escaped.

## Model

| member | source | states |
|---|---|---|
| Renderer.ConvertGoogleDocToCleanHtml | script.js:9-22 | the body loop with a fresh renderer yields exactly `Convert(body)`: the children's HTML joined by `\r` plus the image registry, or the first child's failure |
| Renderer.Renderer.constructor | script.js:12-14 | a conversion starts with an empty counter dictionary and an empty registry |
| Renderer.Renderer.ProcessItem | script.js:71-170 | renders one node as `RenderItem` prescribes: on success the returned HTML and the new counters and registry are exactly those of the specification; on failure the same error |
| Renderer.Renderer.ProcessWrapped | script.js:148-169 | a container's prefix, each child rendered in order from the state the previous one left, then the suffix; the first failing child's error is returned |
| Renderer.Renderer.CountListItem | script.js:105-146 | the list item's tags are `ListTags` of its glyph, its group's previous counter (missing = 0) and the boundary rule; exactly that group's counter goes up by one and the registry is untouched |
| Renderer.Renderer.ProcessImage | script.js:315-339 | succeeds exactly when the content type is supported; then emits `<img src="cid:NAME" />` with NAME = `Image_` + registry length + extension and appends `{blob, type, name}`; otherwise fails with `UnsupportedImageType` and changes nothing |
| Renderer.ProcessText | script.js:173-244 | the HTML of a text run equals `TextHtml(run)`: uniform runs by the bold/italic/link/plain cases, mixed runs segment by segment |
| Renderer.RenderStyledRuns | script.js:198-242 | the breakpoint loop emits the styled segments of the run in order (`StyledRuns`) |
| Renderer.PushStyledSegment | script.js:199-240 | appending segment `i` with its open tags, body and close tags extends the markup of segments `0..i-1` to that of `0..i` |
| Renderer.CutSegment | script.js:199-202 | segment `i` runs from its breakpoint to the next one, or to the end of the text |
| Renderer.PushOpenTags | script.js:206-214 | appends the opening tags italic, bold, underline for the attributes that are set |
| Renderer.PushSegmentBody | script.js:219-230 | appends `<sup>` for a `[…]` reference, an anchor for an http(s) link, else the text |
| Renderer.PushCloseTags | script.js:232-240 | appends the closing tags in the same order as the opening ones |
| Renderer.ProcessFootnote | script.js:247-257 | a footnote renders as `<fn>`, each paragraph's HTML in order, `</fn>`; the first paragraph's failure aborts it |
| Renderer.ProcessFootnoteItem | script.js:259-313 | equals `FootnoteItemHtml`: non-paragraphs give `""`; the children are walked with the index shared by both loops; a non-text child fails with `NotText`; revisiting a child is `Diverges` |
| Renderer.FootnoteRunLoop | script.js:275-307 | the inner loop appends every footnote segment of a child and leaves the shared index at the number of breakpoints |
| Renderer.PushFootnoteSegment | script.js:276-305 | appending footnote segment `i` extends the markup of segments `0..i-1` to that of `0..i` |
| Renderer.PushFootnoteOpenTags | script.js:283-288 | appends `<i>` then `<strong>` for the attributes that are set; underline is dropped |
| Renderer.PushFootnoteBody | script.js:293-298 | appends `<sup>` for a `[…]` reference, else the text; links are not detected |
| Renderer.PushFootnoteCloseTags | script.js:300-305 | appends `</i>` then `</strong>` in the opening order |
| Renderer.RenderSeqErrorExtends | script.js:160-163 | once a prefix of the siblings fails, the whole sibling sequence fails with that error |
| Renderer.FootnoteItemsErrorExtends | script.js:252-254 | once a prefix of the paragraphs fails, the whole footnote fails with that error |
| Render.RenderItem | script.js:71-170 | processItem as a function of the node and the traversal state: a paragraph is its heading tags around its children, or `""` without children; a list item is `ListTags` around its children with its group's counter bumped first; text is `TextHtml`; an image is `RenderImage`; a footnote is `FootnoteHtml`; anything else is its children bare. The first failure anywhere is the result |
| Render.RenderSeq | script.js:157-163 | the child loop: each child rendered from the state the previous one left, the fragments kept in order, and the first failing child's error returned |
| Render.ListTags | script.js:105-146 | a first item opens `<ul><li>` for a bullet glyph (and gets `</li></ul>` at once) or `<ol><li>` otherwise; later items get `<li>`/`</li>`; the group's close tag is appended when the boundary rule fires |
| Render.TextHtml | script.js:173-244 | a run with at most one breakpoint is wrapped whole by the first of bold, italic (`<blockquote>`), link on the trimmed text, plain; a longer run is its styled segments in order |
| Render.StyledRuns | script.js:196-243 | the markup of the first `n` segments of a run, each its open tags, body and close tags |
| Render.SegmentText | script.js:199-202 | segment `i` is the substring from breakpoint `i` to the next breakpoint, or to the end of the text |
| Render.FootnoteWalk | script.js:265-310 | the child loop of processFootnoteItem from index `j`: a text child appends its footnote segments and the walk resumes at its breakpoint count plus one; a non-text child is `NotText`; an index already in `visited` is `Diverges`, standing for the loop that never ends |
| Render.FootnoteItemHtml | script.js:259-313 | a footnote paragraph is its walk from index 0; any other element is `""` |
| Render.FootnoteHtml | script.js:247-257 | a footnote is `<fn>`, its paragraphs' HTML with nothing between them, `</fn>`; the first failing paragraph's error otherwise |
| Render.RenderImage | script.js:315-339 | a supported image is `<img src="cid:NAME" />` with NAME = `Image_` + registry length + extension, and the registry gains `{blob, type, name}`; an unsupported one is `UnsupportedImageType` |
| Render.Convert | script.js:9-22 | the body's children rendered from empty counters and an empty registry, joined with `\r`, together with the final registry; or the first failure |
| Render.ListKey | script.js:108 | the key of a list group: the list id, a dot, and the nesting level in decimal |
| Render.Counter | script.js:109 | the counter of a group: its entry in the dictionary, or 0 when it has none |
| Render.ClosesGroup | script.js:131 | the boundary rule: the item is at the end of the document, or its next sibling exists and is not a list item |
| Render.SegmentEnd | script.js:201 | a segment ends at the next breakpoint, the last one at the end of the text |
| Render.SegmentBody | script.js:219-230 | a segment's text inside `<sup>` when it is a `[…]` reference (`IsReference`: starts with `[` and ends with `]`), an anchor on itself when its trimmed text starts with `http://` or `https://` (`IsLink`), otherwise unchanged |
| Render.FootnoteRuns | script.js:275-307 | the footnote markup of the first `n` segments of a run: each segment's italic and bold open tags, its text or `<sup>` reference, and its close tags, in order |
| Render.FootnoteItems | script.js:252-254 | the paragraph loop of a footnote: each paragraph's footnote HTML in order, or the first paragraph's failure |
| Strings.Trim | script.js:186 | JavaScript `trim`: the text without leading and trailing ECMAScript whitespace and line terminators |
| Strings.Join | script.js:22 | JavaScript `join`: the parts with the separator between each two of them, `""` for no parts |
| Strings.Concat | script.js:169 | `join('')` as at lines 169, 256 and 312: the parts one after the other, `""` for no parts |
| Strings.ConcatIsJoin | script.js:169 | putting the parts one after the other is `Join` with the empty separator |
| Render.HeadingTags | script.js:76-92 | a paragraph's opening tag starts with `<` and its closing tag is the opening tag with `/` inserted |
| Render.ImageExtension | script.js:320-329 | the extension, when there is one, is `.png`, `.gif` or `.jpg` |
| Render.FootnoteWalkStep | script.js:267-309 | rendering text child `j` appends all its segments, and the child loop resumes at its breakpoint count plus one |
| Strings.TrimStartSpec | script.js:186 | the result is a suffix of the input, the characters removed are whitespace, and it starts with a non-whitespace character when not empty |
| Strings.TrimEndSpec | script.js:186 | the result is a prefix of the input, the characters removed are whitespace, and it ends with a non-whitespace character when not empty |
| Strings.Substring | script.js:202 | JavaScript `substring`: the slice between the bounds in either order, clamped to the string |
| Strings.Decimal | script.js:108 | a number prints as a non-empty string of digits |
| Strings.DecimalRoundTrip | script.js:108 | reading back the printed digits gives the number |
| Strings.DecimalInjective | script.js:332 | distinct numbers print differently |
| Traversal.SeqCounters | script.js:105-163 | after a sibling sequence, each group's counter has grown by exactly the number of its list items visited; a missing key counts as 0 |
| Traversal.ItemCounters | script.js:105-163 | the same for one node and all its descendants |
| Traversal.SeqImages | script.js:315-339 | rendering siblings keeps the registry's earlier entries and appends exactly their inline images, in document order |
| Traversal.ItemImages | script.js:97-100 | the same for one node |
| Traversal.SeqNames | script.js:330-338 | the registry stays well named: entry `k` is `Image_<k><ext>` with the extension of its type |
| Traversal.ItemNames | script.js:330-338 | the same for one node |
| Traversal.CounterBump | script.js:108-145 | incrementing one group's counter moves another key's counter only when the keys are equal, and then by one |
| Traversal.ImageNamesDistinct | script.js:330-332 | in a well-named registry no two entries share a name |
| Traversal.ConvertImages | script.js:9-22 | a successful conversion attaches exactly the document's images, in order, under pairwise distinct names |
| Traversal.ConvertCounters | script.js:12-20 | at the end of the body every group's counter is the number of its items |
| ListGroups.AfterLastDotKey | script.js:108 | in `listId + '.' + level` the part after the last dot is the level's digits |
| ListGroups.ListKeyInjective | script.js:108 | two groups share a key only with the same list id and nesting level |
| ListGroups.ListTagsTable | script.js:111-142 | the first item opens `<ul><li>` or `<ol><li>` by glyph, later ones `<li>`; the suffix ends with the group's close tag exactly when the boundary rule fires or it is a first bullet item |
| ListGroups.ListItemCounts | script.js:108-145 | a list item raises its own group's counter by one and no other group's |
| ListGroups.TextChildren | script.js:150-152 | text children always render, leave the state alone and give their own HTML |
| ListGroups.TextItemBody | script.js:148-169 | a list item holding only text renders from every state, and its body is the HTML of that text |
| ListGroups.ListItemHtml | script.js:105-169 | a list item's HTML is `ListTags` of its glyph, its group's counter and the boundary rule, around what its children render to from the raised counter; the group's counter ends one higher than before plus the items of that group among its descendants |
| ListGroups.RunBodies | script.js:157-163 | one body per item of a sibling sequence of list items, each what the item's children render to from the state the earlier siblings left |
| ListGroups.RunPrefix | script.js:105-146 | for a run of one group whose items hold no items of that group, the first `m` items render to the opening tag, the first item's body in `<li>`, the early `</ul>` of bullets, the later bodies in `<li>`, and the close tag once the last item is done; the counter reaches `m` |
| ListGroups.RunFirst | script.js:112-124 | the first item of a run opens the list around its body, whatever its children are |
| ListGroups.RunNext | script.js:126-145 | each later item adds `<li>`, the body its children actually render to, `</li>`, and the close tag when it ends the group |
| ListGroups.PrefixStep | script.js:126-145 | after a prefix rendered as the opening of a run, one more item of the group adds its `<li>` body to the run's HTML, the close tag exactly when the boundary rule fires, and raises the counter by one |
| ListGroups.ItemStep | script.js:126-145 | a later item of a group appends `<li>`, its body, `</li>` and the group's close tag exactly when the boundary rule fires, and raises the counter by one |
| ListGroups.OrderedRun | script.js:121-145 | a run of numbered items of a new group that renders is one well-formed `<ol>` list, one `<li>` per item around the body its children rendered to, images and all |
| ListGroups.BulletRun | script.js:114-145 | a run of bullet items that renders is `<ul>`, the first body in `<li>`, `</ul>`, the other bodies in bare `<li>`, and a second `</ul>` |
| ListGroups.TextRunBodies | script.js:148-163 | a sequence of list items holding only text always renders, and each item's body is the HTML of its text |
| InlineText.UniformText | script.js:178-195 | a run with at most one breakpoint takes the first matching case: bold, italic, link (tested on the trimmed text), plain |
| InlineText.TrimUnchanged | script.js:186 | text without surrounding whitespace is its own trim |
| InlineText.TrimLeadingWhitespace | script.js:186 | leading whitespace does not change the trimmed text |
| InlineText.ReferenceIsNotLink | script.js:219-227 | a `[…]` segment is never a link |
| InlineText.LinkKeepsLeadingSpace | script.js:186-187 | the link test uses the trimmed text but the anchor carries the untrimmed text |
| InlineText.SegmentsTileText | script.js:198-202 | with ordered breakpoints the segments put together are the text from the first breakpoint on, with nothing lost or repeated |
| InlineText.PlainSegmentHtml | script.js:228-229 | an unstyled segment that is neither reference nor link is emitted as is |
| InlineText.PlainRunsAreText | script.js:198-242 | a run of such segments is emitted as the concatenation of their texts |
| InlineText.PlainMixedRun | script.js:196-243 | a mixed run of plain segments renders as its text from the first breakpoint, unescaped |
| InlineText.CloseTagsFollowOpenOrder | script.js:206-240 | a fully styled segment is `<i><strong><u>` … `</i></strong></u>`, closed in the opening order |
| InlineText.SegmentShape | script.js:206-240 | each segment is its tags around `<sup>`, an anchor, or the text |
| FootnoteBodies.FootnoteParagraphs | script.js:252-254 | a footnote's paragraphs render iff each does, position by position; otherwise the error is the first failing paragraph's |
| FootnoteBodies.FootnoteItemsOk | script.js:252-254 | the success half: the renderings exist iff every paragraph renders, and then rendering `k` is paragraph `k`'s |
| FootnoteBodies.FootnoteItemsErr | script.js:252-254 | the failure half: a failing footnote fails with the error of a paragraph that fails while all before it render |
| FootnoteBodies.FootnoteFraming | script.js:256 | a footnote whose paragraphs render is `<fn>` + their HTML + `</fn>` |
| FootnoteBodies.NonParagraphIsEmpty | script.js:261-312 | a footnote element that is not a paragraph contributes `""` |
| FootnoteBodies.FootnoteSegmentIsBodySegment | script.js:283-305 | for a reference or non-link, a footnote segment equals the body-text segment without underline |
| FootnoteBodies.FootnoteLinkStaysText | script.js:293-298 | in a footnote a link stays bare text; in body text it becomes an anchor |
| FootnoteBodies.SingleTextChild | script.js:267-309 | a paragraph with one text child renders that child whole |
| FootnoteBodies.SecondChildSkipped | script.js:267-275 | after a child with one breakpoint the shared index jumps to 2, so the second child is skipped |
| FootnoteBodies.LoopNeverEnds | script.js:267-275 | a child with one breakpoint at index 2 sends the index back to 2, so the loop never ends |
| FootnoteBodies.BoldParagraph | script.js:286-304 | a paragraph with one bold run renders as `<strong>…</strong>` |
| FootnoteBodies.OneParagraph | script.js:252-256 | a footnote of one paragraph is that paragraph between `<fn>` and `</fn>` |
| FootnoteBodies.BoldFootnote | script.js:247-313 | a one-paragraph bold footnote renders as `<fn><strong>see note</strong></fn>` |
| ImageRegistry.SuffixesExclusive | script.js:321-326 | no content type matches two of the patterns |
| ImageRegistry.ExtensionBySuffix | script.js:320-329 | each extension is chosen exactly when its pattern matches; a type matching none is refused |
| ImageRegistry.ConvertNeedsSupportedImages | script.js:327-328 | a successful conversion met only images of a supported type |
| ImageRegistry.FirstPng | script.js:318-338 | a PNG met while the registry is empty is named `Image_0.png`, referenced by that name and registered as the only entry |
| Blocks.SingleChildParagraph | script.js:90-169 | a normal paragraph with a single child renders as `<p>`, that child's HTML, `</p>`, and leaves the state the child left |
| Blocks.SingleChildBody | script.js:15-22 | a body with a single child converts to that child's HTML, with no separator, and the images it registered |
| ImageRegistry.FirstImage | script.js:315-339 | the first PNG of a document is `Image_0.png`, referenced as `cid:Image_0.png` inside its paragraph |
| ImageRegistry.BitmapRefused | script.js:327-328 | a BMP image aborts the conversion with `UnsupportedImageType("image/bmp")` |
| Blocks.HeadingTagsByLevel | script.js:76-92 | heading N opens `<hN>`, any other setting `<p>`, and the close tag mirrors it |
| Blocks.ParagraphFraming | script.js:75-96 | a paragraph with no children renders as `""`; otherwise it fails exactly when a child fails, and its HTML starts with its opening tag and ends with the matching closing tag |
| Blocks.OtherIsTransparent | script.js:153-166 | any other container emits its children's HTML with nothing around it |

## Left out

- `onOpen` (script.js:5-7) registers a menu entry in the Google Docs user interface. It is not part of this model.
- `emailHtml` (script.js:28-52) and its call at line 23 send the HTML and the images by mail. `ConvertGoogleDocToCleanHtml` returns what it would hand to the mailer.
- `createDocumentForHtml` (script.js:54-62) writes the result into a new document. It is I/O and is not part of this model.
- `dumpAttributes` (script.js:64-69) and the `Logger.log` calls only log. They are left out.
- The `DocumentApp` accessors (`getType`, `getHeading`, `getChild`, `getGlyphType`, `getListId`, `getNestingLevel`, `isAtDocumentEnd`, `getNextSibling`, `getText`, `getTextAttributeIndices`, `getAttributes`, `isBold`, `isItalic`, `getBlob`, `getContentType`) become fields of the `Node` datatype. An image blob is an opaque byte sequence.
- `isBold()`/`isItalic()` return `null` on mixed text. Since `null` is falsy, the model carries them as plain booleans.
- The regular expressions `/\/png$/`, `/\/gif$/` and `/\/jpe?g$/` are written as suffix tests.
- A `processFootnoteItem` loop that never ends is modelled as the error `Diverges`. It is reported at the first revisit of a child, which is exactly when the script would start to repeat itself.
- The thrown `TypeError` for a footnote child without `getText` is modelled as the error `NotText`.
- `processFootnoteItem` assigns to an undeclared global `output`. Since the function is never re-entered, the model treats it as a local.
- Renderer.Renderer.ProcessItem: after a failure the model does not say what the counters and registry hold. The script abandons the whole conversion on an exception, so that state is never used.
- `images = images || []` (script.js:317) cannot take effect, because the registry always exists. It is left out.
- The JavaScript strings are sequences of UTF-16 code units. The model uses Dafny characters and does not model surrogate pairs.
