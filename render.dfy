/** What script.js computes, as functions of the document tree and of the
    traversal state (the list-counter dictionary and the image registry).
    The imperative renderer in module Renderer is proved to agree with these
    definitions; the modules of lemmas state what they guarantee. */
module Render {
  import opened Strings
  import opened Document

  /** The ways a conversion aborts. `UnsupportedImageType` is the exception
      processImage throws; `NotText` is the TypeError processFootnoteItem
      raises when a footnote paragraph holds a child without `getText`;
      `Diverges` stands for processFootnoteItem never returning, when its
      shared loop index comes back to a child it has already rendered. */
  datatype Failure = UnsupportedImageType(contentType: string) | NotText | Diverges

  datatype Result<T> = Ok(value: T) | Err(error: Failure)

  /** One registry entry: `{blob, type, name}`. */
  datatype ImageEntry = ImageEntry(blob: seq<byte>, contentType: string, name: string)

  /** The traversal state: `listCounters` and `images`. */
  datatype State = State(counters: map<string, nat>, images: seq<ImageEntry>)

  /** The HTML of one node and the state after it. */
  datatype Rendered = Rendered(html: string, state: State)

  /** The HTML of each node of a sibling sequence and the state after them. */
  datatype RenderedSeq = RenderedSeq(parts: seq<string>, state: State)

  /** The `prefix` and `suffix` processItem wraps around a node's content. */
  datatype Tags = Tags(prefix: string, suffix: string)

  // ----- paragraphs -----------------------------------------------------------

  /** The wrapper of a paragraph: `<h1>` to `<h6>` for the six heading levels,
      `<p>` for every other heading setting. The closing tag is the opening
      tag with a slash after its `<`. */
  function HeadingTags(h: Heading): (t: Tags)
    ensures |t.prefix| >= 2 && t.prefix[0] == '<'
    ensures t.suffix == "</" + t.prefix[1..]
  {
    match h
    case Heading6 => Tags("<h6>", "</h6>")
    case Heading5 => Tags("<h5>", "</h5>")
    case Heading4 => Tags("<h4>", "</h4>")
    case Heading3 => Tags("<h3>", "</h3>")
    case Heading2 => Tags("<h2>", "</h2>")
    case Heading1 => Tags("<h1>", "</h1>")
    case _ => Tags("<p>", "</p>")
  }

  // ----- lists ----------------------------------------------------------------

  predicate IsBulletGlyph(g: Glyph)
  {
    g == Bullet || g == HollowBullet || g == SquareBullet
  }

  /** The dictionary key of a list group: `listId + '.' + nestingLevel`. */
  function ListKey(listId: string, level: nat): string
  {
    listId + "." + Decimal(level)
  }

  /** `listCounters[key] || 0`. */
  function Counter(counters: map<string, nat>, key: string): nat
  {
    if key in counters then counters[key] else 0
  }

  /** The state the children of a list item start from: the counter of the
      item's group already raised by one. */
  function Bumped(st: State, key: string): State
  {
    st.(counters := st.counters[key := Counter(st.counters, key) + 1])
  }

  /** The boundary rule: the item is at the end of the document, or it has a
      next sibling that is not a list item. */
  predicate ClosesGroup(atDocumentEnd: bool, next: Option<Kind>)
  {
    atDocumentEnd || (next.Some? && next.value != ListItemKind)
  }

  function GroupClose(g: Glyph): string
  {
    if IsBulletGlyph(g) then "</ul>" else "</ol>"
  }

  /** The tags of a list item whose group has counted `counter` items so far.
      The first item of a bullet group gets `</ul>` in its suffix whether or
      not the group ends there. */
  function ListTags(g: Glyph, counter: nat, closes: bool): Tags
  {
    var t :=
      if counter == 0 then
        if IsBulletGlyph(g) then Tags("<ul><li>", "</li>" + "</ul>") else Tags("<ol><li>", "</li>")
      else Tags("<li>", "</li>");
    if closes then Tags(t.prefix, t.suffix + GroupClose(g)) else t
  }

  // ----- inline runs ----------------------------------------------------------

  /** `partText.indexOf('[') == 0 && partText[partText.length - 1] == ']'`. */
  predicate IsReference(part: string)
  {
    StartsWith(part, "[") && part[|part| - 1] == ']'
  }

  /** The trimmed text starts with `http://` or `https://`. */
  predicate IsLink(s: string)
  {
    StartsWith(Trim(s), "http://") || StartsWith(Trim(s), "https://")
  }

  function Anchor(s: string): string
  {
    "<a href=\"" + s + "\" rel=\"nofollow\">" + s + "</a>"
  }

  function Sup(s: string): string
  {
    "<sup>" + s + "</sup>"
  }

  /** Where the `i`-th style segment ends: at the next breakpoint, the last
      one at the end of the text. */
  function SegmentEnd(run: TextRun, i: nat): nat
    requires i < |run.breaks|
  {
    if i + 1 < |run.breaks| then run.breaks[i + 1].offset else |run.text|
  }

  /** The text of the `i`-th style segment: from its breakpoint to where it
      ends. */
  function SegmentText(run: TextRun, i: nat): string
    requires i < |run.breaks|
  {
    Substring(run.text, run.breaks[i].offset, SegmentEnd(run, i))
  }

  function OpenTags(a: Attrs): string
  {
    (if a.italic then "<i>" else "") + (if a.bold then "<strong>" else "") + (if a.underline then "<u>" else "")
  }

  /** Closing tags, emitted in the same order as the opening ones. */
  function CloseTags(a: Attrs): string
  {
    (if a.italic then "</i>" else "") + (if a.bold then "</strong>" else "") + (if a.underline then "</u>" else "")
  }

  /** The markup of one segment between its style tags. */
  function SegmentBody(part: string): string
  {
    if IsReference(part) then Sup(part)
    else if IsLink(part) then Anchor(part)
    else part
  }

  function StyledSegment(part: string, a: Attrs): string
  {
    OpenTags(a) + SegmentBody(part) + CloseTags(a)
  }

  /** The markup of the first `n` segments of a run. */
  function StyledRuns(run: TextRun, n: nat): string
    requires n <= |run.breaks|
  {
    if n == 0 then ""
    else StyledRuns(run, n - 1) + StyledSegment(SegmentText(run, n - 1), run.breaks[n - 1].attrs)
  }

  /** processText: a uniformly styled run is rendered whole, a mixed one
      segment by segment. */
  function TextHtml(run: TextRun): string
  {
    if |run.breaks| <= 1 then
      if run.bold then "<strong>" + run.text + "</strong>"
      else if run.italic then "<blockquote>" + run.text + "</blockquote>"
      else if StartsWith(Trim(run.text), "http://") then Anchor(run.text)
      else if StartsWith(Trim(run.text), "https://") then Anchor(run.text)
      else run.text
    else StyledRuns(run, |run.breaks|)
  }

  // ----- footnotes ------------------------------------------------------------

  /** Footnotes keep italic and bold only. */
  function FootnoteOpenTags(a: Attrs): string
  {
    (if a.italic then "<i>" else "") + (if a.bold then "<strong>" else "")
  }

  function FootnoteCloseTags(a: Attrs): string
  {
    (if a.italic then "</i>" else "") + (if a.bold then "</strong>" else "")
  }

  /** Footnotes know the reference rule but not the link rule. */
  function FootnoteBody(part: string): string
  {
    if IsReference(part) then Sup(part) else part
  }

  function FootnoteSegment(part: string, a: Attrs): string
  {
    FootnoteOpenTags(a) + FootnoteBody(part) + FootnoteCloseTags(a)
  }

  function FootnoteRuns(run: TextRun, n: nat): string
    requires n <= |run.breaks|
  {
    if n == 0 then ""
    else FootnoteRuns(run, n - 1) + FootnoteSegment(SegmentText(run, n - 1), run.breaks[n - 1].attrs)
  }

  /** The positions `0 .. n - 1`. */
  function Indices(n: nat): (r: set<nat>)
    ensures forall k: nat :: k in r <==> k < n
  {
    if n == 0 then {} else Indices(n - 1) + {n - 1}
  }

  function Prepend(s: string, r: Result<string>): Result<string>
  {
    match r
    case Ok(t) => Ok(s + t)
    case Err(e) => Err(e)
  }

  /** The child loop of processFootnoteItem from child `j` on, `visited`
      holding the children already rendered. The inner breakpoint loop reuses
      the loop index, so after child `j` the loop goes on at
      `|breakpoints of child j| + 1`, not at `j + 1`. */
  function FootnoteWalk(children: seq<Node>, j: nat, visited: set<nat>): Result<string>
    requires visited <= Indices(|children|)
    decreases Indices(|children|) - visited
  {
    if j >= |children| then Ok("")
    else if j in visited then Err(Diverges)
    else
      match children[j]
      case Text(run) =>
        assert j in Indices(|children|);
        Prepend(FootnoteRuns(run, |run.breaks|), FootnoteWalk(children, |run.breaks| + 1, visited + {j}))
      case _ => Err(NotText)
  }

  /** One step of the child loop. */
  lemma FootnoteWalkStep(children: seq<Node>, j: nat, visited: set<nat>)
    requires visited <= Indices(|children|) && j < |children| && j !in visited && children[j].Text?
    ensures var run := children[j].run;
            FootnoteWalk(children, j, visited)
            == Prepend(FootnoteRuns(run, |run.breaks|), FootnoteWalk(children, |run.breaks| + 1, visited + {j}))
  {
  }

  lemma PrependTwice(s: string, t: string, r: Result<string>)
    ensures Prepend(s, Prepend(t, r)) == Prepend(s + t, r)
  {
    if r.Ok? {
      assert s + (t + r.value) == (s + t) + r.value;
    }
  }

  /** processFootnoteItem: a paragraph renders its text children, anything
      else renders as the empty string. */
  function FootnoteItemHtml(item: Node): Result<string>
  {
    if item.Paragraph? then FootnoteWalk(item.children, 0, {}) else Ok("")
  }

  function FootnoteItems(paragraphs: seq<Node>): Result<seq<string>>
  {
    if paragraphs == [] then Ok([])
    else
      match FootnoteItems(paragraphs[..|paragraphs| - 1])
      case Err(e) => Err(e)
      case Ok(parts) =>
        match FootnoteItemHtml(paragraphs[|paragraphs| - 1])
        case Err(e) => Err(e)
        case Ok(p) => Ok(parts + [p])
  }

  /** processFootnote. */
  function FootnoteHtml(paragraphs: seq<Node>): Result<string>
  {
    match FootnoteItems(paragraphs)
    case Err(e) => Err(e)
    case Ok(parts) => Ok("<fn>" + Concat(parts) + "</fn>")
  }

  // ----- images ---------------------------------------------------------------

  /** The file extension for a content type, by the three anchored patterns
      `/png$`, `/gif$` and `/jpe?g$`, tried in that order. */
  function ImageExtension(contentType: string): (r: Option<string>)
    ensures r.Some? ==> r.value in {".png", ".gif", ".jpg"}
  {
    if EndsWith(contentType, "/png") then Some(".png")
    else if EndsWith(contentType, "/gif") then Some(".gif")
    else if EndsWith(contentType, "/jpeg") || EndsWith(contentType, "/jpg") then Some(".jpg")
    else None
  }

  function ImageName(count: nat, ext: string): string
  {
    "Image_" + Decimal(count) + ext
  }

  function ImageTag(name: string): string
  {
    "<img src=\"cid:" + name + "\" />"
  }

  /** processImage. */
  function RenderImage(contentType: string, blob: seq<byte>, st: State): Result<Rendered>
  {
    match ImageExtension(contentType)
    case None => Err(UnsupportedImageType(contentType))
    case Some(ext) =>
      var name := ImageName(|st.images|, ext);
      Ok(Rendered(ImageTag(name), st.(images := st.images + [ImageEntry(blob, contentType, name)])))
  }

  // ----- the block dispatcher -------------------------------------------------

  function Wrap(t: Tags, r: Result<RenderedSeq>): Result<Rendered>
  {
    match r
    case Err(e) => Err(e)
    case Ok(rs) => Ok(Rendered(t.prefix + Concat(rs.parts) + t.suffix, rs.state))
  }

  /** processItem. */
  function RenderItem(n: Node, st: State): Result<Rendered>
    decreases n
  {
    match n
    case Paragraph(h, children) =>
      if |children| == 0 then Ok(Rendered("", st))
      else Wrap(HeadingTags(h), RenderSeq(children, st))
    case ListItem(g, listId, level, atEnd, next, children) =>
      var key := ListKey(listId, level);
      Wrap(ListTags(g, Counter(st.counters, key), ClosesGroup(atEnd, next)), RenderSeq(children, Bumped(st, key)))
    case Text(run) => Ok(Rendered(TextHtml(run), st))
    case InlineImage(contentType, blob) => RenderImage(contentType, blob, st)
    case Footnote(paragraphs) =>
      (match FootnoteHtml(paragraphs)
       case Err(e) => Err(e)
       case Ok(html) => Ok(Rendered(html, st)))
    case Other(children) => Wrap(Tags("", ""), RenderSeq(children, st))
  }

  /** processItem applied to each node of a sibling sequence in order, the
      state threaded from one to the next. */
  function RenderSeq(nodes: seq<Node>, st: State): Result<RenderedSeq>
    decreases nodes
  {
    if nodes == [] then Ok(RenderedSeq([], st))
    else
      match RenderSeq(nodes[..|nodes| - 1], st)
      case Err(e) => Err(e)
      case Ok(rs) =>
        match RenderItem(nodes[|nodes| - 1], rs.state)
        case Err(e) => Err(e)
        case Ok(r) => Ok(RenderedSeq(rs.parts + [r.html], r.state))
  }

  // ----- the driver -----------------------------------------------------------

  /** The HTML handed to the mailer and the images to attach. */
  datatype Conversion = Conversion(html: string, images: seq<ImageEntry>)

  const EmptyState := State(map[], [])

  /** The body loop of ConvertGoogleDocToCleanHtml: render every child of the
      body from an empty state and join the fragments with a carriage return. */
  function Convert(body: seq<Node>): Result<Conversion>
  {
    match RenderSeq(body, EmptyState)
    case Err(e) => Err(e)
    case Ok(rs) => Ok(Conversion(Join(rs.parts, "\r"), rs.state.images))
  }
}
