/** The renderer of script.js in its own imperative form: the list-counter
    dictionary and the image registry are fields of a Renderer object that
    processItem updates in place, and every renderer builds its output by
    appending inside loops. Each method is proved to compute what module
    Render defines. */
module Renderer {
  import opened Strings
  import opened Document
  import opened Render

  /** A prefix of a sibling sequence that fails makes the whole sequence
      fail with the same error. */
  lemma {:induction false} RenderSeqErrorExtends(nodes: seq<Node>, k: nat, st: State)
    requires k <= |nodes| && RenderSeq(nodes[..k], st).Err?
    ensures RenderSeq(nodes, st) == Err(RenderSeq(nodes[..k], st).error)
    decreases |nodes| - k
  {
    if k < |nodes| {
      assert nodes[..k + 1][..k] == nodes[..k];
      RenderSeqErrorExtends(nodes, k + 1, st);
    } else {
      assert nodes[..k] == nodes;
    }
  }

  /** The same for the paragraphs of a footnote. */
  lemma {:induction false} FootnoteItemsErrorExtends(paragraphs: seq<Node>, k: nat)
    requires k <= |paragraphs| && FootnoteItems(paragraphs[..k]).Err?
    ensures FootnoteItems(paragraphs) == Err(FootnoteItems(paragraphs[..k]).error)
    decreases |paragraphs| - k
  {
    if k < |paragraphs| {
      assert paragraphs[..k + 1][..k] == paragraphs[..k];
      FootnoteItemsErrorExtends(paragraphs, k + 1);
    } else {
      assert paragraphs[..k] == paragraphs;
    }
  }

  /** The opening style tags of a segment of a mixed run, appended to
      `output`: italic, then bold, then underline. */
  method PushOpenTags(output: string, partAtts: Attrs) returns (out: string)
    ensures out == output + OpenTags(partAtts)
  {
    out := output;
    if partAtts.italic { out := out + "<i>"; }
    if partAtts.bold { out := out + "<strong>"; }
    if partAtts.underline { out := out + "<u>"; }
  }

  /** The text of a segment appended to `output`: a bracketed reference as a
      superscript, otherwise a link as a nofollow anchor, otherwise verbatim. */
  method PushSegmentBody(output: string, partText: string) returns (out: string)
    ensures out == output + SegmentBody(partText)
  {
    if IsReference(partText) {
      out := output + Sup(partText);
    } else if StartsWith(Trim(partText), "http://") {
      out := output + Anchor(partText);
    } else if StartsWith(Trim(partText), "https://") {
      out := output + Anchor(partText);
    } else {
      out := output + partText;
    }
  }

  /** The closing style tags of a segment appended to `output`, in the same
      order as the opening ones. */
  method PushCloseTags(output: string, partAtts: Attrs) returns (out: string)
    ensures out == output + CloseTags(partAtts)
  {
    out := output;
    if partAtts.italic { out := out + "</i>"; }
    if partAtts.bold { out := out + "</strong>"; }
    if partAtts.underline { out := out + "</u>"; }
  }

  /** The opening tags of a footnote segment appended to `output`: italic,
      then bold. */
  method PushFootnoteOpenTags(output: string, partAtts: Attrs) returns (out: string)
    ensures out == output + FootnoteOpenTags(partAtts)
  {
    out := output;
    if partAtts.italic { out := out + "<i>"; }
    if partAtts.bold { out := out + "<strong>"; }
  }

  /** The text of a footnote segment appended to `output`: a bracketed
      reference as a superscript, anything else verbatim. */
  method PushFootnoteBody(output: string, partText: string) returns (out: string)
    ensures out == output + FootnoteBody(partText)
  {
    if IsReference(partText) {
      out := output + Sup(partText);
    } else {
      out := output + partText;
    }
  }

  method PushFootnoteCloseTags(output: string, partAtts: Attrs) returns (out: string)
    ensures out == output + FootnoteCloseTags(partAtts)
  {
    out := output;
    if partAtts.italic { out := out + "</i>"; }
    if partAtts.bold { out := out + "</strong>"; }
  }

  lemma AppendTwo(s: string, a: string, b: string)
    ensures s + a + b == s + (a + b)
  {
  }

  lemma AppendThree(s: string, a: string, b: string, c: string)
    ensures s + a + b + c == s + (a + b + c)
  {
  }

  /** Segment `i` of a run: its attributes, and its text from its own
      breakpoint to the next one or to the end of the text. */
  method CutSegment(run: TextRun, i: nat) returns (partAtts: Attrs, partText: string)
    requires i < |run.breaks|
    ensures partAtts == run.breaks[i].attrs
    ensures partText == SegmentText(run, i)
  {
    var text := run.text;
    var indices := run.breaks;
    partAtts := indices[i].attrs;
    var startPos := indices[i].offset;
    var endPos := if i + 1 < |indices| then indices[i + 1].offset else |text|;
    partText := Substring(text, startPos, endPos);
  }

  /** Segment `i` of a body-text run appended to the markup of the segments
      before it: opening tags, body, closing tags. */
  method PushStyledSegment(output: string, run: TextRun, i: nat) returns (out: string)
    requires i < |run.breaks| && output == StyledRuns(run, i)
    ensures out == StyledRuns(run, i + 1)
  {
    var partAtts, partText := CutSegment(run, i);
    out := PushOpenTags(output, partAtts);
    out := PushSegmentBody(out, partText);
    out := PushCloseTags(out, partAtts);
    AppendThree(output, OpenTags(partAtts), SegmentBody(partText), CloseTags(partAtts));
  }

  /** Segment `i` of a footnote run appended to the markup of the segments
      before it: italic and bold tags around the text or its superscript. */
  method PushFootnoteSegment(output: string, run: TextRun, i: nat) returns (out: string)
    requires i < |run.breaks| && output == FootnoteRuns(run, i)
    ensures out == FootnoteRuns(run, i + 1)
  {
    var partAtts, partText := CutSegment(run, i);
    out := PushFootnoteOpenTags(output, partAtts);
    out := PushFootnoteBody(out, partText);
    out := PushFootnoteCloseTags(out, partAtts);
    AppendThree(output, FootnoteOpenTags(partAtts), FootnoteBody(partText), FootnoteCloseTags(partAtts));
  }

  /** The breakpoint loop of processText: every segment of the run with its
      style tags, in order. */
  method RenderStyledRuns(run: TextRun) returns (html: string)
    ensures html == StyledRuns(run, |run.breaks|)
  {
    html := "";
    for i := 0 to |run.breaks|
      invariant html == StyledRuns(run, i)
    {
      html := PushStyledSegment(html, run, i);
    }
  }

  /** processText: a run with at most one breakpoint is styled as a whole,
      a mixed one segment by segment. */
  method ProcessText(run: TextRun) returns (html: string)
    ensures html == TextHtml(run)
  {
    var text := run.text;
    var indices := run.breaks;
    if |indices| <= 1 {
      if run.bold {
        html := "<strong>" + text + "</strong>";
      } else if run.italic {
        html := "<blockquote>" + text + "</blockquote>";
      } else if StartsWith(Trim(text), "http://") {
        html := Anchor(text);
      } else if StartsWith(Trim(text), "https://") {
        html := Anchor(text);
      } else {
        html := text;
      }
    } else {
      html := RenderStyledRuns(run);
    }
  }

  /** The breakpoint loop of processFootnoteItem: every segment of a text
      child appended to `output`. It runs on the index it shares with the
      child loop, and hands back the value that index has when it ends. */
  method FootnoteRunLoop(output: string, run: TextRun) returns (out: string, i: nat)
    ensures out == output + FootnoteRuns(run, |run.breaks|)
    ensures i == |run.breaks|
  {
    var html := "";
    i := 0;
    while i < |run.breaks|
      invariant i <= |run.breaks|
      invariant html == FootnoteRuns(run, i)
    {
      html := PushFootnoteSegment(html, run, i);
      i := i + 1;
    }
    assert i == |run.breaks|;
    out := output + html;
  }


  /** processFootnoteItem. The breakpoint loop reuses the child loop's index
      `i`, exactly as the script does; the set `visited` records the children
      rendered so far, and coming back to one of them is reported as
      `Diverges`, since from there the script would go round forever. */
  method ProcessFootnoteItem(footnoteItem: Node) returns (r: Result<string>)
    ensures r == FootnoteItemHtml(footnoteItem)
  {
    var output := "";
    if footnoteItem.Paragraph? {
      var children := footnoteItem.children;
      var length := |children|;
      var visited: set<nat> := {};
      var i: nat := 0;
      assert Prepend(output, FootnoteWalk(children, i, visited)) == FootnoteWalk(children, 0, {}) by {
        var w := FootnoteWalk(children, 0, {});
        if w.Ok? { assert "" + w.value == w.value; }
      }
      while i < length
        invariant visited <= Indices(length)
        invariant FootnoteWalk(children, 0, {}) == Prepend(output, FootnoteWalk(children, i, visited))
        decreases Indices(length) - visited
      {
        if i in visited {
          return Err(Diverges);
        }
        var item := children[i];
        if !item.Text? {
          return Err(NotText);
        }
        ghost var at := i;
        ghost var before := output;
        visited := visited + {i};
        output, i := FootnoteRunLoop(output, item.run);
        i := i + 1;
        FootnoteWalkStep(children, at, visited - {at});
        assert visited - {at} + {at} == visited;
        PrependTwice(before, FootnoteRuns(item.run, |item.run.breaks|), FootnoteWalk(children, i, visited));
      }
      assert output + "" == output;
      return Ok(output);
    }
    return Ok(output);
  }

  /** processFootnote: the footnote's paragraphs rendered one after the other
      inside the `<fn>` tag of the Drupal footnotes module. */
  method ProcessFootnote(paragraphs: seq<Node>) returns (r: Result<string>)
    ensures r == FootnoteHtml(paragraphs)
  {
    var loopOutput: seq<string> := [];
    for i := 0 to |paragraphs|
      invariant FootnoteItems(paragraphs[..i]) == Ok(loopOutput)
    {
      var p := ProcessFootnoteItem(paragraphs[i]);
      assert paragraphs[..i + 1][..i] == paragraphs[..i];
      if p.Err? {
        FootnoteItemsErrorExtends(paragraphs, i + 1);
        return Err(p.error);
      }
      loopOutput := loopOutput + [p.value];
    }
    assert paragraphs[..|paragraphs|] == paragraphs;
    return Ok("<fn>" + Concat(loopOutput) + "</fn>");
  }

  /** The traversal state of one conversion. */
  class Renderer {
    var listCounters: map<string, nat>
    var images: seq<ImageEntry>

    /** A conversion starts with no counted list items and no images. */
    constructor ()
      ensures listCounters == map[] && images == []
    {
      listCounters := map[];
      images := [];
    }

    function Current(): State
      reads this
    {
      State(listCounters, images)
    }

    /** processImage: names the image after the registry's current length,
        emits its `cid:` reference and appends it to the registry; an
        unsupported content type fails before anything is appended. */
    method ProcessImage(contentType: string, blob: seq<byte>) returns (r: Result<string>)
      modifies this
      ensures listCounters == old(listCounters)
      ensures r.Ok? <==> ImageExtension(contentType).Some?
      ensures r.Err? ==> r.error == UnsupportedImageType(contentType) && images == old(images)
      ensures r.Ok? ==>
        var name := ImageName(|old(images)|, ImageExtension(contentType).value);
        r.value == "<img src=\"cid:" + name + "\" />"
        && images == old(images) + [ImageEntry(blob, contentType, name)]
    {
      var extension := "";
      if EndsWith(contentType, "/png") {
        extension := ".png";
      } else if EndsWith(contentType, "/gif") {
        extension := ".gif";
      } else if EndsWith(contentType, "/jpeg") || EndsWith(contentType, "/jpg") {
        extension := ".jpg";
      } else {
        return Err(UnsupportedImageType(contentType));
      }
      var imagePrefix := "Image_";
      var imageCounter := |images|;
      var name := imagePrefix + Decimal(imageCounter) + extension;
      r := Ok("<img src=\"cid:" + name + "\" />");
      images := images + [ImageEntry(blob, contentType, name)];
    }

    /** The list grouper of processItem: the tags of a list item, chosen by
        how many items of its group (`listId` and nesting level) came
        before, and the group's counter incremented by one. */
    method CountListItem(item: Node) returns (prefix: string, suffix: string)
      requires item.ListItem?
      modifies this
      ensures var key := ListKey(item.listId, item.nestingLevel);
              var counter := Counter(old(listCounters), key);
              Tags(prefix, suffix) == ListTags(item.glyph, counter, ClosesGroup(item.atDocumentEnd, item.next))
              && listCounters == old(listCounters)[key := counter + 1]
      ensures images == old(images)
    {
      var gt := item.glyph;
      var key := ListKey(item.listId, item.nestingLevel);
      var counter := Counter(listCounters, key);
      if counter == 0 {
        if IsBulletGlyph(gt) {
          prefix, suffix := "<ul><li>", "</li>";
          suffix := suffix + "</ul>";
        } else {
          prefix, suffix := "<ol><li>", "</li>";
        }
      } else {
        prefix := "<li>";
        suffix := "</li>";
      }
      if ClosesGroup(item.atDocumentEnd, item.next) {
        if IsBulletGlyph(gt) {
          suffix := suffix + "</ul>";
        } else {
          suffix := suffix + "</ol>";
        }
      }
      counter := counter + 1;
      listCounters := listCounters[key := counter];
    }

    /** processItem: renders one node, updating the counters and the registry
        as RenderItem prescribes. When it fails, the conversion is abandoned
        and the state it leaves is not used. */
    method ProcessItem(item: Node) returns (r: Result<string>)
      modifies this
      decreases item
      ensures match RenderItem(item, old(Current()))
              case Ok(rd) => r == Ok(rd.html) && Current() == rd.state
              case Err(e) => r == Err(e)
    {
      match item
      case Paragraph(heading, children) =>
        var tags := HeadingTags(heading);
        if |children| == 0 {
          return Ok("");
        }
        r := ProcessWrapped(tags.prefix, children, tags.suffix);
      case InlineImage(contentType, blob) =>
        r := ProcessImage(contentType, blob);
      case Footnote(paragraphs) =>
        r := ProcessFootnote(paragraphs);
      case ListItem(_, listId, level, _, _, children) =>
        ghost var before := Current();
        var prefix, suffix := CountListItem(item);
        assert Current() == Bumped(before, ListKey(listId, level));
        r := ProcessWrapped(prefix, children, suffix);
      case Text(run) =>
        var text := ProcessText(run);
        r := Ok(text);
      case Other(children) =>
        r := ProcessWrapped("", children, "");
    }

    /** The tail of processItem for a container: the prefix, every child
        rendered in order, the suffix. */
    method ProcessWrapped(prefix: string, children: seq<Node>, suffix: string) returns (r: Result<string>)
      modifies this
      decreases children
      ensures match Wrap(Tags(prefix, suffix), RenderSeq(children, old(Current())))
              case Ok(rd) => r == Ok(rd.html) && Current() == rd.state
              case Err(e) => r == Err(e)
    {
      var output := prefix;
      ghost var start := Current();
      for i := 0 to |children|
        invariant RenderSeq(children[..i], start).Ok?
        invariant RenderSeq(children[..i], start).value.state == Current()
        invariant output == prefix + Concat(RenderSeq(children[..i], start).value.parts)
      {
        var child := children[i];
        var html := ProcessItem(child);
        assert children[..i + 1][..i] == children[..i];
        if html.Err? {
          RenderSeqErrorExtends(children, i + 1, start);
          return Err(html.error);
        }
        AppendTwo(prefix, Concat(RenderSeq(children[..i], start).value.parts), html.value);
        output := output + html.value;
      }
      assert children[..|children|] == children;
      output := output + suffix;
      return Ok(output);
    }
  }

  /** The body loop of ConvertGoogleDocToCleanHtml: every child of the body
      rendered in order with one fresh renderer state, the fragments joined
      by a carriage return. The resulting HTML and images are what the
      script hands to the mailer. */
  method ConvertGoogleDocToCleanHtml(body: seq<Node>) returns (r: Result<Conversion>)
    ensures r == Convert(body)
  {
    var renderer := new Renderer();
    var output: seq<string> := [];
    for i := 0 to |body|
      invariant RenderSeq(body[..i], EmptyState) == Ok(RenderedSeq(output, renderer.Current()))
    {
      var child := body[i];
      var html := renderer.ProcessItem(child);
      assert body[..i + 1][..i] == body[..i];
      if html.Err? {
        RenderSeqErrorExtends(body, i + 1, EmptyState);
        return Err(html.error);
      }
      output := output + [html.value];
    }
    assert body[..|body|] == body;
    return Ok(Conversion(Join(output, "\r"), renderer.images));
  }
}
