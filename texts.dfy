/** What processText promises about a Text element: which wrapper a
    uniformly styled run gets, how a mixed run is cut at its breakpoints, and
    that the characters themselves pass through unchanged (nothing is
    escaped). */
module InlineText {
  import opened Strings
  import opened Document
  import opened Render

  /** A run with at most one breakpoint takes the first matching case:
      bold, then italic, then a link (decided on the trimmed text, emitted
      with the untrimmed text), then the bare text. */
  lemma UniformText(run: TextRun)
    requires |run.breaks| <= 1
    ensures run.bold ==> TextHtml(run) == "<strong>" + run.text + "</strong>"
    ensures !run.bold && run.italic ==> TextHtml(run) == "<blockquote>" + run.text + "</blockquote>"
    ensures !run.bold && !run.italic && IsLink(run.text) ==> TextHtml(run) == Anchor(run.text)
    ensures !run.bold && !run.italic && !IsLink(run.text) ==> TextHtml(run) == run.text
  {
  }

  // ----- trimming -------------------------------------------------------------

  /** A string that neither starts nor ends with whitespace is its own trim. */
  lemma TrimUnchanged(s: string)
    requires s != [] && !IsJsWhitespace(s[0]) && !IsJsWhitespace(s[|s| - 1])
    ensures Trim(s) == s
  {
    assert TrimStart(s) == s[0..] == s;
  }

  lemma {:induction false} FirstNonSpaceShift(c: char, s: string, i: nat)
    requires i <= |s|
    ensures FirstNonSpace([c] + s, i + 1) == FirstNonSpace(s, i) + 1
    decreases |s| - i
  {
    assert ([c] + s)[i + 1..] == s[i..];
    if i < |s| {
      assert ([c] + s)[i + 1] == s[i];
      if IsJsWhitespace(s[i]) {
        FirstNonSpaceShift(c, s, i + 1);
      }
    }
  }

  /** Leading whitespace does not change the trimmed text. */
  lemma TrimLeadingWhitespace(c: char, s: string)
    requires IsJsWhitespace(c)
    ensures Trim([c] + s) == Trim(s)
  {
    FirstNonSpaceShift(c, s, 0);
    assert TrimStart([c] + s) == ([c] + s)[FirstNonSpace(s, 0) + 1..] == TrimStart(s);
  }

  /** A segment written as `[...]` is never mistaken for a link, so the
      reference rule and the link rule never compete. */
  lemma ReferenceIsNotLink(part: string)
    requires IsReference(part)
    ensures !IsLink(part)
  {
    assert part[0] == '[';
    TrimUnchanged(part);
  }

  /** The link rule looks at the trimmed text but the anchor carries the
      text as written: a space before a link stays inside the `href`. */
  lemma LinkKeepsLeadingSpace(url: string)
    requires IsLink(url)
    ensures TextHtml(TextRun([' '] + url, [], false, false)) == Anchor([' '] + url)
  {
    TrimLeadingWhitespace(' ', url);
    assert [' '] + url == " " + url;
  }

  // ----- mixed runs ---------------------------------------------------------------

  /** Breakpoint offsets never decrease and never pass the end of the text. */
  ghost predicate Ordered(run: TextRun)
  {
    (forall i, j :: 0 <= i < j < |run.breaks| ==> run.breaks[i].offset <= run.breaks[j].offset)
    && (forall i :: 0 <= i < |run.breaks| ==> run.breaks[i].offset <= |run.text|)
  }

  /** The texts of the first `n` segments, one after the other. */
  function SegmentTexts(run: TextRun, n: nat): string
    requires n <= |run.breaks|
  {
    if n == 0 then "" else SegmentTexts(run, n - 1) + SegmentText(run, n - 1)
  }

  /** The segments of an ordered run tile its text: the first `n` of them,
      put together, are exactly the text from the first breakpoint to the end
      of segment `n - 1`; no character is lost or repeated. */
  lemma {:induction false} SegmentsTileText(run: TextRun, n: nat)
    requires Ordered(run) && 1 <= n <= |run.breaks|
    ensures SegmentTexts(run, n) == run.text[run.breaks[0].offset..SegmentEnd(run, n - 1)]
  {
    var t := run.text;
    if n == 1 {
      assert SegmentTexts(run, 0) == "";
    } else {
      SegmentsTileText(run, n - 1);
      var a, b, c := run.breaks[0].offset, run.breaks[n - 1].offset, SegmentEnd(run, n - 1);
      assert SegmentEnd(run, n - 2) == b;
      assert SegmentText(run, n - 1) == t[b..c];
      assert t[a..b] + t[b..c] == t[a..c];
    }
  }

  /** A segment with no attributes that is neither a reference nor a link. */
  ghost predicate PlainSegment(run: TextRun, i: nat)
    requires i < |run.breaks|
  {
    run.breaks[i].attrs == Attrs(false, false, false)
    && !IsReference(SegmentText(run, i)) && !IsLink(SegmentText(run, i))
  }

  lemma PlainSegmentHtml(run: TextRun, i: nat)
    requires i < |run.breaks| && PlainSegment(run, i)
    ensures StyledSegment(SegmentText(run, i), run.breaks[i].attrs) == SegmentText(run, i)
  {
    PlainPart(SegmentText(run, i), run.breaks[i].attrs);
  }

  /** Text with no style, no reference and no link is emitted as is. */
  lemma PlainPart(p: string, a: Attrs)
    requires !a.italic && !a.bold && !a.underline && !IsReference(p) && !IsLink(p)
    ensures StyledSegment(p, a) == p
  {
    assert OpenTags(a) == [] && CloseTags(a) == [];
    assert SegmentBody(p) == p;
    assert [] + p + [] == p;
  }

  /** Plain segments are emitted as their own characters. */
  lemma {:induction false} PlainRunsAreText(run: TextRun, n: nat)
    requires n <= |run.breaks|
    requires forall i {:trigger PlainSegment(run, i)} :: 0 <= i < n ==> PlainSegment(run, i)
    ensures StyledRuns(run, n) == SegmentTexts(run, n)
  {
    if n > 0 {
      PlainRunsAreText(run, n - 1);
      PlainSegmentHtml(run, n - 1);
      PlainStep(run, n);
    }
  }

  lemma PlainStep(run: TextRun, n: nat)
    requires 1 <= n <= |run.breaks|
    requires StyledRuns(run, n - 1) == SegmentTexts(run, n - 1)
    requires StyledSegment(SegmentText(run, n - 1), run.breaks[n - 1].attrs) == SegmentText(run, n - 1)
    ensures StyledRuns(run, n) == SegmentTexts(run, n)
  {
  }

  /** A mixed run whose every segment is plain renders to its text from
      the first breakpoint on, character for character: no escaping, no
      loss, no repetition. Google Docs reports a first breakpoint at 0, and
      then the whole text comes out. */
  lemma PlainMixedRun(run: TextRun)
    requires |run.breaks| >= 2 && Ordered(run)
    requires forall i {:trigger PlainSegment(run, i)} :: 0 <= i < |run.breaks| ==> PlainSegment(run, i)
    ensures TextHtml(run) == run.text[run.breaks[0].offset..]
    ensures run.breaks[0].offset == 0 ==> TextHtml(run) == run.text
  {
    PlainRunsAreText(run, |run.breaks|);
    SegmentsTileText(run, |run.breaks|);
    assert run.text[..|run.text|] == run.text;
  }

  /** A segment with every attribute set: the closing tags come out in the
      order the opening tags went in, so the markup is not properly nested. */
  lemma CloseTagsFollowOpenOrder(part: string)
    ensures StyledSegment(part, Attrs(true, true, true))
            == "<i><strong><u>" + SegmentBody(part) + "</i></strong></u>"
  {
    assert OpenTags(Attrs(true, true, true)) == "<i><strong><u>";
    assert CloseTags(Attrs(true, true, true)) == "</i></strong></u>";
  }

  /** A segment is wrapped in exactly the tags of its attributes, and its
      body is a `<sup>` for a reference, an anchor for a link, otherwise the
      segment's own text. */
  lemma SegmentShape(part: string, a: Attrs)
    ensures IsReference(part) ==> StyledSegment(part, a) == OpenTags(a) + "<sup>" + part + "</sup>" + CloseTags(a)
    ensures !IsReference(part) && IsLink(part) ==> StyledSegment(part, a) == OpenTags(a) + Anchor(part) + CloseTags(a)
    ensures !IsReference(part) && !IsLink(part) ==> StyledSegment(part, a) == OpenTags(a) + part + CloseTags(a)
  {
    if IsReference(part) {
      assert Sup(part) == "<sup>" + part + "</sup>";
    }
  }
}
