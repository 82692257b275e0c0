/** What processFootnote and processFootnoteItem promise: a footnote is the
    concatenation of its paragraphs between `<fn>` and `</fn>`; inside it only
    italic, bold and the reference rule survive; and the loop index shared by
    the child loop and the breakpoint loop decides which children are
    rendered at all. */
module FootnoteBodies {
  import opened Strings
  import opened Document
  import opened Render

  // ----- the footnote as a whole ----------------------------------------------

  /** The paragraphs of a footnote are rendered one by one and in order: the
      list of renderings exists exactly when every paragraph renders, and
      then holds each paragraph's rendering at its own position; otherwise
      the failure is that of the first paragraph that fails. */
  lemma FootnoteParagraphs(ps: seq<Node>)
    ensures FootnoteItems(ps).Ok? <==> forall k :: 0 <= k < |ps| ==> FootnoteItemHtml(ps[k]).Ok?
    ensures FootnoteItems(ps).Ok? ==>
              |FootnoteItems(ps).value| == |ps|
              && forall k :: 0 <= k < |ps| ==> FootnoteItems(ps).value[k] == FootnoteItemHtml(ps[k]).value
    ensures FootnoteItems(ps).Err? ==>
              exists k :: 0 <= k < |ps| && FootnoteItemHtml(ps[k]) == Err(FootnoteItems(ps).error)
                          && forall i :: 0 <= i < k ==> FootnoteItemHtml(ps[i]).Ok?
  {
    FootnoteItemsOk(ps);
    FootnoteItemsErr(ps);
  }

  /** The success half of FootnoteParagraphs. */
  lemma {:induction false} FootnoteItemsOk(ps: seq<Node>)
    ensures FootnoteItems(ps).Ok? <==> forall k :: 0 <= k < |ps| ==> FootnoteItemHtml(ps[k]).Ok?
    ensures FootnoteItems(ps).Ok? ==>
              |FootnoteItems(ps).value| == |ps|
              && forall k :: 0 <= k < |ps| ==> FootnoteItems(ps).value[k] == FootnoteItemHtml(ps[k]).value
  {
    if ps != [] {
      var init, last := ps[..|ps| - 1], ps[|ps| - 1];
      FootnoteItemsOk(init);
      if FootnoteItems(init).Err? {
        var k :| 0 <= k < |init| && !FootnoteItemHtml(init[k]).Ok?;
        assert ps[k] == init[k];
      } else if FootnoteItemHtml(last).Ok? {
        var parts := FootnoteItems(init).value + [FootnoteItemHtml(last).value];
        assert FootnoteItems(ps) == Ok(parts);
        forall k | 0 <= k < |ps|
          ensures FootnoteItemHtml(ps[k]).Ok? && parts[k] == FootnoteItemHtml(ps[k]).value
        {
          if k < |init| {
            assert ps[k] == init[k];
          }
        }
      }
    }
  }

  /** The failure half of FootnoteParagraphs. */
  lemma {:induction false} FootnoteItemsErr(ps: seq<Node>)
    ensures FootnoteItems(ps).Err? ==>
              exists k :: 0 <= k < |ps| && FootnoteItemHtml(ps[k]) == Err(FootnoteItems(ps).error)
                          && forall i :: 0 <= i < k ==> FootnoteItemHtml(ps[i]).Ok?
  {
    if ps != [] {
      var init := ps[..|ps| - 1];
      FootnoteItemsErr(init);
      FootnoteItemsOk(init);
      assert forall k :: 0 <= k < |init| ==> ps[k] == init[k];
      if FootnoteItems(init).Err? {
        var k :| 0 <= k < |init| && FootnoteItemHtml(init[k]) == Err(FootnoteItems(init).error)
                 && forall i :: 0 <= i < k ==> FootnoteItemHtml(init[i]).Ok?;
        assert FootnoteItemHtml(ps[k]) == Err(FootnoteItems(ps).error);
      } else if FootnoteItemHtml(ps[|ps| - 1]).Err? {
        assert FootnoteItemHtml(ps[|ps| - 1]) == Err(FootnoteItems(ps).error);
      }
    }
  }

  /** A footnote whose paragraphs all render is `<fn>`, their renderings in
      order with nothing between them, and `</fn>`. */
  lemma FootnoteFraming(ps: seq<Node>, parts: seq<string>)
    requires |parts| == |ps|
    requires forall k :: 0 <= k < |ps| ==> FootnoteItemHtml(ps[k]) == Ok(parts[k])
    ensures FootnoteHtml(ps) == Ok("<fn>" + Concat(parts) + "</fn>")
  {
    FootnoteParagraphs(ps);
    assert FootnoteItems(ps).value == parts;
  }

  /** Anything other than a paragraph inside a footnote renders as nothing. */
  lemma NonParagraphIsEmpty(item: Node)
    requires !item.Paragraph?
    ensures FootnoteItemHtml(item) == Ok("")
  {
  }

  // ----- segments -------------------------------------------------------------

  lemma EmptyAround(o: string, b: string, c: string)
    requires o == [] && c == []
    ensures o + b + c == b
  {
  }

  lemma DropEmptyLast(x: string, y: string, e: string)
    requires e == []
    ensures x + y + e == x + y
  {
  }

  /** A footnote segment is the body-text segment without its underline as
      long as the segment is a reference or not a link: both renderers then
      agree once underline is dropped. */
  lemma FootnoteSegmentIsBodySegment(part: string, a: Attrs)
    requires IsReference(part) || !IsLink(part)
    ensures FootnoteSegment(part, a) == StyledSegment(part, a.(underline := false))
  {
    var b := a.(underline := false);
    DropEmptyLast(if a.italic then "<i>" else "", if a.bold then "<strong>" else "", if b.underline then "<u>" else "");
    DropEmptyLast(if a.italic then "</i>" else "", if a.bold then "</strong>" else "", if b.underline then "</u>" else "");
    assert OpenTags(b) == FootnoteOpenTags(a);
    assert CloseTags(b) == FootnoteCloseTags(a);
    assert SegmentBody(part) == FootnoteBody(part);
  }

  /** Links are not detected in footnotes: a plain link segment stays bare
      text there, while the body-text renderer makes it an anchor. */
  lemma FootnoteLinkStaysText(part: string, underline: bool)
    requires !IsReference(part) && IsLink(part)
    ensures FootnoteSegment(part, Attrs(false, false, underline)) == part
    ensures StyledSegment(part, Attrs(false, false, false)) == Anchor(part)
  {
    var a, b := Attrs(false, false, underline), Attrs(false, false, false);
    assert FootnoteOpenTags(a) == [] && FootnoteCloseTags(a) == [];
    assert FootnoteBody(part) == part;
    EmptyAround(FootnoteOpenTags(a), part, FootnoteCloseTags(a));
    assert OpenTags(b) == [] && CloseTags(b) == [];
    assert SegmentBody(part) == Anchor(part);
    EmptyAround(OpenTags(b), Anchor(part), CloseTags(b));
  }

  // ----- the shared loop index --------------------------------------------------

  /** A paragraph with a single text child renders that child whole. */
  lemma SingleTextChild(h: Heading, run: TextRun)
    ensures FootnoteItemHtml(Paragraph(h, [Text(run)])) == Ok(FootnoteRuns(run, |run.breaks|))
  {
    var children := [Text(run)];
    FootnoteWalkStep(children, 0, {});
    assert {} + {0} <= Indices(1);
    assert FootnoteWalk(children, |run.breaks| + 1, {} + {0}) == Ok("");
    assert FootnoteRuns(run, |run.breaks|) + "" == FootnoteRuns(run, |run.breaks|);
  }

  /** After a first child with one breakpoint the loop resumes at index 2,
      so the second child is never looked at (it need not even be text), and
      a third child with two or more breakpoints ends the loop. */
  lemma SecondChildSkipped(h: Heading, first: TextRun, second: Node, third: TextRun)
    requires |first.breaks| == 1 && |third.breaks| >= 2
    ensures FootnoteItemHtml(Paragraph(h, [Text(first), second, Text(third)]))
            == Ok(FootnoteRuns(first, 1) + FootnoteRuns(third, |third.breaks|))
  {
    var children := [Text(first), second, Text(third)];
    assert {} + {0} + {2} <= Indices(3);
    FootnoteWalkStep(children, 0, {});
    FootnoteWalkStep(children, 2, {} + {0});
    assert FootnoteWalk(children, |third.breaks| + 1, {} + {0} + {2}) == Ok("");
    PrependTwice(FootnoteRuns(first, 1), FootnoteRuns(third, |third.breaks|), Ok(""));
    assert FootnoteRuns(first, 1) + FootnoteRuns(third, |third.breaks|) + ""
           == FootnoteRuns(first, 1) + FootnoteRuns(third, |third.breaks|);
  }

  /** When the child at index 2 has exactly one breakpoint the loop index
      comes back to 2 after it, and the loop never ends. */
  lemma LoopNeverEnds(h: Heading, first: TextRun, second: Node, third: TextRun)
    requires |first.breaks| == 1 && |third.breaks| == 1
    ensures FootnoteItemHtml(Paragraph(h, [Text(first), second, Text(third)])) == Err(Diverges)
  {
    var children := [Text(first), second, Text(third)];
    assert {} + {0} + {2} <= Indices(3);
    FootnoteWalkStep(children, 0, {});
    FootnoteWalkStep(children, 2, {} + {0});
    assert 2 in {} + {0} + {2};
    assert FootnoteWalk(children, 2, {} + {0} + {2}) == Err(Diverges);
  }

  lemma DropEmptyHeads(e1: string, x: string, body: string, e2: string, y: string)
    requires e1 == [] && e2 == []
    ensures (e1 + x) + body + (e2 + y) == x + body + y
  {
  }

  /** The one segment of a bold run, rendered as a footnote segment. */
  lemma BoldSegment(part: string)
    requires !IsReference(part)
    ensures FootnoteSegment(part, Attrs(true, false, false)) == "<strong>" + part + "</strong>"
  {
    var a := Attrs(true, false, false);
    assert FootnoteOpenTags(a) == "" + "<strong>";
    assert FootnoteCloseTags(a) == "" + "</strong>";
    DropEmptyHeads("", "<strong>", part, "", "</strong>");
  }

  /** The paragraph of a footnote holding one bold run. */
  lemma BoldParagraph()
    ensures var run := TextRun("see note", [Breakpoint(0, Attrs(true, false, false))], true, false);
            FootnoteItemHtml(Paragraph(Normal, [Text(run)])) == Ok("<strong>" + "see note" + "</strong>")
  {
    var run := TextRun("see note", [Breakpoint(0, Attrs(true, false, false))], true, false);
    var part := SegmentText(run, 0);
    SingleTextChild(Normal, run);
    assert part == "see note"[0..8] == "see note";
    assert !IsReference(part) by { assert part[0] != '['; }
    BoldSegment(part);
    var seg := FootnoteSegment(part, Attrs(true, false, false));
    assert FootnoteRuns(run, 1) == "" + seg;
    assert "" + seg == seg;
  }

  /** A footnote of one paragraph is that paragraph between the tags. */
  lemma OneParagraph(p: Node, html: string)
    requires FootnoteItemHtml(p) == Ok(html)
    ensures FootnoteHtml([p]) == Ok("<fn>" + html + "</fn>")
  {
    FootnoteFraming([p], [html]);
    assert Concat([html]) == "" + html == html;
  }

  /** A footnote holding one bold run. */
  lemma BoldFootnote()
    ensures var run := TextRun("see note", [Breakpoint(0, Attrs(true, false, false))], true, false);
            FootnoteHtml([Paragraph(Normal, [Text(run)])]) == Ok("<fn>" + ("<strong>" + "see note" + "</strong>") + "</fn>")
  {
    var run := TextRun("see note", [Breakpoint(0, Attrs(true, false, false))], true, false);
    BoldParagraph();
    OneParagraph(Paragraph(Normal, [Text(run)]), "<strong>" + "see note" + "</strong>");
  }
}
