/** What processItem promises for paragraphs and for the containers it only
    walks through. */
module Blocks {
  import opened Strings
  import opened Document
  import opened Render

  /** The heading level a paragraph setting stands for; 0 for normal text,
      title and subtitle. */
  function HeadingLevel(h: Heading): (n: nat)
    ensures n <= 6
  {
    match h
    case Heading1 => 1
    case Heading2 => 2
    case Heading3 => 3
    case Heading4 => 4
    case Heading5 => 5
    case Heading6 => 6
    case _ => 0
  }

  /** A heading of level N opens `<hN>`; every other paragraph opens `<p>`;
      the closing tag mirrors the opening one. */
  lemma HeadingTagsByLevel(h: Heading)
    ensures HeadingLevel(h) == 0 ==> HeadingTags(h) == Tags("<p>", "</p>")
    ensures HeadingLevel(h) > 0 ==>
              HeadingTags(h) == Tags("<h" + [DigitChar(HeadingLevel(h))] + ">", "</h" + [DigitChar(HeadingLevel(h))] + ">")
  {
  }

  /** A paragraph without children renders as nothing whatever its heading;
      otherwise its rendering starts with its opening tag, ends with the
      matching closing tag, and fails exactly when one of its children
      fails. */
  lemma ParagraphFraming(h: Heading, children: seq<Node>, st: State)
    ensures children == [] ==> RenderItem(Paragraph(h, children), st) == Ok(Rendered("", st))
    ensures children != [] && RenderSeq(children, st).Err? ==>
              RenderItem(Paragraph(h, children), st) == Err(RenderSeq(children, st).error)
    ensures children != [] && RenderSeq(children, st).Ok? ==>
              var r := RenderItem(Paragraph(h, children), st);
              var t := HeadingTags(h);
              r.Ok? && StartsWith(r.value.html, t.prefix) && EndsWith(r.value.html, t.suffix)
              && t.suffix == "</" + t.prefix[1..]
              && r.value.state == RenderSeq(children, st).value.state
  {
    if children != [] && RenderSeq(children, st).Ok? {
      var t := HeadingTags(h);
      var body := Concat(RenderSeq(children, st).value.parts);
      var html := t.prefix + body + t.suffix;
      assert html[..|t.prefix|] == t.prefix;
      assert html[|html| - |t.suffix|..] == t.suffix;
    }
  }

  /** Any other element is transparent: its children's renderings are
      emitted one after the other with nothing around them. */
  lemma OtherIsTransparent(children: seq<Node>, st: State)
    requires RenderSeq(children, st).Ok?
    ensures RenderItem(Other(children), st)
            == Ok(Rendered(Concat(RenderSeq(children, st).value.parts), RenderSeq(children, st).value.state))
  {
    var body := Concat(RenderSeq(children, st).value.parts);
    assert "" + body + "" == body;
  }

  /** A sibling sequence of one node renders to that node's fragment. */
  lemma SingleSibling(n: Node, st: State, r: Rendered)
    requires RenderItem(n, st) == Ok(r)
    ensures RenderSeq([n], st) == Ok(RenderedSeq([r.html], r.state))
  {
    assert [n][..0] == [] && [n][0] == n;
    assert [] + [r.html] == [r.html];
  }

  /** A normal paragraph with a single child is that child between `<p>`
      and `</p>`. */
  lemma SingleChildParagraph(n: Node, st: State, r: Rendered)
    requires RenderItem(n, st) == Ok(r)
    ensures RenderItem(Paragraph(Normal, [n]), st) == Ok(Rendered("<p>" + r.html + "</p>", r.state))
  {
    SingleSibling(n, st, r);
    assert HeadingTags(Normal) == Tags("<p>", "</p>");
    assert [r.html][..0] == [];
    assert Concat([r.html]) == "" + r.html == r.html;
  }

  /** A body with a single child converts to that child's HTML and the
      images it registered. */
  lemma SingleChildBody(n: Node, r: Rendered)
    requires RenderItem(n, EmptyState) == Ok(r)
    ensures Convert([n]) == Ok(Conversion(r.html, r.state.images))
  {
    SingleSibling(n, EmptyState, r);
    assert Join([r.html], "\r") == r.html;
  }
}
