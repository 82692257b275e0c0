/** What one depth-first walk of processItem does to the traversal state:
    every list item it visits adds exactly one to its group's counter, and
    every inline image it visits is appended to the registry, in document
    order, under a name no other image in the registry has. */
module Traversal {
  import opened Strings
  import opened Document
  import opened Render

  // ----- list counters --------------------------------------------------------

  /** How many list items with dictionary key `key` processItem visits in
      `n` (footnote bodies are rendered without processItem, so their
      contents do not count). */
  function CountKey(n: Node, key: string): nat
    decreases n
  {
    match n
    case ListItem(_, listId, level, _, _, children) =>
      (if ListKey(listId, level) == key then 1 else 0) + CountKeys(children, key)
    case Paragraph(_, children) => CountKeys(children, key)
    case Other(children) => CountKeys(children, key)
    case _ => 0
  }

  function CountKeys(nodes: seq<Node>, key: string): nat
    decreases nodes
  {
    if nodes == [] then 0 else CountKeys(nodes[..|nodes| - 1], key) + CountKey(nodes[|nodes| - 1], key)
  }

  /** After rendering `n`, the counter of every key has grown by the number
      of list items of that key in `n`; a missing key counts as zero. */
  lemma {:induction false} ItemCounters(n: Node, st: State, key: string)
    requires RenderItem(n, st).Ok?
    ensures Counter(RenderItem(n, st).value.state.counters, key) == Counter(st.counters, key) + CountKey(n, key)
    decreases n
  {
    match n
    case ListItem(_, listId, level, _, _, children) =>
      var k := ListKey(listId, level);
      SeqCounters(children, st.(counters := st.counters[k := Counter(st.counters, k) + 1]), key);
      CounterBump(st.counters, k, key);
    case Paragraph(_, children) =>
      if |children| > 0 {
        SeqCounters(children, st, key);
      }
    case Other(children) =>
      SeqCounters(children, st, key);
    case Text(_) =>
    case InlineImage(_, _) =>
    case Footnote(_) =>
  }

  /** Bumping the counter of `k` moves the counter of `key` by one exactly
      when the two keys are the same. */
  lemma CounterBump(counters: map<string, nat>, k: string, key: string)
    ensures Counter(counters[k := Counter(counters, k) + 1], key)
            == Counter(counters, key) + (if k == key then 1 else 0)
  {
  }

  lemma {:induction false} SeqCounters(nodes: seq<Node>, st: State, key: string)
    requires RenderSeq(nodes, st).Ok?
    ensures Counter(RenderSeq(nodes, st).value.state.counters, key) == Counter(st.counters, key) + CountKeys(nodes, key)
    decreases nodes
  {
    if nodes != [] {
      var init := nodes[..|nodes| - 1];
      SeqCounters(init, st, key);
      ItemCounters(nodes[|nodes| - 1], RenderSeq(init, st).value.state, key);
    }
  }

  // ----- the image registry ---------------------------------------------------

  /** The content type and payload of every inline image processItem visits
      in `n`, in document order. */
  function ImagesIn(n: Node): seq<(string, seq<byte>)>
    decreases n
  {
    match n
    case InlineImage(contentType, blob) => [(contentType, blob)]
    case ListItem(_, _, _, _, _, children) => ImagesInSeq(children)
    case Paragraph(_, children) => ImagesInSeq(children)
    case Other(children) => ImagesInSeq(children)
    case _ => []
  }

  function ImagesInSeq(nodes: seq<Node>): seq<(string, seq<byte>)>
    decreases nodes
  {
    if nodes == [] then [] else ImagesInSeq(nodes[..|nodes| - 1]) + ImagesIn(nodes[|nodes| - 1])
  }

  /** The content type and payload of each registry entry. */
  function Payloads(entries: seq<ImageEntry>): (r: seq<(string, seq<byte>)>)
    ensures |r| == |entries|
  {
    if entries == [] then [] else Payloads(entries[..|entries| - 1]) + [(entries[|entries| - 1].contentType, entries[|entries| - 1].blob)]
  }

  lemma {:induction false} PayloadsAppend(a: seq<ImageEntry>, b: seq<ImageEntry>)
    ensures Payloads(a + b) == Payloads(a) + Payloads(b)
    decreases |b|
  {
    if b == [] {
      assert a + b == a;
    } else {
      var init := b[..|b| - 1];
      assert (a + b)[..|a + b| - 1] == a + init;
      PayloadsAppend(a, init);
    }
  }

  /** Every entry is named after its position in the registry and the
      extension its content type calls for. */
  ghost predicate WellNamed(images: seq<ImageEntry>)
  {
    forall j :: 0 <= j < |images| ==>
      ImageExtension(images[j].contentType).Some?
      && images[j].name == ImageName(j, ImageExtension(images[j].contentType).value)
  }

  /** Rendering `n` keeps the registry it started from and appends the
      images of `n`, in document order. */
  lemma {:induction false} ItemImages(n: Node, st: State)
    requires RenderItem(n, st).Ok?
    ensures var after := RenderItem(n, st).value.state.images;
            |st.images| <= |after| && after[..|st.images|] == st.images
            && Payloads(after[|st.images|..]) == ImagesIn(n)
    decreases n
  {
    match n
    case ListItem(_, listId, level, _, _, children) =>
      var k := ListKey(listId, level);
      SeqImages(children, st.(counters := st.counters[k := Counter(st.counters, k) + 1]));
    case Paragraph(_, children) =>
      if |children| > 0 {
        SeqImages(children, st);
      } else {
        NothingRegistered(st.images);
      }
    case Other(children) =>
      SeqImages(children, st);
    case Text(_) =>
      NothingRegistered(st.images);
    case InlineImage(contentType, blob) =>
      var ext := ImageExtension(contentType).value;
      OneRegistered(st.images, ImageEntry(blob, contentType, ImageName(|st.images|, ext)));
    case Footnote(_) =>
      NothingRegistered(st.images);
  }

  /** A registry left as it was extends itself by nothing. */
  lemma NothingRegistered(images: seq<ImageEntry>)
    ensures images[..|images|] == images && Payloads(images[|images|..]) == []
  {
    assert images[|images|..] == [];
  }

  /** A registry with one entry appended extends the old one by that entry's
      payload. */
  lemma OneRegistered(images: seq<ImageEntry>, e: ImageEntry)
    ensures var after := images + [e];
            after[..|images|] == images && Payloads(after[|images|..]) == [(e.contentType, e.blob)]
  {
    var after := images + [e];
    assert after[|images|..] == [e];
    assert Payloads([e]) == Payloads([]) + [(e.contentType, e.blob)];
  }

  lemma {:induction false} SeqImages(nodes: seq<Node>, st: State)
    requires RenderSeq(nodes, st).Ok?
    ensures var after := RenderSeq(nodes, st).value.state.images;
            |st.images| <= |after| && after[..|st.images|] == st.images
            && Payloads(after[|st.images|..]) == ImagesInSeq(nodes)
    decreases nodes
  {
    if nodes == [] {
      assert st.images[|st.images|..] == [];
    } else {
      var init := nodes[..|nodes| - 1];
      SeqImages(init, st);
      var mid := RenderSeq(init, st).value.state;
      ItemImages(nodes[|nodes| - 1], mid);
      var after := RenderSeq(nodes, st).value.state.images;
      ExtendTwice(st.images, mid.images, after);
      PayloadsAppend(mid.images[|st.images|..], after[|mid.images|..]);
    }
  }

  /** Two registries each extending the one before: the last extends the
      first, by what the second added and then what the third added. */
  lemma ExtendTwice(first: seq<ImageEntry>, mid: seq<ImageEntry>, last: seq<ImageEntry>)
    requires |first| <= |mid| && mid[..|first|] == first
    requires |mid| <= |last| && last[..|mid|] == mid
    ensures |first| <= |last| && last[..|first|] == first
    ensures last[|first|..] == mid[|first|..] + last[|mid|..]
  {
    assert last[..|first|] == last[..|mid|][..|first|];
  }

  /** Rendering `n` keeps every registry name tied to its position. */
  lemma {:induction false} ItemNames(n: Node, st: State)
    requires RenderItem(n, st).Ok? && WellNamed(st.images)
    ensures WellNamed(RenderItem(n, st).value.state.images)
    decreases n
  {
    match n
    case ListItem(_, listId, level, _, _, children) =>
      var k := ListKey(listId, level);
      SeqNames(children, st.(counters := st.counters[k := Counter(st.counters, k) + 1]));
    case Paragraph(_, children) =>
      if |children| > 0 {
        SeqNames(children, st);
      }
    case Other(children) =>
      SeqNames(children, st);
    case Text(_) =>
    case InlineImage(contentType, blob) =>
      RegisterKeepsNames(st.images, blob, contentType);
    case Footnote(_) =>
  }

  /** Registering an image under processImage's name keeps a well-named
      registry well named. */
  lemma RegisterKeepsNames(images: seq<ImageEntry>, blob: seq<byte>, contentType: string)
    requires WellNamed(images) && ImageExtension(contentType).Some?
    ensures WellNamed(images + [ImageEntry(blob, contentType, ImageName(|images|, ImageExtension(contentType).value))])
  {
  }

  lemma {:induction false} SeqNames(nodes: seq<Node>, st: State)
    requires RenderSeq(nodes, st).Ok? && WellNamed(st.images)
    ensures WellNamed(RenderSeq(nodes, st).value.state.images)
    decreases nodes
  {
    if nodes != [] {
      var init := nodes[..|nodes| - 1];
      SeqNames(init, st);
      ItemNames(nodes[|nodes| - 1], RenderSeq(init, st).value.state);
    }
  }

  /** Names in a well-named registry are pairwise distinct, so every
      `cid:` reference in the HTML designates exactly one attachment. */
  lemma ImageNamesDistinct(images: seq<ImageEntry>, i: nat, j: nat)
    requires WellNamed(images) && i < |images| && j < |images| && i != j
    ensures images[i].name != images[j].name
  {
    if images[i].name == images[j].name {
      var di, dj := Decimal(i), Decimal(j);
      var ei, ej := ImageExtension(images[i].contentType).value, ImageExtension(images[j].contentType).value;
      var s := images[i].name;
      assert s == "Image_" + di + ei && s == "Image_" + dj + ej;
      assert |di| == |dj|;
      assert s[6..6 + |di|] == di;
      assert s[6..6 + |dj|] == dj;
      DecimalInjective(i, j);
    }
  }

  // ----- the whole conversion -------------------------------------------------

  /** A successful conversion attaches exactly the document's inline images,
      in document order, each under a distinct name `Image_<k><ext>`. */
  lemma ConvertImages(body: seq<Node>)
    requires Convert(body).Ok?
    ensures Payloads(Convert(body).value.images) == ImagesInSeq(body)
    ensures WellNamed(Convert(body).value.images)
    ensures forall i, j :: 0 <= i < j < |Convert(body).value.images| ==>
              Convert(body).value.images[i].name != Convert(body).value.images[j].name
  {
    SeqImages(body, EmptyState);
    SeqNames(body, EmptyState);
    var images := Convert(body).value.images;
    assert images[0..] == images;
    forall i, j | 0 <= i < j < |images|
      ensures images[i].name != images[j].name
    {
      ImageNamesDistinct(images, i, j);
    }
  }

  /** At the end of a successful conversion the counter of every group is
      the number of its items in the body. */
  lemma ConvertCounters(body: seq<Node>, key: string)
    requires RenderSeq(body, EmptyState).Ok?
    ensures Counter(RenderSeq(body, EmptyState).value.state.counters, key) == CountKeys(body, key)
  {
    SeqCounters(body, EmptyState, key);
  }
}
