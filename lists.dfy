/** The list grouper of processItem: list items are visited one at a time,
    and the markup of a whole list emerges from a counter per group
    (`listId + '.' + nestingLevel`) and a look at the next sibling. */
module ListGroups {
  import opened Strings
  import opened Document
  import opened Render
  import opened Traversal

  /** How many characters follow the last `.` of `s`. */
  function AfterLastDot(s: string): (r: nat)
    ensures r <= |s|
  {
    if s == [] || s[|s| - 1] == '.' then 0 else AfterLastDot(s[..|s| - 1]) + 1
  }

  lemma {:induction false} AfterLastDotKey(id: string, d: string)
    requires forall k :: 0 <= k < |d| ==> IsDigit(d[k])
    ensures AfterLastDot(id + "." + d) == |d|
    decreases |d|
  {
    var s := id + "." + d;
    if d == [] {
      assert s[|s| - 1] == '.';
    } else {
      assert s[|s| - 1] == d[|d| - 1];
      assert s[..|s| - 1] == id + "." + d[..|d| - 1];
      AfterLastDotKey(id, d[..|d| - 1]);
    }
  }

  /** The dictionary key tells groups apart: two groups share a key only
      when they have the same list id and the same nesting level, even when
      list ids themselves contain dots. */
  lemma ListKeyInjective(id1: string, level1: nat, id2: string, level2: nat)
    requires ListKey(id1, level1) == ListKey(id2, level2)
    ensures id1 == id2 && level1 == level2
  {
    var s := ListKey(id1, level1);
    var d1, d2 := Decimal(level1), Decimal(level2);
    AfterLastDotKey(id1, d1);
    AfterLastDotKey(id2, d2);
    assert |d1| == |d2|;
    assert d1 == s[|s| - |d1|..] == d2;
    assert id1 == s[..|s| - |d1| - 1] == id2;
    DecimalInjective(level1, level2);
  }

  /** The tags of a list item, by its group's counter and glyph:
      the first item of a group opens `<ul>` (bullet glyphs) or `<ol>`
      (every other glyph); a later item opens only `<li>`. The suffix ends
      with the group's closing tag exactly when the boundary rule fires or
      the item is the first of a bullet group. */
  lemma ListTagsTable(g: Glyph, counter: nat, closes: bool)
    ensures var t := ListTags(g, counter, closes);
            (counter == 0 && IsBulletGlyph(g) ==> t.prefix == "<ul><li>" && StartsWith(t.suffix, "</li></ul>"))
            && (counter == 0 && !IsBulletGlyph(g) ==> t.prefix == "<ol><li>" && StartsWith(t.suffix, "</li>"))
            && (counter > 0 ==> t.prefix == "<li>" && StartsWith(t.suffix, "</li>"))
            && (EndsWith(t.suffix, GroupClose(g)) <==> closes || (counter == 0 && IsBulletGlyph(g)))
            && (t.suffix == "</li>" <==> !closes && !(counter == 0 && IsBulletGlyph(g)))
  {
    var t := ListTags(g, counter, closes);
    var c := GroupClose(g);
    var bullet := counter == 0 && IsBulletGlyph(g);
    var base := if bullet then "</li>" + "</ul>" else "</li>";
    assert t.suffix == base + (if closes then c else "");
    StartsWithLi(base, if closes then c else "");
    if closes {
      EndsWithConcat(base, c);
    } else if bullet {
      assert t.suffix == "</li>" + "</ul>" && c == "</ul>";
      EndsWithConcat("</li>", c);
    } else {
      assert t.suffix == "</li>";
      LiIsNotClose(g);
    }
  }

  /** A suffix built on `</li>` starts with `</li>`. */
  lemma StartsWithLi(base: string, extra: string)
    requires base == "</li>" + "</ul>" || base == "</li>"
    ensures StartsWith(base + extra, "</li>")
  {
    assert (base + extra)[..5] == base[..5] == "</li>";
  }

  lemma LiIsNotClose(g: Glyph)
    ensures !EndsWith("</li>", GroupClose(g))
  {
    var c := GroupClose(g);
    assert |c| == 5 && c[2] != 'l';
    assert "</li>"[2] == 'l' && "</li>"[0..] == "</li>";
  }

  lemma EndsWithConcat(a: string, b: string)
    requires |a| >= 5 && |b| >= 1
    ensures EndsWith(a + b, b) && a + b != "</li>"
  {
    assert (a + b)[|a + b| - |b|..] == b;
    assert |"</li>"| == 5;
  }

  /** No list item anywhere in `nodes`. */
  ghost predicate NoListItems(nodes: seq<Node>)
  {
    forall key :: CountKeys(nodes, key) == 0
  }

  /** Rendering a list item whose content holds no list item adds one to the
      counter of its own group and leaves every other group's counter as it
      was; a group seen for the first time starts from zero. */
  lemma ListItemCounts(item: Node, st: State)
    requires item.ListItem? && NoListItems(item.children)
    requires RenderItem(item, st).Ok?
    ensures var after := RenderItem(item, st).value.state.counters;
            forall listId: string, level: nat ::
              Counter(after, ListKey(listId, level))
              == Counter(st.counters, ListKey(listId, level))
                 + (if listId == item.listId && level == item.nestingLevel then 1 else 0)
  {
    var after := RenderItem(item, st).value.state.counters;
    forall listId: string, level: nat
      ensures Counter(after, ListKey(listId, level))
              == Counter(st.counters, ListKey(listId, level))
                 + (if listId == item.listId && level == item.nestingLevel then 1 else 0)
    {
      ItemCounters(item, st, ListKey(listId, level));
      assert CountKeys(item.children, ListKey(listId, level)) == 0;
      if ListKey(listId, level) == ListKey(item.listId, item.nestingLevel) {
        ListKeyInjective(listId, level, item.listId, item.nestingLevel);
      }
    }
  }

  // ----- whole lists ----------------------------------------------------------

  ghost predicate TextOnly(nodes: seq<Node>)
  {
    forall k :: 0 <= k < |nodes| ==> nodes[k].Text?
  }

  /** The HTML of a sequence of text nodes. */
  function TextsHtml(nodes: seq<Node>): string
  {
    if nodes == [] then ""
    else TextsHtml(nodes[..|nodes| - 1]) + (match nodes[|nodes| - 1] case Text(run) => TextHtml(run) case _ => "")
  }

  lemma {:induction false} TextChildren(nodes: seq<Node>, st: State)
    requires TextOnly(nodes)
    ensures RenderSeq(nodes, st).Ok?
    ensures RenderSeq(nodes, st).value.state == st
    ensures Concat(RenderSeq(nodes, st).value.parts) == TextsHtml(nodes)
  {
    if nodes != [] {
      TextChildren(nodes[..|nodes| - 1], st);
    }
  }

  /** What the children of list item `item` render to when the item is
      reached in state `st`. */
  ghost function ItemBody(item: Node, st: State): string
    requires item.ListItem? && RenderItem(item, st).Ok?
  {
    Concat(RenderSeq(item.children, Bumped(st, ListKey(item.listId, item.nestingLevel))).value.parts)
  }

  /** One list element around an item's body. */
  function Li(body: string): string
  {
    "<li>" + body + "</li>"
  }

  function LiConcat(bodies: seq<string>): string
  {
    if bodies == [] then "" else LiConcat(bodies[..|bodies| - 1]) + Li(bodies[|bodies| - 1])
  }

  /** A list item is its tags around what its children render to; its
      group's counter is raised once for the item itself and once for every
      item of the same group among its descendants. */
  lemma ListItemHtml(item: Node, st: State)
    requires item.ListItem? && RenderItem(item, st).Ok?
    ensures var key := ListKey(item.listId, item.nestingLevel);
            var t := ListTags(item.glyph, Counter(st.counters, key), ClosesGroup(item.atDocumentEnd, item.next));
            RenderItem(item, st).value.html == t.prefix + ItemBody(item, st) + t.suffix
            && Counter(RenderItem(item, st).value.state.counters, key)
               == Counter(st.counters, key) + 1 + CountKeys(item.children, key)
  {
    ItemCounters(item, st, ListKey(item.listId, item.nestingLevel));
  }

  /** A list item holding only text renders from every state, and its body
      is the HTML of that text. */
  lemma TextItemBody(item: Node, st: State)
    requires item.ListItem? && TextOnly(item.children)
    ensures RenderItem(item, st).Ok? && ItemBody(item, st) == TextsHtml(item.children)
  {
    var key := ListKey(item.listId, item.nestingLevel);
    ListItemUnfold(item, st);
    TextChildren(item.children, Bumped(st, key));
  }

  /** The list-item case of the dispatcher, with the children's starting
      state named. */
  lemma ListItemUnfold(item: Node, st: State)
    requires item.ListItem?
    ensures var key := ListKey(item.listId, item.nestingLevel);
            RenderItem(item, st)
            == Wrap(ListTags(item.glyph, Counter(st.counters, key), ClosesGroup(item.atDocumentEnd, item.next)),
                    RenderSeq(item.children, Bumped(st, key)))
  {
  }

  ghost predicate AllListItems(items: seq<Node>)
  {
    forall k :: 0 <= k < |items| ==> items[k].ListItem?
  }

  /** The bodies of a sequence of sibling list items, each rendered from the
      state the siblings before it left. */
  ghost function RunBodies(items: seq<Node>, st: State): (r: seq<string>)
    requires AllListItems(items) && RenderSeq(items, st).Ok?
    ensures |r| == |items|
  {
    if items == [] then []
    else
      var init := items[..|items| - 1];
      RunBodies(init, st) + [ItemBody(items[|items| - 1], RenderSeq(init, st).value.state)]
  }

  /** A run of sibling list items of one group: no item holds an item of
      the same group, and the boundary rule fires on the last item and on
      no other. */
  ghost predicate ListRun(items: seq<Node>, listId: string, level: nat, bullet: bool)
  {
    |items| >= 1 && AllListItems(items)
    && forall k :: 0 <= k < |items| ==>
         items[k].listId == listId && items[k].nestingLevel == level
         && IsBulletGlyph(items[k].glyph) == bullet
         && CountKeys(items[k].children, ListKey(listId, level)) == 0
         && (ClosesGroup(items[k].atDocumentEnd, items[k].next) <==> k == |items| - 1)
  }

  /** The opening of a run: the list tag, the first item, and the early
      `</ul>` of a bullet group. */
  function RunHead(bodies: seq<string>, bullet: bool): string
    requires |bodies| >= 1
  {
    (if bullet then "<ul>" else "<ol>") + Li(bodies[0]) + (if bullet then "</ul>" else "")
  }

  /** Rendering one more sibling appends its HTML and continues from the
      state the earlier siblings left. */
  lemma RenderSeqSnoc(nodes: seq<Node>, last: Node, st: State)
    requires RenderSeq(nodes, st).Ok? && RenderItem(last, RenderSeq(nodes, st).value.state).Ok?
    ensures var rs := RenderSeq(nodes, st).value;
            var r := RenderItem(last, rs.state).value;
            RenderSeq(nodes + [last], st) == Ok(RenderedSeq(rs.parts + [r.html], r.state))
  {
    assert (nodes + [last])[..|nodes|] == nodes;
  }

  /** A sibling sequence that renders renders in each of its parts. */
  lemma SnocRenders(nodes: seq<Node>, last: Node, st: State)
    requires RenderSeq(nodes + [last], st).Ok?
    ensures RenderSeq(nodes, st).Ok? && RenderItem(last, RenderSeq(nodes, st).value.state).Ok?
  {
    assert (nodes + [last])[..|nodes|] == nodes;
  }

  lemma RunBodiesSnoc(nodes: seq<Node>, last: Node, st: State)
    requires AllListItems(nodes) && last.ListItem?
    requires RenderSeq(nodes, st).Ok? && RenderItem(last, RenderSeq(nodes, st).value.state).Ok?
    ensures AllListItems(nodes + [last]) && RenderSeq(nodes + [last], st).Ok?
    ensures RunBodies(nodes + [last], st) == RunBodies(nodes, st) + [ItemBody(last, RenderSeq(nodes, st).value.state)]
  {
    assert (nodes + [last])[..|nodes|] == nodes;
    RenderSeqSnoc(nodes, last, st);
  }

  lemma AllListItemsTake(items: seq<Node>, m: nat)
    requires AllListItems(items) && m <= |items|
    ensures AllListItems(items[..m])
  {
  }

  lemma ConcatSnoc(parts: seq<string>, last: string)
    ensures Concat(parts + [last]) == Concat(parts) + last
  {
    assert (parts + [last])[..|parts|] == parts;
  }

  /** One more item of a group, rendered after siblings that left the
      group's counter at `k`. */
  lemma ItemAfter(pre: seq<Node>, item: Node, st: State, k: nat)
    requires item.ListItem? && CountKeys(item.children, ListKey(item.listId, item.nestingLevel)) == 0
    requires RenderSeq(pre, st).Ok? && RenderItem(item, RenderSeq(pre, st).value.state).Ok?
    requires Counter(RenderSeq(pre, st).value.state.counters, ListKey(item.listId, item.nestingLevel)) == k
    ensures RenderSeq(pre + [item], st).Ok?
    ensures var before := RenderSeq(pre, st).value;
            var after := RenderSeq(pre + [item], st).value;
            var t := ListTags(item.glyph, k, ClosesGroup(item.atDocumentEnd, item.next));
            Counter(after.state.counters, ListKey(item.listId, item.nestingLevel)) == k + 1
            && Concat(after.parts) == Concat(before.parts) + (t.prefix + ItemBody(item, before.state) + t.suffix)
  {
    var rs := RenderSeq(pre, st).value;
    ListItemHtml(item, rs.state);
    RenderSeqSnoc(pre, item, st);
    ConcatSnoc(rs.parts, RenderItem(item, rs.state).value.html);
  }

  /** The tags of the first item of a group, taken apart. */
  lemma FirstTags(g: Glyph, closes: bool)
    ensures var t := ListTags(g, 0, closes);
            t.prefix == (if IsBulletGlyph(g) then "<ul>" else "<ol>") + "<li>"
            && t.suffix == "</li>" + (if IsBulletGlyph(g) then "</ul>" else "") + (if closes then GroupClose(g) else "")
  {
  }

  /** The tags of a later item of a group, taken apart. */
  lemma LaterTags(g: Glyph, counter: nat, closes: bool)
    requires counter > 0
    ensures var t := ListTags(g, counter, closes);
            t.prefix == "<li>" && t.suffix == "</li>" + (if closes then GroupClose(g) else "")
  {
  }

  lemma RegroupFirst(pre: string, head: string, li: string, body: string, endLi: string, early: string, empty: string, closing: string)
    requires pre == [] && empty == []
    ensures pre + (head + li + body + (endLi + early + closing)) == head + (li + body + endLi) + early + empty + closing
  {
  }

  lemma RegroupNext(c: string, head: string, rest: string, empty: string,
                    li: string, body: string, endLi: string, closing: string)
    requires empty == [] && c == head + rest + empty
    ensures c + (li + body + (endLi + closing)) == head + (rest + (li + body + endLi)) + closing
  {
  }

  /** What the first `m` items of a run render to: the opening tag, the first
      item, the early `</ul>` of a bullet group, the remaining items, and the
      closing tag once the last item is rendered. */
  ghost predicate RunPrefixRendered(items: seq<Node>, listId: string, level: nat, bullet: bool, st: State, m: nat)
    requires 1 <= m <= |items| && AllListItems(items)
  {
    RenderSeq(items[..m], st).Ok?
    && var rs := RenderSeq(items[..m], st).value;
       var bodies := RunBodies(items[..m], st);
       Counter(rs.state.counters, ListKey(listId, level)) == m
       && Concat(rs.parts)
          == RunHead(bodies, bullet) + LiConcat(bodies[1..]) + (if m == |items| then (if bullet then "</ul>" else "</ol>") else "")
  }

  lemma {:induction false} RunPrefix(items: seq<Node>, listId: string, level: nat, bullet: bool, st: State, m: nat)
    requires ListRun(items, listId, level, bullet)
    requires Counter(st.counters, ListKey(listId, level)) == 0
    requires 1 <= m <= |items| && RenderSeq(items[..m], st).Ok?
    ensures RunPrefixRendered(items, listId, level, bullet, st, m)
    decreases m
  {
    if m == 1 {
      RunFirst(items, listId, level, bullet, st);
    } else {
      TakeSnoc(items, m);
      SnocRenders(items[..m - 1], items[m - 1], st);
      RunPrefix(items, listId, level, bullet, st, m - 1);
      RunNext(items, listId, level, bullet, st, m);
    }
  }

  lemma RunFirst(items: seq<Node>, listId: string, level: nat, bullet: bool, st: State)
    requires ListRun(items, listId, level, bullet)
    requires Counter(st.counters, ListKey(listId, level)) == 0
    requires RenderSeq(items[..1], st).Ok?
    ensures RunPrefixRendered(items, listId, level, bullet, st, 1)
  {
    var item := items[0];
    var closing := if 1 == |items| then (if bullet then "</ul>" else "</ol>") else "";
    RunMember(items, listId, level, bullet, 0);
    assert items[..1] == [] + [item];
    SnocRenders([], item, st);
    RunBodiesSnoc([], item, st);
    var bodies := RunBodies(items[..1], st);
    assert bodies == [ItemBody(item, st)];
    assert bodies[1..] == [];
    ItemAfter([], item, st, 0);
    FirstTags(item.glyph, 1 == |items|);
    RegroupFirst(Concat([]), if bullet then "<ul>" else "<ol>", "<li>", bodies[0], "</li>",
                 if bullet then "</ul>" else "", LiConcat(bodies[1..]), closing);
  }

  lemma RunNext(items: seq<Node>, listId: string, level: nat, bullet: bool, st: State, m: nat)
    requires ListRun(items, listId, level, bullet)
    requires 2 <= m <= |items| && RenderSeq(items[..m], st).Ok?
    requires RunPrefixRendered(items, listId, level, bullet, st, m - 1)
    ensures RunPrefixRendered(items, listId, level, bullet, st, m)
  {
    var item := items[m - 1];
    var pre := items[..m - 1];
    RunMember(items, listId, level, bullet, m - 1);
    TakeSnoc(items, m);
    SnocRenders(pre, item, st);
    AllListItemsTake(items, m - 1);
    PrefixStep(pre, item, st, bullet, m - 1);
  }

  /** The step of `RunPrefix` on its own: one more item of the group after a
      prefix that rendered to the opening of the run. */
  lemma PrefixStep(pre: seq<Node>, item: Node, st: State, bullet: bool, k: nat)
    requires AllListItems(pre) && |pre| >= 1 && item.ListItem? && IsBulletGlyph(item.glyph) == bullet
    requires CountKeys(item.children, ListKey(item.listId, item.nestingLevel)) == 0
    requires RenderSeq(pre, st).Ok? && RenderItem(item, RenderSeq(pre, st).value.state).Ok?
    requires Counter(RenderSeq(pre, st).value.state.counters, ListKey(item.listId, item.nestingLevel)) == k
    requires k > 0
    requires var bodies := RunBodies(pre, st);
             Concat(RenderSeq(pre, st).value.parts) == RunHead(bodies, bullet) + LiConcat(bodies[1..]) + ""
    ensures AllListItems(pre + [item]) && RenderSeq(pre + [item], st).Ok?
    ensures var after := RenderSeq(pre + [item], st).value;
            var bodies := RunBodies(pre + [item], st);
            Counter(after.state.counters, ListKey(item.listId, item.nestingLevel)) == k + 1
            && Concat(after.parts)
               == RunHead(bodies, bullet) + LiConcat(bodies[1..])
                  + (if ClosesGroup(item.atDocumentEnd, item.next) then GroupClose(item.glyph) else "")
  {
    var closing := if ClosesGroup(item.atDocumentEnd, item.next) then GroupClose(item.glyph) else "";
    var before := RenderSeq(pre, st).value;
    var body := ItemBody(item, before.state);
    var bodies := RunBodies(pre, st);
    ItemStep(pre, item, st, k, closing);
    RunBodiesSnoc(pre, item, st);
    LiConcatAppend(bodies, body);
    RegroupNext(Concat(before.parts), RunHead(bodies, bullet), LiConcat(bodies[1..]), "",
                "<li>", body, "</li>", closing);
  }

  /** A later item of a run, rendered after siblings that left its group's
      counter at `k > 0`: it appends `<li>`, its body, `</li>` and, when the
      boundary rule fires, the group's closing tag. */
  lemma ItemStep(pre: seq<Node>, item: Node, st: State, k: nat, closing: string)
    requires item.ListItem? && CountKeys(item.children, ListKey(item.listId, item.nestingLevel)) == 0
    requires RenderSeq(pre, st).Ok? && RenderItem(item, RenderSeq(pre, st).value.state).Ok?
    requires Counter(RenderSeq(pre, st).value.state.counters, ListKey(item.listId, item.nestingLevel)) == k
    requires k > 0
    requires closing == (if ClosesGroup(item.atDocumentEnd, item.next) then GroupClose(item.glyph) else "")
    ensures RenderSeq(pre + [item], st).Ok?
    ensures var before := RenderSeq(pre, st).value;
            var after := RenderSeq(pre + [item], st).value;
            Counter(after.state.counters, ListKey(item.listId, item.nestingLevel)) == k + 1
            && Concat(after.parts) == Concat(before.parts) + ("<li>" + ItemBody(item, before.state) + ("</li>" + closing))
  {
    ItemAfter(pre, item, st, k);
    LaterTags(item.glyph, k, ClosesGroup(item.atDocumentEnd, item.next));
  }

  /** What a run says about its item `k`. */
  lemma RunMember(items: seq<Node>, listId: string, level: nat, bullet: bool, k: nat)
    requires ListRun(items, listId, level, bullet) && k < |items|
    ensures items[k].ListItem? && items[k].listId == listId && items[k].nestingLevel == level
    ensures IsBulletGlyph(items[k].glyph) == bullet && CountKeys(items[k].children, ListKey(listId, level)) == 0
    ensures ClosesGroup(items[k].atDocumentEnd, items[k].next) == (k == |items| - 1)
  {
  }

  lemma TakeSnoc(items: seq<Node>, m: nat)
    requires 1 <= m <= |items|
    ensures items[..m] == items[..m - 1] + [items[m - 1]]
  {
  }

  lemma LiConcatAppend(bodies: seq<string>, body: string)
    requires |bodies| >= 1
    ensures (bodies + [body])[0] == bodies[0]
    ensures LiConcat((bodies + [body])[1..]) == LiConcat(bodies[1..]) + Li(body)
  {
    assert (bodies + [body])[1..] == bodies[1..] + [body];
    assert (bodies[1..] + [body])[..|bodies| - 1] == bodies[1..];
  }

  lemma {:induction false} LiConcatFirst(bodies: seq<string>)
    requires |bodies| >= 1
    ensures LiConcat(bodies) == Li(bodies[0]) + LiConcat(bodies[1..])
    decreases |bodies|
  {
    if |bodies| == 1 {
      assert bodies[1..] == [];
      assert bodies[..0] == [];
    } else {
      LiConcatFirst(bodies[..|bodies| - 1]);
      assert bodies[..|bodies| - 1][1..] == bodies[1..][..|bodies| - 2];
    }
  }

  /** A run of numbered (non-bullet) items of a fresh group renders as one
      ordered list: one `<ol>`, one `<li>` pair per item around what its
      children render to, one `</ol>`. */
  lemma OrderedRun(items: seq<Node>, listId: string, level: nat, st: State)
    requires ListRun(items, listId, level, false)
    requires Counter(st.counters, ListKey(listId, level)) == 0
    requires RenderSeq(items, st).Ok?
    ensures Concat(RenderSeq(items, st).value.parts) == "<ol>" + LiConcat(RunBodies(items, st)) + "</ol>"
  {
    assert items[..|items|] == items;
    RunPrefix(items, listId, level, false, st, |items|);
    assert RunPrefixRendered(items, listId, level, false, st, |items|);
    var bodies := RunBodies(items, st);
    LiConcatFirst(bodies);
    DropEmpty("<ol>", Li(bodies[0]), "", LiConcat(bodies[1..]), "</ol>");
  }

  lemma DropEmpty(a: string, b: string, e: string, c: string, d: string)
    requires e == []
    ensures a + b + e + c + d == a + (b + c) + d
  {
  }

  /** A run of bullet items of a fresh group: the first item closes the
      `<ul>` right away (its suffix is `</li></ul>` whether or not the group
      ends there), so the remaining items stand outside any list and the
      boundary rule adds a second `</ul>`. */
  lemma BulletRun(items: seq<Node>, listId: string, level: nat, st: State)
    requires ListRun(items, listId, level, true)
    requires Counter(st.counters, ListKey(listId, level)) == 0
    requires RenderSeq(items, st).Ok?
    ensures var bodies := RunBodies(items, st);
            Concat(RenderSeq(items, st).value.parts)
            == "<ul>" + Li(bodies[0]) + "</ul>" + LiConcat(bodies[1..]) + "</ul>"
  {
    assert items[..|items|] == items;
    RunPrefix(items, listId, level, true, st, |items|);
    assert RunPrefixRendered(items, listId, level, true, st, |items|);
  }

  /** A sequence of list items holding only text always renders, and the
      body of each item is the HTML of its text. */
  lemma {:induction false} TextRunBodies(items: seq<Node>, st: State)
    requires AllListItems(items)
    requires forall k :: 0 <= k < |items| ==> TextOnly(items[k].children)
    ensures RenderSeq(items, st).Ok?
    ensures forall k :: 0 <= k < |items| ==> RunBodies(items, st)[k] == TextsHtml(items[k].children)
    decreases |items|
  {
    if items != [] {
      var init, last := items[..|items| - 1], items[|items| - 1];
      assert items == init + [last];
      AllListItemsTake(items, |items| - 1);
      forall k | 0 <= k < |init|
        ensures TextOnly(init[k].children)
      {
        assert init[k] == items[k];
      }
      TextRunBodies(init, st);
      var mid := RenderSeq(init, st).value.state;
      TextItemBody(last, mid);
      RunBodiesSnoc(init, last, st);
      var bodies := RunBodies(items, st);
      forall k | 0 <= k < |items|
        ensures bodies[k] == TextsHtml(items[k].children)
      {
        if k < |init| {
          assert items[k] == init[k];
          assert bodies[k] == RunBodies(init, st)[k];
        }
      }
    }
  }
}
