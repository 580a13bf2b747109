/**
 * The section queries of a document: the list of headings (`get_headings`),
 * the content under a heading (`get_heading_content`) and a heading's place
 * among the others (`get_heading_details`). All three treat a top-level
 * paragraph as a heading when it is marked one or carries a level.
 */
module Sections {
  import opened Wrappers
  import opened Text
  import opened Paragraphs
  import opened Tables
  import opened TableHtml
  import opened Layouts
  import opened HeadingStacks
  import opened DocTree
  import opened Splices
  import opened ParagraphCache

  // ---------------------------------------------------------------------------
  // Shared helpers
  // ---------------------------------------------------------------------------

  /** The `is_heading` helper: marked a heading, or given a level. */
  predicate IsHeadingPara(p: Paragraph) {
    IsSet(p.isHeading) || p.headingLevel.Some?
  }

  /** The `get_level` helper: the heading level, 0 when there is none. */
  function LevelOf(p: Paragraph): int {
    if p.headingLevel.Some? then p.headingLevel.value else 0
  }

  /** The `render` helper on a paragraph: HTML for the "html" format, the full text otherwise. */
  function Render(p: Paragraph, format: string): string {
    if format == "html" then ParagraphHtml(p) else ParagraphText(p, "full")
  }

  /** The `{"id", "heading", "level"}` record of a heading. */
  datatype Summary = Summary(id: Option<string>, heading: string, level: int)

  function SummaryOf(p: Paragraph, format: string): Summary {
    Summary(p.id, Render(p, format), LevelOf(p))
  }

  function Summaries(ps: seq<Paragraph>, format: string): (ss: seq<Summary>)
    ensures |ss| == |ps| && forall i :: 0 <= i < |ps| ==> ss[i] == SummaryOf(ps[i], format)
  {
    seq(|ps|, i requires 0 <= i < |ps| => SummaryOf(ps[i], format))
  }

  /** The index as a lookup reads it: built first when it is empty. */
  function Effective(layouts: seq<Layout>, index: ElementIndex): ElementIndex {
    if index == map[] then ElementIndexOf(layouts) else index
  }

  /** `get_element_by_id` on a built index: the node stored under the id. */
  function Lookup(layouts: seq<Layout>, index: ElementIndex, id: Option<string>): Option<Node> {
    if id.Some? && id.value in index then At(layouts, index[id.value]) else None
  }

  // ---------------------------------------------------------------------------
  // get_headings
  // ---------------------------------------------------------------------------

  /** The headings among the listed paragraphs, in order. */
  function HeadingsAmong(ps: seq<Placed>): (hs: seq<Placed>)
    ensures |hs| <= |ps|
    ensures forall i :: 0 <= i < |hs| ==> IsHeadingPara(hs[i].paragraph)
    decreases |ps|
  {
    if ps == [] then []
    else
      var x := ps[|ps| - 1];
      HeadingsAmong(ps[..|ps| - 1]) + (if IsHeadingPara(x.paragraph) then [x] else [])
  }

  lemma HeadingsAmongAppend(ps: seq<Placed>, x: Placed)
    ensures HeadingsAmong(ps + [x]) == HeadingsAmong(ps) + (if IsHeadingPara(x.paragraph) then [x] else [])
  {
    assert (ps + [x])[..|ps|] == ps;
  }

  /**
   * The list is exactly the headings of the input, in the input's order: a
   * paragraph is listed when and only when it is a heading, and the list of a
   * list in document order is in document order.
   */
  lemma {:induction false} HeadingsAmongSpec(ps: seq<Placed>)
    ensures forall x :: x in HeadingsAmong(ps) <==> x in ps && IsHeadingPara(x.paragraph)
    ensures (forall i, j :: 0 <= i < j < |ps| ==> Precedes(ps[i], ps[j])) ==>
      forall i, j :: 0 <= i < j < |HeadingsAmong(ps)| ==> Precedes(HeadingsAmong(ps)[i], HeadingsAmong(ps)[j])
    decreases |ps|
  {
    if ps != [] {
      var n := |ps| - 1;
      var front, x := ps[..n], ps[n];
      assert ps == front + [x];
      HeadingsAmongSpec(front);
      var hf := HeadingsAmong(front);
      var hs := HeadingsAmong(ps);
      assert hs == hf + (if IsHeadingPara(x.paragraph) then [x] else []);
      if forall i, j :: 0 <= i < j < |ps| ==> Precedes(ps[i], ps[j]) {
        forall i, j | 0 <= i < j < |hs| ensures Precedes(hs[i], hs[j]) {
          assert hs[i] == hf[i];
          if j == |hf| {
            assert hf[i] in front;
            var a :| 0 <= a < |front| && front[a] == hf[i];
            assert Precedes(ps[a], ps[n]);
          } else {
            assert hs[j] == hf[j];
          }
        }
      }
    }
  }

  /** The document's headings, with where each stands. */
  function HeadingPlaces(layouts: seq<Layout>): seq<Placed> {
    HeadingsAmong(AllParas(layouts))
  }

  function ParasOf(hs: seq<Placed>): (ps: seq<Paragraph>)
    ensures |ps| == |hs| && forall i :: 0 <= i < |hs| ==> ps[i] == hs[i].paragraph
  {
    seq(|hs|, i requires 0 <= i < |hs| => hs[i].paragraph)
  }

  /** `get_headings`: the records of the document's headings, in document order. */
  function HeadingList(layouts: seq<Layout>, format: string): seq<Summary> {
    Summaries(ParasOf(HeadingPlaces(layouts)), format)
  }

  // ---------------------------------------------------------------------------
  // get_heading_content
  // ---------------------------------------------------------------------------

  /** The flags of `get_heading_content`. */
  datatype ContentOptions = ContentOptions(captions: bool, tables: bool, subheadings: bool, format: string)

  /** The section a heading opens: its rendering, its level and the rendered content. */
  datatype Section = Section(heading: string, level: int, content: seq<string>)

  /** `render` on a table: HTML, which can raise, or the text. */
  function RenderTable(t: Table, format: string): Result<string> {
    if format == "html" then TableHtmlOf(t, "full", None) else Ok(TableText(t, "full"))
  }

  /** Where the content stops: a heading, or with sub-headings only a heading at or above the start level. */
  predicate Stops(e: Element, startLevel: int, opts: ContentOptions) {
    e.ParagraphElement? && IsHeadingPara(e.paragraph) && (!opts.subheadings || LevelOf(e.paragraph) <= startLevel)
  }

  /** What one element contributes: captions only when asked, tables only when asked, every other paragraph. */
  function Kept(e: Element, opts: ContentOptions): Result<seq<string>> {
    match e
    case ParagraphElement(p) =>
      if IsSet(p.isCaption) && !opts.captions then Ok([]) else Ok([Render(p, opts.format)])
    case TableElement(t) =>
      if !opts.tables then Ok([])
      else (match RenderTable(t, opts.format) case Err(x) => Err(x) case Ok(s) => Ok([s]))
    case Absent => Ok([])
  }

  /** A first part and what follows it; an exception in the first part comes first. */
  function Then(a: Result<seq<string>>, b: Result<seq<string>>): Result<seq<string>> {
    match a
    case Err(x) => Err(x)
    case Ok(u) => (match b case Err(x) => Err(x) case Ok(v) => Ok(u + v))
  }

  /** The loop of `get_heading_content` from position `i`. */
  function ContentFrom(es: seq<Element>, i: nat, startLevel: int, opts: ContentOptions): Result<seq<string>>
    decreases |es| - i
  {
    if i >= |es| || Stops(es[i], startLevel, opts) then Ok([])
    else Then(Kept(es[i], opts), ContentFrom(es, i + 1, startLevel, opts))
  }

  /** The end of the section: the first stopping element at or after `i`, or the end of the document. */
  function SectionEnd(es: seq<Element>, i: nat, startLevel: int, opts: ContentOptions): (j: nat)
    requires i <= |es|
    ensures i <= j <= |es|
    ensures forall k :: i <= k < j ==> !Stops(es[k], startLevel, opts)
    ensures j < |es| ==> Stops(es[j], startLevel, opts)
    decreases |es| - i
  {
    if i == |es| || Stops(es[i], startLevel, opts) then i else SectionEnd(es, i + 1, startLevel, opts)
  }

  /** What the elements `es[i..j]` contribute, gathered left to right. */
  function Collected(es: seq<Element>, i: nat, j: nat, opts: ContentOptions): Result<seq<string>>
    requires i <= j <= |es|
    decreases j
  {
    if j == i then Ok([]) else Then(Collected(es, i, j - 1, opts), Kept(es[j - 1], opts))
  }

  lemma ThenAssoc(a: Result<seq<string>>, b: Result<seq<string>>, c: Result<seq<string>>)
    ensures Then(Then(a, b), c) == Then(a, Then(b, c))
  {
    if a.Ok? && b.Ok? && c.Ok? {
      assert a.value + b.value + c.value == a.value + (b.value + c.value);
    }
  }

  lemma {:induction false} CollectedFront(es: seq<Element>, i: nat, j: nat, opts: ContentOptions)
    requires i < j <= |es|
    ensures Collected(es, i, j, opts) == Then(Kept(es[i], opts), Collected(es, i + 1, j, opts))
    decreases j
  {
    if j == i + 1 {
      var k := Kept(es[i], opts);
      if k.Ok? {
        assert [] + k.value == k.value + [];
      }
    } else {
      CollectedFront(es, i, j - 1, opts);
      ThenAssoc(Kept(es[i], opts), Collected(es, i + 1, j - 1, opts), Kept(es[j - 1], opts));
    }
  }

  /**
   * The one-pass loop gathers exactly the window from `i` to the section's
   * end, element by element: the two-phase reading (find the end, then
   * collect) and the loop agree, including which exception comes first.
   */
  lemma {:induction false} ContentIsWindow(es: seq<Element>, i: nat, startLevel: int, opts: ContentOptions)
    requires i <= |es|
    ensures ContentFrom(es, i, startLevel, opts) == Collected(es, i, SectionEnd(es, i, startLevel, opts), opts)
    decreases |es| - i
  {
    if i < |es| && !Stops(es[i], startLevel, opts) {
      ContentIsWindow(es, i + 1, startLevel, opts);
      CollectedFront(es, i, SectionEnd(es, i, startLevel, opts), opts);
    }
  }

  /** Without tables nothing in the section can raise. */
  lemma {:induction false} ContentWithoutTables(es: seq<Element>, i: nat, startLevel: int, opts: ContentOptions)
    requires !opts.tables
    ensures ContentFrom(es, i, startLevel, opts).Ok?
    decreases |es| - i
  {
    if i < |es| && !Stops(es[i], startLevel, opts) {
      ContentWithoutTables(es, i + 1, startLevel, opts);
    }
  }

  /** Without sub-headings, the section holds no heading: it ends at the next one. */
  lemma NoSubheadingEndsAtHeading(es: seq<Element>, i: nat, startLevel: int, opts: ContentOptions)
    requires i <= |es| && !opts.subheadings
    ensures var j := SectionEnd(es, i, startLevel, opts);
      (forall k :: i <= k < j ==> !(es[k].ParagraphElement? && IsHeadingPara(es[k].paragraph)))
      && (j < |es| ==> es[j].ParagraphElement? && IsHeadingPara(es[j].paragraph))
  {
  }

  /**
   * `get_heading_content` once the index is built: nothing unless the id
   * names a paragraph; the section starts after the first top-level element
   * with the id (reading the id of an absent entry raises) and runs to its end.
   */
  function HeadingContent(layouts: seq<Layout>, index: ElementIndex, headingId: string, opts: ContentOptions): Result<Option<Section>> {
    match Lookup(layouts, index, Some(headingId))
    case Some(ParagraphNode(h)) =>
      (match FindInElements(Flat(layouts), Some(headingId), 0)
       case Err(x) => Err(x)
       case Ok(None) => Ok(None)
       case Ok(Some(s)) =>
         match ContentFrom(Flat(layouts), s + 1, LevelOf(h), opts)
         case Err(x) => Err(x)
         case Ok(c) => Ok(Some(Section(Render(h, opts.format), LevelOf(h), c))))
    case _ => Ok(None)
  }

  // ---------------------------------------------------------------------------
  // get_heading_details
  // ---------------------------------------------------------------------------

  /** The headings as the parent rule sees them. */
  function RecordsOf(hs: seq<Placed>): (rs: seq<Heading>)
    ensures |rs| == |hs| && forall i :: 0 <= i < |hs| ==> rs[i] == Heading(LevelOf(hs[i].paragraph), hs[i].paragraph.id)
  {
    seq(|hs|, i requires 0 <= i < |hs| => Heading(LevelOf(hs[i].paragraph), hs[i].paragraph.id))
  }

  /** The parent each heading is given: the nearest preceding heading of lower level. */
  function ParentsOf(hs: seq<Placed>): (ps: seq<Option<string>>)
    ensures |ps| == |hs| && forall i :: 0 <= i < |hs| ==> ps[i] == ParentOf(RecordsOf(hs), i)
  {
    var rs := RecordsOf(hs);
    seq(|hs|, i requires 0 <= i < |hs| => ParentOf(rs, i))
  }

  /** The headings once their parents are written. */
  function Reparented(hs: seq<Placed>): (ps: seq<Paragraph>)
    ensures |ps| == |hs| && forall i :: 0 <= i < |hs| ==> ps[i] == hs[i].paragraph.(parentRefId := ParentsOf(hs)[i])
  {
    var parents := ParentsOf(hs);
    seq(|hs|, i requires 0 <= i < |hs| => hs[i].paragraph.(parentRefId := parents[i]))
  }

  /** `p.parent_ref_id = v` on the paragraph at layout `l`, element `e`. */
  function SetParent(layouts: seq<Layout>, l: nat, e: nat, v: Option<string>): seq<Layout> {
    if l < |layouts| && e < |layouts[l].elements| && layouts[l].elements[e].ParagraphElement? then
      var es := layouts[l].elements;
      layouts[l := layouts[l].(elements := es[e := ParagraphElement(es[e].paragraph.(parentRefId := v))])]
    else layouts
  }

  /** The first `n` headings given their parents. */
  function WriteParents(layouts: seq<Layout>, hs: seq<Placed>, parents: seq<Option<string>>, n: nat): seq<Layout>
    requires n <= |hs| == |parents|
  {
    if n == 0 then layouts else SetParent(WriteParents(layouts, hs, parents, n - 1), hs[n - 1].l, hs[n - 1].e, parents[n - 1])
  }

  /** Headings at distinct paragraph positions, in order. */
  predicate PlacedIn(layouts: seq<Layout>, hs: seq<Placed>) {
    && (forall i :: 0 <= i < |hs| ==>
          hs[i].l < |layouts| && hs[i].e < |layouts[hs[i].l].elements|
          && layouts[hs[i].l].elements[hs[i].e] == ParagraphElement(hs[i].paragraph))
    && (forall i, j :: 0 <= i < j < |hs| ==> Precedes(hs[i], hs[j]))
  }

  lemma HeadingPlacesPlaced(layouts: seq<Layout>)
    ensures PlacedIn(layouts, HeadingPlaces(layouts))
  {
    var ps := AllParas(layouts);
    var hs := HeadingPlaces(layouts);
    HeadingsAmongSpec(ps);
    forall i | 0 <= i < |hs|
      ensures hs[i].l < |layouts| && hs[i].e < |layouts[hs[i].l].elements|
      ensures layouts[hs[i].l].elements[hs[i].e] == ParagraphElement(hs[i].paragraph)
    {
      assert hs[i] in ps;
    }
  }

  /** Writing one parent changes that paragraph's parent and nothing else. */
  lemma SetParentSpec(layouts: seq<Layout>, l: nat, e: nat, v: Option<string>)
    requires l < |layouts| && e < |layouts[l].elements| && layouts[l].elements[e].ParagraphElement?
    ensures var out := SetParent(layouts, l, e, v);
      && ParagraphSlots(layouts, out)
      && out[l].elements[e] == ParagraphElement(layouts[l].elements[e].paragraph.(parentRefId := v))
      && (forall l', e' :: 0 <= l' < |layouts| && 0 <= e' < |layouts[l'].elements| && (l', e') != (l, e) ==>
            out[l'].elements[e'] == layouts[l'].elements[e'])
      && (forall l' :: 0 <= l' < |layouts| ==> out[l'].(elements := layouts[l'].elements) == layouts[l'])
  {
  }

  /** The written paragraph carries the new parent reference. */
  lemma SetParentHere(layouts: seq<Layout>, l: nat, e: nat, v: Option<string>)
    requires l < |layouts| && e < |layouts[l].elements| && layouts[l].elements[e].ParagraphElement?
    ensures var out := SetParent(layouts, l, e, v);
      l < |out| && e < |out[l].elements|
      && out[l].elements[e] == ParagraphElement(layouts[l].elements[e].paragraph.(parentRefId := v))
  {
  }

  /** Every other element is left as it was. */
  lemma SetParentThere(layouts: seq<Layout>, l: nat, e: nat, v: Option<string>, l': nat, e': nat)
    requires l' < |layouts| && e' < |layouts[l'].elements| && (l', e') != (l, e)
    ensures var out := SetParent(layouts, l, e, v);
      l' < |out| && e' < |out[l'].elements| && out[l'].elements[e'] == layouts[l'].elements[e']
  {
  }

  lemma ParagraphSlotsTrans(a: seq<Layout>, b: seq<Layout>, c: seq<Layout>)
    requires ParagraphSlots(a, b) && ParagraphSlots(b, c)
    ensures ParagraphSlots(a, c)
  {
  }

  /** The elements at positions other than the first `n` headings'. */
  predicate Untouched(a: seq<Layout>, b: seq<Layout>, hs: seq<Placed>, n: nat)
    requires n <= |hs| && ParagraphSlots(a, b)
  {
    forall l, e :: 0 <= l < |a| && 0 <= e < |a[l].elements| && (forall i :: 0 <= i < n ==> (hs[i].l, hs[i].e) != (l, e))
      ==> b[l].elements[e] == a[l].elements[e]
  }

  /** Writing parents keeps the document's shape and every layout's other fields. */
  lemma {:induction false} WriteParentsSlots(layouts: seq<Layout>, hs: seq<Placed>, parents: seq<Option<string>>, n: nat)
    requires n <= |hs| == |parents|
    ensures var out := WriteParents(layouts, hs, parents, n);
      && ParagraphSlots(layouts, out)
      && (forall l :: 0 <= l < |layouts| ==> out[l].(elements := layouts[l].elements) == layouts[l])
    decreases n
  {
    if n > 0 {
      WriteParentsSlots(layouts, hs, parents, n - 1);
      var before := WriteParents(layouts, hs, parents, n - 1);
      var x := hs[n - 1];
      if x.l < |before| && x.e < |before[x.l].elements| && before[x.l].elements[x.e].ParagraphElement? {
        SetParentSpec(before, x.l, x.e, parents[n - 1]);
        ParagraphSlotsTrans(layouts, before, WriteParents(layouts, hs, parents, n));
      }
    }
  }

  /** An element at no written heading's position is left alone. */
  lemma {:induction false} WriteParentsElsewhere(layouts: seq<Layout>, hs: seq<Placed>, parents: seq<Option<string>>, n: nat, l: nat, e: nat)
    requires n <= |hs| == |parents| && l < |layouts| && e < |layouts[l].elements|
    requires forall i :: 0 <= i < n ==> (hs[i].l, hs[i].e) != (l, e)
    ensures var out := WriteParents(layouts, hs, parents, n);
      l < |out| && e < |out[l].elements| && out[l].elements[e] == layouts[l].elements[e]
    decreases n
  {
    WriteParentsSlots(layouts, hs, parents, n);
    if n > 0 {
      WriteParentsElsewhere(layouts, hs, parents, n - 1, l, e);
      WriteParentsSlots(layouts, hs, parents, n - 1);
      var before := WriteParents(layouts, hs, parents, n - 1);
      var x := hs[n - 1];
      if x.l < |before| && x.e < |before[x.l].elements| && before[x.l].elements[x.e].ParagraphElement? {
        SetParentSpec(before, x.l, x.e, parents[n - 1]);
      }
    }
  }

  /** The `i`-th heading, once written, carries the parent written for it. */
  lemma {:induction false} WriteParentsAt(layouts: seq<Layout>, hs: seq<Placed>, parents: seq<Option<string>>, n: nat, i: nat)
    requires n <= |hs| == |parents| && PlacedIn(layouts, hs) && i < n
    ensures var out := WriteParents(layouts, hs, parents, n);
      hs[i].l < |out| && hs[i].e < |out[hs[i].l].elements|
      && out[hs[i].l].elements[hs[i].e] == ParagraphElement(hs[i].paragraph.(parentRefId := parents[i]))
    decreases n
  {
    var before := WriteParents(layouts, hs, parents, n - 1);
    var x := hs[n - 1];
    if i < n - 1 {
      WriteParentsAt(layouts, hs, parents, n - 1, i);
      assert Precedes(hs[i], x);
      SetParentThere(before, x.l, x.e, parents[n - 1], hs[i].l, hs[i].e);
    } else {
      forall j | 0 <= j < n - 1 ensures (hs[j].l, hs[j].e) != (x.l, x.e) {
        assert Precedes(hs[j], x);
      }
      WriteParentsElsewhere(layouts, hs, parents, n - 1, x.l, x.e);
      SetParentHere(before, x.l, x.e, parents[n - 1]);
    }
  }

  /**
   * Writing the parents of headings at distinct positions: each written
   * heading gets its parent, every other element is left alone, and the
   * shape of the document does not change.
   */
  lemma WriteParentsSpec(layouts: seq<Layout>, hs: seq<Placed>, parents: seq<Option<string>>, n: nat)
    requires n <= |hs| == |parents| && PlacedIn(layouts, hs)
    ensures var out := WriteParents(layouts, hs, parents, n);
      && ParagraphSlots(layouts, out)
      && Untouched(layouts, out, hs, n)
      && (forall i :: 0 <= i < n ==>
            out[hs[i].l].elements[hs[i].e] == ParagraphElement(hs[i].paragraph.(parentRefId := parents[i])))
      && (forall l :: 0 <= l < |layouts| ==> out[l].(elements := layouts[l].elements) == layouts[l])
  {
    WriteParentsSlots(layouts, hs, parents, n);
    var out := WriteParents(layouts, hs, parents, n);
    forall i | 0 <= i < n
      ensures out[hs[i].l].elements[hs[i].e] == ParagraphElement(hs[i].paragraph.(parentRefId := parents[i]))
    {
      WriteParentsAt(layouts, hs, parents, n, i);
    }
    forall l, e | 0 <= l < |layouts| && 0 <= e < |layouts[l].elements| && (forall i :: 0 <= i < n ==> (hs[i].l, hs[i].e) != (l, e))
      ensures out[l].elements[e] == layouts[l].elements[e]
    {
      WriteParentsElsewhere(layouts, hs, parents, n, l, e);
    }
  }

  /** The headings whose parent reference is `ref`, in order. */
  function WithParentRef(ps: seq<Paragraph>, ref: Option<string>): (out: seq<Paragraph>)
    ensures forall i :: 0 <= i < |out| ==> out[i].parentRefId == ref && out[i] in ps
    ensures forall p :: p in ps && p.parentRefId == ref ==> p in out
    decreases |ps|
  {
    if ps == [] then []
    else
      var rest := WithParentRef(ps[..|ps| - 1], ref);
      assert forall p :: p in ps[..|ps| - 1] ==> p in ps;
      assert forall p :: p in ps ==> p in ps[..|ps| - 1] || p == ps[|ps| - 1];
      rest + (if ps[|ps| - 1].parentRefId == ref then [ps[|ps| - 1]] else [])
  }

  function IdsOf(ps: seq<Paragraph>): (ids: seq<Option<string>>)
    ensures |ids| == |ps| && forall i :: 0 <= i < |ps| ==> ids[i] == ps[i].id
  {
    seq(|ps|, i requires 0 <= i < |ps| => ps[i].id)
  }

  /** The modes of `get_heading_details` and what each returns. */
  datatype Details =
    | NoDetails
    | PositionOut(position: Option<nat>)
    | Listing(items: seq<Summary>)
    | ParentOut(of: Summary)
    | Full(heading: Summary, position: Option<nat>, parent: Option<Summary>, siblings: seq<Summary>, childrens: seq<Summary>)

  /** The record of a parent node: only a paragraph has a level; rendering a table as HTML can raise first. */
  function NodeSummary(n: Node, format: string): Result<Summary> {
    match n
    case ParagraphNode(p) => Ok(SummaryOf(p, format))
    case TableNode(t) =>
      (match RenderTable(t, format) case Err(x) => Err(x) case Ok(_) => Err(AttributeError))
    case _ => Err(AttributeError)
  }

  /**
   * What `get_heading_details` returns for heading `h`, once the parents of
   * the document's headings `hs` are written, with `parent` the node its
   * parent reference names.
   */
  function DetailsOf(h: Paragraph, hs: seq<Paragraph>, parent: Option<Node>, mode: string, format: string): Result<Details> {
    var siblings := WithParentRef(hs, h.parentRefId);
    var childrens := WithParentRef(hs, h.id);
    var position := FirstIndex(IdsOf(siblings), h.id);
    if mode == "position" then Ok(PositionOut(position))
    else if mode == "siblings" then Ok(Listing(Summaries(siblings, format)))
    else if mode == "childrens" then Ok(Listing(Summaries(childrens, format)))
    else if mode == "parent" then
      (if parent.None? then Ok(NoDetails)
       else match NodeSummary(parent.value, format) case Err(x) => Err(x) case Ok(s) => Ok(ParentOut(s)))
    else if mode == "full" then
      var ps := if parent.None? then Ok(None) else (match NodeSummary(parent.value, format) case Err(x) => Err(x) case Ok(s) => Ok(Some(s)));
      (match ps
       case Err(x) => Err(x)
       case Ok(pv) => Ok(Full(SummaryOf(h, format), position, pv, Summaries(siblings, format), Summaries(childrens, format))))
    else Ok(NoDetails)
  }

  /** Ids are distinct among the headings. */
  predicate DistinctHeadingIds(hs: seq<Placed>) {
    forall i, j :: 0 <= i < j < |hs| ==> hs[i].paragraph.id != hs[j].paragraph.id
  }

  /**
   * With distinct ids, a heading's children are later headings of a strictly
   * greater level, with no heading of a level at or below the child's between
   * them: the heading is the child's nearest preceding heading of lower level.
   */
  lemma ChildOfHeading(hs: seq<Placed>, j: nat, i: nat)
    requires DistinctHeadingIds(hs) && j < |hs| && i < |hs|
    requires hs[j].paragraph.id.Some? && Reparented(hs)[i].parentRefId == hs[j].paragraph.id
    ensures j < i && LevelOf(hs[j].paragraph) < LevelOf(hs[i].paragraph)
    ensures forall k :: j < k < i ==> LevelOf(hs[k].paragraph) >= LevelOf(hs[i].paragraph)
  {
    var rs := RecordsOf(hs);
    assert ParentOf(rs, i) == hs[j].paragraph.id;
    var r := LastBelow(rs, i, rs[i].level);
    assert r.Some?;
    assert rs[r.value].id == hs[j].paragraph.id;
    assert r.value == j;
  }

  /** A heading among the document's headings is among its own siblings, so its position is known. */
  lemma PositionOfHeading(hs: seq<Placed>, j: nat)
    requires j < |hs|
    ensures FirstIndex(IdsOf(WithParentRef(Reparented(hs), Reparented(hs)[j].parentRefId)), Reparented(hs)[j].id).Some?
  {
    var ps := Reparented(hs);
    var sib := WithParentRef(ps, ps[j].parentRefId);
    assert ps[j] in ps;
    var k :| 0 <= k < |sib| && sib[k] == ps[j];
    assert IdsOf(sib)[k] == ps[j].id;
  }
}
