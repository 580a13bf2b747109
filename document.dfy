/**
 * `DocumentModel`: the layouts, the document id and file name, and the two
 * caches the methods keep — the element index (id to node) and the paragraph
 * index with its order list. The caches hold references to nodes; here they
 * hold locations in the layouts, and the paragraph cache survives the splices
 * of `apply_placeholders` by moving its locations (or keeping the removed
 * paragraph), as a reference would. Each method is proved against the
 * function of the layouts that specifies it.
 */
module Documents {
  import opened Wrappers
  import opened Text
  import Html
  import opened Paragraphs
  import opened Layouts
  import opened Placeholders
  import opened Resolver
  import opened DocTree
  import opened Splices
  import opened ParagraphCache
  import opened HeadingStacks
  import opened Sections
  import opened Hierarchy
  import opened Outline
  import opened HeadingPaths
  import opened Batch
  import opened DocumentSpec

  /** A lookup after a lookup reads the same index: the first one built it if it had to. */
  lemma EffectiveStable(layouts: seq<Layout>, index: ElementIndex)
    ensures Effective(layouts, Effective(layouts, index)) == Effective(layouts, index)
  {
  }

  /** The hierarchy pass keeps every element's kind, so the paragraph cache keeps referring. */
  lemma HierarchyKeepsSlots(layouts: seq<Layout>, matcher: Matcher)
    ensures ParagraphSlots(layouts, HierarchyOf(layouts, matcher).value)
  {
    var out := HierarchyOf(layouts, matcher).value;
    forall l | 0 <= l < |layouts|
      ensures |layouts[l].elements| == |out[l].elements|
      ensures forall e :: 0 <= e < |layouts[l].elements| ==>
        (layouts[l].elements[e].ParagraphElement? <==> out[l].elements[e].ParagraphElement?)
    {
      assert SameLayoutSlots(out[l], layouts[l]);
    }
  }

  /** A scan that met `x` first at `i` found what `list.index` finds. */
  lemma FirstIndexAt<T>(xs: seq<T>, x: T, i: nat)
    requires i < |xs| && xs[i] == x && forall j :: 0 <= j < i ==> xs[j] != x
    ensures FirstIndex(xs, x) == Some(i)
  {
  }

  lemma ThenOkEmpty(b: Result<seq<string>>)
    ensures Then(Ok([]), b) == b
  {
    if b.Ok? {
      assert [] + b.value == b.value;
    }
  }

  /** The search of `get_heading_content` for the heading among all elements. */
  method LocateIn(flat: seq<Element>, wanted: Option<string>) returns (r: Result<Option<nat>>)
    ensures r == FindInElements(flat, wanted, 0)
  {
    for i := 0 to |flat|
      invariant FindInElements(flat, wanted, 0) == FindInElements(flat, wanted, i)
    {
      if flat[i].Absent? {
        return Err(AttributeError);
      }
      if ElementId(flat[i]) == wanted {
        return Ok(Some(i));
      }
    }
    return Ok(None);
  }

  /** The collecting loop of `get_heading_content`, from position `start`. */
  method CollectContent(flat: seq<Element>, start: nat, level: int, opts: ContentOptions) returns (r: Result<seq<string>>)
    ensures r == ContentFrom(flat, start, level, opts)
  {
    var content: seq<string> := [];
    var i := start;
    ThenOkEmpty(ContentFrom(flat, i, level, opts));
    while i < |flat|
      invariant start <= i
      invariant ContentFrom(flat, start, level, opts) == Then(Ok(content), ContentFrom(flat, i, level, opts))
      decreases |flat| - i
    {
      var elem := flat[i];
      if Stops(elem, level, opts) {
        break;
      }
      ThenAssoc(Ok(content), Kept(elem, opts), ContentFrom(flat, i + 1, level, opts));
      var kept := Kept(elem, opts);
      if kept.Err? {
        return Err(kept.error);
      }
      content := content + kept.value;
      i := i + 1;
    }
    assert content + [] == content;
    return Ok(content);
  }

  /** The forward scan of `get_next_paragraph_text`, from position `k` of the order list. */
  method ScanForward(layouts: seq<Layout>, cache: Cache, order: seq<Option<string>>, k: nat) returns (r: Option<string>)
    requires Resolves(layouts, cache, order)
    ensures r == NextText(Resolved(layouts, cache, order), k)
  {
    ghost var ps := Resolved(layouts, cache, order);
    var i: nat := k;
    while i < |order|
      invariant k <= i && NextText(ps, k) == NextText(ps, i)
      decreases |order| - i
    {
      var next := Denote(layouts, cache[order[i]]).value;
      assert next == ps[i];
      if Boundary(next) {
        return None;
      }
      var text := FullText(next);
      if text != "" {
        return Some(Strip(text));
      }
      i := i + 1;
    }
    return None;
  }

  /** The backward scan of `get_prev_paragraph_text`, from just before position `k`. */
  method ScanBack(layouts: seq<Layout>, cache: Cache, order: seq<Option<string>>, k: nat) returns (r: Option<string>)
    requires Resolves(layouts, cache, order) && k <= |order|
    ensures r == PrevText(Resolved(layouts, cache, order), k)
  {
    ghost var ps := Resolved(layouts, cache, order);
    var i: nat := k;
    while i > 0
      invariant i <= k && PrevText(ps, k) == PrevText(ps, i)
    {
      var prev := Denote(layouts, cache[order[i - 1]]).value;
      assert prev == ps[i - 1];
      if Boundary(prev) {
        return None;
      }
      var text := FullText(prev);
      if text != "" {
        return Some(Strip(text));
      }
      i := i - 1;
    }
    return None;
  }

  /** A climb that has collected `path` so far, with `above` still to come in front of it. */
  function Prefixed(above: Option<seq<string>>, path: seq<string>): Option<seq<string>> {
    if above.None? then None else Some(above.value + path)
  }

  /** One climb of `_get_heading_path` past a heading that is not at level 1. */
  lemma ClimbStep(layouts: seq<Layout>, index: ElementIndex, ref: Option<string>, f: nat, p: Paragraph, collected: seq<string>)
    requires Truthy(ref) && f > 0 && Lookup(layouts, index, ref) == Some(ParagraphNode(p))
    requires IsSet(p.isHeading) && p.headingLevel != Some(1)
    ensures Prefixed(PathFrom(layouts, index, ref, f), collected)
         == Prefixed(PathFrom(layouts, index, p.parentRefId, f - 1), PathEntry(p) + collected)
  {
    var above := PathFrom(layouts, index, p.parentRefId, f - 1);
    if above.Some? {
      assert above.value + PathEntry(p) + collected == above.value + (PathEntry(p) + collected);
    }
  }

  /** Where the climb of `_get_heading_path` ends: at a level-1 heading, or at anything but a heading. */
  lemma ClimbEnd(layouts: seq<Layout>, index: ElementIndex, ref: Option<string>, f: nat, n: Option<Node>, collected: seq<string>)
    requires Truthy(ref) && f > 0 && Lookup(layouts, index, ref) == n
    ensures n.Some? && n.value.ParagraphNode? && IsSet(n.value.paragraph.isHeading) && n.value.paragraph.headingLevel == Some(1) ==>
      Prefixed(PathFrom(layouts, index, ref, f), collected) == Some(PathEntry(n.value.paragraph) + collected)
    ensures !(n.Some? && n.value.ParagraphNode? && IsSet(n.value.paragraph.isHeading)) ==>
      Prefixed(PathFrom(layouts, index, ref, f), collected) == Some(collected)
  {
    assert [] + collected == collected;
  }

  class Document {
    var layouts: seq<Layout>
    var id: Option<string>
    var filename: Option<string>
    var elementIndex: ElementIndex
    var paragraphIndex: Cache
    var paragraphOrder: seq<Option<string>>

    /** Every cached paragraph entry refers to a paragraph, and every id in the order list is cached. */
    predicate Valid()
      reads this
    {
      Refers(layouts, paragraphIndex) && Resolves(layouts, paragraphIndex, paragraphOrder)
    }

    /** A document starts with both caches empty. */
    constructor (layouts: seq<Layout>, id: Option<string>, filename: Option<string>)
      ensures Valid()
      ensures this.layouts == layouts && this.id == id && this.filename == filename
      ensures elementIndex == map[] && paragraphIndex == map[] && paragraphOrder == []
    {
      this.layouts := layouts;
      this.id := id;
      this.filename := filename;
      elementIndex := map[];
      paragraphIndex := map[];
      paragraphOrder := [];
    }

    // -------------------------------------------------------------------------
    // The element index
    // -------------------------------------------------------------------------

    /** `_build_element_index`: the index of every node with an id. */
    method BuildElementIndex()
      modifies this
      ensures elementIndex == ElementIndexOf(layouts)
      ensures layouts == old(layouts) && id == old(id) && filename == old(filename)
      ensures paragraphIndex == old(paragraphIndex) && paragraphOrder == old(paragraphOrder)
    {
      elementIndex := DocTree.BuildIndex(layouts);
    }

    /** `get_element_by_id`: the node the index stores under the id, building an empty index first. */
    method GetElementById(elementId: Option<string>) returns (n: Option<Node>)
      modifies this
      ensures elementIndex == Effective(old(layouts), old(elementIndex))
      ensures n == Lookup(layouts, elementIndex, elementId)
      ensures layouts == old(layouts) && id == old(id) && filename == old(filename)
      ensures paragraphIndex == old(paragraphIndex) && paragraphOrder == old(paragraphOrder)
    {
      if elementIndex == map[] {
        BuildElementIndex();
      }
      if elementId.Some? && elementId.value in elementIndex {
        n := At(layouts, elementIndex[elementId.value]);
      } else {
        n := None;
      }
    }

    /** `invalidate_index`. */
    method InvalidateIndex()
      modifies this
      ensures elementIndex == map[]
      ensures layouts == old(layouts) && id == old(id) && filename == old(filename)
      ensures paragraphIndex == old(paragraphIndex) && paragraphOrder == old(paragraphOrder)
    {
      elementIndex := map[];
    }

    // -------------------------------------------------------------------------
    // The paragraph index
    // -------------------------------------------------------------------------

    /** `_build_paragraph_index`: every top-level paragraph recorded under its id, in document order. */
    method BuildParagraphIndex()
      modifies this
      ensures paragraphIndex == CacheOf(AllParas(layouts)) && paragraphOrder == OrderOf(AllParas(layouts))
      ensures Valid()
      ensures layouts == old(layouts) && id == old(id) && filename == old(filename) && elementIndex == old(elementIndex)
    {
      paragraphIndex := map[];
      paragraphOrder := [];
      var ls := layouts;
      for l := 0 to |ls|
        invariant layouts == ls && id == old(id) && filename == old(filename) && elementIndex == old(elementIndex)
        invariant paragraphIndex == CacheOf(DocParas(ls, l)) && paragraphOrder == OrderOf(DocParas(ls, l))
      {
        var es := ls[l].elements;
        ParasUpToEnds(ls, l);
        for e := 0 to |es|
          invariant layouts == ls && id == old(id) && filename == old(filename) && elementIndex == old(elementIndex)
          invariant paragraphIndex == CacheOf(ParasUpTo(ls, l, e)) && paragraphOrder == OrderOf(ParasUpTo(ls, l, e))
        {
          ParasUpToNext(ls, l, e);
          CacheOfMore(ParasUpTo(ls, l, e), Met(ls, l, e));
          if es[e].ParagraphElement? {
            paragraphIndex := paragraphIndex[es[e].paragraph.id := Live(l, e)];
            paragraphOrder := paragraphOrder + [es[e].paragraph.id];
          }
        }
      }
      FreshCacheResolves(ls);
    }

    /** `invalidate_paragraph_index`. */
    method InvalidateParagraphIndex()
      modifies this
      ensures paragraphIndex == map[] && paragraphOrder == []
      ensures Valid()
      ensures layouts == old(layouts) && id == old(id) && filename == old(filename) && elementIndex == old(elementIndex)
    {
      paragraphIndex := map[];
      paragraphOrder := [];
    }

    /** The order list built when empty; the element index and the layouts untouched. */
    method EnsureParagraphIndex()
      requires Valid()
      modifies this
      ensures Valid()
      ensures old(paragraphOrder) != [] ==> paragraphIndex == old(paragraphIndex) && paragraphOrder == old(paragraphOrder)
      ensures old(paragraphOrder) == [] ==>
        paragraphIndex == CacheOf(AllParas(layouts)) && paragraphOrder == OrderOf(AllParas(layouts))
      ensures layouts == old(layouts) && id == old(id) && filename == old(filename) && elementIndex == old(elementIndex)
    {
      if paragraphOrder == [] {
        BuildParagraphIndex();
      }
    }

    /** The position of the paragraph id in the order list, as `list.index` finds it. */
    method OrderPosition(paraId: string) returns (idx: Option<nat>)
      ensures idx == FirstIndex(paragraphOrder, Some(paraId))
    {
      var order := paragraphOrder;
      var i := 0;
      while i < |order| && order[i] != Some(paraId)
        invariant i <= |order| && forall j :: 0 <= j < i ==> order[j] != Some(paraId)
      {
        i := i + 1;
      }
      if i == |order| {
        return None;
      }
      FirstIndexAt(order, Some(paraId), i);
      return Some(i);
    }

    /**
     * `get_next_paragraph_text`: the stripped text of the first later
     * paragraph with text, unless a heading or a caption comes first, read
     * through the cache (built first when its order list is empty).
     */
    method GetNextParagraphText(paraId: string) returns (r: Option<string>)
      requires Valid()
      modifies this
      ensures Valid()
      ensures r == NextParagraphText(Resolved(layouts, paragraphIndex, paragraphOrder), paragraphOrder, paraId)
      ensures old(paragraphOrder) != [] ==> paragraphIndex == old(paragraphIndex) && paragraphOrder == old(paragraphOrder)
      ensures old(paragraphOrder) == [] ==>
        paragraphIndex == CacheOf(AllParas(layouts)) && paragraphOrder == OrderOf(AllParas(layouts))
      ensures layouts == old(layouts) && id == old(id) && filename == old(filename) && elementIndex == old(elementIndex)
    {
      EnsureParagraphIndex();
      var idx := OrderPosition(paraId);
      if idx.None? {
        return None;
      }
      r := ScanForward(layouts, paragraphIndex, paragraphOrder, idx.value + 1);
      assert r == NextText(Resolved(layouts, paragraphIndex, paragraphOrder), idx.value + 1);
    }

    /** `get_prev_paragraph_text`: likewise, looking back from the paragraph. */
    method GetPrevParagraphText(paraId: string) returns (r: Option<string>)
      requires Valid()
      modifies this
      ensures Valid()
      ensures r == PrevParagraphText(Resolved(layouts, paragraphIndex, paragraphOrder), paragraphOrder, paraId)
      ensures old(paragraphOrder) != [] ==> paragraphIndex == old(paragraphIndex) && paragraphOrder == old(paragraphOrder)
      ensures old(paragraphOrder) == [] ==>
        paragraphIndex == CacheOf(AllParas(layouts)) && paragraphOrder == OrderOf(AllParas(layouts))
      ensures layouts == old(layouts) && id == old(id) && filename == old(filename) && elementIndex == old(elementIndex)
    {
      EnsureParagraphIndex();
      var idx := OrderPosition(paraId);
      if idx.None? {
        return None;
      }
      r := ScanBack(layouts, paragraphIndex, paragraphOrder, idx.value);
    }

    // -------------------------------------------------------------------------
    // Ids and the hierarchy
    // -------------------------------------------------------------------------

    /**
     * The loop of `assign_ids`: each layout's ids under `parent` by
     * position, stopping after the first layout that raises.
     */
    method AssignLayoutsIds(parent: string) returns (r: Result<()>)
      modifies this
      ensures var k := FirstRaising(old(layouts), 0);
        && layouts == IdsAssigned(old(layouts), parent, if k < |old(layouts)| then k + 1 else k)
        && (r.Err? <==> k < |old(layouts)|)
      ensures r.Err? ==> r.error == AttributeError
      ensures id == old(id) && filename == old(filename) && elementIndex == old(elementIndex)
      ensures paragraphIndex == old(paragraphIndex) && paragraphOrder == old(paragraphOrder)
    {
      ghost var ls := layouts;
      var n := |layouts|;
      for i := 0 to n
        invariant layouts == IdsAssigned(ls, parent, i)
        invariant forall j :: 0 <= j < i ==> !LayoutIdsRaise(ls[j])
        invariant id == old(id) && filename == old(filename) && elementIndex == old(elementIndex)
        invariant paragraphIndex == old(paragraphIndex) && paragraphOrder == old(paragraphOrder)
      {
        var layout, res := AssignLayoutIds(layouts[i], parent, i);
        IdsAssignedNext(ls, parent, i);
        layouts := layouts[i := layout];
        if res.Err? {
          FirstRaisingAt(ls, i);
          return Err(res.error);
        }
      }
      FirstRaisingNone(ls, 0);
      return Ok(());
    }

    /**
     * `assign_ids`: the document id from its index, then each layout's ids
     * under it by position; the first layout holding an absent element raises
     * once its present prefix is assigned, and the layouts after it are left
     * alone. The paragraph cache keeps resolving, since no element changes kind.
     */
    method AssignIds(docIndex: int) returns (r: Result<()>)
      requires Valid()
      modifies this
      ensures id == Some(DocId(docIndex))
      ensures (layouts, r.Err?) == DocIdsAssigned(old(layouts), docIndex)
      ensures r.Err? ==> r.error == AttributeError
      ensures Valid()
      ensures filename == old(filename) && elementIndex == old(elementIndex)
      ensures paragraphIndex == old(paragraphIndex) && paragraphOrder == old(paragraphOrder)
    {
      id := Some(DocId(docIndex));
      ghost var ls := layouts;
      r := AssignLayoutsIds(DocId(docIndex));
      ghost var k := FirstRaising(ls, 0);
      IdsAssignedSlots(ls, DocId(docIndex), if k < |ls| then k + 1 else k);
      SlotsKeepCache(ls, layouts, paragraphIndex, paragraphOrder);
    }

    /**
     * `build_hierarchy`: the marking pass over every element; an exception
     * leaves the elements marked so far.
     */
    method BuildHierarchy(matcher: Matcher) returns (err: Option<Exc>)
      requires Valid()
      modifies this
      ensures layouts == HierarchyOf(old(layouts), matcher).value && err == HierarchyOf(old(layouts), matcher).error
      ensures Valid()
      ensures id == old(id) && filename == old(filename) && elementIndex == old(elementIndex)
      ensures paragraphIndex == old(paragraphIndex) && paragraphOrder == old(paragraphOrder)
    {
      var s := WalkLayouts(layouts, matcher);
      HierarchyKeepsSlots(layouts, matcher);
      SlotsKeepCache(layouts, s.value, paragraphIndex, paragraphOrder);
      layouts := s.value;
      err := s.error;
    }

    // -------------------------------------------------------------------------
    // Section queries
    // -------------------------------------------------------------------------

    /** `get_headings`: the record of every top-level heading, in document order. */
    method GetHeadings(format: string) returns (headings: seq<Summary>)
      ensures headings == HeadingList(layouts, format)
    {
      var ls := layouts;
      headings := [];
      for l := 0 to |ls|
        invariant headings == HeadingSummaries(DocParas(ls, l), format)
      {
        var es := ls[l].elements;
        ParasUpToEnds(ls, l);
        for e := 0 to |es|
          invariant headings == HeadingSummaries(ParasUpTo(ls, l, e), format)
        {
          ParasUpToNext(ls, l, e);
          HeadingSummariesAppend(ParasUpTo(ls, l, e), Met(ls, l, e), format);
          if es[e].ParagraphElement? && IsHeadingPara(es[e].paragraph) {
            headings := headings + [SummaryOf(es[e].paragraph, format)];
          }
        }
      }
    }

    /** All elements, layout after layout. */
    method Flatten() returns (flat: seq<Element>)
      ensures flat == Flat(layouts)
    {
      var ls := layouts;
      flat := [];
      for l := 0 to |ls|
        invariant flat == Flat(ls[..l])
      {
        assert ls[..l + 1][..l] == ls[..l];
        flat := flat + ls[l].elements;
      }
      assert ls[..|ls|] == ls;
    }

    /**
     * `get_heading_content`: nothing unless the id names a paragraph; then
     * the rendered content after the first top-level element with that id,
     * up to the next heading (with sub-headings, the next at or above its
     * level).
     */
    method GetHeadingContent(headingId: string, opts: ContentOptions) returns (r: Result<Option<Section>>)
      modifies this
      ensures elementIndex == Effective(old(layouts), old(elementIndex))
      ensures r == HeadingContent(layouts, elementIndex, headingId, opts)
      ensures layouts == old(layouts) && id == old(id) && filename == old(filename)
      ensures paragraphIndex == old(paragraphIndex) && paragraphOrder == old(paragraphOrder)
    {
      var found := GetElementById(Some(headingId));
      if !(found.Some? && found.value.ParagraphNode?) {
        return Ok(None);
      }
      var heading := found.value.paragraph;
      var flat := Flatten();
      var start := LocateIn(flat, Some(headingId));
      if start.Err? {
        return Err(start.error);
      }
      if start.value.None? {
        return Ok(None);
      }
      var content := CollectContent(flat, start.value.value + 1, LevelOf(heading), opts);
      if content.Err? {
        return Err(content.error);
      }
      return Ok(Some(Section(Render(heading, opts.format), LevelOf(heading), content.value)));
    }
  
    /** The document's headings with where each stands, as the loops of `get_heading_details` gather them. */
    method CollectHeadings() returns (hs: seq<Placed>)
      ensures hs == HeadingPlaces(layouts)
    {
      var ls := layouts;
      hs := [];
      for l := 0 to |ls|
        invariant hs == HeadingsAmong(DocParas(ls, l))
      {
        var es := ls[l].elements;
        ParasUpToEnds(ls, l);
        for e := 0 to |es|
          invariant hs == HeadingsAmong(ParasUpTo(ls, l, e))
        {
          ParasUpToNext(ls, l, e);
          HeadingsAmongMore(ParasUpTo(ls, l, e), Met(ls, l, e));
          if es[e].ParagraphElement? && IsHeadingPara(es[e].paragraph) {
            hs := hs + [Placed(l, e, es[e].paragraph)];
          }
        }
      }
    }

    /** Sets each listed heading's parent reference, in order. */
    method WriteHeadingParents(hs: seq<Placed>, parents: seq<Option<string>>)
      requires |hs| == |parents|
      modifies this
      ensures layouts == WriteParents(old(layouts), hs, parents, |hs|)
      ensures elementIndex == old(elementIndex) && id == old(id) && filename == old(filename)
      ensures paragraphIndex == old(paragraphIndex) && paragraphOrder == old(paragraphOrder)
    {
      for k := 0 to |hs|
        invariant layouts == WriteParents(old(layouts), hs, parents, k)
        invariant elementIndex == old(elementIndex) && id == old(id) && filename == old(filename)
        invariant paragraphIndex == old(paragraphIndex) && paragraphOrder == old(paragraphOrder)
      {
        layouts := SetParent(layouts, hs[k].l, hs[k].e, parents[k]);
      }
    }

    /**
     * The rewrite at the heart of `get_heading_details`: every heading, in
     * document order, is given the parent the level rule picks for it. The
     * paragraph cache keeps resolving, since no element changes kind.
     */
    method ReparentHeadings() returns (hs: seq<Placed>)
      requires Valid()
      modifies this
      ensures hs == HeadingPlaces(old(layouts))
      ensures layouts == Reparent(old(layouts))
      ensures Valid()
      ensures elementIndex == old(elementIndex) && id == old(id) && filename == old(filename)
      ensures paragraphIndex == old(paragraphIndex) && paragraphOrder == old(paragraphOrder)
    {
      hs := CollectHeadings();
      var parents := ChainParents(RecordsOf(hs));
      assert parents == ParentsOf(hs);
      ghost var ls := layouts;
      WriteHeadingParents(hs, parents);
      ReparentSpec(ls);
      SlotsKeepCache(ls, layouts, paragraphIndex, paragraphOrder);
    }

    /**
     * `get_heading_details`: nothing unless the id names a heading
     * paragraph; otherwise every heading is given the parent the level rule
     * picks (in place), and the answer for `mode` is read from the rewritten
     * headings.
     */
    method GetHeadingDetails(headingId: string, mode: string, format: string) returns (r: Result<Details>)
      requires Valid()
      modifies this
      ensures elementIndex == Effective(old(layouts), old(elementIndex))
      ensures (r, layouts) == HeadingDetailsOf(old(layouts), elementIndex, headingId, mode, format)
      ensures Valid()
      ensures id == old(id) && filename == old(filename)
      ensures paragraphIndex == old(paragraphIndex) && paragraphOrder == old(paragraphOrder)
    {
      var found := GetElementById(Some(headingId));
      if !(found.Some? && found.value.ParagraphNode? && IsHeadingPara(found.value.paragraph)) {
        return Ok(NoDetails);
      }
      var heading := found.value.paragraph;
      var hs := ReparentHeadings();
      var current := ReRead(layouts, elementIndex[headingId], heading);
      var parent: Option<Node> := None;
      if Truthy(current.parentRefId) {
        parent := GetElementById(current.parentRefId);
      }
      r := DetailsOf(current, Reparented(hs), parent, mode, format);
    }

    // -------------------------------------------------------------------------
    // apply_placeholders
    // -------------------------------------------------------------------------

    /**
     * One placeholder of the first pass: `ops` is the queue so far, and the
     * new queue, the edited layouts and the index are those of one step of
     * the pass; an exception leaves the layouts as they were and the index
     * as the lookup left it.
     */
    method ApplyPlaceholder(ph: Placeholder, tokenize: Html.Tokenizer, ops: seq<Replacement>) returns (ops': seq<Replacement>, err: Option<Exc>)
      modifies this
      ensures var r := PlaceholderStep(Pass(old(layouts), old(elementIndex), ops), ph, tokenize);
        && (r.Ok? ==> err.None? && layouts == r.value.layouts && elementIndex == r.value.index && ops' == r.value.ops)
        && (r.Err? ==> err == Some(r.error) && layouts == old(layouts) && elementIndex == Effective(old(layouts), old(elementIndex)))
      ensures id == old(id) && filename == old(filename)
      ensures paragraphIndex == old(paragraphIndex) && paragraphOrder == old(paragraphOrder)
    {
      ops', err := ops, None;
      if !IsSet(ph.deleted) && ph.status != ReplacementDone {
        return;
      }
      var element := GetElementById(ph.elementId);
      var target := Target(elementIndex, ph.elementId);
      if target.None? {
        return;
      }
      if IsSet(ph.deleted) {
        layouts := ApplyEdit(layouts, target.value, ph, tokenize, Deletion);
        return;
      }
      if element.Some? && element.value.ParagraphNode? {
        var op := ResolveReplacement(ParagraphElement(element.value.paragraph), ph, tokenize);
        if op.Err? {
          return ops, Some(op.error);
        }
        if op.value.Some? {
          return ops + [op.value.value], None;
        }
      }
      layouts := ApplyEdit(layouts, target.value, ph, tokenize, Inline);
    }

    /**
     * `_apply_replacement`: the first top-level element with the old id is
     * swapped for the new elements; the paragraph cache follows the swap.
     * Reading the id of an absent entry raises.
     */
    method ApplyReplacement(op: Replacement) returns (err: Option<Exc>)
      modifies this
      ensures var f := FindElement(old(layouts), op.oldElementId, 0);
        && (f.Err? ==> err == Some(f.error) && layouts == old(layouts) && paragraphIndex == old(paragraphIndex))
        && (f.Ok? && f.value.None? ==> err.None? && layouts == old(layouts) && paragraphIndex == old(paragraphIndex))
        && (f.Ok? && f.value.Some? ==>
              && err.None?
              && layouts == Splice(old(layouts), f.value.value.0, f.value.value.1, op.newElements)
              && paragraphIndex == RelocateAll(old(layouts), old(paragraphIndex), f.value.value.0, f.value.value.1, |op.newElements|))
      ensures id == old(id) && filename == old(filename) && elementIndex == old(elementIndex) && paragraphOrder == old(paragraphOrder)
    {
      var found := LocateElement(layouts, op.oldElementId);
      if found.Err? {
        return Some(found.error);
      }
      if found.value.None? {
        return None;
      }
      var (l, e) := found.value.value;
      paragraphIndex := RelocateAll(layouts, paragraphIndex, l, e, |op.newElements|);
      layouts := Splice(layouts, l, e, op.newElements);
      return None;
    }

    /**
     * `apply_placeholders`: nothing for an empty list; otherwise the index is
     * built, every placeholder is applied in order (queuing the structural
     * ones), the queued swaps are made, and the index is dropped. The
     * paragraph cache keeps referring to the paragraphs it referred to.
     */
    method ApplyPlaceholders(phs: seq<Placeholder>, tokenize: Html.Tokenizer) returns (err: Option<Exc>)
      requires Valid()
      modifies this
      ensures Applied(layouts, elementIndex, paragraphIndex, err) == ApplyAll(old(layouts), old(elementIndex), old(paragraphIndex), phs, tokenize)
      ensures Valid()
      ensures id == old(id) && filename == old(filename) && paragraphOrder == old(paragraphOrder)
    {
      if phs == [] {
        return None;
      }
      ghost var ls, cache, order := layouts, paragraphIndex, paragraphOrder;
      ApplyAllKeepsCache(ls, elementIndex, cache, order, phs, tokenize);
      BuildElementIndex();
      ghost var o := PassFrom(Pass(layouts, elementIndex, []), phs, 0, tokenize);
      var ops: seq<Replacement> := [];
      for k := 0 to |phs|
        invariant PassFrom(Pass(layouts, elementIndex, ops), phs, k, tokenize) == o
        invariant paragraphIndex == cache && paragraphOrder == order && id == old(id) && filename == old(filename)
      {
        var e;
        ops, e := ApplyPlaceholder(phs[k], tokenize, ops);
        if e.Some? {
          return e;
        }
      }
      ghost var s := SpliceFrom(layouts, paragraphIndex, ops, 0);
      for k := 0 to |ops|
        invariant SpliceFrom(layouts, paragraphIndex, ops, k) == s
        invariant elementIndex == o.pass.index && paragraphOrder == order && id == old(id) && filename == old(filename)
      {
        var e := ApplyReplacement(ops[k]);
        if e.Some? {
          return e;
        }
      }
      InvalidateIndex();
      return None;
    }

    // -------------------------------------------------------------------------
    // Heading paths and the outline
    // -------------------------------------------------------------------------

    /**
     * One round of the climb of `_get_heading_path`: look the reference up;
     * either the path is complete, or the climb goes on from the heading found.
     */
    method Climb(ghost ls: seq<Layout>, ghost index: ElementIndex, ref: Option<string>, f: nat, collected: seq<string>)
      returns (done: Option<Option<seq<string>>>, ref': Option<string>, f': nat, collected': seq<string>)
      requires layouts == ls && elementIndex == index && Effective(ls, index) == index
      requires Truthy(ref) && f > 0
      modifies this
      ensures layouts == ls && elementIndex == index && id == old(id) && filename == old(filename)
      ensures paragraphIndex == old(paragraphIndex) && paragraphOrder == old(paragraphOrder)
      ensures done.Some? ==> done.value == Prefixed(PathFrom(ls, index, ref, f), collected)
      ensures done.None? ==> f' < f && Prefixed(PathFrom(ls, index, ref, f), collected) == Prefixed(PathFrom(ls, index, ref', f'), collected')
    {
      var parent := GetElementById(ref);
      ClimbEnd(ls, index, ref, f, parent, collected);
      ref', f', collected' := ref, f, collected;
      if parent.Some? && parent.value.ParagraphNode? && IsSet(parent.value.paragraph.isHeading) {
        var p := parent.value.paragraph;
        if p.headingLevel == Some(1) {
          return Some(Some(PathEntry(p) + collected)), ref', f', collected';
        }
        ClimbStep(ls, index, ref, f, p, collected);
        return None, p.parentRefId, f - 1, PathEntry(p) + collected;
      }
      return Some(Some(collected)), ref', f', collected';
    }

    /**
     * `_get_heading_path`: the texts of the headings above an element, from
     * the outermost down, climbing at most `fuel` parent references; `None`
     * when the fuel runs out first.
     */
    method GetHeadingPath(elem: Element, fuel: nat) returns (path: Option<seq<string>>)
      modifies this
      ensures path == PathFrom(layouts, Effective(old(layouts), old(elementIndex)), StartRef(elem), fuel)
      ensures elementIndex == old(elementIndex) || elementIndex == Effective(old(layouts), old(elementIndex))
      ensures layouts == old(layouts) && id == old(id) && filename == old(filename)
      ensures paragraphIndex == old(paragraphIndex) && paragraphOrder == old(paragraphOrder)
    {
      ghost var ls := layouts;
      ghost var index := Effective(ls, elementIndex);
      EffectiveStable(ls, elementIndex);
      var ref := StartRef(elem);
      if Truthy(ref) && elementIndex == map[] {
        // the first parent lookup builds the index
        BuildElementIndex();
      }
      var f := fuel;
      var collected: seq<string> := [];
      ghost var goal := PathFrom(ls, index, ref, f);
      assert goal.Some? ==> goal.value + [] == goal.value;
      while Truthy(ref)
        invariant goal == Prefixed(PathFrom(ls, index, ref, f), collected)
        invariant Truthy(ref) ==> elementIndex == index
        invariant elementIndex == old(elementIndex) || elementIndex == index
        invariant layouts == ls && id == old(id) && filename == old(filename)
        invariant paragraphIndex == old(paragraphIndex) && paragraphOrder == old(paragraphOrder)
        decreases f
      {
        if f == 0 {
          return None;
        }
        var done;
        done, ref, f, collected := Climb(ls, index, ref, f, collected);
        if done.Some? {
          return done.value;
        }
      }
      assert [] + collected == collected;
      return Some(collected);
    }

    /** `_get_heading_path_for_heading`: the heading's own path with its own text last. */
    method GetHeadingPathForHeading(heading: Paragraph, fuel: nat) returns (path: Option<seq<string>>)
      modifies this
      ensures path == Prefixed(PathFrom(layouts, Effective(old(layouts), old(elementIndex)), heading.parentRefId, fuel), PathEntry(heading))
      ensures elementIndex == old(elementIndex) || elementIndex == Effective(old(layouts), old(elementIndex))
      ensures layouts == old(layouts) && id == old(id) && filename == old(filename)
      ensures paragraphIndex == old(paragraphIndex) && paragraphOrder == old(paragraphOrder)
    {
      path := GetHeadingPath(ParagraphElement(heading), fuel);
      if path.Some? {
        path := Some(path.value + PathEntry(heading));
      }
    }

    /** One element of `build_index`; a table's caption is looked up by id. */
    method OutlineElement(st: OutlineState, elem: Element) returns (r: Result<OutlineState>)
      modifies this
      ensures r == OutlineStep(layouts, Effective(old(layouts), old(elementIndex)), st, elem)
      ensures elementIndex == old(elementIndex) || elementIndex == Effective(old(layouts), old(elementIndex))
      ensures layouts == old(layouts) && id == old(id) && filename == old(filename)
      ensures paragraphIndex == old(paragraphIndex) && paragraphOrder == old(paragraphOrder)
    {
      match elem {
        case ParagraphElement(p) =>
          if IsSet(p.isHeading) {
            return Register(st, p.id, ParagraphText(p, "full"), OutlineItem, p.parentRefId);
          }
          if !IsSet(p.isCaption) {
            return Register(st, p.id, "Paragraph " + PyStr(p.id), ParaItem, p.parentRefId);
          }
          return Ok(st);
        case TableElement(t) =>
          var caption: Option<string> := None;
          if Truthy(t.captionRefId) {
            var node := GetElementById(t.captionRefId);
            if node.Some? {
              var text := NodeText(node.value);
              if text.Err? {
                return Err(text.error);
              }
              caption := Some(text.value);
            }
          }
          var title := if caption.Some? && caption.value != "" then caption.value else "Table " + PyStr(t.id);
          return Register(st, t.id, title, TableItem, t.parentRefId);
        case Absent =>
          return Ok(st);
      }
    }

    /**
     * `build_index`: one outline item per heading, non-caption paragraph and
     * table, each attached under the item its parent reference names when
     * that one is registered already.
     */
    method BuildIndex(fileName: string) returns (r: Result<FileIndex>)
      modifies this
      ensures r == OutlineOf(layouts, old(elementIndex), id, fileName)
      ensures elementIndex == old(elementIndex) || elementIndex == Effective(old(layouts), old(elementIndex))
      ensures layouts == old(layouts) && id == old(id) && filename == old(filename)
      ensures paragraphIndex == old(paragraphIndex) && paragraphOrder == old(paragraphOrder)
    {
      ghost var index := Effective(layouts, elementIndex);
      EffectiveStable(layouts, elementIndex);
      var ls := layouts;
      var st := Empty;
      for l := 0 to |ls|
        invariant OutlineLayouts(ls, index, Empty, 0) == OutlineLayouts(ls, index, st, l)
        invariant elementIndex == old(elementIndex) || elementIndex == index
        invariant layouts == ls && id == old(id) && filename == old(filename)
        invariant paragraphIndex == old(paragraphIndex) && paragraphOrder == old(paragraphOrder)
      {
        var es := ls[l].elements;
        ghost var start := st;
        for k := 0 to |es|
          invariant OutlineElements(ls, index, start, es, 0) == OutlineElements(ls, index, st, es, k)
          invariant elementIndex == old(elementIndex) || elementIndex == index
          invariant layouts == ls && id == old(id) && filename == old(filename)
          invariant paragraphIndex == old(paragraphIndex) && paragraphOrder == old(paragraphOrder)
        {
          var next := OutlineElement(st, es[k]);
          if next.Err? {
            return Err(next.error);
          }
          st := next.value;
        }
      }
      if id.None? {
        return Err(ValueError);
      }
      return Ok(FileIndex(id.value, fileName, st.items));
    }
  }
}
