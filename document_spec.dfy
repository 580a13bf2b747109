/**
 * The document-level operations as functions of the layouts: the uid in a
 * document id, `assign_ids` over all layouts, the walk over the document's
 * paragraphs that several methods share, and the parent rewrite of
 * `get_heading_details`.
 */
module DocumentSpec {
  import opened Wrappers
  import opened Text
  import opened Runs
  import opened Paragraphs
  import opened Layouts
  import opened DocTree
  import opened Splices
  import opened ParagraphCache
  import opened HeadingStacks
  import opened Sections

  // ---------------------------------------------------------------------------
  // get_doc_uid
  // ---------------------------------------------------------------------------

  /** The longest prefix of `s` without a colon. */
  function UidPrefix(s: string): (u: string)
    ensures u <= s && ':' !in u
    ensures |u| < |s| ==> s[|u|] == ':'
  {
    if s == [] || s[0] == ':' then [] else [s[0]] + UidPrefix(s[1..])
  }

  /**
   * `get_doc_uid`: the non-empty run of non-colon characters right after a
   * leading "doc::", as the pattern `^doc::([^:]+)` captures it; without a
   * match, taking the group raises.
   */
  function DocUid(id: string): (r: Result<string>)
    ensures r.Ok? <==> StartsWith(id, "doc::") && |id| > 5 && id[5] != ':'
    ensures r.Ok? ==> "doc::" + r.value <= id && r.value != "" && ':' !in r.value
    ensures r.Ok? && 5 + |r.value| < |id| ==> id[5 + |r.value|] == ':'
    ensures r.Err? ==> r.error == AttributeError
  {
    if StartsWith(id, "doc::") && UidPrefix(id[5..]) != "" then
      var u := UidPrefix(id[5..]);
      assert id[..5] + u <= id by {
        assert id == id[..5] + id[5..];
      }
      Ok(u)
    else Err(AttributeError)
  }

  lemma {:induction false} UidPrefixOf(uid: string, rest: string)
    requires ':' !in uid && (rest == [] || rest[0] == ':')
    ensures UidPrefix(uid + rest) == uid
    decreases |uid|
  {
    if uid != [] {
      assert (uid + rest)[1..] == uid[1..] + rest;
      UidPrefixOf(uid[1..], rest);
    }
  }

  /** A uid without colons, followed by nothing or by a colon, is read back. */
  lemma DocUidOf(uid: string, rest: string)
    requires uid != "" && ':' !in uid && (rest == "" || rest[0] == ':')
    ensures DocUid("doc::" + uid + rest) == Ok(uid)
  {
    var id := "doc::" + uid + rest;
    assert id[..5] == "doc::";
    assert id[5..] == uid + rest;
    UidPrefixOf(uid, rest);
  }

  /** The id `assign_ids` gives the document. */
  function DocId(docIndex: int): string {
    "doc::" + IntToString(docIndex)
  }

  /** The document's own id, and every id made under it, carry the document index as uid. */
  lemma AssignedIdsCarryUid(docIndex: int, kind: string, index: int)
    ensures DocUid(DocId(docIndex)) == Ok(IntToString(docIndex))
    ensures DocUid(MakeId(DocId(docIndex), kind, index)) == Ok(IntToString(docIndex))
  {
    var n := IntToString(docIndex);
    DocUidOf(n, "");
    assert DocId(docIndex) == "doc::" + n + "";
    var rest := ":" + kind + "::" + IntToString(index);
    assert MakeId(DocId(docIndex), kind, index) == "doc::" + n + rest;
    DocUidOf(n, rest);
  }

  // ---------------------------------------------------------------------------
  // assign_ids
  // ---------------------------------------------------------------------------

  /** The first layout at or after `k` whose `assign_ids` raises, or the number of layouts. */
  function FirstRaising(layouts: seq<Layout>, k: nat): (i: nat)
    requires k <= |layouts|
    ensures k <= i <= |layouts|
    ensures forall j :: k <= j < i ==> !LayoutIdsRaise(layouts[j])
    ensures i < |layouts| ==> LayoutIdsRaise(layouts[i])
    decreases |layouts| - k
  {
    if k == |layouts| || LayoutIdsRaise(layouts[k]) then k else FirstRaising(layouts, k + 1)
  }

  /** The layouts once the first `n` have had their ids assigned under `parent`, by position. */
  function IdsAssigned(layouts: seq<Layout>, parent: string, n: nat): (out: seq<Layout>)
    ensures |out| == |layouts|
  {
    seq(|layouts|, i requires 0 <= i < |layouts| => if i < n then LayoutWithIds(layouts[i], parent, i) else layouts[i])
  }

  /**
   * `DocumentModel.assign_ids`: the layouts up to and including the first
   * one that raises are assigned (that one partly), the rest are left alone;
   * and whether it raised.
   */
  function DocIdsAssigned(layouts: seq<Layout>, docIndex: int): (seq<Layout>, bool) {
    var k := FirstRaising(layouts, 0);
    (IdsAssigned(layouts, DocId(docIndex), if k < |layouts| then k + 1 else k), k < |layouts|)
  }

  /** Assigning element ids keeps every element's kind. */
  lemma ElementsIdsKinds(es: seq<Element>, parent: string)
    ensures var out := ElementsIdsAssigned(es, parent);
      |out| == |es| &&
      forall i :: 0 <= i < |es| ==>
        out[i].ParagraphElement? == es[i].ParagraphElement? && out[i].TableElement? == es[i].TableElement?
  {
    var k := PresentPrefix(es);
    var out := ElementsIdsAssigned(es, parent);
    forall i | 0 <= i < |es|
      ensures out[i].ParagraphElement? == es[i].ParagraphElement? && out[i].TableElement? == es[i].TableElement?
    {
      if i < k {
        assert out[i] == ElementWithIds(es[i], parent, i);
      } else {
        assert out[i] == es[i];
      }
    }
  }

  /** A layout raises again exactly when it raised, once its ids are assigned. */
  lemma LayoutIdsRaiseKept(l: Layout, parent: string, index: int)
    ensures LayoutIdsRaise(LayoutWithIds(l, parent, index)) == LayoutIdsRaise(l)
  {
    var id := MakeId(parent, "layout", index);
    var es, out := l.elements, ElementsIdsAssigned(l.elements, id);
    ElementsIdsKinds(es, id);
    var k := PresentPrefix(es);
    assert forall j :: 0 <= j < |es| ==> (out[j].Absent? <==> es[j].Absent?);
    PresentPrefixOf(out, k);
  }

  /** Assigning ids keeps the paragraph slots, so the paragraph cache keeps referring. */
  lemma IdsAssignedSlots(layouts: seq<Layout>, parent: string, n: nat)
    ensures ParagraphSlots(layouts, IdsAssigned(layouts, parent, n))
  {
    var out := IdsAssigned(layouts, parent, n);
    forall l | 0 <= l < |layouts| && l < n
      ensures |out[l].elements| == |layouts[l].elements|
      ensures forall e :: 0 <= e < |layouts[l].elements| ==>
        (layouts[l].elements[e].ParagraphElement? <==> out[l].elements[e].ParagraphElement?)
    {
      ElementsIdsKinds(layouts[l].elements, MakeId(parent, "layout", l));
    }
  }

  /** One more layout assigned. */
  lemma IdsAssignedNext(layouts: seq<Layout>, parent: string, i: nat)
    requires i < |layouts|
    ensures IdsAssigned(layouts, parent, i)[i := LayoutWithIds(layouts[i], parent, i)] == IdsAssigned(layouts, parent, i + 1)
  {
  }

  /** The first layout that raises, found by a scan from the start. */
  lemma FirstRaisingAt(layouts: seq<Layout>, i: nat)
    requires i < |layouts| && LayoutIdsRaise(layouts[i]) && forall j :: 0 <= j < i ==> !LayoutIdsRaise(layouts[j])
    ensures FirstRaising(layouts, 0) == i
  {
  }

  lemma {:induction false} FirstRaisingNone(layouts: seq<Layout>, k: nat)
    requires k <= |layouts| && forall i :: k <= i < |layouts| ==> !LayoutIdsRaise(layouts[i])
    ensures FirstRaising(layouts, k) == |layouts|
    decreases |layouts| - k
  {
    if k < |layouts| {
      FirstRaisingNone(layouts, k + 1);
    }
  }

  /**
   * On a document without absent elements, `assign_ids` does not raise, every
   * layout gets the id of its position under the document id, and running it
   * again changes nothing.
   */
  lemma AssignIdsIdempotent(layouts: seq<Layout>, docIndex: int)
    requires FirstRaising(layouts, 0) == |layouts|
    ensures DocIdsAssigned(layouts, docIndex) == (IdsAssigned(layouts, DocId(docIndex), |layouts|), false)
    ensures var out := IdsAssigned(layouts, DocId(docIndex), |layouts|);
      forall i :: 0 <= i < |out| ==> out[i].id == Some(MakeId(DocId(docIndex), "layout", i))
    ensures var out := IdsAssigned(layouts, DocId(docIndex), |layouts|);
      DocIdsAssigned(out, docIndex) == (out, false)
  {
    var parent := DocId(docIndex);
    var out := IdsAssigned(layouts, parent, |layouts|);
    forall i | 0 <= i < |layouts| ensures !LayoutIdsRaise(out[i]) {
      LayoutIdsRaiseKept(layouts[i], parent, i);
    }
    FirstRaisingNone(out, 0);
    forall i | 0 <= i < |layouts| ensures LayoutWithIds(out[i], parent, i) == out[i] {
      LayoutIdsIdempotent(layouts[i], parent, i);
    }
    assert IdsAssigned(out, parent, |out|) == out;
  }

  // ---------------------------------------------------------------------------
  // The walk over the layouts' paragraphs
  // ---------------------------------------------------------------------------

  /** The paragraphs met before element `e` of layout `l`. */
  function ParasUpTo(ls: seq<Layout>, l: nat, e: nat): seq<Placed>
    requires l < |ls| && e <= |ls[l].elements|
  {
    DocParas(ls, l) + ElementParas(l, ls[l].elements, e)
  }

  /** The paragraph, if any, that element `e` of layout `l` adds. */
  function Met(ls: seq<Layout>, l: nat, e: nat): seq<Placed>
    requires l < |ls| && e < |ls[l].elements|
  {
    if ls[l].elements[e].ParagraphElement? then [Placed(l, e, ls[l].elements[e].paragraph)] else []
  }

  lemma ParasUpToNext(ls: seq<Layout>, l: nat, e: nat)
    requires l < |ls| && e < |ls[l].elements|
    ensures ParasUpTo(ls, l, e + 1) == ParasUpTo(ls, l, e) + Met(ls, l, e)
  {
  }

  lemma ParasUpToEnds(ls: seq<Layout>, l: nat)
    requires l < |ls|
    ensures ParasUpTo(ls, l, 0) == DocParas(ls, l)
    ensures ParasUpTo(ls, l, |ls[l].elements|) == DocParas(ls, l + 1)
  {
    assert DocParas(ls, l) + [] == DocParas(ls, l);
  }

  /** The heading records of a list of paragraphs. */
  function HeadingSummaries(ps: seq<Placed>, format: string): seq<Summary> {
    Summaries(ParasOf(HeadingsAmong(ps)), format)
  }

  lemma HeadingSummariesAppend(ps: seq<Placed>, more: seq<Placed>, format: string)
    requires |more| <= 1
    ensures HeadingSummaries(ps + more, format) ==
      HeadingSummaries(ps, format) + (if more != [] && IsHeadingPara(more[0].paragraph) then [SummaryOf(more[0].paragraph, format)] else [])
  {
    if more == [] {
      assert ps + more == ps;
    } else {
      HeadingsAmongAppend(ps, more[0]);
    }
  }

  lemma HeadingsAmongMore(ps: seq<Placed>, more: seq<Placed>)
    requires |more| <= 1
    ensures HeadingsAmong(ps + more) == HeadingsAmong(ps) + (if more != [] && IsHeadingPara(more[0].paragraph) then more else [])
  {
    if more == [] {
      assert ps + more == ps;
    } else {
      HeadingsAmongAppend(ps, more[0]);
    }
  }

  lemma CacheOfMore(ps: seq<Placed>, more: seq<Placed>)
    requires |more| <= 1
    ensures CacheOf(ps + more) == if more == [] then CacheOf(ps) else CacheOf(ps)[more[0].paragraph.id := Live(more[0].l, more[0].e)]
    ensures OrderOf(ps + more) == OrderOf(ps) + (if more == [] then [] else [more[0].paragraph.id])
  {
    if more == [] {
      assert ps + more == ps;
    } else {
      CacheOfAppend(ps, more[0]);
    }
  }

  // ---------------------------------------------------------------------------
  // get_heading_details
  // ---------------------------------------------------------------------------

  /** The layouts once every heading has been given the parent the level rule picks. */
  function Reparent(layouts: seq<Layout>): seq<Layout> {
    var hs := HeadingPlaces(layouts);
    WriteParents(layouts, hs, ParentsOf(hs), |hs|)
  }

  /** The rewrite keeps the paragraph slots, gives each heading its parent, and leaves every other element. */
  lemma ReparentSpec(layouts: seq<Layout>)
    ensures var out, hs := Reparent(layouts), HeadingPlaces(layouts);
      && PlacedIn(layouts, hs)
      && ParagraphSlots(layouts, out)
      && Untouched(layouts, out, hs, |hs|)
      && (forall i :: 0 <= i < |hs| ==> out[hs[i].l].elements[hs[i].e] == ParagraphElement(Reparented(hs)[i]))
  {
    var hs := HeadingPlaces(layouts);
    HeadingPlacesPlaced(layouts);
    WriteParentsSpec(layouts, hs, ParentsOf(hs), |hs|);
  }

  /** The heading as read again at its place after the rewrite. */
  function ReRead(out: seq<Layout>, loc: Location, h: Paragraph): Paragraph {
    match At(out, loc)
    case Some(ParagraphNode(q)) => q
    case _ => h
  }

  /**
   * `get_heading_details` on the index `index` a lookup reads: nothing unless
   * the id names a heading paragraph; otherwise the headings' parents are
   * rewritten, the heading is read again, its parent looked up, and the
   * answer for `mode` given. The second component is the document's layouts
   * afterwards.
   */
  function HeadingDetailsOf(layouts: seq<Layout>, index: ElementIndex, headingId: string, mode: string, format: string): (Result<Details>, seq<Layout>) {
    match Lookup(layouts, index, Some(headingId))
    case Some(ParagraphNode(h)) =>
      if !IsHeadingPara(h) then (Ok(NoDetails), layouts)
      else
        var out := Reparent(layouts);
        var h' := ReRead(out, index[headingId], h);
        var parent := if Truthy(h'.parentRefId) then Lookup(out, index, h'.parentRefId) else None;
        (DetailsOf(h', Reparented(HeadingPlaces(layouts)), parent, mode, format), out)
    case _ => (Ok(NoDetails), layouts)
  }

  /** A query for anything but a heading paragraph answers nothing and changes nothing. */
  lemma DetailsOfNonHeading(layouts: seq<Layout>, index: ElementIndex, headingId: string, mode: string, format: string)
    requires !(Lookup(layouts, index, Some(headingId)).Some? && Lookup(layouts, index, Some(headingId)).value.ParagraphNode?
               && IsHeadingPara(Lookup(layouts, index, Some(headingId)).value.paragraph))
    ensures HeadingDetailsOf(layouts, index, headingId, mode, format) == (Ok(NoDetails), layouts)
  {
  }

  /**
   * A heading among the layouts' elements is read again with the parent the
   * level rule gives it, so that its siblings, its children and its position
   * among the siblings are those of the rewritten headings.
   */
  lemma ReparentAt(layouts: seq<Layout>, hs: seq<Placed>, i: nat)
    requires hs == HeadingPlaces(layouts) && i < |hs|
    ensures hs[i].l < |layouts| && hs[i].e < |layouts[hs[i].l].elements|
    ensures layouts[hs[i].l].elements[hs[i].e] == ParagraphElement(hs[i].paragraph)
    ensures var out := Reparent(layouts);
      hs[i].l < |out| && hs[i].e < |out[hs[i].l].elements|
      && out[hs[i].l].elements[hs[i].e] == ParagraphElement(Reparented(hs)[i])
  {
    ReparentSpec(layouts);
  }

  lemma ReReadTopHeading(layouts: seq<Layout>, i: nat)
    requires i < |HeadingPlaces(layouts)|
    ensures var x, hs := HeadingPlaces(layouts)[i], HeadingPlaces(layouts);
      && At(layouts, ElementAt(x.l, x.e)) == Some(ParagraphNode(x.paragraph))
      && ReRead(Reparent(layouts), ElementAt(x.l, x.e), x.paragraph) == Reparented(hs)[i]
      && Reparented(hs)[i].parentRefId == ParentOf(RecordsOf(hs), i)
  {
    var hs := HeadingPlaces(layouts);
    var out := Reparent(layouts);
    var x := hs[i];
    ReparentAt(layouts, hs, i);
    ElementNodeOfParagraph(layouts, x.l, x.e, x.paragraph);
    ElementNodeOfParagraph(out, x.l, x.e, Reparented(hs)[i]);
  }

  lemma ElementNodeOfParagraph(layouts: seq<Layout>, l: nat, e: nat, p: Paragraph)
    requires l < |layouts| && e < |layouts[l].elements| && layouts[l].elements[e] == ParagraphElement(p)
    ensures At(layouts, ElementAt(l, e)) == Some(ParagraphNode(p))
  {
  }

  /**
   * Asked about a heading through an index entry that points at it, the
   * details are those of the heading with its rewritten parent, among the
   * rewritten headings, and the layouts afterwards are the rewritten ones.
   */
  lemma DetailsOfHeading(layouts: seq<Layout>, index: ElementIndex, headingId: string, i: nat, mode: string, format: string)
    requires i < |HeadingPlaces(layouts)|
    requires headingId in index && index[headingId] == ElementAt(HeadingPlaces(layouts)[i].l, HeadingPlaces(layouts)[i].e)
    ensures var hs, out := HeadingPlaces(layouts), Reparent(layouts);
      var h := Reparented(hs)[i];
      var parent := if Truthy(h.parentRefId) then Lookup(out, index, h.parentRefId) else None;
      HeadingDetailsOf(layouts, index, headingId, mode, format) == (DetailsOf(h, Reparented(hs), parent, mode, format), out)
  {
    var hs := HeadingPlaces(layouts);
    var x := hs[i];
    ReReadTopHeading(layouts, i);
    assert IsHeadingPara(x.paragraph);
    assert Lookup(layouts, index, Some(headingId)) == Some(ParagraphNode(x.paragraph));
    assert ReRead(Reparent(layouts), index[headingId], x.paragraph) == Reparented(hs)[i];
  }
}
