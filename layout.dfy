/**
 * Layouts: a page layout's header and footer bands and the elements it holds.
 * Header and footer behave identically except for the word used in their id
 * and their HTML tag, so one datatype with a kind stands for both.
 */
module Layouts {
  import opened Wrappers
  import opened Text
  import opened Html
  import opened Runs
  import opened RunHtml
  import opened RunEdits
  import opened Placeholders
  import opened Paragraphs
  import opened Tables

  datatype BandKind = Header | Footer

  /** The word naming a band kind, both in its id and as its HTML tag. */
  function KindName(k: BandKind): string {
    match k
    case Header => "header"
    case Footer => "footer"
  }

  /** A header or footer: runs of text and an id; which of the two it is follows from where it sits. */
  datatype Band = Band(runs: seq<Run>, id: Option<string>)

  /** A layout element; an entry of unknown type is kept as `Absent`. */
  datatype Element = ParagraphElement(paragraph: Paragraph) | TableElement(table: Table) | Absent

  datatype Layout = Layout(
    orientation: string,
    header: Option<Band>,
    footer: Option<Band>,
    elements: seq<Element>,
    id: Option<string>)

  // ---------------------------------------------------------------------------
  // Bands
  // ---------------------------------------------------------------------------

  /** The band of the given kind once `assign_ids(parent, index)` has run. */
  function BandWithIds(kind: BandKind, b: Band, parent: string, index: int): Band {
    var id := MakeId(parent, KindName(kind), index);
    b.(id := Some(id), runs := RunIds(b.runs, id))
  }

  /** `HeaderModel.assign_ids` / `FooterModel.assign_ids`: the band's id, then each run's. */
  method AssignBandIds(kind: BandKind, b: Band, parent: string, index: int) returns (b': Band)
    ensures b' == BandWithIds(kind, b, parent, index)
  {
    var id := MakeId(parent, KindName(kind), index);
    ghost var target := RunIds(b.runs, id);
    var runs: seq<Run> := [];
    var i := 0;
    while i < |b.runs|
      invariant 0 <= i <= |b.runs|
      invariant runs == target[..i]
    {
      assert target[..i + 1] == target[..i] + [AssignRunId(b.runs[i], id, i)];
      runs := runs + [AssignRunId(b.runs[i], id, i)];
      i := i + 1;
    }
    assert runs == target;
    b' := b.(id := Some(id), runs := runs);
  }

  /**
   * A band's id reads back as its parent, kind and index; each run's id reads
   * back as the band's id, "run" and its position; the text is kept.
   */
  lemma BandIdsSpec(kind: BandKind, b: Band, parent: string, index: int)
    ensures var b' := BandWithIds(kind, b, parent, index);
      && ParseId(b'.id.value) == Some((parent, KindName(kind), index))
      && |b'.runs| == |b.runs|
      && (forall i :: 0 <= i < |b.runs| ==> ParseId(b'.runs[i].id.value) == Some((b'.id.value, "run", i)))
      && TextOf(b'.runs) == TextOf(b.runs)
  {
    var b' := BandWithIds(kind, b, parent, index);
    MakeIdRoundTrip(parent, KindName(kind), index);
    forall i | 0 <= i < |b.runs| ensures ParseId(b'.runs[i].id.value) == Some((b'.id.value, "run", i)) {
      RunIdParses(b.runs[i], b'.id.value, i);
    }
    RunIdsKeepText(b.runs, b'.id.value);
  }

  /** `to_text(mode)`: the runs' texts in that mode, joined. */
  function BandText(b: Band, mode: string): string {
    RunsText(b.runs, mode)
  }

  /** `to_html`: the band's tag around the HTML of its runs with text, or around `&nbsp;`. */
  function BandHtml(kind: BandKind, b: Band): string {
    var inner := InnerHtml(b.runs);
    "<" + KindName(kind) + ">" + (if inner == "" then "&nbsp;" else inner) + "</" + KindName(kind) + ">"
  }

  /** A band renders as a bare non-breaking space exactly when none of its runs has text. */
  lemma BandHtmlBlank(kind: BandKind, b: Band)
    ensures (forall k :: 0 <= k < |b.runs| ==> b.runs[k].text == "") <==>
      BandHtml(kind, b) == "<" + KindName(kind) + ">&nbsp;</" + KindName(kind) + ">"
  {
    InnerHtmlEmpty(b.runs);
    if InnerHtml(b.runs) != "" {
      InnerHtmlStartsWithTag(b.runs);
    }
    FilledOrBlank(KindName(kind), InnerHtml(b.runs));
  }

  /** Markup around a body starting with a tag differs from the same markup around `&nbsp;`. */
  lemma FilledOrBlank(tag: string, inner: string)
    requires inner == "" || inner[0] == '<'
    ensures inner == "" <==>
      "<" + tag + ">" + (if inner == "" then "&nbsp;" else inner) + "</" + tag + ">" == "<" + tag + ">&nbsp;</" + tag + ">"
  {
    var pre, post := "<" + tag + ">", "</" + tag + ">";
    var blank := pre + "&nbsp;" + post;
    assert blank == "<" + tag + ">&nbsp;</" + tag + ">";
    if inner != "" {
      var html := pre + inner + post;
      assert html[|pre|] == inner[0];
      assert blank[|pre|] == '&';
    }
  }

  /**
   * `apply_inline_placeholder`: with replacement text, and the band's full
   * text holding the placeholder's text, the runs become the tracked
   * replacement and the result is True; otherwise nothing changes.
   */
  method ApplyBandInline(b: Band, ph: Placeholder, tokenize: Tokenizer) returns (b': Band, applied: bool)
    ensures applied <==> Truthy(ph.replacedText) && Contains(TextOf(b.runs), ph.text)
    ensures !applied ==> b' == b
    ensures applied ==>
      b' == b.(runs := Replaced(b.runs, ph.text, ParseRuns(tokenize(ph.replacedText.value)), CommentFor(ph)))
  {
    if !Truthy(ph.replacedText) {
      return b, false;
    }
    var full := BandText(b, "full");
    FullTextIsText(b.runs);
    if !Contains(full, ph.text) {
      return b, false;
    }
    var comment := BuildCommentText(ph);
    var runs := ReplaceText(b.runs, ph.text, tokenize, ph.replacedText.value, comment);
    return b.(runs := runs), true;
  }

  /** `apply_deleted_placeholder`: when the band holds the text, it is dropped from the runs. */
  method ApplyBandDeleted(b: Band, ph: Placeholder) returns (b': Band, applied: bool)
    ensures applied <==> Contains(TextOf(b.runs), ph.text)
    ensures !applied ==> b' == b
    ensures applied ==> b' == b.(runs := Dropped(b.runs, ph.text))
  {
    var full := BandText(b, "full");
    FullTextIsText(b.runs);
    if !Contains(full, ph.text) {
      return b, false;
    }
    var runs := DropText(b.runs, ph.text);
    return b.(runs := runs), true;
  }

  // ---------------------------------------------------------------------------
  // Elements as decoded from a dictionary
  // ---------------------------------------------------------------------------

  /**
   * An element entry as `from_dict` sees it: its "type" value and what it
   * decodes to as a paragraph and as a table.
   */
  datatype ElementData = ElementData(typeName: Option<string>, asParagraph: Paragraph, asTable: Table)

  /** The element dispatch of `LayoutModel.from_dict`: by type, and `Absent` for any other type. */
  function ElementOf(d: ElementData): Element {
    if d.typeName == Some("Paragraph") then ParagraphElement(d.asParagraph)
    else if d.typeName == Some("Table") then TableElement(d.asTable)
    else Absent
  }

  /** Every entry yields exactly one element, in order; only an entry of unknown type yields `Absent`. */
  function ElementsOf(ds: seq<ElementData>): (es: seq<Element>)
    ensures |es| == |ds|
    ensures forall i :: 0 <= i < |ds| ==>
      && (es[i].Absent? <==> ds[i].typeName != Some("Paragraph") && ds[i].typeName != Some("Table"))
      && (es[i].ParagraphElement? ==> es[i].paragraph == ds[i].asParagraph)
      && (es[i].TableElement? ==> es[i].table == ds[i].asTable)
  {
    seq(|ds|, i requires 0 <= i < |ds| => ElementOf(ds[i]))
  }

  // ---------------------------------------------------------------------------
  // Layout ids
  // ---------------------------------------------------------------------------

  /** `elem.assign_ids(parent, index)` on one element; an absent entry keeps no id. */
  function ElementWithIds(e: Element, parent: string, index: int): Element {
    match e
    case ParagraphElement(p) => ParagraphElement(ParagraphWithIds(p, parent, index))
    case TableElement(t) => TableElement(TableWithIds(t, parent, index))
    case Absent => Absent
  }

  function ElementsWithIds(es: seq<Element>, parent: string): (out: seq<Element>)
    ensures |out| == |es|
  {
    seq(|es|, i requires 0 <= i < |es| => ElementWithIds(es[i], parent, i))
  }

  /** The number of elements before the first absent one. */
  function PresentPrefix(es: seq<Element>): (k: nat)
    ensures k <= |es|
    ensures forall j :: 0 <= j < k ==> !es[j].Absent?
    ensures k < |es| ==> es[k].Absent?
  {
    if es == [] || es[0].Absent? then 0 else 1 + PresentPrefix(es[1..])
  }

  function OptBandWithIds(kind: BandKind, b: Option<Band>, parent: string): Option<Band> {
    match b
    case None => None
    case Some(band) => Some(BandWithIds(kind, band, parent, 0))
  }

  /**
   * The layout once `LayoutModel.assign_ids(parent, index)` has run: its id,
   * header and footer (both at index 0) and its elements by position, up to
   * the first absent element, on which the call raises.
   */
  function LayoutWithIds(l: Layout, parent: string, index: int): Layout {
    var id := MakeId(parent, "layout", index);
    l.(id := Some(id),
       header := OptBandWithIds(Header, l.header, id),
       footer := OptBandWithIds(Footer, l.footer, id),
       elements := ElementsIdsAssigned(l.elements, id))
  }

  /** The elements with ids assigned by position up to the first absent one, and the rest unchanged. */
  function ElementsIdsAssigned(es: seq<Element>, parent: string): seq<Element> {
    var k := PresentPrefix(es);
    ElementsWithIds(es, parent)[..k] + es[k..]
  }

  /** Whether `LayoutModel.assign_ids` raises: an absent element has no `assign_ids`. */
  predicate LayoutIdsRaise(l: Layout) {
    PresentPrefix(l.elements) < |l.elements|
  }

  /** `LayoutModel.assign_ids`: the new layout, and AttributeError if an absent element was reached. */
  method AssignLayoutIds(l: Layout, parent: string, index: int) returns (l': Layout, r: Result<()>)
    ensures l' == LayoutWithIds(l, parent, index)
    ensures r.Err? <==> LayoutIdsRaise(l)
    ensures r.Err? ==> r.error == AttributeError
  {
    var id := MakeId(parent, "layout", index);
    var header := l.header;
    if header.Some? {
      var h := AssignBandIds(Header, header.value, id, 0);
      header := Some(h);
    }
    var footer := l.footer;
    if footer.Some? {
      var f := AssignBandIds(Footer, footer.value, id, 0);
      footer := Some(f);
    }
    var es;
    es, r := AssignElementIds(l.elements, id);
    l' := l.(id := Some(id), header := header, footer := footer, elements := es);
  }

  /** The element loop of `LayoutModel.assign_ids`, which stops by raising at the first absent element. */
  method AssignElementIds(elements: seq<Element>, id: string) returns (es: seq<Element>, r: Result<()>)
    ensures es == ElementsIdsAssigned(elements, id)
    ensures r.Err? <==> PresentPrefix(elements) < |elements|
    ensures r.Err? ==> r.error == AttributeError
  {
    ghost var target := ElementsWithIds(elements, id);
    es := [];
    var i := 0;
    while i < |elements|
      invariant 0 <= i <= |elements|
      invariant es == target[..i]
      invariant forall j :: 0 <= j < i ==> !elements[j].Absent?
    {
      if elements[i].Absent? {
        PresentPrefixOf(elements, i);
        es := es + elements[i..];
        return es, Err(AttributeError);
      }
      var e := AssignElementId(elements[i], id, i);
      es := es + [e];
      assert target[..i + 1] == target[..i] + [ElementWithIds(elements[i], id, i)];
      i := i + 1;
    }
    PresentPrefixOf(elements, i);
    assert es == target[..|elements|] + elements[|elements|..];
    return es, Ok(());
  }

  /** `elem.assign_ids(parent, index)` on a paragraph or a table. */
  method AssignElementId(e: Element, parent: string, index: int) returns (e': Element)
    requires !e.Absent?
    ensures e' == ElementWithIds(e, parent, index)
  {
    if e.ParagraphElement? {
      var p := AssignParagraphIds(e.paragraph, parent, index);
      e' := ParagraphElement(p);
    } else {
      var t := AssignTableIds(e.table, parent, index);
      e' := TableElement(t);
    }
  }

  /** The layout's id reads back as `parent`, "layout" and `index`. */
  lemma LayoutIdParses(l: Layout, parent: string, index: int)
    ensures ParseId(LayoutWithIds(l, parent, index).id.value) == Some((parent, "layout", index))
  {
    MakeIdRoundTrip(parent, "layout", index);
  }

  /** Header and footer ids read back with index 0 below the layout's id. */
  lemma LayoutBandIds(l: Layout, parent: string, index: int)
    ensures var l' := LayoutWithIds(l, parent, index);
      && (l.header.Some? ==> ParseId(l'.header.value.id.value) == Some((l'.id.value, "header", 0)))
      && (l.footer.Some? ==> ParseId(l'.footer.value.id.value) == Some((l'.id.value, "footer", 0)))
  {
    var id := MakeId(parent, "layout", index);
    if l.header.Some? {
      BandIdParses(Header, l.header.value, id);
    }
    if l.footer.Some? {
      BandIdParses(Footer, l.footer.value, id);
    }
  }

  lemma BandIdParses(kind: BandKind, b: Band, parent: string)
    ensures ParseId(BandWithIds(kind, b, parent, 0).id.value) == Some((parent, KindName(kind), 0))
  {
    MakeIdRoundTrip(parent, KindName(kind), 0);
  }

  /**
   * When no element is absent, each element's id reads back as the layout's
   * id, its kind and its position; the element count never changes.
   */
  lemma LayoutElementIds(l: Layout, parent: string, index: int)
    ensures |LayoutWithIds(l, parent, index).elements| == |l.elements|
    ensures !LayoutIdsRaise(l) ==> forall i :: 0 <= i < |l.elements| ==>
      var e := LayoutWithIds(l, parent, index).elements[i];
      ElementId(e).Some? && ParseId(ElementId(e).value) == Some((MakeId(parent, "layout", index), ElementKind(l.elements[i]), i))
  {
    var id := MakeId(parent, "layout", index);
    if !LayoutIdsRaise(l) {
      ElementsIdsSpec(l.elements, id);
      assert ElementsIdsAssigned(l.elements, id) == ElementsWithIds(l.elements, id);
    }
  }

  /** With no absent element, each element's id reads back as the parent, its kind and its position. */
  lemma ElementsIdsSpec(es: seq<Element>, parent: string)
    requires PresentPrefix(es) == |es|
    ensures forall i :: 0 <= i < |es| ==>
      ElementId(ElementsWithIds(es, parent)[i]).Some? &&
      ParseId(ElementId(ElementsWithIds(es, parent)[i]).value) == Some((parent, ElementKind(es[i]), i))
  {
    forall i | 0 <= i < |es|
      ensures ElementId(ElementsWithIds(es, parent)[i]).Some?
      ensures ParseId(ElementId(ElementsWithIds(es, parent)[i]).value) == Some((parent, ElementKind(es[i]), i))
    {
      ElementIdParses(es[i], parent, i);
    }
  }

  /** A present element's assigned id reads back as the parent, its kind and its position. */
  lemma ElementIdParses(e: Element, parent: string, index: int)
    requires !e.Absent?
    ensures ElementId(ElementWithIds(e, parent, index)) == Some(MakeId(parent, ElementKind(e), index))
    ensures ParseId(MakeId(parent, ElementKind(e), index)) == Some((parent, ElementKind(e), index))
  {
    MakeIdRoundTrip(parent, ElementKind(e), index);
  }

  /** Assigning the same ids twice gives what assigning them once gives. */
  lemma LayoutIdsIdempotent(l: Layout, parent: string, index: int)
    ensures LayoutWithIds(LayoutWithIds(l, parent, index), parent, index) == LayoutWithIds(l, parent, index)
  {
    var id := MakeId(parent, "layout", index);
    ElementsIdsStable(l.elements, id);
    match l.header {
      case None =>
      case Some(h) => BandIdsStable(Header, h, id);
    }
    match l.footer {
      case None =>
      case Some(f) => BandIdsStable(Footer, f, id);
    }
  }

  lemma ElementsIdsStable(es: seq<Element>, id: string)
    ensures ElementsIdsAssigned(ElementsIdsAssigned(es, id), id) == ElementsIdsAssigned(es, id)
  {
    var es' := ElementsIdsAssigned(es, id);
    var k := PresentPrefix(es);
    assert es'[..k] == ElementsWithIds(es, id)[..k];
    assert es'[k..] == es[k..];
    PresentPrefixOf(es', k);
    forall i | 0 <= i < k ensures ElementWithIds(es'[i], id, i) == es'[i] {
      match es[i]
      case ParagraphElement(p) => ParagraphIdsStable(p, id, i, "full");
      case TableElement(t) => TableIdsStable(t, id, i);
    }
    assert ElementsWithIds(es', id)[..k] == es'[..k];
  }

  lemma {:induction false} PresentPrefixOf(es: seq<Element>, k: nat)
    requires k <= |es|
    requires forall j :: 0 <= j < k ==> !es[j].Absent?
    requires k < |es| ==> es[k].Absent?
    ensures PresentPrefix(es) == k
  {
    if k > 0 {
      PresentPrefixOf(es[1..], k - 1);
    }
  }

  lemma BandIdsStable(kind: BandKind, b: Band, parent: string)
    ensures BandWithIds(kind, BandWithIds(kind, b, parent, 0), parent, 0) == BandWithIds(kind, b, parent, 0)
  {
  }

  /** The id an element carries, if any. */
  function ElementId(e: Element): Option<string> {
    match e
    case ParagraphElement(p) => p.id
    case TableElement(t) => t.id
    case Absent => None
  }

  /** The kind word in an element's id. */
  function ElementKind(e: Element): string {
    if e.TableElement? then "table" else "para"
  }
}
