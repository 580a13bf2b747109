/**
 * The file index `build_index` returns: one item per heading, per paragraph
 * that is not a caption and per table, in document order, each attached
 * under the item last registered with the id its parent reference names, or
 * among the roots. Items are kept in one list; an item's place in the tree
 * is the position of its parent item in that list.
 */
module Outline {
  import opened Wrappers
  import opened Runs
  import opened Paragraphs
  import opened Tables
  import opened Layouts
  import opened DocTree
  import opened Sections

  /** `IndexType`: the three kinds `build_index` produces. */
  datatype IndexKind = OutlineItem | ParaItem | TableItem

  function KindValue(k: IndexKind): string {
    match k
    case OutlineItem => "section@outline"
    case ParaItem => "section@para"
    case TableItem => "table@full"
  }

  /** An `IndexItem` (its label as `title`); `parent` is the position of the item it is a child of, `None` for a root. */
  datatype Item = Item(id: string, title: string, kind: IndexKind, parent: Option<nat>)

  /** `FileIndexModel`. */
  datatype FileIndex = FileIndex(id: string, filename: string, items: seq<Item>)

  /** Python's `str` of an optional string. */
  function PyStr(o: Option<string>): string {
    if o.None? then "None" else o.value
  }

  /** `to_text()` of a node; a layout has no such method. */
  function NodeText(n: Node): Result<string> {
    match n
    case LayoutNode(_) => Err(AttributeError)
    case BandNode(_, b) => Ok(BandText(b, "full"))
    case ParagraphNode(p) => Ok(ParagraphText(p, "full"))
    case TableNode(t) => Ok(TableText(t, "full"))
    case CellNode(c) => Ok(CellText(c, "full"))
    case RunNode(r) => Ok(ToText(r, "full"))
  }

  /** The items so far and `node_map`: for each id, the position of the last item registered with it. */
  datatype OutlineState = OutlineState(items: seq<Item>, registered: map<string, nat>)

  const Empty := OutlineState([], map[])

  /** `attach`: under the registered item when the parent reference is truthy and registered. */
  function Attach(registered: map<string, nat>, parentRef: Option<string>): Option<nat> {
    if Truthy(parentRef) && parentRef.value in registered then Some(registered[parentRef.value]) else None
  }

  /**
   * Building the `IndexItem` (an item without an id fails validation),
   * registering it under its id, then attaching it: a reference to its own id
   * attaches it under itself.
   */
  function Register(st: OutlineState, id: Option<string>, title: string, kind: IndexKind, parentRef: Option<string>): Result<OutlineState> {
    if id.None? then Err(ValueError)
    else
      var registered := st.registered[id.value := |st.items|];
      Ok(OutlineState(st.items + [Item(id.value, title, kind, Attach(registered, parentRef))], registered))
  }

  /** A table's label: the text of its caption node when that is non-empty, else "Table <id>". */
  function TableLabel(layouts: seq<Layout>, index: ElementIndex, t: Table): Result<string> {
    var caption :=
      if !Truthy(t.captionRefId) then Ok(None)
      else match Lookup(layouts, index, t.captionRefId)
        case None => Ok(None)
        case Some(n) => (match NodeText(n) case Err(x) => Err(x) case Ok(s) => Ok(Some(s)));
    match caption
    case Err(x) => Err(x)
    case Ok(c) => Ok(if c.Some? && c.value != "" then c.value else "Table " + PyStr(t.id))
  }

  /** One element of the loop of `build_index`. */
  function OutlineStep(layouts: seq<Layout>, index: ElementIndex, st: OutlineState, e: Element): Result<OutlineState> {
    match e
    case ParagraphElement(p) =>
      if IsSet(p.isHeading) then Register(st, p.id, ParagraphText(p, "full"), OutlineItem, p.parentRefId)
      else if !IsSet(p.isCaption) then Register(st, p.id, "Paragraph " + PyStr(p.id), ParaItem, p.parentRefId)
      else Ok(st)
    case TableElement(t) =>
      (match TableLabel(layouts, index, t)
       case Err(x) => Err(x)
       case Ok(title) => Register(st, t.id, title, TableItem, t.parentRefId))
    case Absent => Ok(st)
  }

  /** The elements `es[k..]` of one layout. */
  function OutlineElements(layouts: seq<Layout>, index: ElementIndex, st: OutlineState, es: seq<Element>, k: nat): Result<OutlineState>
    requires k <= |es|
    decreases |es| - k
  {
    if k == |es| then Ok(st)
    else match OutlineStep(layouts, index, st, es[k])
      case Err(x) => Err(x)
      case Ok(st') => OutlineElements(layouts, index, st', es, k + 1)
  }

  /** The layouts `layouts[l..]`, one state throughout. */
  function OutlineLayouts(layouts: seq<Layout>, index: ElementIndex, st: OutlineState, l: nat): Result<OutlineState>
    requires l <= |layouts|
    decreases |layouts| - l
  {
    if l == |layouts| then Ok(st)
    else match OutlineElements(layouts, index, st, layouts[l].elements, 0)
      case Err(x) => Err(x)
      case Ok(st') => OutlineLayouts(layouts, index, st', l + 1)
  }

  /** `build_index`, with the index as its lookups read it; the document id must be set. */
  function OutlineOf(layouts: seq<Layout>, index: ElementIndex, docId: Option<string>, filename: string): Result<FileIndex> {
    match OutlineLayouts(layouts, Effective(layouts, index), Empty, 0)
    case Err(x) => Err(x)
    case Ok(st) => if docId.None? then Err(ValueError) else Ok(FileIndex(docId.value, filename, st.items))
  }

  // ---------------------------------------------------------------------------
  // The shape of the result
  // ---------------------------------------------------------------------------

  /** No item between positions `a` (exclusive) and `b` (inclusive) has the id. */
  predicate NoneWithIdBetween(items: seq<Item>, id: string, a: nat, b: nat)
    requires b < |items|
  {
    forall k :: a < k <= b ==> items[k].id != id
  }

  /**
   * Every item is attached, if at all, to an item at or before it carrying
   * the id, and to the last such item: no later item up to it carries the id.
   */
  ghost predicate Attached(items: seq<Item>) {
    forall i :: 0 <= i < |items| && items[i].parent.Some? ==>
      var j := items[i].parent.value;
      j <= i && NoneWithIdBetween(items, items[j].id, j, i)
  }

  /** `node_map` maps each id to the last item carrying it, and every item's id is in it. */
  ghost predicate RegisteredLast(st: OutlineState) {
    && (forall id :: id in st.registered ==>
          var j := st.registered[id];
          j < |st.items| && st.items[j].id == id && forall k :: j < k < |st.items| ==> st.items[k].id != id)
    && (forall k :: 0 <= k < |st.items| ==> st.items[k].id in st.registered)
  }

  ghost predicate Sound(st: OutlineState) {
    Attached(st.items) && RegisteredLast(st)
  }

  lemma RegisterSound(st: OutlineState, id: Option<string>, title: string, kind: IndexKind, parentRef: Option<string>)
    requires Sound(st)
    ensures Register(st, id, title, kind, parentRef).Ok? ==> Sound(Register(st, id, title, kind, parentRef).value)
  {
    if id.Some? {
      var st' := Register(st, id, title, kind, parentRef).value;
      var n := |st.items|;
      assert st'.items[n].id == id.value;
      forall i | 0 <= i < |st'.items| && st'.items[i].parent.Some?
        ensures var j := st'.items[i].parent.value; j <= i && NoneWithIdBetween(st'.items, st'.items[j].id, j, i)
      {
        if i < n {
          assert st'.items[i] == st.items[i];
          var j := st.items[i].parent.value;
          assert NoneWithIdBetween(st.items, st.items[j].id, j, i);
        }
      }
      forall x | x in st'.registered
        ensures var j := st'.registered[x];
          j < |st'.items| && st'.items[j].id == x && forall k :: j < k < |st'.items| ==> st'.items[k].id != x
      {
        if x != id.value {
          assert st'.registered[x] == st.registered[x];
        }
      }
      forall k | 0 <= k < |st'.items| ensures st'.items[k].id in st'.registered {
        if k < n {
          assert st'.items[k] == st.items[k];
        }
      }
    }
  }

  lemma StepSound(layouts: seq<Layout>, index: ElementIndex, st: OutlineState, e: Element)
    requires Sound(st)
    ensures OutlineStep(layouts, index, st, e).Ok? ==> Sound(OutlineStep(layouts, index, st, e).value)
  {
    match e
    case ParagraphElement(p) =>
      if IsSet(p.isHeading) {
        RegisterSound(st, p.id, ParagraphText(p, "full"), OutlineItem, p.parentRefId);
      } else if !IsSet(p.isCaption) {
        RegisterSound(st, p.id, "Paragraph " + PyStr(p.id), ParaItem, p.parentRefId);
      }
    case TableElement(t) =>
      var title := TableLabel(layouts, index, t);
      if title.Ok? {
        RegisterSound(st, t.id, title.value, TableItem, t.parentRefId);
      }
    case Absent =>
  }

  lemma {:induction false} ElementsSound(layouts: seq<Layout>, index: ElementIndex, st: OutlineState, es: seq<Element>, k: nat)
    requires k <= |es| && Sound(st)
    ensures OutlineElements(layouts, index, st, es, k).Ok? ==> Sound(OutlineElements(layouts, index, st, es, k).value)
    decreases |es| - k
  {
    if k < |es| {
      StepSound(layouts, index, st, es[k]);
      var s := OutlineStep(layouts, index, st, es[k]);
      if s.Ok? {
        ElementsSound(layouts, index, s.value, es, k + 1);
      }
    }
  }

  lemma {:induction false} LayoutsSound(layouts: seq<Layout>, index: ElementIndex, st: OutlineState, l: nat)
    requires l <= |layouts| && Sound(st)
    ensures OutlineLayouts(layouts, index, st, l).Ok? ==> Sound(OutlineLayouts(layouts, index, st, l).value)
    decreases |layouts| - l
  {
    if l < |layouts| {
      ElementsSound(layouts, index, st, layouts[l].elements, 0);
      var s := OutlineElements(layouts, index, st, layouts[l].elements, 0);
      if s.Ok? {
        LayoutsSound(layouts, index, s.value, l + 1);
      }
    }
  }

  /**
   * In the file index, every item hangs under an item at or before it (an
   * item referring to its own id hangs under itself) that carries the id it
   * was attached by, and under the last item registered with that id.
   */
  lemma OutlineAttached(layouts: seq<Layout>, index: ElementIndex, docId: Option<string>, filename: string)
    ensures OutlineOf(layouts, index, docId, filename).Ok? ==> Attached(OutlineOf(layouts, index, docId, filename).value.items)
  {
    LayoutsSound(layouts, Effective(layouts, index), Empty, 0);
  }

  /** Which elements get an item: headings, paragraphs that are not captions, tables. */
  predicate Listed(e: Element) {
    (e.ParagraphElement? && (IsSet(e.paragraph.isHeading) || !IsSet(e.paragraph.isCaption))) || e.TableElement?
  }

  /** One element adds one item exactly when it is listed, and the item carries the element's id. */
  lemma StepListed(layouts: seq<Layout>, index: ElementIndex, st: OutlineState, e: Element)
    ensures var r := OutlineStep(layouts, index, st, e);
      r.Ok? ==>
        && r.value.items[..|st.items|] == st.items
        && (Listed(e) ==> |r.value.items| == |st.items| + 1 && Some(r.value.items[|st.items|].id) == ElementId(e))
        && (!Listed(e) ==> r.value.items == st.items)
  {
    var r := OutlineStep(layouts, index, st, e);
    if r.Ok? && Listed(e) {
      assert (st.items + [r.value.items[|st.items|]])[..|st.items|] == st.items;
    }
  }

  /** An element without an id that gets an item makes `build_index` fail validation, unless a caption lookup raises first. */
  lemma UnnamedElementRaises(layouts: seq<Layout>, index: ElementIndex, st: OutlineState, e: Element)
    requires Listed(e) && ElementId(e).None?
    ensures OutlineStep(layouts, index, st, e).Err?
  {
  }
}
