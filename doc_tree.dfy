/**
 * Places in a document tree and the element index. The document's caches hold
 * Python references to nodes of the tree; the model names a node by its
 * location, the path of positions that reaches it from the document's layouts.
 * The element index maps every truthy id met in the traversal of
 * `_build_element_index` to the location of the last node carrying it.
 */
module DocTree {
  import opened Wrappers
  import opened Runs
  import opened Paragraphs
  import opened Tables
  import opened Layouts

  /** A path from the document's layouts to one node. */
  datatype Location =
    | LayoutAt(l: nat)
    | BandAt(l: nat, kind: BandKind)
    | ElementAt(l: nat, e: nat)
    | CellAt(l: nat, e: nat, r: nat, c: nat)
    | CellParagraphAt(l: nat, e: nat, r: nat, c: nat, p: nat)
    | RunAt(owner: Location, k: nat)

  /** A node of the tree, as `get_element_by_id` returns it. */
  datatype Node =
    | LayoutNode(layout: Layout)
    | BandNode(kind: BandKind, band: Band)
    | ParagraphNode(paragraph: Paragraph)
    | TableNode(table: Table)
    | CellNode(cell: Cell)
    | RunNode(run: Run)

  function NodeId(n: Node): Option<string> {
    match n
    case LayoutNode(l) => l.id
    case BandNode(_, b) => b.id
    case ParagraphNode(p) => p.id
    case TableNode(t) => t.id
    case CellNode(c) => c.id
    case RunNode(r) => r.id
  }

  function Depth(loc: Location): nat {
    match loc
    case LayoutAt(_) => 0
    case BandAt(_, _) => 1
    case ElementAt(_, _) => 1
    case CellAt(_, _, _, _) => 2
    case CellParagraphAt(_, _, _, _, _) => 3
    case RunAt(owner, _) => Depth(owner) + 1
  }

  function BandOf(layout: Layout, kind: BandKind): Option<Band> {
    match kind
    case Header => layout.header
    case Footer => layout.footer
  }

  /** The node an element is, if it is one. */
  function ElementNode(e: Element): Option<Node> {
    match e
    case ParagraphElement(p) => Some(ParagraphNode(p))
    case TableElement(t) => Some(TableNode(t))
    case Absent => None
  }

  /** The node at a location, or None when the path leads nowhere. */
  function At(layouts: seq<Layout>, loc: Location): Option<Node>
    decreases Depth(loc)
  {
    match loc
    case LayoutAt(l) =>
      if l < |layouts| then Some(LayoutNode(layouts[l])) else None
    case BandAt(l, kind) =>
      if l < |layouts| && BandOf(layouts[l], kind).Some? then Some(BandNode(kind, BandOf(layouts[l], kind).value)) else None
    case ElementAt(l, e) =>
      if l < |layouts| && e < |layouts[l].elements| then ElementNode(layouts[l].elements[e]) else None
    case CellAt(l, e, r, c) =>
      (match At(layouts, ElementAt(l, e))
       case Some(TableNode(t)) =>
         if r < |t.rows| && c < |t.rows[r]| && t.rows[r][c].Some? then Some(CellNode(t.rows[r][c].value)) else None
       case _ => None)
    case CellParagraphAt(l, e, r, c, p) =>
      (match At(layouts, CellAt(l, e, r, c))
       case Some(CellNode(cell)) =>
         if p < |cell.paragraphs| then Some(ParagraphNode(cell.paragraphs[p])) else None
       case _ => None)
    case RunAt(owner, k) =>
      if owner.ElementAt? || owner.CellParagraphAt? then RunOf(At(layouts, owner), k) else None
  }

  /** Run `k` of a paragraph node. */
  function RunOf(n: Option<Node>, k: nat): Option<Node> {
    match n
    case Some(ParagraphNode(p)) => if k < |p.runs| then Some(RunNode(p.runs[k])) else None
    case _ => None
  }

  // ---------------------------------------------------------------------------
  // The traversal of `_build_element_index`
  // ---------------------------------------------------------------------------

  /** One node met by the traversal: where it is and the id it carries. */
  datatype Entry = Entry(loc: Location, id: Option<string>)

  function RunEntries(owner: Location, runs: seq<Run>): (es: seq<Entry>)
    ensures |es| == |runs|
  {
    seq(|runs|, k requires 0 <= k < |runs| => Entry(RunAt(owner, k), runs[k].id))
  }

  /** A paragraph, then its runs. */
  function ParagraphEntries(at: Location, p: Paragraph): seq<Entry> {
    [Entry(at, p.id)] + RunEntries(at, p.runs)
  }

  function CellParagraphEntries(l: nat, e: nat, r: nat, c: nat, ps: seq<Paragraph>): seq<Entry>
    decreases |ps|
  {
    if ps == [] then []
    else
      var p := |ps| - 1;
      CellParagraphEntries(l, e, r, c, ps[..p]) + ParagraphEntries(CellParagraphAt(l, e, r, c, p), ps[p])
  }

  /** A null slot is skipped; a cell comes before its paragraphs. */
  function SlotEntries(l: nat, e: nat, r: nat, c: nat, slot: Option<Cell>): seq<Entry> {
    match slot
    case None => []
    case Some(cell) => [Entry(CellAt(l, e, r, c), cell.id)] + CellParagraphEntries(l, e, r, c, cell.paragraphs)
  }

  function RowEntries(l: nat, e: nat, r: nat, row: Row): seq<Entry>
    decreases |row|
  {
    if row == [] then []
    else
      var c := |row| - 1;
      RowEntries(l, e, r, row[..c]) + SlotEntries(l, e, r, c, row[c])
  }

  function RowsEntries(l: nat, e: nat, rows: seq<Row>): seq<Entry>
    decreases |rows|
  {
    if rows == [] then []
    else
      var r := |rows| - 1;
      RowsEntries(l, e, rows[..r]) + RowEntries(l, e, r, rows[r])
  }

  /** A table with its cells, or a paragraph with its runs; an absent entry has no id. */
  function ElementEntries(l: nat, e: nat, elem: Element): seq<Entry> {
    match elem
    case ParagraphElement(p) => ParagraphEntries(ElementAt(l, e), p)
    case TableElement(t) => [Entry(ElementAt(l, e), t.id)] + RowsEntries(l, e, t.rows)
    case Absent => []
  }

  function ElementsEntries(l: nat, es: seq<Element>): seq<Entry>
    decreases |es|
  {
    if es == [] then []
    else
      var e := |es| - 1;
      ElementsEntries(l, es[..e]) + ElementEntries(l, e, es[e])
  }

  function BandEntries(l: nat, kind: BandKind, b: Option<Band>): seq<Entry> {
    match b
    case None => []
    case Some(band) => [Entry(BandAt(l, kind), band.id)]
  }

  /** A layout, its header, its footer, then its elements. */
  function LayoutEntries(l: nat, layout: Layout): seq<Entry> {
    [Entry(LayoutAt(l), layout.id)]
      + BandEntries(l, Header, layout.header)
      + BandEntries(l, Footer, layout.footer)
      + ElementsEntries(l, layout.elements)
  }

  function DocEntries(layouts: seq<Layout>): seq<Entry>
    decreases |layouts|
  {
    if layouts == [] then []
    else
      var l := |layouts| - 1;
      DocEntries(layouts[..l]) + LayoutEntries(l, layouts[l])
  }

  // ---------------------------------------------------------------------------
  // The index
  // ---------------------------------------------------------------------------

  type ElementIndex = map<string, Location>

  /** `_index_element` over the entries in order: a truthy id maps to the entry's location. */
  function Indexed(m: ElementIndex, es: seq<Entry>): ElementIndex
    decreases |es|
  {
    if es == [] then m
    else
      var m' := Indexed(m, es[..|es| - 1]);
      var last := es[|es| - 1];
      if Truthy(last.id) then m'[last.id.value := last.loc] else m'
  }

  /** What `_build_element_index` leaves in `_element_index`. */
  function ElementIndexOf(layouts: seq<Layout>): ElementIndex {
    Indexed(map[], DocEntries(layouts))
  }

  lemma {:induction false} IndexedAppend(m: ElementIndex, a: seq<Entry>, b: seq<Entry>)
    ensures Indexed(m, a + b) == Indexed(Indexed(m, a), b)
    decreases |b|
  {
    if b == [] {
      assert a + b == a;
    } else {
      var b' := b[..|b| - 1];
      assert (a + b)[..|a + b| - 1] == a + b';
      IndexedAppend(m, a, b');
    }
  }

  /**
   * Indexing keeps every truthy id met, maps each key only to a location met
   * with that id (or leaves what was there), and the last entry with an id wins.
   */
  lemma {:induction false} IndexedSpec(m: ElementIndex, es: seq<Entry>)
    ensures forall i :: 0 <= i < |es| && Truthy(es[i].id) ==> es[i].id.value in Indexed(m, es)
    ensures forall k :: k in Indexed(m, es) ==>
      (k in m && Indexed(m, es)[k] == m[k]) || exists i :: 0 <= i < |es| && es[i].id == Some(k) && es[i].loc == Indexed(m, es)[k]
    ensures forall i :: 0 <= i < |es| && Truthy(es[i].id) && (forall j :: i < j < |es| ==> es[j].id != es[i].id) ==>
      Indexed(m, es)[es[i].id.value] == es[i].loc
    decreases |es|
  {
    if es != [] {
      var n := |es| - 1;
      var es' := es[..n];
      IndexedSpec(m, es');
      forall k | k in Indexed(m, es)
        ensures (k in m && Indexed(m, es)[k] == m[k]) || exists i :: 0 <= i < |es| && es[i].id == Some(k) && es[i].loc == Indexed(m, es)[k]
      {
        if !(Truthy(es[n].id) && k == es[n].id.value) {
          if !(k in m && Indexed(m, es')[k] == m[k]) {
            var i :| 0 <= i < |es'| && es'[i].id == Some(k) && es'[i].loc == Indexed(m, es')[k];
            assert es[i] == es'[i];
          }
        }
      }
    }
  }

  /** The entry names a node at its location that carries its id. */
  ghost predicate Names(layouts: seq<Layout>, en: Entry) {
    At(layouts, en.loc).Some? && NodeId(At(layouts, en.loc).value) == en.id
  }

  ghost predicate Sound(layouts: seq<Layout>, es: seq<Entry>) {
    forall i :: 0 <= i < |es| ==> Names(layouts, es[i])
  }

  lemma SoundAppend(layouts: seq<Layout>, a: seq<Entry>, b: seq<Entry>)
    requires Sound(layouts, a) && Sound(layouts, b)
    ensures Sound(layouts, a + b)
  {
    forall i | 0 <= i < |a + b| ensures Names(layouts, (a + b)[i]) {
      if i >= |a| {
        assert (a + b)[i] == b[i - |a|];
      }
    }
  }

  lemma ParagraphEntriesSound(layouts: seq<Layout>, at: Location, p: Paragraph)
    requires At(layouts, at) == Some(ParagraphNode(p))
    ensures Sound(layouts, ParagraphEntries(at, p))
  {
    var rs := RunEntries(at, p.runs);
    forall k | 0 <= k < |rs| ensures Names(layouts, rs[k]) {
      assert At(layouts, RunAt(at, k)) == Some(RunNode(p.runs[k]));
    }
    SoundAppend(layouts, [Entry(at, p.id)], rs);
  }

  lemma {:induction false} CellParagraphEntriesSound(layouts: seq<Layout>, l: nat, e: nat, r: nat, c: nat, cell: Cell, n: nat)
    requires At(layouts, CellAt(l, e, r, c)) == Some(CellNode(cell)) && n <= |cell.paragraphs|
    ensures Sound(layouts, CellParagraphEntries(l, e, r, c, cell.paragraphs[..n]))
  {
    var ps := cell.paragraphs[..n];
    if n > 0 {
      assert ps[..n - 1] == cell.paragraphs[..n - 1];
      CellParagraphEntriesSound(layouts, l, e, r, c, cell, n - 1);
      ParagraphEntriesSound(layouts, CellParagraphAt(l, e, r, c, n - 1), ps[n - 1]);
      SoundAppend(layouts, CellParagraphEntries(l, e, r, c, ps[..n - 1]), ParagraphEntries(CellParagraphAt(l, e, r, c, n - 1), ps[n - 1]));
    }
  }

  lemma SlotEntriesSound(layouts: seq<Layout>, l: nat, e: nat, t: Table, r: nat, c: nat)
    requires At(layouts, ElementAt(l, e)) == Some(TableNode(t)) && r < |t.rows| && c < |t.rows[r]|
    ensures Sound(layouts, SlotEntries(l, e, r, c, t.rows[r][c]))
  {
    if t.rows[r][c].Some? {
      var cell := t.rows[r][c].value;
      CellParagraphEntriesSound(layouts, l, e, r, c, cell, |cell.paragraphs|);
      assert cell.paragraphs[..|cell.paragraphs|] == cell.paragraphs;
      SoundAppend(layouts, [Entry(CellAt(l, e, r, c), cell.id)], CellParagraphEntries(l, e, r, c, cell.paragraphs));
    }
  }

  lemma {:induction false} RowEntriesSound(layouts: seq<Layout>, l: nat, e: nat, t: Table, r: nat, n: nat)
    requires At(layouts, ElementAt(l, e)) == Some(TableNode(t)) && r < |t.rows| && n <= |t.rows[r]|
    ensures Sound(layouts, RowEntries(l, e, r, t.rows[r][..n]))
  {
    var row := t.rows[r][..n];
    if n > 0 {
      assert row[..n - 1] == t.rows[r][..n - 1];
      RowEntriesSound(layouts, l, e, t, r, n - 1);
      SlotEntriesSound(layouts, l, e, t, r, n - 1);
      SoundAppend(layouts, RowEntries(l, e, r, row[..n - 1]), SlotEntries(l, e, r, n - 1, row[n - 1]));
    }
  }

  lemma {:induction false} RowsEntriesSound(layouts: seq<Layout>, l: nat, e: nat, t: Table, n: nat)
    requires At(layouts, ElementAt(l, e)) == Some(TableNode(t)) && n <= |t.rows|
    ensures Sound(layouts, RowsEntries(l, e, t.rows[..n]))
  {
    var rows := t.rows[..n];
    if n > 0 {
      assert rows[..n - 1] == t.rows[..n - 1];
      RowsEntriesSound(layouts, l, e, t, n - 1);
      RowEntriesSound(layouts, l, e, t, n - 1, |t.rows[n - 1]|);
      assert t.rows[n - 1][..|t.rows[n - 1]|] == t.rows[n - 1];
      SoundAppend(layouts, RowsEntries(l, e, rows[..n - 1]), RowEntries(l, e, n - 1, rows[n - 1]));
    }
  }

  lemma ElementEntriesSound(layouts: seq<Layout>, l: nat, e: nat)
    requires l < |layouts| && e < |layouts[l].elements|
    ensures Sound(layouts, ElementEntries(l, e, layouts[l].elements[e]))
  {
    match layouts[l].elements[e]
    case ParagraphElement(p) =>
      ParagraphEntriesSound(layouts, ElementAt(l, e), p);
    case TableElement(t) =>
      RowsEntriesSound(layouts, l, e, t, |t.rows|);
      assert t.rows[..|t.rows|] == t.rows;
      SoundAppend(layouts, [Entry(ElementAt(l, e), t.id)], RowsEntries(l, e, t.rows));
    case Absent =>
  }

  lemma {:induction false} ElementsEntriesSound(layouts: seq<Layout>, l: nat, n: nat)
    requires l < |layouts| && n <= |layouts[l].elements|
    ensures Sound(layouts, ElementsEntries(l, layouts[l].elements[..n]))
  {
    var es := layouts[l].elements[..n];
    if n > 0 {
      assert es[..n - 1] == layouts[l].elements[..n - 1];
      ElementsEntriesSound(layouts, l, n - 1);
      ElementEntriesSound(layouts, l, n - 1);
      SoundAppend(layouts, ElementsEntries(l, es[..n - 1]), ElementEntries(l, n - 1, es[n - 1]));
    }
  }

  lemma LayoutEntriesSound(layouts: seq<Layout>, l: nat)
    requires l < |layouts|
    ensures Sound(layouts, LayoutEntries(l, layouts[l]))
  {
    var layout := layouts[l];
    ElementsEntriesSound(layouts, l, |layout.elements|);
    assert layout.elements[..|layout.elements|] == layout.elements;
    var head := [Entry(LayoutAt(l), layout.id)];
    var h := BandEntries(l, Header, layout.header);
    var f := BandEntries(l, Footer, layout.footer);
    SoundAppend(layouts, head, h);
    SoundAppend(layouts, head + h, f);
    SoundAppend(layouts, head + h + f, ElementsEntries(l, layout.elements));
  }

  lemma {:induction false} DocEntriesSound(layouts: seq<Layout>, n: nat)
    requires n <= |layouts|
    ensures Sound(layouts, DocEntries(layouts[..n]))
  {
    if n > 0 {
      var ls := layouts[..n];
      assert ls[..n - 1] == layouts[..n - 1];
      DocEntriesSound(layouts, n - 1);
      LayoutEntriesSound(layouts, n - 1);
      SoundAppend(layouts, DocEntries(ls[..n - 1]), LayoutEntries(n - 1, ls[n - 1]));
    }
  }

  // Every node the traversal can reach is met.

  lemma {:induction false} CellParagraphEntriesHas(l: nat, e: nat, r: nat, c: nat, ps: seq<Paragraph>, p: nat, x: Entry)
    requires p < |ps| && x in ParagraphEntries(CellParagraphAt(l, e, r, c, p), ps[p])
    ensures x in CellParagraphEntries(l, e, r, c, ps)
    decreases |ps|
  {
    if p < |ps| - 1 {
      assert ps[..|ps| - 1][p] == ps[p];
      CellParagraphEntriesHas(l, e, r, c, ps[..|ps| - 1], p, x);
    }
  }

  lemma {:induction false} RowEntriesHas(l: nat, e: nat, r: nat, row: Row, c: nat, x: Entry)
    requires c < |row| && x in SlotEntries(l, e, r, c, row[c])
    ensures x in RowEntries(l, e, r, row)
    decreases |row|
  {
    if c < |row| - 1 {
      assert row[..|row| - 1][c] == row[c];
      RowEntriesHas(l, e, r, row[..|row| - 1], c, x);
    }
  }

  lemma {:induction false} RowsEntriesHas(l: nat, e: nat, rows: seq<Row>, r: nat, x: Entry)
    requires r < |rows| && x in RowEntries(l, e, r, rows[r])
    ensures x in RowsEntries(l, e, rows)
    decreases |rows|
  {
    if r < |rows| - 1 {
      assert rows[..|rows| - 1][r] == rows[r];
      RowsEntriesHas(l, e, rows[..|rows| - 1], r, x);
    }
  }

  lemma {:induction false} ElementsEntriesHas(l: nat, es: seq<Element>, e: nat, x: Entry)
    requires e < |es| && x in ElementEntries(l, e, es[e])
    ensures x in ElementsEntries(l, es)
    decreases |es|
  {
    if e < |es| - 1 {
      assert es[..|es| - 1][e] == es[e];
      ElementsEntriesHas(l, es[..|es| - 1], e, x);
    }
  }

  lemma {:induction false} DocEntriesHas(layouts: seq<Layout>, l: nat, x: Entry)
    requires l < |layouts| && x in LayoutEntries(l, layouts[l])
    ensures x in DocEntries(layouts)
    decreases |layouts|
  {
    if l < |layouts| - 1 {
      assert layouts[..|layouts| - 1][l] == layouts[l];
      DocEntriesHas(layouts[..|layouts| - 1], l, x);
    }
  }

  lemma ElementHas(layouts: seq<Layout>, l: nat, e: nat, x: Entry)
    requires l < |layouts| && e < |layouts[l].elements| && x in ElementEntries(l, e, layouts[l].elements[e])
    ensures x in DocEntries(layouts)
  {
    ElementsEntriesHas(l, layouts[l].elements, e, x);
    DocEntriesHas(layouts, l, x);
  }

  lemma CellHas(layouts: seq<Layout>, l: nat, e: nat, t: Table, r: nat, c: nat, x: Entry)
    requires l < |layouts| && e < |layouts[l].elements| && layouts[l].elements[e] == TableElement(t)
    requires r < |t.rows| && c < |t.rows[r]| && x in SlotEntries(l, e, r, c, t.rows[r][c])
    ensures x in DocEntries(layouts)
  {
    RowEntriesHas(l, e, r, t.rows[r], c, x);
    RowsEntriesHas(l, e, t.rows, r, x);
    ElementHas(layouts, l, e, x);
  }

  lemma CellParagraphHas(layouts: seq<Layout>, l: nat, e: nat, t: Table, r: nat, c: nat, cell: Cell, p: nat, x: Entry)
    requires l < |layouts| && e < |layouts[l].elements| && layouts[l].elements[e] == TableElement(t)
    requires r < |t.rows| && c < |t.rows[r]| && t.rows[r][c] == Some(cell) && p < |cell.paragraphs|
    requires x in ParagraphEntries(CellParagraphAt(l, e, r, c, p), cell.paragraphs[p])
    ensures x in DocEntries(layouts)
  {
    CellParagraphEntriesHas(l, e, r, c, cell.paragraphs, p, x);
    CellHas(layouts, l, e, t, r, c, x);
  }

  /** The entries of a paragraph, top-level or in a cell, are met. */
  lemma ParagraphHas(layouts: seq<Layout>, at: Location, p: Paragraph, x: Entry)
    requires at.ElementAt? || at.CellParagraphAt?
    requires At(layouts, at) == Some(ParagraphNode(p)) && x in ParagraphEntries(at, p)
    ensures x in DocEntries(layouts)
  {
    match at
    case ElementAt(l, e) =>
      assert layouts[l].elements[e] == ParagraphElement(p);
      ElementHas(layouts, l, e, x);
    case CellParagraphAt(l, e, r, c, pi) =>
      var cn := At(layouts, CellAt(l, e, r, c));
      assert cn.Some? && cn.value.CellNode?;
      var tn := At(layouts, ElementAt(l, e));
      assert tn.Some? && tn.value.TableNode?;
      var t := tn.value.table;
      assert layouts[l].elements[e] == TableElement(t);
      CellParagraphHas(layouts, l, e, t, r, c, cn.value.cell, pi, x);
  }

  /** Only top-level and cell paragraphs are found as paragraphs. */
  lemma ParagraphPlaces(layouts: seq<Layout>, at: Location)
    requires At(layouts, at).Some? && At(layouts, at).value.ParagraphNode?
    ensures at.ElementAt? || at.CellParagraphAt?
  {
    match at
    case LayoutAt(_) =>
    case BandAt(_, _) =>
    case ElementAt(_, _) =>
    case CellAt(l, e, r, c) =>
    case CellParagraphAt(_, _, _, _, _) =>
    case RunAt(owner, _) =>
  }

  lemma BandCovered(layouts: seq<Layout>, l: nat, kind: BandKind)
    requires At(layouts, BandAt(l, kind)).Some?
    ensures Entry(BandAt(l, kind), NodeId(At(layouts, BandAt(l, kind)).value)) in DocEntries(layouts)
  {
    var layout := layouts[l];
    var x := Entry(BandAt(l, kind), NodeId(At(layouts, BandAt(l, kind)).value));
    assert x in BandEntries(l, kind, BandOf(layout, kind));
    assert LayoutEntries(l, layout) ==
      [Entry(LayoutAt(l), layout.id)] + BandEntries(l, Header, layout.header) + BandEntries(l, Footer, layout.footer)
      + ElementsEntries(l, layout.elements);
    DocEntriesHas(layouts, l, x);
  }

  lemma CellCovered(layouts: seq<Layout>, l: nat, e: nat, r: nat, c: nat)
    requires At(layouts, CellAt(l, e, r, c)).Some?
    ensures Entry(CellAt(l, e, r, c), NodeId(At(layouts, CellAt(l, e, r, c)).value)) in DocEntries(layouts)
  {
    var t := layouts[l].elements[e].table;
    CellHas(layouts, l, e, t, r, c, Entry(CellAt(l, e, r, c), t.rows[r][c].value.id));
  }

  lemma RunEntryCovered(layouts: seq<Layout>, owner: Location, p: Paragraph, k: nat)
    requires owner.ElementAt? || owner.CellParagraphAt?
    requires At(layouts, owner) == Some(ParagraphNode(p)) && k < |p.runs|
    ensures Entry(RunAt(owner, k), p.runs[k].id) in DocEntries(layouts)
  {
    var x := Entry(RunAt(owner, k), p.runs[k].id);
    assert x == RunEntries(owner, p.runs)[k];
    assert x in ParagraphEntries(owner, p);
    ParagraphHas(layouts, owner, p, x);
  }

  lemma RunCovered(layouts: seq<Layout>, owner: Location, k: nat)
    requires At(layouts, RunAt(owner, k)).Some?
    ensures Entry(RunAt(owner, k), NodeId(At(layouts, RunAt(owner, k)).value)) in DocEntries(layouts)
  {
    assert owner.ElementAt? || owner.CellParagraphAt?;
    var n := At(layouts, owner);
    assert RunOf(n, k).Some?;
    var p := n.value.paragraph;
    assert NodeId(At(layouts, RunAt(owner, k)).value) == p.runs[k].id;
    RunEntryCovered(layouts, owner, p, k);
  }

  /** Every node of the tree is met by the traversal, with its id. */
  lemma Coverage(layouts: seq<Layout>, loc: Location)
    requires At(layouts, loc).Some?
    ensures Entry(loc, NodeId(At(layouts, loc).value)) in DocEntries(layouts)
  {
    match loc
    case LayoutAt(l) =>
      DocEntriesHas(layouts, l, Entry(loc, layouts[l].id));
    case BandAt(l, kind) =>
      BandCovered(layouts, l, kind);
    case ElementAt(l, e) =>
      ElementHas(layouts, l, e, Entry(loc, NodeId(At(layouts, loc).value)));
    case CellAt(l, e, r, c) =>
      CellCovered(layouts, l, e, r, c);
    case CellParagraphAt(l, e, r, c, p) =>
      var para := At(layouts, loc).value.paragraph;
      ParagraphHas(layouts, loc, para, Entry(loc, para.id));
    case RunAt(owner, k) =>
      RunCovered(layouts, owner, k);
  }

  /**
   * The element index is exact: every key leads to a node carrying it, and
   * every node of the tree carrying a truthy id is reachable by that id.
   */
  lemma ElementIndexSpec(layouts: seq<Layout>)
    ensures forall k :: k in ElementIndexOf(layouts) ==>
      At(layouts, ElementIndexOf(layouts)[k]).Some? && NodeId(At(layouts, ElementIndexOf(layouts)[k]).value) == Some(k)
    ensures forall loc :: At(layouts, loc).Some? && Truthy(NodeId(At(layouts, loc).value)) ==>
      NodeId(At(layouts, loc).value).value in ElementIndexOf(layouts)
  {
    var es := DocEntries(layouts);
    IndexedSpec(map[], es);
    DocEntriesSound(layouts, |layouts|);
    assert layouts[..|layouts|] == layouts;
    forall loc | At(layouts, loc).Some? && Truthy(NodeId(At(layouts, loc).value))
      ensures NodeId(At(layouts, loc).value).value in ElementIndexOf(layouts)
    {
      Coverage(layouts, loc);
      var i :| 0 <= i < |es| && es[i] == Entry(loc, NodeId(At(layouts, loc).value));
    }
  }

  // ---------------------------------------------------------------------------
  // Building the index, level by level
  // ---------------------------------------------------------------------------

  /** `_index_element` on each run of the paragraph at `owner`. */
  method IndexRuns(m: ElementIndex, owner: Location, runs: seq<Run>) returns (m': ElementIndex)
    ensures m' == Indexed(m, RunEntries(owner, runs))
  {
    ghost var target := RunEntries(owner, runs);
    m' := m;
    for k := 0 to |runs|
      invariant m' == Indexed(m, target[..k])
    {
      assert target[..k + 1][..k] == target[..k];
      if Truthy(runs[k].id) {
        m' := m'[runs[k].id.value := RunAt(owner, k)];
      }
    }
    assert target[..|runs|] == target;
  }

  method IndexParagraph(m: ElementIndex, at: Location, p: Paragraph) returns (m': ElementIndex)
    ensures m' == Indexed(m, ParagraphEntries(at, p))
  {
    m' := m;
    if Truthy(p.id) {
      m' := m'[p.id.value := at];
    }
    assert Indexed(m, [Entry(at, p.id)]) == m';
    m' := IndexRuns(m', at, p.runs);
    IndexedAppend(m, [Entry(at, p.id)], RunEntries(at, p.runs));
  }

  method IndexCell(m: ElementIndex, l: nat, e: nat, r: nat, c: nat, cell: Cell) returns (m': ElementIndex)
    ensures m' == Indexed(m, SlotEntries(l, e, r, c, Some(cell)))
  {
    var ps := cell.paragraphs;
    m' := m;
    if Truthy(cell.id) {
      m' := m'[cell.id.value := CellAt(l, e, r, c)];
    }
    ghost var m1 := m';
    assert Indexed(m, [Entry(CellAt(l, e, r, c), cell.id)]) == m1;
    for p := 0 to |ps|
      invariant m' == Indexed(m1, CellParagraphEntries(l, e, r, c, ps[..p]))
    {
      assert ps[..p + 1][..p] == ps[..p];
      ghost var before := m';
      m' := IndexParagraph(m', CellParagraphAt(l, e, r, c, p), ps[p]);
      IndexedAppend(m1, CellParagraphEntries(l, e, r, c, ps[..p]), ParagraphEntries(CellParagraphAt(l, e, r, c, p), ps[p]));
    }
    assert ps[..|ps|] == ps;
    IndexedAppend(m, [Entry(CellAt(l, e, r, c), cell.id)], CellParagraphEntries(l, e, r, c, ps));
  }

  /** One row: null slots are skipped. */
  method IndexRow(m: ElementIndex, l: nat, e: nat, r: nat, row: Row) returns (m': ElementIndex)
    ensures m' == Indexed(m, RowEntries(l, e, r, row))
  {
    m' := m;
    for c := 0 to |row|
      invariant m' == Indexed(m, RowEntries(l, e, r, row[..c]))
    {
      assert row[..c + 1][..c] == row[..c];
      if row[c].Some? {
        m' := IndexCell(m', l, e, r, c, row[c].value);
      }
      IndexedAppend(m, RowEntries(l, e, r, row[..c]), SlotEntries(l, e, r, c, row[c]));
    }
    assert row[..|row|] == row;
  }

  method IndexElement(m: ElementIndex, l: nat, e: nat, elem: Element) returns (m': ElementIndex)
    ensures m' == Indexed(m, ElementEntries(l, e, elem))
  {
    match elem
    case Absent =>
      m' := m;
    case ParagraphElement(p) =>
      m' := IndexParagraph(m, ElementAt(l, e), p);
    case TableElement(t) =>
      m' := m;
      if Truthy(t.id) {
        m' := m'[t.id.value := ElementAt(l, e)];
      }
      ghost var m1 := m';
      assert Indexed(m, [Entry(ElementAt(l, e), t.id)]) == m1;
      for r := 0 to |t.rows|
        invariant m' == Indexed(m1, RowsEntries(l, e, t.rows[..r]))
      {
        assert t.rows[..r + 1][..r] == t.rows[..r];
        m' := IndexRow(m', l, e, r, t.rows[r]);
        IndexedAppend(m1, RowsEntries(l, e, t.rows[..r]), RowEntries(l, e, r, t.rows[r]));
      }
      assert t.rows[..|t.rows|] == t.rows;
      IndexedAppend(m, [Entry(ElementAt(l, e), t.id)], RowsEntries(l, e, t.rows));
  }

  /** The layout itself, then its header and footer bands. */
  method IndexLayoutHead(m: ElementIndex, l: nat, layout: Layout) returns (m': ElementIndex)
    ensures m' == Indexed(m, [Entry(LayoutAt(l), layout.id)] + BandEntries(l, Header, layout.header)
      + BandEntries(l, Footer, layout.footer))
  {
    var head := [Entry(LayoutAt(l), layout.id)];
    var h := BandEntries(l, Header, layout.header);
    var f := BandEntries(l, Footer, layout.footer);
    m' := m;
    if Truthy(layout.id) {
      m' := m'[layout.id.value := LayoutAt(l)];
    }
    assert m' == Indexed(m, head);
    if layout.header.Some? && Truthy(layout.header.value.id) {
      m' := m'[layout.header.value.id.value := BandAt(l, Header)];
    }
    assert m' == Indexed(Indexed(m, head), h);
    IndexedAppend(m, head, h);
    if layout.footer.Some? && Truthy(layout.footer.value.id) {
      m' := m'[layout.footer.value.id.value := BandAt(l, Footer)];
    }
    assert m' == Indexed(Indexed(m, head + h), f);
    IndexedAppend(m, head + h, f);
  }

  method IndexLayout(m: ElementIndex, l: nat, layout: Layout) returns (m': ElementIndex)
    ensures m' == Indexed(m, LayoutEntries(l, layout))
  {
    ghost var head := [Entry(LayoutAt(l), layout.id)] + BandEntries(l, Header, layout.header)
      + BandEntries(l, Footer, layout.footer);
    m' := IndexLayoutHead(m, l, layout);
    ghost var m1 := m';
    var es := layout.elements;
    for e := 0 to |es|
      invariant m' == Indexed(m1, ElementsEntries(l, es[..e]))
    {
      assert es[..e + 1][..e] == es[..e];
      m' := IndexElement(m', l, e, es[e]);
      IndexedAppend(m1, ElementsEntries(l, es[..e]), ElementEntries(l, e, es[e]));
    }
    assert es[..|es|] == es;
    IndexedAppend(m, head, ElementsEntries(l, es));
  }

  /** `_build_element_index`: cleared, then filled layout by layout. */
  method BuildIndex(layouts: seq<Layout>) returns (m: ElementIndex)
    ensures m == ElementIndexOf(layouts)
  {
    m := map[];
    for l := 0 to |layouts|
      invariant m == Indexed(map[], DocEntries(layouts[..l]))
    {
      assert layouts[..l + 1][..l] == layouts[..l];
      m := IndexLayout(m, l, layouts[l]);
      IndexedAppend(map[], DocEntries(layouts[..l]), LayoutEntries(l, layouts[l]));
    }
    assert layouts[..|layouts|] == layouts;
  }
}
