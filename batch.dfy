/**
 * `apply_placeholders`: the first pass looks each placeholder's element up in
 * the element index, built once beforehand, and edits that element in place
 * (a paragraph, a table cell, a header or a footer), except that a paragraph
 * the structural resolver turns into a table is only queued; the second pass
 * splices the queued replacements into the layouts, in queue order.
 */
module Batch {
  import opened Wrappers
  import opened Text
  import opened Html
  import opened Runs
  import opened RunHtml
  import RunEdits
  import opened Placeholders
  import opened Paragraphs
  import opened Tables
  import opened Layouts
  import opened Resolver
  import opened DocTree
  import opened Splices
  import opened ParagraphCache
  import opened Sections

  /** Which of the in-place edits a placeholder asks for. */
  datatype EditKind = Inline | Deletion

  /**
   * The runs after an edit: a deletion drops the placeholder's text, an
   * inline replacement puts the parsed replacement text in its place; either
   * only when the runs hold the text, and a replacement only when it has text.
   */
  function RunsEdited(runs: seq<Run>, ph: Placeholder, tokenize: Tokenizer, kind: EditKind): seq<Run> {
    if !Contains(TextOf(runs), ph.text) then runs
    else match kind
      case Deletion => RunEdits.Dropped(runs, ph.text)
      case Inline =>
        if Truthy(ph.replacedText)
        then RunEdits.Replaced(runs, ph.text, ParseRuns(tokenize(ph.replacedText.value)), CommentFor(ph))
        else runs
  }

  /** A cell edit: the first of its paragraphs that holds the text is edited. */
  function CellEdited(c: Cell, ph: Placeholder, tokenize: Tokenizer, kind: EditKind): Cell {
    match FirstHolding(c.paragraphs, ph.text)
    case None => c
    case Some(i) => c.(paragraphs := WithRuns(c.paragraphs, i, RunsEdited(c.paragraphs[i].runs, ph, tokenize, kind)))
  }

  function WithBand(layout: Layout, kind: BandKind, b: Band): Layout {
    match kind
    case Header => layout.(header := Some(b))
    case Footer => layout.(footer := Some(b))
  }

  /** Element `e` of layout `l` replaced by `x`. */
  function PutElement(layouts: seq<Layout>, l: nat, e: nat, x: Element): seq<Layout>
    requires l < |layouts| && e < |layouts[l].elements|
  {
    layouts[l := layouts[l].(elements := layouts[l].elements[e := x])]
  }

  /** A located cell is in a table element of the layouts. */
  lemma CellInTable(layouts: seq<Layout>, l: nat, e: nat, r: nat, c: nat)
    requires At(layouts, CellAt(l, e, r, c)).Some?
    ensures l < |layouts| && e < |layouts[l].elements| && layouts[l].elements[e].TableElement?
    ensures var t := layouts[l].elements[e].table; r < |t.rows| && c < |t.rows[r]| && t.rows[r][c].Some?
    ensures At(layouts, CellAt(l, e, r, c)) == Some(CellNode(layouts[l].elements[e].table.rows[r][c].value))
  {
  }

  /** The located cell replaced by `cell`. */
  function PutCell(layouts: seq<Layout>, l: nat, e: nat, r: nat, c: nat, cell: Cell): seq<Layout>
    requires At(layouts, CellAt(l, e, r, c)).Some?
  {
    CellInTable(layouts, l, e, r, c);
    var t := layouts[l].elements[e].table;
    PutElement(layouts, l, e, TableElement(t.(rows := t.rows[r := t.rows[r][c := Some(cell)]])))
  }

  /**
   * The layouts once the node at `loc` has been edited in place: a header or
   * footer and a paragraph get their runs edited, a cell its first paragraph
   * holding the text; any other node (a layout, a table, a run) is left alone.
   */
  function EditAt(layouts: seq<Layout>, loc: Location, ph: Placeholder, tokenize: Tokenizer, kind: EditKind): seq<Layout> {
    match loc
    case BandAt(l, k) =>
      if l < |layouts| && BandOf(layouts[l], k).Some? then
        var b := BandOf(layouts[l], k).value;
        layouts[l := WithBand(layouts[l], k, b.(runs := RunsEdited(b.runs, ph, tokenize, kind)))]
      else layouts
    case ElementAt(l, e) =>
      if l < |layouts| && e < |layouts[l].elements| && layouts[l].elements[e].ParagraphElement? then
        var p := layouts[l].elements[e].paragraph;
        PutElement(layouts, l, e, ParagraphElement(p.(runs := RunsEdited(p.runs, ph, tokenize, kind))))
      else layouts
    case CellAt(l, e, r, c) =>
      (match At(layouts, loc)
       case Some(CellNode(cell)) => PutCell(layouts, l, e, r, c, CellEdited(cell, ph, tokenize, kind))
       case _ => layouts)
    case CellParagraphAt(l, e, r, c, p) =>
      (match At(layouts, CellAt(l, e, r, c))
       case Some(CellNode(cell)) =>
         if p < |cell.paragraphs| then
           PutCell(layouts, l, e, r, c, cell.(paragraphs := WithRuns(cell.paragraphs, p, RunsEdited(cell.paragraphs[p].runs, ph, tokenize, kind))))
         else layouts
       case _ => layouts)
    case _ => layouts
  }

  // ---------------------------------------------------------------------------
  // The imperative edit, against EditAt
  // ---------------------------------------------------------------------------

  /** The node's own edit method, as `apply_placeholders` dispatches on the node's type, written back. */
  method ApplyEdit(layouts: seq<Layout>, loc: Location, ph: Placeholder, tokenize: Tokenizer, kind: EditKind) returns (layouts': seq<Layout>)
    ensures layouts' == EditAt(layouts, loc, ph, tokenize, kind)
  {
    layouts' := layouts;
    match loc
    case BandAt(l, k) =>
      if l < |layouts| && BandOf(layouts[l], k).Some? {
        var b := BandOf(layouts[l], k).value;
        var b', applied;
        if kind == Deletion {
          b', applied := ApplyBandDeleted(b, ph);
        } else {
          b', applied := ApplyBandInline(b, ph, tokenize);
        }
        layouts' := layouts[l := WithBand(layouts[l], k, b')];
        assert b' == b.(runs := RunsEdited(b.runs, ph, tokenize, kind));
      }
    case ElementAt(l, e) =>
      if l < |layouts| && e < |layouts[l].elements| && layouts[l].elements[e].ParagraphElement? {
        var p := layouts[l].elements[e].paragraph;
        var q, applied;
        if kind == Deletion {
          q, applied := ApplyDeletedPlaceholder(p, ph);
        } else {
          q, applied := ApplyInlinePlaceholder(p, ph, tokenize);
        }
        assert q == p.(runs := RunsEdited(p.runs, ph, tokenize, kind));
        layouts' := PutElement(layouts, l, e, ParagraphElement(q));
      }
    case CellAt(l, e, r, c) =>
      var node := At(layouts, loc);
      if node.Some? && node.value.CellNode? {
        var cell := node.value.cell;
        var cell', applied;
        if kind == Deletion {
          cell', applied := ApplyCellDeleted(cell, ph);
        } else {
          cell', applied := ApplyCellPlaceholder(cell, ph, tokenize);
        }
        assert cell' == CellEdited(cell, ph, tokenize, kind);
        layouts' := PutCell(layouts, l, e, r, c, cell');
      }
    case CellParagraphAt(l, e, r, c, i) =>
      var node := At(layouts, CellAt(l, e, r, c));
      if node.Some? && node.value.CellNode? && i < |node.value.cell.paragraphs| {
        var cell := node.value.cell;
        var q, applied;
        if kind == Deletion {
          q, applied := ApplyDeletedPlaceholder(cell.paragraphs[i], ph);
        } else {
          q, applied := ApplyInlinePlaceholder(cell.paragraphs[i], ph, tokenize);
        }
        assert q.runs == RunsEdited(cell.paragraphs[i].runs, ph, tokenize, kind);
        layouts' := PutCell(layouts, l, e, r, c, cell.(paragraphs := WithRuns(cell.paragraphs, i, q.runs)));
      }
    case LayoutAt(_) =>
    case RunAt(_, _) =>
  }

  // ---------------------------------------------------------------------------
  // What an edit keeps
  // ---------------------------------------------------------------------------

  /** Same layouts and element slots, each element of the same kind and with the same id. */
  predicate SameElements(a: seq<Layout>, b: seq<Layout>) {
    && ParagraphSlots(a, b)
    && (forall l, e :: 0 <= l < |a| && 0 <= e < |a[l].elements| ==>
          ElementId(a[l].elements[e]) == ElementId(b[l].elements[e]) &&
          (a[l].elements[e].TableElement? <==> b[l].elements[e].TableElement?))
  }

  lemma SameElementsTrans(a: seq<Layout>, b: seq<Layout>, c: seq<Layout>)
    requires SameElements(a, b) && SameElements(b, c)
    ensures SameElements(a, c)
  {
  }

  /** Putting an element of the same kind and id in a slot keeps the element slots. */
  lemma PutElementSame(layouts: seq<Layout>, l: nat, e: nat, x: Element)
    requires l < |layouts| && e < |layouts[l].elements|
    requires ElementId(x) == ElementId(layouts[l].elements[e])
    requires x.ParagraphElement? == layouts[l].elements[e].ParagraphElement?
    requires x.TableElement? == layouts[l].elements[e].TableElement?
    ensures SameElements(layouts, PutElement(layouts, l, e, x))
  {
    var b := PutElement(layouts, l, e, x);
    forall l', e' | 0 <= l' < |layouts| && 0 <= e' < |layouts[l'].elements|
      ensures ElementId(layouts[l'].elements[e']) == ElementId(b[l'].elements[e'])
      ensures layouts[l'].elements[e'].ParagraphElement? <==> b[l'].elements[e'].ParagraphElement?
      ensures layouts[l'].elements[e'].TableElement? <==> b[l'].elements[e'].TableElement?
    {
      if l' != l || e' != e {
        assert b[l'].elements[e'] == layouts[l'].elements[e'];
      }
    }
  }

  /**
   * An in-place edit keeps every layout's elements in their slots, with the
   * same kinds and ids: the element index and the paragraph cache, which hold
   * places, still name the same nodes.
   */
  lemma EditAtSame(layouts: seq<Layout>, loc: Location, ph: Placeholder, tokenize: Tokenizer, kind: EditKind)
    ensures SameElements(layouts, EditAt(layouts, loc, ph, tokenize, kind))
  {
    var b := EditAt(layouts, loc, ph, tokenize, kind);
    match loc
    case BandAt(l, k) =>
      if l < |layouts| && BandOf(layouts[l], k).Some? {
        forall l' | 0 <= l' < |layouts| ensures b[l'].elements == layouts[l'].elements {}
      }
    case ElementAt(l, e) =>
      if l < |layouts| && e < |layouts[l].elements| && layouts[l].elements[e].ParagraphElement? {
        var p := layouts[l].elements[e].paragraph;
        PutElementSame(layouts, l, e, ParagraphElement(p.(runs := RunsEdited(p.runs, ph, tokenize, kind))));
      }
    case CellAt(l, e, r, c) =>
      if At(layouts, loc).Some? && At(layouts, loc).value.CellNode? {
        CellInTable(layouts, l, e, r, c);
        var t := layouts[l].elements[e].table;
        var cell := At(layouts, loc).value.cell;
        var cell' := CellEdited(cell, ph, tokenize, kind);
        PutElementSame(layouts, l, e, TableElement(t.(rows := t.rows[r := t.rows[r][c := Some(cell')]])));
      }
    case CellParagraphAt(l, e, r, c, p) =>
      var at := At(layouts, CellAt(l, e, r, c));
      if at.Some? && at.value.CellNode? && p < |at.value.cell.paragraphs| {
        CellInTable(layouts, l, e, r, c);
        var t := layouts[l].elements[e].table;
        var cell := at.value.cell;
        var cell' := cell.(paragraphs := WithRuns(cell.paragraphs, p, RunsEdited(cell.paragraphs[p].runs, ph, tokenize, kind)));
        PutElementSame(layouts, l, e, TableElement(t.(rows := t.rows[r := t.rows[r][c := Some(cell')]])));
      }
    case LayoutAt(_) =>
    case RunAt(_, _) =>
  }

  /** An edit changes at most the layout the location is in. */
  function LayoutOfLocation(loc: Location): nat {
    match loc
    case LayoutAt(l) => l
    case BandAt(l, _) => l
    case ElementAt(l, _) => l
    case CellAt(l, _, _, _) => l
    case CellParagraphAt(l, _, _, _, _) => l
    case RunAt(owner, _) => LayoutOfLocation(owner)
  }

  lemma EditAtLocal(layouts: seq<Layout>, loc: Location, ph: Placeholder, tokenize: Tokenizer, kind: EditKind, i: nat)
    requires i < |layouts| && i != LayoutOfLocation(loc)
    ensures |EditAt(layouts, loc, ph, tokenize, kind)| == |layouts|
    ensures EditAt(layouts, loc, ph, tokenize, kind)[i] == layouts[i]
  {
    match loc
    case CellAt(l, e, r, c) =>
      if At(layouts, loc).Some? && At(layouts, loc).value.CellNode? {
        CellInTable(layouts, l, e, r, c);
      }
    case CellParagraphAt(l, e, r, c, p) =>
      if At(layouts, CellAt(l, e, r, c)).Some? && At(layouts, CellAt(l, e, r, c)).value.CellNode? {
        CellInTable(layouts, l, e, r, c);
      }
    case _ =>
  }

  // ---------------------------------------------------------------------------
  // The first pass
  // ---------------------------------------------------------------------------

  /** The layouts as edited so far, the element index as lookups left it and the replacements queued so far. */
  datatype Pass = Pass(layouts: seq<Layout>, index: ElementIndex, ops: seq<Replacement>)

  /** Where a built index places an id, if anywhere. */
  function Target(index: ElementIndex, id: Option<string>): Option<Location> {
    if id.Some? && id.value in index then Some(index[id.value]) else None
  }

  /**
   * One placeholder. A deleted one has its text dropped from its element; one
   * whose replacement is not done is skipped; otherwise a paragraph is either
   * queued for a structural replacement or edited inline, and any other node
   * is edited inline. Building the replacement table can raise. The lookup,
   * which a skipped placeholder does not make, rebuilds an empty index first,
   * and the index stays as rebuilt.
   */
  function PlaceholderStep(st: Pass, ph: Placeholder, tokenize: Tokenizer): Result<Pass> {
    if !IsSet(ph.deleted) && ph.status != ReplacementDone then Ok(st)
    else
      var m := Effective(st.layouts, st.index);
      var s := st.(index := m);
      var target := Target(m, ph.elementId);
      if IsSet(ph.deleted) then
        Ok(if target.Some? then s.(layouts := EditAt(st.layouts, target.value, ph, tokenize, Deletion)) else s)
      else if target.None? then Ok(s)
      else match At(s.layouts, target.value)
        case Some(ParagraphNode(p)) =>
          (match ResolveReplacement(ParagraphElement(p), ph, tokenize)
           case Err(x) => Err(x)
           case Ok(Some(op)) => Ok(s.(ops := s.ops + [op]))
           case Ok(None) => Ok(s.(layouts := EditAt(s.layouts, target.value, ph, tokenize, Inline))))
        case _ => Ok(s.(layouts := EditAt(s.layouts, target.value, ph, tokenize, Inline)))
  }

  /** The state reached, and the exception that stopped the pass, if one did. */
  datatype Outcome = Outcome(pass: Pass, error: Option<Exc>)

  /** The first pass over `phs[k..]`. */
  function PassFrom(st: Pass, phs: seq<Placeholder>, k: nat, tokenize: Tokenizer): Outcome
    requires k <= |phs|
    decreases |phs| - k
  {
    if k == |phs| then Outcome(st, None)
    else match PlaceholderStep(st, phs[k], tokenize)
      case Err(x) => Outcome(st, Some(x))
      case Ok(st') => PassFrom(st', phs, k + 1, tokenize)
  }

  /** Every queued replacement swaps one element for exactly one fresh table. */
  predicate TableSwaps(ops: seq<Replacement>) {
    forall i :: 0 <= i < |ops| ==>
      |ops[i].newElements| == 1 && ops[i].newElements[0].TableElement? && ops[i].newElements[0].table.id == None
  }

  lemma StepShape(st: Pass, ph: Placeholder, tokenize: Tokenizer)
    ensures var r := PlaceholderStep(st, ph, tokenize);
      r.Ok? ==>
        && SameElements(st.layouts, r.value.layouts) && st.ops <= r.value.ops
        && (TableSwaps(st.ops) ==> TableSwaps(r.value.ops))
  {
    var m := Effective(st.layouts, st.index);
    var target := Target(m, ph.elementId);
    if target.None? {
    } else if IsSet(ph.deleted) {
      EditAtSame(st.layouts, target.value, ph, tokenize, Deletion);
    } else if ph.status == ReplacementDone {
      var node := At(st.layouts, target.value);
      if node.Some? && node.value.ParagraphNode? {
        var q := ResolveReplacement(ParagraphElement(node.value.paragraph), ph, tokenize);
        if q.Ok? && q.value.Some? {
          assert PlaceholderStep(st, ph, tokenize) == Ok(st.(index := m, ops := st.ops + [q.value.value]));
          return;
        }
      }
      EditAtSame(st.layouts, target.value, ph, tokenize, Inline);
    }
  }

  /**
   * The first pass, finished or stopped, keeps every element in its slot with
   * its kind and id, only adds to the queue, and queues only swaps of one
   * element for one fresh table.
   */
  lemma {:induction false} PassShape(st: Pass, phs: seq<Placeholder>, k: nat, tokenize: Tokenizer)
    requires k <= |phs| && TableSwaps(st.ops)
    ensures var o := PassFrom(st, phs, k, tokenize);
      SameElements(st.layouts, o.pass.layouts) && st.ops <= o.pass.ops && TableSwaps(o.pass.ops)
    decreases |phs| - k
  {
    if k < |phs| {
      StepShape(st, phs[k], tokenize);
      var r := PlaceholderStep(st, phs[k], tokenize);
      if r.Ok? {
        PassShape(r.value, phs, k + 1, tokenize);
        SameElementsTrans(st.layouts, r.value.layouts, PassFrom(r.value, phs, k + 1, tokenize).pass.layouts);
      }
    }
  }

  /** Placeholders that are neither deleted nor done change nothing at all, not even the index. */
  lemma {:induction false} PendingPlaceholdersIgnored(st: Pass, phs: seq<Placeholder>, k: nat, tokenize: Tokenizer)
    requires k <= |phs|
    requires forall i :: k <= i < |phs| ==> !IsSet(phs[i].deleted) && phs[i].status != ReplacementDone
    ensures PassFrom(st, phs, k, tokenize) == Outcome(st, None)
    decreases |phs| - k
  {
    if k < |phs| {
      assert PlaceholderStep(st, phs[k], tokenize) == Ok(st);
      PendingPlaceholdersIgnored(st, phs, k + 1, tokenize);
    }
  }

  /**
   * Without a placeholder asking for a table, the pass never raises and
   * queues nothing: every change is an in-place edit.
   */
  lemma {:induction false} NoTableRequestNoQueue(st: Pass, phs: seq<Placeholder>, k: nat, tokenize: Tokenizer)
    requires k <= |phs|
    requires forall i :: k <= i < |phs| ==> phs[i].futureElement != FutureTable
    ensures PassFrom(st, phs, k, tokenize).error == None
    ensures PassFrom(st, phs, k, tokenize).pass.ops == st.ops
    decreases |phs| - k
  {
    if k < |phs| {
      var r := PlaceholderStep(st, phs[k], tokenize);
      assert r.Ok? && r.value.ops == st.ops;
      NoTableRequestNoQueue(r.value, phs, k + 1, tokenize);
    }
  }

  /** The pass stops only on a placeholder that asks for a table with replacement text. */
  lemma {:induction false} PassErrorCause(st: Pass, phs: seq<Placeholder>, k: nat, tokenize: Tokenizer)
    requires k <= |phs|
    ensures PassFrom(st, phs, k, tokenize).error.Some? ==>
      exists i :: k <= i < |phs| && phs[i].futureElement == FutureTable && Truthy(phs[i].replacedText)
    decreases |phs| - k
  {
    if k < |phs| {
      var r := PlaceholderStep(st, phs[k], tokenize);
      if r.Ok? {
        PassErrorCause(r.value, phs, k + 1, tokenize);
      }
    }
  }

  // ---------------------------------------------------------------------------
  // The second pass
  // ---------------------------------------------------------------------------

  /** The layouts, the paragraph cache and the exception that stopped the splicing, if one did. */
  datatype Spliced = Spliced(layouts: seq<Layout>, cache: Cache, error: Option<Exc>)

  /**
   * `_apply_replacement` for `ops[k..]` in order; each splice moves the cache
   * entries it displaces, and the entry of a removed paragraph keeps that
   * paragraph, as a reference to it would.
   */
  function SpliceFrom(layouts: seq<Layout>, cache: Cache, ops: seq<Replacement>, k: nat): Spliced
    requires k <= |ops|
    decreases |ops| - k
  {
    if k == |ops| then Spliced(layouts, cache, None)
    else match FindElement(layouts, ops[k].oldElementId, 0)
      case Err(x) => Spliced(layouts, cache, Some(x))
      case Ok(None) => SpliceFrom(layouts, cache, ops, k + 1)
      case Ok(Some((l, e))) =>
        SpliceFrom(Splice(layouts, l, e, ops[k].newElements), RelocateAll(layouts, cache, l, e, |ops[k].newElements|), ops, k + 1)
  }

  /** The layouts the splicing reaches are those `Replaced` gives, one replacement after another. */
  lemma {:induction false} SpliceFromReplaced(layouts: seq<Layout>, cache: Cache, ops: seq<Replacement>, k: nat)
    requires k < |ops|
    ensures Replaced(layouts, ops[k]).Err? ==> SpliceFrom(layouts, cache, ops, k) == Spliced(layouts, cache, Some(Replaced(layouts, ops[k]).error))
    ensures Replaced(layouts, ops[k]).Ok? ==>
      SpliceFrom(layouts, cache, ops, k).layouts ==
      SpliceFrom(Replaced(layouts, ops[k]).value, SpliceFrom(layouts, cache, ops, k).cache, ops, k + 1).layouts
  {
    var r := FindElement(layouts, ops[k].oldElementId, 0);
    if r.Ok? && r.value.Some? {
      var (l, e) := r.value.value;
      SpliceFromLayouts(Splice(layouts, l, e, ops[k].newElements), RelocateAll(layouts, cache, l, e, |ops[k].newElements|), SpliceFrom(layouts, cache, ops, k).cache, ops, k + 1);
    } else if r.Ok? {
      SpliceFromLayouts(layouts, cache, SpliceFrom(layouts, cache, ops, k).cache, ops, k + 1);
    }
  }

  /** The layouts the splicing reaches do not depend on the cache. */
  lemma {:induction false} SpliceFromLayouts(layouts: seq<Layout>, c1: Cache, c2: Cache, ops: seq<Replacement>, k: nat)
    requires k <= |ops|
    ensures SpliceFrom(layouts, c1, ops, k).layouts == SpliceFrom(layouts, c2, ops, k).layouts
    ensures SpliceFrom(layouts, c1, ops, k).error == SpliceFrom(layouts, c2, ops, k).error
    decreases |ops| - k
  {
    if k < |ops| {
      var r := FindElement(layouts, ops[k].oldElementId, 0);
      if r.Ok? && r.value.Some? {
        var (l, e) := r.value.value;
        var n := |ops[k].newElements|;
        SpliceFromLayouts(Splice(layouts, l, e, ops[k].newElements), RelocateAll(layouts, c1, l, e, n), RelocateAll(layouts, c2, l, e, n), ops, k + 1);
      } else if r.Ok? {
        SpliceFromLayouts(layouts, c1, c2, ops, k + 1);
      }
    }
  }

  /** One splice: every cache entry keeps referring to the very same paragraph. */
  lemma RelocateAllKeeps(layouts: seq<Layout>, cache: Cache, l: nat, e: nat, news: seq<Element>)
    requires l < |layouts| && e < |layouts[l].elements| && Refers(layouts, cache)
    ensures var c' := RelocateAll(layouts, cache, l, e, |news|);
      c'.Keys == cache.Keys &&
      forall key :: key in cache ==> Denote(Splice(layouts, l, e, news), c'[key]) == Denote(layouts, cache[key])
  {
    forall key | key in cache
      ensures Denote(Splice(layouts, l, e, news), RelocateAll(layouts, cache, l, e, |news|)[key]) == Denote(layouts, cache[key])
    {
      SpliceKeepsReference(layouts, l, e, news, cache[key]);
    }
  }

  /**
   * However far the splicing gets, the paragraph cache keeps its keys and
   * each key keeps referring to the paragraph it referred to, whether that
   * paragraph is still in the document or was replaced by a table.
   */
  lemma {:induction false} SpliceKeepsCache(layouts: seq<Layout>, cache: Cache, ops: seq<Replacement>, k: nat)
    requires k <= |ops| && Refers(layouts, cache)
    ensures var s := SpliceFrom(layouts, cache, ops, k);
      s.cache.Keys == cache.Keys &&
      forall key :: key in cache ==> Denote(s.layouts, s.cache[key]) == Denote(layouts, cache[key])
    decreases |ops| - k
  {
    if k < |ops| {
      var r := FindElement(layouts, ops[k].oldElementId, 0);
      if r.Ok? && r.value.Some? {
        var (l, e) := r.value.value;
        var news := ops[k].newElements;
        var layouts', cache' := Splice(layouts, l, e, news), RelocateAll(layouts, cache, l, e, |news|);
        RelocateAllKeeps(layouts, cache, l, e, news);
        assert Refers(layouts', cache') by {
          forall key | key in cache' ensures Denote(layouts', cache'[key]).Some? {
            assert Denote(layouts', cache'[key]) == Denote(layouts, cache[key]);
          }
        }
        SpliceKeepsCache(layouts', cache', ops, k + 1);
      } else if r.Ok? {
        SpliceKeepsCache(layouts, cache, ops, k + 1);
      }
    }
  }

  /** A cache that refers and resolves before the splicing still does after it, to the same paragraphs. */
  lemma SpliceKeepsResolved(layouts: seq<Layout>, cache: Cache, order: seq<Option<string>>, ops: seq<Replacement>)
    requires Refers(layouts, cache) && Resolves(layouts, cache, order)
    ensures var s := SpliceFrom(layouts, cache, ops, 0);
      Refers(s.layouts, s.cache) && Resolves(s.layouts, s.cache, order) &&
      Resolved(s.layouts, s.cache, order) == Resolved(layouts, cache, order)
  {
    SpliceKeepsCache(layouts, cache, ops, 0);
    var s := SpliceFrom(layouts, cache, ops, 0);
    assert Refers(s.layouts, s.cache) by {
      forall key | key in s.cache ensures Denote(s.layouts, s.cache[key]).Some? {
        assert Denote(s.layouts, s.cache[key]) == Denote(layouts, cache[key]);
      }
    }
    assert Resolves(s.layouts, s.cache, order) by {
      forall i | 0 <= i < |order| ensures order[i] in s.cache && Denote(s.layouts, s.cache[order[i]]).Some? {
        assert Denote(s.layouts, s.cache[order[i]]) == Denote(layouts, cache[order[i]]);
      }
    }
  }

  /**
   * A queued swap whose element is found puts the new table exactly where
   * that element was in the document's order, every other element keeping
   * its order.
   */
  lemma SwapInPlace(layouts: seq<Layout>, op: Replacement, l: nat, e: nat)
    requires |op.newElements| == 1
    requires FindElement(layouts, op.oldElementId, 0) == Ok(Some((l, e)))
    ensures var pos := |Flat(layouts[..l])| + e;
      && Replaced(layouts, op) == Ok(Splice(layouts, l, e, op.newElements))
      && pos < |Flat(layouts)| && ElementId(Flat(layouts)[pos]) == op.oldElementId
      && Flat(Replaced(layouts, op).value) == Flat(layouts)[pos := op.newElements[0]]
  {
    SpliceFlat(layouts, l, e, op.newElements);
    assert FindInElements(layouts[l].elements, op.oldElementId, 0) == Ok(Some(e));
    OneForOne(Flat(layouts), |Flat(layouts[..l])| + e, op.newElements);
  }

  lemma OneForOne<T>(s: seq<T>, pos: nat, news: seq<T>)
    requires pos < |s| && |news| == 1
    ensures s[..pos] + news + s[pos + 1..] == s[pos := news[0]]
  {
  }

  // ---------------------------------------------------------------------------
  // The whole batch
  // ---------------------------------------------------------------------------

  /** The document's layouts, element index and paragraph cache after a batch, and the exception that stopped it, if one did. */
  datatype Applied = Applied(layouts: seq<Layout>, index: ElementIndex, cache: Cache, error: Option<Exc>)

  /**
   * `apply_placeholders`: nothing for an empty list; otherwise a fresh index,
   * the first pass, then the queued splices, then the index is dropped. An
   * exception in the first pass leaves the edits made so far and the index as
   * the failing lookup left it; one in the splices leaves the index as the
   * first pass left it.
   */
  function ApplyAll(layouts: seq<Layout>, index: ElementIndex, cache: Cache, phs: seq<Placeholder>, tokenize: Tokenizer): Applied {
    if phs == [] then Applied(layouts, index, cache, None)
    else
      var o := PassFrom(Pass(layouts, ElementIndexOf(layouts), []), phs, 0, tokenize);
      if o.error.Some? then Applied(o.pass.layouts, Effective(o.pass.layouts, o.pass.index), cache, o.error)
      else
        var s := SpliceFrom(o.pass.layouts, cache, o.pass.ops, 0);
        Applied(s.layouts, if s.error.None? then map[] else o.pass.index, s.cache, s.error)
  }

  /**
   * However the batch ends, a paragraph cache that referred and resolved
   * still does, and the neighbouring-text queries read the very same
   * paragraphs through it as before the splices.
   */
  lemma ApplyAllKeepsCache(layouts: seq<Layout>, index: ElementIndex, cache: Cache, order: seq<Option<string>>, phs: seq<Placeholder>, tokenize: Tokenizer)
    requires Refers(layouts, cache) && Resolves(layouts, cache, order)
    ensures var a := ApplyAll(layouts, index, cache, phs, tokenize);
      Refers(a.layouts, a.cache) && Resolves(a.layouts, a.cache, order)
  {
    if phs != [] {
      var st := Pass(layouts, ElementIndexOf(layouts), []);
      PassShape(st, phs, 0, tokenize);
      var o := PassFrom(st, phs, 0, tokenize);
      SlotsKeepCache(layouts, o.pass.layouts, cache, order);
      SpliceKeepsResolved(o.pass.layouts, cache, order, o.pass.ops);
    }
  }
}
