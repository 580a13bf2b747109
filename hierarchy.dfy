/**
 * `build_hierarchy`: one pass over the document's elements, layout after
 * layout, that marks headings (with their level and the id of their parent
 * heading), captions (with the heading they sit under), ordinary paragraphs
 * (with their heading and their colour intent), and tables (with their
 * heading, the caption just before them, and the intent of every paragraph
 * in their cells). The pass stops at the first exception; what it marked
 * before stays marked.
 */
module Hierarchy {
  import opened Wrappers
  import opened Paragraphs
  import opened Tables
  import opened Layouts
  import opened HeadingStacks

  /** The pass's variables: the level map, the last heading id, the pending caption id. */
  datatype HState = HState(stack: LevelStack, lastHeading: Option<string>, lastCaption: Option<string>)

  const Start := HState(map[], None, None)

  /** What one step leaves: the new state, the updated value, and the exception that stopped it, if any. */
  datatype Stepped<T> = Stepped(state: HState, value: T, error: Option<Exc>)

  // ---------------------------------------------------------------------------
  // One paragraph
  // ---------------------------------------------------------------------------

  /** The paragraph's heading as the pass sees it: a style classified as heading with a non-zero level. */
  function HeadingOf(e: Element, matcher: Matcher): (h: Option<Heading>)
    ensures h.Some? ==> e.ParagraphElement? && h.value.id == e.paragraph.id && h.value.level >= 1
  {
    if e.ParagraphElement? && e.paragraph.style.Some? then
      var (kind, level) := ClassifyStyle(e.paragraph.style.value, matcher);
      if kind == Some("heading") && level.Some? && level.value != 0 then Some(Heading(level.value, e.paragraph.id))
      else None
    else None
  }

  /** The intent flags of `classify_intent`'s answer set on the paragraph; a flag never goes back to unset. */
  function Marked(p: Paragraph, intent: Option<string>): Paragraph {
    p.(isInstruction := if intent == Some("instruction") then Some(true) else p.isInstruction,
       isExample := if intent == Some("example") then Some(true) else p.isExample)
  }

  /** The paragraph branch: heading, caption, or ordinary paragraph. A missing style raises. */
  function ParagraphStep(st: HState, p: Paragraph, matcher: Matcher): Stepped<Paragraph> {
    if p.style.None? then Stepped(st, p, Some(AttributeError))
    else
      var (kind, level) := ClassifyStyle(p.style.value, matcher);
      if kind == Some("heading") && level.Some? && level.value != 0 then
        var parent := ParentInStack(st.stack, level.value);
        Stepped(HState(PushHeading(st.stack, level.value, p.id), p.id, None),
          p.(isHeading := Some(true), headingLevel := level, parentRefId := parent), None)
      else if kind == Some("caption") then
        Stepped(st.(lastCaption := p.id), p.(isCaption := Some(true), parentRefId := st.lastHeading), None)
      else
        match Intent(p.runs)
        case Err(x) => Stepped(st, p, Some(x))
        case Ok(intent) => Stepped(st.(lastCaption := None), Marked(p, intent).(parentRefId := st.lastHeading), None)
  }

  // ---------------------------------------------------------------------------
  // One table
  // ---------------------------------------------------------------------------

  /** The intent of the paragraphs from `k` on; the first that raises stops the scan. */
  function MarkFrom(ps: seq<Paragraph>, k: nat): (r: (seq<Paragraph>, Option<Exc>))
    requires k <= |ps|
    ensures |r.0| == |ps| && forall i :: 0 <= i < k ==> r.0[i] == ps[i]
    decreases |ps| - k
  {
    if k == |ps| then (ps, None)
    else match Intent(ps[k].runs)
      case Err(x) => (ps, Some(x))
      case Ok(i) => MarkFrom(ps[k := Marked(ps[k], i)], k + 1)
  }

  /** The cells of a row from `c` on; an empty slot has no `paragraphs` and raises. */
  function MarkRowFrom(row: Row, c: nat): (r: (Row, Option<Exc>))
    requires c <= |row|
    ensures |r.0| == |row| && forall i :: 0 <= i < c ==> r.0[i] == row[i]
    decreases |row| - c
  {
    if c == |row| then (row, None)
    else if row[c].None? then (row, Some(AttributeError))
    else
      var (ps, err) := MarkFrom(row[c].value.paragraphs, 0);
      var row' := row[c := Some(row[c].value.(paragraphs := ps))];
      if err.Some? then (row', err) else MarkRowFrom(row', c + 1)
  }

  function MarkRowsFrom(rows: seq<Row>, r: nat): (out: (seq<Row>, Option<Exc>))
    requires r <= |rows|
    ensures |out.0| == |rows| && forall i :: 0 <= i < r ==> out.0[i] == rows[i]
    decreases |rows| - r
  {
    if r == |rows| then (rows, None)
    else
      var (row, err) := MarkRowFrom(rows[r], 0);
      var rows' := rows[r := row];
      if err.Some? then (rows', err) else MarkRowsFrom(rows', r + 1)
  }

  /** The table branch: parent heading, pending caption (if truthy), then the cells' intents. */
  function TableStep(st: HState, t: Table): Stepped<Table> {
    var linked := t.(parentRefId := st.lastHeading,
                     captionRefId := if Truthy(st.lastCaption) then st.lastCaption else t.captionRefId);
    var (rows, err) := MarkRowsFrom(linked.rows, 0);
    Stepped(st.(lastCaption := None), linked.(rows := rows), err)
  }

  /** The pass keeps every element's kind and id. */
  predicate SameSlot(a: Element, b: Element) {
    a.ParagraphElement? == b.ParagraphElement? && a.TableElement? == b.TableElement? && ElementId(a) == ElementId(b)
  }

  /** The pass keeps every layout's fields but its elements, and each element's kind and id. */
  predicate SameLayoutSlots(a: Layout, b: Layout) {
    && a.(elements := b.elements) == b
    && |a.elements| == |b.elements|
    && forall i :: 0 <= i < |a.elements| ==> SameSlot(a.elements[i], b.elements[i])
  }

  /** One element; an absent entry is neither paragraph nor table and is passed over. */
  function ElementStep(st: HState, e: Element, matcher: Matcher): (s: Stepped<Element>)
    ensures SameSlot(s.value, e)
  {
    match e
    case ParagraphElement(p) =>
      var s := ParagraphStep(st, p, matcher);
      Stepped(s.state, ParagraphElement(s.value), s.error)
    case TableElement(t) =>
      var s := TableStep(st, t);
      Stepped(s.state, TableElement(s.value), s.error)
    case Absent => Stepped(st, e, None)
  }

  // ---------------------------------------------------------------------------
  // The walk over the document
  // ---------------------------------------------------------------------------

  /**
   * The walk is written over any per-element step, so that what it does with
   * the state can be reasoned about apart from what one step does.
   */
  type Step = (HState, Element) -> Stepped<Element>

  /** The step of `build_hierarchy`. */
  function Pass(matcher: Matcher): Step {
    (st: HState, e: Element) => ElementStep(st, e, matcher)
  }

  /** The elements `es[k..]` walked from state `st`; after an exception the rest are left as they were. */
  function ElementsFrom(st: HState, es: seq<Element>, k: nat, step: Step): (r: Stepped<seq<Element>>)
    requires k <= |es|
    ensures |r.value| == |es| - k
    decreases |es| - k
  {
    if k == |es| then Stepped(st, [], None)
    else
      var s := step(st, es[k]);
      if s.error.Some? then Stepped(s.state, [s.value] + es[k + 1..], s.error)
      else
        var rest := ElementsFrom(s.state, es, k + 1, step);
        Stepped(rest.state, [s.value] + rest.value, rest.error)
  }

  /** The layouts `ls[l..]` walked from state `st`, the state carried from one layout to the next. */
  function LayoutsFrom(st: HState, ls: seq<Layout>, l: nat, step: Step): (r: Stepped<seq<Layout>>)
    requires l <= |ls|
    ensures |r.value| == |ls| - l
    decreases |ls| - l
  {
    if l == |ls| then Stepped(st, [], None)
    else
      var s := ElementsFrom(st, ls[l].elements, 0, step);
      var layout := ls[l].(elements := s.value);
      if s.error.Some? then Stepped(s.state, [layout] + ls[l + 1..], s.error)
      else
        var rest := LayoutsFrom(s.state, ls, l + 1, step);
        Stepped(rest.state, [layout] + rest.value, rest.error)
  }

  /** A step that keeps its element's kind and id. */
  ghost predicate KeepsSlots(step: Step) {
    forall st, e :: SameSlot(step(st, e).value, e)
  }

  lemma {:induction false} ElementsSlots(st: HState, es: seq<Element>, k: nat, step: Step)
    requires k <= |es| && KeepsSlots(step)
    ensures var r := ElementsFrom(st, es, k, step);
      forall i :: k <= i < |es| ==> SameSlot(r.value[i - k], es[i])
    decreases |es| - k
  {
    if k < |es| {
      var r := ElementsFrom(st, es, k, step);
      var s := step(st, es[k]);
      assert SameSlot(s.value, es[k]);
      if s.error.None? {
        ElementsSlots(s.state, es, k + 1, step);
        var rest := ElementsFrom(s.state, es, k + 1, step);
        forall i | k < i < |es| ensures SameSlot(r.value[i - k], es[i]) {
          assert r.value[i - k] == rest.value[i - (k + 1)];
        }
      } else {
        forall i | k < i < |es| ensures SameSlot(r.value[i - k], es[i]) {
          assert r.value[i - k] == es[i];
        }
      }
    }
  }

  lemma {:induction false} LayoutsSlots(st: HState, ls: seq<Layout>, l: nat, step: Step)
    requires l <= |ls| && KeepsSlots(step)
    ensures var r := LayoutsFrom(st, ls, l, step);
      forall i :: l <= i < |ls| ==> SameLayoutSlots(r.value[i - l], ls[i])
    decreases |ls| - l
  {
    if l < |ls| {
      var r := LayoutsFrom(st, ls, l, step);
      var s := ElementsFrom(st, ls[l].elements, 0, step);
      ElementsSlots(st, ls[l].elements, 0, step);
      assert SameLayoutSlots(ls[l].(elements := s.value), ls[l]);
      if s.error.None? {
        LayoutsSlots(s.state, ls, l + 1, step);
        var rest := LayoutsFrom(s.state, ls, l + 1, step);
        forall i | l < i < |ls| ensures SameLayoutSlots(r.value[i - l], ls[i]) {
          assert r.value[i - l] == rest.value[i - (l + 1)];
        }
      } else {
        forall i | l < i < |ls| ensures SameLayoutSlots(r.value[i - l], ls[i]) {
          assert r.value[i - l] == ls[i];
        }
      }
    }
  }

  /** The step of `build_hierarchy` keeps each element's kind and id. */
  lemma PassKeepsSlots(matcher: Matcher)
    ensures KeepsSlots(Pass(matcher))
  {
    forall st, e ensures SameSlot(Pass(matcher)(st, e).value, e) {
      assert Pass(matcher)(st, e) == ElementStep(st, e, matcher);
    }
  }

  /**
   * The whole pass: the marked layouts, and the exception that stopped it, if
   * any. It changes no element's kind or id, and nothing of a layout but its
   * elements' marks.
   */
  function HierarchyOf(layouts: seq<Layout>, matcher: Matcher): (r: Stepped<seq<Layout>>)
    ensures |r.value| == |layouts|
    ensures forall i :: 0 <= i < |layouts| ==> SameLayoutSlots(r.value[i], layouts[i])
  {
    PassKeepsSlots(matcher);
    LayoutsSlots(Start, layouts, 0, Pass(matcher));
    LayoutsFrom(Start, layouts, 0, Pass(matcher))
  }

  // ---------------------------------------------------------------------------
  // Heading parents over the whole document
  // ---------------------------------------------------------------------------

  /** Which heading, if any, each element is. */
  type Heads = Element -> Option<Heading>

  function HeadsOf(matcher: Matcher): Heads {
    (e: Element) => HeadingOf(e, matcher)
  }

  /** A heading as a list of zero or one. */
  function Own(h: Option<Heading>): seq<Heading> {
    match h
    case Some(h) => [h]
    case None => []
  }

  /** The headings among `es[k..j]`, in order. */
  function HeadingsIn(es: seq<Element>, k: nat, j: nat, heads: Heads): seq<Heading>
    requires k <= j <= |es|
    decreases j - k
  {
    if k == j then [] else Own(heads(es[k])) + HeadingsIn(es, k + 1, j, heads)
  }

  /** The headings of the layouts `ls[l..m]`, in document order. */
  function DocHeadingsIn(ls: seq<Layout>, l: nat, m: nat, heads: Heads): seq<Heading>
    requires l <= m <= |ls|
    decreases m - l
  {
    if l == m then [] else HeadingsIn(ls[l].elements, 0, |ls[l].elements|, heads) + DocHeadingsIn(ls, l + 1, m, heads)
  }

  /** The document's headings, in document order. */
  function Headings(layouts: seq<Layout>, heads: Heads): seq<Heading> {
    DocHeadingsIn(layouts, 0, |layouts|, heads)
  }

  /** How many of the document's headings come before element `j` of layout `m`. */
  function HeadingsBefore(layouts: seq<Layout>, m: nat, j: nat, heads: Heads): nat
    requires m < |layouts| && j <= |layouts[m].elements|
  {
    |DocHeadingsIn(layouts, 0, m, heads)| + |HeadingsIn(layouts[m].elements, 0, j, heads)|
  }

  /** The id of the last heading of the list. */
  function LastId(hs: seq<Heading>): Option<string> {
    if hs == [] then None else hs[|hs| - 1].id
  }

  /** The pass's state after the headings `hs`: the level map as the heading rules require, and the last heading. */
  ghost predicate Inv(st: HState, hs: seq<Heading>) {
    && (forall i :: 0 <= i < |hs| ==> hs[i].level >= 1)
    && StackInv(st.stack, hs, |hs|)
    && st.lastHeading == LastId(hs)
  }

  /**
   * What the pass leaves in element `out`, which is the heading `h` or no
   * heading, when the document's headings are `all` and `n` of them come
   * before it: a heading is `all[n]` and points at the nearest earlier heading
   * of lower level; any other paragraph, and a table, points at the last
   * heading before it.
   */
  predicate Linked(out: Element, h: Option<Heading>, all: seq<Heading>, n: nat) {
    match h
    case Some(h) => n < |all| && all[n] == h && out.ParagraphElement? && out.paragraph.parentRefId == ParentOf(all, n)
    case None =>
      && n <= |all|
      && (out.ParagraphElement? ==> out.paragraph.parentRefId == LastId(all[..n]))
      && (out.TableElement? ==> out.table.parentRefId == LastId(all[..n]))
  }

  /** An invariant of the walk's state, given the headings walked so far. */
  type StateInv = (HState, seq<Heading>) -> bool

  /** A step that keeps the invariant `inv` whatever state it starts from, with its own heading added. */
  ghost predicate Sound(step: Step, heads: Heads, inv: StateInv) {
    forall st, hs, e {:trigger inv(st, hs), step(st, e)} :: inv(st, hs) && step(st, e).error.None? ==>
      inv(step(st, e).state, hs + Own(heads(e)))
  }

  /** A step that, from any state keeping `inv`, links the element it leaves against the headings up to its own. */
  ghost predicate Links(step: Step, heads: Heads, inv: StateInv) {
    forall st, hs, e {:trigger inv(st, hs), step(st, e)} :: inv(st, hs) && step(st, e).error.None? ==>
      Linked(step(st, e).value, heads(e), hs + Own(heads(e)), |hs|)
  }

  ghost function PassInv(): StateInv {
    (st: HState, hs: seq<Heading>) => Inv(st, hs)
  }

  lemma {:induction false} LastBelowPrefix(hs: seq<Heading>, more: seq<Heading>, n: nat, level: int)
    requires n <= |hs|
    ensures LastBelow(hs + more, n, level) == LastBelow(hs, n, level)
  {
    if n > 0 {
      assert (hs + more)[n - 1] == hs[n - 1];
      LastBelowPrefix(hs, more, n - 1, level);
    }
  }

  lemma StackInvPrefix(stack: LevelStack, hs: seq<Heading>, more: seq<Heading>)
    requires StackInv(stack, hs, |hs|)
    ensures StackInv(stack, hs + more, |hs|)
  {
    forall l | true
      ensures Tops(hs + more, |hs|, l) == Tops(hs, |hs|, l)
      ensures LastBelow(hs + more, |hs|, l + 1) == LastBelow(hs, |hs|, l + 1)
    {
      LastBelowPrefix(hs, more, |hs|, l + 1);
    }
  }

  /** Later headings do not change what is linked to earlier ones. */
  lemma LinkedExtend(out: Element, h: Option<Heading>, all: seq<Heading>, more: seq<Heading>, n: nat)
    requires Linked(out, h, all, n)
    ensures Linked(out, h, all + more, n)
  {
    match h
    case Some(_) =>
      assert (all + more)[n] == all[n];
      LastBelowPrefix(all, more, n, all[n].level);
    case None =>
      assert (all + more)[..n] == all[..n];
  }

  /** A heading step pushes the heading and links it to its parent. */
  lemma HeadingStepLinked(st: HState, hs: seq<Heading>, p: Paragraph, h: Heading, matcher: Matcher)
    requires Inv(st, hs) && HeadingOf(ParagraphElement(p), matcher) == Some(h)
    ensures var s := ParagraphStep(st, p, matcher);
      && s.error.None? && Inv(s.state, hs + [h])
      && s.value.parentRefId == ParentOf(hs + [h], |hs|)
  {
    var hs' := hs + [h];
    StackInvPrefix(st.stack, hs, [h]);
    StackParent(st.stack, hs', |hs|, h.level);
    LastBelowPrefix(hs, [h], |hs|, h.level);
    assert hs'[|hs|] == h;
    StackPush(st.stack, hs', |hs|);
  }

  /** Any other step keeps the headings and links its element to the last one. */
  lemma OtherStepLinked(st: HState, hs: seq<Heading>, e: Element, matcher: Matcher)
    requires Inv(st, hs) && HeadingOf(e, matcher).None?
    ensures var s := ElementStep(st, e, matcher);
      s.error.None? ==> Inv(s.state, hs) && Linked(s.value, None, hs, |hs|)
  {
    assert hs[..|hs|] == hs;
  }

  /** One step of `build_hierarchy` keeps the invariant and links its element. */
  lemma StepLinked(st: HState, hs: seq<Heading>, e: Element, matcher: Matcher)
    requires Inv(st, hs)
    ensures var s := ElementStep(st, e, matcher);
      var hs' := hs + Own(HeadingOf(e, matcher));
      s.error.None? ==> Inv(s.state, hs') && Linked(s.value, HeadingOf(e, matcher), hs', |hs|)
  {
    match HeadingOf(e, matcher)
    case Some(h) =>
      HeadingStepLinked(st, hs, e.paragraph, h, matcher);
      assert (hs + [h])[|hs|] == h;
    case None =>
      assert hs + [] == hs;
      OtherStepLinked(st, hs, e, matcher);
  }

  /** The step of `build_hierarchy` keeps the invariant and links its element. */
  lemma PassSound(matcher: Matcher)
    ensures Sound(Pass(matcher), HeadsOf(matcher), PassInv())
    ensures Links(Pass(matcher), HeadsOf(matcher), PassInv())
  {
    forall st, hs, e | Inv(st, hs) && Pass(matcher)(st, e).error.None?
      ensures var hs' := hs + Own(HeadingOf(e, matcher));
        Inv(Pass(matcher)(st, e).state, hs') && Linked(Pass(matcher)(st, e).value, HeadingOf(e, matcher), hs', |hs|)
    {
      StepLinked(st, hs, e, matcher);
    }
  }

  lemma {:induction false} HeadingsSplit(es: seq<Element>, a: nat, b: nat, c: nat, heads: Heads)
    requires a <= b <= c <= |es|
    ensures HeadingsIn(es, a, c, heads) == HeadingsIn(es, a, b, heads) + HeadingsIn(es, b, c, heads)
    decreases b - a
  {
    if a < b {
      HeadingsSplit(es, a + 1, b, c, heads);
      var o := Own(heads(es[a]));
      assert o + (HeadingsIn(es, a + 1, b, heads) + HeadingsIn(es, b, c, heads))
          == (o + HeadingsIn(es, a + 1, b, heads)) + HeadingsIn(es, b, c, heads);
    } else {
      assert HeadingsIn(es, a, b, heads) == [];
    }
  }

  lemma {:induction false} DocHeadingsSplit(ls: seq<Layout>, a: nat, b: nat, c: nat, heads: Heads)
    requires a <= b <= c <= |ls|
    ensures DocHeadingsIn(ls, a, c, heads) == DocHeadingsIn(ls, a, b, heads) + DocHeadingsIn(ls, b, c, heads)
    decreases b - a
  {
    if a < b {
      DocHeadingsSplit(ls, a + 1, b, c, heads);
      var o := HeadingsIn(ls[a].elements, 0, |ls[a].elements|, heads);
      assert o + (DocHeadingsIn(ls, a + 1, b, heads) + DocHeadingsIn(ls, b, c, heads))
          == (o + DocHeadingsIn(ls, a + 1, b, heads)) + DocHeadingsIn(ls, b, c, heads);
    } else {
      assert DocHeadingsIn(ls, a, b, heads) == [];
    }
  }

  // ---------------------------------------------------------------------------
  // Where the walk stands at each element
  // ---------------------------------------------------------------------------

  /** The state the walk from `k` is in when it reaches element `j`. */
  function StateAt(st: HState, es: seq<Element>, k: nat, j: nat, step: Step): HState
    requires k <= j <= |es|
    decreases j - k
  {
    if k == j then st else StateAt(step(st, es[k]).state, es, k + 1, j, step)
  }

  /** The state the walk from layout `l` is in when it reaches layout `m`. */
  function LayoutStateAt(st: HState, ls: seq<Layout>, l: nat, m: nat, step: Step): HState
    requires l <= m <= |ls|
    decreases m - l
  {
    if l == m then st else LayoutStateAt(ElementsFrom(st, ls[l].elements, 0, step).state, ls, l + 1, m, step)
  }

  /** A walk that completes has taken element `j` from the state it had reached, without an exception. */
  lemma {:induction false} WalkAt(st: HState, es: seq<Element>, k: nat, j: nat, step: Step)
    requires k <= j < |es|
    ensures var r := ElementsFrom(st, es, k, step);
      var s := step(StateAt(st, es, k, j, step), es[j]);
      r.error.None? ==> s.error.None? && r.value[j - k] == s.value
    decreases |es| - k
  {
    if j > k {
      var s := step(st, es[k]);
      if s.error.None? {
        WalkAt(s.state, es, k + 1, j, step);
      }
    }
  }

  /** A walk over the layouts that completes has walked layout `m` from the state it had reached, without an exception. */
  lemma {:induction false} WalkLayoutAt(st: HState, ls: seq<Layout>, l: nat, m: nat, step: Step)
    requires l <= m < |ls|
    ensures var r := LayoutsFrom(st, ls, l, step);
      var s := ElementsFrom(LayoutStateAt(st, ls, l, m, step), ls[m].elements, 0, step);
      r.error.None? ==> s.error.None? && r.value[m - l].elements == s.value
    decreases |ls| - l
  {
    if m > l {
      var s := ElementsFrom(st, ls[l].elements, 0, step);
      if s.error.None? {
        WalkLayoutAt(s.state, ls, l + 1, m, step);
      }
    }
  }

  /** The state after the elements from `k` on keeps the invariant for all their headings. */
  lemma {:induction false} ElementsInv(st: HState, hs: seq<Heading>, es: seq<Element>, k: nat, step: Step, heads: Heads, inv: StateInv)
    requires k <= |es| && inv(st, hs) && Sound(step, heads, inv)
    ensures var r := ElementsFrom(st, es, k, step);
      r.error.None? ==> inv(r.state, hs + HeadingsIn(es, k, |es|, heads))
    decreases |es| - k
  {
    if k < |es| {
      var s := step(st, es[k]);
      if s.error.None? {
        var hs1 := hs + Own(heads(es[k]));
        assert inv(s.state, hs1);
        ElementsInv(s.state, hs1, es, k + 1, step, heads, inv);
        assert hs + HeadingsIn(es, k, |es|, heads) == hs1 + HeadingsIn(es, k + 1, |es|, heads);
      }
    } else {
      assert hs + HeadingsIn(es, k, |es|, heads) == hs;
    }
  }

  /** On reaching element `j` of a walk that completes, the state keeps the invariant for the headings before it. */
  lemma {:induction false} StateAtInv(st: HState, hs: seq<Heading>, es: seq<Element>, k: nat, j: nat, step: Step, heads: Heads, inv: StateInv)
    requires k <= j <= |es| && inv(st, hs) && Sound(step, heads, inv)
    ensures ElementsFrom(st, es, k, step).error.None? ==> inv(StateAt(st, es, k, j, step), hs + HeadingsIn(es, k, j, heads))
    decreases j - k
  {
    if j == k {
      assert hs + HeadingsIn(es, k, j, heads) == hs;
    } else {
      var s := step(st, es[k]);
      if s.error.None? {
        var hs1 := hs + Own(heads(es[k]));
        assert inv(s.state, hs1);
        StateAtInv(s.state, hs1, es, k + 1, j, step, heads, inv);
        assert hs + HeadingsIn(es, k, j, heads) == hs1 + HeadingsIn(es, k + 1, j, heads);
      }
    }
  }

  /** On reaching layout `m` of a walk that completes, the state keeps the invariant for the headings before it. */
  lemma {:induction false} LayoutStateAtInv(st: HState, hs: seq<Heading>, ls: seq<Layout>, l: nat, m: nat, step: Step, heads: Heads, inv: StateInv)
    requires l <= m <= |ls| && inv(st, hs) && Sound(step, heads, inv)
    ensures LayoutsFrom(st, ls, l, step).error.None? ==> inv(LayoutStateAt(st, ls, l, m, step), hs + DocHeadingsIn(ls, l, m, heads))
    decreases m - l
  {
    if m == l {
      assert hs + DocHeadingsIn(ls, l, m, heads) == hs;
    } else {
      var es := ls[l].elements;
      var s := ElementsFrom(st, es, 0, step);
      if s.error.None? {
        var hs1 := hs + HeadingsIn(es, 0, |es|, heads);
        ElementsInv(st, hs, es, 0, step, heads, inv);
        LayoutStateAtInv(s.state, hs1, ls, l + 1, m, step, heads, inv);
        assert hs + DocHeadingsIn(ls, l, m, heads) == hs1 + DocHeadingsIn(ls, l + 1, m, heads);
      }
    }
  }

  /**
   * A walk over the layouts that completes took element `j` of layout `m`
   * from a state that keeps the invariant for every heading before it, and
   * left in its place what that step left.
   */
  lemma ReachedAt(st: HState, hs: seq<Heading>, ls: seq<Layout>, m: nat, j: nat, step: Step, heads: Heads, inv: StateInv)
    requires m < |ls| && j < |ls[m].elements| && inv(st, hs) && Sound(step, heads, inv)
    ensures var r := LayoutsFrom(st, ls, 0, step);
      var es := ls[m].elements;
      var walked := ElementsFrom(LayoutStateAt(st, ls, 0, m, step), es, 0, step);
      var at := StateAt(LayoutStateAt(st, ls, 0, m, step), es, 0, j, step);
      r.error.None? ==>
        && r.value[m].elements == walked.value
        && inv(at, hs + DocHeadingsIn(ls, 0, m, heads) + HeadingsIn(es, 0, j, heads))
        && step(at, es[j]).error.None? && walked.value[j] == step(at, es[j]).value
  {
    var es := ls[m].elements;
    var S := LayoutStateAt(st, ls, 0, m, step);
    LayoutStateAtInv(st, hs, ls, 0, m, step, heads, inv);
    WalkLayoutAt(st, ls, 0, m, step);
    if LayoutsFrom(st, ls, 0, step).error.None? {
      StateAtInv(S, hs + DocHeadingsIn(ls, 0, m, heads), es, 0, j, step, heads, inv);
      WalkAt(S, es, 0, j, step);
    }
  }

  lemma Regroup<T>(a: seq<T>, b: seq<T>, o: seq<T>, c: seq<T>, d: seq<T>)
    ensures a + ((b + (o + c)) + d) == (a + b + o) + (c + d)
  {
  }

  /** The document's headings around element `j` of layout `m`: those before it, its own, those after it. */
  lemma HeadingsAround(ls: seq<Layout>, m: nat, j: nat, heads: Heads)
    requires m < |ls| && j < |ls[m].elements|
    ensures var es := ls[m].elements;
      Headings(ls, heads) ==
        (DocHeadingsIn(ls, 0, m, heads) + HeadingsIn(es, 0, j, heads) + Own(heads(es[j])))
        + (HeadingsIn(es, j + 1, |es|, heads) + DocHeadingsIn(ls, m + 1, |ls|, heads))
  {
    var es := ls[m].elements;
    DocHeadingsSplit(ls, 0, m, |ls|, heads);
    assert DocHeadingsIn(ls, m, |ls|, heads) == HeadingsIn(es, 0, |es|, heads) + DocHeadingsIn(ls, m + 1, |ls|, heads);
    HeadingsSplit(es, 0, j, |es|, heads);
    assert HeadingsIn(es, j, |es|, heads) == Own(heads(es[j])) + HeadingsIn(es, j + 1, |es|, heads);
    Regroup(DocHeadingsIn(ls, 0, m, heads), HeadingsIn(es, 0, j, heads), Own(heads(es[j])),
      HeadingsIn(es, j + 1, |es|, heads), DocHeadingsIn(ls, m + 1, |ls|, heads));
  }

  /** A link against the headings up to an element's own holds against the whole document's headings. */
  lemma LinkedInDocument(out: Element, h: Option<Heading>, ls: seq<Layout>, m: nat, j: nat, heads: Heads, hs: seq<Heading>)
    requires m < |ls| && j < |ls[m].elements| && heads(ls[m].elements[j]) == h
    requires hs == DocHeadingsIn(ls, 0, m, heads) + HeadingsIn(ls[m].elements, 0, j, heads)
    requires Linked(out, h, hs + Own(h), |hs|)
    ensures Linked(out, h, Headings(ls, heads), HeadingsBefore(ls, m, j, heads))
  {
    var es := ls[m].elements;
    HeadingsAround(ls, m, j, heads);
    var after := HeadingsIn(es, j + 1, |es|, heads) + DocHeadingsIn(ls, m + 1, |ls|, heads);
    LinkedExtend(out, h, hs + Own(h), after, |hs|);
  }

  /** A walk over the layouts with a sound step that completes links every element against the document's headings. */
  lemma WalkParents(ls: seq<Layout>, m: nat, j: nat, step: Step, heads: Heads, inv: StateInv)
    requires m < |ls| && j < |ls[m].elements| && inv(Start, []) && Sound(step, heads, inv) && Links(step, heads, inv)
    ensures var r := LayoutsFrom(Start, ls, 0, step);
      r.error.None? ==>
        && j < |r.value[m].elements|
        && Linked(r.value[m].elements[j], heads(ls[m].elements[j]), Headings(ls, heads), HeadingsBefore(ls, m, j, heads))
  {
    var es := ls[m].elements;
    var r := LayoutsFrom(Start, ls, 0, step);
    ReachedAt(Start, [], ls, m, j, step, heads, inv);
    if r.error.None? {
      var T := StateAt(LayoutStateAt(Start, ls, 0, m, step), es, 0, j, step);
      var hsT := DocHeadingsIn(ls, 0, m, heads) + HeadingsIn(es, 0, j, heads);
      assert [] + DocHeadingsIn(ls, 0, m, heads) + HeadingsIn(es, 0, j, heads) == hsT;
      assert inv(T, hsT) && step(T, es[j]).error.None?;
      LinkedInDocument(r.value[m].elements[j], heads(es[j]), ls, m, j, heads, hsT);
    }
  }

  /**
   * The pass's promise, over the whole document: when it completes, every
   * heading's parent is the nearest earlier heading of lower level, in
   * document order, and every other paragraph and every table points at the
   * last heading before it.
   */
  lemma HeadingParents(layouts: seq<Layout>, matcher: Matcher, m: nat, j: nat)
    requires m < |layouts| && j < |layouts[m].elements|
    ensures var r := HierarchyOf(layouts, matcher);
      r.error.None? ==>
        Linked(r.value[m].elements[j], HeadingOf(layouts[m].elements[j], matcher),
          Headings(layouts, HeadsOf(matcher)), HeadingsBefore(layouts, m, j, HeadsOf(matcher)))
  {
    PassSound(matcher);
    assert PassInv()(Start, []);
    WalkParents(layouts, m, j, Pass(matcher), HeadsOf(matcher), PassInv());
  }

  // ---------------------------------------------------------------------------
  // Captions, headings and exceptions, one step at a time
  // ---------------------------------------------------------------------------

  /** The paragraph is a caption as the pass sees it. */
  predicate IsCaption(e: Element, matcher: Matcher) {
    e.ParagraphElement? && e.paragraph.style.Some? && ClassifyStyle(e.paragraph.style.value, matcher).0 == Some("caption")
  }

  /**
   * What a step that completes leaves in the pass's variables: a heading
   * becomes the last heading and clears the pending caption, a caption becomes
   * the pending caption, every other paragraph and every table clears it, and
   * an absent entry changes nothing.
   */
  lemma StepBookkeeping(st: HState, e: Element, matcher: Matcher)
    ensures var s := ElementStep(st, e, matcher);
      s.error.None? ==>
        && s.state.lastHeading == (if HeadingOf(e, matcher).Some? then e.paragraph.id else st.lastHeading)
        && s.state.lastCaption ==
             (if HeadingOf(e, matcher).Some? then None
              else if IsCaption(e, matcher) then e.paragraph.id
              else if e.Absent? then st.lastCaption
              else None)
  {
  }

  /**
   * A caption followed by a table: the caption points at the last heading, and
   * the table points at the same heading and takes the caption's id when that
   * id is truthy (keeping its own otherwise).
   */
  lemma CaptionLinksTable(st: HState, p: Paragraph, t: Table, matcher: Matcher)
    requires IsCaption(ParagraphElement(p), matcher)
    ensures var s1 := ElementStep(st, ParagraphElement(p), matcher);
      var s2 := ElementStep(s1.state, TableElement(t), matcher);
      && s1.error.None?
      && s1.value.paragraph.isCaption == Some(true)
      && s1.value.paragraph.parentRefId == st.lastHeading
      && s2.value.table.parentRefId == st.lastHeading
      && s2.value.table.captionRefId == (if Truthy(p.id) then p.id else t.captionRefId)
      && s2.state.lastCaption == None
  {
  }

  /** A paragraph between a caption and a table that is neither heading nor caption takes the caption away from the table. */
  lemma InterveningParagraphDropsCaption(st: HState, c: Paragraph, p: Paragraph, t: Table, matcher: Matcher)
    requires IsCaption(ParagraphElement(c), matcher)
    requires HeadingOf(ParagraphElement(p), matcher).None? && !IsCaption(ParagraphElement(p), matcher)
    ensures var s1 := ElementStep(st, ParagraphElement(c), matcher);
      var s2 := ElementStep(s1.state, ParagraphElement(p), matcher);
      var s3 := ElementStep(s2.state, TableElement(t), matcher);
      s2.error.None? ==> s3.value.table.captionRefId == t.captionRefId
  {
    var s1 := ElementStep(st, ParagraphElement(c), matcher);
    StepBookkeeping(s1.state, ParagraphElement(p), matcher);
  }

  /** The paragraph's style is missing: reading it raises. */
  lemma MissingStyleRaises(st: HState, p: Paragraph, matcher: Matcher)
    requires p.style.None?
    ensures ElementStep(st, ParagraphElement(p), matcher) == Stepped(st, ParagraphElement(p), Some(AttributeError))
  {
  }

  /** Every paragraph of every cell present has a colour scan that does not raise. */
  predicate IntentsOk(row: Row) {
    forall c, k :: 0 <= c < |row| && row[c].Some? && 0 <= k < |row[c].value.paragraphs| ==>
      Intent(row[c].value.paragraphs[k].runs).Ok?
  }

  /** Marking flags keeps every paragraph's runs. */
  lemma {:induction false} MarkFromRuns(ps: seq<Paragraph>, k: nat)
    requires k <= |ps|
    ensures forall i :: 0 <= i < |ps| ==> MarkFrom(ps, k).0[i].runs == ps[i].runs
    decreases |ps| - k
  {
    if k < |ps| && Intent(ps[k].runs).Ok? {
      MarkFromRuns(ps[k := Marked(ps[k], Intent(ps[k].runs).value)], k + 1);
    }
  }

  /** With every colour scan from `k` on succeeding, marking the paragraphs raises nothing. */
  lemma {:induction false} MarkFromOk(ps: seq<Paragraph>, k: nat)
    requires k <= |ps| && forall i :: k <= i < |ps| ==> Intent(ps[i].runs).Ok?
    ensures MarkFrom(ps, k).1 == None
    decreases |ps| - k
  {
    if k < |ps| {
      var ps' := ps[k := Marked(ps[k], Intent(ps[k].runs).value)];
      assert forall i :: k + 1 <= i < |ps'| ==> ps'[i] == ps[i];
      MarkFromOk(ps', k + 1);
    }
  }

  /**
   * `build_hierarchy` does not skip empty slots: when no colour scan raises,
   * marking a row from `c` raises exactly when a slot from `c` on is empty.
   */
  lemma {:induction false} NullSlotRaises(row: Row, c: nat)
    requires c <= |row| && IntentsOk(row)
    ensures MarkRowFrom(row, c).1 == (if exists j :: c <= j < |row| && row[j].None? then Some(AttributeError) else None)
    decreases |row| - c
  {
    if c < |row| && row[c].Some? {
      var cell := row[c].value;
      MarkFromOk(cell.paragraphs, 0);
      var (ps, err) := MarkFrom(cell.paragraphs, 0);
      MarkFromRuns(cell.paragraphs, 0);
      var row' := row[c := Some(cell.(paragraphs := ps))];
      assert IntentsOk(row') by {
        forall j, k | 0 <= j < |row'| && row'[j].Some? && 0 <= k < |row'[j].value.paragraphs|
          ensures Intent(row'[j].value.paragraphs[k].runs).Ok?
        {
          if j == c {
            assert row'[j].value.paragraphs[k].runs == cell.paragraphs[k].runs;
          }
        }
      }
      NullSlotRaises(row', c + 1);
      assert forall j :: c + 1 <= j < |row| ==> row'[j] == row[j];
    }
  }

  // ---------------------------------------------------------------------------
  // The pass as the source runs it
  // ---------------------------------------------------------------------------

  /** The paragraph branch of the loop. */
  method StepParagraph(st: HState, p: Paragraph, matcher: Matcher) returns (s: Stepped<Paragraph>)
    ensures s == ParagraphStep(st, p, matcher)
  {
    if p.style.None? {
      return Stepped(st, p, Some(AttributeError));
    }
    var (kind, level) := ClassifyStyle(p.style.value, matcher);
    if kind == Some("heading") && level.Some? && level.value != 0 {
      var parent := FindParent(st.stack, level.value);
      var stack := RecordHeading(st.stack, level.value, p.id);
      return Stepped(HState(stack, p.id, None), p.(isHeading := Some(true), headingLevel := level, parentRefId := parent), None);
    }
    if kind == Some("caption") {
      return Stepped(st.(lastCaption := p.id), p.(isCaption := Some(true), parentRefId := st.lastHeading), None);
    }
    var intent := ClassifyIntent(p);
    if intent.Err? {
      return Stepped(st, p, Some(intent.error));
    }
    var q := p;
    if intent.value == Some("instruction") {
      q := q.(isInstruction := Some(true));
    }
    if intent.value == Some("example") {
      q := q.(isExample := Some(true));
    }
    return Stepped(st.(lastCaption := None), q.(parentRefId := st.lastHeading), None);
  }

  /** The intent flags of a cell's paragraphs, in order; the first scan that raises stops the loop. */
  method MarkParagraphs(ps: seq<Paragraph>) returns (out: seq<Paragraph>, err: Option<Exc>)
    ensures (out, err) == MarkFrom(ps, 0)
  {
    out := ps;
    for k := 0 to |ps|
      invariant |out| == |ps| && MarkFrom(ps, 0) == MarkFrom(out, k)
    {
      var intent := ClassifyIntent(out[k]);
      if intent.Err? {
        return out, Some(intent.error);
      }
      out := out[k := Marked(out[k], intent.value)];
    }
    err := None;
  }

  /** One row: an empty slot has no paragraphs and raises. */
  method MarkRow(row: Row) returns (out: Row, err: Option<Exc>)
    ensures (out, err) == MarkRowFrom(row, 0)
  {
    out := row;
    for c := 0 to |row|
      invariant |out| == |row| && MarkRowFrom(row, 0) == MarkRowFrom(out, c)
    {
      if out[c].None? {
        return out, Some(AttributeError);
      }
      var ps, e := MarkParagraphs(out[c].value.paragraphs);
      out := out[c := Some(out[c].value.(paragraphs := ps))];
      if e.Some? {
        return out, e;
      }
    }
    err := None;
  }

  method MarkRows(rows: seq<Row>) returns (out: seq<Row>, err: Option<Exc>)
    ensures (out, err) == MarkRowsFrom(rows, 0)
  {
    out := rows;
    for r := 0 to |rows|
      invariant |out| == |rows| && MarkRowsFrom(rows, 0) == MarkRowsFrom(out, r)
    {
      var row, e := MarkRow(out[r]);
      out := out[r := row];
      if e.Some? {
        return out, e;
      }
    }
    err := None;
  }

  /** The table branch of the loop. */
  method StepTable(st: HState, t: Table) returns (s: Stepped<Table>)
    ensures s == TableStep(st, t)
  {
    var linked := t.(parentRefId := st.lastHeading);
    if Truthy(st.lastCaption) {
      linked := linked.(captionRefId := st.lastCaption);
    }
    var rows, err := MarkRows(linked.rows);
    return Stepped(st.(lastCaption := None), linked.(rows := rows), err);
  }

  method StepElement(st: HState, e: Element, matcher: Matcher) returns (s: Stepped<Element>)
    ensures s == ElementStep(st, e, matcher)
  {
    match e
    case ParagraphElement(p) =>
      var sp := StepParagraph(st, p, matcher);
      s := Stepped(sp.state, ParagraphElement(sp.value), sp.error);
    case TableElement(t) =>
      var stt := StepTable(st, t);
      s := Stepped(stt.state, TableElement(stt.value), stt.error);
    case Absent =>
      s := Stepped(st, e, None);
  }

  /** The values already walked in front of what the rest of a walk gives. */
  function Glue<T>(done: seq<T>, r: Stepped<seq<T>>): Stepped<seq<T>> {
    Stepped(r.state, done + r.value, r.error)
  }

  /** One more element walked moves from the rest of the walk to the part already done. */
  lemma ElementsGlue(st: HState, es: seq<Element>, i: nat, step: Step, done: seq<Element>)
    requires i < |es|
    ensures var s := step(st, es[i]);
      Glue(done, ElementsFrom(st, es, i, step)) ==
        if s.error.Some? then Stepped(s.state, done + [s.value] + es[i + 1..], s.error)
        else Glue(done + [s.value], ElementsFrom(s.state, es, i + 1, step))
  {
    var s := step(st, es[i]);
    if s.error.None? {
      var rest := ElementsFrom(s.state, es, i + 1, step).value;
      assert done + ([s.value] + rest) == done + [s.value] + rest;
    } else {
      assert done + ([s.value] + es[i + 1..]) == done + [s.value] + es[i + 1..];
    }
  }

  lemma LayoutsGlue(st: HState, ls: seq<Layout>, l: nat, step: Step, done: seq<Layout>)
    requires l < |ls|
    ensures var s := ElementsFrom(st, ls[l].elements, 0, step);
      var layout := ls[l].(elements := s.value);
      Glue(done, LayoutsFrom(st, ls, l, step)) ==
        if s.error.Some? then Stepped(s.state, done + [layout] + ls[l + 1..], s.error)
        else Glue(done + [layout], LayoutsFrom(s.state, ls, l + 1, step))
  {
    var s := ElementsFrom(st, ls[l].elements, 0, step);
    var layout := ls[l].(elements := s.value);
    if s.error.None? {
      var rest := LayoutsFrom(s.state, ls, l + 1, step).value;
      assert done + ([layout] + rest) == done + [layout] + rest;
    } else {
      assert done + ([layout] + ls[l + 1..]) == done + [layout] + ls[l + 1..];
    }
  }

  /** The elements of one layout, in order, from the state the pass has reached. */
  method WalkElements(st0: HState, es: seq<Element>, matcher: Matcher) returns (r: Stepped<seq<Element>>)
    ensures r == ElementsFrom(st0, es, 0, Pass(matcher))
  {
    var st := st0;
    var done: seq<Element> := [];
    assert done + ElementsFrom(st, es, 0, Pass(matcher)).value == ElementsFrom(st0, es, 0, Pass(matcher)).value;
    for i := 0 to |es|
      invariant ElementsFrom(st0, es, 0, Pass(matcher)) == Glue(done, ElementsFrom(st, es, i, Pass(matcher)))
    {
      var s := StepElement(st, es[i], matcher);
      ElementsGlue(st, es, i, Pass(matcher), done);
      assert Pass(matcher)(st, es[i]) == s;
      if s.error.Some? {
        return Stepped(s.state, done + [s.value] + es[i + 1..], s.error);
      }
      done := done + [s.value];
      st := s.state;
    }
    assert done + [] == done;
    return Stepped(st, done, None);
  }

  /** `build_hierarchy`'s loop over `iter_elements()`: layout after layout, one state throughout. */
  method WalkLayouts(layouts: seq<Layout>, matcher: Matcher) returns (r: Stepped<seq<Layout>>)
    ensures r == HierarchyOf(layouts, matcher)
  {
    var st := Start;
    var done: seq<Layout> := [];
    assert done + LayoutsFrom(st, layouts, 0, Pass(matcher)).value == LayoutsFrom(Start, layouts, 0, Pass(matcher)).value;
    for l := 0 to |layouts|
      invariant LayoutsFrom(Start, layouts, 0, Pass(matcher)) == Glue(done, LayoutsFrom(st, layouts, l, Pass(matcher)))
    {
      var s := WalkElements(st, layouts[l].elements, matcher);
      LayoutsGlue(st, layouts, l, Pass(matcher), done);
      var layout := layouts[l].(elements := s.value);
      if s.error.Some? {
        return Stepped(s.state, done + [layout] + layouts[l + 1..], s.error);
      }
      done := done + [layout];
      st := s.state;
    }
    assert done + [] == done;
    return Stepped(st, done, None);
  }
}
