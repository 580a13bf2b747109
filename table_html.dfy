/**
 * `TableModel.to_html`: the rows of the chosen selection rendered slot by
 * slot, with a skip counter for column spans and a per-column tracker for row
 * spans.
 */
module TableHtml {
  import opened Wrappers
  import opened Text
  import opened Tables

  const EmptyTable := "<table></table>"

  function Tag(isHeader: bool): string {
    if isHeader then "th" else "td"
  }

  /** The markup of an empty slot. */
  function EmptyElement(tag: string): string {
    "<" + tag + ">&nbsp;</" + tag + ">"
  }

  /** How a cell becomes markup, given its tag. */
  type Renderer = (string, Cell) -> string

  /** Every element the renderer writes opens with its tag. */
  ghost predicate OpensWithTag(render: Renderer) {
    forall tag, c :: StartsWith(render(tag, c), "<" + tag)
  }

  /** The cell element of `to_html` opens with its tag. */
  lemma CellElementOpensWithTag()
    ensures OpensWithTag(CellElement)
  {
    forall tag, c
      ensures StartsWith(CellElement(tag, c), "<" + tag)
    {
      CellElementOpens(tag, c);
    }
  }

  /**
   * The rows a vertically merged cell covers: `count` rows from `first`. The
   * tracker of `to_html` keeps one such list per column.
   */
  datatype Span = Span(first: int, count: int)

  predicate Covers(span: Span, r: int) {
    span.first <= r < span.first + span.count
  }

  type Tracker = map<int, Span>

  /**
   * The loop state while one row is rendered: the cells so far, the column
   * index, the colspan skip counter and the rowspan tracker.
   */
  datatype RowState = RowState(cells: seq<string>, col: int, skip: int, tracker: Tracker)

  function RowStart(tracker: Tracker): RowState {
    RowState([], 0, 1, tracker)
  }

  /**
   * One slot as it was evidently meant: skipped while a column span is
   * pending, skipped when the tracker of the current column covers the row,
   * else rendered; a rendered cell covers `rowspan` rows from its own.
   */
  function SlotStep(st: RowState, slot: Option<Cell>, r: nat, isHeader: bool, render: Renderer): RowState {
    if st.skip > 1 then st.(skip := st.skip - 1)
    else if st.col in st.tracker && Covers(st.tracker[st.col], r) then st.(col := st.col + 1)
    else match slot
      case None => st.(cells := st.cells + [EmptyElement(Tag(isHeader))], col := st.col + 1)
      case Some(c) =>
        RowState(st.cells + [render(Tag(isHeader), c)], st.col + c.colspan, c.colspan, st.tracker[st.col := Span(r, c.rowspan)])
  }

  /**
   * One slot of `to_html` as written: like `SlotStep`, except that a rendered
   * cell records `range(rowspan)` in the tracker, rows counted from the first
   * rendered row rather than from the cell's own, while the test compares
   * the tracker with the row's own index.
   */
  function SlotStepAsWritten(st: RowState, slot: Option<Cell>, r: nat, isHeader: bool, render: Renderer): (out: RowState)
    ensures st.skip <= 1 && !(st.col in st.tracker && Covers(st.tracker[st.col], r)) && slot.Some? ==>
      out.tracker == st.tracker[st.col := Span(0, slot.value.rowspan)]
    ensures !(st.skip <= 1 && !(st.col in st.tracker && Covers(st.tracker[st.col], r)) && slot.Some?) ==>
      out == SlotStep(st, slot, r, isHeader, render)
  {
    if st.skip > 1 then st.(skip := st.skip - 1)
    else if st.col in st.tracker && Covers(st.tracker[st.col], r) then st.(col := st.col + 1)
    else match slot
      case None => st.(cells := st.cells + [EmptyElement(Tag(isHeader))], col := st.col + 1)
      case Some(c) =>
        RowState(st.cells + [render(Tag(isHeader), c)], st.col + c.colspan, c.colspan, st.tracker[st.col := Span(0, c.rowspan)])
  }

  /** The state after the given slots of row `r`. */
  function RowSteps(st: RowState, slots: Row, r: nat, isHeader: bool, render: Renderer): RowState {
    if slots == [] then st
    else SlotStepAsWritten(RowSteps(st, slots[..|slots| - 1], r, isHeader, render), slots[|slots| - 1], r, isHeader, render)
  }

  /** The cells of each rendered row, and the tracker as the last row left it. */
  datatype Rendered = Rendered(cells: seq<seq<string>>, tracker: Tracker)

  /** Rows rendered in order; the tracker carries over from row to row and starts empty. */
  function RenderRows(rows: seq<Row>, headerCount: nat, render: Renderer): (out: Rendered)
    ensures |out.cells| == |rows|
  {
    if rows == [] then Rendered([], map[])
    else
      var r := |rows| - 1;
      var before := RenderRows(rows[..r], headerCount, render);
      var st := RowSteps(RowStart(before.tracker), rows[r], r, r < headerCount, render);
      Rendered(before.cells + [st.cells], st.tracker)
  }

  function RowMarkup(cells: seq<string>): string {
    "<tr>" + Concat(cells) + "</tr>"
  }

  function RowMarkups(cells: seq<seq<string>>): (ms: seq<string>)
    ensures |ms| == |cells|
  {
    seq(|cells|, i requires 0 <= i < |cells| => RowMarkup(cells[i]))
  }

  function TableMarkup(cells: seq<seq<string>>): string {
    "<table>" + Concat(RowMarkups(cells)) + "</table>"
  }

  /** The rows a mode selects, or None when `to_html` answers with an empty table. */
  function Select(all: seq<Row>, header: seq<Row>, body: seq<Row>, mode: string, row: Option<int>): Option<seq<Row>> {
    var inBody := row.Some? && 0 <= row.value < |body|;
    if mode == "full" then Some(all)
    else if mode == "header" then Some(header)
    else if mode == "rows" then Some(body)
    else if mode == "row" then (if inBody then Some([body[row.value]]) else None)
    else if mode == "row_with_header" then (if inBody then Some(header + [body[row.value]]) else None)
    else None
  }

  /** What `TableModel.to_html(mode, row)` returns or raises. */
  function TableHtmlOf(t: Table, mode: string, row: Option<int>): Result<string> {
    if t.rows == [] then Ok(EmptyTable)
    else match (Rows(t, "header"), Rows(t, "body"))
      case (Err(e), _) => Err(e)
      case (_, Err(e)) => Err(e)
      case (Ok(header), Ok(body)) =>
        match Select(t.rows, header, body, mode, row)
        case None => Ok(EmptyTable)
        case Some(selected) => Ok(TableMarkup(RenderRows(selected, |header|, CellElement).cells))
  }

  /** `TableModel.to_html`: the selection, then a loop over its rows and, inside, over each row's slots. */
  method RenderTable(t: Table, mode: string, row: Option<int>) returns (r: Result<string>)
    ensures r == TableHtmlOf(t, mode, row)
  {
    if t.rows == [] {
      return Ok(EmptyTable);
    }
    var header := GetRows(t, "header");
    if header.Err? {
      return Err(header.error);
    }
    var body := GetRows(t, "body");
    if body.Err? {
      return Err(body.error);
    }
    var selected: seq<Row>;
    if mode == "full" {
      selected := t.rows;
    } else if mode == "header" {
      selected := header.value;
    } else if mode == "rows" {
      selected := body.value;
    } else if mode == "row" {
      if row.None? || row.value < 0 || row.value >= |body.value| {
        return Ok(EmptyTable);
      }
      selected := [body.value[row.value]];
    } else if mode == "row_with_header" {
      if row.None? || row.value < 0 || row.value >= |body.value| {
        return Ok(EmptyTable);
      }
      selected := header.value + [body.value[row.value]];
    } else {
      return Ok(EmptyTable);
    }
    assert Select(t.rows, header.value, body.value, mode, row) == Some(selected);
    var htmlRows := RenderRowMarkups(selected, |header.value|, CellElement);
    return Ok("<table>" + Concat(htmlRows) + "</table>");
  }

  /**
   * The loop of `TableModel.to_html` over the selected rows and, inside, over
   * each row's slots, with the rowspan tracker carried from row to row.
   */
  method RenderRowMarkups(selected: seq<Row>, headerCount: nat, render: Renderer) returns (htmlRows: seq<string>)
    ensures htmlRows == RowMarkups(RenderRows(selected, headerCount, render).cells)
  {
    htmlRows := [];
    var tracker: Tracker := map[];
    ghost var cellRows: seq<seq<string>> := [];
    var ri := 0;
    while ri < |selected|
      invariant 0 <= ri <= |selected|
      invariant RenderRows(selected[..ri], headerCount, render) == Rendered(cellRows, tracker)
      invariant htmlRows == RowMarkups(cellRows)
    {
      var cells, tracker' := RenderRow(selected[ri], ri, ri < headerCount, tracker, render);
      assert selected[..ri + 1][..ri] == selected[..ri];
      assert RowMarkups(cellRows + [cells]) == RowMarkups(cellRows) + [RowMarkup(cells)];
      htmlRows := htmlRows + [RowMarkup(cells)];
      cellRows := cellRows + [cells];
      tracker := tracker';
      ri := ri + 1;
    }
    assert selected[..ri] == selected;
  }

  /** One pass of the inner loop of `TableModel.to_html`: the cells of row `r`. */
  method RenderRow(slots: Row, r: nat, isHeader: bool, start: Tracker, render: Renderer)
    returns (cells: seq<string>, tracker: Tracker)
    ensures RowSteps(RowStart(start), slots, r, isHeader, render).cells == cells
    ensures RowSteps(RowStart(start), slots, r, isHeader, render).tracker == tracker
  {
    cells := [];
    tracker := start;
    var col := 0;
    var skip := 1;
    var k := 0;
    while k < |slots|
      invariant 0 <= k <= |slots|
      invariant RowSteps(RowStart(start), slots[..k], r, isHeader, render) == RowState(cells, col, skip, tracker)
    {
      assert slots[..k + 1][..k] == slots[..k];
      var slot := slots[k];
      if skip > 1 {
        skip := skip - 1;
      } else if col in tracker && Covers(tracker[col], r) {
        col := col + 1;
      } else if slot.None? {
        cells := cells + [EmptyElement(Tag(isHeader))];
        col := col + 1;
      } else {
        var c := slot.value;
        skip := c.colspan;
        tracker := tracker[col := Span(0, c.rowspan)];
        cells := cells + [render(Tag(isHeader), c)];
        col := col + c.colspan;
      }
      k := k + 1;
    }
    assert slots[..k] == slots;
  }

  // ---------------------------------------------------------------------------
  // Properties
  // ---------------------------------------------------------------------------

  /** Every cell a row adds is a `th` element in a header row and a `td` element otherwise. */
  lemma {:induction false} RowStepsTagged(st: RowState, slots: Row, r: nat, isHeader: bool, render: Renderer)
    requires OpensWithTag(render)
    ensures |st.cells| <= |RowSteps(st, slots, r, isHeader, render).cells| <= |st.cells| + |slots|
    ensures RowSteps(st, slots, r, isHeader, render).cells[..|st.cells|] == st.cells
    ensures forall j :: |st.cells| <= j < |RowSteps(st, slots, r, isHeader, render).cells| ==>
      StartsWith(RowSteps(st, slots, r, isHeader, render).cells[j], "<" + Tag(isHeader))
  {
    if slots != [] {
      var init := slots[..|slots| - 1];
      RowStepsTagged(st, init, r, isHeader, render);
      var mid := RowSteps(st, init, r, isHeader, render);
      var slot := slots[|slots| - 1];
      if mid.skip <= 1 && !(mid.col in mid.tracker && Covers(mid.tracker[mid.col], r)) {
        var x := if slot.None? then EmptyElement(Tag(isHeader)) else render(Tag(isHeader), slot.value);
        assert StartsWith(x, "<" + Tag(isHeader));
        assert SlotStepAsWritten(mid, slot, r, isHeader, render).cells == mid.cells + [x];
      }
    }
  }

  /**
   * The rendering has one list of cells per selected row; each holds at most
   * one cell per slot, and its cells are `th` elements exactly in the first
   * `headerCount` rows.
   */
  lemma {:induction false} RenderRowsTagged(rows: seq<Row>, headerCount: nat, render: Renderer)
    requires OpensWithTag(render)
    ensures forall i :: 0 <= i < |rows| ==> |RenderRows(rows, headerCount, render).cells[i]| <= |rows[i]|
    ensures forall i, j :: 0 <= i < |rows| && 0 <= j < |RenderRows(rows, headerCount, render).cells[i]| ==>
      StartsWith(RenderRows(rows, headerCount, render).cells[i][j], if i < headerCount then "<th" else "<td")
  {
    if rows != [] {
      var r := |rows| - 1;
      RenderRowsTagged(rows[..r], headerCount, render);
      var before := RenderRows(rows[..r], headerCount, render);
      RowStepsTagged(RowStart(before.tracker), rows[r], r, r < headerCount, render);
      assert forall i :: 0 <= i < r ==> rows[..r][i] == rows[i];
    }
  }

  /** No tracker entry covers row `r` or any later row. */
  predicate SpansEnded(tracker: Tracker, r: int) {
    forall key :: key in tracker ==> tracker[key].first + tracker[key].count <= r
  }

  /** In a row of plain cells every slot renders, in order, and every span ends with the row. */
  lemma {:induction false} PlainRowSteps(tracker: Tracker, slots: Row, r: nat, isHeader: bool, render: Renderer)
    requires PlainRow(slots) && SpansEnded(tracker, r)
    ensures var st := RowSteps(RowStart(tracker), slots, r, isHeader, render);
      && st.col == |slots| && st.skip == 1 && |st.cells| == |slots|
      && (forall j :: 0 <= j < |slots| ==> st.cells[j] == render(Tag(isHeader), slots[j].value))
      && SpansEnded(st.tracker, r + 1)
      && (forall key :: key in st.tracker && key >= |slots| ==> st.tracker[key].first + st.tracker[key].count <= r)
  {
    if slots != [] {
      var n := |slots| - 1;
      var init := slots[..n];
      assert PlainRow(init) by {
        assert forall j :: 0 <= j < n ==> init[j] == slots[j];
      }
      PlainRowSteps(tracker, init, r, isHeader, render);
      var mid := RowSteps(RowStart(tracker), init, r, isHeader, render);
      assert slots[n].Some? && slots[n].value.colspan == 1 && slots[n].value.rowspan == 1;
      assert !(mid.col in mid.tracker && Covers(mid.tracker[mid.col], r));
    }
  }

  /** A table of plain cells renders every slot as its cell, in every row. */
  lemma {:induction false} PlainGridRendersAll(rows: seq<Row>, headerCount: nat, render: Renderer)
    requires forall i :: 0 <= i < |rows| ==> PlainRow(rows[i])
    ensures SpansEnded(RenderRows(rows, headerCount, render).tracker, |rows|)
    ensures forall i :: 0 <= i < |rows| ==> |RenderRows(rows, headerCount, render).cells[i]| == |rows[i]|
    ensures forall i, j :: 0 <= i < |rows| && 0 <= j < |rows[i]| && rows[i][j].Some? ==>
      RenderRows(rows, headerCount, render).cells[i][j] == render(Tag(i < headerCount), rows[i][j].value)
  {
    if rows != [] {
      var r := |rows| - 1;
      var init := rows[..r];
      assert forall i :: 0 <= i < r ==> init[i] == rows[i];
      PlainGridRendersAll(init, headerCount, render);
      var before := RenderRows(init, headerCount, render);
      PlainRowSteps(before.tracker, rows[r], r, r < headerCount, render);
    }
  }

  /**
   * As written, a cell rendered in row `r` covers the rows `0` to
   * `rowspan - 1` of the selection, whatever `r` is.
   */
  lemma OpenedSpanAsWritten(st: RowState, c: Cell, r: nat, isHeader: bool, render: Renderer, r': int)
    requires st.skip <= 1 && !(st.col in st.tracker && Covers(st.tracker[st.col], r))
    ensures var next := SlotStepAsWritten(st, Some(c), r, isHeader, render);
      st.col in next.tracker && (Covers(next.tracker[st.col], r') <==> 0 <= r' < c.rowspan)
  {
  }

  /** With the span anchored, a rendered cell covers exactly the rows from its own to `rowspan - 1` below it. */
  lemma OpenedSpanCovers(st: RowState, c: Cell, r: nat, isHeader: bool, render: Renderer, r': int)
    requires st.skip <= 1 && !(st.col in st.tracker && Covers(st.tracker[st.col], r))
    ensures var next := SlotStep(st, Some(c), r, isHeader, render);
      st.col in next.tracker && (Covers(next.tracker[st.col], r') <==> r <= r' < r + c.rowspan)
  {
  }

  /**
   * Two rows of one column: a cell with rowspan 2 in row 1, then the empty
   * slot it covers in row 2. As written, the covered slot renders an extra
   * `&nbsp;` cell under the merged one; with the span anchored at the cell's
   * own row it renders nothing.
   */
  lemma CoveredSlotRendered(b: Cell, render: Renderer)
    requires b.colspan == 1 && b.rowspan == 2
    ensures var row1 := SlotStepAsWritten(RowStart(map[]), Some(b), 1, false, render);
      SlotStepAsWritten(RowStart(row1.tracker), None, 2, false, render).cells == [EmptyElement("td")]
    ensures var row1 := SlotStep(RowStart(map[]), Some(b), 1, false, render);
      SlotStep(RowStart(row1.tracker), None, 2, false, render).cells == []
  {
  }

  /**
   * The same two rows inside a whole rendering: in a one-column selection
   * whose row 1 holds a cell spanning two rows and whose row 2 holds an empty
   * slot, the rendered row 2 is one `&nbsp;` cell.
   */
  lemma CoveredSlotInTable(a: Cell, b: Cell, headerCount: nat, render: Renderer)
    requires a.colspan == 1 && a.rowspan == 1 && b.colspan == 1 && b.rowspan == 2 && headerCount <= 2
    ensures RenderRows([[Some(a)], [Some(b)], [None]], headerCount, render).cells[2] == [EmptyElement("td")]
  {
    var rowA: Row, rowB: Row, none: Row := [Some(a)], [Some(b)], [None];
    var rows: seq<Row> := [rowA, rowB, none];
    var h0, h1 := 0 < headerCount, 1 < headerCount;
    assert rowA[..0] == [] && rowB[..0] == [] && none[..0] == [];
    assert RowSteps(RowStart(map[]), rowA[..0], 0, h0, render) == RowStart(map[]);
    var s0 := RowSteps(RowStart(map[]), rowA, 0, h0, render);
    assert s0.tracker == map[0 := Span(0, 1)];
    assert rows[..2][..1] == [rowA] && rows[..2] == [rowA, rowB] && [rowA][..0] == [];
    assert RenderRows([rowA], headerCount, render).tracker == s0.tracker;
    assert RowSteps(RowStart(s0.tracker), rowB[..0], 1, h1, render) == RowStart(s0.tracker);
    var s1 := RowSteps(RowStart(s0.tracker), rowB, 1, h1, render);
    assert s1.tracker == map[0 := Span(0, 2)];
    assert RenderRows(rows[..2], headerCount, render).tracker == s1.tracker;
    assert RowSteps(RowStart(s1.tracker), none[..0], 2, false, render) == RowStart(s1.tracker);
    var s2 := RowSteps(RowStart(s1.tracker), none, 2, false, render);
    assert s2.cells == [EmptyElement("td")];
  }

  /**
   * A rendered cell with colspan `k` makes the next `k - 1` slots of its row
   * render nothing.
   */
  lemma {:induction false} ColspanSkips(st: RowState, slots: Row, r: nat, isHeader: bool, render: Renderer, j: nat, m: nat)
    requires j < m <= |slots|
    requires var before := RowSteps(st, slots[..j], r, isHeader, render);
      && before.skip <= 1
      && !(before.col in before.tracker && Covers(before.tracker[before.col], r))
      && slots[j].Some? && m - j <= slots[j].value.colspan
    ensures |RowSteps(st, slots[..m], r, isHeader, render).cells| == |RowSteps(st, slots[..j], r, isHeader, render).cells| + 1
    ensures RowSteps(st, slots[..m], r, isHeader, render).skip == slots[j].value.colspan - (m - j - 1)
    decreases m
  {
    assert slots[..m][..m - 1] == slots[..m - 1];
    if m > j + 1 {
      ColspanSkips(st, slots, r, isHeader, render, j, m - 1);
    } else {
      assert slots[..m][m - 1] == slots[j];
    }
  }

  /**
   * `to_html` answers with an empty table for a table without rows, for an
   * unknown mode, and for a row outside the body in the row modes.
   */
  lemma EmptyTableCases(t: Table, mode: string, row: Option<int>)
    ensures t.rows == [] ==> TableHtmlOf(t, mode, row) == Ok(EmptyTable)
    ensures t.rows != [] && Rows(t, "header").Ok? && Rows(t, "body").Ok? ==>
      ((mode != "full" && mode != "header" && mode != "rows" && mode != "row" && mode != "row_with_header")
       || ((mode == "row" || mode == "row_with_header") && !(row.Some? && 0 <= row.value < |Rows(t, "body").value|)))
      ==> TableHtmlOf(t, mode, row) == Ok(EmptyTable)
    ensures t.rows != [] && Rows(t, "header").Ok? && Rows(t, "body").Ok? && mode == "full" ==>
      TableHtmlOf(t, mode, row) == Ok(TableMarkup(RenderRows(t.rows, |Rows(t, "header").value|, CellElement).cells))
  {
  }
}
