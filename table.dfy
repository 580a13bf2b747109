/**
 * Tables: rows of slots, each slot empty or a cell holding paragraphs. Covers
 * the cell operations, id assignment, the text rendering, the table's shape
 * classification, the header/body split and the header lookups.
 */
module Tables {
  import opened Wrappers
  import opened Text
  import opened Html
  import opened Runs
  import opened RunHtml
  import opened RunEdits
  import opened Placeholders
  import opened Paragraphs

  datatype Cell = Cell(paragraphs: seq<Paragraph>, colspan: int, rowspan: int, id: Option<string>)

  /** A row is a list of slots; an empty slot is None. */
  type Row = seq<Option<Cell>>

  datatype Table = Table(rows: seq<Row>, id: Option<string>, parentRefId: Option<string>, captionRefId: Option<string>)

  /** A cell holding one unformatted paragraph, spanning one row and one column. */
  function PlainCell(text: string): (c: Cell)
    ensures |c.paragraphs| == 1 && TextOf(c.paragraphs[0].runs) == text
    ensures c.colspan == 1 && c.rowspan == 1 && c.id.None?
  {
    Cell([ParagraphFromText(text)], 1, 1, None)
  }

  /** `list[i]` with Python's negative indexing; None where Python raises IndexError. */
  function PyIndex<T>(s: seq<T>, i: int): (r: Option<T>)
    ensures r.Some? <==> -|s| <= i < |s|
    ensures 0 <= i < |s| ==> r == Some(s[i])
    ensures -|s| <= i < 0 ==> r == Some(s[|s| + i])
  {
    if 0 <= i < |s| then Some(s[i]) else if -|s| <= i < 0 then Some(s[|s| + i]) else None
  }

  /** Where the slice bound `n` falls in a list of length `len`, as Python clamps it. */
  function PyCut(n: int, len: nat): (k: nat)
    ensures k <= len
    ensures 0 <= n <= len ==> k == n
  {
    if n < 0 then (if len + n < 0 then 0 else len + n) else if n > len then len else n
  }

  // ---------------------------------------------------------------------------
  // Cells
  // ---------------------------------------------------------------------------

  /** `{parent}:row::{r}:cell::{c}`, which is a cell id below a row id. */
  function CellId(parent: string, row: int, col: int): string {
    MakeId(MakeId(parent, "row", row), "cell", col)
  }

  /** The id spells out the parent, the row and the column. */
  lemma CellIdLayout(parent: string, row: int, col: int)
    ensures CellId(parent, row, col) == parent + ":row::" + IntToString(row) + ":cell::" + IntToString(col)
  {
    var r, c := IntToString(row), IntToString(col);
    assert MakeId(parent, "row", row) == parent + ":row::" + r by {
      assert ":" + "row" + "::" == ":row::";
    }
    assert ":" + "cell" + "::" == ":cell::";
  }

  /** Two cells below one parent get the same id only at the same position. */
  lemma CellIdInjective(parent: string, r1: int, c1: int, r2: int, c2: int)
    requires CellId(parent, r1, c1) == CellId(parent, r2, c2)
    ensures r1 == r2 && c1 == c2
  {
    MakeIdInjective(MakeId(parent, "row", r1), "cell", c1, MakeId(parent, "row", r2), "cell", c2);
    MakeIdInjective(parent, "row", r1, parent, "row", r2);
  }

  /** The cell once `assign_ids(parent, row, col)` has run. */
  function CellWithIds(c: Cell, parent: string, row: int, col: int): Cell {
    var id := CellId(parent, row, col);
    c.(id := Some(id), paragraphs := seq(|c.paragraphs|, i requires 0 <= i < |c.paragraphs| => ParagraphWithIds(c.paragraphs[i], id, i)))
  }

  /** `TableCellModel.assign_ids`: the cell's id, then each paragraph's. */
  method AssignCellIds(c: Cell, parent: string, row: int, col: int) returns (c': Cell)
    ensures c' == CellWithIds(c, parent, row, col)
  {
    var id := CellId(parent, row, col);
    var ps: seq<Paragraph> := [];
    var i := 0;
    while i < |c.paragraphs|
      invariant 0 <= i <= |c.paragraphs| && |ps| == i
      invariant forall k :: 0 <= k < i ==> ps[k] == ParagraphWithIds(c.paragraphs[k], id, k)
    {
      var p := AssignParagraphIds(c.paragraphs[i], id, i);
      ps := ps + [p];
      i := i + 1;
    }
    c' := c.(id := Some(id), paragraphs := ps);
  }

  /** Each paragraph's text in the given mode. */
  function ParagraphTexts(ps: seq<Paragraph>, mode: string): (ts: seq<string>)
    ensures |ts| == |ps|
  {
    seq(|ps|, i requires 0 <= i < |ps| => ParagraphText(ps[i], mode))
  }

  /** `TableCellModel.to_text`: the paragraphs' texts, one per line. */
  function CellText(c: Cell, mode: string): string {
    Join("\n", ParagraphTexts(c.paragraphs, mode))
  }

  /** The `colspan`/`rowspan` attributes, each only when above 1. */
  function SpanAttrs(colspan: int, rowspan: int): string {
    var attrs := (if colspan > 1 then ["colspan=\"" + IntToString(colspan) + "\""] else [])
                 + (if rowspan > 1 then ["rowspan=\"" + IntToString(rowspan) + "\""] else []);
    if attrs == [] then "" else " " + Join(" ", attrs)
  }

  /** The paragraphs' HTML, concatenated. */
  function ParagraphsHtml(ps: seq<Paragraph>): string {
    if ps == [] then "" else ParagraphHtml(ps[0]) + ParagraphsHtml(ps[1..])
  }

  /** The cell's contents in a `td` or `th` element, `&nbsp;` when there are none. */
  function CellElement(tag: string, c: Cell): string {
    var inner := ParagraphsHtml(c.paragraphs);
    "<" + tag + SpanAttrs(c.colspan, c.rowspan) + ">" + (if inner == "" then "&nbsp;" else inner) + "</" + tag + ">"
  }

  /** An element built as `CellElement` builds it opens with its tag. */
  lemma ElementOpens(tag: string, attrs: string, body: string)
    ensures StartsWith("<" + tag + attrs + ">" + body + "</" + tag + ">", "<" + tag)
  {
    var e := "<" + tag + attrs + ">" + body + "</" + tag + ">";
    assert e == ("<" + tag) + (attrs + ">" + body + "</" + tag + ">");
    assert e[..|"<" + tag|] == "<" + tag;
  }

  /** A cell element opens with its tag. */
  lemma CellElementOpens(tag: string, c: Cell)
    ensures StartsWith(CellElement(tag, c), "<" + tag)
  {
    var inner := ParagraphsHtml(c.paragraphs);
    ElementOpens(tag, SpanAttrs(c.colspan, c.rowspan), if inner == "" then "&nbsp;" else inner);
  }

  /** `TableCellModel.to_html`. */
  function CellHtml(c: Cell): string {
    CellElement("td", c)
  }

  /** Spans of 1 or less write no attributes; a span above 1 always writes one. */
  lemma SpanAttrsSpec(colspan: int, rowspan: int)
    ensures SpanAttrs(colspan, rowspan) == "" <==> colspan <= 1 && rowspan <= 1
  {
    var cs: seq<string> := if colspan > 1 then ["colspan=\"" + IntToString(colspan) + "\""] else [];
    var rs: seq<string> := if rowspan > 1 then ["rowspan=\"" + IntToString(rowspan) + "\""] else [];
    if colspan > 1 || rowspan > 1 {
      assert cs + rs != [] by {
        assert |cs + rs| == |cs| + |rs| >= 1;
      }
      var attrs := " " + Join(" ", cs + rs);
      assert attrs[0] == ' ';
    }
  }

  /** Every paragraph renders to something, so only a cell without paragraphs renders as `&nbsp;`. */
  lemma {:induction false} ParagraphsHtmlEmpty(ps: seq<Paragraph>)
    ensures ParagraphsHtml(ps) == "" <==> ps == []
  {
    if ps != [] {
      assert |ParagraphHtml(ps[0])| > 0;
    }
  }

  /** The index of the first paragraph whose full text holds `text`. */
  function FirstHolding(ps: seq<Paragraph>, text: string): (r: Option<nat>)
    ensures r.Some? ==> r.value < |ps| && Contains(TextOf(ps[r.value].runs), text)
    ensures r.Some? ==> forall j :: 0 <= j < r.value ==> !Contains(TextOf(ps[j].runs), text)
    ensures r.None? ==> forall j :: 0 <= j < |ps| ==> !Contains(TextOf(ps[j].runs), text)
  {
    if ps == [] then None
    else if Contains(TextOf(ps[0].runs), text) then Some(0)
    else match FirstHolding(ps[1..], text)
      case None => None
      case Some(i) => Some(i + 1)
  }

  /** The paragraphs with paragraph `i`'s runs replaced. */
  function WithRuns(ps: seq<Paragraph>, i: nat, runs: seq<Run>): seq<Paragraph>
    requires i < |ps|
  {
    ps[i := ps[i].(runs := runs)]
  }

  /**
   * `TableCellModel.apply_placeholder`: the first paragraph holding the text
   * gets the tracked replacement; False, with nothing changed, when there is no
   * replacement text or no paragraph holds the text.
   */
  method ApplyCellPlaceholder(c: Cell, ph: Placeholder, tokenize: Tokenizer) returns (c': Cell, applied: bool)
    ensures applied <==> Truthy(ph.replacedText) && FirstHolding(c.paragraphs, ph.text).Some?
    ensures !applied ==> c' == c
    ensures applied ==>
      var i := FirstHolding(c.paragraphs, ph.text).value;
      c' == c.(paragraphs := WithRuns(c.paragraphs, i,
        Replaced(c.paragraphs[i].runs, ph.text, ParseRuns(tokenize(ph.replacedText.value)), CommentFor(ph))))
  {
    if !Truthy(ph.replacedText) {
      return c, false;
    }
    var comment := BuildCommentText(ph);
    var k := 0;
    while k < |c.paragraphs|
      invariant 0 <= k <= |c.paragraphs|
      invariant forall j :: 0 <= j < k ==> !Contains(TextOf(c.paragraphs[j].runs), ph.text)
    {
      var para := c.paragraphs[k];
      var full := ParagraphText(para, "full");
      FullTextIsText(para.runs);
      if Contains(full, ph.text) {
        var runs := ReplaceText(para.runs, ph.text, tokenize, ph.replacedText.value, comment);
        return c.(paragraphs := WithRuns(c.paragraphs, k, runs)), true;
      }
      k := k + 1;
    }
    return c, false;
  }

  /**
   * `TableCellModel.apply_deleted_placeholder`: the first paragraph holding the
   * text has it dropped; False, with nothing changed, when none holds it.
   */
  method ApplyCellDeleted(c: Cell, ph: Placeholder) returns (c': Cell, applied: bool)
    ensures applied <==> FirstHolding(c.paragraphs, ph.text).Some?
    ensures !applied ==> c' == c
    ensures applied ==>
      var i := FirstHolding(c.paragraphs, ph.text).value;
      c' == c.(paragraphs := WithRuns(c.paragraphs, i, Dropped(c.paragraphs[i].runs, ph.text)))
  {
    var k := 0;
    while k < |c.paragraphs|
      invariant 0 <= k <= |c.paragraphs|
      invariant forall j :: 0 <= j < k ==> !Contains(TextOf(c.paragraphs[j].runs), ph.text)
    {
      var para := c.paragraphs[k];
      var full := ParagraphText(para, "full");
      FullTextIsText(para.runs);
      if Contains(full, ph.text) {
        var runs := DropText(para.runs, ph.text);
        return c.(paragraphs := WithRuns(c.paragraphs, k, runs)), true;
      }
      k := k + 1;
    }
    return c, false;
  }

  // ---------------------------------------------------------------------------
  // Table ids
  // ---------------------------------------------------------------------------

  function SlotWithIds(slot: Option<Cell>, parent: string, row: int, col: int): Option<Cell> {
    match slot
    case None => None
    case Some(c) => Some(CellWithIds(c, parent, row, col))
  }

  function RowWithIds(row: Row, parent: string, r: int): (out: Row)
    ensures |out| == |row|
  {
    seq(|row|, c requires 0 <= c < |row| => SlotWithIds(row[c], parent, r, c))
  }

  /** The table once `assign_ids(parent, index)` has run; empty slots stay empty. */
  function TableWithIds(t: Table, parent: string, index: int): Table {
    var id := MakeId(parent, "table", index);
    t.(id := Some(id), rows := seq(|t.rows|, r requires 0 <= r < |t.rows| => RowWithIds(t.rows[r], id, r)))
  }

  /** `TableModel.assign_ids`: the table's id, then each non-empty slot's, row by row. */
  method AssignTableIds(t: Table, parent: string, index: int) returns (t': Table)
    ensures t' == TableWithIds(t, parent, index)
  {
    var id := MakeId(parent, "table", index);
    ghost var target := TableWithIds(t, parent, index).rows;
    var rows: seq<Row> := [];
    var r := 0;
    while r < |t.rows|
      invariant 0 <= r <= |t.rows| == |target|
      invariant rows == target[..r]
    {
      var row := t.rows[r];
      ghost var slots := RowWithIds(row, id, r);
      var out: Row := [];
      var c := 0;
      while c < |row|
        invariant 0 <= c <= |row| == |slots|
        invariant out == slots[..c]
      {
        var slot := row[c];
        assert slots[..c + 1] == slots[..c] + [SlotWithIds(slot, id, r, c)];
        if slot.Some? {
          var cell := AssignCellIds(slot.value, id, r, c);
          out := out + [Some(cell)];
        } else {
          out := out + [None];
        }
        c := c + 1;
      }
      assert out == slots;
      assert target[..r + 1] == target[..r] + [out];
      rows := rows + [out];
      r := r + 1;
    }
    assert rows == target;
    t' := t.(id := Some(id), rows := rows);
  }

  /** Cells at different positions of one table get different ids. */
  lemma TableCellIdsDistinct(t: Table, parent: string, index: int, r1: nat, c1: nat, r2: nat, c2: nat)
    requires r1 < |t.rows| && c1 < |t.rows[r1]| && r2 < |t.rows| && c2 < |t.rows[r2]|
    requires t.rows[r1][c1].Some? && t.rows[r2][c2].Some? && (r1, c1) != (r2, c2)
    ensures TableWithIds(t, parent, index).rows[r1][c1].value.id != TableWithIds(t, parent, index).rows[r2][c2].value.id
  {
    var id := MakeId(parent, "table", index);
    if CellId(id, r1, c1) == CellId(id, r2, c2) {
      CellIdInjective(id, r1, c1, r2, c2);
    }
  }

  /** Assigning the same ids to a table again changes nothing. */
  lemma TableIdsStable(t: Table, parent: string, index: int)
    ensures TableWithIds(TableWithIds(t, parent, index), parent, index) == TableWithIds(t, parent, index)
  {
    var t' := TableWithIds(t, parent, index);
    var id := t'.id.value;
    forall r | 0 <= r < |t.rows| ensures RowWithIds(t'.rows[r], id, r) == t'.rows[r] {
      RowIdsStable(t.rows[r], id, r);
    }
    assert TableWithIds(t', parent, index).rows == t'.rows;
  }

  lemma RowIdsStable(row: Row, parent: string, r: int)
    ensures RowWithIds(RowWithIds(row, parent, r), parent, r) == RowWithIds(row, parent, r)
  {
    var row' := RowWithIds(row, parent, r);
    forall c | 0 <= c < |row| ensures SlotWithIds(row'[c], parent, r, c) == row'[c] {
      if row[c].Some? {
        var cell := row'[c].value;
        var cid := CellId(parent, r, c);
        forall i | 0 <= i < |cell.paragraphs|
          ensures ParagraphWithIds(cell.paragraphs[i], cid, i) == cell.paragraphs[i]
        {
          ParagraphIdsStable(row[c].value.paragraphs[i], cid, i, "full");
        }
        assert CellWithIds(cell, parent, r, c).paragraphs == cell.paragraphs;
      }
    }
  }

  // ---------------------------------------------------------------------------
  // Text
  // ---------------------------------------------------------------------------

  function SlotText(slot: Option<Cell>, mode: string): string {
    match slot
    case None => ""
    case Some(c) => CellText(c, mode)
  }

  function SlotTexts(row: Row, mode: string): (ts: seq<string>)
    ensures |ts| == |row|
  {
    seq(|row|, c requires 0 <= c < |row| => SlotText(row[c], mode))
  }

  /** One line per row: the slots' texts separated by tabs, an empty slot as "". */
  function RowText(row: Row, mode: string): string {
    if row == [] then "" else Join("\t", SlotTexts(row, mode))
  }

  function RowTexts(rows: seq<Row>, mode: string): (ls: seq<string>)
    ensures |ls| == |rows|
  {
    seq(|rows|, r requires 0 <= r < |rows| => RowText(rows[r], mode))
  }

  /** What `TableModel.to_text` returns. */
  function TableText(t: Table, mode: string): string {
    Join("\n", RowTexts(t.rows, mode))
  }

  /** `TableModel.to_text`: builds each row's line in a loop, then joins the lines. */
  method TableToText(t: Table, mode: string) returns (s: string)
    ensures s == TableText(t, mode)
  {
    ghost var target := RowTexts(t.rows, mode);
    var lines: seq<string> := [];
    var r := 0;
    while r < |t.rows|
      invariant 0 <= r <= |t.rows| == |target|
      invariant lines == target[..r]
    {
      var row := t.rows[r];
      assert target[..r + 1] == target[..r] + [RowText(row, mode)];
      if row == [] {
        lines := lines + [""];
        r := r + 1;
        continue;
      }
      ghost var slots := SlotTexts(row, mode);
      var cellTexts: seq<string> := [];
      var c := 0;
      while c < |row|
        invariant 0 <= c <= |row| == |slots|
        invariant cellTexts == slots[..c]
      {
        assert slots[..c + 1] == slots[..c] + [SlotText(row[c], mode)];
        if row[c].None? {
          cellTexts := cellTexts + [""];
        } else {
          cellTexts := cellTexts + [CellText(row[c].value, mode)];
        }
        c := c + 1;
      }
      assert cellTexts == slots;
      lines := lines + [Join("\t", cellTexts)];
      r := r + 1;
    }
    assert lines == target;
    s := Join("\n", lines);
  }

  /** Splitting a join on a separator that no part holds gives the parts back. */
  lemma {:induction false} SplitOfJoin(ss: seq<string>, d: char)
    requires |ss| >= 1 && forall i :: 0 <= i < |ss| ==> d !in ss[i]
    ensures Split(Join([d], ss), d) == ss
  {
    if |ss| == 1 {
      assert Join([d], ss) == ss[0];
    } else {
      var head, rest := ss[0], ss[1..];
      var tail := Join([d], rest);
      var s := head + [d] + tail;
      assert Join([d], ss) == s;
      assert d in s by { assert s[|head|] == d; }
      FirstIndexAfter(head, d, tail);
      assert s[..|head|] == head && s[|head| + 1..] == tail;
      SplitOfJoin(rest, d);
      assert Split(s, d) == [head] + rest;
    }
  }

  lemma {:induction false} FirstIndexAfter(head: string, d: char, tail: string)
    requires d !in head
    ensures d in head + [d] + tail && FirstIndexOf(head + [d] + tail, d) == |head|
  {
    var s := head + [d] + tail;
    assert s[|head|] == d;
    if head != [] {
      assert s[0] != d by { assert s[0] == head[0]; }
      assert s[1..] == head[1..] + [d] + tail;
      FirstIndexAfter(head[1..], d, tail);
    }
  }

  /**
   * When no slot's text holds a tab or a newline and no row is empty, the text
   * splits back into the slots' texts: lines on newlines, slots on tabs.
   */
  lemma TableTextSplits(t: Table, mode: string)
    requires |t.rows| >= 1
    requires forall r :: 0 <= r < |t.rows| ==> |t.rows[r]| >= 1
    requires forall r, c :: 0 <= r < |t.rows| && 0 <= c < |t.rows[r]| ==>
      '\t' !in SlotText(t.rows[r][c], mode) && '\n' !in SlotText(t.rows[r][c], mode)
    ensures |Split(TableText(t, mode), '\n')| == |t.rows|
    ensures forall r :: 0 <= r < |t.rows| ==> Split(Split(TableText(t, mode), '\n')[r], '\t') == SlotTexts(t.rows[r], mode)
  {
    var lines := RowTexts(t.rows, mode);
    forall r | 0 <= r < |t.rows|
      ensures '\n' !in lines[r]
      ensures Split(lines[r], '\t') == SlotTexts(t.rows[r], mode)
    {
      var ts := SlotTexts(t.rows[r], mode);
      NoCharInJoin(ts, '\t', '\n');
      SplitOfJoin(ts, '\t');
    }
    SplitOfJoin(lines, '\n');
  }

  /** A join holds the character `x` only if a part or the separator does. */
  lemma {:induction false} NoCharInJoin(ss: seq<string>, d: char, x: char)
    requires d != x && forall i :: 0 <= i < |ss| ==> x !in ss[i]
    ensures x !in Join([d], ss)
  {
    if |ss| > 1 {
      NoCharInJoin(ss[1..], d, x);
    }
  }

  // ---------------------------------------------------------------------------
  // Shape
  // ---------------------------------------------------------------------------

  datatype Kind = Layout | Keyvalue | Unknown

  /** The sum of the colspans of the non-empty slots. */
  function ColspanSum(slots: Row): int {
    if slots == [] then 0
    else (match slots[0] case None => 0 case Some(c) => c.colspan) + ColspanSum(slots[1..])
  }

  /** `TableModel.get_col_count`: the number of slots in the first row. */
  function ColCount(t: Table): (r: Result<nat>)
    ensures r.Err? <==> t.rows == []
  {
    if t.rows == [] then Err(IndexError) else Ok(|t.rows[0]|)
  }

  /** `TableModel.get_row_count`. */
  function RowCount(t: Table): nat {
    |t.rows|
  }

  /**
   * `TableModel.get_type`: "Layout" for one slot in the first row, "Keyvalue"
   * when the slot count equals the colspans of the first two slots' cells.
   */
  function GetType(t: Table): (r: Result<Kind>)
    ensures r.Err? <==> t.rows == []
  {
    if t.rows == [] then Err(IndexError)
    else
      var n := |t.rows[0]|;
      var spans := ColspanSum(t.rows[0][..if n < 2 then n else 2]);
      if n == 1 then Ok(Layout) else if n - spans == 0 then Ok(Keyvalue) else Ok(Unknown)
  }

  /** Every slot of the row holds a cell spanning one column and one row. */
  predicate PlainRow(row: Row) {
    forall c :: 0 <= c < |row| ==> row[c].Some? && row[c].value.colspan == 1 && row[c].value.rowspan == 1
  }

  /**
   * For a first row of plain cells: one column is a layout, two columns (or
   * none) a key/value table, three or more unknown.
   */
  lemma PlainGridKind(t: Table)
    requires t.rows != [] && PlainRow(t.rows[0])
    ensures |t.rows[0]| == 1 ==> GetType(t) == Ok(Layout)
    ensures |t.rows[0]| == 0 || |t.rows[0]| == 2 ==> GetType(t) == Ok(Keyvalue)
    ensures |t.rows[0]| >= 3 ==> GetType(t) == Ok(Unknown)
  {
    var row := t.rows[0];
    if |row| >= 2 {
      var two := row[..2];
      assert two[0] == row[0] && two[1] == row[1];
      assert row[0].Some? && row[0].value.colspan == 1;
      assert row[1].Some? && row[1].value.colspan == 1;
      assert two[1..][1..] == [];
      assert ColspanSum(two[1..][1..]) == 0;
      assert ColspanSum(two[1..]) == 1;
      assert ColspanSum(two) == 2;
    }
  }

  /** The largest rowspan among the row's cells, or 1 when it has none. */
  function MaxRowspan(slots: Row): int {
    if slots == [] then 1
    else
      var rest := MaxRowspan(slots[1..]);
      match slots[0]
      case None => rest
      case Some(c) =>
        if exists k :: 1 <= k < |slots| && slots[k].Some? then (if c.rowspan > rest then c.rowspan else rest)
        else c.rowspan
  }

  /** The maximum is one of the cells' rowspans, and no cell's rowspan exceeds it. */
  lemma {:induction false} MaxRowspanSpec(slots: Row)
    ensures forall k :: 0 <= k < |slots| && slots[k].Some? ==> slots[k].value.rowspan <= MaxRowspan(slots)
    ensures (exists k :: 0 <= k < |slots| && slots[k].Some?) ==>
      exists k :: 0 <= k < |slots| && slots[k].Some? && slots[k].value.rowspan == MaxRowspan(slots)
    ensures (forall k :: 0 <= k < |slots| ==> slots[k].None?) ==> MaxRowspan(slots) == 1
  {
    if slots != [] {
      var rest := slots[1..];
      MaxRowspanSpec(rest);
      assert forall k :: 1 <= k < |slots| ==> slots[k] == rest[k - 1];
      if (exists k :: 1 <= k < |slots| && slots[k].Some?) {
        var k :| 1 <= k < |slots| && slots[k].Some?;
        assert rest[k - 1].Some?;
      }
    }
  }

  /** Column `col` of every row; IndexError when a row is too short. */
  function Column(rows: seq<Row>, col: nat): (r: Result<Row>)
    ensures r.Ok? <==> forall k :: 0 <= k < |rows| ==> col < |rows[k]|
    ensures r.Ok? ==> |r.value| == |rows| && forall k :: 0 <= k < |rows| ==> r.value[k] == rows[k][col]
  {
    if rows == [] then Ok([])
    else match Column(rows[..|rows| - 1], col)
      case Err(e) => Err(e)
      case Ok(init) =>
        if col < |rows[|rows| - 1]| then Ok(init + [rows[|rows| - 1][col]]) else Err(IndexError)
  }

  lemma ColumnOf(rows: seq<Row>, col: nat, column: Row)
    requires |column| == |rows| && forall k :: 0 <= k < |rows| ==> col < |rows[k]| && column[k] == rows[k][col]
    ensures Column(rows, col) == Ok(column)
  {
    var c := Column(rows, col).value;
    assert c == column;
  }

  /** The header rows and the body rows, as `get_rows` computes them before choosing by mode. */
  function HeaderAndBody(t: Table): Result<(seq<Row>, seq<Row>)>
    requires t.rows != []
  {
    if GetType(t) == Ok(Keyvalue) then
      match (Column(t.rows, 0), Column(t.rows, 1))
      case (Ok(h), Ok(b)) => Ok(([h], [b]))
      case _ => Err(IndexError)
    else
      var n := PyCut(MaxRowspan(t.rows[0]), |t.rows|);
      Ok((t.rows[..n], t.rows[n..]))
  }

  /** What `TableModel.get_rows(mode)` returns or raises. */
  function Rows(t: Table, mode: string): Result<seq<Row>> {
    if t.rows == [] then Ok([])
    else match HeaderAndBody(t)
      case Err(e) => Err(e)
      case Ok((header, body)) =>
        if mode == "all" then Ok(t.rows)
        else if mode == "header" then Ok(header)
        else if mode == "body" then Ok(body)
        else Ok([])
  }

  /** `TableModel.get_rows`: the key/value columns are gathered in a loop. */
  method GetRows(t: Table, mode: string) returns (r: Result<seq<Row>>)
    ensures r == Rows(t, mode)
  {
    if t.rows == [] {
      return Ok([]);
    }
    var header: seq<Row>;
    var body: seq<Row>;
    if GetType(t) == Ok(Keyvalue) {
      var headerRow: Row := [];
      var bodyRow: Row := [];
      var k := 0;
      while k < |t.rows|
        invariant 0 <= k <= |t.rows| && |headerRow| == k && |bodyRow| == k
        invariant forall j :: 0 <= j < k ==> 2 <= |t.rows[j]|
        invariant forall j :: 0 <= j < k ==> headerRow[j] == t.rows[j][0] && bodyRow[j] == t.rows[j][1]
      {
        var row := t.rows[k];
        if |row| < 2 {
          ghost var col: nat := if |row| == 0 then 0 else 1;
          assert Column(t.rows, col).Err?;
          return Err(IndexError);
        }
        headerRow := headerRow + [row[0]];
        bodyRow := bodyRow + [row[1]];
        k := k + 1;
      }
      ColumnOf(t.rows, 0, headerRow);
      ColumnOf(t.rows, 1, bodyRow);
      header, body := [headerRow], [bodyRow];
    } else {
      var n := PyCut(MaxRowspan(t.rows[0]), |t.rows|);
      header, body := t.rows[..n], t.rows[n..];
    }
    if mode == "all" {
      return Ok(t.rows);
    } else if mode == "header" {
      return Ok(header);
    } else if mode == "body" {
      return Ok(body);
    }
    return Ok([]);
  }

  /** `TableModel.get_body_count`. */
  function BodyCount(t: Table): Result<nat> {
    match Rows(t, "body")
    case Err(e) => Err(e)
    case Ok(b) => Ok(|b|)
  }

  /**
   * Outside key/value tables the header is the first rows, as many as the
   * largest rowspan of the first row's cells allows, and header then body is
   * the whole table.
   */
  lemma HeaderBodySplit(t: Table)
    requires t.rows != [] && GetType(t) != Ok(Keyvalue)
    ensures Rows(t, "header").Ok? && Rows(t, "body").Ok?
    ensures Rows(t, "header").value + Rows(t, "body").value == t.rows
    ensures 1 <= MaxRowspan(t.rows[0]) <= |t.rows| ==> |Rows(t, "header").value| == MaxRowspan(t.rows[0])
    ensures Rows(t, "all") == Ok(t.rows) && Rows(t, "other") == Ok([])
  {
    var n := PyCut(MaxRowspan(t.rows[0]), |t.rows|);
    assert t.rows[..n] + t.rows[n..] == t.rows;
  }

  /**
   * A key/value table's header is one row of every row's first slot and its
   * body one row of every row's second slot; a row with fewer than two slots
   * raises IndexError.
   */
  lemma KeyvalueSplit(t: Table)
    requires t.rows != [] && GetType(t) == Ok(Keyvalue)
    ensures Rows(t, "header").Ok? <==> forall k :: 0 <= k < |t.rows| ==> |t.rows[k]| >= 2
    ensures Rows(t, "header").Ok? ==>
      && |Rows(t, "header").value| == 1 && |Rows(t, "body").value| == 1
      && |Rows(t, "header").value[0]| == |t.rows| && |Rows(t, "body").value[0]| == |t.rows|
      && forall k :: 0 <= k < |t.rows| ==>
        Rows(t, "header").value[0][k] == t.rows[k][0] && Rows(t, "body").value[0][k] == t.rows[k][1]
  {
    if !(forall k :: 0 <= k < |t.rows| ==> |t.rows[k]| >= 2) {
      assert Column(t.rows, 1).Err?;
    }
  }

  // ---------------------------------------------------------------------------
  // Header lookups (text format)
  // ---------------------------------------------------------------------------

  /** The texts of slot `col` in rows `0 .. n-1`, in order; the first missing row, slot or cell raises. */
  function ColumnTexts(rows: seq<Row>, col: int, n: nat, mode: string): Result<seq<string>> {
    if n == 0 then Ok([])
    else match ColumnTexts(rows, col, n - 1, mode)
      case Err(e) => Err(e)
      case Ok(ts) =>
        var r := n - 1;
        if r >= |rows| then Err(IndexError)
        else
          var slot: Option<Option<Cell>> := PyIndex(rows[r], col);
          match slot
          case None => Err(IndexError)
          case Some(None) => Err(AttributeError)
          case Some(Some(c)) => Ok(ts + [CellText(c, mode)])
  }

  /** Elements of a list, as a set. */
  function Elements(ts: seq<string>): set<string> {
    set i | 0 <= i < |ts| :: ts[i]
  }

  /** What `TableModel.get_col_header(col)` returns (as a set: its order is unspecified) or raises. */
  function ColHeader(t: Table, col: int, mode: string): Result<set<string>> {
    if t.rows == [] then Err(IndexError)
    else if col > |t.rows[0]| - 1 then Ok({})
    else
      var n := MaxRowspan(t.rows[0]);
      match ColumnTexts(t.rows, col, if n < 0 then 0 else n, mode)
      case Err(e) => Err(e)
      case Ok(ts) => Ok(Elements(ts))
  }

  /** `TableModel.get_col_header`: collects the header texts in a loop. */
  method GetColHeader(t: Table, col: int, mode: string) returns (r: Result<set<string>>)
    ensures r == ColHeader(t, col, mode)
  {
    if t.rows == [] {
      return Err(IndexError);
    }
    if col > |t.rows[0]| - 1 {
      return Ok({});
    }
    var m := MaxRowspan(t.rows[0]);
    var n: nat := if m < 0 then 0 else m;
    var path: seq<string> := [];
    var k: nat := 0;
    while k < n
      invariant k <= n && ColumnTexts(t.rows, col, k, mode) == Ok(path)
    {
      if k >= |t.rows| {
        ColumnTextsStopped(t.rows, col, k + 1, n, mode);
        return Err(IndexError);
      }
      var slot := PyIndex(t.rows[k], col);
      if slot.None? {
        ColumnTextsStopped(t.rows, col, k + 1, n, mode);
        return Err(IndexError);
      }
      if slot.value.None? {
        ColumnTextsStopped(t.rows, col, k + 1, n, mode);
        return Err(AttributeError);
      }
      path := path + [CellText(slot.value.value, mode)];
      k := k + 1;
    }
    return Ok(Elements(path));
  }

  lemma {:induction false} ColumnTextsStopped(rows: seq<Row>, col: int, k: nat, n: nat, mode: string)
    requires k <= n && ColumnTexts(rows, col, k, mode).Err?
    ensures ColumnTexts(rows, col, n, mode) == ColumnTexts(rows, col, k, mode)
    decreases n - k
  {
    if k < n {
      ColumnTextsStopped(rows, col, k, n - 1, mode);
    }
  }

  /** When every header row holds a cell at `col`, the texts are exactly those cells' texts. */
  lemma {:induction false} ColumnTextsSpec(rows: seq<Row>, col: nat, n: nat, mode: string)
    requires n <= |rows| && forall r :: 0 <= r < n ==> col < |rows[r]| && rows[r][col].Some?
    ensures ColumnTexts(rows, col, n, mode).Ok?
    ensures |ColumnTexts(rows, col, n, mode).value| == n
    ensures forall r :: 0 <= r < n ==> ColumnTexts(rows, col, n, mode).value[r] == CellText(rows[r][col].value, mode)
  {
    if n > 0 {
      ColumnTextsSpec(rows, col, n - 1, mode);
      var ts := ColumnTexts(rows, col, n - 1, mode).value;
      var c := rows[n - 1][col].value;
      assert PyIndex(rows[n - 1], col) == Some(Some(c));
      var all := ts + [CellText(c, mode)];
      assert ColumnTexts(rows, col, n, mode) == Ok(all);
      forall r | 0 <= r < n ensures all[r] == CellText(rows[r][col].value, mode) {
        if r < n - 1 {
          assert all[r] == ts[r];
        }
      }
    }
  }

  /**
   * For a column present in the header rows, the column header is the set of
   * that column's cell texts over the header rows.
   */
  lemma ColHeaderSpec(t: Table, col: nat, mode: string)
    requires t.rows != [] && col < |t.rows[0]|
    requires 0 <= MaxRowspan(t.rows[0]) <= |t.rows|
    requires forall r :: 0 <= r < MaxRowspan(t.rows[0]) ==> col < |t.rows[r]| && t.rows[r][col].Some?
    ensures ColHeader(t, col, mode).Ok?
    ensures forall x :: x in ColHeader(t, col, mode).value <==>
      exists r :: 0 <= r < MaxRowspan(t.rows[0]) && x == CellText(t.rows[r][col].value, mode)
  {
    var n := MaxRowspan(t.rows[0]);
    ColumnTextsSpec(t.rows, col, n, mode);
    var ts := ColumnTexts(t.rows, col, n, mode).value;
    forall x
      ensures x in Elements(ts) <==> exists r :: 0 <= r < n && x == CellText(t.rows[r][col].value, mode)
    {
      if x in Elements(ts) {
        var i :| 0 <= i < |ts| && ts[i] == x;
        assert x == CellText(t.rows[i][col].value, mode);
      }
      if exists r :: 0 <= r < n && x == CellText(t.rows[r][col].value, mode) {
        var r :| 0 <= r < n && x == CellText(t.rows[r][col].value, mode);
        assert ts[r] == x;
      }
    }
  }

  /** What `TableModel.get_row_header(row)` returns or raises. */
  function RowHeader(t: Table, row: int, mode: string): (r: Result<seq<string>>)
    ensures r.Ok? ==> |r.value| <= 1
  {
    if row > |t.rows| - 1 then Ok([])
    else
      var slots: Option<Row> := PyIndex(t.rows, row);
      match slots
      case None => Err(IndexError)
      case Some(slots) =>
        if slots == [] then Err(IndexError)
        else match slots[0]
          case None => Err(AttributeError)
          case Some(c) => Ok([CellText(c, mode)])
  }

  /** A row's header is its first cell's text; a row past the end has none. */
  lemma RowHeaderSpec(t: Table, row: int, mode: string)
    ensures row >= |t.rows| ==> RowHeader(t, row, mode) == Ok([])
    ensures 0 <= row < |t.rows| && t.rows[row] != [] && t.rows[row][0].Some? ==>
      RowHeader(t, row, mode) == Ok([CellText(t.rows[row][0].value, mode)])
    ensures -|t.rows| <= row < 0 && t.rows[|t.rows| + row] != [] && t.rows[|t.rows| + row][0].Some? ==>
      RowHeader(t, row, mode) == Ok([CellText(t.rows[|t.rows| + row][0].value, mode)])
    ensures row < -|t.rows| ==> RowHeader(t, row, mode) == Err(IndexError)
  {
  }

  /** What `TableModel.get_header` returns: a key/value table's row header, otherwise the column header. */
  function Header(t: Table, row: int, col: int, mode: string): Result<set<string>> {
    match GetType(t)
    case Err(e) => Err(e)
    case Ok(kind) =>
      if kind == Keyvalue then
        match RowHeader(t, row, mode)
        case Err(e) => Err(e)
        case Ok(ts) => Ok(Elements(ts))
      else ColHeader(t, col, mode)
  }

  /** `TableModel.get_header`. */
  method GetHeader(t: Table, row: int, col: int, mode: string) returns (r: Result<set<string>>)
    ensures r == Header(t, row, col, mode)
  {
    var kind := GetType(t);
    if kind.Err? {
      return Err(kind.error);
    }
    if kind.value == Keyvalue {
      var h := RowHeader(t, row, mode);
      if h.Err? {
        return Err(h.error);
      }
      return Ok(Elements(h.value));
    }
    r := GetColHeader(t, col, mode);
  }
}
