/**
 * Building a table from content: an HTML table read through the event stream
 * of an HTML parser, or delimited text (tab, pipe or comma separated).
 */
module TableBuild {
  import opened Wrappers
  import opened Text
  import opened Html
  import opened Paragraphs
  import opened Tables

  // ---------------------------------------------------------------------------
  // The HTML table parser
  // ---------------------------------------------------------------------------

  /** A cell as the parser collects it. */
  datatype RawCell = RawCell(text: string, rowspan: int, colspan: int)

  /** The parser's fields: finished rows, the open row, the open cell and the text collected for it. */
  datatype ParserState = ParserState(
    rows: seq<seq<RawCell>>,
    currentRow: Option<seq<RawCell>>,
    currentCell: Option<RawCell>,
    buffer: string)

  const Initial := ParserState([], None, None, "")

  predicate IsCellTag(tag: string) {
    tag == "td" || tag == "th"
  }

  /** `int(attrs.get(key, 1))`. */
  function SpanAttr(attrs: seq<(string, string)>, key: string): Result<int> {
    match AttrLookup(attrs, key)
    case None => Ok(1)
    case Some(v) => ParseInt(v)
  }

  /** `handle_starttag`: `tr` opens a row, `td`/`th` opens a cell with its spans. */
  function StartTagStep(st: ParserState, tag: string, attrs: seq<(string, string)>): Result<ParserState> {
    if tag == "tr" then Ok(st.(currentRow := Some([])))
    else if IsCellTag(tag) then
      match SpanAttr(attrs, "rowspan")
      case Err(e) => Err(e)
      case Ok(rowspan) =>
        match SpanAttr(attrs, "colspan")
        case Err(e) => Err(e)
        case Ok(colspan) => Ok(st.(currentCell := Some(RawCell("", rowspan, colspan)), buffer := ""))
    else Ok(st)
  }

  /** `handle_data`: text inside an open cell is collected. */
  function DataStep(st: ParserState, data: string): ParserState {
    if st.currentCell.Some? then st.(buffer := st.buffer + data) else st
  }

  /**
   * `handle_endtag`: closing a cell appends it, with the collected text
   * stripped, to the open row (AttributeError when no row is open); closing
   * a row appends it to the finished rows.
   */
  function EndTagStep(st: ParserState, tag: string): Result<ParserState> {
    if IsCellTag(tag) && st.currentCell.Some? then
      if st.currentRow.None? then Err(AttributeError)
      else
        var cell := st.currentCell.value.(text := Strip(st.buffer));
        Ok(st.(currentRow := Some(st.currentRow.value + [cell]), currentCell := None, buffer := ""))
    else if tag == "tr" && st.currentRow.Some? then
      Ok(st.(rows := st.rows + [st.currentRow.value], currentRow := None))
    else Ok(st)
  }

  function TokenStep(st: ParserState, t: Token): Result<ParserState> {
    match t
    case StartTag(name, attrs) => StartTagStep(st, name, attrs)
    case EndTag(name) => EndTagStep(st, name)
    case Data(text) => Ok(DataStep(st, text))
  }

  /** The state after the given events, or the first error one of them raises. */
  function FeedAll(st: ParserState, tokens: seq<Token>): Result<ParserState> {
    if tokens == [] then Ok(st)
    else match FeedAll(st, tokens[..|tokens| - 1])
      case Err(e) => Err(e)
      case Ok(mid) => TokenStep(mid, tokens[|tokens| - 1])
  }

  /** `_HTMLTableParser`: its handlers update the fields in place. */
  class TableParser {
    var rows: seq<seq<RawCell>>
    var currentRow: Option<seq<RawCell>>
    var currentCell: Option<RawCell>
    var buffer: string

    function State(): ParserState
      reads this
    {
      ParserState(rows, currentRow, currentCell, buffer)
    }

    constructor()
      ensures State() == Initial
    {
      rows := [];
      currentRow := None;
      currentCell := None;
      buffer := "";
    }

    method HandleStartTag(tag: string, attrs: seq<(string, string)>) returns (r: Result<()>)
      modifies this
      ensures StartTagStep(old(State()), tag, attrs).Ok? ==> r.Ok? && State() == StartTagStep(old(State()), tag, attrs).value
      ensures StartTagStep(old(State()), tag, attrs).Err? ==> r == Err(StartTagStep(old(State()), tag, attrs).error) && State() == old(State())
    {
      if tag == "tr" {
        currentRow := Some([]);
      } else if IsCellTag(tag) {
        var rowspan := SpanAttr(attrs, "rowspan");
        if rowspan.Err? {
          return Err(rowspan.error);
        }
        var colspan := SpanAttr(attrs, "colspan");
        if colspan.Err? {
          return Err(colspan.error);
        }
        currentCell := Some(RawCell("", rowspan.value, colspan.value));
        buffer := "";
      }
      return Ok(());
    }

    method HandleData(data: string)
      modifies this
      ensures State() == DataStep(old(State()), data)
    {
      if currentCell.Some? {
        buffer := buffer + data;
      }
    }

    /**
     * On AttributeError the open cell has already received its stripped text,
     * as the source assigns it before the failing append.
     */
    method HandleEndTag(tag: string) returns (r: Result<()>)
      modifies this
      ensures EndTagStep(old(State()), tag).Ok? ==> r.Ok? && State() == EndTagStep(old(State()), tag).value
      ensures EndTagStep(old(State()), tag).Err? ==>
        r == Err(AttributeError) && State() == old(State()).(currentCell := Some(old(currentCell).value.(text := Strip(old(buffer)))))
    {
      ghost var st := State();
      if IsCellTag(tag) && currentCell.Some? {
        var cell := currentCell.value.(text := Strip(buffer));
        if currentRow.None? {
          currentCell := Some(cell);
          return Err(AttributeError);
        }
        assert EndTagStep(st, tag) == Ok(st.(currentRow := Some(currentRow.value + [cell]), currentCell := None, buffer := ""));
        currentRow := Some(currentRow.value + [cell]);
        currentCell := None;
        buffer := "";
      } else if tag == "tr" && currentRow.Some? {
        assert EndTagStep(st, tag) == Ok(st.(rows := rows + [currentRow.value], currentRow := None));
        rows := rows + [currentRow.value];
        currentRow := None;
      } else {
        assert EndTagStep(st, tag) == Ok(st);
      }
      return Ok(());
    }

    /** The parser's dispatch of one event to its handler. */
    method HandleToken(t: Token) returns (r: Result<()>)
      modifies this
      ensures TokenStep(old(State()), t).Ok? ==> r.Ok? && State() == TokenStep(old(State()), t).value
      ensures TokenStep(old(State()), t).Err? ==> r == Err(TokenStep(old(State()), t).error)
    {
      match t {
        case StartTag(name, attrs) =>
          r := HandleStartTag(name, attrs);
        case EndTag(name) =>
          r := HandleEndTag(name);
        case Data(text) =>
          HandleData(text);
          r := Ok(());
      }
    }

    /** `feed`: the events in order, stopping at the first that raises. */
    method Feed(tokens: seq<Token>) returns (r: Result<()>)
      modifies this
      ensures FeedAll(old(State()), tokens).Ok? <==> r.Ok?
      ensures r.Ok? ==> State() == FeedAll(old(State()), tokens).value
      ensures r.Err? ==> r.error == FeedAll(old(State()), tokens).error
    {
      ghost var start := State();
      var i := 0;
      while i < |tokens|
        invariant 0 <= i <= |tokens|
        invariant FeedAll(start, tokens[..i]) == Ok(State())
      {
        ghost var xs := tokens[..i + 1];
        assert xs[..|xs| - 1] == tokens[..i] && xs[|xs| - 1] == tokens[i];
        assert FeedAll(start, xs) == TokenStep(State(), tokens[i]);
        r := HandleToken(tokens[i]);
        if r.Err? {
          FeedStopped(start, tokens, i + 1);
          return;
        }
        i := i + 1;
      }
      assert tokens[..i] == tokens;
      return Ok(());
    }
  }

  /** Once an event raises, the whole feed raises that error. */
  lemma {:induction false} FeedStopped(st: ParserState, tokens: seq<Token>, k: nat)
    requires k <= |tokens| && FeedAll(st, tokens[..k]).Err?
    ensures FeedAll(st, tokens) == FeedAll(st, tokens[..k])
    decreases |tokens| - k
  {
    if k < |tokens| {
      var xs := tokens[..k + 1];
      assert xs[..|xs| - 1] == tokens[..k];
      FeedStopped(st, tokens, k + 1);
    } else {
      assert tokens[..k] == tokens;
    }
  }

  /** Feeding two event lists one after the other is feeding their concatenation. */
  lemma {:induction false} FeedAppend(st: ParserState, a: seq<Token>, b: seq<Token>)
    ensures FeedAll(st, a + b) ==
      match FeedAll(st, a)
      case Err(e) => Err(e)
      case Ok(mid) => FeedAll(mid, b)
    decreases |b|
  {
    if b == [] {
      assert a + b == a;
    } else {
      var ab := a + b;
      assert ab[..|ab| - 1] == a + b[..|b| - 1];
      assert ab[|ab| - 1] == b[|b| - 1];
      FeedAppend(st, a, b[..|b| - 1]);
    }
  }

  /** One more event after a list of events. */
  lemma FeedSnoc(st: ParserState, tokens: seq<Token>, t: Token)
    ensures FeedAll(st, tokens + [t]) ==
      match FeedAll(st, tokens)
      case Err(e) => Err(e)
      case Ok(mid) => TokenStep(mid, t)
  {
    var ts := tokens + [t];
    assert ts[..|ts| - 1] == tokens && ts[|ts| - 1] == t;
  }

  /** Every cell the parser holds, finished or in the open row, has stripped text. */
  predicate StrippedState(st: ParserState) {
    && StrippedTexts(st.rows)
    && (st.currentRow.Some? ==> StrippedCells(st.currentRow.value))
  }

  predicate StrippedCells(cs: seq<RawCell>) {
    forall j :: 0 <= j < |cs| ==> Strip(cs[j].text) == cs[j].text
  }

  predicate StrippedTexts(rows: seq<seq<RawCell>>) {
    forall i :: 0 <= i < |rows| ==> StrippedCells(rows[i])
  }

  lemma StripIdempotent(s: string)
    ensures Strip(Strip(s)) == Strip(s)
  {
    StripEnds(s);
    if Strip(s) != "" {
      StripUnchanged(Strip(s));
    }
  }

  /** No event makes the parser hold a cell whose text is not stripped. */
  lemma StepKeepsStripped(st: ParserState, t: Token)
    requires StrippedState(st)
    ensures TokenStep(st, t).Ok? ==> StrippedState(TokenStep(st, t).value)
  {
    if t.EndTag? && IsCellTag(t.name) && st.currentCell.Some? && st.currentRow.Some? {
      var cs := st.currentRow.value;
      var cell := st.currentCell.value.(text := Strip(st.buffer));
      StripIdempotent(st.buffer);
      assert StrippedCells(cs + [cell]) by {
        assert forall j :: 0 <= j < |cs| ==> (cs + [cell])[j] == cs[j];
      }
    } else if t.EndTag? && t.name == "tr" && st.currentRow.Some? {
      var rows := st.rows + [st.currentRow.value];
      assert forall i :: 0 <= i < |st.rows| ==> rows[i] == st.rows[i];
    }
  }

  /** Whatever the events, the cells the parser collects hold stripped text. */
  lemma {:induction false} FeedKeepsStripped(st: ParserState, tokens: seq<Token>)
    requires StrippedState(st)
    ensures FeedAll(st, tokens).Ok? ==> StrippedState(FeedAll(st, tokens).value)
  {
    if tokens != [] {
      var init := tokens[..|tokens| - 1];
      FeedKeepsStripped(st, init);
      if FeedAll(st, init).Ok? {
        StepKeepsStripped(FeedAll(st, init).value, tokens[|tokens| - 1]);
      }
    }
  }

  // The events of a well-formed table, as the parser receives them.

  function CellAttrs(c: RawCell): seq<(string, string)> {
    [("rowspan", IntToString(c.rowspan)), ("colspan", IntToString(c.colspan))]
  }

  function CellTokens(c: RawCell): seq<Token> {
    [StartTag("td", CellAttrs(c)), Data(c.text), EndTag("td")]
  }

  function CellsTokens(cs: seq<RawCell>): seq<Token> {
    if cs == [] then [] else CellsTokens(cs[..|cs| - 1]) + CellTokens(cs[|cs| - 1])
  }

  function RowsTokens(rows: seq<seq<RawCell>>): seq<Token> {
    if rows == [] then []
    else RowsTokens(rows[..|rows| - 1]) + RowTokens(rows[|rows| - 1])
  }

  function TableTokens(rows: seq<seq<RawCell>>): seq<Token> {
    [StartTag("table", [])] + RowsTokens(rows) + [EndTag("table")]
  }

  /** The attributes written for a cell parse back to its spans. */
  lemma CellAttrsParse(c: RawCell)
    ensures SpanAttr(CellAttrs(c), "rowspan") == Ok(c.rowspan)
    ensures SpanAttr(CellAttrs(c), "colspan") == Ok(c.colspan)
  {
    ParseIntOfInt(c.rowspan);
    ParseIntOfInt(c.colspan);
    var attrs := CellAttrs(c);
    assert attrs[..1] == [attrs[0]] && attrs[..1][..0] == [];
    assert AttrLookup(attrs, "colspan") == Some(IntToString(c.colspan));
    assert AttrLookup(attrs[..1], "rowspan") == Some(IntToString(c.rowspan));
  }

  /** A cell's start tag and text leave the cell open with its text collected. */
  lemma CellOpened(st: ParserState, c: RawCell)
    ensures FeedAll(st, [StartTag("td", CellAttrs(c)), Data(c.text)]) ==
      Ok(st.(currentCell := Some(RawCell("", c.rowspan, c.colspan)), buffer := c.text))
  {
    var t0, t1 := StartTag("td", CellAttrs(c)), Data(c.text);
    var started := st.(currentCell := Some(RawCell("", c.rowspan, c.colspan)), buffer := "");
    assert FeedAll(st, [t0]) == Ok(started) by {
      CellAttrsParse(c);
      assert StartTagStep(st, "td", CellAttrs(c)) == Ok(started);
      FeedSnoc(st, [], t0);
      assert [] + [t0] == [t0];
    }
    FeedSnoc(st, [t0], t1);
    assert "" + c.text == c.text;
    assert [t0] + [t1] == [t0, t1];
  }

  /** A cell's events append it to the open row. */
  lemma CellRoundTrip(st: ParserState, c: RawCell)
    requires st.currentRow.Some? && Strip(c.text) == c.text
    ensures FeedAll(st, CellTokens(c)) == Ok(st.(currentRow := Some(st.currentRow.value + [c]), currentCell := None, buffer := ""))
  {
    var t0, t1, t2 := StartTag("td", CellAttrs(c)), Data(c.text), EndTag("td");
    var filled := st.(currentCell := Some(RawCell("", c.rowspan, c.colspan)), buffer := c.text);
    CellOpened(st, c);
    FeedSnoc(st, [t0, t1], t2);
    assert [t0, t1] + [t2] == CellTokens(c);
    assert EndTagStep(filled, "td") == Ok(st.(currentRow := Some(st.currentRow.value + [c]), currentCell := None, buffer := ""));
  }

  /** The events of a row's cells append them, in order, to the open row. */
  lemma {:induction false} CellsRoundTrip(st: ParserState, cs: seq<RawCell>)
    requires st.currentRow.Some? && st.currentCell.None? && st.buffer == ""
    requires StrippedCells(cs)
    ensures FeedAll(st, CellsTokens(cs)) == Ok(st.(currentRow := Some(st.currentRow.value + cs)))
  {
    if cs == [] {
      assert st.currentRow.value + cs == st.currentRow.value;
    } else {
      var init, last := cs[..|cs| - 1], cs[|cs| - 1];
      var mid := st.(currentRow := Some(st.currentRow.value + init));
      assert FeedAll(st, CellsTokens(init)) == Ok(mid) by {
        assert forall j :: 0 <= j < |init| ==> init[j] == cs[j];
        CellsRoundTrip(st, init);
      }
      assert FeedAll(mid, CellTokens(last)) == Ok(mid.(currentRow := Some(mid.currentRow.value + [last]), currentCell := None, buffer := "")) by {
        CellRoundTrip(mid, last);
      }
      FeedAppend(st, CellsTokens(init), CellTokens(last));
      assert st.currentRow.value + init + [last] == st.currentRow.value + cs;
    }
  }

  function RowTokens(cs: seq<RawCell>): seq<Token> {
    [StartTag("tr", [])] + CellsTokens(cs) + [EndTag("tr")]
  }

  /** A row's events append the row to the finished rows. */
  lemma RowRoundTrip(st: ParserState, cs: seq<RawCell>)
    requires st.currentRow.None? && st.currentCell.None? && st.buffer == ""
    requires StrippedCells(cs)
    ensures FeedAll(st, RowTokens(cs)) == Ok(st.(rows := st.rows + [cs]))
  {
    var t0 := StartTag("tr", []);
    var started := st.(currentRow := Some([]));
    var filled := st.(currentRow := Some(cs));
    assert FeedAll(st, [t0]) == Ok(started) by {
      FeedSnoc(st, [], t0);
      assert [] + [t0] == [t0];
    }
    assert FeedAll(st, [t0] + CellsTokens(cs)) == Ok(filled) by {
      FeedAppend(st, [t0], CellsTokens(cs));
      CellsRoundTrip(started, cs);
      assert [] + cs == cs;
    }
    FeedSnoc(st, [t0] + CellsTokens(cs), EndTag("tr"));
  }

  /** The rows' events append them, in order, to the finished rows. */
  lemma {:induction false} RowsRoundTrip(st: ParserState, rows: seq<seq<RawCell>>)
    requires st.currentRow.None? && st.currentCell.None? && st.buffer == ""
    requires StrippedTexts(rows)
    ensures FeedAll(st, RowsTokens(rows)) == Ok(st.(rows := st.rows + rows))
  {
    if rows == [] {
      assert st.rows + rows == st.rows;
    } else {
      var init, last := rows[..|rows| - 1], rows[|rows| - 1];
      var mid := st.(rows := st.rows + init);
      assert FeedAll(st, RowsTokens(init)) == Ok(mid) by {
        assert forall i :: 0 <= i < |init| ==> init[i] == rows[i];
        RowsRoundTrip(st, init);
      }
      assert FeedAll(mid, RowTokens(last)) == Ok(mid.(rows := mid.rows + [last])) by {
        RowRoundTrip(mid, last);
      }
      assert RowsTokens(rows) == RowsTokens(init) + RowTokens(last);
      FeedAppend(st, RowsTokens(init), RowTokens(last));
      assert st.rows + init + [last] == st.rows + rows;
    }
  }

  /**
   * Parsing the events of a table whose cells hold stripped text gives back
   * its rows, texts and spans.
   */
  lemma HtmlRoundTrip(rows: seq<seq<RawCell>>)
    requires StrippedTexts(rows)
    ensures FeedAll(Initial, TableTokens(rows)) == Ok(ParserState(rows, None, None, ""))
    ensures HtmlTable(TableTokens(rows)) == Ok(NewTable(RowsOf(rows)))
  {
    assert FeedAll(Initial, [StartTag("table", [])]) == Ok(Initial) by {
      assert [StartTag("table", [])][..0] == [];
    }
    FeedAppend(Initial, [StartTag("table", [])], RowsTokens(rows));
    RowsRoundTrip(Initial, rows);
    assert [] + rows == rows;
    FeedAppend(Initial, [StartTag("table", [])] + RowsTokens(rows), [EndTag("table")]);
    assert [EndTag("table")][..0] == [];
  }

  /** A cell closed outside any row raises AttributeError. */
  lemma CellOutsideRowRaises(attrs: seq<(string, string)>, text: string)
    requires SpanAttr(attrs, "rowspan").Ok? && SpanAttr(attrs, "colspan").Ok?
    ensures HtmlTable([StartTag("td", attrs), Data(text), EndTag("td")]) == Err(AttributeError)
  {
    var t0, t1, t2 := StartTag("td", attrs), Data(text), EndTag("td");
    var started := Initial.(currentCell := Some(RawCell("", SpanAttr(attrs, "rowspan").value, SpanAttr(attrs, "colspan").value)));
    assert StartTagStep(Initial, "td", attrs) == Ok(started);
    FeedSnoc(Initial, [], t0);
    assert [] + [t0] == [t0];
    FeedSnoc(Initial, [t0], t1);
    assert [t0] + [t1] == [t0, t1];
    FeedSnoc(Initial, [t0, t1], t2);
    assert [t0, t1] + [t2] == [t0, t1, t2];
  }

  /** A span attribute that is not an integer raises ValueError when its cell opens. */
  lemma BadSpanRaises(key: string, v: string)
    requires (key == "rowspan" || key == "colspan") && ParseInt(v).Err?
    ensures HtmlTable([StartTag("th", [(key, v)])]) == Err(ValueError)
  {
    var attrs := [(key, v)];
    assert attrs[..0] == [];
    assert AttrLookup(attrs, key) == Some(v);
    if key == "colspan" {
      assert AttrLookup(attrs, "rowspan") == None;
    }
    assert StartTagStep(Initial, "th", attrs) == Err(ValueError);
    FeedSnoc(Initial, [], StartTag("th", attrs));
    assert [] + [StartTag("th", attrs)] == [StartTag("th", attrs)];
  }

  // ---------------------------------------------------------------------------
  // Tables from HTML
  // ---------------------------------------------------------------------------

  /** A table with the given rows and no ids. */
  function NewTable(rows: seq<Row>): Table {
    Table(rows, None, None, None)
  }

  /** The cell `_from_html` builds from a parsed cell: one paragraph holding the text, and its spans. */
  function CellOf(raw: RawCell): Cell {
    Cell([ParagraphFromText(raw.text)], raw.colspan, raw.rowspan, None)
  }

  function RowOf(raws: seq<RawCell>): (row: Row)
    ensures |row| == |raws|
  {
    seq(|raws|, j requires 0 <= j < |raws| => Some(CellOf(raws[j])))
  }

  function RowsOf(raws: seq<seq<RawCell>>): (rows: seq<Row>)
    ensures |rows| == |raws|
  {
    seq(|raws|, i requires 0 <= i < |raws| => RowOf(raws[i]))
  }

  /** What `TableModel._from_html` returns or raises, given the parser's events for the markup. */
  function HtmlTable(tokens: seq<Token>): Result<Table> {
    match FeedAll(Initial, tokens)
    case Err(e) => Err(e)
    case Ok(st) => Ok(NewTable(RowsOf(st.rows)))
  }

  /** `TableModel._from_html`: feeds the parser, then converts its rows cell by cell. */
  method FromHtml(tokens: seq<Token>) returns (r: Result<Table>)
    ensures r == HtmlTable(tokens)
  {
    var parser := new TableParser();
    var fed := parser.Feed(tokens);
    if fed.Err? {
      return Err(fed.error);
    }
    var raws := parser.rows;
    ghost var target := RowsOf(raws);
    var rows: seq<Row> := [];
    var i := 0;
    while i < |raws|
      invariant 0 <= i <= |raws|
      invariant rows == target[..i]
    {
      var row: Row := [];
      var j := 0;
      while j < |raws[i]|
        invariant 0 <= j <= |raws[i]|
        invariant row == RowOf(raws[i])[..j]
      {
        assert RowOf(raws[i])[..j + 1] == RowOf(raws[i])[..j] + [Some(CellOf(raws[i][j]))];
        row := row + [Some(CellOf(raws[i][j]))];
        j := j + 1;
      }
      assert row == RowOf(raws[i]);
      assert target[..i + 1] == target[..i] + [row];
      rows := rows + [row];
      i := i + 1;
    }
    assert rows == target;
    return Ok(NewTable(rows));
  }

  // ---------------------------------------------------------------------------
  // Tables from delimited text
  // ---------------------------------------------------------------------------

  /** The characters `str.splitlines` breaks lines at. */
  predicate IsLineBreak(c: char) {
    c == '\n' || c == '\r' || c == '\U{0B}' || c == '\U{0C}' || ('\U{1C}' <= c <= '\U{1E}')
    || c == '\U{85}' || c == '\U{2028}' || c == '\U{2029}'
  }

  predicate NoLineBreak(s: string) {
    forall k :: 0 <= k < |s| ==> !IsLineBreak(s[k])
  }

  /**
   * The pieces between line breaks, each break character on its own. This
   * differs from `str.splitlines` only in empty pieces (after the last break,
   * and between the two halves of "\r\n"), which the only caller drops as
   * blank lines.
   */
  function Lines(s: string): (ls: seq<string>)
    ensures |ls| >= 1
  {
    if s == [] then [""]
    else
      var rest := Lines(s[1..]);
      if IsLineBreak(s[0]) then [""] + rest else [[s[0]] + rest[0]] + rest[1..]
  }

  /** `[l.strip() for l in lines if l.strip()]` */
  function NonBlank(lines: seq<string>): seq<string>
  {
    if lines == [] then []
    else (if Strip(lines[0]) != "" then [Strip(lines[0])] else []) + NonBlank(lines[1..])
  }

  /** `_detect_delimiter`: a tab if the line has one, else a pipe if it has one, else a comma. */
  function DetectDelimiter(line: string): char {
    if '\t' in line then '\t' else if '|' in line then '|' else ','
  }

  /** One line's cells: the line split at the delimiter, each field stripped into a plain cell. */
  function DelimitedRow(line: string, d: char): (row: Row)
    ensures |row| == |Split(line, d)|
  {
    var parts := Split(line, d);
    seq(|parts|, j requires 0 <= j < |parts| => Some(PlainCell(Strip(parts[j]))))
  }

  function DelimitedRows(lines: seq<string>, d: char): (rows: seq<Row>)
    ensures |rows| == |lines|
  {
    seq(|lines|, i requires 0 <= i < |lines| => DelimitedRow(lines[i], d))
  }

  /** The table the non-blank, stripped lines make; the delimiter is detected on the first. */
  function LinesTable(lines: seq<string>): Table {
    if lines == [] then NewTable([])
    else NewTable(DelimitedRows(lines, DetectDelimiter(lines[0])))
  }

  /** What `TableModel._from_delimited_text` returns. */
  function DelimitedTable(text: string): Table {
    LinesTable(NonBlank(Lines(text)))
  }

  /** `TableModel._from_delimited_text`. */
  method FromDelimitedText(text: string) returns (t: Table)
    ensures t == DelimitedTable(text)
  {
    var lines := NonBlank(Lines(text));
    t := TableOfLines(lines);
  }

  /** The loop of `_from_delimited_text` over the lines. */
  method TableOfLines(lines: seq<string>) returns (t: Table)
    ensures t == LinesTable(lines)
  {
    if lines == [] {
      return NewTable([]);
    }
    var d := DetectDelimiter(lines[0]);
    ghost var target := DelimitedRows(lines, d);
    var rows: seq<Row> := [];
    var i := 0;
    while i < |lines|
      invariant 0 <= i <= |lines|
      invariant rows == target[..i]
    {
      var row := FieldsRow(lines[i], d);
      assert target[..i + 1] == target[..i] + [row];
      rows := rows + [row];
      i := i + 1;
    }
    assert rows == target;
    return NewTable(rows);
  }

  /** The inner loop of `_from_delimited_text`: one plain cell per stripped field. */
  method FieldsRow(line: string, d: char) returns (row: Row)
    ensures row == DelimitedRow(line, d)
  {
    var parts := Split(line, d);
    ghost var target := DelimitedRow(line, d);
    row := [];
    var j := 0;
    while j < |parts|
      invariant 0 <= j <= |parts|
      invariant row == target[..j]
    {
      var field := Strip(parts[j]);
      var cell := Some(PlainCell(field));
      assert target[j] == cell;
      assert target[..j + 1] == target[..j] + [cell];
      row := row + [cell];
      j := j + 1;
    }
    assert target[..j] == target;
  }

  // ---------------------------------------------------------------------------
  // Dispatch on the content
  // ---------------------------------------------------------------------------

  /**
   * What `TableModel.from_html_or_text` returns or raises: blank content
   * gives an empty table, content mentioning `<table` (in any case) is read as
   * HTML through the tokenizer, anything else as delimited text.
   */
  function ContentTable(content: string, tokenize: Tokenizer): Result<Table> {
    var c := Strip(content);
    if c == "" then Ok(NewTable([]))
    else if Contains(Lower(c), "<table") then HtmlTable(tokenize(c))
    else Ok(DelimitedTable(c))
  }

  method FromHtmlOrText(content: string, tokenize: Tokenizer) returns (r: Result<Table>)
    ensures r == ContentTable(content, tokenize)
  {
    var c := Strip(content);
    if c == "" {
      return Ok(NewTable([]));
    }
    if Contains(Lower(c), "<table") {
      r := FromHtml(tokenize(c));
    } else {
      var t := FromDelimitedText(c);
      r := Ok(t);
    }
  }

  // ---------------------------------------------------------------------------
  // Tab-separated text round trip
  // ---------------------------------------------------------------------------

  /** The line pieces of a non-empty prefix without line breaks extend the first piece. */
  lemma {:induction false} LinesPrefix(a: string, t: string)
    requires NoLineBreak(a)
    ensures Lines(a + t) == [a + Lines(t)[0]] + Lines(t)[1..]
    decreases |a|
  {
    var l := Lines(t);
    if a == [] {
      assert a + t == t && a + l[0] == l[0];
      assert [l[0]] + l[1..] == l;
    } else {
      assert (a + t)[0] == a[0] && (a + t)[1..] == a[1..] + t;
      LinesPrefix(a[1..], t);
      assert [a[0]] + (a[1..] + l[0]) == a + l[0];
    }
  }

  /** Splitting lines joined by "\n" gives the lines back. */
  lemma {:induction false} LinesOfJoin(ls: seq<string>)
    requires |ls| >= 1 && forall i :: 0 <= i < |ls| ==> NoLineBreak(ls[i])
    ensures Lines(Join("\n", ls)) == ls
  {
    if |ls| == 1 {
      LinesPrefix(ls[0], "");
      assert ls[0] + "" == ls[0];
    } else {
      var rest := Join("\n", ls[1..]);
      LinesOfJoin(ls[1..]);
      assert Join("\n", ls) == ls[0] + ("\n" + rest);
      LinesPrefix(ls[0], "\n" + rest);
      assert ("\n" + rest)[0] == '\n' && ("\n" + rest)[1..] == rest;
      assert Lines("\n" + rest) == [""] + ls[1..];
      assert ls[0] + "" == ls[0];
      assert [ls[0]] + ls[1..] == ls;
    }
  }

  /** A join of parts without line breaks, by a separator without any, has none. */
  lemma {:induction false} JoinNoLineBreak(sep: string, ss: seq<string>)
    requires NoLineBreak(sep) && forall i :: 0 <= i < |ss| ==> NoLineBreak(ss[i])
    ensures NoLineBreak(Join(sep, ss))
  {
    if |ss| > 1 {
      JoinNoLineBreak(sep, ss[1..]);
      var j := Join(sep, ss);
      var rest := Join(sep, ss[1..]);
      assert j == ss[0] + sep + rest;
      forall k | 0 <= k < |j|
        ensures !IsLineBreak(j[k])
      {
        if k < |ss[0]| {
          assert j[k] == ss[0][k];
        } else if k < |ss[0]| + |sep| {
          assert j[k] == sep[k - |ss[0]|];
        } else {
          assert j[k] == rest[k - |ss[0]| - |sep|];
        }
      }
    }
  }

  /** Lines that are non-empty and already stripped all survive the blank-line filter. */
  lemma {:induction false} NonBlankKeeps(ls: seq<string>)
    requires forall i :: 0 <= i < |ls| ==> ls[i] != "" && Strip(ls[i]) == ls[i]
    ensures NonBlank(ls) == ls
  {
    if ls != [] {
      NonBlankKeeps(ls[1..]);
      assert [ls[0]] + ls[1..] == ls;
    }
  }

  /** Text without `<` never mentions a table tag, in any case. */
  lemma NoTableTag(s: string)
    requires '<' !in s
    ensures !Contains(Lower(s), "<table")
  {
    var low := Lower(s);
    forall k
      ensures !IsOccurrence(low, "<table", k)
    {
      if 0 <= k && k + 6 <= |low| {
        assert low[k..k + 6][0] == low[k] == LowerChar(s[k]);
      }
    }
    ContainsIff(low, "<table");
  }

  /** A field that survives the text rendering and the delimited parsing unchanged. */
  predicate CleanField(f: string) {
    && f != "" && !IsSpace(f[0]) && !IsSpace(f[|f| - 1])
    && '\t' !in f && '<' !in f && NoLineBreak(f)
  }

  predicate CleanFields(fields: seq<string>) {
    |fields| >= 1 && forall j :: 0 <= j < |fields| ==> CleanField(fields[j])
  }

  /** A grid of clean fields whose first row has at least two, so that a tab is detected. */
  predicate CleanGrid(texts: seq<seq<string>>) {
    |texts| >= 1 && |texts[0]| >= 2 && forall i :: 0 <= i < |texts| ==> CleanFields(texts[i])
  }

  function GridRow(fields: seq<string>): (row: Row)
    ensures |row| == |fields|
  {
    seq(|fields|, j requires 0 <= j < |fields| => Some(PlainCell(fields[j])))
  }

  /** The table of plain cells with the given texts. */
  function GridTable(texts: seq<seq<string>>): Table {
    NewTable(seq(|texts|, i requires 0 <= i < |texts| => GridRow(texts[i])))
  }

  function TsvLines(texts: seq<seq<string>>): (ls: seq<string>)
    ensures |ls| == |texts|
  {
    seq(|texts|, i requires 0 <= i < |texts| => Join("\t", texts[i]))
  }

  /** The text of a plain cell is its text. */
  lemma PlainCellText(f: string)
    ensures SlotText(Some(PlainCell(f)), "full") == f
  {
    var c := PlainCell(f);
    FullTextIsText(c.paragraphs[0].runs);
    assert ParagraphTexts(c.paragraphs, "full") == [f];
  }

  /** A row of plain cells renders as its fields separated by tabs. */
  lemma GridRowText(fields: seq<string>)
    requires |fields| >= 1
    ensures RowText(GridRow(fields), "full") == Join("\t", fields)
  {
    var row := GridRow(fields);
    forall j | 0 <= j < |fields|
      ensures SlotTexts(row, "full")[j] == fields[j]
    {
      PlainCellText(fields[j]);
    }
    assert SlotTexts(row, "full") == fields;
  }

  /** A table of plain cells renders as its tab-separated lines. */
  lemma GridText(texts: seq<seq<string>>)
    requires forall i :: 0 <= i < |texts| ==> |texts[i]| >= 1
    ensures TableText(GridTable(texts), "full") == Join("\n", TsvLines(texts))
  {
    var rows := GridTable(texts).rows;
    forall i | 0 <= i < |texts|
      ensures RowTexts(rows, "full")[i] == TsvLines(texts)[i]
    {
      GridRowText(texts[i]);
    }
    assert RowTexts(rows, "full") == TsvLines(texts);
  }

  /** A line of clean fields is non-empty, stripped, one line, and free of `<`. */
  lemma TsvLineClean(fields: seq<string>)
    requires CleanFields(fields)
    ensures var line := Join("\t", fields);
      line != "" && !IsSpace(line[0]) && !IsSpace(line[|line| - 1])
      && Strip(line) == line && NoLineBreak(line) && '<' !in line
  {
    var line := Join("\t", fields);
    JoinFirst("\t", fields);
    JoinLast("\t", fields);
    StripUnchanged(line);
    JoinNoLineBreak("\t", fields);
    NoCharInJoin(fields, '\t', '<');
  }

  /** Splitting a line of clean fields at tabs gives back their plain cells. */
  lemma TsvRowParses(fields: seq<string>)
    requires CleanFields(fields)
    ensures DelimitedRow(Join("\t", fields), '\t') == GridRow(fields)
  {
    var line := Join("\t", fields);
    assert Split(line, '\t') == fields by {
      SplitOfJoin(fields, '\t');
    }
    var row := DelimitedRow(line, '\t');
    forall j | 0 <= j < |fields|
      ensures row[j] == GridRow(fields)[j]
    {
      assert row[j] == Some(PlainCell(Strip(fields[j])));
      assert Strip(fields[j]) == fields[j] by {
        StripUnchanged(fields[j]);
      }
    }
  }

  /** The first line holds a tab, so the tab is the detected delimiter. */
  lemma TsvDelimiter(fields: seq<string>)
    requires |fields| >= 2
    ensures DetectDelimiter(Join("\t", fields)) == '\t'
  {
    var line := Join("\t", fields);
    assert line == fields[0] + "\t" + Join("\t", fields[1..]);
    assert line[|fields[0]|] == '\t';
  }

  /** The tab-separated lines of a clean grid read back as its rows. */
  lemma TsvLinesParse(texts: seq<seq<string>>)
    requires CleanGrid(texts)
    ensures LinesTable(TsvLines(texts)) == GridTable(texts)
  {
    var ls := TsvLines(texts);
    TsvDelimiter(texts[0]);
    forall i | 0 <= i < |texts|
      ensures DelimitedRows(ls, '\t')[i] == GridTable(texts).rows[i]
    {
      TsvRowParses(texts[i]);
    }
  }

  /**
   * `to_text` then `from_html_or_text` gives a table of plain cells back: its
   * text is read as tab-separated lines, one row per line and one cell per
   * field.
   */
  lemma TextRoundTrip(texts: seq<seq<string>>, tokenize: Tokenizer)
    requires CleanGrid(texts)
    ensures ContentTable(TableText(GridTable(texts), "full"), tokenize) == Ok(GridTable(texts))
  {
    var ls := TsvLines(texts);
    var text := Join("\n", ls);
    GridText(texts);
    forall i | 0 <= i < |ls|
      ensures ls[i] != "" && Strip(ls[i]) == ls[i] && NoLineBreak(ls[i]) && '<' !in ls[i]
      ensures !IsSpace(ls[i][0]) && !IsSpace(ls[i][|ls[i]| - 1])
    {
      TsvLineClean(texts[i]);
    }
    JoinFirst("\n", ls);
    JoinLast("\n", ls);
    StripUnchanged(text);
    NoCharInJoin(ls, '\n', '<');
    NoTableTag(text);
    LinesOfJoin(ls);
    NonBlankKeeps(ls);
    TsvLinesParse(texts);
  }
}
