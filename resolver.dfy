/**
 * The structural resolver: a placeholder that asks for a table, applied to a
 * paragraph, replaces that paragraph by a table built from the replacement
 * text.
 */
module Resolver {
  import opened Wrappers
  import opened Text
  import opened Html
  import opened Placeholders
  import opened Paragraphs
  import opened Tables
  import opened TableBuild
  import opened Layouts

  /** `ElementReplacement`: the element to drop and the elements to put in its place. */
  datatype Replacement = Replacement(oldElementId: Option<string>, newElements: seq<Element>)

  /** Whether the resolver acts at all: a paragraph, a table request and a non-empty replacement. */
  predicate Structural(e: Element, ph: Placeholder) {
    e.ParagraphElement? && ph.futureElement == FutureTable && Truthy(ph.replacedText)
  }

  /** Every table `from_html_or_text` builds is fresh: no id, no parent, no caption. */
  lemma ContentTableUnlinked(content: string, tokenize: Tokenizer)
    ensures ContentTable(content, tokenize).Ok? ==>
      var t := ContentTable(content, tokenize).value;
      t.id == None && t.parentRefId == None && t.captionRefId == None
  {
    var c := Strip(content);
    if c != "" && !Contains(Lower(c), "<table") {
      var lines := NonBlank(Lines(c));
      assert DelimitedTable(c) == LinesTable(lines);
    }
  }

  /**
   * `resolve_structural_replacement`: nothing unless the element is a
   * paragraph, the placeholder asks for a table and carries replacement text;
   * then the paragraph's id is replaced by one new table that takes over the
   * paragraph's parent. Building the table can raise, and that propagates.
   */
  function ResolveReplacement(e: Element, ph: Placeholder, tokenize: Tokenizer): (r: Result<Option<Replacement>>)
    ensures !Structural(e, ph) ==> r == Ok(None)
    ensures Structural(e, ph) ==>
      (r.Err? <==> ContentTable(ph.replacedText.value, tokenize).Err?)
    ensures r.Ok? && r.value.Some? ==>
      && Structural(e, ph)
      && r.value.value.oldElementId == e.paragraph.id
      && |r.value.value.newElements| == 1
      && r.value.value.newElements[0].TableElement?
      && var t := r.value.value.newElements[0].table;
        && t.parentRefId == e.paragraph.parentRefId
        && t.id == None && t.captionRefId == None
        && t.rows == ContentTable(ph.replacedText.value, tokenize).value.rows
  {
    if !e.ParagraphElement? then Ok(None)
    else if ph.futureElement != FutureTable then Ok(None)
    else if !Truthy(ph.replacedText) then Ok(None)
    else
      ContentTableUnlinked(ph.replacedText.value, tokenize);
      match ContentTable(ph.replacedText.value, tokenize)
      case Err(x) => Err(x)
      case Ok(t) =>
        Ok(Some(Replacement(e.paragraph.id, [TableElement(t.(parentRefId := e.paragraph.parentRefId))])))
  }

  /**
   * A table written out as tab-separated text and handed back as a table
   * request comes back as a table of the same cells, in the paragraph's place.
   */
  lemma ResolveTsv(p: Paragraph, ph: Placeholder, texts: seq<seq<string>>, tokenize: Tokenizer)
    requires CleanGrid(texts)
    requires ph.futureElement == FutureTable
    requires ph.replacedText == Some(TableText(GridTable(texts), "full"))
    ensures var r := ResolveReplacement(ParagraphElement(p), ph, tokenize);
      && r.Ok? && r.value.Some?
      && r.value.value.oldElementId == p.id
      && r.value.value.newElements == [TableElement(GridTable(texts).(parentRefId := p.parentRefId))]
  {
    TextRoundTrip(texts, tokenize);
    var text := ph.replacedText.value;
    assert |ContentTable(text, tokenize).value.rows| == |texts| >= 1;
  }
}
