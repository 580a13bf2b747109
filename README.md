# TalkingDB document models in Dafny

This project models the in-memory document model of TalkingDB's `base-tdb-models`
package and proves properties of it. The package describes Word-like documents.

- A **document** holds a list of **layouts** (sections). Each layout has an optional
  **header** and **footer** band and a list of **elements**.
- An element is a **paragraph**, a **table** or an absent entry. An absent entry is
  what the loader makes of an unknown element type.
- A paragraph and a band hold **runs**: pieces of text with formatting attributes.
  The attributes are bold, italic, underline, font size, font name, font colour,
  subscript, superscript, text case, style entries, comment ids, comment text and
  the tracked-change mark.
- A table holds rows of optional **cells**. Each cell holds paragraphs and carries
  a row span and a column span.

What the model covers, module by module:

- `Text`, `Html`, `Wrappers`: string helpers with Python's meaning (`strip`,
  `split`, `int`, `html.escape`), the HTML token stream, and `Option`/`Result`.
- `Runs`, `RunHtml`, `RunEdits`, `EditProps`: the run text-range engine.
  - Slicing and splitting a run.
  - Attribute merging and the three text modes.
  - Run to HTML, and HTML back to runs with a stack of attribute sets.
  - The minimal cross-run search window.
  - `drop_text`, and `replace_text` with its `del`/`ins` tracked changes.
  - The text each edit preserves, removes and inserts.
- `Paragraphs`, `Tables`, `TableHtml`, `TableBuild`, `Layouts`, `Resolver`,
  `Placeholders`: the element models.
  - Hierarchical ids of the form `parent:kind::i`.
  - Style and intent classification.
  - Table shape and header/body split.
  - Span-aware table HTML.
  - The HTML table parser, and delimited-text tables.
  - Placeholder edits on paragraphs, cells and bands.
  - The structural paragraph-to-table resolver.
- `DocTree`, `ParagraphCache`, `Splices`, `Batch`, `HeadingStacks`, `Hierarchy`,
  `Sections`, `DocumentSpec`, `HeadingPaths`, `Outline`: the document's algorithms,
  as functions.
  - The element index and the paragraph order cache.
  - `build_hierarchy` with its heading stack.
  - Heading content and heading details.
  - The placeholder batch, with structural splices applied last.
  - Heading paths, and the outline (`build_index`).
- `Documents`: the `Document` class. It owns the layouts, the element index and the paragraph cache, and
  its methods are proved against those functions.
- `Update`: `apply_patch` on a mutable target dictionary, and the field plan of
  `create_update_model`.
- `Metadata`: the metadata record with its extra keys; `from_json`, `ensure_metadata`,
  `extend_metadata` and the core/extra split.

Some external facilities become parameters:

- the HTML tokenizer of `html.parser` (`Html.Tokenizer`);
- the fuzzy style-name match of `difflib` (`Paragraphs.Matcher`);
- `json.loads` (the `parse` parameter of `Metadata`);
- the attributes a class defines for `getattr` (`members`).

Python object references held by the caches become locations in the layouts. A
paragraph whose element has been spliced out is kept as a detached snapshot, which is
what a Python reference to it would still see.

## Model

| member | source | states |
|---|---|---|
| Text.FindSpec | talkingdb/models/document/elements/base/base.py:212-213 | `str.find` reports the first occurrence of the pattern, and reports none exactly when the pattern does not occur |
| Text.StripEnds | talkingdb/models/document/elements/primitive/table.py:38 | a stripped string neither starts nor ends with whitespace |
| Text.StripEmptyIffBlank | talkingdb/models/document/elements/primitive/table.py:378 | a line strips to nothing exactly when every character is whitespace, which is what the `if l.strip()` filter drops |
| Text.LStripDropsSpace | talkingdb/models/document/elements/primitive/table.py:338 | `lstrip` removes only a whitespace prefix and keeps the rest unchanged |
| Text.RStripDropsSpace | talkingdb/models/document/elements/primitive/table.py:338 | `rstrip` removes only a whitespace suffix and keeps the rest unchanged |
| Text.SplitJoin | talkingdb/models/document/elements/primitive/table.py:387 | joining the fields of `split(d)` with `d` gives the line back, so splitting loses no character |
| Text.SplitWhitespaceWords | talkingdb/models/document/elements/base/base.py:339 | every class name that `split()` yields is a non-empty word without whitespace |
| Text.ParseIntOfInt | talkingdb/models/document/elements/primitive/table.py:27-28 | `int(str(i)) == i` for every integer, so a span written by `to_html` is read back |
| Text.ParseInt | talkingdb/models/document/elements/primitive/table.py:27-28 | `int(s)` succeeds only on a string that is not blank; anything else raises ValueError |
| Text.EscapeHasNoMarkup | talkingdb/models/document/elements/base/base.py:78 | escaped run text contains no `<`, `>` or `"`, so it cannot open a tag or close an attribute |
| Text.EscapeRoundTrip | talkingdb/models/document/elements/base/base.py:78 | decoding the five character references gives back exactly the text that was escaped |
| Runs.MakeIdRoundTrip | talkingdb/models/document/elements/base/base.py:11-12 | an id made by `make_id` reads back as the parent id, the kind and the index it was made from |
| Runs.MakeIdInjective | talkingdb/models/document/elements/base/base.py:11-12 | two ids made from different parents, kinds or indices differ |
| Runs.AssignRunId | talkingdb/models/document/elements/base/base.py:50-51 | assigning an id keeps the run's text and attributes and gives it the id `parent:run::index` |
| Runs.RunIdParses | talkingdb/models/document/elements/base/base.py:50-51 | a run's assigned id names its paragraph and its position among the runs |
| Runs.ToText | talkingdb/models/document/elements/base/base.py:53-69 | "drop" removes the text of a subscript or superscript run; any mode other than "wrap" and "drop" gives the plain text; "wrap" gives the text inside `<sub>` for a subscript run, else inside `<sup>` for a superscript run, else the text itself |
| Runs.ZeroSizeNotWritten | talkingdb/models/document/elements/base/base.py:86-87 | a zero font size, like an absent one, writes no `font-size` declaration |
| Runs.ToHtmlLayout | talkingdb/models/document/elements/base/base.py:71-143 | an empty run renders as nothing; otherwise as one span with the style and HTML attributes, around the escaped text inside strong, em, sub and sup, outermost first |
| Runs.FirstColorStyle | talkingdb/models/document/elements/base/base.py:153-157 | the first style entry of the form `color:` plus six hex digits, and none only when no entry has that form |
| Runs.GetColor | talkingdb/models/document/elements/base/base.py:145-159 | a set font colour wins, upper-cased; otherwise the hex digits of the first colour style entry, upper-cased; a colour is found only when one of the two exists |
| Runs.FromText | talkingdb/models/document/elements/base/base.py:161-163 | the run holds exactly the given text, with no formatting and no id |
| Runs.SliceRun | talkingdb/models/document/elements/base/base.py:171-179 | a slice exists exactly when the range is non-empty and inside the text; it holds that substring and the same attributes, without an id |
| Runs.SplitRunText | talkingdb/models/document/elements/base/base.py:181-188 | the parts before, between and after the bounds give back the run's whole text |
| Runs.Clear | talkingdb/models/document/elements/base/base.py:200-201 | `setattr(base, field, None)` unsets that one field and leaves every other field as it was |
| Runs.MergeRun | talkingdb/models/document/elements/base/base.py:198-201 | after comparing with the next run, a field keeps its value when both agree and is unset otherwise |
| Runs.MergeAttributes | talkingdb/models/document/elements/base/base.py:190-203 | no runs give empty attributes; otherwise each field keeps the first run's value exactly when every run has that value, and is unset otherwise |
| Runs.MergeOfUniform | talkingdb/models/document/elements/base/base.py:190-203 | merging runs that all share their attributes gives those attributes back |
| Html.AttrLookupLast | talkingdb/models/document/elements/base/base.py:337 | `dict(attrs)[key]` finds a value exactly when the attribute occurs, and it is the value of its last occurrence |
| RunHtml.CaseFromCss | talkingdb/models/document/elements/base/base.py:360-379 | `text-transform: uppercase` maps to the "upper" case, `capitalize` to "capitalize", any other value unsets the case |
| RunHtml.ApplyDeclaration | talkingdb/models/document/elements/base/base.py:360-379 | a declaration without a colon changes nothing; no declaration touches bold, italic, subscript, superscript, classes, comments or tracked changes; underline can only be switched on |
| RunHtml.ParseStyle | talkingdb/models/document/elements/base/base.py:360-379 | the loop applies the `;`-separated declarations in order, leaving the tag-driven flags and the classes alone |
| RunHtml.Opened | talkingdb/models/document/elements/base/base.py:324-343 | strong, em, sub and sup copy the parent's attributes and set bold, italic, subscript or superscript; any tag other than these and span copies the parent unchanged |
| RunHtml.RunHtmlParser.constructor | talkingdb/models/document/elements/base/base.py:319-322 | a new parser has no runs and only the empty attributes on its stack |
| RunHtml.RunHtmlParser.HandleStartTag | talkingdb/models/document/elements/base/base.py:324-343 | pushes the attributes opened below the current top; the runs are unchanged |
| RunHtml.RunHtmlParser.HandleEndTag | talkingdb/models/document/elements/base/base.py:345-347 | pops the stack unless only the base entry is left; the runs are unchanged |
| RunHtml.RunHtmlParser.HandleData | talkingdb/models/document/elements/base/base.py:349-358 | non-empty data becomes a new run carrying the top attributes; empty data adds nothing |
| RunHtml.RunHtmlParser.Feed | talkingdb/models/document/elements/base/base.py:165-169 | feeding the markup hands every event to its handler in order |
| RunHtml.FromHtml | talkingdb/models/document/elements/base/base.py:165-169 | the runs read from markup hold exactly its character data, in order, each non-empty and without an id |
| RunHtml.ParseRunsText | talkingdb/models/document/elements/base/base.py:165-169 | the text of the parsed runs is the concatenated character data of the markup |
| RunHtml.ParseRunsShape | talkingdb/models/document/elements/base/base.py:349-358 | every parsed run is non-empty and has no id yet |
| RunHtml.OpenedKeepsFlags | talkingdb/models/document/elements/base/base.py:324-343 | an opened element keeps every formatting flag its parent had |
| RunHtml.DeclarationsKeepFlags | talkingdb/models/document/elements/base/base.py:360-379 | style declarations never clear bold, italic, subscript or superscript |
| RunHtml.ParsedRunsNest | talkingdb/models/document/elements/base/base.py:319-358 | formatting nests: along the stack, each entry carries every flag of the entries below it, so a run inherits the flags of every element it sits in |
| RunEdits.SearchFrom | talkingdb/models/document/elements/base/base.py:205-223 | a window found from a given width and start lies inside the runs and spans exactly the text's length |
| RunEdits.SearchFromFound | talkingdb/models/document/elements/base/base.py:205-223 | the window found holds the text, is at least as wide as the width the search reached, and starts no earlier than the current start at that width |
| RunEdits.SearchFromMinimal | talkingdb/models/document/elements/base/base.py:205-223 | no window the search passed over, narrower or further left, holds the text |
| RunEdits.RunWindowSpec | talkingdb/models/document/elements/base/base.py:205-223 | the window reported holds the text at its first occurrence, is the narrowest that does, and is the leftmost of that width; none is reported only when no window holds the text |
| RunEdits.RunWindowShape | talkingdb/models/document/elements/base/base.py:205-223 | the window's merged text is the joined text of its runs, and it holds the text between the reported character bounds |
| RunEdits.FindRunWindow | talkingdb/models/document/elements/base/base.py:205-223 | the nested loops over widths and starts report exactly the window of the specification |
| RunEdits.WindowExistsIff | talkingdb/models/document/elements/base/base.py:205-223 | a window exists exactly when there are runs and their joined text contains the text |
| RunEdits.WindowNotShorter | talkingdb/models/document/elements/base/base.py:205-223 | neither the window without its first run nor the window without its last run holds the text |
| RunEdits.WindowBounds | talkingdb/models/document/elements/base/base.py:205-223 | the match starts inside the window's first run and ends inside its last run |
| RunEdits.MarkInserted | talkingdb/models/document/elements/base/base.py:302-309 | every inserted run keeps its text and id and is marked "ins"; only the first takes the comment, when one is given; nothing else changes |
| RunEdits.DropText | talkingdb/models/document/elements/base/base.py:225-257 | the loop removes the located text as the specification function does |
| RunEdits.MarkInsertions | talkingdb/models/document/elements/base/base.py:302-309 | the insertion loop marks the runs as the specification function does |
| RunEdits.CutWindow | talkingdb/models/document/elements/base/base.py:280-297 | the cutting loop gives each window run's parts before, inside and after the match, in order |
| RunEdits.ReplaceText | talkingdb/models/document/elements/base/base.py:259-315 | the runs read from the replacement markup are inserted, marked, after the located text kept as a deletion |
| EditProps.CutText | talkingdb/models/document/elements/base/base.py:280-297 | the three parts of a cut run hold its text before, inside and after the match |
| EditProps.CutAttrs | talkingdb/models/document/elements/base/base.py:280-297 | every part cut from a run keeps that run's attributes |
| EditProps.BeforePartsText | talkingdb/models/document/elements/base/base.py:280-297 | the parts before the match hold exactly the window text before the match |
| EditProps.AfterPartsText | talkingdb/models/document/elements/base/base.py:280-297 | the parts after the match hold exactly the window text after the match |
| EditProps.DeletedPartsText | talkingdb/models/document/elements/base/base.py:280-297 | the parts inside the match hold exactly the matched text |
| EditProps.KeptPartsText | talkingdb/models/document/elements/base/base.py:236-255 | what `drop_text` keeps of the window is its text on both sides of the match |
| EditProps.WindowCleanCut | talkingdb/models/document/elements/base/base.py:205-223 | the located window is cut cleanly: the match starts in its first run and no run starts after the match ends |
| EditProps.MatchSplits | talkingdb/models/document/elements/base/base.py:205-257 | the paragraph's text is the text before the match, the match, and the text after it, each as cut from the window |
| EditProps.DroppedText | talkingdb/models/document/elements/base/base.py:225-257 | `drop_text` removes exactly one occurrence of the text, the one in the narrowest leftmost window, and nothing else; without a window the runs are unchanged |
| EditProps.MarkInsertedText | talkingdb/models/document/elements/base/base.py:302-309 | marking an insertion changes no text |
| EditProps.ReplacedText | talkingdb/models/document/elements/base/base.py:259-315 | `replace_text` keeps the paragraph's text up to and including the match, then the inserted text, then the rest; without a window the runs are unchanged |
| EditProps.ReplaceTextFromHtml | talkingdb/models/document/elements/base/base.py:259-315 | with the insertion read from markup, the inserted text is the markup's character data |
| EditProps.WithoutUnmarked | talkingdb/models/document/elements/base/base.py:259-315 | taking out a tracked-change mark that no run carries changes nothing |
| EditProps.WithoutMarked | talkingdb/models/document/elements/base/base.py:259-315 | taking out a mark that every run carries leaves nothing |
| EditProps.DeletedPartsMarked | talkingdb/models/document/elements/base/base.py:288-295 | every part inside the match is marked as a deletion |
| EditProps.BeforePartsUnmarked | talkingdb/models/document/elements/base/base.py:280-297 | the parts before the match keep their runs' tracked-change mark |
| EditProps.AfterPartsUnmarked | talkingdb/models/document/elements/base/base.py:280-297 | the parts after the match keep their runs' tracked-change mark |
| EditProps.ReplacedMarks | talkingdb/models/document/elements/base/base.py:259-315 | in runs that carry no mark of their own, only the deleted parts are marked "del" and only the inserted runs are marked "ins" |
| EditProps.RejectRuns | talkingdb/models/document/elements/base/base.py:259-315 | rejecting the tracked changes drops exactly the inserted runs and keeps all the others, in order |
| EditProps.AcceptRuns | talkingdb/models/document/elements/base/base.py:259-315 | accepting the tracked changes drops exactly the deleted runs and keeps all the others, in order |
| EditProps.RejectText | talkingdb/models/document/elements/base/base.py:259-315 | rejecting what `replace_text` tracked gives back the paragraph's original text |
| EditProps.AcceptText | talkingdb/models/document/elements/base/base.py:259-315 | accepting what `replace_text` tracked gives the original text with the inserted text in place of the match |
| Paragraphs.BuildCommentText | talkingdb/models/document/elements/primitive/paragraph.py:10-29 | the loop collecting source lines gives the comment that the specification function describes |
| Paragraphs.SourceLinesEmpty | talkingdb/models/document/elements/primitive/paragraph.py:19-25 | there are no source lines exactly when no match is referenced |
| Paragraphs.SourceLinesShape | talkingdb/models/document/elements/primitive/paragraph.py:19-25 | at most one source line per match, and each starts with `- ` |
| Paragraphs.CommentTextSpec | talkingdb/models/document/elements/primitive/paragraph.py:10-29 | no comment without references, nor when there is neither a comment nor a referenced match; otherwise the text starts with the comment, or with the `Sources:` block when there is no comment |
| Paragraphs.SkipSpaces | talkingdb/models/document/elements/primitive/paragraph.py:82-87 | the first position at or after the start that is not whitespace, with only whitespace passed over |
| Paragraphs.DigitsEnd | talkingdb/models/document/elements/primitive/paragraph.py:82-87 | the end of the maximal run of digits from the start |
| Paragraphs.SearchHeading | talkingdb/models/document/elements/primitive/paragraph.py:82-87 | what the pattern `heading\s*(\d+)` captures is a non-empty string of digits |
| Paragraphs.HeadingLevel | talkingdb/models/document/elements/primitive/paragraph.py:82-87 | an extracted heading level is never negative |
| Paragraphs.HeadingLevelOfNumeral | talkingdb/models/document/elements/primitive/paragraph.py:82-87 | `heading`, any whitespace and a numeral give that number as the level |
| Paragraphs.ClassifyStyle | talkingdb/models/document/elements/primitive/paragraph.py:71-98 | an empty name classifies as nothing; a caption has no level; a level comes only with a heading; the kind is "caption", "heading" or nothing |
| Paragraphs.CaptionWins | talkingdb/models/document/elements/primitive/paragraph.py:91-96 | a name that matches "caption" is a caption, whatever else it matches |
| Paragraphs.ParagraphFromText | talkingdb/models/document/elements/primitive/paragraph.py:254-259 | the new paragraph's text is exactly the given text, with no id and no style |
| Paragraphs.FullTextIsText | talkingdb/models/document/elements/primitive/paragraph.py:139-140 | in the "full" mode the paragraph's text is the joined text of its runs |
| Paragraphs.InnerHtmlEmpty | talkingdb/models/document/elements/primitive/paragraph.py:182-184 | the runs render to nothing exactly when none of them has text |
| Paragraphs.ParagraphHtmlBlank | talkingdb/models/document/elements/primitive/paragraph.py:142-188 | a paragraph renders as a non-breaking space exactly when none of its runs has text |
| Paragraphs.RunRgbs | talkingdb/models/document/elements/primitive/paragraph.py:204-212 | one colour entry per run |
| Paragraphs.ScanStopped | talkingdb/models/document/elements/primitive/paragraph.py:204-212 | once the scan has stopped on a run without a usable colour, or on an error, the runs after it change nothing |
| Paragraphs.ClassifyIntent | talkingdb/models/document/elements/primitive/paragraph.py:190-230 | the loop that collects colours and then compares them gives what the specification function gives, exceptions included |
| Paragraphs.ReferencesApart | talkingdb/models/document/elements/primitive/paragraph.py:200-228 | no colour is near both references, so checking "instruction" before "example" decides nothing |
| Paragraphs.IntentMeaning | talkingdb/models/document/elements/primitive/paragraph.py:190-230 | an intent is found only when every run has a six-digit colour, all within 10 of the first, and the first is within 60 of the matching reference; a paragraph without runs has no intent |
| Paragraphs.RunIds | talkingdb/models/document/elements/primitive/paragraph.py:133-137 | one run out for every run in |
| Paragraphs.AssignParagraphIds | talkingdb/models/document/elements/primitive/paragraph.py:133-137 | the loop gives the paragraph its id under the parent, then numbers each run below it |
| Paragraphs.RunIdsKeepText | talkingdb/models/document/elements/primitive/paragraph.py:133-137 | assigning run ids keeps the paragraph's text |
| Paragraphs.RunIdsDistinct | talkingdb/models/document/elements/primitive/paragraph.py:133-137 | the runs of one paragraph get pairwise different ids |
| Paragraphs.ParagraphIdsStable | talkingdb/models/document/elements/primitive/paragraph.py:133-140 | ids change the text in no mode, and assigning them again changes nothing |
| Paragraphs.ApplyInlinePlaceholder | talkingdb/models/document/elements/primitive/paragraph.py:232-252 | it applies exactly when there is replacement text and the paragraph holds the placeholder's text; the runs then become the tracked replacement with the built comment; otherwise nothing changes |
| Paragraphs.ApplyDeletedPlaceholder | talkingdb/models/document/elements/primitive/paragraph.py:261-274 | it applies exactly when the paragraph holds the text, which is then dropped from the runs; otherwise nothing changes |
| Paragraphs.HeldTextHasWindow | talkingdb/models/document/elements/primitive/paragraph.py:232-274 | when a paragraph holds a non-empty text, some window of its runs holds it, so the edit takes place |
| Tables.PlainCell | talkingdb/models/document/elements/primitive/table.py:389-397 | a cell built from text holds one paragraph with that text, spans one row and one column, and has no id |
| Tables.PyIndex | talkingdb/models/document/elements/primitive/table.py:304-334 | Python indexing: a value exactly when the index lies in range, negative indices counting from the end |
| Tables.CellIdLayout | talkingdb/models/document/elements/primitive/table.py:65-69 | a cell's id spells out the parent, the row and the column |
| Tables.CellIdInjective | talkingdb/models/document/elements/primitive/table.py:65-69 | two cells below one parent get the same id only at the same position |
| Tables.AssignCellIds | talkingdb/models/document/elements/primitive/table.py:65-69 | the loop gives the cell its id, then numbers each paragraph below it |
| Tables.CellElementOpens | talkingdb/models/document/elements/primitive/table.py:76-94 | a rendered cell opens with its `td` or `th` tag |
| Tables.SpanAttrsSpec | talkingdb/models/document/elements/primitive/table.py:79-85 | spans of 1 or less write no attribute, and a span above 1 always writes one |
| Tables.ParagraphsHtmlEmpty | talkingdb/models/document/elements/primitive/table.py:87-91 | every paragraph renders to something, so only a cell without paragraphs renders as `&nbsp;` |
| Tables.FirstHolding | talkingdb/models/document/elements/primitive/table.py:96-120 | the first paragraph whose text holds the placeholder's text, and none only when no paragraph holds it |
| Tables.ApplyCellPlaceholder | talkingdb/models/document/elements/primitive/table.py:96-111 | applies exactly when there is replacement text and some paragraph holds the text; then the first such paragraph gets the tracked replacement; otherwise nothing changes |
| Tables.ApplyCellDeleted | talkingdb/models/document/elements/primitive/table.py:113-120 | applies exactly when some paragraph holds the text; then the first such paragraph has it dropped; otherwise nothing changes |
| Tables.RowWithIds | talkingdb/models/document/elements/primitive/table.py:144-150 | assigning ids keeps the number of slots in a row |
| Tables.AssignTableIds | talkingdb/models/document/elements/primitive/table.py:144-150 | the loops give the table its id, then each non-empty slot its id from its row and column; empty slots stay empty |
| Tables.TableCellIdsDistinct | talkingdb/models/document/elements/primitive/table.py:144-150 | cells at different positions of one table get different ids |
| Tables.TableIdsStable | talkingdb/models/document/elements/primitive/table.py:144-150 | assigning the same ids to a table again changes nothing |
| Tables.TableToText | talkingdb/models/document/elements/primitive/table.py:172-189 | the loop builds each row's tab-separated line and joins the lines with newlines |
| Tables.SplitOfJoin | talkingdb/models/document/elements/primitive/table.py:186-189 | splitting a join on a separator that no part holds gives the parts back |
| Tables.TableTextSplits | talkingdb/models/document/elements/primitive/table.py:172-189 | when no slot's text holds a tab or a newline and no row is empty, the text splits back into the slots' texts: lines on newlines, slots on tabs |
| Tables.ColCount | talkingdb/models/document/elements/primitive/table.py:152-153 | raises exactly when the table has no rows |
| Tables.GetType | talkingdb/models/document/elements/primitive/table.py:161-170 | raises exactly when the table has no rows |
| Tables.PlainGridKind | talkingdb/models/document/elements/primitive/table.py:161-170 | for a first row of plain cells: one column is a layout table, none or two a key/value table, three or more unknown |
| Tables.MaxRowspanSpec | talkingdb/models/document/elements/primitive/table.py:271-302 | the header depth is the largest rowspan of the first row's cells, and 1 when it has none |
| Tables.Column | talkingdb/models/document/elements/primitive/table.py:271-302 | a column exists exactly when every row is long enough, and then holds each row's slot at that column |
| Tables.GetRows | talkingdb/models/document/elements/primitive/table.py:271-302 | the loop gathering the key/value columns gives what the specification function gives, errors included |
| Tables.HeaderBodySplit | talkingdb/models/document/elements/primitive/table.py:271-302 | outside key/value tables, header followed by body is the whole table, the header has the largest rowspan's number of rows, "all" is every row and any other mode is empty |
| Tables.KeyvalueSplit | talkingdb/models/document/elements/primitive/table.py:271-302 | a key/value table's header is one row of every row's first slot and its body one row of every row's second slot; it raises exactly when some row has fewer than two slots |
| Tables.GetColHeader | talkingdb/models/document/elements/primitive/table.py:304-319 | the loop collects the header texts as the specification function does |
| Tables.ColumnTextsSpec | talkingdb/models/document/elements/primitive/table.py:304-319 | when every header row holds a cell at the column, the texts are exactly those cells' texts, in order |
| Tables.ColHeaderSpec | talkingdb/models/document/elements/primitive/table.py:304-319 | for a column present in every header row, the column header is exactly the set of that column's cell texts over the header rows |
| Tables.RowHeader | talkingdb/models/document/elements/primitive/table.py:321-329 | a row header has at most one entry |
| Tables.RowHeaderSpec | talkingdb/models/document/elements/primitive/table.py:321-329 | a row's header is its first cell's text; a row past the end has none; a negative row counts from the end and one below that raises IndexError |
| Tables.GetHeader | talkingdb/models/document/elements/primitive/table.py:331-334 | a key/value table answers with the row header, any other with the column header |
| TableHtml.CellElementOpensWithTag | talkingdb/models/document/elements/primitive/table.py:250-263 | every cell element the renderer writes opens with its `td` or `th` tag |
| TableHtml.SlotStepAsWritten | talkingdb/models/document/elements/primitive/table.py:232-265 | the slot step exactly as written: a rendered cell records rows `0 .. rowspan - 1` in the tracker, counted from the first rendered row, and a slot is covered when its row index falls in that range; every other case steps as the anchored `SlotStep` does |
| TableHtml.RenderRows | talkingdb/models/document/elements/primitive/table.py:224-267 | one list of cells per selected row, each row stepped slot by slot as written, the tracker carried from row to row |
| TableHtml.RenderTable | talkingdb/models/document/elements/primitive/table.py:191-269 | the selection by mode, then the loops over rows and slots, give what the specification function gives, errors included |
| TableHtml.RenderRowMarkups | talkingdb/models/document/elements/primitive/table.py:224-267 | the outer loop renders each selected row in order, carrying the tracker from row to row |
| TableHtml.RenderRow | talkingdb/models/document/elements/primitive/table.py:228-265 | the inner loop's cells and tracker are those of the as-written slot steps over the row, a rendered cell recording `range(rowspan)` |
| TableHtml.RowStepsTagged | talkingdb/models/document/elements/primitive/table.py:232-263 | a row adds at most one cell per slot, keeps the cells before it, and every cell it adds is a `th` element in a header row and a `td` element otherwise |
| TableHtml.RenderRowsTagged | talkingdb/models/document/elements/primitive/table.py:224-267 | each selected row renders at most one cell per slot, and its cells are `th` elements exactly in the header rows |
| TableHtml.PlainRowSteps | talkingdb/models/document/elements/primitive/table.py:232-265 | in a row of plain cells every slot renders, in order, and no span reaches the next row |
| TableHtml.PlainGridRendersAll | talkingdb/models/document/elements/primitive/table.py:224-267 | a table of plain cells renders every slot as its own cell, in every row |
| TableHtml.OpenedSpanAsWritten | talkingdb/models/document/elements/primitive/table.py:236-248 | as written, a cell rendered in any row covers exactly the rows `0 .. rowspan - 1` of the selection |
| TableHtml.OpenedSpanCovers | talkingdb/models/document/elements/primitive/table.py:247-248 | with the span anchored at the cell's own row, a rendered cell covers exactly the rows from its own to `rowspan - 1` below it |
| TableHtml.CoveredSlotRendered | talkingdb/models/document/elements/primitive/table.py:236-248 | a cell with rowspan 2 in row 1 and the empty slot it covers in row 2: as written the covered slot renders an extra `&nbsp;` cell; with the anchored span it renders nothing |
| TableHtml.CoveredSlotInTable | talkingdb/models/document/elements/primitive/table.py:224-267 | a whole rendering of a one-column selection whose row 1 holds a cell spanning two rows and whose row 2 holds an empty slot renders row 2 as one `&nbsp;` cell |
| TableHtml.ColspanSkips | talkingdb/models/document/elements/primitive/table.py:233-235 | a rendered cell with colspan k makes the next k - 1 slots of its row render nothing |
| TableHtml.EmptyTableCases | talkingdb/models/document/elements/primitive/table.py:200-222 | an empty table renders as `<table></table>`, as do an unknown mode and a row outside the body in the row modes; "full" renders every row with the header rows as `th` |
| TableBuild.TableParser.constructor | talkingdb/models/document/elements/primitive/table.py:11-16 | a new parser holds no rows, no open row or cell and an empty buffer |
| TableBuild.TableParser.HandleStartTag | talkingdb/models/document/elements/primitive/table.py:18-30 | `tr` opens a row; `td`/`th` opens a cell with its spans; a span that is not an integer raises ValueError and leaves the state as it was |
| TableBuild.TableParser.HandleData | talkingdb/models/document/elements/primitive/table.py:32-34 | text inside an open cell is added to the buffer; other text is ignored |
| TableBuild.TableParser.HandleEndTag | talkingdb/models/document/elements/primitive/table.py:36-45 | closing a cell appends it, with the buffer stripped, to the open row; with no row open it raises AttributeError after the cell has received its text; closing a row appends it to the finished rows |
| TableBuild.TableParser.HandleToken | talkingdb/models/document/elements/primitive/table.py:11-45 | each event goes to its handler |
| TableBuild.TableParser.Feed | talkingdb/models/document/elements/primitive/table.py:352-353 | the events in order; the feed raises exactly when the specification's feed raises, with the same error |
| TableBuild.FeedStopped | talkingdb/models/document/elements/primitive/table.py:352-353 | once an event raises, the whole feed raises that error |
| TableBuild.FeedAppend | talkingdb/models/document/elements/primitive/table.py:352-353 | feeding two event lists one after the other is feeding their concatenation |
| TableBuild.StripIdempotent | talkingdb/models/document/elements/primitive/table.py:38 | stripping a stripped text changes nothing |
| TableBuild.FeedKeepsStripped | talkingdb/models/document/elements/primitive/table.py:11-45 | whatever the events, every cell the parser collects holds stripped text |
| TableBuild.CellAttrsParse | talkingdb/models/document/elements/primitive/table.py:27-28 | the span attributes written for a cell parse back to its spans |
| TableBuild.CellRoundTrip | talkingdb/models/document/elements/primitive/table.py:18-45 | a cell's events append it, unchanged, to the open row |
| TableBuild.CellsRoundTrip | talkingdb/models/document/elements/primitive/table.py:18-45 | a row's cell events append the cells, in order, to the open row |
| TableBuild.RowRoundTrip | talkingdb/models/document/elements/primitive/table.py:18-45 | a row's events append the row to the finished rows |
| TableBuild.RowsRoundTrip | talkingdb/models/document/elements/primitive/table.py:18-45 | the rows' events append them, in order, to the finished rows |
| TableBuild.HtmlRoundTrip | talkingdb/models/document/elements/primitive/table.py:350-374 | parsing the events of a table whose cells hold stripped text gives back its rows, texts and spans |
| TableBuild.CellOutsideRowRaises | talkingdb/models/document/elements/primitive/table.py:36-45 | a cell closed outside any row raises AttributeError |
| TableBuild.BadSpanRaises | talkingdb/models/document/elements/primitive/table.py:27-28 | a span attribute that is not an integer raises ValueError when its cell opens |
| TableBuild.RowsOf | talkingdb/models/document/elements/primitive/table.py:355-372 | one row out per parsed row, one cell per parsed cell |
| TableBuild.FromHtml | talkingdb/models/document/elements/primitive/table.py:350-374 | the parser is fed, then its rows are converted cell by cell, as the specification function says, errors included |
| TableBuild.Lines | talkingdb/models/document/elements/primitive/table.py:378 | the line pieces between line breaks; there is always at least one |
| TableBuild.DelimitedRow | talkingdb/models/document/elements/primitive/table.py:387-397 | one cell per field of the line split at the delimiter |
| TableBuild.FromDelimitedText | talkingdb/models/document/elements/primitive/table.py:376-401 | the non-blank stripped lines become the rows, split at the delimiter detected on the first line |
| TableBuild.TableOfLines | talkingdb/models/document/elements/primitive/table.py:386-399 | the loop over the lines gives the table of the specification |
| TableBuild.FieldsRow | talkingdb/models/document/elements/primitive/table.py:387-397 | the inner loop makes one plain cell per stripped field |
| TableBuild.FromHtmlOrText | talkingdb/models/document/elements/primitive/table.py:336-348 | blank content gives an empty table; content holding `<table` in any case is read as HTML; anything else as delimited text |
| TableBuild.LinesOfJoin | talkingdb/models/document/elements/primitive/table.py:378 | splitting lines joined by newlines gives the lines back |
| TableBuild.NonBlankKeeps | talkingdb/models/document/elements/primitive/table.py:378 | non-empty, stripped lines all survive the blank-line filter |
| TableBuild.NoTableTag | talkingdb/models/document/elements/primitive/table.py:344 | text without `<` is never read as HTML |
| TableBuild.TsvRowParses | talkingdb/models/document/elements/primitive/table.py:387-397 | splitting a line of clean fields at tabs gives back their plain cells |
| TableBuild.TsvDelimiter | talkingdb/models/document/elements/primitive/table.py:403-409 | a line holding a tab has the tab detected as its delimiter |
| TableBuild.TsvLinesParse | talkingdb/models/document/elements/primitive/table.py:376-401 | the tab-separated lines of a clean grid read back as its rows |
| TableBuild.GridText | talkingdb/models/document/elements/primitive/table.py:172-189 | a table of plain cells renders as its tab-separated lines |
| TableBuild.TextRoundTrip | talkingdb/models/document/elements/primitive/table.py:172-189 | `to_text` followed by `from_html_or_text` gives a table of plain cells back: one row per line and one cell per field |
| Layouts.AssignBandIds | talkingdb/models/document/layouts/layout.py:26-29 | the loop gives the header or footer its id, then numbers each run below it |
| Layouts.BandIdsSpec | talkingdb/models/document/layouts/layout.py:26-29 | a band's id reads back as its parent, kind and index; each run's id reads back as the band's id, "run" and its position; the text is kept |
| Layouts.BandHtmlBlank | talkingdb/models/document/layouts/layout.py:34-42 | a band renders as a bare non-breaking space exactly when none of its runs has text |
| Layouts.ApplyBandInline | talkingdb/models/document/layouts/layout.py:44-60 | applies exactly when there is replacement text and the band's text holds the placeholder's text; the runs then become the tracked replacement; otherwise nothing changes |
| Layouts.ApplyBandDeleted | talkingdb/models/document/layouts/layout.py:62-71 | applies exactly when the band holds the text, which is then dropped from the runs; otherwise nothing changes |
| Layouts.ElementsOf | talkingdb/models/document/layouts/layout.py:153-158 | every element entry yields one element, in order, typed by its type name; only an entry of unknown type yields an absent element |
| Layouts.ElementsWithIds | talkingdb/models/document/layouts/layout.py:176-177 | assigning ids keeps the number of elements |
| Layouts.PresentPrefix | talkingdb/models/document/layouts/layout.py:176-177 | the number of elements before the first absent one |
| Layouts.AssignLayoutIds | talkingdb/models/document/layouts/layout.py:167-177 | the layout, header, footer and present elements get their ids; the call raises AttributeError exactly when an absent element is reached |
| Layouts.AssignElementIds | talkingdb/models/document/layouts/layout.py:176-177 | the element loop numbers the elements by position up to the first absent one and raises AttributeError exactly when there is one |
| Layouts.AssignElementId | talkingdb/models/document/layouts/layout.py:177 | a paragraph or a table gets its id by position below the layout |
| Layouts.LayoutIdParses | talkingdb/models/document/layouts/layout.py:167-168 | the layout's id reads back as its parent, "layout" and its index |
| Layouts.LayoutBandIds | talkingdb/models/document/layouts/layout.py:170-174 | header and footer ids read back with index 0 below the layout's id |
| Layouts.LayoutElementIds | talkingdb/models/document/layouts/layout.py:176-177 | the element count never changes; with no absent element, each element's id reads back as the layout's id, its kind and its position |
| Layouts.ElementIdParses | talkingdb/models/document/layouts/layout.py:176-177 | a present element's id reads back as its parent, its kind and its position |
| Layouts.LayoutIdsIdempotent | talkingdb/models/document/layouts/layout.py:167-177 | assigning the same ids twice gives what assigning them once gives |
| Layouts.BandIdParses | talkingdb/models/document/layouts/layout.py:88-91 | a footer's (or header's) id, assigned at index 0, reads back as its parent, its kind and 0 |
| Resolver.ContentTableUnlinked | talkingdb/models/document/resolver.py:8-28 | every table built from replacement content is fresh: no id, no parent and no caption |
| Resolver.ResolveReplacement | talkingdb/models/document/resolver.py:8-28 | nothing unless the element is a paragraph and the placeholder asks for a table with replacement text; then it raises exactly when building the table raises, and otherwise the paragraph's id is replaced by one new table with the paragraph's parent and the built rows |
| Resolver.ResolveTsv | talkingdb/models/document/resolver.py:8-28 | a table written out as tab-separated text and sent back as a table request comes back as a table of the same cells, in the paragraph's place |
| DocTree.RunEntries | talkingdb/models/document/document.py:124-130 | one index entry per run |
| DocTree.IndexedAppend | talkingdb/models/document/document.py:95-97 | indexing two lists of entries one after the other is indexing their concatenation |
| DocTree.IndexedSpec | talkingdb/models/document/document.py:95-97 | indexing keeps every truthy id it meets; each key maps to a location met with that id, or keeps what was there; the last entry with an id wins |
| DocTree.DocEntriesSound | talkingdb/models/document/document.py:99-130 | every entry the traversal meets names the node at its location, with that node's id |
| DocTree.ParagraphPlaces | talkingdb/models/document/document.py:99-130 | only top-level and cell paragraphs are paragraphs of the tree |
| DocTree.Coverage | talkingdb/models/document/document.py:99-130 | every node of the tree, whether a layout, header, footer, element, cell, cell paragraph or run, is met by the traversal with its id; null slots are skipped |
| DocTree.ElementIndexSpec | talkingdb/models/document/document.py:99-130 | the element index is exact: every key leads to a node that carries it, and every node carrying a truthy id can be found by that id |
| DocTree.IndexRuns | talkingdb/models/document/document.py:124-130 | the run loop indexes each run in order |
| DocTree.IndexParagraph | talkingdb/models/document/document.py:122-125 | a paragraph is indexed, then its runs |
| DocTree.IndexCell | talkingdb/models/document/document.py:118-125 | a cell is indexed, then each of its paragraphs with its runs |
| DocTree.IndexRow | talkingdb/models/document/document.py:117-125 | one row's slots in order, null slots skipped |
| DocTree.IndexElement | talkingdb/models/document/document.py:111-130 | a table with its cells, or a paragraph with its runs |
| DocTree.IndexLayoutHead | talkingdb/models/document/document.py:103-109 | the layout itself, then its header and footer when present |
| DocTree.IndexLayout | talkingdb/models/document/document.py:102-130 | one layout: itself, its bands, then its elements |
| DocTree.BuildIndex | talkingdb/models/document/document.py:99-130 | the nested loops leave exactly the index of the traversal's entries |
| ParagraphCache.ElementParas | talkingdb/models/document/document.py:135-138 | the paragraphs among a layout's elements, each at its position, in order |
| ParagraphCache.DocParas | talkingdb/models/document/document.py:135-138 | the document's top-level paragraphs, each at its position, in document order |
| ParagraphCache.DocParasComplete | talkingdb/models/document/document.py:135-138 | every top-level paragraph of the document is listed, so the list is exactly the document's paragraphs in order |
| ParagraphCache.OrderOf | talkingdb/models/document/document.py:138 | the order list holds each listed paragraph's id, in order |
| ParagraphCache.CacheOfAppend | talkingdb/models/document/document.py:137-138 | recording one more paragraph sets its id in the map and appends it to the order |
| ParagraphCache.CacheKeys | talkingdb/models/document/document.py:137 | the map holds exactly the ids recorded |
| ParagraphCache.CacheLast | talkingdb/models/document/document.py:137 | each id recorded stands for the last paragraph recorded under it |
| ParagraphCache.Resolved | talkingdb/models/document/document.py:147-148 | one paragraph per order entry, the one its id stands for in the map |
| ParagraphCache.FreshCacheResolves | talkingdb/models/document/document.py:132-138 | a freshly built cache refers to paragraphs of the document, and every id in the order is in the map |
| ParagraphCache.LastWith | talkingdb/models/document/document.py:137 | the last position with the same id, at or after the given one |
| ParagraphCache.FreshCacheInOrder | talkingdb/models/document/document.py:132-138 | when the paragraphs carry distinct ids, the fresh cache reads back exactly the document's paragraphs, in document order |
| ParagraphCache.NextTextAt | talkingdb/models/document/document.py:147-154 | looking forward, the first paragraph that is not passed over decides: a heading or caption gives none, any other paragraph its stripped text |
| ParagraphCache.NextTextNone | talkingdb/models/document/document.py:147-154 | when every later paragraph is empty and no boundary, there is no next text |
| ParagraphCache.PrevTextAt | talkingdb/models/document/document.py:163-170 | looking backward, the first paragraph below that is not passed over decides, likewise |
| ParagraphCache.PrevTextNone | talkingdb/models/document/document.py:163-170 | when every earlier paragraph is empty and no boundary, there is no previous text |
| ParagraphCache.FirstIndex | talkingdb/models/document/document.py:144-146 | `list.index`: the first position holding the id, and none only when no position holds it |
| ParagraphCache.SlotsKeepCache | talkingdb/models/document/document.py:132-138 | an edit that keeps every element's paragraph slot keeps every cache entry referring to a paragraph |
| Splices.FindInElements | talkingdb/models/document/document.py:544-549 | the first element with the id; an element before it without an `id` attribute raises AttributeError, and raising needs one |
| Splices.FindElement | talkingdb/models/document/document.py:544-549 | the search runs layout by layout: a hit is the first in its layout, and every earlier layout has none |
| Splices.LocateElement | talkingdb/models/document/document.py:544-549 | the search loops find what the specification finds |
| Splices.FlatAppend | talkingdb/models/document/document.py:90-93 | the elements of two lists of layouts are those of each, one after the other |
| Splices.SpliceFlat | talkingdb/models/document/document.py:544-549 | a splice changes the document's element sequence exactly at the spliced element's position: what precedes and follows it is kept, in order |
| Splices.SpliceKeepsReference | talkingdb/models/document/document.py:544-549 | a paragraph cache entry relocated across a splice refers to the very same paragraph |
| Batch.CellInTable | talkingdb/models/document/document.py:506-507 | a located cell is a present slot of a table element, and is the cell found there |
| Batch.ApplyEdit | talkingdb/models/document/document.py:498-537 | each node's own edit method, chosen by the node's type, is applied and written back in place |
| Batch.EditAtSame | talkingdb/models/document/document.py:498-537 | an in-place edit keeps every element in its slot, with the same kind and id, so the index and the paragraph cache stay right |
| Batch.EditAtLocal | talkingdb/models/document/document.py:498-537 | an edit changes at most the layout its node is in |
| Batch.StepShape | talkingdb/models/document/document.py:496-537 | one placeholder keeps every element slot and adds at most one swap of an element for one fresh table to the queue |
| Batch.PassShape | talkingdb/models/document/document.py:496-537 | the first pass, finished or stopped, keeps every element in its slot with its kind and id, only adds to the queue, and queues only swaps of one element for one table |
| Batch.PendingPlaceholdersIgnored | talkingdb/models/document/document.py:514-515 | placeholders that are neither deleted nor done change nothing, not even the index |
| Batch.NoTableRequestNoQueue | talkingdb/models/document/document.py:529-534 | without a placeholder asking for a table, the pass never raises and queues nothing: every change is an edit in place |
| Batch.PassErrorCause | talkingdb/models/document/document.py:529-533 | the pass stops with an error only on a placeholder that asks for a table and has replacement text |
| Batch.SpliceFromReplaced | talkingdb/models/document/document.py:539-540 | the queued swaps are applied one after another, each as `_apply_replacement` does it, and the first that raises stops the rest |
| Batch.SpliceFromLayouts | talkingdb/models/document/document.py:539-540 | the layouts the splicing reaches do not depend on the paragraph cache |
| Batch.RelocateAllKeeps | talkingdb/models/document/document.py:544-549 | one splice: the cache keeps its keys, and each key keeps referring to the very same paragraph |
| Batch.SpliceKeepsCache | talkingdb/models/document/document.py:539-540 | however far the splicing gets, the cache keeps its keys and each key keeps referring to the paragraph it referred to, whether or not that paragraph is still in the document |
| Batch.SpliceKeepsResolved | talkingdb/models/document/document.py:539-540 | a cache that referred and resolved before the splicing still does after it, to the same paragraphs |
| Batch.SwapInPlace | talkingdb/models/document/document.py:544-549 | a queued swap whose element is found puts the new table exactly where that element was in document order; every other element keeps its order |
| Batch.ApplyAllKeepsCache | talkingdb/models/document/document.py:489-542 | however the batch ends, a paragraph cache that referred and resolved still does, and the neighbouring-text queries read the same paragraphs through it |
| HeadingStacks.LastBelow | talkingdb/models/document/document.py:212-217 | the last heading before a position whose level is below the bound: no heading between it and the position is below the bound, and none is found only when no earlier heading is below it |
| HeadingStacks.LevelsExample | talkingdb/models/document/document.py:212-219 | headings at levels 1, 2, 3, 2, 1 get the parents none, first, second, first, none |
| HeadingStacks.StackParent | talkingdb/models/document/document.py:212-217 | a level map that keeps the invariant yields, for any level, the nearest earlier heading of lower level |
| HeadingStacks.StackPush | talkingdb/models/document/document.py:221-227 | recording a heading, then clearing every deeper level, keeps the invariant for one more heading |
| HeadingStacks.FindParent | talkingdb/models/document/document.py:213-217 | the search `for l in range(level - 1, 0, -1)` stops at the highest lower level present |
| HeadingStacks.AnyOf | talkingdb/models/document/document.py:225 | the next key the deletion loop visits is a key of the snapshot |
| HeadingStacks.RecordHeading | talkingdb/models/document/document.py:221-227 | the level is set to the heading's id, then every deeper level is removed |
| HeadingStacks.PruneStep | talkingdb/models/document/document.py:225-227 | deleting one key above the level keeps the loop's invariant with that key taken out of those still to visit |
| HeadingStacks.MapStackParents | talkingdb/models/document/document.py:208-231 | for headings of level 1 or more, the dictionary-based parent of every heading is the nearest earlier heading of lower level |
| HeadingStacks.ChainLevels | talkingdb/models/document/document.py:394-400 | along the stack of headings, levels strictly increase |
| HeadingStacks.ChainParent | talkingdb/models/document/document.py:394-400 | once every entry not below the heading's level is popped, the top is the nearest earlier heading of lower level, or there is none |
| HeadingStacks.ChainPush | talkingdb/models/document/document.py:394-400 | pushing the heading on what remains keeps the stack exactly the headings still visible |
| HeadingStacks.ChainParents | talkingdb/models/document/document.py:394-400 | the stack-based parent of every heading is the nearest earlier heading of lower level, the same as the dictionary-based rule |
| Hierarchy.HeadingOf | talkingdb/models/document/document.py:205-208 | a paragraph counts as a heading only with a heading style and a non-zero level; the heading carries the paragraph's id and a level of 1 or more |
| Hierarchy.MarkFrom | talkingdb/models/document/document.py:262-269 | marking keeps the number of paragraphs and leaves those before the start unchanged |
| Hierarchy.ElementStep | talkingdb/models/document/document.py:198-270 | one step keeps the element's kind and id |
| Hierarchy.ElementsSlots | talkingdb/models/document/document.py:198-270 | walking the elements keeps each one's kind and id |
| Hierarchy.LayoutsSlots | talkingdb/models/document/document.py:198-270 | walking the layouts keeps every layout's fields but its elements, and each element's kind and id |
| Hierarchy.PassKeepsSlots | talkingdb/models/document/document.py:198-270 | the step of `build_hierarchy` keeps each element's kind and id |
| Hierarchy.HierarchyOf | talkingdb/models/document/document.py:191-270 | the pass changes no element's kind or id, and nothing of a layout but its elements |
| Hierarchy.HeadingStepLinked | talkingdb/models/document/document.py:208-231 | a heading step records the heading and points it at the nearest earlier heading of lower level |
| Hierarchy.OtherStepLinked | talkingdb/models/document/document.py:233-270 | any other step keeps the recorded headings and points its element at the last heading |
| Hierarchy.StepLinked | talkingdb/models/document/document.py:198-270 | one step of `build_hierarchy` keeps the invariant and links its element |
| Hierarchy.PassSound | talkingdb/models/document/document.py:198-270 | the pass's step keeps the invariant and links every element it leaves |
| Hierarchy.ElementsInv | talkingdb/models/document/document.py:198-270 | after the elements of a layout, the state keeps the invariant for all the headings among them |
| Hierarchy.LayoutStateAtInv | talkingdb/models/document/document.py:198-270 | on reaching a layout, the state keeps the invariant for every heading before it |
| Hierarchy.ReachedAt | talkingdb/models/document/document.py:198-270 | a completed walk took each element from a state that keeps the invariant for every heading before it |
| Hierarchy.HeadingsAround | talkingdb/models/document/document.py:198-270 | the document's headings around an element are those before it, its own, and those after it |
| Hierarchy.WalkParents | talkingdb/models/document/document.py:198-270 | a completed walk with a sound step links every element against the document's headings |
| Hierarchy.HeadingParents | talkingdb/models/document/document.py:191-270 | when the pass completes, every heading's parent is the nearest earlier heading of lower level in document order, and every other paragraph and table points at the last heading before it |
| Hierarchy.StepBookkeeping | talkingdb/models/document/document.py:229-260 | a heading becomes the last heading and clears the pending caption; a caption becomes the pending caption; an ordinary paragraph or a table clears it |
| Hierarchy.CaptionLinksTable | talkingdb/models/document/document.py:234-260 | a caption followed by a table: the caption points at the last heading, and the table points at the same heading and takes the caption's id when that id is truthy |
| Hierarchy.InterveningParagraphDropsCaption | talkingdb/models/document/document.py:240-260 | a paragraph between a caption and a table that is neither heading nor caption takes the caption away from the table |
| Hierarchy.MissingStyleRaises | talkingdb/models/document/document.py:205 | a paragraph without a style raises AttributeError and is left unchanged |
| Hierarchy.MarkFromRuns | talkingdb/models/document/document.py:240-244 | marking intents keeps every paragraph's runs |
| Hierarchy.MarkFromOk | talkingdb/models/document/document.py:262-269 | with every colour scan succeeding, marking the paragraphs raises nothing |
| Hierarchy.NullSlotRaises | talkingdb/models/document/document.py:262-264 | the table loop does not skip empty slots: when no colour scan raises, marking a row raises exactly when one of its slots is empty |
| Hierarchy.StepParagraph | talkingdb/models/document/document.py:203-249 | the paragraph branch of the loop does what the specification step does |
| Hierarchy.MarkParagraphs | talkingdb/models/document/document.py:264-269 | the intent loop over a cell's paragraphs stops at the first scan that raises |
| Hierarchy.MarkRow | talkingdb/models/document/document.py:263-269 | the loop over one row's slots raises on an empty slot |
| Hierarchy.MarkRows | talkingdb/models/document/document.py:262-269 | the loop over a table's rows, as the specification says |
| Hierarchy.StepTable | talkingdb/models/document/document.py:254-270 | the table branch of the loop does what the specification step does |
| Hierarchy.StepElement | talkingdb/models/document/document.py:198-270 | one element of the loop, dispatched by type; an absent entry is passed over |
| Hierarchy.WalkElements | talkingdb/models/document/document.py:198-270 | the loop over one layout's elements carries the state as the specification does |
| Hierarchy.WalkLayouts | talkingdb/models/document/document.py:191-270 | the loop over `iter_elements()` gives the marked layouts and the exception that stopped it, if any |
| Sections.Summaries | talkingdb/models/document/document.py:282-293 | one record per paragraph, each with its id, rendering and level |
| Sections.HeadingsAmong | talkingdb/models/document/document.py:284-291 | at most as many headings as paragraphs, and each is a heading |
| Sections.HeadingsAmongSpec | talkingdb/models/document/document.py:284-291 | a paragraph is listed exactly when it is a heading, and a list in document order stays in document order |
| Sections.SectionEnd | talkingdb/models/document/document.py:341-350 | the end of the section: no element before it stops the collection, and the element at it does |
| Sections.CollectedFront | talkingdb/models/document/document.py:341-364 | gathering a window is the first element's part followed by the rest; an exception in the first part comes first |
| Sections.ContentIsWindow | talkingdb/models/document/document.py:338-366 | the one-pass loop gathers exactly the window from the start to the section's end, element by element |
| Sections.ContentWithoutTables | talkingdb/models/document/document.py:341-364 | without tables nothing in the section can raise |
| Sections.NoSubheadingEndsAtHeading | talkingdb/models/document/document.py:344-347 | without sub-headings the section holds no heading and ends at the next one |
| Sections.ParasOf | talkingdb/models/document/document.py:388-392 | the paragraphs of the listed headings, in order |
| Sections.RecordsOf | talkingdb/models/document/document.py:394-400 | each heading as the parent rule sees it: its level, 0 when unset, and its id |
| Sections.ParentsOf | talkingdb/models/document/document.py:394-400 | each heading's parent is the nearest earlier heading of lower level |
| Sections.Reparented | talkingdb/models/document/document.py:394-400 | each heading with its parent written, and nothing else changed |
| Sections.HeadingPlacesPlaced | talkingdb/models/document/document.py:388-392 | the collected headings sit at distinct positions of the document, in order |
| Sections.SetParentSpec | talkingdb/models/document/document.py:399 | writing one parent changes that paragraph's parent and nothing else |
| Sections.WriteParentsSlots | talkingdb/models/document/document.py:394-400 | writing parents keeps the document's shape and every layout's other fields |
| Sections.WriteParentsElsewhere | talkingdb/models/document/document.py:394-400 | an element at no written heading's position is left alone |
| Sections.WriteParentsSpec | talkingdb/models/document/document.py:394-400 | each written heading gets its parent, every other element is left alone, and the document keeps its shape |
| Sections.WithParentRef | talkingdb/models/document/document.py:408-416 | the headings with the given parent reference: each listed one has it, and every heading that has it is listed |
| Sections.IdsOf | talkingdb/models/document/document.py:418-421 | the ids of the headings, in order |
| Sections.ChildOfHeading | talkingdb/models/document/document.py:413-416 | with distinct ids, a heading's children are later headings of strictly greater level, and every heading between the two has a level at least the child's: the parent is the child's nearest earlier heading of lower level |
| Sections.PositionOfHeading | talkingdb/models/document/document.py:418-421 | a heading is among its own siblings, so its position is always found |
| DocumentSpec.UidPrefix | talkingdb/models/document/document.py:24-26 | the longest prefix without a colon, ended by a colon or by the end of the string |
| DocumentSpec.DocUid | talkingdb/models/document/document.py:24-26 | a uid is found exactly when the id starts with `doc::` followed by a character other than a colon; it is the non-empty run of non-colon characters after `doc::`; without a match AttributeError is raised |
| DocumentSpec.DocUidOf | talkingdb/models/document/document.py:24-26 | a uid without colons, followed by nothing or by a colon, is read back |
| DocumentSpec.AssignedIdsCarryUid | talkingdb/models/document/document.py:185-189 | the document's id, and every id made under it, carry the document index as uid |
| DocumentSpec.FirstRaising | talkingdb/models/document/document.py:188-189 | the first layout whose `assign_ids` raises, and none before it does |
| DocumentSpec.IdsAssigned | talkingdb/models/document/document.py:188-189 | assigning ids keeps the number of layouts |
| DocumentSpec.LayoutIdsRaiseKept | talkingdb/models/document/document.py:188-189 | a layout raises again exactly when it raised, once its ids are assigned |
| DocumentSpec.ElementsIdsKinds | talkingdb/models/document/document.py:188-189 | assigning element ids keeps every element's kind |
| DocumentSpec.IdsAssignedSlots | talkingdb/models/document/document.py:188-189 | assigning ids keeps every paragraph slot, so the paragraph cache keeps referring |
| DocumentSpec.AssignIdsIdempotent | talkingdb/models/document/document.py:185-189 | on a document without absent elements, `assign_ids` does not raise, each layout gets the id of its position under the document id, and running it again changes nothing |
| DocumentSpec.ParasUpToNext | talkingdb/models/document/document.py:135-138 | one more element adds its paragraph, if it is one, to those met |
| DocumentSpec.HeadingSummariesAppend | talkingdb/models/document/document.py:284-291 | one more paragraph adds its record exactly when it is a heading |
| DocumentSpec.ReparentSpec | talkingdb/models/document/document.py:388-400 | the rewrite keeps every paragraph slot, gives each heading its parent, and leaves every other element alone |
| DocumentSpec.DetailsOfNonHeading | talkingdb/models/document/document.py:384-386 | a query for anything but a heading paragraph answers nothing and changes nothing |
| DocumentSpec.ReparentAt | talkingdb/models/document/document.py:388-400 | a heading among the document's headings is at its position, and is still there after the rewrite |
| DocumentSpec.ReReadTopHeading | talkingdb/models/document/document.py:394-421 | a heading read again after the rewrite carries the parent the level rule gives it |
| DocumentSpec.DetailsOfHeading | talkingdb/models/document/document.py:384-487 | asked about a heading through an index entry that points at it, the details are those of the heading with its rewritten parent, among the rewritten headings, with its parent looked up, and the layouts afterwards are the rewritten ones |
| Outline.RegisterSound | talkingdb/models/document/document.py:584-600 | registering an item keeps every item attached to the last item at or before it that carries the parent id, and the map pointing each id at its last item |
| Outline.StepSound | talkingdb/models/document/document.py:590-639 | one element of the loop keeps the outline sound |
| Outline.ElementsSound | talkingdb/models/document/document.py:590-639 | the elements of a layout keep the outline sound |
| Outline.LayoutsSound | talkingdb/models/document/document.py:590-639 | the whole loop keeps the outline sound |
| Outline.OutlineAttached | talkingdb/models/document/document.py:580-645 | in the file index, every item hangs under an item at or before it that carries the id it was attached by, and under the last item registered with that id |
| Outline.StepListed | talkingdb/models/document/document.py:590-639 | an element adds one item exactly when it is a heading, a paragraph that is not a caption, or a table, and the item carries the element's id; earlier items are kept |
| Outline.UnnamedElementRaises | talkingdb/models/document/document.py:593-638 | an element without an id that would get an item makes `build_index` fail validation |
| HeadingPaths.PathFuelMonotone | talkingdb/models/document/document.py:551-571 | a path found with some fuel is found, the same, with more |
| HeadingPaths.PathEntries | talkingdb/models/document/document.py:551-571 | every entry of a path is a non-empty text, one per heading climbed, so no more entries than steps |
| HeadingPaths.SelfReferenceNeverEnds | talkingdb/models/document/document.py:555-567 | a heading below level 1 whose parent reference names itself is climbed forever: no fuel is enough |
| HeadingPaths.TopHeadingEndsPath | talkingdb/models/document/document.py:557-562 | a level-1 heading parent ends the path with its own entry |
| Documents.EffectiveStable | talkingdb/models/document/document.py:176-180 | a lookup after a lookup reads the same index: the first one built it if it had to |
| Documents.HierarchyKeepsSlots | talkingdb/models/document/document.py:191-270 | the hierarchy pass keeps every element's kind, so the paragraph cache keeps referring to paragraphs |
| Documents.FirstIndexAt | talkingdb/models/document/document.py:144-146 | a scan that met the value first at a position found what `list.index` finds |
| Documents.LocateIn | talkingdb/models/document/document.py:323-328 | the search loop for the heading finds what the element search specifies, including the exception on an absent entry |
| Documents.CollectContent | talkingdb/models/document/document.py:341-364 | the collecting loop yields exactly the section content, which is the window up to the section's end |
| Documents.ScanForward | talkingdb/models/document/document.py:147-153 | the forward loop returns the next paragraph's stripped text as the cache resolves it, stopping at a heading or a caption |
| Documents.ScanBack | talkingdb/models/document/document.py:163-169 | the backward loop returns the previous paragraph's stripped text, stopping at a heading or a caption |
| Documents.ClimbStep | talkingdb/models/document/document.py:563-567 | climbing past a heading that is not at level 1 puts its text in front and goes on from its parent with one step less |
| Documents.ClimbEnd | talkingdb/models/document/document.py:555-562 | the climb ends with the collected path at a level-1 heading, which is put in front, or at anything but a heading |
| Documents.Document.constructor | talkingdb/models/document/document.py:29-41 | a new document holds the given layouts, id and filename, with both caches empty |
| Documents.Document.BuildElementIndex | talkingdb/models/document/document.py:99-130 | the index becomes that of every node with an id, and nothing else changes |
| Documents.Document.GetElementById | talkingdb/models/document/document.py:176-180 | the node stored under the id in the index, which is built first when empty |
| Documents.Document.InvalidateIndex | talkingdb/models/document/document.py:182-183 | the element index is emptied and nothing else changes |
| Documents.Document.BuildParagraphIndex | talkingdb/models/document/document.py:132-138 | every top-level paragraph is cached under its id and listed in document order; the cache resolves |
| Documents.Document.InvalidateParagraphIndex | talkingdb/models/document/document.py:172-174 | the paragraph cache and order list are emptied and nothing else changes |
| Documents.Document.EnsureParagraphIndex | talkingdb/models/document/document.py:142-143 | the cache is built when the order list is empty and kept otherwise |
| Documents.Document.OrderPosition | talkingdb/models/document/document.py:144-146 | the first position of the id in the order list, or none |
| Documents.Document.GetNextParagraphText | talkingdb/models/document/document.py:140-154 | the stripped text of the first later paragraph with text, unless a heading or a caption comes first, read through the cache |
| Documents.Document.GetPrevParagraphText | talkingdb/models/document/document.py:156-170 | the stripped text of the nearest earlier paragraph with text, unless a heading or a caption comes first |
| Documents.Document.AssignLayoutsIds | talkingdb/models/document/document.py:188-189 | each layout gets its ids by position up to the first one that raises (that one partly); the call raises AttributeError exactly when some layout holds an absent element |
| Documents.Document.AssignIds | talkingdb/models/document/document.py:185-189 | the document id is set from its index, the layouts are assigned as specified, and the paragraph cache keeps resolving |
| Documents.Document.BuildHierarchy | talkingdb/models/document/document.py:191-270 | the layouts become those of the marking pass; an exception leaves the elements marked so far |
| Documents.Document.GetHeadings | talkingdb/models/document/document.py:272-293 | the records of the document's headings, in document order |
| Documents.Document.Flatten | talkingdb/models/document/document.py:317-320 | all elements, layout after layout |
| Documents.Document.GetHeadingContent | talkingdb/models/document/document.py:295-366 | nothing unless the id names a paragraph; otherwise the content of the section after the first top-level element with that id |
| Documents.Document.CollectHeadings | talkingdb/models/document/document.py:388-392 | the document's headings, with where each stands |
| Documents.Document.WriteHeadingParents | talkingdb/models/document/document.py:394-400 | each listed heading gets its parent reference and nothing else changes |
| Documents.Document.ReparentHeadings | talkingdb/models/document/document.py:388-400 | every heading gets the parent the level rule picks, in place; the paragraph cache keeps resolving |
| Documents.Document.GetHeadingDetails | talkingdb/models/document/document.py:368-487 | nothing for anything but a heading; otherwise the answer for the mode, read from the rewritten headings, with the layouts rewritten |
| Documents.Document.ApplyPlaceholder | talkingdb/models/document/document.py:497-537 | one placeholder step of the first pass; an exception leaves the layouts as they were |
| Documents.Document.ApplyReplacement | talkingdb/models/document/document.py:544-549 | the first top-level element with the old id is swapped for the new elements and the paragraph cache follows the swap; no match changes nothing; an absent entry raises |
| Documents.Document.ApplyPlaceholders | talkingdb/models/document/document.py:489-542 | the whole edit pass: each placeholder in order, then the queued swaps, then the index dropped; the paragraph cache keeps referring to paragraphs |
| Documents.Document.Climb | talkingdb/models/document/document.py:555-567 | one round of the climb either completes the path or goes on from a parent with strictly less fuel and the same eventual path |
| Documents.Document.GetHeadingPath | talkingdb/models/document/document.py:551-571 | the texts of the headings above the element, from the outermost down, when the climb ends within the fuel |
| Documents.Document.GetHeadingPathForHeading | talkingdb/models/document/document.py:573-578 | the heading's own path with its own text last |
| Documents.Document.OutlineElement | talkingdb/models/document/document.py:590-639 | one element of the outline loop, with a table's caption looked up by id |
| Documents.Document.BuildIndex | talkingdb/models/document/document.py:580-645 | the file index: one item per heading, non-caption paragraph and table, attached under the item its parent reference names when registered already |
| Update.Target.constructor | talkingdb/models/factory/update.py:65 | a target dictionary holding the given entries |
| Update.AddItems | talkingdb/models/factory/update.py:77-79 | the field becomes what the appending loop makes of it, every other entry is unchanged, and the exception, if any, is the loop's |
| Update.ApplyPatch | talkingdb/models/factory/update.py:65-87 | the target afterwards and the exception raised are those of the patch: plain keys written first in patch order, then each `added_`/`removed_` key applied to its field, stopping at the first exception |
| Update.AddAllStops | talkingdb/models/factory/update.py:77-79 | once the appending loop has raised, later items change nothing |
| Update.AddAllToList | talkingdb/models/factory/update.py:75-79 | appending to a list never raises; the old items stay in front, every added item is present, nothing else is, and a list without duplicates stays so |
| Update.KeptFromList | talkingdb/models/factory/update.py:83-87 | filtering a list never raises and keeps exactly the items not listed for removal |
| Update.KeptAppend | talkingdb/models/factory/update.py:85-87 | the filter keeps the order of what it keeps |
| Update.PatchLeavesOthers | talkingdb/models/factory/update.py:65-87 | an entry the patch names neither directly nor through a list key is left alone, even when the patch raises |
| Update.PatchWritesPlainKey | talkingdb/models/factory/update.py:67-70 | a plain key that no list key names ends up holding its patch value, even when the patch raises |
| Update.PatchAddsItems | talkingdb/models/factory/update.py:73-79 | when `added_F` is the only list key naming F and the patch goes through, F is the appending loop applied to F's value after the plain keys, or to an empty list |
| Update.PatchRemovesItems | talkingdb/models/factory/update.py:81-87 | when `removed_F` is the only list key naming F and the patch goes through, F is its earlier items that the key's value does not hold |
| Update.PatchOnListsSucceeds | talkingdb/models/factory/update.py:72-87 | a patch whose list keys carry lists, onto fields that are lists or absent, never raises, and the fields stay lists |
| Update.CreateUpdateModel | talkingdb/models/factory/update.py:29-62 | the loop plans exactly the fields the per-field rule gives |
| Update.PutSpec | talkingdb/models/factory/update.py:48-60 | setting a key: it then holds the new type, other keys are unchanged, and the key set gains it |
| Update.LookupKeys | talkingdb/models/factory/update.py:48-60 | a key is present exactly when the lookup finds it |
| Update.FieldStepLookup | talkingdb/models/factory/update.py:32-60 | one source field sets the keys it generates, with their types, and leaves the others |
| Update.UpdateFieldNames | talkingdb/models/factory/update.py:31-60 | the planned keys are exactly those the source fields generate |
| Update.GeneratedApart | talkingdb/models/factory/update.py:31-60 | with distinct names none of which is another's `added_`/`removed_` name, two source fields never generate the same key |
| Update.UpdateFieldTypes | talkingdb/models/factory/update.py:31-60 | an excluded field is absent; a list field that splits gets an `added_`/`removed_` pair of optional lists and keeps its optional type only when the original is not removed; any other kept field gets its optional type |
| Update.KeyOfField | talkingdb/models/factory/update.py:31-60 | a key a field generates ends with the type that field gave it; a field's own name that it does not generate (it is excluded, or split with the original removed) is absent |
| Update.UpdateFieldsDistinct | talkingdb/models/factory/update.py:29-62 | the plan is a dictionary: every key appears once |
| Metadata.Value | talkingdb/models/metadata/metadata.py:6-17 | a declared field always has a value; any other key has one exactly when it is an extra |
| Metadata.Extras | talkingdb/models/metadata/metadata.py:11 | the extras are exactly the object's keys that are not declared fields |
| Metadata.FromJson | talkingdb/models/metadata/metadata.py:19-32 | None exactly when the text does not parse, is not an object, or is an empty object |
| Metadata.FromJsonFields | talkingdb/models/metadata/metadata.py:19-32 | a non-empty object fails validation exactly when a declared field holds something other than a string or null; otherwise each declared field takes the object's value (None when absent) and every other key becomes an extra |
| Metadata.Dump | talkingdb/models/metadata/metadata.py:34-35 | the dump holds exactly the keys the instance has a value for, each with that value |
| Metadata.CoreFields | talkingdb/models/metadata/metadata.py:76-77 | exactly the three declared fields, with the instance's values |
| Metadata.ExtraFields | talkingdb/models/metadata/metadata.py:79-84 | exactly the dumped keys that are not declared |
| Metadata.CoreAndExtraPartitionDump | talkingdb/models/metadata/metadata.py:76-84 | core and extra fields are disjoint, together make the dump, and the extras are the instance's extras |
| Metadata.DumpRoundTrip | talkingdb/models/metadata/metadata.py:19-35 | an instance whose declared fields hold strings or None reads back from its own dump |
| Metadata.EnsureMetadata | talkingdb/models/metadata/metadata.py:40-46 | a given instance is returned as it is; None gives scope "org" with both ids empty and no extras |
| Metadata.DefaultMetadataIsDefault | talkingdb/models/metadata/metadata.py:87 | read as JSON, the default metadata text is the instance `ensure_metadata` makes from None |
| Metadata.ExtendMetadata | talkingdb/models/metadata/metadata.py:48-61 | text that does not parse, a value that is not an object, and an empty object leave the instance as it is |
| Metadata.ExtendKeepsFilled | talkingdb/models/metadata/metadata.py:63-72 | without overwrite, an input whose keys are all filled on the instance leaves it as it is |
| Metadata.ExtendKey | talkingdb/models/metadata/metadata.py:63-74 | a key of the input takes the input's value when overwriting or when blank on the instance; every other key keeps its value; the instance stays well-formed |
| Metadata.CopyUnchanged | talkingdb/models/metadata/metadata.py:71-74 | copying in values the instance already holds changes nothing |
| Metadata.ExtendIdempotent | talkingdb/models/metadata/metadata.py:48-74 | merging the same input twice is merging it once |

## Left out

- Document identity: `make_uid`, `_stable_docx_hash` (buffer and zip I/O, SHA-256) and `DocumentModel.make_id` (it calls an external slug function) are not part of this model.
- `graph.py` (sqlite and networkx persistence), the event models and the enum-only files are not part of this model.
- Reflection and serialisation glue are left out: `from_dict`, `from_dict_safe`, placeholder hydration and the pydantic index and mutation models. Placeholders, replacements and index items are plain datatypes.
- `difflib.get_close_matches` in `classify_style` is the `Matcher` parameter. The regex level extraction is modelled.
- Python's `html.parser` tokenizer is the `Tokenizer` parameter. Tags are taken as already lower-cased, character references as decoded, and `<x/>` as a start tag followed by an end tag.
- Valueless HTML attributes (such as `<span class>`) are not represented: every attribute is a name and a string value.
- Floating point: `font-size` and the paragraph `pt` values are kept as their printed text. The `ValueError` that `float()` raises on a malformed size is not modelled.
- Runs.ToHtmlLayout: a zero size is false only in its printed forms `0`, `0.0` and `-0.0`. Zero written another way, such as `0.00`, would still be written as a declaration.
- RunHtml.ApplyDeclaration: keeps the numeral of a `font-size: 12pt` declaration as written (`12`). Python stores `float("12")`, which prints as `12.0` when the run is rendered again. Converting a numeral to a float's printed form is not modelled.
- Text.Lower, Text.Upper, Text.IsDigit, Text.ParseInt and Paragraphs.DigitsEnd are ASCII only. Python's `str.lower`/`str.upper`, `re.I` and `\d` also map and match non-ASCII letters and digits, and `int()` also accepts Unicode digits and `_` separators. Style names and numerals outside ASCII are not covered. Whitespace (`Text.IsSpace`) follows Python's full set.
- `json.loads` and `json.dumps` are left out. `Metadata.to_str` is not modelled, and parsing is the `parse` parameter.
- Pydantic's `create_model` itself is left out. `Update.CreateUpdateModel` plans the ordered field list that would be handed to it.
- Update.ApplyPatch: dictionary key order is not modelled (the target is a map). Neither is aliasing: the model does not capture a patch list that becomes the target's list object and is then appended to.
- Update.ApplyPatch: patch and target values are null, integers, strings and lists. Booleans, floats and nested dictionaries are not represented. Membership and iteration on null or an integer raise `TypeError`, as in Python.
- Metadata.ExtendMetadata: `model_copy` is modelled without validation, as pydantic does it. The order of extra keys is not modelled.
- Metadata.DefaultMetadataIsDefault: holds for any JSON parser that reads the default text as the expected three-key object; the parser itself is not modelled.
- Documents.Document.GetHeadingPath: takes a `fuel` bound on the number of parent references climbed. A cycle of non-top headings makes the source loop forever; the model answers `None` for it (`HeadingPaths.SelfReferenceNeverEnds`).
- Documents.Document.GetHeadingPath: its ensures says the element index afterwards is either the old one or the built one, rather than which of the two.
- Documents.Document.BuildIndex: the same holds for the element index after the outline lookups.
- Documents.Document.ApplyPlaceholders: when a structural splice raises, the element index is left holding locations from before the splice. The source's index would still hold references to the same objects, which a location does not capture once elements have shifted.
- Tables.GetColHeader: the result is a set, because `list(set(...))` has no defined order.
- Tables.GetColHeader: the `format="html"` branch of `get_col_header` and `get_row_header` is left out. It calls the cell's `to_html` with an argument that method does not take, so it always raises.
- TableBuild.Lines: differs from `str.splitlines` only in empty pieces, which the one caller drops as blank lines.
- Placeholders: the module holds data only (placeholder fields and statuses), so it has no rows in the table above.
- Identity of Python objects: the caches hold locations in the layouts rather than references, which is exact within one call of `apply_placeholders`.

## Findings

| source | as written | input that shows it | evidently intended | confidence | as-written member | corrected member |
|---|---|---|---|---|---|---|
| talkingdb/models/document/elements/primitive/table.py:248 | the rowspan tracker of a column records `range(rowspan)`, rows counted from the first rendered row, and is compared with the absolute row index | a one-column table whose row 1 holds a cell with rowspan 2 and whose row 2 holds a `None` slot under it: row 2 renders an extra `<td>&nbsp;</td>` below the merged cell | the tracker records `range(r_idx, r_idx + rowspan)`, the rows the cell covers from its own row | not executed | TableHtml.CoveredSlotInTable | TableHtml.OpenedSpanCovers |
