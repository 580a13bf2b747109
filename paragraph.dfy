/**
 * Paragraphs: a style, a sequence of runs and the flags the document's
 * hierarchy pass fills in. Covers the comment text written next to a tracked
 * replacement, style and colour classification, text and HTML rendering, id
 * assignment and applying a placeholder to the paragraph's runs.
 */
module Paragraphs {
  import opened Wrappers
  import opened Text
  import opened Html
  import opened Runs
  import opened RunHtml
  import opened RunEdits
  import opened Placeholders

  // ---------------------------------------------------------------------------
  // The comment attached to a replacement
  // ---------------------------------------------------------------------------

  /** `filename > heading > path`, or the file name alone when the path is empty. */
  function SourceLabel(m: MatchedNode): string {
    var path := if m.headingPath != [] then Join(" > ", m.headingPath) else "";
    if path != "" then m.filename + " > " + path else m.filename
  }

  /** One `- label` line per match whose id is referenced, in match order. */
  function SourceLines(ms: seq<MatchedNode>, refs: seq<string>): seq<string> {
    if ms == [] then []
    else
      var last := ms[|ms| - 1];
      SourceLines(ms[..|ms| - 1], refs) + (if last.id in refs then ["- " + SourceLabel(last)] else [])
  }

  /** The comment, then the `Sources:` block, each only when present. */
  function CommentParts(ph: Placeholder): seq<string>
    requires ph.replacedReference.Some?
  {
    var lines := SourceLines(ph.matches, ph.replacedReference.value);
    (if Truthy(ph.replacedComment) then [ph.replacedComment.value] else [])
    + (if lines != [] then ["Sources:\n" + Join("\n", lines)] else [])
  }

  /** What `build_comment_text` returns. */
  function CommentFor(ph: Placeholder): Option<string> {
    if !NonEmpty(ph.replacedReference) then None
    else
      var parts := CommentParts(ph);
      if parts == [] then None else Some(Join("\n\n", parts))
  }

  /** `build_comment_text`: collects the source lines in a loop. */
  method BuildCommentText(ph: Placeholder) returns (r: Option<string>)
    ensures r == CommentFor(ph)
  {
    if !NonEmpty(ph.replacedReference) {
      return None;
    }
    var refs := ph.replacedReference.value;
    var parts: seq<string> := [];
    if Truthy(ph.replacedComment) {
      parts := parts + [ph.replacedComment.value];
    }
    var lines: seq<string> := [];
    var k := 0;
    while k < |ph.matches|
      invariant 0 <= k <= |ph.matches|
      invariant lines == SourceLines(ph.matches[..k], refs)
    {
      var m := ph.matches[k];
      assert ph.matches[..k + 1][..k] == ph.matches[..k];
      if m.id in refs {
        lines := lines + ["- " + SourceLabel(m)];
      }
      k := k + 1;
    }
    assert ph.matches[..k] == ph.matches;
    if lines != [] {
      parts := parts + ["Sources:\n" + Join("\n", lines)];
    }
    if parts == [] {
      return None;
    }
    return Some(Join("\n\n", parts));
  }

  /** There are no source lines exactly when no match is referenced. */
  lemma {:induction false} SourceLinesEmpty(ms: seq<MatchedNode>, refs: seq<string>)
    ensures SourceLines(ms, refs) == [] <==> forall k :: 0 <= k < |ms| ==> ms[k].id !in refs
  {
    if ms != [] {
      var init := ms[..|ms| - 1];
      SourceLinesEmpty(init, refs);
      assert forall k :: 0 <= k < |init| ==> init[k] == ms[k];
    }
  }

  /** Each source line is `- ` followed by the match's label. */
  lemma {:induction false} SourceLinesShape(ms: seq<MatchedNode>, refs: seq<string>)
    ensures |SourceLines(ms, refs)| <= |ms|
    ensures forall i :: 0 <= i < |SourceLines(ms, refs)| ==> StartsWith(SourceLines(ms, refs)[i], "- ")
  {
    if ms != [] {
      SourceLinesShape(ms[..|ms| - 1], refs);
    }
  }

  lemma JoinStarts(sep: string, ss: seq<string>)
    requires ss != []
    ensures StartsWith(Join(sep, ss), ss[0])
  {
  }

  /**
   * No comment without references, nor when there is neither a comment nor a
   * referenced match; otherwise it starts with the comment, or with the
   * `Sources:` block when there is no comment.
   */
  lemma CommentTextSpec(ph: Placeholder)
    ensures CommentFor(ph).None? <==>
      (!NonEmpty(ph.replacedReference)
       || (!Truthy(ph.replacedComment) && forall k :: 0 <= k < |ph.matches| ==> ph.matches[k].id !in ph.replacedReference.value))
    ensures NonEmpty(ph.replacedReference) && Truthy(ph.replacedComment) ==>
      CommentFor(ph).Some? && StartsWith(CommentFor(ph).value, ph.replacedComment.value)
    ensures NonEmpty(ph.replacedReference) && !Truthy(ph.replacedComment) && CommentFor(ph).Some? ==>
      StartsWith(CommentFor(ph).value, "Sources:\n- ")
  {
    if NonEmpty(ph.replacedReference) {
      var refs := ph.replacedReference.value;
      var lines := SourceLines(ph.matches, refs);
      var parts := CommentParts(ph);
      SourceLinesEmpty(ph.matches, refs);
      if parts != [] {
        JoinStarts("\n\n", parts);
        if !Truthy(ph.replacedComment) {
          SourceLinesShape(ph.matches, refs);
          JoinStarts("\n", lines);
          assert StartsWith(lines[0], "- ");
          assert parts[0] == "Sources:\n" + Join("\n", lines);
        }
      }
    }
  }

  // ---------------------------------------------------------------------------
  // Style classification
  // ---------------------------------------------------------------------------

  /**
   * The paragraph style fields the model reads. Point values are kept as the
   * text Python prints for them.
   */
  datatype Style = Style(
    name: string,
    alignment: Option<string>,
    spaceBefore: Option<string>,
    spaceAfter: Option<string>,
    leftIndent: Option<string>,
    rightIndent: Option<string>,
    hangingIndent: Option<string>,
    lineSpacingRule: Option<string>,
    lineSpacingValue: Option<string>,
    pageBreakBefore: Option<bool>)

  /** The fuzzy name matcher: does the name closely match the pattern? */
  type Matcher = (string, string) -> bool

  function Normalize(s: string): string {
    Strip(Lower(s))
  }

  /** The first index at or after `i` that is not whitespace. */
  function SkipSpaces(s: string, i: nat): (j: nat)
    requires i <= |s|
    ensures i <= j <= |s|
    ensures forall k :: i <= k < j ==> IsSpace(s[k])
    ensures j < |s| ==> !IsSpace(s[j])
    decreases |s| - i
  {
    if i < |s| && IsSpace(s[i]) then SkipSpaces(s, i + 1) else i
  }

  /** The end of the run of digits starting at `i`. */
  function DigitsEnd(s: string, i: nat): (j: nat)
    requires i <= |s|
    ensures i <= j <= |s|
    ensures forall k :: i <= k < j ==> IsDigit(s[k])
    ensures j < |s| ==> !IsDigit(s[j])
    decreases |s| - i
  {
    if i < |s| && IsDigit(s[i]) then DigitsEnd(s, i + 1) else i
  }

  /** The digits `re.search(r"heading\s*(\d+)", s)` captures, searching from position `p`. */
  function SearchHeading(s: string, p: nat): (r: Option<string>)
    ensures r.Some? ==> r.value != [] && AllDigits(r.value)
    decreases |s| - p
  {
    if p + 7 > |s| then None
    else
      var d := SkipSpaces(s, p + 7);
      var e := DigitsEnd(s, d);
      if s[p..p + 7] == "heading" && d < e then Some(s[d..e]) else SearchHeading(s, p + 1)
  }

  /** `extract_heading_level`: the number after the first `heading`, if any. */
  function HeadingLevel(s: string): (r: Option<int>)
    ensures r.Some? ==> r.value >= 0
  {
    match SearchHeading(s, 0)
    case None => None
    case Some(digits) => Some(DigitsValue(digits))
  }

  /**
   * `ParagraphStyleModel.classify_style`: the kind ("caption" or "heading")
   * and, for headings, the level; a caption match wins over a heading match.
   */
  function ClassifyStyle(style: Style, matcher: Matcher): (r: (Option<string>, Option<int>))
    ensures style.name == "" ==> r == (None, None)
    ensures r.0 == Some("caption") ==> r.1 == None
    ensures r.1.Some? ==> r.0 == Some("heading") && r.1.value >= 0
    ensures r.0 != None ==> r.0 == Some("caption") || r.0 == Some("heading")
  {
    if style.name == "" then (None, None)
    else
      var name := Normalize(style.name);
      if matcher(Normalize(name), "caption") then (Some("caption"), None)
      else if matcher(Normalize(name), "heading") then (Some("heading"), HeadingLevel(name))
      else (None, None)
  }

  lemma SkipSpacesOver(s: string, i: nat, n: nat)
    requires i + n <= |s| && forall k :: i <= k < i + n ==> IsSpace(s[k])
    requires i + n < |s| && !IsSpace(s[i + n])
    ensures SkipSpaces(s, i) == i + n
    decreases n
  {
    if n > 0 {
      SkipSpacesOver(s, i + 1, n - 1);
    }
  }

  lemma DigitsEndOver(s: string, i: nat)
    requires i <= |s| && forall k :: i <= k < |s| ==> IsDigit(s[k])
    ensures DigitsEnd(s, i) == |s|
    decreases |s| - i
  {
    if i < |s| {
      DigitsEndOver(s, i + 1);
    }
  }

  /** A search that finds `heading` at the start and digits after the blanks returns those digits. */
  lemma SearchAtStart(s: string, d: nat)
    requires 7 <= d < |s| && s[..7] == "heading"
    requires SkipSpaces(s, 7) == d && DigitsEnd(s, d) == |s|
    ensures SearchHeading(s, 0) == Some(s[d..])
  {
    var p: nat := 0;
    assert !(p + 7 > |s|);
    assert s[p..p + 7] == "heading";
    assert SkipSpaces(s, p + 7) == d;
    assert s[d..DigitsEnd(s, d)] == s[d..];
    assert SearchHeading(s, p) == Some(s[d..]);
  }

  /** Where the parts of `heading`, whitespace and digits lie in their concatenation. */
  lemma NumeralLayout(spaces: string, digits: string)
    requires forall k :: 0 <= k < |spaces| ==> IsSpace(spaces[k])
    requires digits != [] && AllDigits(digits)
    ensures var s := "heading" + spaces + digits;
      && s[..7] == "heading" && s[7 + |spaces|..] == digits
      && SkipSpaces(s, 7) == 7 + |spaces| && DigitsEnd(s, 7 + |spaces|) == |s|
  {
    var a := "heading" + spaces;
    var s := a + digits;
    var d := |a|;
    assert s[..d] == a;
    assert s[d..] == digits;
    assert s[..7] == a[..7] == "heading";
    forall k | 7 <= k < d
      ensures IsSpace(s[k])
    {
      assert s[k] == a[k] == spaces[k - 7];
    }
    assert s[d] == digits[0];
    DigitIsNotSpace(digits[0]);
    SkipSpacesOver(s, 7, |spaces|);
    forall k | d <= k < |s|
      ensures IsDigit(s[k])
    {
      assert s[k] == digits[k - d];
    }
    DigitsEndOver(s, d);
  }

  /** `heading`, any whitespace, then a numeral: the level is that number. */
  lemma HeadingLevelOfNumeral(spaces: string, n: nat)
    requires forall k :: 0 <= k < |spaces| ==> IsSpace(spaces[k])
    ensures HeadingLevel("heading" + spaces + NatToString(n)) == Some(n)
  {
    var digits := NatToString(n);
    var s := "heading" + spaces + digits;
    NumeralLayout(spaces, digits);
    SearchAtStart(s, 7 + |spaces|);
    DigitsRoundTrip(n);
  }

  /** A name that matches "caption" is a caption, whatever else it matches. */
  lemma CaptionWins(style: Style, matcher: Matcher)
    requires style.name != "" && matcher(Normalize(Normalize(style.name)), "caption")
    ensures ClassifyStyle(style, matcher) == (Some("caption"), None)
  {
  }

  // ---------------------------------------------------------------------------
  // The paragraph
  // ---------------------------------------------------------------------------

  datatype Paragraph = Paragraph(
    style: Option<Style>,
    runs: seq<Run>,
    id: Option<string>,
    parentRefId: Option<string>,
    isCaption: Option<bool>,
    isHeading: Option<bool>,
    headingLevel: Option<int>,
    isExample: Option<bool>,
    isInstruction: Option<bool>)

  /** `ParagraphModel.from_text`: one unformatted run, no style, default flags. */
  function ParagraphFromText(text: string): (p: Paragraph)
    ensures TextOf(p.runs) == text && p.id.None? && p.style.None?
  {
    TextOfSingle(FromText(text));
    Paragraph(None, [FromText(text)], None, None, Some(false), Some(false), None, Some(false), Some(false))
  }

  /** The runs' texts in the given mode, joined. */
  function RunsText(runs: seq<Run>, mode: string): string {
    if runs == [] then "" else ToText(runs[0], mode) + RunsText(runs[1..], mode)
  }

  /** `ParagraphModel.to_text(mode)`. */
  function ParagraphText(p: Paragraph, mode: string): string {
    RunsText(p.runs, mode)
  }

  /** In the "full" mode the paragraph's text is its runs' text. */
  lemma {:induction false} FullTextIsText(runs: seq<Run>)
    ensures RunsText(runs, "full") == TextOf(runs)
  {
    if runs != [] {
      FullTextIsText(runs[1..]);
    }
  }

  // ---------------------------------------------------------------------------
  // HTML
  // ---------------------------------------------------------------------------

  function AlignCss(a: string): Option<string> {
    if a == "LEFT" then Some("left")
    else if a == "RIGHT" then Some("right")
    else if a == "CENTER" then Some("center")
    else if a == "JUSTIFY" then Some("justify")
    else None
  }

  /** The printed negation of a printed number. */
  function Negated(t: string): string {
    if t != [] && t[0] == '-' then t[1..] else "-" + t
  }

  /** A printed number is truthy unless it is zero. */
  predicate NumberTruthy(t: string) {
    exists k :: 0 <= k < |t| && '1' <= t[k] <= '9'
  }

  /** The CSS declarations `to_html` derives from the paragraph style, in order. */
  function StyleDeclarations(s: Style): seq<string> {
    (if Truthy(s.alignment) && AlignCss(s.alignment.value).Some? then ["text-align: " + AlignCss(s.alignment.value).value] else [])
    + (if s.spaceBefore.Some? then ["margin-top: " + s.spaceBefore.value + "pt"] else [])
    + (if s.spaceAfter.Some? then ["margin-bottom: " + s.spaceAfter.value + "pt"] else [])
    + (if s.leftIndent.Some? then ["margin-left: " + s.leftIndent.value + "pt"] else [])
    + (if s.rightIndent.Some? then ["margin-right: " + s.rightIndent.value + "pt"] else [])
    + (if s.hangingIndent.Some? then ["text-indent: " + Negated(s.hangingIndent.value) + "pt"] else [])
    + (if Truthy(s.lineSpacingRule) && s.lineSpacingValue.Some? && NumberTruthy(s.lineSpacingValue.value)
       then ["line-height: " + s.lineSpacingValue.value] else [])
    + (if IsSet(s.pageBreakBefore) then ["break-before: page"] else [])
  }

  /** The HTML of the runs whose text is not empty. */
  function InnerHtml(runs: seq<Run>): string {
    if runs == [] then "" else (if runs[0].text != "" then ToHtml(runs[0]) else "") + InnerHtml(runs[1..])
  }

  function ParagraphStyleAttr(p: Paragraph): string {
    var decls := if p.style.Some? then StyleDeclarations(p.style.value) else [];
    if decls == [] then "" else " style=\"" + Join("; ", decls) + "\""
  }

  /** `ParagraphModel.to_html`: a `<p>` around the runs' HTML, or around `&nbsp;` when that is empty. */
  function ParagraphHtml(p: Paragraph): string {
    var inner := InnerHtml(p.runs);
    "<p" + ParagraphStyleAttr(p) + ">" + (if inner == "" then "&nbsp;" else inner) + "</p>"
  }

  /** The runs render to nothing exactly when none of them has text. */
  lemma {:induction false} InnerHtmlEmpty(runs: seq<Run>)
    ensures InnerHtml(runs) == "" <==> forall k :: 0 <= k < |runs| ==> runs[k].text == ""
  {
    if runs != [] {
      InnerHtmlEmpty(runs[1..]);
      assert forall k :: 1 <= k < |runs| ==> runs[1..][k - 1] == runs[k];
    }
  }

  /** A paragraph without text renders as a non-breaking space, and only such a paragraph does. */
  lemma ParagraphHtmlBlank(p: Paragraph)
    ensures (forall k :: 0 <= k < |p.runs| ==> p.runs[k].text == "") <==>
      ParagraphHtml(p) == "<p" + ParagraphStyleAttr(p) + ">&nbsp;</p>"
  {
    InnerHtmlEmpty(p.runs);
    var inner := InnerHtml(p.runs);
    var pre := "<p" + ParagraphStyleAttr(p) + ">";
    var blank := pre + "&nbsp;" + "</p>";
    if inner != "" {
      InnerHtmlStartsWithTag(p.runs);
      var html := pre + inner + "</p>";
      assert html[|pre|] == inner[0] == '<';
      assert blank[|pre|] == '&';
    }
  }

  lemma {:induction false} InnerHtmlStartsWithTag(runs: seq<Run>)
    requires InnerHtml(runs) != ""
    ensures InnerHtml(runs)[0] == '<'
  {
    if runs[0].text == "" {
      InnerHtmlStartsWithTag(runs[1..]);
    }
  }

  // ---------------------------------------------------------------------------
  // Intent from the runs' colours
  // ---------------------------------------------------------------------------

  datatype Rgb = Rgb(r: int, g: int, b: int)

  function HexDigitValue(c: char): nat
    requires IsHexDigit(c)
  {
    if '0' <= c <= '9' then c as int - '0' as int
    else if 'a' <= c <= 'f' then c as int - 'a' as int + 10
    else c as int - 'A' as int + 10
  }

  predicate AllHex(s: string) {
    forall k :: 0 <= k < |s| ==> IsHexDigit(s[k])
  }

  function HexValue(s: string): nat
    requires AllHex(s)
  {
    if s == [] then 0 else HexValue(s[..|s| - 1]) * 16 + HexDigitValue(s[|s| - 1])
  }

  /** `int(s, 16)`: surrounding whitespace, an optional sign and hex digits; anything else raises ValueError. */
  function ParseHex(s: string): Result<int> {
    var t := Strip(s);
    if t == "" then Err(ValueError)
    else
      var body := if t[0] == '-' || t[0] == '+' then t[1..] else t;
      if body == [] || !AllHex(body) then Err(ValueError)
      else Ok(if t[0] == '-' then -(HexValue(body) as int) else HexValue(body))
  }

  /** `hex_to_rgb`: None unless six characters remain once `#` is removed. */
  function HexToRgb(color: string): Result<Option<Rgb>> {
    var h := RemoveChar(color, '#');
    if |h| != 6 then Ok(None)
    else match (ParseHex(h[0..2]), ParseHex(h[2..4]), ParseHex(h[4..6]))
      case (Ok(r), Ok(g), Ok(b)) => Ok(Some(Rgb(r, g, b)))
      case _ => Err(ValueError)
  }

  const GreenRef := Rgb(0, 176, 80)
  const RedRef := Rgb(201, 33, 30)

  /** The squared distance between two colours (the source compares its square root). */
  function Dist2(a: Rgb, b: Rgb): int {
    (a.r - b.r) * (a.r - b.r) + (a.g - b.g) * (a.g - b.g) + (a.b - b.b) * (a.b - b.b)
  }

  /** The colour of one run: None when it has none or it is not six hex characters long. */
  function RunRgb(r: Run): Result<Option<Rgb>> {
    var c := GetColor(r);
    if !Truthy(c) then Ok(None) else HexToRgb(c.value)
  }

  /** Each run's colour, one entry per run. */
  function RunRgbs(runs: seq<Run>): (vs: seq<Result<Option<Rgb>>>)
    ensures |vs| == |runs|
  {
    seq(|runs|, i requires 0 <= i < |runs| => RunRgb(runs[i]))
  }

  /** The colours in order; the first missing colour, or the first error, ends the scan. */
  function Scan(vs: seq<Result<Option<Rgb>>>): Result<Option<seq<Rgb>>> {
    if vs == [] then Ok(Some([]))
    else match Scan(vs[..|vs| - 1])
      case Err(e) => Err(e)
      case Ok(None) => Ok(None)
      case Ok(Some(cs)) =>
        match vs[|vs| - 1]
        case Err(e) => Err(e)
        case Ok(None) => Ok(None)
        case Ok(Some(c)) => Ok(Some(cs + [c]))
  }

  /** The runs' colours, or why there are none. */
  function Colors(runs: seq<Run>): Result<Option<seq<Rgb>>> {
    Scan(RunRgbs(runs))
  }

  /** Near-uniform colour close to the green reference is an instruction, close to the red one an example. */
  function IntentOfColors(cs: seq<Rgb>): Option<string> {
    if cs == [] then None
    else if exists k :: 0 <= k < |cs| && Dist2(cs[0], cs[k]) > 100 then None
    else if Dist2(cs[0], GreenRef) < 3600 then Some("instruction")
    else if Dist2(cs[0], RedRef) < 3600 then Some("example")
    else None
  }

  /** What `classify_intent` returns or raises. */
  function Intent(runs: seq<Run>): Result<Option<string>> {
    match Colors(runs)
    case Err(e) => Err(e)
    case Ok(None) => Ok(None)
    case Ok(Some(cs)) => Ok(IntentOfColors(cs))
  }

  /** The scan stopped: an error, or a run without a usable colour. */
  predicate Stopped(c: Result<Option<seq<Rgb>>>) {
    c.Err? || c == Ok(None)
  }

  lemma ScanStep(vs: seq<Result<Option<Rgb>>>)
    requires vs != [] && Stopped(Scan(vs[..|vs| - 1]))
    ensures Scan(vs) == Scan(vs[..|vs| - 1])
  {
  }

  lemma ScanGrows(vs: seq<Result<Option<Rgb>>>, cs: seq<Rgb>, c: Rgb)
    requires vs != [] && Scan(vs[..|vs| - 1]) == Ok(Some(cs)) && vs[|vs| - 1] == Ok(Some(c))
    ensures Scan(vs) == Ok(Some(cs + [c]))
  {
  }

  /** Once the scan has stopped on a prefix, it stops the same way on every longer prefix. */
  lemma {:induction false} ScanStoppedFrom(vs: seq<Result<Option<Rgb>>>, k: nat, j: nat)
    requires k <= j <= |vs| && Stopped(Scan(vs[..k]))
    ensures Scan(vs[..j]) == Scan(vs[..k])
    decreases j
  {
    if j > k {
      ScanStoppedFrom(vs, k, j - 1);
      var xs := vs[..j];
      assert xs[..|xs| - 1] == vs[..j - 1];
      ScanStep(xs);
    }
  }

  lemma ScanStopped(vs: seq<Result<Option<Rgb>>>, k: nat)
    requires k <= |vs| && Stopped(Scan(vs[..k]))
    ensures Scan(vs) == Scan(vs[..k])
  {
    ScanStoppedFrom(vs, k, |vs|);
    assert vs[..|vs|] == vs;
  }

  /** `ParagraphModel.classify_intent`: collects the colours in a loop, then compares them. */
  method ClassifyIntent(p: Paragraph) returns (r: Result<Option<string>>)
    ensures r == Intent(p.runs)
  {
    var runs := p.runs;
    ghost var vs := RunRgbs(runs);
    var colors: seq<Rgb> := [];
    var k := 0;
    while k < |runs|
      invariant 0 <= k <= |runs|
      invariant Scan(vs[..k]) == Ok(Some(colors))
    {
      ghost var xs := vs[..k + 1];
      assert xs[..|xs| - 1] == vs[..k] && xs[|xs| - 1] == vs[k] == RunRgb(runs[k]);
      var color := GetColor(runs[k]);
      if !Truthy(color) {
        ScanStopped(vs, k + 1);
        return Ok(None);
      }
      var rgb := HexToRgb(color.value);
      if rgb.Err? {
        ScanStopped(vs, k + 1);
        return Err(rgb.error);
      }
      if rgb.value.None? {
        ScanStopped(vs, k + 1);
        return Ok(None);
      }
      assert RunRgb(runs[k]) == rgb;
      ScanGrows(xs, colors, rgb.value.value);
      colors := colors + [rgb.value.value];
      k := k + 1;
    }
    assert vs[..k] == vs;
    if colors == [] {
      return Ok(None);
    }
    var base := colors[0];
    if exists j :: 0 <= j < |colors| && Dist2(base, colors[j]) > 100 {
      return Ok(None);
    }
    if Dist2(base, GreenRef) < 3600 {
      return Ok(Some("instruction"));
    }
    if Dist2(base, RedRef) < 3600 {
      return Ok(Some("example"));
    }
    return Ok(None);
  }

  /** `(g - r)^2 <= 2(v - g)^2 + 2(v - r)^2`: one coordinate of the parallelogram law. */
  lemma CoordinateApart(v: int, g: int, r: int)
    ensures (g - r) * (g - r) <= 2 * ((v - g) * (v - g)) + 2 * ((v - r) * (v - r))
  {
    var x, y := v - g, v - r;
    assert (x - y) * (x - y) + (x + y) * (x + y) == 2 * (x * x) + 2 * (y * y);
  }

  /**
   * No colour is within 60 of both references (they are about 252 apart), so
   * checking "instruction" before "example" decides nothing.
   */
  lemma ReferencesApart(c: Rgb)
    ensures !(Dist2(c, GreenRef) < 3600 && Dist2(c, RedRef) < 3600)
  {
    CoordinateApart(c.r, 0, 201);
    CoordinateApart(c.g, 176, 33);
    CoordinateApart(c.b, 80, 30);
  }

  /**
   * An intent is found only when every run has a six-digit colour, all within
   * 10 of the first, and the first is within 60 of the matching reference.
   */
  lemma IntentMeaning(runs: seq<Run>)
    ensures Intent(runs) == Ok(Some("instruction")) || Intent(runs) == Ok(Some("example")) ==>
      && Colors(runs).Ok? && Colors(runs).value.Some?
      && var cs := Colors(runs).value.value;
      && cs != []
      && (forall k :: 0 <= k < |cs| ==> Dist2(cs[0], cs[k]) <= 100)
      && (Intent(runs) == Ok(Some("instruction")) <==> Dist2(cs[0], GreenRef) < 3600)
      && (Intent(runs) == Ok(Some("example")) <==> Dist2(cs[0], RedRef) < 3600)
    ensures runs == [] ==> Intent(runs) == Ok(None)
  {
    if Colors(runs).Ok? && Colors(runs).value.Some? && Colors(runs).value.value != [] {
      ReferencesApart(Colors(runs).value.value[0]);
    }
  }

  // ---------------------------------------------------------------------------
  // Ids
  // ---------------------------------------------------------------------------

  /** Every run's id below `parent`, numbered by position. */
  function RunIds(runs: seq<Run>, parent: string): (out: seq<Run>)
    ensures |out| == |runs|
  {
    seq(|runs|, i requires 0 <= i < |runs| => AssignRunId(runs[i], parent, i))
  }

  /** The paragraph once `assign_ids(parent, index)` has run. */
  function ParagraphWithIds(p: Paragraph, parent: string, index: int): Paragraph {
    var id := MakeId(parent, "para", index);
    p.(id := Some(id), runs := RunIds(p.runs, id))
  }

  /** `ParagraphModel.assign_ids`: the paragraph's id, then each run's. */
  method AssignParagraphIds(p: Paragraph, parent: string, index: int) returns (q: Paragraph)
    ensures q == ParagraphWithIds(p, parent, index)
  {
    var id := MakeId(parent, "para", index);
    var runs: seq<Run> := [];
    var i := 0;
    while i < |p.runs|
      invariant 0 <= i <= |p.runs| && |runs| == i
      invariant forall j :: 0 <= j < i ==> runs[j] == AssignRunId(p.runs[j], id, j)
    {
      runs := runs + [AssignRunId(p.runs[i], id, i)];
      i := i + 1;
    }
    assert runs == RunIds(p.runs, id);
    q := p.(id := Some(id), runs := runs);
  }

  /** Assigning run ids keeps the paragraph's text. */
  lemma RunIdsKeepText(runs: seq<Run>, parent: string)
    ensures TextOf(RunIds(runs, parent)) == TextOf(runs)
  {
    SameRunTexts(RunIds(runs, parent), runs);
  }

  /** The runs of one paragraph get pairwise different ids. */
  lemma RunIdsDistinct(runs: seq<Run>, parent: string)
    ensures forall i, j :: 0 <= i < j < |runs| ==> RunIds(runs, parent)[i].id != RunIds(runs, parent)[j].id
  {
    var out := RunIds(runs, parent);
    forall i, j | 0 <= i < j < |runs| ensures out[i].id != out[j].id {
      if out[i].id == out[j].id {
        MakeIdInjective(parent, "run", i, parent, "run", j);
      }
    }
  }

  /** Assigning the same ids again changes nothing. */
  /** Ids change neither the text in any mode nor, when assigned again, the paragraph. */
  lemma ParagraphIdsStable(p: Paragraph, parent: string, index: int, mode: string)
    ensures ParagraphText(ParagraphWithIds(p, parent, index), mode) == ParagraphText(p, mode)
    ensures ParagraphWithIds(ParagraphWithIds(p, parent, index), parent, index) == ParagraphWithIds(p, parent, index)
  {
    var q := ParagraphWithIds(p, parent, index);
    SameRunsText(q.runs, p.runs, mode);
  }

  lemma {:induction false} SameRunsText(a: seq<Run>, b: seq<Run>, mode: string)
    requires |a| == |b| && forall k :: 0 <= k < |a| ==> a[k].text == b[k].text && a[k].attrs == b[k].attrs
    ensures RunsText(a, mode) == RunsText(b, mode)
  {
    if a != [] {
      SameRunsText(a[1..], b[1..], mode);
    }
  }

  lemma {:induction false} SameRunTexts(a: seq<Run>, b: seq<Run>)
    requires |a| == |b| && forall k :: 0 <= k < |a| ==> a[k].text == b[k].text
    ensures TextOf(a) == TextOf(b)
  {
    if a != [] {
      SameRunTexts(a[1..], b[1..]);
    }
  }

  // ---------------------------------------------------------------------------
  // Placeholders
  // ---------------------------------------------------------------------------

  /**
   * `ParagraphModel.apply_inline_placeholder`: when there is replacement text
   * and the paragraph holds the placeholder's text, the runs become the tracked
   * replacement and the result is True; otherwise nothing changes.
   */
  method ApplyInlinePlaceholder(p: Paragraph, ph: Placeholder, tokenize: Tokenizer) returns (q: Paragraph, applied: bool)
    ensures applied <==> Truthy(ph.replacedText) && Contains(TextOf(p.runs), ph.text)
    ensures !applied ==> q == p
    ensures applied ==>
      q == p.(runs := Replaced(p.runs, ph.text, ParseRuns(tokenize(ph.replacedText.value)), CommentFor(ph)))
  {
    if !Truthy(ph.replacedText) {
      return p, false;
    }
    var full := ParagraphText(p, "full");
    FullTextIsText(p.runs);
    if !Contains(full, ph.text) {
      return p, false;
    }
    var comment := BuildCommentText(ph);
    var runs := ReplaceText(p.runs, ph.text, tokenize, ph.replacedText.value, comment);
    return p.(runs := runs), true;
  }

  /**
   * `ParagraphModel.apply_deleted_placeholder`: when the paragraph holds the
   * text, it is dropped from the runs and the result is True.
   */
  method ApplyDeletedPlaceholder(p: Paragraph, ph: Placeholder) returns (q: Paragraph, applied: bool)
    ensures applied <==> Contains(TextOf(p.runs), ph.text)
    ensures !applied ==> q == p
    ensures applied ==> q == p.(runs := Dropped(p.runs, ph.text))
  {
    var full := ParagraphText(p, "full");
    FullTextIsText(p.runs);
    if !Contains(full, ph.text) {
      return p, false;
    }
    var runs := DropText(p.runs, ph.text);
    return p.(runs := runs), true;
  }

  /** When a paragraph holds a non-empty text, a window of its runs holds it. */
  lemma HeldTextHasWindow(runs: seq<Run>, text: string)
    requires text != "" && Contains(TextOf(runs), text)
    ensures RunWindow(runs, text).Some?
  {
    WindowExistsIff(runs, text);
    if runs == [] {
      ContainsIff(TextOf(runs), text);
    }
  }
}
