/**
 * Runs: the smallest piece of formatted text in a document. A run carries its
 * text, the character attributes it was written with and an optional id.
 */
module Runs {
  import opened Wrappers
  import opened Text

  /**
   * Character formatting of a run. A font size is kept as the text Python
   * prints for the number (`12.0`, or `12` when it came in as an integer).
   */
  datatype Attributes = Attributes(
    bold: Option<bool>,
    italic: Option<bool>,
    underline: Option<bool>,
    fontSize: Option<string>,
    fontName: Option<string>,
    fontColor: Option<string>,
    subscript: Option<bool>,
    superscript: Option<bool>,
    textCase: Option<string>,
    styles: Option<seq<string>>,
    commentIds: Option<seq<string>>,
    commentText: Option<string>,
    trackedChange: Option<string>)

  /** Attributes with every field unset. */
  const NoAttributes := Attributes(None, None, None, None, None, None, None, None, None, None, None, None, None)

  datatype Run = Run(text: string, attrs: Attributes, id: Option<string>)

  /** The concatenated text of a sequence of runs. */
  function TextOf(rs: seq<Run>): string {
    if rs == [] then "" else rs[0].text + TextOf(rs[1..])
  }

  lemma {:induction false} TextOfAppend(a: seq<Run>, b: seq<Run>)
    ensures TextOf(a + b) == TextOf(a) + TextOf(b)
  {
    if a == [] {
      assert a + b == b;
    } else {
      assert (a + b)[1..] == a[1..] + b;
      TextOfAppend(a[1..], b);
    }
  }

  lemma TextOfSplit(rs: seq<Run>, i: nat)
    requires i <= |rs|
    ensures TextOf(rs) == TextOf(rs[..i]) + TextOf(rs[i..])
  {
    assert rs == rs[..i] + rs[i..];
    TextOfAppend(rs[..i], rs[i..]);
  }

  lemma TextOfSlices(runs: seq<Run>, i: nat, j: nat)
    requires i <= j <= |runs|
    ensures TextOf(runs) == TextOf(runs[..i]) + TextOf(runs[i..j]) + TextOf(runs[j..])
  {
    TextOfSplit(runs, i);
    TextOfSplitSuffix(runs, i, j);
    ConcatAssoc(TextOf(runs[..i]), TextOf(runs[i..j]), TextOf(runs[j..]));
  }

  lemma TextOfSplitSuffix(runs: seq<Run>, i: nat, j: nat)
    requires i <= j <= |runs|
    ensures TextOf(runs[i..]) == TextOf(runs[i..j]) + TextOf(runs[j..])
  {
    var rest := runs[i..];
    TextOfSplit(rest, j - i);
    assert rest[..j - i] == runs[i..j];
    assert rest[j - i..] == runs[j..];
  }

  lemma TextOfSingle(r: Run)
    ensures TextOf([r]) == r.text
  {
    assert [r][1..] == [];
  }

  // ---------------------------------------------------------------------------
  // Ids
  // ---------------------------------------------------------------------------

  /** The id of the `index`-th child of kind `kind` below `parent`. */
  function MakeId(parent: string, kind: string, index: int): string {
    parent + ":" + kind + "::" + IntToString(index)
  }

  /** Splits `s` around its last `c`. */
  function SplitLast(s: string, c: char): Option<(string, string)> {
    match LastIndex(s, c)
    case None => None
    case Some(j) => Some((s[..j], s[j + 1..]))
  }

  lemma SplitLastOf(a: string, c: char, b: string)
    requires c !in b
    ensures SplitLast(a + [c] + b, c) == Some((a, b))
  {
    LastIndexSplit(a, c, b);
    var s := a + [c] + b;
    assert s[..|a|] == a && s[|a| + 1..] == b;
  }

  /** Reads an id written by `MakeId` back into its parent, kind and index. */
  function ParseId(s: string): Option<(string, string, int)> {
    match SplitLast(s, ':')
    case None => None
    case Some((head, tail)) =>
      match ParseInt(tail)
      case Err(_) => None
      case Ok(i) =>
        if head == [] || head[|head| - 1] != ':' then None
        else
          match SplitLast(head[..|head| - 1], ':')
          case None => None
          case Some((parent, kind)) => Some((parent, kind, i))
  }

  /** An id determines the parent id, the kind and the index it was made from. */
  lemma MakeIdRoundTrip(parent: string, kind: string, index: int)
    requires ':' !in kind
    ensures ParseId(MakeId(parent, kind, index)) == Some((parent, kind, index))
  {
    var digits := IntToString(index);
    var head := parent + [':'] + kind + [':'];
    assert MakeId(parent, kind, index) == head + [':'] + digits;
    SplitLastOf(head, ':', digits);
    ParseIntOfInt(index);
    assert head[..|head| - 1] == parent + [':'] + kind;
    SplitLastOf(parent, ':', kind);
  }

  lemma MakeIdInjective(p1: string, k1: string, i1: int, p2: string, k2: string, i2: int)
    requires ':' !in k1 && ':' !in k2
    requires MakeId(p1, k1, i1) == MakeId(p2, k2, i2)
    ensures p1 == p2 && k1 == k2 && i1 == i2
  {
    MakeIdRoundTrip(p1, k1, i1);
    MakeIdRoundTrip(p2, k2, i2);
  }

  /** `RunModel.assign_ids`: the run's id becomes `parent:run::index`. */
  function AssignRunId(r: Run, parent: string, index: int): (r': Run)
    ensures r'.text == r.text && r'.attrs == r.attrs
    ensures r'.id == Some(MakeId(parent, "run", index))
  {
    r.(id := Some(MakeId(parent, "run", index)))
  }

  /** A run's assigned id parses back into its parent, kind and position. */
  lemma RunIdParses(r: Run, parent: string, index: int)
    ensures ParseId(AssignRunId(r, parent, index).id.value) == Some((parent, "run", index))
  {
    MakeIdRoundTrip(parent, "run", index);
  }

  // ---------------------------------------------------------------------------
  // Text and HTML rendering
  // ---------------------------------------------------------------------------

  /** `RunModel.to_text(mode)`: "wrap" marks sub/superscript, "drop" removes it. */
  function ToText(r: Run, mode: string): (s: string)
    ensures mode == "drop" ==> s == (if IsSet(r.attrs.subscript) || IsSet(r.attrs.superscript) then "" else r.text)
    ensures mode != "wrap" && mode != "drop" ==> s == r.text
    ensures mode == "wrap" && IsSet(r.attrs.subscript) ==> s == "<sub>" + r.text + "</sub>"
    ensures mode == "wrap" && !IsSet(r.attrs.subscript) && IsSet(r.attrs.superscript) ==> s == "<sup>" + r.text + "</sup>"
    ensures mode == "wrap" && !IsSet(r.attrs.subscript) && !IsSet(r.attrs.superscript) ==> s == r.text
    ensures mode == "wrap" ==> Contains(s, r.text)
  {
    if mode == "full" then r.text
    else if mode == "wrap" && IsSet(r.attrs.subscript) then
      OccurrenceShift("<sub>", r.text, "</sub>", r.text, 0);
      ContainsIff("<sub>" + r.text + "</sub>", r.text);
      "<sub>" + r.text + "</sub>"
    else if mode == "wrap" && IsSet(r.attrs.superscript) then
      OccurrenceShift("<sup>", r.text, "</sup>", r.text, 0);
      ContainsIff("<sup>" + r.text + "</sup>", r.text);
      "<sup>" + r.text + "</sup>"
    else if mode == "drop" && (IsSet(r.attrs.subscript) || IsSet(r.attrs.superscript)) then ""
    else
      OccurrenceShift("", r.text, "", r.text, 0);
      ContainsIff("" + r.text + "", r.text);
      r.text
  }

  /** Python truthiness of a font size kept as its printed number: a zero size is false. */
  predicate SizeTruthy(size: Option<string>) {
    size.Some? && size.value !in {"", "0", "0.0", "-0.0"}
  }

  /** The CSS declarations `to_html` writes into the span's style attribute, in order. */
  function CssDeclarations(a: Attributes): seq<string> {
    (if SizeTruthy(a.fontSize) then ["font-size: " + a.fontSize.value + "pt"] else [])
    + (if Truthy(a.fontName) then ["font-family: '" + a.fontName.value + "'"] else [])
    + (if Truthy(a.fontColor) then ["color: #" + a.fontColor.value] else [])
    + (if IsSet(a.underline) then ["text-decoration: underline"] else [])
    + (if Truthy(a.textCase) && a.textCase.value in {"upper", "capitalize", "sentence"} then
         ["text-transform: " + CaseCss(a.textCase.value)]
       else [])
  }

  function CaseCss(c: string): string {
    if c == "upper" then "uppercase" else if c == "capitalize" then "capitalize" else "none"
  }

  /** A zero font size, like an absent one, writes no `font-size` declaration. */
  lemma ZeroSizeNotWritten(a: Attributes)
    ensures CssDeclarations(a.(fontSize := Some("0.0"))) == CssDeclarations(a.(fontSize := None))
    ensures CssDeclarations(a.(fontSize := Some("0"))) == CssDeclarations(a.(fontSize := None))
  {
  }

  /** The ` style="…"` part of the span, or nothing. */
  function StyleAttr(a: Attributes): string {
    var decls := CssDeclarations(a);
    if decls == [] then "" else " style=\"" + Join("; ", decls) + "\""
  }

  /** The HTML attributes `to_html` writes after the style, in order. */
  function HtmlAttributes(a: Attributes): seq<string> {
    (if NonEmpty(a.styles) then ["class=\"" + Join(" ", a.styles.value) + "\""] else [])
    + (if NonEmpty(a.commentIds) then ["data-comments=\"" + Join(" ", a.commentIds.value) + "\""] else [])
    + (if Truthy(a.trackedChange) then ["data-track=\"" + a.trackedChange.value + "\""] else [])
  }

  function AttrString(a: Attributes): string {
    var attrs := HtmlAttributes(a);
    if attrs == [] then "" else " " + Join(" ", attrs)
  }

  /** The formatting tags around the text, outermost first. */
  function FormatTags(a: Attributes): seq<string> {
    (if IsSet(a.superscript) then ["sup"] else [])
    + (if IsSet(a.subscript) then ["sub"] else [])
    + (if IsSet(a.italic) then ["em"] else [])
    + (if IsSet(a.bold) then ["strong"] else [])
  }

  function OpenTags(tags: seq<string>): string {
    if tags == [] then "" else "<" + tags[0] + ">" + OpenTags(tags[1..])
  }

  function CloseTags(tags: seq<string>): string {
    if tags == [] then "" else CloseTags(tags[1..]) + "</" + tags[0] + ">"
  }

  /** Wraps `s` in `tag` when `c` holds, as each `if attrs.…` step of `to_html` does. */
  function WrapIf(c: bool, tag: string, s: string): string {
    if c then "<" + tag + ">" + s + "</" + tag + ">" else s
  }

  /** `s` inside the tags, the first tag outermost. */
  function Wrapped(tags: seq<string>, s: string): string {
    OpenTags(tags) + s + CloseTags(tags)
  }

  /**
   * `RunModel.to_html`: the escaped text, wrapped in strong, em, sub and sup in
   * that order, inside a span that carries the style and the HTML attributes.
   */
  function ToHtml(r: Run): string {
    if r.text == "" then ""
    else
      var a := r.attrs;
      var w0 := Escape(r.text);
      var w1 := WrapIf(IsSet(a.bold), "strong", w0);
      var w2 := WrapIf(IsSet(a.italic), "em", w1);
      var w3 := WrapIf(IsSet(a.subscript), "sub", w2);
      var w4 := WrapIf(IsSet(a.superscript), "sup", w3);
      "<span" + StyleAttr(a) + AttrString(a) + ">" + w4 + "</span>"
  }

  lemma WrapIfTags(c: bool, tag: string, tags: seq<string>, s: string)
    ensures WrapIf(c, tag, Wrapped(tags, s)) == Wrapped((if c then [tag] else []) + tags, s)
  {
    if c {
      assert ([tag] + tags)[1..] == tags;
    } else {
      assert [] + tags == tags;
    }
  }

  /**
   * The rendered run is one span whose content is the escaped text inside the
   * formatting tags, outermost first; an empty run renders as nothing.
   */
  lemma ToHtmlLayout(r: Run)
    ensures r.text == "" ==> ToHtml(r) == ""
    ensures r.text != "" ==>
      ToHtml(r) == "<span" + StyleAttr(r.attrs) + AttrString(r.attrs) + ">" + Wrapped(FormatTags(r.attrs), Escape(r.text)) + "</span>"
  {
    if r.text != "" {
      var a := r.attrs;
      var e := Escape(r.text);
      assert Wrapped([], e) == e;
      var t4 := (if IsSet(a.bold) then ["strong"] else []) + [];
      WrapIfTags(IsSet(a.bold), "strong", [], e);
      var t3 := (if IsSet(a.italic) then ["em"] else []) + t4;
      WrapIfTags(IsSet(a.italic), "em", t4, e);
      var t2 := (if IsSet(a.subscript) then ["sub"] else []) + t3;
      WrapIfTags(IsSet(a.subscript), "sub", t3, e);
      var t1 := (if IsSet(a.superscript) then ["sup"] else []) + t2;
      WrapIfTags(IsSet(a.superscript), "sup", t2, e);
      assert FormatTags(a) == t1;
    }
  }

  /** Hexadecimal digit, either case. */
  predicate IsHexDigit(c: char) {
    ('0' <= c <= '9') || ('a' <= c <= 'f') || ('A' <= c <= 'F')
  }

  /** A style entry that starts with `color:` and six hex digits. */
  predicate IsColorStyle(s: string) {
    |s| >= 12 && s[..6] == "color:" && forall k :: 6 <= k < 12 ==> IsHexDigit(s[k])
  }

  /** The first style entry that names a colour. */
  function FirstColorStyle(styles: seq<string>): (r: Option<nat>)
    ensures r.Some? ==> r.value < |styles| && IsColorStyle(styles[r.value])
    ensures r.Some? ==> forall k :: 0 <= k < r.value ==> !IsColorStyle(styles[k])
    ensures r.None? ==> forall k :: 0 <= k < |styles| ==> !IsColorStyle(styles[k])
  {
    if styles == [] then None
    else if IsColorStyle(styles[0]) then Some(0)
    else match FirstColorStyle(styles[1..])
      case None => None
      case Some(k) => Some(k + 1)
  }

  /**
   * `RunModel.get_color`: the upper-cased font colour when one is set, else the
   * six hex digits of the first `color:` style entry, upper-cased.
   */
  function GetColor(r: Run): (c: Option<string>)
    ensures Truthy(r.attrs.fontColor) ==> c == Some(Upper(r.attrs.fontColor.value))
    ensures !Truthy(r.attrs.fontColor) && NonEmpty(r.attrs.styles) && FirstColorStyle(r.attrs.styles.value).Some? ==>
      c == Some(Upper(r.attrs.styles.value[FirstColorStyle(r.attrs.styles.value).value][6..12]))
    ensures c.Some? ==> Truthy(r.attrs.fontColor) || (r.attrs.styles.Some? && exists k :: 0 <= k < |r.attrs.styles.value| && IsColorStyle(r.attrs.styles.value[k]))
  {
    var a := r.attrs;
    if Truthy(a.fontColor) then Some(Upper(a.fontColor.value))
    else if NonEmpty(a.styles) then
      match FirstColorStyle(a.styles.value)
      case Some(k) => Some(Upper(a.styles.value[k][6..12]))
      case None => None
    else None
  }

  // ---------------------------------------------------------------------------
  // Slicing
  // ---------------------------------------------------------------------------

  /** `RunModel.from_text`: a run with the given text and no formatting. */
  function FromText(text: string): (r: Run)
    ensures r.text == text && r.attrs == NoAttributes && r.id.None?
  {
    Run(text, NoAttributes, None)
  }

  /**
   * `RunModel.slice_run`: a new run (without an id) holding `text[start:end]` and a
   * copy of the attributes, or None when the range is empty or out of bounds.
   */
  function SliceRun(r: Run, start: int, end: int): (s: Option<Run>)
    ensures s.Some? <==> 0 <= start < end <= |r.text|
    ensures s.Some? ==> s.value == Run(r.text[start..end], r.attrs, None)
  {
    if start < 0 || end > |r.text| || start >= end then None
    else Some(Run(r.text[start..end], r.attrs, None))
  }

  /** `RunModel.split_run`: the parts before `start`, between the bounds and from `end` on. */
  function SplitRun(r: Run, start: int, end: int): (Option<Run>, Option<Run>, Option<Run>) {
    (SliceRun(r, 0, start), SliceRun(r, start, end), SliceRun(r, end, |r.text|))
  }

  /** Splitting inside the run loses nothing: the three parts give the text back. */
  lemma SplitRunText(r: Run, start: int, end: int)
    requires 0 <= start <= end <= |r.text|
    ensures var (b, m, a) := SplitRun(r, start, end);
      OptText(b) + OptText(m) + OptText(a) == r.text
  {
    var t := r.text;
    assert t == t[..start] + t[start..end] + t[end..];
  }

  function OptText(o: Option<Run>): string {
    if o.Some? then o.value.text else ""
  }

  // ---------------------------------------------------------------------------
  // Merging attributes
  // ---------------------------------------------------------------------------

  /** The fields of `RunAttributes`, in declaration order. */
  datatype Field = Bold | Italic | Underline | FontSize | FontName | FontColor | Subscript
    | Superscript | Case | Styles | CommentIds | CommentText | TrackedChange

  const AllFields: seq<Field> := [Bold, Italic, Underline, FontSize, FontName, FontColor, Subscript,
    Superscript, Case, Styles, CommentIds, CommentText, TrackedChange]

  /** The value of one attribute field, whatever its Python type. */
  datatype Value = Flag(b: Option<bool>) | Str(s: Option<string>) | Strs(l: Option<seq<string>>)

  function Get(a: Attributes, f: Field): Value {
    match f
    case Bold => Flag(a.bold)
    case Italic => Flag(a.italic)
    case Underline => Flag(a.underline)
    case FontSize => Str(a.fontSize)
    case FontName => Str(a.fontName)
    case FontColor => Str(a.fontColor)
    case Subscript => Flag(a.subscript)
    case Superscript => Flag(a.superscript)
    case Case => Str(a.textCase)
    case Styles => Strs(a.styles)
    case CommentIds => Strs(a.commentIds)
    case CommentText => Str(a.commentText)
    case TrackedChange => Str(a.trackedChange)
  }

  /** The value a field holds after `setattr(…, None)`. */
  function Unset(f: Field): Value {
    match f
    case Bold | Italic | Underline | Subscript | Superscript => Flag(None)
    case FontSize | FontName | FontColor | Case | CommentText | TrackedChange => Str(None)
    case Styles | CommentIds => Strs(None)
  }

  /** `setattr(a, f, None)`: only field `f` changes. */
  function Clear(a: Attributes, f: Field): (a': Attributes)
    ensures Get(a', f) == Unset(f)
    ensures forall g :: g != f ==> Get(a', g) == Get(a, g)
  {
    match f
    case Bold => a.(bold := None)
    case Italic => a.(italic := None)
    case Underline => a.(underline := None)
    case FontSize => a.(fontSize := None)
    case FontName => a.(fontName := None)
    case FontColor => a.(fontColor := None)
    case Subscript => a.(subscript := None)
    case Superscript => a.(superscript := None)
    case Case => a.(textCase := None)
    case Styles => a.(styles := None)
    case CommentIds => a.(commentIds := None)
    case CommentText => a.(commentText := None)
    case TrackedChange => a.(trackedChange := None)
  }

  lemma AllFieldsComplete(f: Field)
    ensures f in AllFields
  {
  }

  lemma FieldsDetermine(a: Attributes, b: Attributes)
    requires forall f :: Get(a, f) == Get(b, f)
    ensures a == b
  {
    assert Get(a, Bold) == Get(b, Bold) && Get(a, Italic) == Get(b, Italic);
    assert Get(a, Underline) == Get(b, Underline) && Get(a, FontSize) == Get(b, FontSize);
    assert Get(a, FontName) == Get(b, FontName) && Get(a, FontColor) == Get(b, FontColor);
    assert Get(a, Subscript) == Get(b, Subscript) && Get(a, Superscript) == Get(b, Superscript);
    assert Get(a, Case) == Get(b, Case) && Get(a, Styles) == Get(b, Styles);
    assert Get(a, CommentIds) == Get(b, CommentIds) && Get(a, CommentText) == Get(b, CommentText);
    assert Get(a, TrackedChange) == Get(b, TrackedChange);
  }

  /** Every run in `rs` agrees with the first on field `f`. */
  predicate AllAgree(rs: seq<Run>, f: Field)
    requires rs != []
  {
    AgreeUpTo(rs, |rs|, f)
  }

  /** The first `j` runs agree with the first on field `f`. */
  predicate AgreeUpTo(rs: seq<Run>, j: nat, f: Field)
    requires 0 < j <= |rs|
  {
    forall k :: 0 <= k < j ==> Get(rs[k].attrs, f) == Get(rs[0].attrs, f)
  }

  lemma AgreeStep(rs: seq<Run>, j: nat, f: Field)
    requires 0 < j < |rs|
    ensures AgreeUpTo(rs, j + 1, f) <==> AgreeUpTo(rs, j, f) && Get(rs[j].attrs, f) == Get(rs[0].attrs, f)
  {
  }

  /**
   * `RunModel.merge_attributes`: a field keeps the first run's value when every
   * run has that same value, and is unset otherwise; no runs give empty attributes.
   */
  method MergeAttributes(runs: seq<Run>) returns (base: Attributes)
    ensures runs == [] ==> base == NoAttributes
    ensures runs != [] ==> forall f :: Get(base, f) == (if AllAgree(runs, f) then Get(runs[0].attrs, f) else Unset(f))
  {
    if runs == [] {
      return NoAttributes;
    }
    base := runs[0].attrs;
    var j := 1;
    while j < |runs|
      invariant 1 <= j <= |runs|
      invariant forall f :: Get(base, f) == (if AgreeUpTo(runs, j, f) then Get(runs[0].attrs, f) else Unset(f))
    {
      forall f ensures AgreeUpTo(runs, j + 1, f) <==> AgreeUpTo(runs, j, f) && Get(runs[j].attrs, f) == Get(runs[0].attrs, f) {
        AgreeStep(runs, j, f);
      }
      base := MergeRun(base, runs[j].attrs);
      j := j + 1;
    }
  }

  /** The inner loop of `merge_attributes`: every field on which `next` differs is cleared. */
  method MergeRun(base: Attributes, next: Attributes) returns (merged: Attributes)
    ensures forall f :: Get(merged, f) == (if Get(base, f) == Get(next, f) then Get(base, f) else Unset(f))
  {
    merged := base;
    var fi := 0;
    while fi < |AllFields|
      invariant 0 <= fi <= |AllFields|
      invariant forall i :: 0 <= i < fi ==> Get(merged, AllFields[i]) == MergedField(base, next, AllFields[i])
      invariant forall i :: fi <= i < |AllFields| ==> Get(merged, AllFields[i]) == Get(base, AllFields[i])
    {
      var f := AllFields[fi];
      FieldsDistinct();
      if Get(merged, f) != Get(next, f) {
        merged := Clear(merged, f);
      }
      fi := fi + 1;
    }
    forall f ensures Get(merged, f) == MergedField(base, next, f) {
      AllFieldsComplete(f);
    }
  }

  /** The value field `f` has after comparing `base` with `next`. */
  function MergedField(base: Attributes, next: Attributes, f: Field): Value {
    if Get(base, f) == Get(next, f) then Get(base, f) else Unset(f)
  }

  lemma FieldsDistinct()
    ensures forall x, y :: 0 <= x < y < |AllFields| ==> AllFields[x] != AllFields[y]
  {
  }

  /** Merging runs that all share their attributes gives those attributes. */
  lemma MergeOfUniform(runs: seq<Run>, a: Attributes, base: Attributes)
    requires runs != [] && forall k :: 0 <= k < |runs| ==> runs[k].attrs == a
    requires forall f :: Get(base, f) == (if AllAgree(runs, f) then Get(runs[0].attrs, f) else Unset(f))
    ensures base == a
  {
    FieldsDetermine(base, a);
  }
}
