/**
 * Reading runs back from inline HTML: a parser that keeps a stack of the
 * attributes in force and emits one run per piece of character data.
 */
module RunHtml {
  import opened Wrappers
  import opened Text
  import opened Html
  import opened Runs

  // ---------------------------------------------------------------------------
  // Inline CSS
  // ---------------------------------------------------------------------------

  /** The run case a `text-transform` value maps back to; other values unset it. */
  function CaseFromCss(value: string): (c: Option<string>)
    ensures c.Some? <==> value in {"uppercase", "capitalize"}
    ensures value == "uppercase" ==> c == Some("upper")
    ensures value == "capitalize" ==> c == Some("capitalize")
  {
    if value == "uppercase" then Some("upper")
    else if value == "capitalize" then Some("capitalize")
    else None
  }

  /** The stripped key and value of a `key: value` declaration, split at the first colon. */
  function Declaration(rule: string): Option<(string, string)> {
    if ':' !in rule then None
    else
      var i := FirstIndexOf(rule, ':');
      Some((Strip(rule[..i]), Strip(rule[i + 1..])))
  }

  /** The effect of one CSS declaration on the attributes being built. */
  function ApplyDeclaration(a: Attributes, rule: string): (a': Attributes)
    ensures Declaration(rule).None? ==> a' == a
    ensures a'.bold == a.bold && a'.italic == a.italic && a'.subscript == a.subscript
      && a'.superscript == a.superscript && a'.styles == a.styles && a'.commentIds == a.commentIds
      && a'.commentText == a.commentText && a'.trackedChange == a.trackedChange
    ensures a'.underline != a.underline ==> a'.underline == Some(true)
  {
    match Declaration(rule)
    case None => a
    case Some((key, value)) =>
      if key == "font-size" && EndsWith(value, "pt") then a.(fontSize := Some(value[..|value| - 2]))
      else if key == "font-family" then a.(fontName := Some(StripChars(value, {'\'', '"'})))
      else if key == "color" && StartsWith(value, "#") then a.(fontColor := Some(value[1..]))
      else if key == "text-decoration" && Contains(value, "underline") then a.(underline := Some(true))
      else if key == "text-transform" then a.(textCase := CaseFromCss(value))
      else a
  }

  /** The declarations applied in order. */
  function ApplyDeclarations(a: Attributes, rules: seq<string>): Attributes
    decreases |rules|
  {
    if rules == [] then a else ApplyDeclarations(ApplyDeclaration(a, rules[0]), rules[1..])
  }

  /** `_RunHTMLParser._parse_style`: applies each `;`-separated declaration of `style`. */
  method ParseStyle(style: string, attrs: Attributes) returns (a: Attributes)
    ensures a == ApplyDeclarations(attrs, Split(style, ';'))
    ensures a.bold == attrs.bold && a.italic == attrs.italic && a.subscript == attrs.subscript
      && a.superscript == attrs.superscript && a.styles == attrs.styles
  {
    var rules := Split(style, ';');
    a := attrs;
    var i := 0;
    while i < |rules|
      invariant 0 <= i <= |rules|
      invariant ApplyDeclarations(a, rules[i..]) == ApplyDeclarations(attrs, rules)
      invariant a.bold == attrs.bold && a.italic == attrs.italic && a.subscript == attrs.subscript
        && a.superscript == attrs.superscript && a.styles == attrs.styles
    {
      assert rules[i..][1..] == rules[i + 1..];
      a := ApplyDeclaration(a, rules[i]);
      i := i + 1;
    }
  }

  // ---------------------------------------------------------------------------
  // The parser
  // ---------------------------------------------------------------------------

  /** The attributes pushed for a start tag below `parent`. */
  function Opened(parent: Attributes, tag: string, attrs: seq<(string, string)>): (a: Attributes)
    ensures tag == "strong" ==> a == parent.(bold := Some(true))
    ensures tag == "em" ==> a == parent.(italic := Some(true))
    ensures tag == "sub" ==> a == parent.(subscript := Some(true))
    ensures tag == "sup" ==> a == parent.(superscript := Some(true))
    ensures tag !in {"strong", "em", "sub", "sup", "span"} ==> a == parent
  {
    if tag == "strong" then parent.(bold := Some(true))
    else if tag == "em" then parent.(italic := Some(true))
    else if tag == "sub" then parent.(subscript := Some(true))
    else if tag == "sup" then parent.(superscript := Some(true))
    else if tag == "span" then
      var withClass := match AttrLookup(attrs, "class")
        case Some(c) => parent.(styles := Some(SplitWhitespace(c)))
        case None => parent;
      match AttrLookup(attrs, "style")
      case Some(st) => ApplyDeclarations(withClass, Split(st, ';'))
      case None => withClass
    else parent
  }

  /** The parser's state: the runs emitted so far and the attribute stack. */
  datatype ParseState = ParseState(runs: seq<Run>, stack: seq<Attributes>)

  const Initial := ParseState([], [NoAttributes])

  /** The state after one event. */
  function Step(s: ParseState, t: Token): (s': ParseState)
    requires s.stack != []
    ensures s'.stack != [] && s'.stack[0] == s.stack[0]
  {
    match t
    case StartTag(tag, attrs) => s.(stack := s.stack + [Opened(s.stack[|s.stack| - 1], tag, attrs)])
    case EndTag(_) => if |s.stack| > 1 then s.(stack := s.stack[..|s.stack| - 1]) else s
    case Data(text) =>
      if text == "" then s else s.(runs := s.runs + [Run(text, s.stack[|s.stack| - 1], None)])
  }

  /** The state after a sequence of events. */
  function Steps(s: ParseState, tokens: seq<Token>): (s': ParseState)
    requires s.stack != []
    ensures s'.stack != [] && s'.stack[0] == s.stack[0]
    decreases |tokens|
  {
    if tokens == [] then s else Steps(Step(s, tokens[0]), tokens[1..])
  }

  /** The runs read from a sequence of events. */
  function ParseRuns(tokens: seq<Token>): seq<Run> {
    Steps(Initial, tokens).runs
  }

  /** `_RunHTMLParser`: the parser object and its handlers. */
  class RunHtmlParser {
    var runs: seq<Run>
    var stack: seq<Attributes>

    /** The bottom of the stack holds the empty attributes and is never popped. */
    ghost predicate Valid()
      reads this
    {
      stack != [] && stack[0] == NoAttributes
    }

    function State(): ParseState
      reads this
    {
      ParseState(runs, stack)
    }

    constructor()
      ensures Valid() && State() == Initial
    {
      runs := [];
      stack := [NoAttributes];
    }

    /** `handle_starttag`: pushes a copy of the top attributes with the tag's formatting. */
    method HandleStartTag(tag: string, attrs: seq<(string, string)>)
      requires Valid()
      modifies this
      ensures Valid()
      ensures runs == old(runs)
      ensures stack == old(stack) + [Opened(old(stack)[|old(stack)| - 1], tag, attrs)]
    {
      var parent := stack[|stack| - 1];
      var current := parent;
      if tag == "strong" {
        current := current.(bold := Some(true));
      } else if tag == "em" {
        current := current.(italic := Some(true));
      } else if tag == "sub" {
        current := current.(subscript := Some(true));
      } else if tag == "sup" {
        current := current.(superscript := Some(true));
      } else if tag == "span" {
        var cls := AttrLookup(attrs, "class");
        if cls.Some? {
          current := current.(styles := Some(SplitWhitespace(cls.value)));
        }
        var style := AttrLookup(attrs, "style");
        if style.Some? {
          current := ParseStyle(style.value, current);
        }
      }
      stack := stack + [current];
    }

    /** `handle_endtag`: pops the stack unless only the base entry is left. */
    method HandleEndTag(tag: string)
      requires Valid()
      modifies this
      ensures Valid()
      ensures runs == old(runs)
      ensures stack == if |old(stack)| > 1 then old(stack)[..|old(stack)| - 1] else old(stack)
    {
      if |stack| > 1 {
        stack := stack[..|stack| - 1];
      }
    }

    /** `handle_data`: non-empty data becomes a run carrying the top attributes. */
    method HandleData(data: string)
      requires Valid()
      modifies this
      ensures Valid()
      ensures stack == old(stack)
      ensures runs == old(runs) + (if data == "" then [] else [Run(data, stack[|stack| - 1], None)])
    {
      if data == "" {
        return;
      }
      runs := runs + [Run(data, stack[|stack| - 1], None)];
    }

    /** `feed`: every event of the markup, in order, to its handler. */
    method Feed(tokens: seq<Token>)
      requires Valid()
      modifies this
      ensures Valid()
      ensures State() == Steps(old(State()), tokens)
    {
      var i := 0;
      while i < |tokens|
        invariant 0 <= i <= |tokens|
        invariant Valid()
        invariant Steps(State(), tokens[i..]) == Steps(old(State()), tokens)
      {
        assert tokens[i..][1..] == tokens[i + 1..];
        ghost var before := State();
        match tokens[i] {
          case StartTag(tag, attrs) => HandleStartTag(tag, attrs);
          case EndTag(tag) => HandleEndTag(tag);
          case Data(text) => HandleData(text);
        }
        assert State() == Step(before, tokens[i]);
        i := i + 1;
      }
    }
  }

  /** `RunModel.from_html`: the runs a fresh parser reads from the markup. */
  method FromHtml(tokenize: Tokenizer, html: string) returns (runs: seq<Run>)
    ensures runs == ParseRuns(tokenize(html))
    ensures TextOf(runs) == DataText(tokenize(html))
    ensures forall k :: 0 <= k < |runs| ==> runs[k].text != "" && runs[k].id.None?
  {
    var parser := new RunHtmlParser();
    parser.Feed(tokenize(html));
    runs := parser.runs;
    ParseRunsText(tokenize(html));
    ParseRunsShape(tokenize(html));
  }

  lemma {:induction false} StepsText(s: ParseState, tokens: seq<Token>)
    requires s.stack != []
    ensures TextOf(Steps(s, tokens).runs) == TextOf(s.runs) + DataText(tokens)
    decreases |tokens|
  {
    if tokens != [] {
      var s1 := Step(s, tokens[0]);
      StepsText(s1, tokens[1..]);
      if tokens[0].Data? && tokens[0].text != "" {
        TextOfAppend(s.runs, [s1.runs[|s1.runs| - 1]]);
        TextOfSingle(s1.runs[|s1.runs| - 1]);
      }
    }
  }

  /** The runs read from markup hold exactly its character data, in order. */
  lemma ParseRunsText(tokens: seq<Token>)
    ensures TextOf(ParseRuns(tokens)) == DataText(tokens)
  {
    StepsText(Initial, tokens);
  }

  lemma {:induction false} StepsShape(s: ParseState, tokens: seq<Token>)
    requires s.stack != []
    requires forall k :: 0 <= k < |s.runs| ==> s.runs[k].text != "" && s.runs[k].id.None?
    ensures |Steps(s, tokens).runs| >= |s.runs| && Steps(s, tokens).runs[..|s.runs|] == s.runs
    ensures forall k :: 0 <= k < |Steps(s, tokens).runs| ==>
      Steps(s, tokens).runs[k].text != "" && Steps(s, tokens).runs[k].id.None?
    decreases |tokens|
  {
    if tokens != [] {
      var s1 := Step(s, tokens[0]);
      StepsShape(s1, tokens[1..]);
      assert s1.runs[..|s.runs|] == s.runs;
      var r := Steps(s, tokens).runs;
      assert r[..|s.runs|] == r[..|s1.runs|][..|s.runs|];
    }
  }

  /** Every run read from markup is non-empty and has no id yet. */
  lemma ParseRunsShape(tokens: seq<Token>)
    ensures forall k :: 0 <= k < |ParseRuns(tokens)| ==> ParseRuns(tokens)[k].text != "" && ParseRuns(tokens)[k].id.None?
  {
    StepsShape(Initial, tokens);
  }

  /** A flag set on an entry of the stack stays set on every entry pushed above it. */
  predicate FlagsNest(stack: seq<Attributes>) {
    forall i, j :: 0 <= i < j < |stack| ==> Inherits(stack[i], stack[j])
  }

  /** Every formatting flag set on `outer` is set on `inner`. */
  predicate Inherits(outer: Attributes, inner: Attributes) {
    (IsSet(outer.bold) ==> IsSet(inner.bold))
    && (IsSet(outer.italic) ==> IsSet(inner.italic))
    && (IsSet(outer.subscript) ==> IsSet(inner.subscript))
    && (IsSet(outer.superscript) ==> IsSet(inner.superscript))
    && (IsSet(outer.underline) ==> IsSet(inner.underline))
  }

  lemma OpenedKeepsFlags(parent: Attributes, tag: string, attrs: seq<(string, string)>)
    ensures Inherits(parent, Opened(parent, tag, attrs))
  {
    if tag == "span" {
      var withClass := match AttrLookup(attrs, "class")
        case Some(c) => parent.(styles := Some(SplitWhitespace(c)))
        case None => parent;
      match AttrLookup(attrs, "style") {
        case Some(st) => DeclarationsKeepFlags(withClass, Split(st, ';'));
        case None =>
      }
    }
  }

  lemma {:induction false} DeclarationsKeepFlags(a: Attributes, rules: seq<string>)
    ensures var a' := ApplyDeclarations(a, rules);
      a'.bold == a.bold && a'.italic == a.italic && a'.subscript == a.subscript
      && a'.superscript == a.superscript && (IsSet(a.underline) ==> IsSet(a'.underline))
    decreases |rules|
  {
    if rules != [] {
      DeclarationsKeepFlags(ApplyDeclaration(a, rules[0]), rules[1..]);
    }
  }

  /**
   * Formatting nests: bold, italic, subscript, superscript and underline are
   * inherited by every element opened inside one that sets them.
   */
  lemma {:induction false} StepsKeepNesting(s: ParseState, tokens: seq<Token>)
    requires s.stack != [] && FlagsNest(s.stack)
    ensures FlagsNest(Steps(s, tokens).stack)
    decreases |tokens|
  {
    if tokens != [] {
      StepKeepsNesting(s, tokens[0]);
      StepsKeepNesting(Step(s, tokens[0]), tokens[1..]);
    }
  }

  lemma StepKeepsNesting(s: ParseState, t: Token)
    requires s.stack != [] && FlagsNest(s.stack)
    ensures FlagsNest(Step(s, t).stack)
  {
    match t {
      case StartTag(tag, attrs) =>
        var top := s.stack[|s.stack| - 1];
        OpenedKeepsFlags(top, tag, attrs);
        PushKeepsNesting(s.stack, Opened(top, tag, attrs));
      case EndTag(_) =>
        if |s.stack| > 1 {
          var popped := s.stack[..|s.stack| - 1];
          forall i, j | 0 <= i < j < |popped| ensures Inherits(popped[i], popped[j]) {
            assert popped[i] == s.stack[i] && popped[j] == s.stack[j];
          }
        }
      case Data(_) =>
    }
  }

  lemma PushKeepsNesting(stack: seq<Attributes>, a: Attributes)
    requires stack != [] && FlagsNest(stack) && Inherits(stack[|stack| - 1], a)
    ensures FlagsNest(stack + [a])
  {
    var t := stack + [a];
    forall i, j | 0 <= i < j < |t| ensures Inherits(t[i], t[j]) {
      if j == |stack| && i < |stack| - 1 {
        assert Inherits(stack[i], stack[|stack| - 1]);
      }
    }
  }

  /** Every run read from markup carries every flag of every element it sits in. */
  lemma ParsedRunsNest(tokens: seq<Token>)
    ensures FlagsNest(Steps(Initial, tokens).stack)
  {
    StepsKeepNesting(Initial, tokens);
  }
}
