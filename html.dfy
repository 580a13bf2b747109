/**
 * The events an HTML tokenizer (Python's `html.parser.HTMLParser`) reports to
 * its handlers. Tokenizing itself belongs to the standard library and is not
 * modelled: a tokenizer is a function from markup to events.
 */
module Html {
  import opened Wrappers
  import opened Text

  /**
   * One parser event. Tag names arrive lower-cased, character references in
   * data are already decoded, and a self-closing tag arrives as a start tag
   * followed by an end tag.
   */
  datatype Token =
    | StartTag(name: string, attrs: seq<(string, string)>)
    | EndTag(name: string)
    | Data(text: string)

  type Tokenizer = string -> seq<Token>

  /** `dict(attrs)[key]`: the value of the last attribute with that name. */
  function AttrLookup(attrs: seq<(string, string)>, key: string): Option<string> {
    if attrs == [] then None
    else if attrs[|attrs| - 1].0 == key then Some(attrs[|attrs| - 1].1)
    else AttrLookup(attrs[..|attrs| - 1], key)
  }

  /** The lookup finds a value exactly when the name occurs, and it is the value of the last such attribute. */
  lemma {:induction false} AttrLookupLast(attrs: seq<(string, string)>, key: string)
    ensures AttrLookup(attrs, key).Some? <==> exists k :: 0 <= k < |attrs| && attrs[k].0 == key
    ensures AttrLookup(attrs, key).Some? ==>
      exists k :: (0 <= k < |attrs| && attrs[k] == (key, AttrLookup(attrs, key).value) &&
                   forall m :: k < m < |attrs| ==> attrs[m].0 != key)
  {
    if attrs != [] && attrs[|attrs| - 1].0 != key {
      var init := attrs[..|attrs| - 1];
      AttrLookupLast(init, key);
      assert forall k :: 0 <= k < |init| ==> init[k] == attrs[k];
    }
  }

  /** The concatenated character data of a token stream. */
  function DataText(tokens: seq<Token>): string {
    if tokens == [] then ""
    else (if tokens[0].Data? then tokens[0].text else "") + DataText(tokens[1..])
  }

  lemma {:induction false} DataTextAppend(a: seq<Token>, b: seq<Token>)
    ensures DataText(a + b) == DataText(a) + DataText(b)
  {
    if a == [] {
      assert a + b == b;
    } else {
      assert (a + b)[1..] == a[1..] + b;
      DataTextAppend(a[1..], b);
    }
  }

  /** Serialises tag attributes as ` name="value"`, values written as they are. */
  function RenderAttrs(attrs: seq<(string, string)>): string {
    if attrs == [] then "" else " " + attrs[0].0 + "=\"" + attrs[0].1 + "\"" + RenderAttrs(attrs[1..])
  }

  /** Serialises events back to markup; character data is escaped. */
  function Render(tokens: seq<Token>): string {
    if tokens == [] then ""
    else
      var head := match tokens[0]
        case StartTag(n, a) => "<" + n + RenderAttrs(a) + ">"
        case EndTag(n) => "</" + n + ">"
        case Data(t) => Escape(t);
      head + Render(tokens[1..])
  }

  lemma {:induction false} RenderAppend(a: seq<Token>, b: seq<Token>)
    ensures Render(a + b) == Render(a) + Render(b)
  {
    if a == [] {
      assert a + b == b;
    } else {
      assert (a + b)[1..] == a[1..] + b;
      RenderAppend(a[1..], b);
    }
  }
}
