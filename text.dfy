/**
 * String operations of Python's `str` that the document model relies on:
 * joining, substring search (`in`, `find`), whitespace stripping, splitting,
 * case mapping, integer printing and parsing, and `html.escape`.
 */
module Text {
  import opened Wrappers

  lemma ConcatAssoc(a: string, b: string, c: string)
    ensures a + (b + c) == a + b + c
  {
    assert |a + (b + c)| == |a + b + c|;
    forall k | 0 <= k < |a + b + c| ensures (a + (b + c))[k] == (a + b + c)[k] {
      if k >= |a| + |b| {}
    }
  }

  /** `"".join(ss)` */
  function Concat(ss: seq<string>): string {
    if ss == [] then "" else ss[0] + Concat(ss[1..])
  }

  /** `sep.join(ss)` */
  function Join(sep: string, ss: seq<string>): string {
    if ss == [] then "" else if |ss| == 1 then ss[0] else ss[0] + sep + Join(sep, ss[1..])
  }

  lemma {:induction false} ConcatAppend(a: seq<string>, b: seq<string>)
    ensures Concat(a + b) == Concat(a) + Concat(b)
  {
    if a == [] {
      assert a + b == b;
    } else {
      assert (a + b)[1..] == a[1..] + b;
      ConcatAppend(a[1..], b);
    }
  }

  lemma ConcatSingle(s: string)
    ensures Concat([s]) == s
  {
  }

  /** `pat` occurs in `s` starting at index `k`. */
  predicate IsOccurrence(s: string, pat: string, k: int) {
    0 <= k && k + |pat| <= |s| && s[k..k + |pat|] == pat
  }

  /** The first occurrence of `pat` in `s` at an index `>= k`. */
  function FindFrom(s: string, pat: string, k: nat): Option<nat>
    decreases |s| - k
  {
    if k + |pat| > |s| then None
    else if s[k..k + |pat|] == pat then Some(k)
    else FindFrom(s, pat, k + 1)
  }

  /** `FindFrom` reports the first occurrence at or after `k`, and None only when there is none. */
  lemma {:induction false} FindFromSpec(s: string, pat: string, k: nat)
    ensures var r := FindFrom(s, pat, k);
      && (r.Some? ==> k <= r.value && IsOccurrence(s, pat, r.value))
      && (r.Some? ==> forall j :: k <= j < r.value ==> !IsOccurrence(s, pat, j))
      && (r.None? ==> forall j :: k <= j ==> !IsOccurrence(s, pat, j))
    decreases |s| - k
  {
    if k + |pat| <= |s| && s[k..k + |pat|] != pat {
      FindFromSpec(s, pat, k + 1);
    }
  }

  /** `s.find(pat)` is the first occurrence, and None only when there is none. */
  lemma FindSpec(s: string, pat: string)
    ensures var r := Find(s, pat);
      && (r.Some? ==> IsOccurrence(s, pat, r.value))
      && (r.Some? ==> forall j :: 0 <= j < r.value ==> !IsOccurrence(s, pat, j))
      && (r.None? ==> forall j :: !IsOccurrence(s, pat, j))
  {
    FindFromSpec(s, pat, 0);
    if Find(s, pat).None? {
      forall j ensures !IsOccurrence(s, pat, j) {
        if j >= 0 {}
      }
    }
  }

  /** `s.find(pat)`, with -1 rendered as None. */
  function Find(s: string, pat: string): Option<nat> {
    FindFrom(s, pat, 0)
  }

  /** `pat in s` */
  predicate Contains(s: string, pat: string) {
    Find(s, pat).Some?
  }

  lemma ContainsIff(s: string, pat: string)
    ensures Contains(s, pat) <==> exists k :: IsOccurrence(s, pat, k)
  {
    FindSpec(s, pat);
  }

  lemma {:induction false} OccurrenceShift(a: string, s: string, b: string, pat: string, k: int)
    requires IsOccurrence(s, pat, k)
    ensures IsOccurrence(a + s + b, pat, |a| + k)
  {
    var t := a + s + b;
    assert t[|a| + k..|a| + k + |pat|] == s[k..k + |pat|];
  }

  /** An occurrence that starts past `a` lies in `b`. */
  lemma OccurrenceInSuffix(a: string, b: string, pat: string, k: int)
    requires IsOccurrence(a + b, pat, k) && k >= |a|
    ensures Contains(b, pat)
  {
    assert IsOccurrence(b, pat, k - |a|) by {
      assert b[k - |a|..k - |a| + |pat|] == (a + b)[k..k + |pat|];
    }
    ContainsIff(b, pat);
  }

  /** An occurrence that ends within `a` lies in `a`. */
  lemma OccurrenceInPrefix(a: string, b: string, pat: string, k: int)
    requires IsOccurrence(a + b, pat, k) && k + |pat| <= |a|
    ensures Contains(a, pat)
  {
    assert IsOccurrence(a, pat, k) by {
      assert a[k..k + |pat|] == (a + b)[k..k + |pat|];
    }
    ContainsIff(a, pat);
  }

  /** Characters for which Python's `str.isspace()` holds. */
  predicate IsSpace(c: char) {
    c == ' ' || ('\t' <= c <= '\r') || ('\U{1C}' <= c <= '\U{1F}') || c == '\U{85}' || c == '\U{A0}'
    || c == '\U{1680}' || ('\U{2000}' <= c <= '\U{200A}') || c == '\U{2028}' || c == '\U{2029}'
    || c == '\U{202F}' || c == '\U{205F}' || c == '\U{3000}'
  }

  /** `s.lstrip()` */
  function LStrip(s: string): (r: string)
    ensures |r| <= |s|
    ensures r == "" || !IsSpace(r[0])
  {
    if s != [] && IsSpace(s[0]) then LStrip(s[1..]) else s
  }

  /** `lstrip` removes a prefix made only of whitespace. */
  lemma {:induction false} LStripDropsSpace(s: string)
    ensures LStrip(s) == s[|s| - |LStrip(s)|..]
    ensures forall i :: 0 <= i < |s| - |LStrip(s)| ==> IsSpace(s[i])
  {
    if s != [] && IsSpace(s[0]) {
      LStripDropsSpace(s[1..]);
      assert s[1..][|s| - 1 - |LStrip(s)|..] == s[|s| - |LStrip(s)|..];
      assert forall i :: 1 <= i < |s| - |LStrip(s)| ==> s[i] == s[1..][i - 1];
    }
  }

  /** `s.rstrip()` */
  function RStrip(s: string): (r: string)
    ensures |r| <= |s|
    ensures r == "" || !IsSpace(r[|r| - 1])
  {
    if s != [] && IsSpace(s[|s| - 1]) then RStrip(s[..|s| - 1]) else s
  }

  /** `rstrip` removes a suffix made only of whitespace. */
  lemma {:induction false} RStripDropsSpace(s: string)
    ensures RStrip(s) == s[..|RStrip(s)|]
    ensures forall i :: |RStrip(s)| <= i < |s| ==> IsSpace(s[i])
  {
    if s != [] && IsSpace(s[|s| - 1]) {
      RStripDropsSpace(s[..|s| - 1]);
    }
  }

  /** `s.strip()` */
  function Strip(s: string): (r: string)
    ensures |r| <= |s|
  {
    RStrip(LStrip(s))
  }

  /** A stripped string neither starts nor ends with whitespace. */
  lemma StripEnds(s: string)
    ensures Strip(s) == "" || (!IsSpace(Strip(s)[0]) && !IsSpace(Strip(s)[|Strip(s)| - 1]))
  {
    var l := LStrip(s);
    RStripDropsSpace(l);
    var r := RStrip(l);
    assert r != "" ==> r[0] == l[0];
  }

  /** `s.strip(chars)`: removes the given characters from both ends. */
  function StripChars(s: string, chars: set<char>): (r: string)
    ensures |r| <= |s|
    ensures r == "" || (r[0] !in chars && r[|r| - 1] !in chars)
    ensures (s == "" || (s[0] !in chars && s[|s| - 1] !in chars)) ==> r == s
    decreases |s|
  {
    if s != [] && s[0] in chars then StripChars(s[1..], chars)
    else if s != [] && s[|s| - 1] in chars then StripChars(s[..|s| - 1], chars)
    else s
  }

  lemma StripEmptyIffBlank(s: string)
    ensures Strip(s) == "" <==> forall i :: 0 <= i < |s| ==> IsSpace(s[i])
  {
    var l := LStrip(s);
    LStripDropsSpace(s);
    RStripDropsSpace(l);
    StripEnds(s);
    if Strip(s) == "" {
      assert RStrip(l) == "";
      assert l == "";
    } else {
      assert l != "";
      assert !IsSpace(l[0]);
      assert l[0] == s[|s| - |l|];
    }
  }

  /** ASCII lower-casing (`str.lower()` on the characters the model compares). */
  function LowerChar(c: char): char {
    if 'A' <= c <= 'Z' then (c as int + 32) as char else c
  }

  function Lower(s: string): (r: string)
    ensures |r| == |s| && forall i :: 0 <= i < |s| ==> r[i] == LowerChar(s[i])
  {
    if s == [] then [] else [LowerChar(s[0])] + Lower(s[1..])
  }

  /** ASCII upper-casing (`str.upper()` on the characters the model compares). */
  function UpperChar(c: char): char {
    if 'a' <= c <= 'z' then (c as int - 32) as char else c
  }

  function Upper(s: string): (r: string)
    ensures |r| == |s| && forall i :: 0 <= i < |s| ==> r[i] == UpperChar(s[i])
  {
    if s == [] then [] else [UpperChar(s[0])] + Upper(s[1..])
  }

  predicate StartsWith(s: string, p: string) {
    |p| <= |s| && s[..|p|] == p
  }

  predicate EndsWith(s: string, p: string) {
    |p| <= |s| && s[|s| - |p|..] == p
  }

  /** `s.split(d)` for a one-character separator: keeps empty fields. */
  function Split(s: string, d: char): (r: seq<string>)
    ensures |r| >= 1
    ensures forall i :: 0 <= i < |r| ==> d !in r[i]
    decreases |s|
  {
    if d !in s then [s]
    else
      var i := FirstIndexOf(s, d);
      [s[..i]] + Split(s[i + 1..], d)
  }

  function FirstIndexOf(s: string, c: char): (i: nat)
    requires c in s
    ensures i < |s| && s[i] == c && c !in s[..i]
  {
    if s[0] == c then 0 else 1 + FirstIndexOf(s[1..], c)
  }

  lemma {:induction false} SplitJoin(s: string, d: char)
    ensures Join([d], Split(s, d)) == s
    decreases |s|
  {
    if d in s {
      var i := FirstIndexOf(s, d);
      var head, tail := s[..i], s[i + 1..];
      assert s == head + [d] + tail;
      assert Split(s, d) == [head] + Split(tail, d);
      SplitJoin(tail, d);
      JoinCons([d], head, Split(tail, d));
    }
  }

  lemma JoinCons(sep: string, head: string, rest: seq<string>)
    requires |rest| >= 1
    ensures Join(sep, [head] + rest) == head + sep + Join(sep, rest)
  {
    assert ([head] + rest)[1..] == rest;
  }

  /** `s.split()` with no argument: the maximal runs of non-space characters. */
  function SplitWhitespace(s: string): seq<string>
    decreases |s|
  {
    var t := LStrip(s);
    if t == "" then []
    else
      var n := WordLength(t);
      [t[..n]] + SplitWhitespace(t[n..])
  }

  /** Every field of `s.split()` is a non-empty word without whitespace. */
  lemma {:induction false} SplitWhitespaceWords(s: string)
    ensures forall i :: 0 <= i < |SplitWhitespace(s)| ==> IsWord(SplitWhitespace(s)[i])
    decreases |s|
  {
    var t := LStrip(s);
    if t != "" {
      var n := WordLength(t);
      var w := t[..n];
      var rest := SplitWhitespace(t[n..]);
      SplitWhitespaceWords(t[n..]);
      FirstWord(t);
      var r := SplitWhitespace(s);
      assert r == [w] + rest;
      forall i | 0 <= i < |r| ensures IsWord(r[i]) {
        if i > 0 {
          assert r[i] == rest[i - 1];
        }
      }
    }
  }

  lemma FirstWord(t: string)
    requires t != "" && !IsSpace(t[0])
    ensures IsWord(t[..WordLength(t)])
  {
  }

  /** A non-empty string without whitespace. */
  predicate IsWord(w: string) {
    w != "" && forall j :: 0 <= j < |w| ==> !IsSpace(w[j])
  }

  function WordLength(t: string): (n: nat)
    ensures n <= |t| && forall j :: 0 <= j < n ==> !IsSpace(t[j])
    ensures t != "" && !IsSpace(t[0]) ==> n >= 1
    ensures n < |t| ==> IsSpace(t[n])
  {
    if t == "" || IsSpace(t[0]) then 0 else 1 + WordLength(t[1..])
  }

  /** Removes every occurrence of `c` (`s.replace(c, "")`). */
  function RemoveChar(s: string, c: char): (r: string)
    ensures c !in r && |r| <= |s|
  {
    if s == [] then [] else (if s[0] == c then [] else [s[0]]) + RemoveChar(s[1..], c)
  }

  function DigitChar(d: nat): char
    requires d < 10
  {
    ('0' as int + d) as char
  }

  predicate IsDigit(c: char) {
    '0' <= c <= '9'
  }

  /** `str(n)` for a natural number. */
  function NatToString(n: nat): (r: string)
    ensures r != [] && AllDigits(r)
  {
    if n < 10 then [DigitChar(n)] else NatToString(n / 10) + [DigitChar(n % 10)]
  }

  predicate AllDigits(s: string) {
    forall i :: 0 <= i < |s| ==> IsDigit(s[i])
  }

  /** `str(i)` for an integer. */
  function IntToString(i: int): (r: string)
    ensures r != [] && ':' !in r
  {
    var digits := NatToString(if i < 0 then -i else i);
    assert forall k :: 0 <= k < |digits| ==> digits[k] != ':' by {
      forall k | 0 <= k < |digits| ensures digits[k] != ':' { assert IsDigit(digits[k]); }
    }
    if i < 0 then "-" + digits else digits
  }

  /** The value of a non-empty string of ASCII digits. */
  function DigitsValue(s: string): nat
    requires AllDigits(s)
  {
    if s == [] then 0
    else
      assert IsDigit(s[|s| - 1]);
      DigitsValue(s[..|s| - 1]) * 10 + (s[|s| - 1] as int - '0' as int)
  }

  lemma {:induction false} DigitsRoundTrip(n: nat)
    ensures DigitsValue(NatToString(n)) == n
  {
    if n >= 10 {
      var p := NatToString(n / 10);
      var s := p + [DigitChar(n % 10)];
      assert s[..|s| - 1] == p;
      DigitsRoundTrip(n / 10);
    }
  }

  /** `int(s)`: surrounding whitespace, an optional sign and ASCII digits; anything else raises ValueError. */
  function ParseInt(s: string): (r: Result<int>)
    ensures r.Ok? ==> Strip(s) != ""
  {
    var t := Strip(s);
    if t == "" then Err(ValueError)
    else
      var neg := t[0] == '-';
      var body := if t[0] == '-' || t[0] == '+' then t[1..] else t;
      if body == [] || !AllDigits(body) then Err(ValueError)
      else Ok(if neg then -(DigitsValue(body) as int) else DigitsValue(body))
  }

  lemma DigitIsNotSpace(c: char)
    requires IsDigit(c)
    ensures !IsSpace(c)
  {
  }

  lemma StripUnchanged(s: string)
    requires s != [] && !IsSpace(s[0]) && !IsSpace(s[|s| - 1])
    ensures Strip(s) == s
  {
    assert LStrip(s) == s;
    assert RStrip(s) == s;
  }

  /** `int(str(i)) == i` */
  lemma ParseIntOfInt(i: int)
    ensures ParseInt(IntToString(i)) == Ok(i)
  {
    var m: nat := if i < 0 then -i else i;
    DigitsRoundTrip(m);
    if i < 0 {
      ParseIntOfNegative(NatToString(m));
    } else {
      ParseIntOfDigits(NatToString(m));
    }
  }

  lemma ParseIntOfDigits(digits: string)
    requires digits != [] && AllDigits(digits)
    ensures ParseInt(digits) == Ok(DigitsValue(digits) as int)
  {
    assert IsDigit(digits[0]);
    SignedDigitsStrip(digits, digits);
  }

  lemma ParseIntOfNegative(digits: string)
    requires digits != [] && AllDigits(digits)
    ensures ParseInt("-" + digits) == Ok(-(DigitsValue(digits) as int))
  {
    var t := "-" + digits;
    assert t[0] == '-' && t[1..] == digits;
    SignedDigitsStrip(t, digits);
  }

  /** An optionally negative numeral has no surrounding whitespace. */
  lemma SignedDigitsStrip(t: string, digits: string)
    requires digits != [] && AllDigits(digits) && (t == digits || t == "-" + digits)
    ensures Strip(t) == t
  {
    DigitIsNotSpace(digits[|digits| - 1]);
    assert t[|t| - 1] == digits[|digits| - 1];
    if t == digits {
      DigitIsNotSpace(digits[0]);
    }
    StripUnchanged(t);
  }

  /** `s.rfind(c)`, with -1 rendered as None. */
  function LastIndex(s: string, c: char): (r: Option<nat>)
    ensures r.Some? ==> r.value < |s| && s[r.value] == c && c !in s[r.value + 1..]
    ensures r.None? ==> c !in s
  {
    if s == [] then None
    else if s[|s| - 1] == c then Some(|s| - 1)
    else
      var r := LastIndex(s[..|s| - 1], c);
      assert r.Some? ==> s[r.value + 1..] == s[..|s| - 1][r.value + 1..] + [s[|s| - 1]];
      assert r.None? ==> s == s[..|s| - 1] + [s[|s| - 1]];
      r
  }

  lemma LastIndexSplit(a: string, c: char, b: string)
    requires c !in b
    ensures LastIndex(a + [c] + b, c) == Some(|a|)
  {
    var s := a + [c] + b;
    var r := LastIndex(s, c);
    assert s[|a|] == c && s[|a| + 1..] == b;
  }

  /** `html.escape(s)`: `&`, `<`, `>`, `"` and `'` become character references. */
  function Escape(s: string): string {
    if s == [] then [] else EscapeChar(s[0]) + Escape(s[1..])
  }

  function EscapeChar(c: char): string {
    if c == '&' then "&amp;"
    else if c == '<' then "&lt;"
    else if c == '>' then "&gt;"
    else if c == '"' then "&quot;"
    else if c == '\'' then "&#x27;"
    else [c]
  }

  /** The inverse of `Escape` on its image: the five references are decoded. */
  function Unescape(s: string): string
    decreases |s|
  {
    if s == [] then []
    else if StartsWith(s, "&amp;") then "&" + Unescape(s[5..])
    else if StartsWith(s, "&lt;") then "<" + Unescape(s[4..])
    else if StartsWith(s, "&gt;") then ">" + Unescape(s[4..])
    else if StartsWith(s, "&quot;") then "\"" + Unescape(s[6..])
    else if StartsWith(s, "&#x27;") then "'" + Unescape(s[6..])
    else [s[0]] + Unescape(s[1..])
  }

  lemma {:induction false} EscapeAppend(c: char, s: string)
    ensures Escape([c] + s) == EscapeChar(c) + Escape(s)
  {
    assert ([c] + s)[1..] == s;
  }

  /** Escaping never produces markup: the output has no `<`, `>` or quotes. */
  lemma {:induction false} EscapeHasNoMarkup(s: string)
    ensures '<' !in Escape(s) && '>' !in Escape(s) && '"' !in Escape(s)
  {
    if s != [] {
      var e, rest := EscapeChar(s[0]), Escape(s[1..]);
      assert Escape(s) == e + rest;
      EscapeHasNoMarkup(s[1..]);
      EscapeCharNoMarkup(s[0]);
      NotInAppend(e, rest, '<');
      NotInAppend(e, rest, '>');
      NotInAppend(e, rest, '"');
    }
  }

  lemma EscapeCharNoMarkup(c: char)
    ensures '<' !in EscapeChar(c) && '>' !in EscapeChar(c) && '"' !in EscapeChar(c)
  {
  }

  lemma NotInAppend(a: string, b: string, c: char)
    requires c !in a && c !in b
    ensures c !in a + b
  {
  }

  /** Unescaping what `Escape` produced gives the original text back. */
  lemma {:induction false} EscapeRoundTrip(s: string)
    ensures Unescape(Escape(s)) == s
  {
    if s != [] {
      assert Escape(s) == EscapeChar(s[0]) + Escape(s[1..]);
      UnescapeChar(s[0], Escape(s[1..]));
      EscapeRoundTrip(s[1..]);
    }
  }

  /** Decoding consumes exactly the escape of one character. */
  lemma UnescapeChar(c: char, rest: string)
    ensures Unescape(EscapeChar(c) + rest) == [c] + Unescape(rest)
  {
    var t := EscapeChar(c) + rest;
    if c == '&' {
      assert StartsWith(t, "&amp;") && t[5..] == rest;
    } else if c == '<' {
      assert !StartsWith(t, "&amp;") by { assert t[1] == 'l'; }
      assert StartsWith(t, "&lt;") && t[4..] == rest;
    } else if c == '>' {
      assert !StartsWith(t, "&amp;") && !StartsWith(t, "&lt;") by { assert t[1] == 'g'; }
      assert StartsWith(t, "&gt;") && t[4..] == rest;
    } else if c == '"' {
      assert !StartsWith(t, "&amp;") && !StartsWith(t, "&lt;") && !StartsWith(t, "&gt;") by { assert t[1] == 'q'; }
      assert StartsWith(t, "&quot;") && t[6..] == rest;
    } else if c == '\'' {
      assert !StartsWith(t, "&amp;") && !StartsWith(t, "&lt;") && !StartsWith(t, "&gt;") && !StartsWith(t, "&quot;") by { assert t[1] == '#'; }
      assert StartsWith(t, "&#x27;") && t[6..] == rest;
    } else {
      assert t[0] == c && t[1..] == rest;
      UnescapePlain(t);
    }
  }

  /** A character other than `&` is copied as it is. */
  lemma UnescapePlain(t: string)
    requires t != [] && t[0] != '&'
    ensures Unescape(t) == [t[0]] + Unescape(t[1..])
  {
    NotStarts(t, "&amp;");
    NotStarts(t, "&lt;");
    NotStarts(t, "&gt;");
    NotStarts(t, "&quot;");
    NotStarts(t, "&#x27;");
  }

  lemma NotStarts(t: string, p: string)
    requires t != [] && p != [] && t[0] != p[0]
    ensures !StartsWith(t, p)
  {
    if |p| <= |t| {
      assert t[..|p|][0] != p[0];
    }
  }

  /** A join of parts whose first is non-empty starts with that part's first character. */
  lemma JoinFirst(sep: string, ss: seq<string>)
    requires |ss| >= 1 && ss[0] != ""
    ensures Join(sep, ss) != "" && Join(sep, ss)[0] == ss[0][0]
  {
    if |ss| > 1 {
      assert Join(sep, ss) == ss[0] + (sep + Join(sep, ss[1..]));
    }
  }

  /** A join of parts whose last is non-empty ends with that part's last character. */
  lemma {:induction false} JoinLast(sep: string, ss: seq<string>)
    requires |ss| >= 1 && ss[|ss| - 1] != ""
    ensures Join(sep, ss) != "" && Join(sep, ss)[|Join(sep, ss)| - 1] == ss[|ss| - 1][|ss[|ss| - 1]| - 1]
  {
    if |ss| > 1 {
      JoinLast(sep, ss[1..]);
      assert Join(sep, ss) == (ss[0] + sep) + Join(sep, ss[1..]);
    }
  }
}
