/**
 * What `drop_text` and `replace_text` do to the text of a paragraph's runs.
 *
 * Because the window is the smallest one that holds the text, the match
 * starts inside the window's first run and ends inside its last run; so
 * cutting every window run at the match loses nothing. Dropping removes
 * exactly one occurrence of the text from the joined text; replacing keeps
 * it as a tracked deletion and puts the inserted runs right after it, so
 * that rejecting the insertion gives the original text back and accepting
 * it gives the edited text.
 */
module EditProps {
  import opened Wrappers
  import opened Text
  import opened Html
  import opened Runs
  import opened RunHtml
  import opened RunEdits

  // ---------------------------------------------------------------------------
  // One run
  // ---------------------------------------------------------------------------

  /** The parts of a run cut at a match that does not start past it nor end before it. */
  lemma CutText(r: Run, off: int, cs: int, ce: int)
    requires 0 <= cs <= ce && 0 <= off <= ce
    requires off < cs ==> cs - off <= |r.text|
    ensures var (b, m, a) := Cut(r, off, cs, ce);
      var s, e := Max(0, cs - off), Min(|r.text|, ce - off);
      && 0 <= s <= |r.text| && 0 <= e <= |r.text|
      && OptText(b) == r.text[..s]
      && OptText(m) == (if s < e then r.text[s..e] else "")
      && OptText(a) == r.text[e..]
  {
  }

  /** Every part keeps the attributes of the run it was cut from. */
  lemma CutAttrs(r: Run, off: int, cs: int, ce: int)
    ensures var (b, m, a) := Cut(r, off, cs, ce);
      && (b.Some? ==> b.value.attrs == r.attrs)
      && (m.Some? ==> m.value.attrs == r.attrs)
      && (a.Some? ==> a.value.attrs == r.attrs)
  {
  }

  // ---------------------------------------------------------------------------
  // Adding one run to the window's text
  // ---------------------------------------------------------------------------

  lemma BeforeStep(p: string, t: string, cs: int)
    requires 0 <= cs && (|p| < cs ==> cs - |p| <= |t|)
    ensures p[..Min(cs, |p|)] + t[..Max(0, cs - |p|)] == (p + t)[..Min(cs, |p + t|)]
  {
    if cs <= |p| {
      assert t[..0] == [];
    }
  }

  lemma AfterStep(p: string, t: string, ce: int)
    requires |p| <= ce
    ensures p[Min(ce, |p|)..] + t[Min(|t|, ce - |p|)..] == (p + t)[Min(ce, |p + t|)..]
  {
    assert p[|p|..] == [];
  }

  lemma MiddleStep(p: string, t: string, cs: int, ce: int)
    requires 0 <= cs <= ce && |p| <= ce && (|p| < cs ==> cs - |p| <= |t|)
    ensures var s, e := Max(0, cs - |p|), Min(|t|, ce - |p|);
      p[Min(cs, |p|)..Min(ce, |p|)] + (if s < e then t[s..e] else "")
      == (p + t)[Min(cs, |p + t|)..Min(ce, |p + t|)]
  {
    var q := p + t;
    var s, e := Max(0, cs - |p|), Min(|t|, ce - |p|);
    if cs <= |p| {
      assert q[cs..Min(ce, |q|)] == p[cs..] + t[..e];
    } else {
      assert q[cs..Min(ce, |q|)] == t[s..e];
    }
  }

  lemma KeptStep(p: string, t: string, cs: int, ce: int)
    requires 0 <= cs <= ce && |p| <= ce && (|p| < cs ==> cs - |p| <= |t|)
    ensures var s, e := Max(0, cs - |p|), Min(|t|, ce - |p|);
      var q := p + t;
      p[..Min(cs, |p|)] + p[Min(ce, |p|)..] + t[..s] + t[e..] == q[..Min(cs, |q|)] + q[Min(ce, |q|)..]
  {
    var q := p + t;
    var s, e := Max(0, cs - |p|), Min(|t|, ce - |p|);
    assert p[Min(ce, |p|)..] == [];
    if cs <= |p| {
      assert t[..s] == [];
      assert q[..cs] == p[..cs];
      assert q[Min(ce, |q|)..] == t[e..];
    } else {
      assert q[..cs] == p + t[..s];
      assert q[Min(ce, |q|)..] == t[e..];
    }
  }

  // ---------------------------------------------------------------------------
  // The window
  // ---------------------------------------------------------------------------

  /**
   * The match `[cs, ce)` neither starts past the window's first run nor ends
   * before any run of the window starts.
   */
  predicate CleanCut(ws: seq<Run>, cs: int, ce: int) {
    0 <= cs <= ce && forall k :: 0 <= k < |ws| ==> CutsRun(ws, k, cs, ce)
  }

  /** Run `k` starts no later than the match ends, and holds its start if it starts before it. */
  predicate CutsRun(ws: seq<Run>, k: nat, cs: int, ce: int)
    requires k < |ws|
  {
    OffsetOf(ws, k) <= ce && (OffsetOf(ws, k) < cs ==> cs - OffsetOf(ws, k) <= |ws[k].text|)
  }

  lemma TextOfPrefixStep(ws: seq<Run>, k: nat)
    requires k < |ws|
    ensures TextOf(ws[..k + 1]) == TextOf(ws[..k]) + ws[k].text
  {
    assert ws[..k + 1] == ws[..k] + [ws[k]];
    TextOfAppend(ws[..k], [ws[k]]);
    TextOfSingle(ws[k]);
  }

  lemma {:induction false} OffsetIsLength(ws: seq<Run>, k: nat)
    requires k <= |ws|
    ensures OffsetOf(ws, k) == |TextOf(ws[..k])|
  {
    if k > 0 {
      OffsetIsLength(ws, k - 1);
      TextOfPrefixStep(ws, k - 1);
    }
  }

  lemma {:induction false} OffsetMonotone(ws: seq<Run>, j: nat, k: nat)
    requires j <= k <= |ws|
    ensures OffsetOf(ws, j) <= OffsetOf(ws, k)
    decreases k - j
  {
    if j < k {
      OffsetMonotone(ws, j, k - 1);
    }
  }

  lemma TextOfOptSeq(o: Option<Run>)
    ensures TextOf(OptSeq(o)) == OptText(o)
  {
    if o.Some? {
      TextOfSingle(o.value);
    }
  }

  /** The parts of run `k` and how the text so far grows by it. */
  lemma PartsStep(ws: seq<Run>, k: nat, cs: int, ce: int)
    requires k < |ws| && CleanCut(ws, cs, ce)
    ensures var p, t := TextOf(ws[..k]), ws[k].text;
      var (b, m, a) := PartsOf(ws, k, cs, ce);
      var s, e := Max(0, cs - |p|), Min(|t|, ce - |p|);
      && TextOf(ws[..k + 1]) == p + t
      && |p| <= ce && (|p| < cs ==> cs - |p| <= |t|)
      && 0 <= s <= |t| && 0 <= e <= |t|
      && OptText(b) == t[..s]
      && OptText(m) == (if s < e then t[s..e] else "")
      && OptText(a) == t[e..]
  {
    assert CutsRun(ws, k, cs, ce);
    OffsetIsLength(ws, k);
    TextOfPrefixStep(ws, k);
    CutText(ws[k], OffsetOf(ws, k), cs, ce);
  }

  /** The text before the match, from the first `k` runs. */
  lemma {:induction false} BeforePartsText(ws: seq<Run>, k: nat, cs: int, ce: int)
    requires k <= |ws| && CleanCut(ws, cs, ce)
    ensures var p := TextOf(ws[..k]);
      TextOf(BeforeParts(ws, k, cs, ce)) == p[..Min(cs, |p|)]
  {
    if k > 0 {
      var j := k - 1;
      var b := PartsOf(ws, j, cs, ce).0;
      var prev := BeforeParts(ws, j, cs, ce);
      BeforePartsText(ws, j, cs, ce);
      PartsStep(ws, j, cs, ce);
      TextOfAppend(prev, OptSeq(b));
      TextOfOptSeq(b);
      BeforeStep(TextOf(ws[..j]), ws[j].text, cs);
    } else {
      assert ws[..k] == [];
    }
  }

  /** The text after the match, from the first `k` runs. */
  lemma {:induction false} AfterPartsText(ws: seq<Run>, k: nat, cs: int, ce: int)
    requires k <= |ws| && CleanCut(ws, cs, ce)
    ensures var p := TextOf(ws[..k]);
      TextOf(AfterParts(ws, k, cs, ce)) == p[Min(ce, |p|)..]
  {
    if k > 0 {
      var j := k - 1;
      var a := PartsOf(ws, j, cs, ce).2;
      var prev := AfterParts(ws, j, cs, ce);
      AfterPartsText(ws, j, cs, ce);
      PartsStep(ws, j, cs, ce);
      TextOfAppend(prev, OptSeq(a));
      TextOfOptSeq(a);
      AfterStep(TextOf(ws[..j]), ws[j].text, ce);
    } else {
      assert ws[..k] == [];
    }
  }

  /** The matched text, from the first `k` runs. */
  lemma {:induction false} DeletedPartsText(ws: seq<Run>, k: nat, cs: int, ce: int)
    requires k <= |ws| && CleanCut(ws, cs, ce)
    ensures var p := TextOf(ws[..k]);
      TextOf(DeletedParts(ws, k, cs, ce)) == p[Min(cs, |p|)..Min(ce, |p|)]
  {
    if k > 0 {
      var j := k - 1;
      var m := PartsOf(ws, j, cs, ce).1;
      var prev := DeletedParts(ws, j, cs, ce);
      DeletedPartsText(ws, j, cs, ce);
      PartsStep(ws, j, cs, ce);
      TextOfAppend(prev, OptSeq(MarkDeleted(m)));
      TextOfOptSeq(MarkDeleted(m));
      MiddleStep(TextOf(ws[..j]), ws[j].text, cs, ce);
    } else {
      assert ws[..k] == [];
    }
  }

  /** What `drop_text` keeps of the first `k` runs: the text on both sides of the match. */
  lemma {:induction false} KeptPartsText(ws: seq<Run>, k: nat, cs: int, ce: int)
    requires k <= |ws| && CleanCut(ws, cs, ce)
    ensures var p := TextOf(ws[..k]);
      TextOf(KeptParts(ws, k, cs, ce)) == p[..Min(cs, |p|)] + p[Min(ce, |p|)..]
  {
    if k > 0 {
      var j := k - 1;
      var parts := PartsOf(ws, j, cs, ce);
      var prev := KeptParts(ws, j, cs, ce);
      KeptPartsText(ws, j, cs, ce);
      PartsStep(ws, j, cs, ce);
      TextOfAppend(prev, OptSeq(parts.0));
      TextOfAppend(prev + OptSeq(parts.0), OptSeq(parts.2));
      TextOfOptSeq(parts.0);
      TextOfOptSeq(parts.2);
      KeptStep(TextOf(ws[..j]), ws[j].text, cs, ce);
    } else {
      assert ws[..k] == [];
    }
  }

  // ---------------------------------------------------------------------------
  // The located window cuts cleanly
  // ---------------------------------------------------------------------------

  lemma WindowCleanCut(runs: seq<Run>, text: string)
    requires RunWindow(runs, text).Some?
    ensures var win := RunWindow(runs, text).value;
      win.startRun < win.endRun <= |runs| &&
      CleanCut(runs[win.startRun..win.endRun], win.charStart, win.charEnd)
  {
    var win := RunWindow(runs, text).value;
    var ws := runs[win.startRun..win.endRun];
    var cs, ce := win.charStart, win.charEnd;
    WindowBounds(runs, text);
    RunWindowShape(runs, text);
    var last := |ws| - 1;
    assert ws[..last] == runs[win.startRun..win.endRun - 1];
    OffsetIsLength(ws, last);
    assert OffsetOf(ws, 1) == |ws[0].text|;
    forall k | 0 <= k < |ws|
      ensures CutsRun(ws, k, cs, ce)
    {
      OffsetMonotone(ws, k, last);
      if k > 0 {
        OffsetMonotone(ws, 1, k);
      }
    }
  }

  // ---------------------------------------------------------------------------
  // Splicing the window's text back into the paragraph's text
  // ---------------------------------------------------------------------------

  lemma SplicePrefix(a: string, m: string, c: string, i: nat)
    requires i <= |m|
    ensures (a + m + c)[..|a| + i] == a + m[..i]
  {
  }

  lemma SpliceSuffix(a: string, m: string, c: string, i: nat)
    requires i <= |m|
    ensures (a + m + c)[|a| + i..] == m[i..] + c
  {
  }

  lemma SpliceMiddle(a: string, m: string, c: string, i: nat, j: nat)
    requires i <= j <= |m|
    ensures (a + m + c)[|a| + i..|a| + j] == m[i..j]
  {
  }

  /** Where the located text starts in the paragraph's joined text. */
  function MatchStart(runs: seq<Run>, win: Window): nat
    requires win.startRun <= |runs|
  {
    |TextOf(runs[..win.startRun])| + win.charStart
  }

  lemma Splice(a: string, m: string, c: string, cs: nat, ce: nat, text: string)
    requires cs <= ce <= |m| && m[cs..ce] == text
    ensures var t, p := a + m + c, |a| + cs;
      && IsOccurrence(t, text, p)
      && t[..p] == a + m[..cs]
      && t[p + |text|..] == m[ce..] + c
  {
    SplicePrefix(a, m, c, cs);
    SpliceMiddle(a, m, c, cs, ce);
    SpliceSuffix(a, m, c, ce);
  }

  /**
   * The paragraph's text around the match: `before` the match, the match
   * itself and what follows it, each as cut from the window's text.
   */
  lemma MatchSplits(runs: seq<Run>, text: string)
    requires RunWindow(runs, text).Some?
    ensures var win := RunWindow(runs, text).value;
      var T, p := TextOf(runs), MatchStart(runs, win);
      var a, m, c := TextOf(runs[..win.startRun]), win.merged, TextOf(runs[win.endRun..]);
      && win.startRun < win.endRun <= |runs|
      && win.charStart <= win.charEnd <= |m|
      && win.charEnd == win.charStart + |text|
      && IsOccurrence(T, text, p)
      && T[..p] == a + m[..win.charStart]
      && T[p + |text|..] == m[win.charEnd..] + c
  {
    var win := RunWindow(runs, text).value;
    var a, m, c := TextOf(runs[..win.startRun]), win.merged, TextOf(runs[win.endRun..]);
    RunWindowShape(runs, text);
    TextOfSlices(runs, win.startRun, win.endRun);
    Splice(a, m, c, win.charStart, win.charEnd, text);
  }

  lemma JoinAround(a: string, b: string, d: string, c: string)
    ensures a + (b + d) + c == (a + b) + (d + c)
  {
  }

  /**
   * `drop_text` removes one occurrence of the text from the paragraph's
   * text, the one inside the smallest leftmost window, and nothing else;
   * when no window holds the text the runs are unchanged.
   */
  lemma DroppedText(runs: seq<Run>, text: string)
    ensures RunWindow(runs, text).None? ==> Dropped(runs, text) == runs
    ensures RunWindow(runs, text).Some? ==>
      var T, p := TextOf(runs), MatchStart(runs, RunWindow(runs, text).value);
      IsOccurrence(T, text, p) && TextOf(Dropped(runs, text)) == T[..p] + T[p + |text|..]
  {
    if RunWindow(runs, text).Some? {
      var win := RunWindow(runs, text).value;
      var ws := runs[win.startRun..win.endRun];
      var cs, ce := win.charStart, win.charEnd;
      var kept := KeptParts(ws, |ws|, cs, ce);
      MatchSplits(runs, text);
      RunWindowShape(runs, text);
      WindowCleanCut(runs, text);
      KeptPartsText(ws, |ws|, cs, ce);
      assert ws[..|ws|] == ws;
      assert TextOf(kept) == win.merged[..cs] + win.merged[ce..];
      TextOfAppend(runs[..win.startRun], kept);
      TextOfAppend(runs[..win.startRun] + kept, runs[win.endRun..]);
      JoinAround(TextOf(runs[..win.startRun]), win.merged[..cs], win.merged[ce..], TextOf(runs[win.endRun..]));
    }
  }

  lemma {:induction false} SameTexts(a: seq<Run>, b: seq<Run>)
    requires |a| == |b| && forall k :: 0 <= k < |a| ==> a[k].text == b[k].text
    ensures TextOf(a) == TextOf(b)
  {
    if a != [] {
      SameTexts(a[1..], b[1..]);
    }
  }

  /** Marking an insertion changes no text. */
  lemma MarkInsertedText(rs: seq<Run>, comment: Option<string>)
    ensures TextOf(MarkInserted(rs, comment)) == TextOf(rs)
  {
    SameTexts(MarkInserted(rs, comment), rs);
  }

  lemma JoinSix(a: string, b: string, x: string, y: string, d: string, c: string)
    ensures a + b + x + y + d + c == (a + b) + x + y + (d + c)
  {
  }

  /** The text of the runs `replace_text` builds around a located window, piece by piece. */
  lemma ReplacedPieces(runs: seq<Run>, text: string, inserted: seq<Run>, comment: Option<string>)
    requires RunWindow(runs, text).Some?
    ensures var win := RunWindow(runs, text).value;
      var ws := runs[win.startRun..win.endRun];
      var cs, ce := win.charStart, win.charEnd;
      && win.startRun < win.endRun <= |runs|
      && cs <= ce <= |win.merged|
      && TextOf(BeforeParts(ws, |ws|, cs, ce)) == win.merged[..cs]
      && TextOf(DeletedParts(ws, |ws|, cs, ce)) == text
      && TextOf(AfterParts(ws, |ws|, cs, ce)) == win.merged[ce..]
  {
    var win := RunWindow(runs, text).value;
    var ws := runs[win.startRun..win.endRun];
    var cs, ce := win.charStart, win.charEnd;
    RunWindowShape(runs, text);
    WindowCleanCut(runs, text);
    assert ws[..|ws|] == ws;
    BeforePartsText(ws, |ws|, cs, ce);
    DeletedPartsText(ws, |ws|, cs, ce);
    AfterPartsText(ws, |ws|, cs, ce);
  }

  /**
   * `replace_text` keeps the paragraph's text up to and including the
   * located text, then has the inserted text, then the rest; with no window
   * the runs are unchanged.
   */
  lemma ReplacedText(runs: seq<Run>, text: string, inserted: seq<Run>, comment: Option<string>)
    ensures RunWindow(runs, text).None? ==> Replaced(runs, text, inserted, comment) == runs
    ensures RunWindow(runs, text).Some? ==>
      var T, p := TextOf(runs), MatchStart(runs, RunWindow(runs, text).value);
      && IsOccurrence(T, text, p)
      && TextOf(Replaced(runs, text, inserted, comment)) == T[..p] + text + TextOf(inserted) + T[p + |text|..]
  {
    if RunWindow(runs, text).Some? {
      var win := RunWindow(runs, text).value;
      var ws := runs[win.startRun..win.endRun];
      var cs, ce := win.charStart, win.charEnd;
      var head, tail := runs[..win.startRun], runs[win.endRun..];
      var before, deleted := BeforeParts(ws, |ws|, cs, ce), DeletedParts(ws, |ws|, cs, ce);
      var marked, after := MarkInserted(inserted, comment), AfterParts(ws, |ws|, cs, ce);
      MatchSplits(runs, text);
      ReplacedPieces(runs, text, inserted, comment);
      MarkInsertedText(inserted, comment);
      TextOfAppend(head, before);
      TextOfAppend(head + before, deleted);
      TextOfAppend(head + before + deleted, marked);
      TextOfAppend(head + before + deleted + marked, after);
      TextOfAppend(head + before + deleted + marked + after, tail);
      JoinSix(TextOf(head), win.merged[..cs], text, TextOf(inserted), win.merged[ce..], TextOf(tail));
    }
  }

  /** What `replace_text` does to the text when the insertion comes from markup. */
  lemma ReplaceTextFromHtml(runs: seq<Run>, text: string, tokenize: Tokenizer, html: string, comment: Option<string>)
    ensures var tokens := tokenize(html);
      RunWindow(runs, text).Some? ==>
      var T, p := TextOf(runs), MatchStart(runs, RunWindow(runs, text).value);
      && IsOccurrence(T, text, p)
      && TextOf(Replaced(runs, text, ParseRuns(tokens), comment)) == T[..p] + text + DataText(tokens) + T[p + |text|..]
  {
    ReplacedText(runs, text, ParseRuns(tokenize(html)), comment);
    ParseRunsText(tokenize(html));
  }

  // ---------------------------------------------------------------------------
  // Reading the tracked changes
  // ---------------------------------------------------------------------------

  /**
   * The runs left once every run carrying the tracked-change `mark` is taken
   * out: rejecting the changes takes out the "ins" runs, accepting them takes
   * out the "del" runs.
   */
  function Without(rs: seq<Run>, mark: string): seq<Run> {
    if rs == [] then []
    else (if rs[0].attrs.trackedChange == Some(mark) then [] else [rs[0]]) + Without(rs[1..], mark)
  }

  predicate Unmarked(rs: seq<Run>, mark: string) {
    forall k :: 0 <= k < |rs| ==> rs[k].attrs.trackedChange != Some(mark)
  }

  predicate AllMarked(rs: seq<Run>, mark: string) {
    forall k :: 0 <= k < |rs| ==> rs[k].attrs.trackedChange == Some(mark)
  }

  lemma {:induction false} WithoutAppend(a: seq<Run>, b: seq<Run>, mark: string)
    ensures Without(a + b, mark) == Without(a, mark) + Without(b, mark)
  {
    if a == [] {
      assert a + b == b;
    } else {
      assert (a + b)[1..] == a[1..] + b;
      WithoutAppend(a[1..], b, mark);
    }
  }

  /** Taking out a mark no run carries changes nothing. */
  lemma {:induction false} WithoutUnmarked(rs: seq<Run>, mark: string)
    requires Unmarked(rs, mark)
    ensures Without(rs, mark) == rs
  {
    if rs != [] {
      assert Unmarked(rs[1..], mark) by {
        forall k | 0 <= k < |rs| - 1 ensures rs[1..][k].attrs.trackedChange != Some(mark) {
          assert rs[1..][k] == rs[k + 1];
        }
      }
      WithoutUnmarked(rs[1..], mark);
    }
  }

  /** Taking out a mark every run carries leaves nothing. */
  lemma {:induction false} WithoutMarked(rs: seq<Run>, mark: string)
    requires AllMarked(rs, mark)
    ensures Without(rs, mark) == []
  {
    if rs != [] {
      assert AllMarked(rs[1..], mark) by {
        forall k | 0 <= k < |rs| - 1 ensures rs[1..][k].attrs.trackedChange == Some(mark) {
          assert rs[1..][k] == rs[k + 1];
        }
      }
      WithoutMarked(rs[1..], mark);
    }
  }

  lemma OptSeqKeepsMark(o: Option<Run>, r: Run, mark: string)
    requires o.Some? ==> o.value.attrs == r.attrs
    requires r.attrs.trackedChange != Some(mark)
    ensures Unmarked(OptSeq(o), mark)
  {
  }

  lemma UnmarkedAppend(a: seq<Run>, b: seq<Run>, mark: string)
    requires Unmarked(a, mark) && Unmarked(b, mark)
    ensures Unmarked(a + b, mark)
  {
    forall k | 0 <= k < |a + b| ensures (a + b)[k].attrs.trackedChange != Some(mark) {
      if k < |a| {
        assert (a + b)[k] == a[k];
      } else {
        assert (a + b)[k] == b[k - |a|];
      }
    }
  }

  /** The parts before the match keep the attributes of their runs, tracked change included. */
  lemma {:induction false} BeforePartsUnmarked(ws: seq<Run>, k: nat, cs: int, ce: int, mark: string)
    requires k <= |ws| && Unmarked(ws, mark)
    ensures Unmarked(BeforeParts(ws, k, cs, ce), mark)
  {
    if k > 0 {
      BeforePartsUnmarked(ws, k - 1, cs, ce, mark);
      CutAttrs(ws[k - 1], OffsetOf(ws, k - 1), cs, ce);
      OptSeqKeepsMark(PartsOf(ws, k - 1, cs, ce).0, ws[k - 1], mark);
      UnmarkedAppend(BeforeParts(ws, k - 1, cs, ce), OptSeq(PartsOf(ws, k - 1, cs, ce).0), mark);
    }
  }

  /** The parts after the match keep the attributes of their runs, tracked change included. */
  lemma {:induction false} AfterPartsUnmarked(ws: seq<Run>, k: nat, cs: int, ce: int, mark: string)
    requires k <= |ws| && Unmarked(ws, mark)
    ensures Unmarked(AfterParts(ws, k, cs, ce), mark)
  {
    if k > 0 {
      AfterPartsUnmarked(ws, k - 1, cs, ce, mark);
      CutAttrs(ws[k - 1], OffsetOf(ws, k - 1), cs, ce);
      OptSeqKeepsMark(PartsOf(ws, k - 1, cs, ce).2, ws[k - 1], mark);
      UnmarkedAppend(AfterParts(ws, k - 1, cs, ce), OptSeq(PartsOf(ws, k - 1, cs, ce).2), mark);
    }
  }

  /** Every part inside the match is marked as a deletion. */
  lemma {:induction false} DeletedPartsMarked(ws: seq<Run>, k: nat, cs: int, ce: int)
    requires k <= |ws|
    ensures AllMarked(DeletedParts(ws, k, cs, ce), "del")
  {
    if k > 0 {
      var prev: seq<Run>, part: seq<Run> := DeletedParts(ws, k - 1, cs, ce), OptSeq(MarkDeleted(PartsOf(ws, k - 1, cs, ce).1));
      DeletedPartsMarked(ws, k - 1, cs, ce);
      forall j | 0 <= j < |prev + part| ensures (prev + part)[j].attrs.trackedChange == Some("del") {
        if j < |prev| {
          assert (prev + part)[j] == prev[j];
        }
      }
    }
  }

  lemma UnmarkedSlices(runs: seq<Run>, i: nat, j: nat, mark: string)
    requires i <= j <= |runs| && Unmarked(runs, mark)
    ensures Unmarked(runs[..i], mark) && Unmarked(runs[i..j], mark) && Unmarked(runs[j..], mark)
  {
    assert forall k :: 0 <= k < i ==> runs[..i][k] == runs[k];
    assert forall k :: 0 <= k < j - i ==> runs[i..j][k] == runs[i + k];
    assert forall k :: 0 <= k < |runs| - j ==> runs[j..][k] == runs[j + k];
  }

  /** Runs that all carry one mark carry no other. */
  lemma MarkedOtherwise(rs: seq<Run>, mark: string, other: string)
    requires AllMarked(rs, mark) && |mark| > 0 && |other| > 0 && mark[0] != other[0]
    ensures Unmarked(rs, other)
  {
  }

  /** Rejecting takes out an insertion between pieces that carry no "ins" mark. */
  lemma RejectPieces(a: seq<Run>, b: seq<Run>, c: seq<Run>, d: seq<Run>, e: seq<Run>, f: seq<Run>)
    requires Unmarked(a, "ins") && Unmarked(b, "ins") && AllMarked(c, "del")
    requires AllMarked(d, "ins") && Unmarked(e, "ins") && Unmarked(f, "ins")
    ensures Without(a + b + c + d + e + f, "ins") == a + b + c + e + f
  {
    MarkedOtherwise(c, "del", "ins");
    UnmarkedAppend(a, b, "ins");
    UnmarkedAppend(a + b, c, "ins");
    var x := a + b + c;
    WithoutUnmarked(x, "ins");
    WithoutMarked(d, "ins");
    WithoutAppend(x, d, "ins");
    assert Without(x + d, "ins") == x;
    WithoutUnmarked(e, "ins");
    WithoutAppend(x + d, e, "ins");
    assert Without(x + d + e, "ins") == x + e;
    WithoutUnmarked(f, "ins");
    WithoutAppend(x + d + e, f, "ins");
  }

  /** Accepting takes out a deletion between pieces that carry no "del" mark. */
  lemma AcceptPieces(a: seq<Run>, b: seq<Run>, c: seq<Run>, d: seq<Run>, e: seq<Run>, f: seq<Run>)
    requires Unmarked(a, "del") && Unmarked(b, "del") && AllMarked(c, "del")
    requires AllMarked(d, "ins") && Unmarked(e, "del") && Unmarked(f, "del")
    ensures Without(a + b + c + d + e + f, "del") == a + b + d + e + f
  {
    UnmarkedAppend(a, b, "del");
    var x := a + b;
    WithoutUnmarked(x, "del");
    WithoutMarked(c, "del");
    WithoutAppend(x, c, "del");
    assert Without(x + c, "del") == x;
    MarkedOtherwise(d, "ins", "del");
    WithoutUnmarked(d, "del");
    WithoutAppend(x + c, d, "del");
    assert Without(x + c + d, "del") == x + d;
    WithoutUnmarked(e, "del");
    WithoutAppend(x + c + d, e, "del");
    assert Without(x + c + d + e, "del") == x + d + e;
    WithoutUnmarked(f, "del");
    WithoutAppend(x + c + d + e, f, "del");
  }

  /** The marks on the pieces `replace_text` joins, when the runs carry no `mark` of their own. */
  lemma ReplacedMarks(runs: seq<Run>, text: string, inserted: seq<Run>, comment: Option<string>, mark: string)
    requires RunWindow(runs, text).Some? && Unmarked(runs, mark)
    ensures var win := RunWindow(runs, text).value;
      var ws := runs[win.startRun..win.endRun];
      var cs, ce := win.charStart, win.charEnd;
      && win.startRun < win.endRun <= |runs|
      && Unmarked(runs[..win.startRun], mark)
      && Unmarked(BeforeParts(ws, |ws|, cs, ce), mark)
      && AllMarked(DeletedParts(ws, |ws|, cs, ce), "del")
      && AllMarked(MarkInserted(inserted, comment), "ins")
      && Unmarked(AfterParts(ws, |ws|, cs, ce), mark)
      && Unmarked(runs[win.endRun..], mark)
  {
    var win := RunWindow(runs, text).value;
    var ws := runs[win.startRun..win.endRun];
    var cs, ce := win.charStart, win.charEnd;
    RunWindowShape(runs, text);
    UnmarkedSlices(runs, win.startRun, win.endRun, mark);
    BeforePartsUnmarked(ws, |ws|, cs, ce, mark);
    AfterPartsUnmarked(ws, |ws|, cs, ce, mark);
    DeletedPartsMarked(ws, |ws|, cs, ce);
  }

  /** Rejecting the changes `replace_text` tracks drops the inserted runs and keeps all the rest. */
  lemma RejectRuns(runs: seq<Run>, text: string, inserted: seq<Run>, comment: Option<string>)
    requires RunWindow(runs, text).Some? && Unmarked(runs, "ins")
    ensures var win := RunWindow(runs, text).value;
      var ws := runs[win.startRun..win.endRun];
      var cs, ce := win.charStart, win.charEnd;
      Without(Replaced(runs, text, inserted, comment), "ins")
      == runs[..win.startRun] + BeforeParts(ws, |ws|, cs, ce) + DeletedParts(ws, |ws|, cs, ce)
         + AfterParts(ws, |ws|, cs, ce) + runs[win.endRun..]
  {
    var win := RunWindow(runs, text).value;
    var ws := runs[win.startRun..win.endRun];
    var cs, ce := win.charStart, win.charEnd;
    ReplacedMarks(runs, text, inserted, comment, "ins");
    RejectPieces(runs[..win.startRun], BeforeParts(ws, |ws|, cs, ce), DeletedParts(ws, |ws|, cs, ce),
      MarkInserted(inserted, comment), AfterParts(ws, |ws|, cs, ce), runs[win.endRun..]);
  }

  /** Accepting the changes `replace_text` tracks drops the deleted runs and keeps all the rest. */
  lemma AcceptRuns(runs: seq<Run>, text: string, inserted: seq<Run>, comment: Option<string>)
    requires RunWindow(runs, text).Some? && Unmarked(runs, "del")
    ensures var win := RunWindow(runs, text).value;
      var ws := runs[win.startRun..win.endRun];
      var cs, ce := win.charStart, win.charEnd;
      Without(Replaced(runs, text, inserted, comment), "del")
      == runs[..win.startRun] + BeforeParts(ws, |ws|, cs, ce) + MarkInserted(inserted, comment)
         + AfterParts(ws, |ws|, cs, ce) + runs[win.endRun..]
  {
    var win := RunWindow(runs, text).value;
    var ws := runs[win.startRun..win.endRun];
    var cs, ce := win.charStart, win.charEnd;
    ReplacedMarks(runs, text, inserted, comment, "del");
    AcceptPieces(runs[..win.startRun], BeforeParts(ws, |ws|, cs, ce), DeletedParts(ws, |ws|, cs, ce),
      MarkInserted(inserted, comment), AfterParts(ws, |ws|, cs, ce), runs[win.endRun..]);
  }

  lemma TextOfFive(a: seq<Run>, b: seq<Run>, c: seq<Run>, d: seq<Run>, e: seq<Run>)
    ensures TextOf(a + b + c + d + e) == TextOf(a) + TextOf(b) + TextOf(c) + TextOf(d) + TextOf(e)
  {
    TextOfAppend(a, b);
    TextOfAppend(a + b, c);
    TextOfAppend(a + b + c, d);
    TextOfAppend(a + b + c + d, e);
  }

  lemma Rejoin(t: string, text: string, p: nat)
    requires IsOccurrence(t, text, p)
    ensures t[..p] + text + t[p + |text|..] == t
  {
    assert t == t[..p] + t[p..p + |text|] + t[p + |text|..];
  }

  lemma JoinFive(a: string, b: string, x: string, d: string, c: string)
    ensures a + b + x + d + c == (a + b) + x + (d + c)
  {
  }

  /** Rejecting what `replace_text` tracked gives back the paragraph's text. */
  lemma RejectText(runs: seq<Run>, text: string, inserted: seq<Run>, comment: Option<string>)
    requires Unmarked(runs, "ins")
    ensures TextOf(Without(Replaced(runs, text, inserted, comment), "ins")) == TextOf(runs)
  {
    if RunWindow(runs, text).None? {
      WithoutUnmarked(runs, "ins");
    } else {
      var win := RunWindow(runs, text).value;
      var ws := runs[win.startRun..win.endRun];
      var cs, ce := win.charStart, win.charEnd;
      var T, p := TextOf(runs), MatchStart(runs, win);
      RejectRuns(runs, text, inserted, comment);
      ReplacedPieces(runs, text, inserted, comment);
      MatchSplits(runs, text);
      TextOfFive(runs[..win.startRun], BeforeParts(ws, |ws|, cs, ce), DeletedParts(ws, |ws|, cs, ce),
        AfterParts(ws, |ws|, cs, ce), runs[win.endRun..]);
      JoinFive(TextOf(runs[..win.startRun]), win.merged[..cs], text, win.merged[ce..], TextOf(runs[win.endRun..]));
      Rejoin(T, text, p);
    }
  }

  /** Accepting what `replace_text` tracked gives the text with the insertion in place of the match. */
  lemma AcceptText(runs: seq<Run>, text: string, inserted: seq<Run>, comment: Option<string>)
    requires Unmarked(runs, "del")
    ensures RunWindow(runs, text).None? ==>
      TextOf(Without(Replaced(runs, text, inserted, comment), "del")) == TextOf(runs)
    ensures RunWindow(runs, text).Some? ==>
      var T, p := TextOf(runs), MatchStart(runs, RunWindow(runs, text).value);
      && IsOccurrence(T, text, p)
      && TextOf(Without(Replaced(runs, text, inserted, comment), "del")) == T[..p] + TextOf(inserted) + T[p + |text|..]
  {
    if RunWindow(runs, text).None? {
      WithoutUnmarked(runs, "del");
    } else {
      var win := RunWindow(runs, text).value;
      var ws := runs[win.startRun..win.endRun];
      var cs, ce := win.charStart, win.charEnd;
      AcceptRuns(runs, text, inserted, comment);
      ReplacedPieces(runs, text, inserted, comment);
      MatchSplits(runs, text);
      MarkInsertedText(inserted, comment);
      TextOfFive(runs[..win.startRun], BeforeParts(ws, |ws|, cs, ce), MarkInserted(inserted, comment),
        AfterParts(ws, |ws|, cs, ce), runs[win.endRun..]);
      JoinFive(TextOf(runs[..win.startRun]), win.merged[..cs], TextOf(inserted), win.merged[ce..], TextOf(runs[win.endRun..]));
    }
  }
}
