/**
 * Editing text that may straddle several runs: locating the smallest window of
 * consecutive runs that holds a piece of text, removing that text, and
 * replacing it with tracked deletions and insertions.
 */
module RunEdits {
  import opened Wrappers
  import opened Text
  import opened Html
  import opened Runs
  import opened RunHtml

  function Max(a: int, b: int): int { if a >= b then a else b }
  function Min(a: int, b: int): int { if a <= b then a else b }

  // ---------------------------------------------------------------------------
  // Locating the window
  // ---------------------------------------------------------------------------

  /**
   * Where the text was found: runs `startRun` up to (not including) `endRun`,
   * and the character range inside their joined text `merged`.
   */
  datatype Window = Window(startRun: nat, endRun: nat, charStart: nat, charEnd: nat, merged: string)

  /** The joined text of the `w` runs starting at run `i`. */
  function MergedAt(runs: seq<Run>, i: nat, w: nat): string
    requires i + w <= |runs|
  {
    TextOf(runs[i..i + w])
  }

  /** The `w` runs starting at run `i` hold `text`. */
  predicate Hit(runs: seq<Run>, text: string, i: int, w: int) {
    0 <= i && 1 <= w && i + w <= |runs| && Contains(MergedAt(runs, i, w), text)
  }

  /** The window a search that reached width `w` and start `i` returns. */
  function SearchFrom(runs: seq<Run>, text: string, w: nat, i: nat): (r: Option<Window>)
    requires 1 <= w
    ensures r.Some? ==> r.value.startRun < r.value.endRun <= |runs| && r.value.charEnd == r.value.charStart + |text|
    decreases |runs| + 1 - w, |runs| + 1 - i
  {
    if w > |runs| then None
    else if i + w > |runs| then SearchFrom(runs, text, w + 1, 0)
    else match Find(MergedAt(runs, i, w), text)
      case Some(idx) => Some(Window(i, i + w, idx, idx + |text|, MergedAt(runs, i, w)))
      case None => SearchFrom(runs, text, w, i + 1)
  }

  /** The window found is a hit of width at least `w`, and starts at `i` or later if its width is `w`. */
  lemma {:induction false} SearchFromFound(runs: seq<Run>, text: string, w: nat, i: nat)
    requires 1 <= w
    ensures var r := SearchFrom(runs, text, w, i);
      r.Some? ==> var W := r.value.endRun - r.value.startRun;
      && (W > w || (W == w && r.value.startRun >= i))
      && r.value.merged == MergedAt(runs, r.value.startRun, W)
      && Find(r.value.merged, text) == Some(r.value.charStart)
    decreases |runs| + 1 - w, |runs| + 1 - i
  {
    if w > |runs| {
    } else if i + w > |runs| {
      SearchFromFound(runs, text, w + 1, 0);
    } else {
      var found := Find(MergedAt(runs, i, w), text);
      if found.None? {
        SearchFromFound(runs, text, w, i + 1);
      } else {
        assert SearchFrom(runs, text, w, i) == Some(Window(i, i + w, found.value, found.value + |text|, MergedAt(runs, i, w)));
      }
    }
  }

  /** No window the search passed over before stopping holds the text. */
  lemma {:induction false} SearchFromMinimal(runs: seq<Run>, text: string, w: nat, i: nat, w': int, i': int)
    requires 1 <= w
    requires w' > w || (w' == w && i' >= i)
    requires SearchFrom(runs, text, w, i).Some? ==>
      var win := SearchFrom(runs, text, w, i).value;
      w' < win.endRun - win.startRun || (w' == win.endRun - win.startRun && i' < win.startRun)
    ensures !Hit(runs, text, i', w')
    decreases |runs| + 1 - w, |runs| + 1 - i
  {
    if w > |runs| {
    } else if i + w > |runs| {
      if w' > w && i' >= 0 {
        SearchFromMinimal(runs, text, w + 1, 0, w', i');
      }
    } else if Find(MergedAt(runs, i, w), text).None? {
      if w' > w || i' > i {
        SearchFromMinimal(runs, text, w, i + 1, w', i');
      }
    }
  }

  /**
   * The window `find_run_window` reports: the fewest runs that hold the text,
   * and among those the leftmost, with the first occurrence in their joined text.
   */
  function RunWindow(runs: seq<Run>, text: string): (r: Option<Window>)
    ensures r.Some? ==> r.value.startRun < r.value.endRun <= |runs| && r.value.charEnd == r.value.charStart + |text|
  {
    SearchFrom(runs, text, 1, 0)
  }

  lemma RunWindowSpec(runs: seq<Run>, text: string)
    ensures var r := RunWindow(runs, text);
      r.Some? ==> var W := r.value.endRun - r.value.startRun;
      && Hit(runs, text, r.value.startRun, W)
      && r.value.merged == MergedAt(runs, r.value.startRun, W)
      && Find(r.value.merged, text) == Some(r.value.charStart)
      && (forall w', i' :: w' < W ==> !Hit(runs, text, i', w'))
      && (forall i' :: i' < r.value.startRun ==> !Hit(runs, text, i', W))
    ensures RunWindow(runs, text).None? ==> forall w', i' :: !Hit(runs, text, i', w')
  {
    SearchFromFound(runs, text, 1, 0);
    forall w', i' | RunWindow(runs, text).None? || w' < RunWindow(runs, text).value.endRun - RunWindow(runs, text).value.startRun
      || (w' == RunWindow(runs, text).value.endRun - RunWindow(runs, text).value.startRun && i' < RunWindow(runs, text).value.startRun)
      ensures !Hit(runs, text, i', w')
    {
      if w' >= 1 && i' >= 0 {
        SearchFromMinimal(runs, text, 1, 0, w', i');
      }
    }
  }

  /** The window's bounds, without the search's minimality. */
  lemma RunWindowShape(runs: seq<Run>, text: string)
    requires RunWindow(runs, text).Some?
    ensures var win := RunWindow(runs, text).value;
      && win.startRun < win.endRun <= |runs|
      && win.merged == TextOf(runs[win.startRun..win.endRun])
      && win.charEnd == win.charStart + |text| <= |win.merged|
      && win.merged[win.charStart..win.charEnd] == text
  {
    WindowOccurrence(runs, text);
  }

  /** `RunModel.find_run_window`: widths from one run up, starts left to right. */
  method FindRunWindow(runs: seq<Run>, text: string) returns (win: Option<Window>)
    ensures win == RunWindow(runs, text)
  {
    var n := |runs|;
    var w := 1;
    while w <= n
      invariant 1 <= w <= n + 1
      invariant SearchFrom(runs, text, w, 0) == RunWindow(runs, text)
    {
      var i := 0;
      while i <= n - w
        invariant 0 <= i <= n - w + 1
        invariant SearchFrom(runs, text, w, i) == RunWindow(runs, text)
      {
        var merged := TextOf(runs[i..i + w]);
        var idx := Find(merged, text);
        if idx.Some? {
          return Some(Window(i, i + w, idx.value, idx.value + |text|, merged));
        }
        i := i + 1;
      }
      w := w + 1;
    }
    return None;
  }

  /** A window exists exactly when there are runs and their joined text holds the text. */
  lemma WindowExistsIff(runs: seq<Run>, text: string)
    ensures RunWindow(runs, text).Some? <==> |runs| > 0 && Contains(TextOf(runs), text)
  {
    if RunWindow(runs, text).Some? {
      WindowFound(runs, text);
    } else {
      WindowMissing(runs, text);
    }
  }

  lemma WindowFound(runs: seq<Run>, text: string)
    requires RunWindow(runs, text).Some?
    ensures |runs| > 0 && Contains(TextOf(runs), text)
  {
    SearchFromContained(runs, text, 1, 0);
  }

  lemma {:induction false} SearchFromContained(runs: seq<Run>, text: string, w: nat, i: nat)
    requires 1 <= w
    ensures SearchFrom(runs, text, w, i).Some? ==> Contains(TextOf(runs), text)
    decreases |runs| + 1 - w, |runs| + 1 - i
  {
    if w > |runs| {
    } else if i + w > |runs| {
      SearchFromContained(runs, text, w + 1, 0);
    } else if Find(MergedAt(runs, i, w), text).None? {
      SearchFromContained(runs, text, w, i + 1);
    } else {
      HitInWhole(runs, text, i, w);
    }
  }

  lemma WindowMissing(runs: seq<Run>, text: string)
    requires RunWindow(runs, text).None?
    ensures !(|runs| > 0 && Contains(TextOf(runs), text))
  {
    if |runs| > 0 {
      assert runs[0..0 + |runs|] == runs;
      SearchFromMinimal(runs, text, 1, 0, |runs|, 0);
    }
  }

  /** Text held by some runs is held by all of them. */
  lemma HitInWhole(runs: seq<Run>, text: string, i: int, w: int)
    requires Hit(runs, text, i, w)
    ensures Contains(TextOf(runs), text)
  {
    var M := MergedAt(runs, i, w);
    var k := Find(M, text).value;
    FindSpec(M, text);
    TextOfSlices(runs, i, i + w);
    OccurrenceShift(TextOf(runs[..i]), M, TextOf(runs[i + w..]), text, k);
    ContainsIff(TextOf(runs), text);
  }

  /** The window holds the text at `charStart`, which is inside its first run. */
  lemma WindowBounds(runs: seq<Run>, text: string)
    requires RunWindow(runs, text).Some?
    ensures var win := RunWindow(runs, text).value;
      && win.charEnd <= |win.merged|
      && win.merged[win.charStart..win.charEnd] == text
      && win.charStart <= |runs[win.startRun].text|
      && |TextOf(runs[win.startRun..win.endRun - 1])| <= win.charEnd
  {
    RunWindowShape(runs, text);
    WindowStart(runs, text);
    WindowEnd(runs, text);
  }

  /** The window's joined text holds the text at `charStart`. */
  lemma WindowOccurrence(runs: seq<Run>, text: string)
    requires RunWindow(runs, text).Some?
    ensures var win := RunWindow(runs, text).value;
      && win.merged == MergedAt(runs, win.startRun, win.endRun - win.startRun)
      && IsOccurrence(win.merged, text, win.charStart)
  {
    SearchFromFound(runs, text, 1, 0);
    FindSpec(RunWindow(runs, text).value.merged, text);
  }

  /** Neither the window without its first run nor the window without its last run holds the text. */
  lemma WindowNotShorter(runs: seq<Run>, text: string)
    requires RunWindow(runs, text).Some?
    ensures var win := RunWindow(runs, text).value;
      var W := win.endRun - win.startRun;
      W > 1 ==> !Hit(runs, text, win.startRun + 1, W - 1) && !Hit(runs, text, win.startRun, W - 1)
  {
    var win := RunWindow(runs, text).value;
    var W := win.endRun - win.startRun;
    if W > 1 {
      SearchFromMinimal(runs, text, 1, 0, W - 1, win.startRun + 1);
      SearchFromMinimal(runs, text, 1, 0, W - 1, win.startRun);
    }
  }

  /** The text does not lie inside the window without its first run. */
  lemma WindowStart(runs: seq<Run>, text: string)
    requires RunWindow(runs, text).Some?
    ensures var win := RunWindow(runs, text).value;
      win.charStart <= |runs[win.startRun].text|
  {
    var win := RunWindow(runs, text).value;
    var sr, er, cs := win.startRun, win.endRun, win.charStart;
    var W := er - sr;
    var t0 := runs[sr].text;
    var rest := MergedAt(runs, sr + 1, W - 1);
    WindowOccurrence(runs, text);
    WindowNotShorter(runs, text);
    assert runs[sr..er] == [runs[sr]] + runs[sr + 1..er];
    TextOfAppend([runs[sr]], runs[sr + 1..er]);
    TextOfSingle(runs[sr]);
    assert win.merged == t0 + rest;
    if cs > |t0| {
      OccurrenceInSuffix(t0, rest, text, cs);
      assert false;
    }
  }

  /** Nor does it lie inside the window without its last run. */
  lemma WindowEnd(runs: seq<Run>, text: string)
    requires RunWindow(runs, text).Some?
    ensures var win := RunWindow(runs, text).value;
      |TextOf(runs[win.startRun..win.endRun - 1])| <= win.charEnd
  {
    var win := RunWindow(runs, text).value;
    var sr, er, cs := win.startRun, win.endRun, win.charStart;
    var W := er - sr;
    var init := runs[sr..er - 1];
    var last := runs[er - 1].text;
    WindowOccurrence(runs, text);
    WindowNotShorter(runs, text);
    assert runs[sr..er] == init + [runs[er - 1]];
    TextOfAppend(init, [runs[er - 1]]);
    TextOfSingle(runs[er - 1]);
    assert win.merged == TextOf(init) + last;
    if win.charEnd < |TextOf(init)| {
      assert runs[sr..sr + (W - 1)] == init;
      OccurrenceInPrefix(TextOf(init), last, text, cs);
      assert false;
    }
  }

  // ---------------------------------------------------------------------------
  // Cutting the window's runs
  // ---------------------------------------------------------------------------

  function OptSeq(o: Option<Run>): seq<Run> {
    if o.Some? then [o.value] else []
  }

  /** The three parts of a window run that starts at `off` within the window's text. */
  function Cut(r: Run, off: int, cs: int, ce: int): (Option<Run>, Option<Run>, Option<Run>) {
    SplitRun(r, Max(0, cs - off), Min(|r.text|, ce - off))
  }

  /** Where window run `k` starts in the window's joined text. */
  function OffsetOf(ws: seq<Run>, k: nat): nat
    requires k <= |ws|
  {
    if k == 0 then 0 else OffsetOf(ws, k - 1) + |ws[k - 1].text|
  }

  /** The parts of window run `k`: before, inside and after the match. */
  function PartsOf(ws: seq<Run>, k: nat, cs: int, ce: int): (Option<Run>, Option<Run>, Option<Run>)
    requires k < |ws|
  {
    Cut(ws[k], OffsetOf(ws, k), cs, ce)
  }

  /** The text before the match, cut from the first `k` window runs, in order. */
  function BeforeParts(ws: seq<Run>, k: nat, cs: int, ce: int): seq<Run>
    requires k <= |ws|
  {
    if k == 0 then [] else BeforeParts(ws, k - 1, cs, ce) + OptSeq(PartsOf(ws, k - 1, cs, ce).0)
  }

  /** The matched text, cut from the first `k` window runs and marked as a tracked deletion. */
  function DeletedParts(ws: seq<Run>, k: nat, cs: int, ce: int): seq<Run>
    requires k <= |ws|
  {
    if k == 0 then [] else DeletedParts(ws, k - 1, cs, ce) + OptSeq(MarkDeleted(PartsOf(ws, k - 1, cs, ce).1))
  }

  /** The text after the match, cut from the first `k` window runs, in order. */
  function AfterParts(ws: seq<Run>, k: nat, cs: int, ce: int): seq<Run>
    requires k <= |ws|
  {
    if k == 0 then [] else AfterParts(ws, k - 1, cs, ce) + OptSeq(PartsOf(ws, k - 1, cs, ce).2)
  }

  /** What `drop_text` keeps of the first `k` window runs: each run's part before and after the match. */
  function KeptParts(ws: seq<Run>, k: nat, cs: int, ce: int): seq<Run>
    requires k <= |ws|
  {
    if k == 0 then []
    else KeptParts(ws, k - 1, cs, ce) + OptSeq(PartsOf(ws, k - 1, cs, ce).0) + OptSeq(PartsOf(ws, k - 1, cs, ce).2)
  }

  function MarkDeleted(o: Option<Run>): Option<Run> {
    if o.Some? then Some(o.value.(attrs := o.value.attrs.(trackedChange := Some("del")))) else None
  }

  /** The inserted runs, marked as a tracked insertion; the first carries the comment, if any. */
  function MarkInserted(rs: seq<Run>, comment: Option<string>): (out: seq<Run>)
    ensures |out| == |rs|
    ensures forall k :: 0 <= k < |rs| ==>
              && out[k].text == rs[k].text && out[k].id == rs[k].id
              && out[k].attrs.trackedChange == Some("ins")
              && out[k].attrs.commentText == (if k == 0 && Truthy(comment) then comment else rs[k].attrs.commentText)
              && out[k].attrs == rs[k].attrs.(trackedChange := Some("ins"), commentText := out[k].attrs.commentText)
  {
    seq(|rs|, k requires 0 <= k < |rs| =>
      rs[k].(attrs := rs[k].attrs.(trackedChange := Some("ins"),
        commentText := if k == 0 && Truthy(comment) then comment else rs[k].attrs.commentText)))
  }

  /** `RunModel.drop_text`: the runs with the located text removed, or unchanged when it is absent. */
  function Dropped(runs: seq<Run>, text: string): seq<Run> {
    match RunWindow(runs, text)
    case None => runs
    case Some(win) =>
      var ws := runs[win.startRun..win.endRun];
      runs[..win.startRun] + KeptParts(ws, |ws|, win.charStart, win.charEnd) + runs[win.endRun..]
  }

  /** `RunModel.replace_text`: the located text kept as a deletion and followed by the insertion. */
  function Replaced(runs: seq<Run>, text: string, inserted: seq<Run>, comment: Option<string>): seq<Run> {
    match RunWindow(runs, text)
    case None => runs
    case Some(win) =>
      var ws := runs[win.startRun..win.endRun];
      var cs, ce := win.charStart, win.charEnd;
      runs[..win.startRun] + BeforeParts(ws, |ws|, cs, ce) + DeletedParts(ws, |ws|, cs, ce)
      + MarkInserted(inserted, comment) + AfterParts(ws, |ws|, cs, ce) + runs[win.endRun..]
  }

  method DropText(runs: seq<Run>, text: string) returns (out: seq<Run>)
    ensures out == Dropped(runs, text)
  {
    var win := FindRunWindow(runs, text);
    if win.None? {
      return runs;
    }
    var sr, er := win.value.startRun, win.value.endRun;
    var cs, ce := win.value.charStart, win.value.charEnd;
    var merged := runs[sr..er];
    var kept := [];
    var offset := 0;
    var k := 0;
    while k < |merged|
      invariant 0 <= k <= |merged|
      invariant offset == OffsetOf(merged, k)
      invariant kept == KeptParts(merged, k, cs, ce)
    {
      var r := merged[k];
      var (before, _, after) := Cut(r, offset, cs, ce);
      if before.Some? {
        kept := kept + [before.value];
      }
      if after.Some? {
        kept := kept + [after.value];
      }
      offset := offset + |r.text|;
      k := k + 1;
    }
    out := runs[..sr] + kept + runs[er..];
  }

  /** The insertion loop of `replace_text`: marks each inserted run; the first carries the comment. */
  method MarkInsertions(inserted: seq<Run>, comment: Option<string>) returns (marked: seq<Run>)
    ensures marked == MarkInserted(inserted, comment)
  {
    var firstIns := true;
    var j := 0;
    marked := [];
    while j < |inserted|
      invariant 0 <= j <= |inserted|
      invariant marked == MarkInserted(inserted[..j], comment)
      invariant firstIns == (j == 0 || !Truthy(comment))
    {
      var r := inserted[j];
      r := r.(attrs := r.attrs.(trackedChange := Some("ins")));
      if firstIns && Truthy(comment) {
        r := r.(attrs := r.attrs.(commentText := comment));
        firstIns := false;
      }
      marked := marked + [r];
      j := j + 1;
    }
    assert inserted[..j] == inserted;
  }

  method ReplaceText(runs: seq<Run>, text: string, tokenize: Tokenizer, html: string, comment: Option<string>)
    returns (out: seq<Run>)
    ensures out == Replaced(runs, text, ParseRuns(tokenize(html)), comment)
  {
    var win := FindRunWindow(runs, text);
    if win.None? {
      return runs;
    }
    var sr, er := win.value.startRun, win.value.endRun;
    var cs, ce := win.value.charStart, win.value.charEnd;
    var merged := runs[sr..er];
    out := runs[..sr];
    var beforeParts, delParts, afterParts := CutWindow(merged, cs, ce);
    out := out + beforeParts + delParts;
    var inserted := FromHtml(tokenize, html);
    var marked := MarkInsertions(inserted, comment);
    out := out + marked + afterParts + runs[er..];
  }

  /** The cutting loop of `replace_text`: each window run's parts before, inside and after the match. */
  method CutWindow(merged: seq<Run>, cs: int, ce: int) returns (beforeParts: seq<Run>, delParts: seq<Run>, afterParts: seq<Run>)
    ensures beforeParts == BeforeParts(merged, |merged|, cs, ce)
    ensures delParts == DeletedParts(merged, |merged|, cs, ce)
    ensures afterParts == AfterParts(merged, |merged|, cs, ce)
  {
    var offset := 0;
    beforeParts, delParts, afterParts := [], [], [];
    var k := 0;
    while k < |merged|
      invariant 0 <= k <= |merged|
      invariant offset == OffsetOf(merged, k)
      invariant beforeParts == BeforeParts(merged, k, cs, ce)
      invariant delParts == DeletedParts(merged, k, cs, ce)
      invariant afterParts == AfterParts(merged, k, cs, ce)
    {
      var r := merged[k];
      var (before, middle, after) := Cut(r, offset, cs, ce);
      if before.Some? {
        beforeParts := beforeParts + [before.value];
      }
      if middle.Some? {
        var m := middle.value.(attrs := middle.value.attrs.(trackedChange := Some("del")));
        delParts := delParts + [m];
      }
      if after.Some? {
        afterParts := afterParts + [after.value];
      }
      offset := offset + |r.text|;
      k := k + 1;
    }
  }
}
