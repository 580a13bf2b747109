/**
 * The paragraph cache of a document: `_build_paragraph_index` walks the
 * top-level elements and records, for every paragraph, its id in a list (the
 * order) and the paragraph under its id in a map (the last paragraph with an
 * id wins). `get_next_paragraph_text` and `get_prev_paragraph_text` read the
 * neighbours of a paragraph through the two.
 */
module ParagraphCache {
  import opened Wrappers
  import opened Text
  import opened Paragraphs
  import opened Layouts
  import opened Splices

  // ---------------------------------------------------------------------------
  // The paragraphs of a document, in order
  // ---------------------------------------------------------------------------

  /** A top-level paragraph and where it stands: layout `l`, element `e`. */
  datatype Placed = Placed(l: nat, e: nat, paragraph: Paragraph)

  /** Document order on positions. */
  predicate Precedes(a: Placed, b: Placed) {
    a.l < b.l || (a.l == b.l && a.e < b.e)
  }

  /** The paragraphs among the first `n` elements of layout `l`. */
  function ElementParas(l: nat, es: seq<Element>, n: nat): (ps: seq<Placed>)
    requires n <= |es|
    ensures forall i :: 0 <= i < |ps| ==> ps[i].l == l && ps[i].e < n && es[ps[i].e] == ParagraphElement(ps[i].paragraph)
    ensures forall i, j :: 0 <= i < j < |ps| ==> ps[i].e < ps[j].e
  {
    if n == 0 then []
    else ElementParas(l, es, n - 1) + (if es[n - 1].ParagraphElement? then [Placed(l, n - 1, es[n - 1].paragraph)] else [])
  }

  /** The paragraphs of the first `n` layouts, layout after layout. */
  function DocParas(ls: seq<Layout>, n: nat): (ps: seq<Placed>)
    requires n <= |ls|
    ensures forall i :: 0 <= i < |ps| ==>
      ps[i].l < n && ps[i].e < |ls[ps[i].l].elements| && ls[ps[i].l].elements[ps[i].e] == ParagraphElement(ps[i].paragraph)
    ensures forall i, j :: 0 <= i < j < |ps| ==> Precedes(ps[i], ps[j])
  {
    if n == 0 then []
    else
      var a, b := DocParas(ls, n - 1), ElementParas(n - 1, ls[n - 1].elements, |ls[n - 1].elements|);
      PlacedConcat(ls, n - 1, a, b);
      a + b
  }

  /** The paragraphs of the layouts before `l`, then those of layout `l`, are placed and in order. */
  lemma PlacedConcat(ls: seq<Layout>, l: nat, a: seq<Placed>, b: seq<Placed>)
    requires l < |ls|
    requires forall i :: 0 <= i < |a| ==>
      a[i].l < l && a[i].e < |ls[a[i].l].elements| && ls[a[i].l].elements[a[i].e] == ParagraphElement(a[i].paragraph)
    requires forall i, j :: 0 <= i < j < |a| ==> Precedes(a[i], a[j])
    requires forall i :: 0 <= i < |b| ==> b[i].l == l && b[i].e < |ls[l].elements| && ls[l].elements[b[i].e] == ParagraphElement(b[i].paragraph)
    requires forall i, j :: 0 <= i < j < |b| ==> b[i].e < b[j].e
    ensures var ps := a + b;
      && (forall i :: 0 <= i < |ps| ==>
            ps[i].l < l + 1 && ps[i].e < |ls[ps[i].l].elements| && ls[ps[i].l].elements[ps[i].e] == ParagraphElement(ps[i].paragraph))
      && (forall i, j :: 0 <= i < j < |ps| ==> Precedes(ps[i], ps[j]))
  {
    var ps := a + b;
    forall i | 0 <= i < |ps|
      ensures ps[i].l < l + 1 && ps[i].e < |ls[ps[i].l].elements| && ls[ps[i].l].elements[ps[i].e] == ParagraphElement(ps[i].paragraph)
    {
      if i >= |a| {
        assert ps[i] == b[i - |a|];
      }
    }
    forall i, j | 0 <= i < j < |ps| ensures Precedes(ps[i], ps[j]) {
      if j < |a| {
      } else if i < |a| {
        assert ps[j] == b[j - |a|];
      } else {
        assert ps[i] == b[i - |a|] && ps[j] == b[j - |a|];
      }
    }
  }

  /** Every paragraph element of layout `l` is listed. */
  lemma {:induction false} ElementParasComplete(l: nat, es: seq<Element>, n: nat, e: nat)
    requires e < n <= |es| && es[e].ParagraphElement?
    ensures exists i :: 0 <= i < |ElementParas(l, es, n)| && ElementParas(l, es, n)[i].e == e
    decreases n
  {
    var ps := ElementParas(l, es, n - 1);
    if e == n - 1 {
      assert ElementParas(l, es, n)[|ps|].e == e;
    } else {
      ElementParasComplete(l, es, n - 1, e);
      var i :| 0 <= i < |ps| && ps[i].e == e;
      assert ElementParas(l, es, n)[i] == ps[i];
    }
  }

  /** Every paragraph element of the document is listed: with the ensures of `DocParas`, the list is exactly the document's paragraphs in order. */
  lemma {:induction false} DocParasComplete(ls: seq<Layout>, n: nat, l: nat, e: nat)
    requires l < n <= |ls| && e < |ls[l].elements| && ls[l].elements[e].ParagraphElement?
    ensures exists i :: 0 <= i < |DocParas(ls, n)| && DocParas(ls, n)[i].l == l && DocParas(ls, n)[i].e == e
    decreases n
  {
    var a := DocParas(ls, n - 1);
    var b := ElementParas(n - 1, ls[n - 1].elements, |ls[n - 1].elements|);
    var all := DocParas(ls, n);
    assert all == a + b;
    if l == n - 1 {
      ElementParasComplete(n - 1, ls[n - 1].elements, |ls[n - 1].elements|, e);
      var j :| 0 <= j < |b| && b[j].e == e;
      assert all[|a| + j] == b[j];
      assert all[|a| + j].l == l && all[|a| + j].e == e;
    } else {
      DocParasComplete(ls, n - 1, l, e);
      var i :| 0 <= i < |a| && a[i].l == l && a[i].e == e;
      assert all[i] == a[i];
      assert all[i].l == l && all[i].e == e;
    }
  }

  /** All the document's paragraphs. */
  function AllParas(ls: seq<Layout>): seq<Placed> {
    DocParas(ls, |ls|)
  }

  // ---------------------------------------------------------------------------
  // The two caches
  // ---------------------------------------------------------------------------

  /** The map from paragraph id to (a reference to) the paragraph. */
  type Cache = map<Option<string>, ParaRef>

  /** The map after recording `ps` in order. */
  function CacheOf(ps: seq<Placed>): Cache
    decreases |ps|
  {
    if ps == [] then map[]
    else var x := ps[|ps| - 1]; CacheOf(ps[..|ps| - 1])[x.paragraph.id := Live(x.l, x.e)]
  }

  /** The order list after recording `ps`. */
  function OrderOf(ps: seq<Placed>): (order: seq<Option<string>>)
    ensures |order| == |ps| && forall i :: 0 <= i < |ps| ==> order[i] == ps[i].paragraph.id
    decreases |ps|
  {
    if ps == [] then [] else OrderOf(ps[..|ps| - 1]) + [ps[|ps| - 1].paragraph.id]
  }

  lemma CacheOfAppend(ps: seq<Placed>, x: Placed)
    ensures CacheOf(ps + [x]) == CacheOf(ps)[x.paragraph.id := Live(x.l, x.e)]
    ensures OrderOf(ps + [x]) == OrderOf(ps) + [x.paragraph.id]
  {
    assert (ps + [x])[..|ps|] == ps;
  }

  /** The map holds exactly the ids recorded. */
  lemma {:induction false} CacheKeys(ps: seq<Placed>)
    ensures forall k :: k in CacheOf(ps) <==> exists i :: 0 <= i < |ps| && ps[i].paragraph.id == k
    decreases |ps|
  {
    if ps != [] {
      var n := |ps| - 1;
      var front := ps[..n];
      CacheKeys(front);
      forall k ensures k in CacheOf(ps) <==> exists i :: 0 <= i < |ps| && ps[i].paragraph.id == k {
        if k in CacheOf(front) && k != ps[n].paragraph.id {
          var i :| 0 <= i < |front| && front[i].paragraph.id == k;
          assert ps[i] == front[i];
        }
        if exists i :: 0 <= i < |ps| && ps[i].paragraph.id == k {
          var i :| 0 <= i < |ps| && ps[i].paragraph.id == k;
          if i < n {
            assert front[i] == ps[i];
          }
        }
      }
    }
  }

  /** Each id recorded stands for the last paragraph recorded under it. */
  lemma {:induction false} CacheLast(ps: seq<Placed>, i: nat)
    requires i < |ps| && forall j :: i < j < |ps| ==> ps[j].paragraph.id != ps[i].paragraph.id
    ensures ps[i].paragraph.id in CacheOf(ps) && CacheOf(ps)[ps[i].paragraph.id] == Live(ps[i].l, ps[i].e)
    decreases |ps|
  {
    var n := |ps| - 1;
    if i < n {
      var front := ps[..n];
      assert front[i] == ps[i];
      assert forall j :: i < j < |front| ==> front[j] == ps[j];
      CacheLast(front, i);
    }
  }

  /** The paragraph an order entry stands for, through the map. */
  predicate Resolves(layouts: seq<Layout>, cache: Cache, order: seq<Option<string>>) {
    forall i :: 0 <= i < |order| ==> order[i] in cache && Denote(layouts, cache[order[i]]).Some?
  }

  /** Every map entry refers to a paragraph. */
  predicate Refers(layouts: seq<Layout>, cache: Cache) {
    forall k :: k in cache ==> Denote(layouts, cache[k]).Some?
  }

  /** The paragraphs the order stands for, read through the map. */
  function Resolved(layouts: seq<Layout>, cache: Cache, order: seq<Option<string>>): (ps: seq<Paragraph>)
    requires Resolves(layouts, cache, order)
    ensures |ps| == |order| && forall i :: 0 <= i < |order| ==> ps[i] == Denote(layouts, cache[order[i]]).value
  {
    seq(|order|, i requires 0 <= i < |order| => Denote(layouts, cache[order[i]]).value)
  }

  /** A freshly built cache refers to paragraphs of the document, and the order resolves. */
  lemma FreshCacheResolves(layouts: seq<Layout>)
    ensures Refers(layouts, CacheOf(AllParas(layouts)))
    ensures Resolves(layouts, CacheOf(AllParas(layouts)), OrderOf(AllParas(layouts)))
  {
    var ps := AllParas(layouts);
    var cache, order := CacheOf(ps), OrderOf(ps);
    FreshCacheRefers(ps, layouts);
    CacheKeys(ps);
    forall i | 0 <= i < |order| ensures order[i] in cache {
      assert order[i] == ps[i].paragraph.id;
    }
  }

  /** Every entry of a map built from the document's paragraphs refers to a paragraph. */
  lemma FreshCacheRefers(ps: seq<Placed>, layouts: seq<Layout>)
    requires ps == AllParas(layouts)
    ensures Refers(layouts, CacheOf(ps))
  {
    CacheKeys(ps);
    forall k | k in CacheOf(ps) ensures Denote(layouts, CacheOf(ps)[k]).Some? {
      var i :| 0 <= i < |ps| && ps[i].paragraph.id == k;
      CacheLast(ps, LastWith(ps, i));
    }
  }

  /** The last position at or after `i` with the same id as `i`. */
  ghost function LastWith(ps: seq<Placed>, i: nat): (j: nat)
    requires i < |ps|
    ensures i <= j < |ps| && ps[j].paragraph.id == ps[i].paragraph.id
    ensures forall m :: j < m < |ps| ==> ps[m].paragraph.id != ps[i].paragraph.id
    decreases |ps| - i
  {
    if exists m :: i < m < |ps| && ps[m].paragraph.id == ps[i].paragraph.id then
      var m :| i < m < |ps| && ps[m].paragraph.id == ps[i].paragraph.id;
      LastWith(ps, m)
    else i
  }

  /** Distinct ids among the document's paragraphs. */
  predicate DistinctIds(ps: seq<Placed>) {
    forall i, j :: 0 <= i < j < |ps| ==> ps[i].paragraph.id != ps[j].paragraph.id
  }

  /**
   * When the document's paragraphs carry distinct ids, the freshly built
   * cache reads back exactly the document's paragraphs, in document order.
   */
  lemma FreshCacheInOrder(layouts: seq<Layout>)
    requires DistinctIds(AllParas(layouts))
    ensures var ps := AllParas(layouts);
      Resolves(layouts, CacheOf(ps), OrderOf(ps))
      && Resolved(layouts, CacheOf(ps), OrderOf(ps)) == seq(|ps|, i requires 0 <= i < |ps| => ps[i].paragraph)
  {
    var ps := AllParas(layouts);
    FreshCacheResolves(layouts);
    forall i | 0 <= i < |ps| ensures CacheOf(ps)[ps[i].paragraph.id] == Live(ps[i].l, ps[i].e) {
      CacheLast(ps, i);
    }
  }

  // ---------------------------------------------------------------------------
  // Neighbouring text
  // ---------------------------------------------------------------------------

  /** A heading or a caption ends the search for neighbouring text. */
  predicate Boundary(p: Paragraph) {
    IsSet(p.isHeading) || IsSet(p.isCaption)
  }

  function FullText(p: Paragraph): string {
    ParagraphText(p, "full")
  }

  /** Looking forward from `k`: the stripped text of the first paragraph with text, unless a boundary comes first. */
  function NextText(ps: seq<Paragraph>, k: nat): Option<string>
    decreases |ps| - k
  {
    if k >= |ps| then None
    else if Boundary(ps[k]) then None
    else if FullText(ps[k]) != "" then Some(Strip(FullText(ps[k])))
    else NextText(ps, k + 1)
  }

  /** Looking backward from `k - 1` down to 0, likewise. */
  function PrevText(ps: seq<Paragraph>, k: nat): Option<string>
    requires k <= |ps|
  {
    if k == 0 then None
    else if Boundary(ps[k - 1]) then None
    else if FullText(ps[k - 1]) != "" then Some(Strip(FullText(ps[k - 1])))
    else PrevText(ps, k - 1)
  }

  /** Paragraphs that are neither boundaries nor carry text are passed over. */
  predicate Skipped(p: Paragraph) {
    !Boundary(p) && FullText(p) == ""
  }

  /**
   * Forward: the first paragraph at or after `k` that is not passed over
   * decides; a boundary gives none, any other gives its stripped text.
   */
  lemma {:induction false} NextTextAt(ps: seq<Paragraph>, k: nat, j: nat)
    requires k <= j < |ps| && !Skipped(ps[j]) && forall m :: k <= m < j ==> Skipped(ps[m])
    ensures NextText(ps, k) == if Boundary(ps[j]) then None else Some(Strip(FullText(ps[j])))
    decreases j - k
  {
    if k < j {
      assert Skipped(ps[k]);
      NextTextAt(ps, k + 1, j);
    }
  }

  /** Forward: when every paragraph from `k` on is passed over, there is none. */
  lemma {:induction false} NextTextNone(ps: seq<Paragraph>, k: nat)
    requires forall m :: k <= m < |ps| ==> Skipped(ps[m])
    ensures NextText(ps, k) == None
    decreases |ps| - k
  {
    if k < |ps| {
      assert Skipped(ps[k]);
      NextTextNone(ps, k + 1);
    }
  }

  /** Backward: the first paragraph below `k`, going down, that is not passed over decides. */
  lemma {:induction false} PrevTextAt(ps: seq<Paragraph>, k: nat, j: nat)
    requires j < k <= |ps| && !Skipped(ps[j]) && forall m :: j < m < k ==> Skipped(ps[m])
    ensures PrevText(ps, k) == if Boundary(ps[j]) then None else Some(Strip(FullText(ps[j])))
    decreases k - j
  {
    if j < k - 1 {
      assert Skipped(ps[k - 1]);
      PrevTextAt(ps, k - 1, j);
    }
  }

  /** Backward: when every paragraph below `k` is passed over, there is none. */
  lemma {:induction false} PrevTextNone(ps: seq<Paragraph>, k: nat)
    requires k <= |ps| && forall m :: 0 <= m < k ==> Skipped(ps[m])
    ensures PrevText(ps, k) == None
  {
    if k > 0 {
      assert Skipped(ps[k - 1]);
      PrevTextNone(ps, k - 1);
    }
  }

  /** `list.index`: the first position holding `x`. */
  function FirstIndex<T(==)>(xs: seq<T>, x: T): (r: Option<nat>)
    ensures r.Some? ==> r.value < |xs| && xs[r.value] == x && forall j :: 0 <= j < r.value ==> xs[j] != x
    ensures r.None? ==> forall j :: 0 <= j < |xs| ==> xs[j] != x
  {
    if xs == [] then None
    else if xs[0] == x then Some(0)
    else match FirstIndex(xs[1..], x)
      case None => None
      case Some(i) => Some(i + 1)
  }

  /** `get_next_paragraph_text` on a cache whose order resolves. */
  function NextParagraphText(ps: seq<Paragraph>, order: seq<Option<string>>, id: string): Option<string>
    requires |ps| == |order|
  {
    match FirstIndex(order, Some(id))
    case None => None
    case Some(i) => NextText(ps, i + 1)
  }

  /** `get_prev_paragraph_text` likewise. */
  function PrevParagraphText(ps: seq<Paragraph>, order: seq<Option<string>>, id: string): Option<string>
    requires |ps| == |order|
  {
    match FirstIndex(order, Some(id))
    case None => None
    case Some(i) => PrevText(ps, i)
  }

  // ---------------------------------------------------------------------------
  // Shape changes the cache survives
  // ---------------------------------------------------------------------------

  /** Same layouts and elements, and each element a paragraph exactly when it was. */
  predicate ParagraphSlots(a: seq<Layout>, b: seq<Layout>) {
    && |a| == |b|
    && (forall l :: 0 <= l < |a| ==> |a[l].elements| == |b[l].elements|)
    && (forall l, e :: 0 <= l < |a| && 0 <= e < |a[l].elements| ==>
          (a[l].elements[e].ParagraphElement? <==> b[l].elements[e].ParagraphElement?))
  }

  /** An edit that keeps the paragraph slots keeps every cache entry referring to a paragraph. */
  lemma SlotsKeepCache(a: seq<Layout>, b: seq<Layout>, cache: Cache, order: seq<Option<string>>)
    requires ParagraphSlots(a, b)
    requires Refers(a, cache) && Resolves(a, cache, order)
    ensures Refers(b, cache) && Resolves(b, cache, order)
  {
    forall k | k in cache ensures Denote(b, cache[k]).Some? {
      assert Denote(a, cache[k]).Some?;
    }
  }
}
