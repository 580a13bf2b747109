/**
 * Structural splices: `_apply_replacement` puts a list of new elements in
 * place of the first element, in document order, whose id is the old id; and
 * what that does to the paragraph cache, whose entries are references to
 * paragraph objects and so keep seeing the same paragraphs.
 */
module Splices {
  import opened Wrappers
  import opened Paragraphs
  import opened Layouts
  import opened Resolver

  // ---------------------------------------------------------------------------
  // Finding the element
  // ---------------------------------------------------------------------------

  /** Scanning `es` from `from`: the first element with the id; reading the id of an absent entry raises. */
  function FindInElements(es: seq<Element>, wanted: Option<string>, from: nat): (r: Result<Option<nat>>)
    ensures r.Ok? && r.value.Some? ==>
      from <= r.value.value < |es| && !es[r.value.value].Absent? && ElementId(es[r.value.value]) == wanted
    ensures r.Ok? && r.value.Some? ==>
      forall j :: from <= j < r.value.value ==> !es[j].Absent? && ElementId(es[j]) != wanted
    ensures r.Ok? && r.value.None? ==> forall j :: from <= j < |es| ==> !es[j].Absent? && ElementId(es[j]) != wanted
    ensures r.Err? ==> r.error == AttributeError && exists j :: from <= j < |es| && es[j].Absent?
    decreases |es| - from
  {
    if from >= |es| then Ok(None)
    else if es[from].Absent? then Err(AttributeError)
    else if ElementId(es[from]) == wanted then Ok(Some(from))
    else FindInElements(es, wanted, from + 1)
  }

  /** Scanning the layouts from `from` in order. */
  function FindElement(layouts: seq<Layout>, wanted: Option<string>, from: nat): (r: Result<Option<(nat, nat)>>)
    ensures r.Ok? && r.value.Some? ==>
      var (l, e) := r.value.value;
      from <= l < |layouts| && e < |layouts[l].elements| && FindInElements(layouts[l].elements, wanted, 0) == Ok(Some(e))
    ensures r.Ok? && r.value.Some? ==>
      forall i :: from <= i < r.value.value.0 ==> FindInElements(layouts[i].elements, wanted, 0) == Ok(None)
    ensures r.Ok? && r.value.None? ==> forall i :: from <= i < |layouts| ==> FindInElements(layouts[i].elements, wanted, 0) == Ok(None)
    decreases |layouts| - from
  {
    if from >= |layouts| then Ok(None)
    else match FindInElements(layouts[from].elements, wanted, 0)
      case Err(x) => Err(x)
      case Ok(Some(e)) => Ok(Some((from, e)))
      case Ok(None) => FindElement(layouts, wanted, from + 1)
  }

  /** The search loops of `_apply_replacement`. */
  method LocateElement(layouts: seq<Layout>, wanted: Option<string>) returns (r: Result<Option<(nat, nat)>>)
    ensures r == FindElement(layouts, wanted, 0)
  {
    for l := 0 to |layouts|
      invariant FindElement(layouts, wanted, 0) == FindElement(layouts, wanted, l)
    {
      var es := layouts[l].elements;
      for e := 0 to |es|
        invariant FindInElements(es, wanted, 0) == FindInElements(es, wanted, e)
      {
        if es[e].Absent? {
          return Err(AttributeError);
        }
        if ElementId(es[e]) == wanted {
          return Ok(Some((l, e)));
        }
      }
    }
    return Ok(None);
  }

  // ---------------------------------------------------------------------------
  // The splice
  // ---------------------------------------------------------------------------

  /** `layout.elements[e:e + 1] = news` in layout `l`. */
  function Splice(layouts: seq<Layout>, l: nat, e: nat, news: seq<Element>): seq<Layout>
    requires l < |layouts| && e < |layouts[l].elements|
  {
    var es := layouts[l].elements;
    layouts[l := layouts[l].(elements := es[..e] + news + es[e + 1..])]
  }

  /** The layouts after `_apply_replacement`, and whether its search raised. */
  function Replaced(layouts: seq<Layout>, op: Replacement): Result<seq<Layout>> {
    match FindElement(layouts, op.oldElementId, 0)
    case Err(x) => Err(x)
    case Ok(None) => Ok(layouts)
    case Ok(Some((l, e))) => Ok(Splice(layouts, l, e, op.newElements))
  }

  /** All elements of the document, layout after layout. */
  function Flat(layouts: seq<Layout>): seq<Element>
    decreases |layouts|
  {
    if layouts == [] then [] else Flat(layouts[..|layouts| - 1]) + layouts[|layouts| - 1].elements
  }

  lemma {:induction false} FlatAppend(a: seq<Layout>, b: seq<Layout>)
    ensures Flat(a + b) == Flat(a) + Flat(b)
    decreases |b|
  {
    if b == [] {
      assert a + b == a;
    } else {
      assert (a + b)[..|a + b| - 1] == a + b[..|b| - 1];
      FlatAppend(a, b[..|b| - 1]);
    }
  }

  lemma FlatAround(layouts: seq<Layout>, l: nat)
    requires l < |layouts|
    ensures Flat(layouts) == Flat(layouts[..l]) + layouts[l].elements + Flat(layouts[l + 1..])
  {
    var a, b := layouts[..l + 1], layouts[l + 1..];
    assert layouts == a + b;
    FlatAppend(a, b);
    assert a[..|a| - 1] == layouts[..l];
    assert Flat(a) == Flat(layouts[..l]) + layouts[l].elements;
  }

  /** Replacing position `|pre| + e` of `pre + es + post` by `news` is replacing `es[e]`. */
  lemma SpliceMiddle<T>(pre: seq<T>, es: seq<T>, post: seq<T>, e: nat, news: seq<T>)
    requires e < |es|
    ensures var all, pos := pre + es + post, |pre| + e;
      pos < |all| && all[pos] == es[e] &&
      all[..pos] + news + all[pos + 1..] == pre + (es[..e] + news + es[e + 1..]) + post
  {
    var all, pos := pre + es + post, |pre| + e;
    assert all[..pos] == pre + es[..e];
    assert all[pos + 1..] == es[e + 1..] + post;
  }

  /**
   * A splice changes the document's element sequence exactly at the spliced
   * element's position: what precedes and what follows it are kept, in order.
   */
  lemma SpliceFlat(layouts: seq<Layout>, l: nat, e: nat, news: seq<Element>)
    requires l < |layouts| && e < |layouts[l].elements|
    ensures var pos := |Flat(layouts[..l])| + e;
      && pos < |Flat(layouts)| && Flat(layouts)[pos] == layouts[l].elements[e]
      && Flat(Splice(layouts, l, e, news)) == Flat(layouts)[..pos] + news + Flat(layouts)[pos + 1..]
  {
    var es := layouts[l].elements;
    var after := Splice(layouts, l, e, news);
    FlatAround(layouts, l);
    FlatAround(after, l);
    assert after[..l] == layouts[..l] && after[l + 1..] == layouts[l + 1..];
    assert after[l].elements == es[..e] + news + es[e + 1..];
    SpliceMiddle(Flat(layouts[..l]), es, Flat(layouts[l + 1..]), e, news);
  }

  // ---------------------------------------------------------------------------
  // The paragraph cache under splices
  // ---------------------------------------------------------------------------

  /**
   * A cached paragraph: the one at layout `l`, element `e`, or a paragraph a
   * splice has taken out of the document, which the cache still holds.
   */
  datatype ParaRef = Live(l: nat, e: nat) | Detached(paragraph: Paragraph)

  /** The paragraph a cache entry refers to. */
  function Denote(layouts: seq<Layout>, ref: ParaRef): Option<Paragraph> {
    match ref
    case Detached(p) => Some(p)
    case Live(l, e) =>
      if l < |layouts| && e < |layouts[l].elements| && layouts[l].elements[e].ParagraphElement?
      then Some(layouts[l].elements[e].paragraph) else None
  }

  /** The same reference once element `e` of layout `l` has given way to `n` new elements. */
  function Relocate(layouts: seq<Layout>, ref: ParaRef, l: nat, e: nat, n: nat): ParaRef
    requires l < |layouts| && e < |layouts[l].elements|
  {
    match ref
    case Detached(_) => ref
    case Live(l', e') =>
      if l' == l && e' == e && layouts[l].elements[e].ParagraphElement? then Detached(layouts[l].elements[e].paragraph)
      else if l' == l && e' > e then Live(l', e' + n - 1)
      else ref
  }

  /** A cache entry relocated across a splice refers to the very same paragraph. */
  lemma SpliceKeepsReference(layouts: seq<Layout>, l: nat, e: nat, news: seq<Element>, ref: ParaRef)
    requires l < |layouts| && e < |layouts[l].elements| && Denote(layouts, ref).Some?
    ensures Denote(Splice(layouts, l, e, news), Relocate(layouts, ref, l, e, |news|)) == Denote(layouts, ref)
  {
    var es := layouts[l].elements;
    var es' := es[..e] + news + es[e + 1..];
    match ref
    case Detached(_) =>
    case Live(l', e') =>
      if l' == l && e' > e {
        assert es'[e' + |news| - 1] == es[e'];
      } else if l' == l && e' < e {
        assert es'[e'] == es[e'];
      }
  }

  /** The cache map relocated entry by entry. */
  function RelocateAll(layouts: seq<Layout>, cache: map<Option<string>, ParaRef>, l: nat, e: nat, n: nat): map<Option<string>, ParaRef>
    requires l < |layouts| && e < |layouts[l].elements|
  {
    map k | k in cache :: Relocate(layouts, cache[k], l, e, n)
  }
}
