/**
 * Heading parents. A document's headings, in order, each with a level and an
 * id; a heading's parent is the nearest preceding heading of strictly lower
 * level. `build_hierarchy` finds it with a map from level to the last heading
 * id seen at that level; `get_heading_details` finds it with a stack of
 * headings popped while the top's level is not below the new one. Both are
 * proved to compute the same reference rule.
 */
module HeadingStacks {
  import opened Wrappers

  /** A heading as the parent rules see it. */
  datatype Heading = Heading(level: int, id: Option<string>)

  /** The index of the last heading before position `n` whose level is below `level`. */
  function LastBelow(hs: seq<Heading>, n: nat, level: int): (r: Option<nat>)
    requires n <= |hs|
    ensures r.Some? ==> r.value < n && hs[r.value].level < level
    ensures r.Some? ==> forall k :: r.value < k < n ==> hs[k].level >= level
    ensures r.None? ==> forall k :: 0 <= k < n ==> hs[k].level >= level
  {
    if n == 0 then None
    else if hs[n - 1].level < level then Some(n - 1)
    else LastBelow(hs, n - 1, level)
  }

  /** The reference rule: the id of the nearest preceding heading of strictly lower level, if any. */
  function ParentOf(hs: seq<Heading>, j: nat): Option<string>
    requires j < |hs|
  {
    match LastBelow(hs, j, hs[j].level)
    case None => None
    case Some(i) => hs[i].id
  }

  /** Lowering the bound keeps the same answer while the found heading stays below it. */
  lemma LastBelowNarrow(hs: seq<Heading>, n: nat, level: int, level': int)
    requires n <= |hs| && level' <= level
    ensures LastBelow(hs, n, level).None? ==> LastBelow(hs, n, level').None?
    ensures LastBelow(hs, n, level).Some? && hs[LastBelow(hs, n, level).value].level < level' ==>
      LastBelow(hs, n, level') == LastBelow(hs, n, level)
  {
    var r, r' := LastBelow(hs, n, level), LastBelow(hs, n, level');
    if r.Some? && hs[r.value].level < level' {
      assert r'.Some?;
    }
  }

  /** The example of levels 1, 2, 3, 2, 1: parents none, first, second, first, none. */
  lemma LevelsExample(a: Option<string>, b: Option<string>, c: Option<string>, d: Option<string>, e: Option<string>)
    ensures var hs := [Heading(1, a), Heading(2, b), Heading(3, c), Heading(2, d), Heading(1, e)];
      ParentOf(hs, 0) == None && ParentOf(hs, 1) == a && ParentOf(hs, 2) == b &&
      ParentOf(hs, 3) == a && ParentOf(hs, 4) == None
  {
    var hs := [Heading(1, a), Heading(2, b), Heading(3, c), Heading(2, d), Heading(1, e)];
    assert LastBelow(hs, 1, 2) == Some(0);
    assert LastBelow(hs, 2, 2) == Some(0);
    assert LastBelow(hs, 3, 2) == Some(0);
    assert LastBelow(hs, 4, 1) == None;
  }

  // ---------------------------------------------------------------------------
  // The level map of `build_hierarchy`
  // ---------------------------------------------------------------------------

  /** The last heading id seen at each level. */
  type LevelStack = map<int, Option<string>>

  /** The search `for l in range(level - 1, 0, -1)`: the entry at the highest level below `level`. */
  function ParentInStack(stack: LevelStack, level: int): Option<string>
    decreases level
  {
    if level <= 1 then None
    else if level - 1 in stack then stack[level - 1]
    else ParentInStack(stack, level - 1)
  }

  /** The level map once a heading is recorded: its level set to its id, every deeper level cleared. */
  function PushHeading(stack: LevelStack, level: int, id: Option<string>): LevelStack {
    (map l | l in stack && l < level :: stack[l])[level := id]
  }

  /** Level `l` is on top: the last heading at level `l` or below is at level `l`. */
  predicate Tops(hs: seq<Heading>, n: nat, l: int)
    requires n <= |hs|
  {
    LastBelow(hs, n, l + 1).Some? && hs[LastBelow(hs, n, l + 1).value].level == l
  }

  /** The map after the first `n` headings holds, at each level on top, the id of the last heading there. */
  ghost predicate StackInv(stack: LevelStack, hs: seq<Heading>, n: nat)
    requires n <= |hs|
  {
    && (forall l :: l in stack ==> l >= 1)
    && (forall l :: l >= 1 ==> (l in stack <==> Tops(hs, n, l)))
    && (forall l :: l in stack ==> Tops(hs, n, l) && stack[l] == hs[LastBelow(hs, n, l + 1).value].id)
  }

  /** The search over a map that keeps the invariant finds the reference parent. */
  lemma {:induction false} StackParent(stack: LevelStack, hs: seq<Heading>, n: nat, level: int)
    requires n <= |hs| && StackInv(stack, hs, n)
    requires forall k :: 0 <= k < n ==> hs[k].level >= 1
    ensures ParentInStack(stack, level) == (match LastBelow(hs, n, level) case None => None case Some(i) => hs[i].id)
    decreases level
  {
    if level <= 1 {
      assert LastBelow(hs, n, level).None?;
    } else if level - 1 in stack {
      assert Tops(hs, n, level - 1);
    } else {
      assert !Tops(hs, n, level - 1);
      LastBelowNarrow(hs, n, level, level - 1);
      StackParent(stack, hs, n, level - 1);
    }
  }

  /** Recording heading `n` keeps, at level `l`, what the invariant says of it. */
  lemma StackPushLevel(stack: LevelStack, hs: seq<Heading>, n: nat, l: int)
    requires n < |hs| && hs[n].level >= 1 && StackInv(stack, hs, n) && l >= 1
    ensures var stack' := PushHeading(stack, hs[n].level, hs[n].id);
      && (l in stack' <==> Tops(hs, n + 1, l))
      && (l in stack' ==> stack'[l] == hs[LastBelow(hs, n + 1, l + 1).value].id)
  {
    if hs[n].level <= l {
      assert LastBelow(hs, n + 1, l + 1) == Some(n);
    } else {
      assert LastBelow(hs, n + 1, l + 1) == LastBelow(hs, n, l + 1);
    }
  }

  /** Recording heading `n` keeps the invariant for the first `n + 1` headings. */
  lemma StackPush(stack: LevelStack, hs: seq<Heading>, n: nat)
    requires n < |hs| && hs[n].level >= 1 && StackInv(stack, hs, n)
    ensures StackInv(PushHeading(stack, hs[n].level, hs[n].id), hs, n + 1)
  {
    var stack' := PushHeading(stack, hs[n].level, hs[n].id);
    forall l | l >= 1
      ensures l in stack' <==> Tops(hs, n + 1, l)
      ensures l in stack' ==> stack'[l] == hs[LastBelow(hs, n + 1, l + 1).value].id
    {
      StackPushLevel(stack, hs, n, l);
    }
  }

  /** `for l in range(level - 1, 0, -1)`, stopping at the first level present. */
  method FindParent(stack: LevelStack, level: int) returns (parent: Option<string>)
    ensures parent == ParentInStack(stack, level)
  {
    parent := None;
    var l := level - 1;
    while l > 0
      invariant l <= level - 1
      invariant ParentInStack(stack, level) == ParentInStack(stack, l + 1)
      decreases l
    {
      if l in stack {
        parent := stack[l];
        return;
      }
      l := l - 1;
    }
  }

  /** Some element of a non-empty set: the next key the deletion loop visits. */
  method AnyOf<K>(keys: set<K>) returns (k: K)
    requires keys != {}
    ensures k in keys
  {
    k :| k in keys;
  }

  /** `heading_stack[level] = id`, then every key above `level` of a snapshot of the keys is deleted. */
  method RecordHeading(stack: LevelStack, level: int, id: Option<string>) returns (s: LevelStack)
    ensures s == PushHeading(stack, level, id)
  {
    var set_ := stack[level := id];
    s := set_;
    var keys := set_.Keys;
    while keys != {}
      invariant forall k :: k in s <==> k in set_ && (k in keys || k <= level)
      invariant forall k :: k in s ==> s[k] == set_[k]
      decreases |keys|
    {
      var l := AnyOf(keys);
      ghost var s0 := s;
      if l > level {
        s := s - {l};
      }
      PruneStep(set_, s0, s, keys, l, level);
      keys := keys - {l};
    }
    PrunedIsPush(stack, level, id, s);
  }


  /** Deleting key `l` when it is above `level` keeps the loop's invariant with `l` taken out of the keys still to visit. */
  lemma PruneStep(set_: LevelStack, s0: LevelStack, s: LevelStack, keys: set<int>, l: int, level: int)
    requires l in keys
    requires forall k :: k in s0 <==> k in set_ && (k in keys || k <= level)
    requires forall k :: k in s0 ==> s0[k] == set_[k]
    requires s == if l > level then s0 - {l} else s0
    ensures forall k :: k in s <==> k in set_ && (k in keys - {l} || k <= level)
    ensures forall k :: k in s ==> s[k] == set_[k]
  {
  }

  /** The map with `level` set and only the levels up to it kept is the pushed map. */
  lemma PrunedIsPush(stack: LevelStack, level: int, id: Option<string>, s: LevelStack)
    requires forall l :: l in s <==> l in stack[level := id] && l <= level
    requires forall l :: l in s ==> s[l] == stack[level := id][l]
    ensures s == PushHeading(stack, level, id)
  {
    var want := PushHeading(stack, level, id);
    assert forall l :: l in s <==> l in want;
    assert forall l :: l in s ==> s[l] == want[l];
  }

  /** The heading branch of `build_hierarchy`, for a list of headings of level 1 or more. */
  method MapStackParents(hs: seq<Heading>) returns (parents: seq<Option<string>>)
    requires forall k :: 0 <= k < |hs| ==> hs[k].level >= 1
    ensures |parents| == |hs|
    ensures forall j :: 0 <= j < |hs| ==> parents[j] == ParentOf(hs, j)
  {
    var stack: LevelStack := map[];
    parents := [];
    var n := 0;
    while n < |hs|
      invariant 0 <= n <= |hs| && |parents| == n
      invariant StackInv(stack, hs, n)
      invariant forall j :: 0 <= j < n ==> parents[j] == ParentOf(hs, j)
    {
      var parent := FindParent(stack, hs[n].level);
      StackParent(stack, hs, n, hs[n].level);
      StackPush(stack, hs, n);
      stack := PushHeading(stack, hs[n].level, hs[n].id);
      parents := parents + [parent];
      n := n + 1;
    }
  }

  // ---------------------------------------------------------------------------
  // The heading stack of `get_heading_details`
  // ---------------------------------------------------------------------------

  /** No heading after `i` and before `n` is at or below heading `i`'s level. */
  ghost predicate Visible(hs: seq<Heading>, i: nat, n: nat)
    requires i < n <= |hs|
  {
    forall k :: i < k < n ==> hs[k].level > hs[i].level
  }

  /** The stack (of heading positions) after the first `n` headings: exactly the visible ones, in order. */
  ghost predicate ChainInv(stack: seq<nat>, hs: seq<Heading>, n: nat)
    requires n <= |hs|
  {
    && (forall a, b :: 0 <= a < b < |stack| ==> stack[a] < stack[b])
    && (forall t :: 0 <= t < |stack| ==> stack[t] < n)
    && (forall i :: 0 <= i < n ==> (i in stack <==> Visible(hs, i, n)))
  }

  /** Along the stack, levels strictly increase. */
  lemma ChainLevels(stack: seq<nat>, hs: seq<Heading>, n: nat, a: nat, b: nat)
    requires n <= |hs| && ChainInv(stack, hs, n) && a < b < |stack|
    ensures hs[stack[a]].level < hs[stack[b]].level
  {
    assert stack[a] in stack;
  }

  /** What remains after popping every top entry not below `level` ends at the reference parent. */
  lemma ChainParent(stack: seq<nat>, hs: seq<Heading>, n: nat, m: nat)
    requires n < |hs| && ChainInv(stack, hs, n) && m <= |stack|
    requires forall t :: m <= t < |stack| ==> hs[stack[t]].level >= hs[n].level
    requires m > 0 ==> hs[stack[m - 1]].level < hs[n].level
    ensures m == 0 ==> LastBelow(hs, n, hs[n].level).None?
    ensures m > 0 ==> LastBelow(hs, n, hs[n].level) == Some(stack[m - 1])
  {
    var level := hs[n].level;
    var r := LastBelow(hs, n, level);
    if r.Some? {
      var j := r.value;
      assert Visible(hs, j, n);
      var t :| 0 <= t < |stack| && stack[t] == j;
      assert t < m;
    }
  }

  /** Pushing heading `n` on what remains keeps the invariant. */
  lemma ChainPush(stack: seq<nat>, hs: seq<Heading>, n: nat, m: nat)
    requires n < |hs| && ChainInv(stack, hs, n) && m <= |stack|
    requires forall t :: m <= t < |stack| ==> hs[stack[t]].level >= hs[n].level
    requires m > 0 ==> hs[stack[m - 1]].level < hs[n].level
    ensures ChainInv(stack[..m] + [n], hs, n + 1)
  {
    var stack' := stack[..m] + [n];
    var level := hs[n].level;
    forall i | 0 <= i < n + 1 ensures i in stack' <==> Visible(hs, i, n + 1) {
      if i < n {
        if i in stack' {
          var t :| 0 <= t < m && stack[t] == i;
          if t < m - 1 {
            ChainLevels(stack, hs, n, t, m - 1);
          }
          assert i in stack;
        }
        if Visible(hs, i, n + 1) {
          assert Visible(hs, i, n);
          var t :| 0 <= t < |stack| && stack[t] == i;
          assert t < m;
          assert stack'[t] == i;
        }
      } else {
        assert stack'[m] == n;
      }
    }
  }

  /** The heading loop of `get_heading_details`: pop, take the top as parent, push. */
  method ChainParents(hs: seq<Heading>) returns (parents: seq<Option<string>>)
    ensures |parents| == |hs|
    ensures forall j :: 0 <= j < |hs| ==> parents[j] == ParentOf(hs, j)
  {
    var stack: seq<nat> := [];
    parents := [];
    var n := 0;
    while n < |hs|
      invariant 0 <= n <= |hs| && |parents| == n
      invariant ChainInv(stack, hs, n)
      invariant forall j :: 0 <= j < n ==> parents[j] == ParentOf(hs, j)
    {
      ghost var chain := stack;
      while |stack| > 0 && hs[stack[|stack| - 1]].level >= hs[n].level
        invariant |stack| <= |chain| && stack == chain[..|stack|]
        invariant forall t :: |stack| <= t < |chain| ==> hs[chain[t]].level >= hs[n].level
      {
        stack := stack[..|stack| - 1];
      }
      var m := |stack|;
      ChainParent(chain, hs, n, m);
      ChainPush(chain, hs, n, m);
      var parent := if m > 0 then hs[stack[m - 1]].id else None;
      stack := stack + [n];
      parents := parents + [parent];
      n := n + 1;
    }
  }
}
