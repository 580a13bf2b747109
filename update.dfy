/**
 * `factory/update.py`: applying a PATCH dictionary to a target dictionary in
 * place (`apply_patch`), and planning the fields of an update model from the
 * fields of a source model (`create_update_model`).
 */
module Update {
  import opened Wrappers
  import opened Text

  // ---------------------------------------------------------------------------
  // Values
  // ---------------------------------------------------------------------------

  /** The values a patch moves around, as far as `apply_patch` looks into them. */
  datatype Value = Null | Num(n: int) | Str(s: string) | List(items: seq<Value>)

  /** `item in container`: membership in a list, a substring test on a string; anything else raises. */
  function In(item: Value, container: Value): Result<bool> {
    match container
    case List(xs) => Ok(item in xs)
    case Str(s) => if item.Str? then Ok(Contains(s, item.s)) else Err(TypeError)
    case _ => Err(TypeError)
  }

  /** What `for item in v` visits: a list's items, a string's characters; anything else raises. */
  function Iterate(v: Value): Result<seq<Value>> {
    match v
    case List(xs) => Ok(xs)
    case Str(s) => Ok(seq(|s|, i requires 0 <= i < |s| => Str([s[i]])))
    case _ => Err(TypeError)
  }

  /** No item occurs twice. */
  predicate NoDuplicates(xs: seq<Value>) {
    forall i, j :: 0 <= i < j < |xs| ==> xs[i] != xs[j]
  }

  // ---------------------------------------------------------------------------
  // apply_patch, as a specification
  // ---------------------------------------------------------------------------

  type Dict = map<string, Value>

  /** A patch: its keys with their values, in the order the dictionary yields them. */
  type Patch = seq<(string, Value)>

  /** A dictionary has each key once. */
  predicate DistinctKeys(patch: Patch) {
    forall i, j :: 0 <= i < j < |patch| ==> patch[i].0 != patch[j].0
  }

  const AddedPrefix := "added_"
  const RemovedPrefix := "removed_"

  /** The field a list key names: `added_X` and `removed_X` name `X`; a plain key names none. */
  function ListField(key: string): Option<string> {
    if StartsWith(key, AddedPrefix) then Some(key[|AddedPrefix|..])
    else if StartsWith(key, RemovedPrefix) then Some(key[|RemovedPrefix|..])
    else None
  }

  /** The first loop of `apply_patch` over the first `n` keys: each plain key is written with its value. */
  function Overwritten(target: Dict, patch: Patch, n: nat): Dict
    requires n <= |patch|
  {
    if n == 0 then target
    else
      var t := Overwritten(target, patch, n - 1);
      var (key, value) := patch[n - 1];
      if StartsWith(key, AddedPrefix) || StartsWith(key, RemovedPrefix) then t else t[key := value]
  }

  /** `target.setdefault(field, [])`, as far as the dictionary goes. */
  function SetDefault(target: Dict, field: string): Dict {
    if field in target then target else target[field := List([])]
  }

  /** Where an in-place loop stopped: the value it left, and what it raised. */
  datatype Appended = Appended(value: Value, error: Option<Exc>)

  /**
   * The appending loop of an `added_` key over `items`: an item not yet in
   * the field's value is appended; the membership test or the append raises
   * on a value that is not a list, leaving what was appended so far.
   */
  function AddAll(current: Value, items: seq<Value>): Appended {
    if items == [] then Appended(current, None)
    else
      var a := AddAll(current, items[..|items| - 1]);
      var item := items[|items| - 1];
      if a.error.Some? then a
      else match In(item, a.value)
        case Err(e) => Appended(a.value, Some(e))
        case Ok(true) => a
        case Ok(false) => if a.value.List? then Appended(List(a.value.items + [item]), None) else Appended(a.value, Some(AttributeError))
  }

  /** The comprehension of a `removed_` key: the items not in `value`, in order. */
  function Kept(items: seq<Value>, value: Value): Result<seq<Value>> {
    if items == [] then Ok([])
    else match Kept(items[..|items| - 1], value)
      case Err(e) => Err(e)
      case Ok(ks) =>
        var item := items[|items| - 1];
        match In(item, value)
        case Err(e) => Err(e)
        case Ok(true) => Ok(ks)
        case Ok(false) => Ok(ks + [item])
  }

  /** The target as the patch left it, and what it raised. */
  datatype Outcome = Outcome(target: Dict, error: Option<Exc>)

  /** One key of the second loop of `apply_patch`. */
  function ListStep(target: Dict, key: string, value: Value): Outcome {
    if StartsWith(key, AddedPrefix) then
      var field := key[|AddedPrefix|..];
      var t := SetDefault(target, field);
      match Iterate(value)
      case Err(e) => Outcome(t, Some(e))
      case Ok(items) =>
        var a := AddAll(t[field], items);
        Outcome(t[field := a.value], a.error)
    else if StartsWith(key, RemovedPrefix) then
      var field := key[|RemovedPrefix|..];
      var t := SetDefault(target, field);
      match Iterate(t[field])
      case Err(e) => Outcome(t, Some(e))
      case Ok(items) =>
        match Kept(items, value)
        case Err(e) => Outcome(t, Some(e))
        case Ok(ks) => Outcome(t[field := List(ks)], None)
    else Outcome(target, None)
  }

  /** The second loop over the first `n` keys; it stops at the first exception. */
  function ListPass(target: Dict, patch: Patch, n: nat): Outcome
    requires n <= |patch|
  {
    if n == 0 then Outcome(target, None)
    else
      var o := ListPass(target, patch, n - 1);
      if o.error.Some? then o else ListStep(o.target, patch[n - 1].0, patch[n - 1].1)
  }

  /** `apply_patch(target, patch)`: the target afterwards, and what it raised. */
  function PatchOf(target: Dict, patch: Patch): Outcome {
    ListPass(Overwritten(target, patch, |patch|), patch, |patch|)
  }

  // ---------------------------------------------------------------------------
  // apply_patch, in place
  // ---------------------------------------------------------------------------

  /** The dictionary `apply_patch` updates in place. */
  class Target {
    var entries: Dict

    constructor (entries: Dict)
      ensures this.entries == entries
    {
      this.entries := entries;
    }
  }

  /** Once the appending loop has raised, the items after do not matter. */
  lemma {:induction false} AddAllStops(current: Value, items: seq<Value>, k: nat)
    requires k <= |items| && AddAll(current, items[..k]).error.Some?
    ensures AddAll(current, items) == AddAll(current, items[..k])
    decreases |items| - k
  {
    if k < |items| {
      assert items[..k + 1][..k] == items[..k];
      AddAllStops(current, items, k + 1);
    } else {
      assert items[..k] == items;
    }
  }

  /** Once the second loop has raised, the keys after do not matter. */
  lemma {:induction false} ListPassStops(target: Dict, patch: Patch, k: nat, n: nat)
    requires k <= n <= |patch| && ListPass(target, patch, k).error.Some?
    ensures ListPass(target, patch, n) == ListPass(target, patch, k)
    decreases n
  {
    if n > k {
      ListPassStops(target, patch, k, n - 1);
    }
  }

  /** `for item in items: if item not in target[field]: target[field].append(item)` */
  method AddItems(target: Target, field: string, items: seq<Value>) returns (err: Option<Exc>)
    requires field in target.entries
    modifies target
    ensures var a := AddAll(old(target.entries[field]), items);
      target.entries == old(target.entries)[field := a.value] && err == a.error
  {
    ghost var start := target.entries;
    for k := 0 to |items|
      invariant field in target.entries
      invariant AddAll(start[field], items[..k]) == Appended(target.entries[field], None)
      invariant target.entries == start[field := target.entries[field]]
    {
      assert items[..k + 1][..k] == items[..k];
      var current := target.entries[field];
      var found := In(items[k], current);
      if found.Err? {
        AddAllStops(start[field], items, k + 1);
        return Some(found.error);
      }
      if !found.value {
        if !current.List? {
          AddAllStops(start[field], items, k + 1);
          return Some(AttributeError);
        }
        target.entries := target.entries[field := List(current.items + [items[k]])];
      }
    }
    assert items[..|items|] == items;
    return None;
  }

  /**
   * `apply_patch`: plain keys are written first, in patch order; then each
   * `added_X` key appends its items missing from `X` and each `removed_X`
   * key filters its items out of `X`, both creating `X` as an empty list
   * when absent. An exception stops the patch where it is raised.
   */
  method ApplyPatch(target: Target, patch: Patch) returns (err: Option<Exc>)
    modifies target
    ensures Outcome(target.entries, err) == PatchOf(old(target.entries), patch)
  {
    for k := 0 to |patch|
      invariant target.entries == Overwritten(old(target.entries), patch, k)
    {
      var (key, value) := patch[k];
      if !(StartsWith(key, AddedPrefix) || StartsWith(key, RemovedPrefix)) {
        target.entries := target.entries[key := value];
      }
    }
    ghost var written := target.entries;
    for k := 0 to |patch|
      invariant Outcome(target.entries, None) == ListPass(written, patch, k)
    {
      var (key, value) := patch[k];
      if StartsWith(key, AddedPrefix) {
        var field := key[|AddedPrefix|..];
        if field !in target.entries {
          target.entries := target.entries[field := List([])];
        }
        var items := Iterate(value);
        if items.Err? {
          ListPassStops(written, patch, k + 1, |patch|);
          return Some(items.error);
        }
        err := AddItems(target, field, items.value);
        if err.Some? {
          ListPassStops(written, patch, k + 1, |patch|);
          return err;
        }
      } else if StartsWith(key, RemovedPrefix) {
        var field := key[|RemovedPrefix|..];
        if field !in target.entries {
          target.entries := target.entries[field := List([])];
        }
        var items := Iterate(target.entries[field]);
        if items.Err? {
          ListPassStops(written, patch, k + 1, |patch|);
          return Some(items.error);
        }
        var kept := Kept(items.value, value);
        if kept.Err? {
          ListPassStops(written, patch, k + 1, |patch|);
          return Some(kept.error);
        }
        target.entries := target.entries[field := List(kept.value)];
      }
    }
    return None;
  }

  // ---------------------------------------------------------------------------
  // What apply_patch promises
  // ---------------------------------------------------------------------------

  /** Appending to a list never raises: the list keeps its items in front, gains every missing item once, and nothing else. */
  lemma {:induction false} AddAllToList(xs: seq<Value>, ys: seq<Value>)
    ensures var a := AddAll(List(xs), ys);
      && a.error.None? && a.value.List?
      && |xs| <= |a.value.items| && a.value.items[..|xs|] == xs
      && (forall y :: y in ys ==> y in a.value.items)
      && (forall z :: z in a.value.items ==> z in xs || z in ys)
      && (NoDuplicates(xs) ==> NoDuplicates(a.value.items))
    decreases |ys|
  {
    if ys != [] {
      var front, y := ys[..|ys| - 1], ys[|ys| - 1];
      assert ys == front + [y];
      AddAllToList(xs, front);
      var zs := AddAll(List(xs), front).value.items;
      if y !in zs {
        assert (zs + [y])[..|xs|] == zs[..|xs|];
      }
    }
  }

  /** Filtering a list never raises, and keeps exactly the items not listed for removal. */
  lemma {:induction false} KeptFromList(xs: seq<Value>, rs: seq<Value>)
    ensures Kept(xs, List(rs)).Ok?
    ensures forall z :: z in Kept(xs, List(rs)).value <==> z in xs && z !in rs
    decreases |xs|
  {
    if xs != [] {
      var front, x := xs[..|xs| - 1], xs[|xs| - 1];
      assert xs == front + [x];
      KeptFromList(front, rs);
    }
  }

  /** The filter keeps the order of what it keeps: it works piece by piece. */
  lemma {:induction false} KeptAppend(a: seq<Value>, b: seq<Value>, value: Value)
    requires Kept(a, value).Ok? && Kept(b, value).Ok?
    ensures Kept(a + b, value) == Ok(Kept(a, value).value + Kept(b, value).value)
    decreases |b|
  {
    if b == [] {
      assert a + b == a;
      assert Kept(a, value).value + [] == Kept(a, value).value;
    } else {
      var front, x := b[..|b| - 1], b[|b| - 1];
      assert (a + b)[..|a + b| - 1] == a + front && (a + b)[|a + b| - 1] == x;
      assert Kept(front, value).Ok?;
      KeptAppend(a, front, value);
      var ks := Kept(a, value).value + Kept(front, value).value;
      match In(x, value)
      case Ok(true) =>
      case Ok(false) =>
        assert ks + [x] == Kept(a, value).value + (Kept(front, value).value + [x]);
    }
  }

  /** A key the first loop does not write keeps its entry. */
  lemma {:induction false} OverwrittenOther(target: Dict, patch: Patch, n: nat, f: string)
    requires n <= |patch| && forall i :: 0 <= i < n ==> patch[i].0 != f
    ensures var t := Overwritten(target, patch, n);
      (f in t <==> f in target) && (f in target ==> t[f] == target[f])
    decreases n
  {
    if n > 0 {
      OverwrittenOther(target, patch, n - 1, f);
    }
  }

  /** A plain key holds its patch value after the first loop. */
  lemma {:induction false} OverwrittenAt(target: Dict, patch: Patch, n: nat, i: nat)
    requires DistinctKeys(patch) && i < n <= |patch| && ListField(patch[i].0).None?
    ensures var t := Overwritten(target, patch, n);
      patch[i].0 in t && t[patch[i].0] == patch[i].1
    decreases n
  {
    if i < n - 1 {
      OverwrittenAt(target, patch, n - 1, i);
    }
  }

  /** Keys `k` up to `n` that name no list field `f` leave `f`'s entry as the pass had it after `k` keys. */
  lemma {:induction false} ListPassOther(target: Dict, patch: Patch, k: nat, n: nat, f: string)
    requires k <= n <= |patch| && forall i :: k <= i < n ==> ListField(patch[i].0) != Some(f)
    ensures var a, b := ListPass(target, patch, k).target, ListPass(target, patch, n).target;
      (f in b <==> f in a) && (f in a ==> b[f] == a[f])
    decreases n
  {
    if n > k {
      ListPassOther(target, patch, k, n - 1, f);
    }
  }

  /** A patch that goes through did not raise on any prefix of its keys. */
  lemma PassedPrefix(target: Dict, patch: Patch, k: nat)
    requires k <= |patch| && ListPass(target, patch, |patch|).error.None?
    ensures ListPass(target, patch, k).error.None?
  {
    if ListPass(target, patch, k).error.Some? {
      ListPassStops(target, patch, k, |patch|);
    }
  }

  /** Entries the patch names neither directly nor through a list key are left alone, even when the patch raises. */
  lemma PatchLeavesOthers(target: Dict, patch: Patch, f: string)
    requires forall i :: 0 <= i < |patch| ==> patch[i].0 != f && ListField(patch[i].0) != Some(f)
    ensures var t := PatchOf(target, patch).target;
      (f in t <==> f in target) && (f in target ==> t[f] == target[f])
  {
    OverwrittenOther(target, patch, |patch|, f);
    ListPassOther(Overwritten(target, patch, |patch|), patch, 0, |patch|, f);
  }

  /** A plain key no list key names ends up holding its patch value, even when the patch raises. */
  lemma PatchWritesPlainKey(target: Dict, patch: Patch, i: nat)
    requires DistinctKeys(patch) && i < |patch| && ListField(patch[i].0).None?
    requires forall j :: 0 <= j < |patch| ==> ListField(patch[j].0) != Some(patch[i].0)
    ensures var t := PatchOf(target, patch).target;
      patch[i].0 in t && t[patch[i].0] == patch[i].1
  {
    OverwrittenAt(target, patch, |patch|, i);
    ListPassOther(Overwritten(target, patch, |patch|), patch, 0, |patch|, patch[i].0);
  }

  /** `key` is `prefix` followed by `f`. */
  lemma PrefixedKey(prefix: string, f: string)
    ensures StartsWith(prefix + f, prefix) && (prefix + f)[|prefix|..] == f
  {
    assert (prefix + f)[..|prefix|] == prefix;
  }

  /** The value the second loop starts from for field `f`: after the first loop, or a fresh empty list. */
  function StartValue(target: Dict, patch: Patch, f: string): Value {
    var t := Overwritten(target, patch, |patch|);
    if f in t then t[f] else List([])
  }

  /**
   * When `added_F` is the only list key naming `F` and the patch goes
   * through, `F` is what the appending loop makes of its value after the
   * first loop.
   */
  lemma PatchAddsItems(target: Dict, patch: Patch, i: nat, f: string)
    requires DistinctKeys(patch) && i < |patch| && patch[i].0 == AddedPrefix + f
    requires forall j :: 0 <= j < |patch| && j != i ==> ListField(patch[j].0) != Some(f)
    requires PatchOf(target, patch).error.None?
    ensures Iterate(patch[i].1).Ok?
    ensures var t := PatchOf(target, patch).target;
      f in t && t[f] == AddAll(StartValue(target, patch, f), Iterate(patch[i].1).value).value
  {
    var base := Overwritten(target, patch, |patch|);
    PrefixedKey(AddedPrefix, f);
    ListPassOther(base, patch, 0, i, f);
    PassedPrefix(base, patch, i + 1);
    ListPassOther(base, patch, i + 1, |patch|, f);
  }

  /**
   * When `removed_F` is the only list key naming `F` and the patch goes
   * through, `F` is the list of its items after the first loop that the
   * key's value does not hold.
   */
  lemma PatchRemovesItems(target: Dict, patch: Patch, i: nat, f: string)
    requires DistinctKeys(patch) && i < |patch| && patch[i].0 == RemovedPrefix + f
    requires forall j :: 0 <= j < |patch| && j != i ==> ListField(patch[j].0) != Some(f)
    requires PatchOf(target, patch).error.None?
    ensures var items := Iterate(StartValue(target, patch, f));
      items.Ok? && Kept(items.value, patch[i].1).Ok?
      && var t := PatchOf(target, patch).target;
      f in t && t[f] == List(Kept(items.value, patch[i].1).value)
  {
    var base := Overwritten(target, patch, |patch|);
    PrefixedKey(RemovedPrefix, f);
    assert !StartsWith(RemovedPrefix + f, AddedPrefix) by {
      assert (RemovedPrefix + f)[0] == 'r';
    }
    ListPassOther(base, patch, 0, i, f);
    PassedPrefix(base, patch, i + 1);
    ListPassOther(base, patch, i + 1, |patch|, f);
  }

  /** Every field a list key names is absent or a list. */
  predicate ListFieldsAreLists(t: Dict, patch: Patch) {
    forall i :: 0 <= i < |patch| && ListField(patch[i].0).Some? && ListField(patch[i].0).value in t ==>
      t[ListField(patch[i].0).value].List?
  }

  /** A patch whose list keys carry lists, onto fields that are lists or absent, never raises. */
  lemma {:induction false} PatchOnListsSucceeds(target: Dict, patch: Patch, n: nat)
    requires n <= |patch|
    requires forall i :: 0 <= i < |patch| && ListField(patch[i].0).Some? ==> patch[i].1.List?
    requires ListFieldsAreLists(Overwritten(target, patch, |patch|), patch)
    ensures var o := ListPass(Overwritten(target, patch, |patch|), patch, n);
      o.error.None? && ListFieldsAreLists(o.target, patch)
    decreases n
  {
    if n > 0 {
      PatchOnListsSucceeds(target, patch, n - 1);
      var t := ListPass(Overwritten(target, patch, |patch|), patch, n - 1).target;
      var (key, value) := patch[n - 1];
      if StartsWith(key, AddedPrefix) {
        var field := key[|AddedPrefix|..];
        assert ListField(key) == Some(field);
        AddAllToList(SetDefault(t, field)[field].items, value.items);
      } else if StartsWith(key, RemovedPrefix) {
        var field := key[|RemovedPrefix|..];
        assert ListField(key) == Some(field);
        KeptFromList(SetDefault(t, field)[field].items, value.items);
      }
    }
  }

  // ---------------------------------------------------------------------------
  // create_update_model
  // ---------------------------------------------------------------------------

  /** A field's annotation, as far as the planning looks into it: a list or a set of items, or anything else. */
  datatype Annotation = ListOf(item: string) | SetOf(item: string) | Other(name: string)

  /** `is_list_type`: a list or a set annotation. */
  predicate IsListType(a: Annotation) {
    a.ListOf? || a.SetOf?
  }

  /** The type an update model gives a field: `Optional[annotation]` or `Optional[list[item]]`, each defaulting to None. */
  datatype FieldType = OptionalOf(annotation: Annotation) | OptionalListOf(item: string)

  /** The keyword arguments of `create_update_model`. */
  datatype UpdateOptions = UpdateOptions(
    exclude: set<string>,
    listMode: bool,
    listOnly: Option<set<string>>,
    listExclude: Option<set<string>>,
    removeOriginal: bool)

  /** Python truthiness of an optional set. */
  predicate Given(s: Option<set<string>>) {
    s.Some? && s.value != {}
  }

  /** Whether a kept field becomes an `added_`/`removed_` pair. */
  predicate Splits(name: string, a: Annotation, opts: UpdateOptions) {
    && opts.listMode && IsListType(a)
    && !(Given(opts.listOnly) && name !in opts.listOnly.value)
    && !(Given(opts.listExclude) && name in opts.listExclude.value)
  }

  /** The `fields` dictionary, its keys in insertion order. */
  type Fields = seq<(string, FieldType)>

  /** `fields[name] = t`: a present key keeps its place and takes the new type; a new key goes last. */
  function Put(fields: Fields, name: string, t: FieldType): Fields {
    if fields == [] then [(name, t)]
    else if fields[0].0 == name then [(name, t)] + fields[1..]
    else [fields[0]] + Put(fields[1..], name, t)
  }

  /** `fields[name]`, or None when absent. */
  function Lookup(fields: Fields, name: string): Option<FieldType> {
    if fields == [] then None
    else if fields[0].0 == name then Some(fields[0].1)
    else Lookup(fields[1..], name)
  }

  /** The keys of the dictionary. */
  function Keys(fields: Fields): set<string> {
    set i | 0 <= i < |fields| :: fields[i].0
  }

  /** One source field of the loop of `create_update_model`. */
  function FieldStep(fields: Fields, name: string, a: Annotation, opts: UpdateOptions): Fields {
    if name in opts.exclude then fields
    else if Splits(name, a, opts) then
      var pair := Put(Put(fields, AddedPrefix + name, OptionalListOf(a.item)), RemovedPrefix + name, OptionalListOf(a.item));
      if !opts.removeOriginal then Put(pair, name, OptionalOf(a)) else pair
    else Put(fields, name, OptionalOf(a))
  }

  /** The fields planned for the first `n` source fields. */
  function UpdateFields(source: seq<(string, Annotation)>, opts: UpdateOptions, n: nat): Fields
    requires n <= |source|
  {
    if n == 0 then [] else FieldStep(UpdateFields(source, opts, n - 1), source[n - 1].0, source[n - 1].1, opts)
  }

  /** The field plan of `create_update_model`, in the order the model's fields are declared. */
  method CreateUpdateModel(source: seq<(string, Annotation)>, opts: UpdateOptions) returns (fields: Fields)
    ensures fields == UpdateFields(source, opts, |source|)
  {
    fields := [];
    for k := 0 to |source|
      invariant fields == UpdateFields(source, opts, k)
    {
      var (name, annotation) := source[k];
      if name in opts.exclude {
        continue;
      }
      var isList := opts.listMode && IsListType(annotation);
      if isList {
        if Given(opts.listOnly) && name !in opts.listOnly.value {
          isList := false;
        }
        if Given(opts.listExclude) && name in opts.listExclude.value {
          isList := false;
        }
      }
      if isList {
        fields := Put(fields, AddedPrefix + name, OptionalListOf(annotation.item));
        fields := Put(fields, RemovedPrefix + name, OptionalListOf(annotation.item));
        if !opts.removeOriginal {
          fields := Put(fields, name, OptionalOf(annotation));
        }
      } else {
        fields := Put(fields, name, OptionalOf(annotation));
      }
    }
  }

  /** Setting a key: it then holds the new type, other keys are unchanged, and the key set gains it. */
  lemma {:induction false} PutSpec(fields: Fields, name: string, t: FieldType)
    ensures Lookup(Put(fields, name, t), name) == Some(t)
    ensures forall m :: m != name ==> Lookup(Put(fields, name, t), m) == Lookup(fields, m)
    ensures Keys(Put(fields, name, t)) == Keys(fields) + {name}
    decreases |fields|
  {
    if fields != [] && fields[0].0 != name {
      PutSpec(fields[1..], name, t);
      KeysCons(fields[0], fields[1..]);
      KeysCons(fields[0], Put(fields[1..], name, t));
      assert fields == [fields[0]] + fields[1..];
    } else if fields != [] {
      KeysCons(fields[0], fields[1..]);
      KeysCons((name, t), fields[1..]);
    }
  }

  lemma KeysCons(x: (string, FieldType), rest: Fields)
    ensures Keys([x] + rest) == {x.0} + Keys(rest)
  {
    var all := [x] + rest;
    forall k | k in Keys(all) ensures k in {x.0} + Keys(rest) {
      var i :| 0 <= i < |all| && all[i].0 == k;
      if i > 0 {
        assert rest[i - 1].0 == k;
      }
    }
    forall k | k in Keys(rest) ensures k in Keys(all) {
      var i :| 0 <= i < |rest| && rest[i].0 == k;
      assert all[i + 1].0 == k;
    }
    assert all[0].0 == x.0;
  }

  /** A key is present exactly when the lookup finds it. */
  lemma {:induction false} LookupKeys(fields: Fields, name: string)
    ensures Lookup(fields, name).Some? <==> name in Keys(fields)
    decreases |fields|
  {
    if fields != [] {
      LookupKeys(fields[1..], name);
      assert fields == [fields[0]] + fields[1..];
      KeysCons(fields[0], fields[1..]);
    }
  }

  /** The keys one source field contributes. */
  function Generated(name: string, a: Annotation, opts: UpdateOptions): set<string> {
    if name in opts.exclude then {}
    else if Splits(name, a, opts) then
      {AddedPrefix + name, RemovedPrefix + name} + (if opts.removeOriginal then {} else {name})
    else {name}
  }

  /** The type a generated key is given. */
  function GeneratedType(name: string, a: Annotation, opts: UpdateOptions, key: string): FieldType {
    if Splits(name, a, opts) && key != name then OptionalListOf(a.item) else OptionalOf(a)
  }

  /** `added_X`, `removed_X` and `X` are three different keys. */
  lemma PrefixesDiffer(name: string)
    ensures AddedPrefix + name != RemovedPrefix + name
    ensures AddedPrefix + name != name && RemovedPrefix + name != name
  {
    assert (AddedPrefix + name)[0] != (RemovedPrefix + name)[0];
  }

  /** One source field sets the keys it generates, with their types, and leaves the others. */
  lemma FieldStepLookup(fields: Fields, name: string, a: Annotation, opts: UpdateOptions, key: string)
    ensures var out := FieldStep(fields, name, a, opts);
      && Keys(out) == Keys(fields) + Generated(name, a, opts)
      && Lookup(out, key) == if key in Generated(name, a, opts) then Some(GeneratedType(name, a, opts, key)) else Lookup(fields, key)
  {
    PrefixesDiffer(name);
    if name !in opts.exclude {
      if Splits(name, a, opts) {
        var f1 := Put(fields, AddedPrefix + name, OptionalListOf(a.item));
        var f2 := Put(f1, RemovedPrefix + name, OptionalListOf(a.item));
        PutSpec(fields, AddedPrefix + name, OptionalListOf(a.item));
        PutSpec(f1, RemovedPrefix + name, OptionalListOf(a.item));
        PutSpec(f2, name, OptionalOf(a));
      } else {
        PutSpec(fields, name, OptionalOf(a));
      }
    }
  }

  /** The planned keys are exactly those the source fields generate. */
  lemma {:induction false} UpdateFieldNames(source: seq<(string, Annotation)>, opts: UpdateOptions, n: nat, key: string)
    requires n <= |source|
    ensures key in Keys(UpdateFields(source, opts, n)) <==>
      exists i :: 0 <= i < n && key in Generated(source[i].0, source[i].1, opts)
    decreases n
  {
    if n > 0 {
      UpdateFieldNames(source, opts, n - 1, key);
      FieldStepLookup(UpdateFields(source, opts, n - 1), source[n - 1].0, source[n - 1].1, opts, key);
    }
  }

  /** Keys generated by the fields from `k` on, other than `key`, leave `key`'s type as it was after `k` fields. */
  lemma {:induction false} LookupAfter(source: seq<(string, Annotation)>, opts: UpdateOptions, k: nat, n: nat, key: string)
    requires k <= n <= |source|
    requires forall j :: k <= j < n ==> key !in Generated(source[j].0, source[j].1, opts)
    ensures Lookup(UpdateFields(source, opts, n), key) == Lookup(UpdateFields(source, opts, k), key)
    decreases n
  {
    if n > k {
      LookupAfter(source, opts, k, n - 1, key);
      FieldStepLookup(UpdateFields(source, opts, n - 1), source[n - 1].0, source[n - 1].1, opts, key);
    }
  }

  /** Distinct source names, none of which is another's `added_`/`removed_` name. */
  predicate NoClash(source: seq<(string, Annotation)>) {
    && (forall i, j :: 0 <= i < j < |source| ==> source[i].0 != source[j].0)
    && (forall i, j :: 0 <= i < |source| && 0 <= j < |source| ==>
          source[i].0 != AddedPrefix + source[j].0 && source[i].0 != RemovedPrefix + source[j].0)
  }

  /** Under `NoClash`, two source fields never generate the same key. */
  lemma GeneratedApart(source: seq<(string, Annotation)>, opts: UpdateOptions, i: nat, j: nat, key: string)
    requires NoClash(source) && i < |source| && j < |source| && i != j
    requires key in Generated(source[i].0, source[i].1, opts)
    ensures key !in Generated(source[j].0, source[j].1, opts)
  {
    var a, b := source[i].0, source[j].0;
    assert a != b;
    assert a != AddedPrefix + b && a != RemovedPrefix + b;
    assert b != AddedPrefix + a && b != RemovedPrefix + a;
    PrefixesDiffer(a);
    PrefixesDiffer(b);
    PrefixCancels(AddedPrefix, a, b);
    PrefixCancels(RemovedPrefix, a, b);
    PrefixesStartApart(a, b);
    PrefixesStartApart(b, a);
  }

  lemma PrefixCancels(p: string, a: string, b: string)
    requires a != b
    ensures p + a != p + b
  {
    assert (p + a)[|p|..] == a && (p + b)[|p|..] == b;
  }

  lemma PrefixesStartApart(a: string, b: string)
    ensures AddedPrefix + a != RemovedPrefix + b
  {
    assert (AddedPrefix + a)[0] != (RemovedPrefix + b)[0];
  }

  /**
   * With no clashing names, every kept field has the type planned for it: a
   * list field that splits gets its `added_`/`removed_` pair of optional
   * lists (and keeps its own optional type only when the original is not
   * removed), any other kept field its optional type; an excluded field, or
   * a split original that is removed, is absent.
   */
  lemma UpdateFieldTypes(source: seq<(string, Annotation)>, opts: UpdateOptions, i: nat)
    requires NoClash(source) && i < |source|
    ensures var out, name, a := UpdateFields(source, opts, |source|), source[i].0, source[i].1;
      && (name in opts.exclude ==> Lookup(out, name) == None)
      && (name !in opts.exclude && Splits(name, a, opts) ==>
            && Lookup(out, AddedPrefix + name) == Some(OptionalListOf(a.item))
            && Lookup(out, RemovedPrefix + name) == Some(OptionalListOf(a.item))
            && Lookup(out, name) == if opts.removeOriginal then None else Some(OptionalOf(a)))
      && (name !in opts.exclude && !Splits(name, a, opts) ==> Lookup(out, name) == Some(OptionalOf(a)))
  {
    var name, a := source[i].0, source[i].1;
    PrefixesDiffer(name);
    KeyOfField(source, opts, i, name);
    if name !in opts.exclude && Splits(name, a, opts) {
      KeyOfField(source, opts, i, AddedPrefix + name);
      KeyOfField(source, opts, i, RemovedPrefix + name);
    }
  }

  /** A key that field `i` generates, or field `i`'s own name, ends up as field `i` left it. */
  lemma KeyOfField(source: seq<(string, Annotation)>, opts: UpdateOptions, i: nat, key: string)
    requires NoClash(source) && i < |source|
    requires key in Generated(source[i].0, source[i].1, opts) || key == source[i].0
    ensures Lookup(UpdateFields(source, opts, |source|), key) ==
      if key in Generated(source[i].0, source[i].1, opts) then Some(GeneratedType(source[i].0, source[i].1, opts, key)) else None
  {
    var name, a := source[i].0, source[i].1;
    forall j | 0 <= j < |source| && j != i ensures key !in Generated(source[j].0, source[j].1, opts) {
      OnlyFieldGenerates(source, opts, i, j, key);
    }
    LookupAfter(source, opts, i + 1, |source|, key);
    FieldStepLookup(UpdateFields(source, opts, i), name, a, opts, key);
    if key !in Generated(name, a, opts) {
      LookupAfter(source, opts, 0, i, key);
    }
  }

  lemma OnlyFieldGenerates(source: seq<(string, Annotation)>, opts: UpdateOptions, i: nat, j: nat, key: string)
    requires NoClash(source) && i < |source| && j < |source| && i != j
    requires key in Generated(source[i].0, source[i].1, opts) || key == source[i].0
    ensures key !in Generated(source[j].0, source[j].1, opts)
  {
    if key in Generated(source[i].0, source[i].1, opts) {
      GeneratedApart(source, opts, i, j, key);
    } else {
      assert source[j].0 != source[i].0;
      assert source[i].0 != AddedPrefix + source[j].0 && source[i].0 != RemovedPrefix + source[j].0;
    }
  }

  /** No key appears twice. */
  predicate DistinctNames(fields: Fields) {
    forall i, j :: 0 <= i < j < |fields| ==> fields[i].0 != fields[j].0
  }

  lemma {:induction false} PutDistinct(fields: Fields, name: string, t: FieldType)
    requires DistinctNames(fields)
    ensures DistinctNames(Put(fields, name, t))
    decreases |fields|
  {
    if fields != [] {
      var rest := Put(fields[1..], name, t);
      PutDistinct(fields[1..], name, t);
      PutSpec(fields[1..], name, t);
      if fields[0].0 != name {
        HeadNotInRest(fields);
        forall j | 0 <= j < |rest| ensures rest[j].0 != fields[0].0 {
          assert rest[j].0 in Keys(rest);
        }
      }
    }
  }

  lemma HeadNotInRest(fields: Fields)
    requires DistinctNames(fields) && fields != []
    ensures fields[0].0 !in Keys(fields[1..])
  {
    forall k | 0 <= k < |fields[1..]| ensures fields[1..][k].0 != fields[0].0 {
      assert fields[1..][k] == fields[k + 1];
    }
  }

  /** The plan is a dictionary: every key appears once, in the order it was first set. */
  lemma {:induction false} UpdateFieldsDistinct(source: seq<(string, Annotation)>, opts: UpdateOptions, n: nat)
    requires n <= |source|
    ensures DistinctNames(UpdateFields(source, opts, n))
    decreases n
  {
    if n > 0 {
      var fields, name, a := UpdateFields(source, opts, n - 1), source[n - 1].0, source[n - 1].1;
      UpdateFieldsDistinct(source, opts, n - 1);
      if name !in opts.exclude {
        PutDistinct(fields, name, OptionalOf(a));
        if Splits(name, a, opts) {
          var f1 := Put(fields, AddedPrefix + name, OptionalListOf(a.item));
          PutDistinct(fields, AddedPrefix + name, OptionalListOf(a.item));
          PutDistinct(f1, RemovedPrefix + name, OptionalListOf(a.item));
          PutDistinct(Put(f1, RemovedPrefix + name, OptionalListOf(a.item)), name, OptionalOf(a));
        }
      }
    }
  }
}
