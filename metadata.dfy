/**
 * `metadata/metadata.py`: the `Metadata` record that travels with documents.
 * It has three declared optional string fields and keeps any other key as an
 * extra. It is read from JSON text, defaulted, and merged with further keys
 * either where they are blank or by overwriting them.
 */
module Metadata {
  import opened Wrappers

  /** JSON values (numbers are integers here). */
  datatype Json =
    | JNull
    | JBool(b: bool)
    | JNum(n: int)
    | JStr(s: string)
    | JArr(items: seq<Json>)
    | JObj(fields: map<string, Json>)

  const Scope := "scope"
  const EventGroupId := "event_group_id"
  const TriggerEventId := "trigger_event_id"

  /** `Metadata._fields`: the declared field names. */
  const Declared: set<string> := {Scope, EventGroupId, TriggerEventId}

  /**
   * A `Metadata` instance: the three declared fields (JSON null for None) and
   * the extras that `extra="allow"` keeps.
   */
  datatype Meta = Meta(scope: Json, eventGroupId: Json, triggerEventId: Json, extra: map<string, Json>)

  /** No extra shadows a declared field, as pydantic keeps them apart. */
  predicate WellFormed(m: Meta) {
    forall k :: k in m.extra ==> k !in Declared
  }

  /** The value the instance holds under a key: a declared field or an extra. */
  function Value(m: Meta, k: string): (r: Option<Json>)
    ensures k in Declared ==> r.Some?
    ensures k !in Declared ==> (r.Some? <==> k in m.extra)
  {
    if k == Scope then Some(m.scope)
    else if k == EventGroupId then Some(m.eventGroupId)
    else if k == TriggerEventId then Some(m.triggerEventId)
    else if k in m.extra then Some(m.extra[k])
    else None
  }

  /** A key's value in a JSON object, JSON null when it is absent. */
  function Get(fields: map<string, Json>, k: string): Json {
    if k in fields then fields[k] else JNull
  }

  /** A declared field accepts a string or None; anything else fails validation. */
  predicate Accepts(fields: map<string, Json>, k: string) {
    k !in fields || fields[k].JStr? || fields[k].JNull?
  }

  /** The keys of an object that are not declared fields, with their values. */
  function Extras(fields: map<string, Json>): (r: map<string, Json>)
    ensures forall k :: k in r <==> k in fields && k !in Declared
  {
    map k | k in fields && k !in Declared :: fields[k]
  }

  // ---------------------------------------------------------------------------
  // from_json
  // ---------------------------------------------------------------------------

  /** `cls(**data)` after the checks of `from_json`, on an already parsed value. */
  function FromData(data: Json): Result<Option<Meta>> {
    if !data.JObj? || data.fields == map[] then Ok(None)
    else if !(Accepts(data.fields, Scope) && Accepts(data.fields, EventGroupId) && Accepts(data.fields, TriggerEventId)) then
      Err(ValidationError)
    else
      Ok(Some(Meta(Get(data.fields, Scope), Get(data.fields, EventGroupId), Get(data.fields, TriggerEventId), Extras(data.fields))))
  }

  /** `Metadata.from_json`; `parse` is `json.loads`, None where it raises. */
  function FromJson(parse: string -> Option<Json>, value: string): (r: Result<Option<Meta>>)
    ensures r == Ok(None) <==> parse(value).None? || !parse(value).value.JObj? || parse(value).value.fields == map[]
  {
    match parse(value)
    case None => Ok(None)
    case Some(data) => FromData(data)
  }

  /**
   * A non-empty object becomes an instance unless a declared field holds
   * something other than a string or null. Each declared field takes the
   * object's value, None when absent, and every other key becomes an extra.
   */
  lemma FromJsonFields(parse: string -> Option<Json>, value: string)
    requires parse(value).Some? && parse(value).value.JObj? && parse(value).value.fields != map[]
    ensures var fields, r := parse(value).value.fields, FromJson(parse, value);
      && (r.Err? <==> exists k :: k in Declared && !Accepts(fields, k))
      && (r.Ok? ==>
            && r.value.Some? && WellFormed(r.value.value)
            && (forall k :: k in Declared ==> Value(r.value.value, k) == Some(Get(fields, k)))
            && (forall k :: k !in Declared ==> Value(r.value.value, k) == (if k in fields then Some(fields[k]) else None)))
  {
    var fields := parse(value).value.fields;
    if !(Accepts(fields, Scope) && Accepts(fields, EventGroupId) && Accepts(fields, TriggerEventId)) {
      if !Accepts(fields, Scope) {
        assert Scope in Declared;
      } else if !Accepts(fields, EventGroupId) {
        assert EventGroupId in Declared;
      } else {
        assert TriggerEventId in Declared;
      }
    }
  }

  // ---------------------------------------------------------------------------
  // to_json, core_fields, extra_fields
  // ---------------------------------------------------------------------------

  /** `to_json` (`model_dump`): the declared fields, always present, and the extras. */
  function Dump(m: Meta): (r: map<string, Json>)
    ensures forall k :: k in r <==> Value(m, k).Some?
    ensures WellFormed(m) ==> forall k :: k in r ==> Value(m, k) == Some(r[k])
  {
    m.extra[Scope := m.scope][EventGroupId := m.eventGroupId][TriggerEventId := m.triggerEventId]
  }

  /** `core_fields`: the three declared fields. */
  function CoreFields(m: Meta): (r: map<string, Json>)
    ensures r.Keys == Declared
    ensures forall k :: k in r ==> Value(m, k) == Some(r[k])
  {
    map[Scope := m.scope, EventGroupId := m.eventGroupId, TriggerEventId := m.triggerEventId]
  }

  /** `extra_fields`: every dumped key that is not declared. */
  function ExtraFields(m: Meta): (r: map<string, Json>)
    ensures forall k :: k in r <==> k in Dump(m) && k !in Declared
  {
    Extras(Dump(m))
  }

  /** The core and extra fields split the dump: disjoint, together all of it, and the extras are the instance's extras. */
  lemma CoreAndExtraPartitionDump(m: Meta)
    requires WellFormed(m)
    ensures CoreFields(m).Keys !! ExtraFields(m).Keys
    ensures CoreFields(m) + ExtraFields(m) == Dump(m)
    ensures ExtraFields(m) == m.extra
  {
    assert CoreFields(m) + ExtraFields(m) == Dump(m);
  }

  /** An instance whose declared fields hold strings or None reads back from its own dump. */
  lemma DumpRoundTrip(m: Meta)
    requires WellFormed(m)
    requires forall k :: k in Declared ==> Value(m, k).value.JStr? || Value(m, k).value.JNull?
    ensures FromData(JObj(Dump(m))) == Ok(Some(m))
  {
    var d := Dump(m);
    assert Scope in d;
    assert Value(m, Scope).value.JStr? || Value(m, Scope).value.JNull?;
    assert Value(m, EventGroupId).value.JStr? || Value(m, EventGroupId).value.JNull?;
    assert Value(m, TriggerEventId).value.JStr? || Value(m, TriggerEventId).value.JNull?;
    assert Extras(d) == m.extra;
  }

  // ---------------------------------------------------------------------------
  // ensure_metadata
  // ---------------------------------------------------------------------------

  /** `ensure_metadata`: the given instance (always truthy), or scope "org" with the two ids empty. */
  function EnsureMetadata(value: Option<Meta>): (r: Meta)
    ensures value.Some? ==> r == value.value
    ensures value.None? ==>
      && Value(r, Scope) == Some(JStr("org"))
      && Value(r, EventGroupId) == Some(JStr("")) && Value(r, TriggerEventId) == Some(JStr(""))
      && WellFormed(r) && Dump(r).Keys == Declared
  {
    value.GetOr(Meta(JStr("org"), JStr(""), JStr(""), map[]))
  }

  /** `DEFAULT_METADATA`: the text of the default instance. */
  const DefaultMetadata := "{\"scope\": \"org\", \"event_group_id\": \"\", \"trigger_event_id\": \"\"}"

  /** Read with a JSON parser, `DEFAULT_METADATA` is the instance `ensure_metadata` makes from None. */
  lemma DefaultMetadataIsDefault(parse: string -> Option<Json>)
    requires parse(DefaultMetadata) == Some(JObj(map[Scope := JStr("org"), EventGroupId := JStr(""), TriggerEventId := JStr("")]))
    ensures FromJson(parse, DefaultMetadata) == Ok(Some(EnsureMetadata(None)))
  {
    var fields := parse(DefaultMetadata).value.fields;
    assert Scope in fields;
    assert Extras(fields) == map[];
  }

  // ---------------------------------------------------------------------------
  // extend_metadata
  // ---------------------------------------------------------------------------

  /** What `getattr(self, k, None)` finds: nothing, a class attribute (a method, `model_config`, ...), or a value. */
  datatype Attribute = Missing | Member | Found(value: Json)

  /** `getattr(self, k, None)`; `members` are the names the class itself defines, which win over extras. */
  function Current(m: Meta, k: string, members: set<string>): Attribute {
    if k in Declared then Found(Value(m, k).value)
    else if k in members then Member
    else if k in m.extra then Found(m.extra[k])
    else Missing
  }

  /** `current in (None, "")`. */
  predicate Blank(a: Attribute) {
    a == Missing || a == Found(JNull) || a == Found(JStr(""))
  }

  /** The `updates` dictionary: each key of the value that is blank on the instance, or every key when overwriting. */
  function Updates(m: Meta, fields: map<string, Json>, overwrite: bool, members: set<string>): map<string, Json> {
    map k | k in fields && (overwrite || Blank(Current(m, k, members))) :: fields[k]
  }

  /** `model_copy(update=updates)`: declared keys go to their fields, other keys to the extras, unvalidated. */
  function ModelCopy(m: Meta, updates: map<string, Json>): Meta {
    Meta(
      if Scope in updates then updates[Scope] else m.scope,
      if EventGroupId in updates then updates[EventGroupId] else m.eventGroupId,
      if TriggerEventId in updates then updates[TriggerEventId] else m.triggerEventId,
      m.extra + Extras(updates))
  }

  /** The argument of `extend_metadata`: JSON text or an already built value. */
  datatype Input = Text(text: string) | Given(value: Json)

  /** The input as a value, None where the text does not parse. */
  function Parsed(input: Input, parse: string -> Option<Json>): Option<Json> {
    match input
    case Text(s) => parse(s)
    case Given(v) => Some(v)
  }

  /** Whether the input is a non-empty object, the only kind `extend_metadata` merges. */
  predicate Mergeable(input: Input, parse: string -> Option<Json>) {
    var d := Parsed(input, parse);
    d.Some? && d.value.JObj? && d.value.fields != map[]
  }

  /** `extend_metadata`: a copy with the updates applied, or the instance itself when there is nothing to merge. */
  function ExtendMetadata(m: Meta, input: Input, overwrite: bool, parse: string -> Option<Json>, members: set<string>): (r: Meta)
    ensures !Mergeable(input, parse) ==> r == m
  {
    if !Mergeable(input, parse) then m
    else
      var updates := Updates(m, Parsed(input, parse).value.fields, overwrite, members);
      if updates == map[] then m else ModelCopy(m, updates)
  }

  /** Without `overwrite`, an input whose keys are all filled on the instance leaves it as it is. */
  lemma ExtendKeepsFilled(m: Meta, input: Input, parse: string -> Option<Json>, members: set<string>)
    requires Mergeable(input, parse)
    requires forall k :: k in Parsed(input, parse).value.fields ==> !Blank(Current(m, k, members))
    ensures ExtendMetadata(m, input, false, parse, members) == m
  {
    assert Updates(m, Parsed(input, parse).value.fields, false, members) == map[];
  }

  /**
   * The merge rule, key by key: a key of the input takes the input's value
   * when overwriting or when it is blank on the instance; every other key
   * keeps its value. A well-formed instance stays well-formed.
   */
  lemma ExtendKey(m: Meta, input: Input, overwrite: bool, parse: string -> Option<Json>, members: set<string>, k: string)
    requires WellFormed(m) && Mergeable(input, parse)
    ensures var fields, r := Parsed(input, parse).value.fields, ExtendMetadata(m, input, overwrite, parse, members);
      && WellFormed(r)
      && Value(r, k) == if k in fields && (overwrite || Blank(Current(m, k, members))) then Some(fields[k]) else Value(m, k)
  {
    var fields := Parsed(input, parse).value.fields;
    var u := Updates(m, fields, overwrite, members);
    assert k in u <==> k in fields && (overwrite || Blank(Current(m, k, members)));
    if u != map[] {
      var r := ModelCopy(m, u);
      assert r.extra == m.extra + Extras(u);
    }
  }

  /** Copying in values the instance already holds changes nothing. */
  lemma CopyUnchanged(m: Meta, updates: map<string, Json>)
    requires WellFormed(m)
    requires forall k :: k in updates ==> Value(m, k) == Some(updates[k])
    ensures ModelCopy(m, updates) == m
  {
    var r := ModelCopy(m, updates);
    assert Scope in updates ==> Value(m, Scope) == Some(updates[Scope]);
    assert EventGroupId in updates ==> Value(m, EventGroupId) == Some(updates[EventGroupId]);
    assert TriggerEventId in updates ==> Value(m, TriggerEventId) == Some(updates[TriggerEventId]);
    forall k | k in Extras(updates) ensures k in m.extra && m.extra[k] == updates[k] {
      assert Value(m, k) == Some(updates[k]);
    }
    assert r.extra == m.extra;
  }

  /** Merging the same input twice is merging it once. */
  lemma ExtendIdempotent(m: Meta, input: Input, overwrite: bool, parse: string -> Option<Json>, members: set<string>)
    requires WellFormed(m)
    ensures var once := ExtendMetadata(m, input, overwrite, parse, members);
      ExtendMetadata(once, input, overwrite, parse, members) == once
  {
    var once := ExtendMetadata(m, input, overwrite, parse, members);
    if Mergeable(input, parse) {
      var fields := Parsed(input, parse).value.fields;
      var again := Updates(once, fields, overwrite, members);
      forall k | k in again ensures Value(once, k) == Some(again[k]) {
        ExtendKey(m, input, overwrite, parse, members, k);
      }
      ExtendKey(m, input, overwrite, parse, members, Scope);
      CopyUnchanged(once, again);
    }
  }
}
