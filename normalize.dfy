/**
 * The last two steps every extraction strategy shares: projecting the
 * collected fields onto the object kind's schema, with `null` for every
 * schema key nothing was collected for, and attaching the record id only
 * when the projected record has no truthy `id` of its own.
 */
module Normalize {
  import opened Wrappers
  import opened JsValues

  /** The value a schema key takes: the collected one, or `null`
   *  (`collected[key] ?? null`, and the equivalent `!== undefined` test). */
  function ValueOrNull(raw: Record, key: string): Value {
    if key in raw then raw[key] else Null
  }

  /** `schema.forEach(key => data[key] = raw[key] ?? null)` on an empty object. */
  function Project(raw: Record, schema: seq<string>): (r: Record)
    ensures forall k :: k in r <==> k in schema
    ensures forall k :: k in r ==> r[k] == ValueOrNull(raw, k)
    decreases |schema|
  {
    if |schema| == 0 then map[]
    else
      var key := schema[|schema| - 1];
      Project(raw, schema[..|schema| - 1])[key := ValueOrNull(raw, key)]
  }

  /** The schema loop: writes every schema key onto `base`. */
  method WriteSchemaFields(raw: Record, schema: seq<string>, base: Record) returns (out: Record)
    ensures out == base + Project(raw, schema)
  {
    out := base;
    var i := 0;
    while i < |schema|
      invariant 0 <= i <= |schema|
      invariant out == base + Project(raw, schema[..i])
    {
      var key := schema[i];
      assert schema[..i + 1][..i] == schema[..i];
      ghost var before := Project(raw, schema[..i]);
      assert Project(raw, schema[..i + 1]) == before[key := ValueOrNull(raw, key)];
      MergeUpdate(base, before, key, ValueOrNull(raw, key));
      out := out[key := ValueOrNull(raw, key)];
      i := i + 1;
    }
    assert schema[..|schema|] == schema;
  }

  lemma MergeUpdate(base: Record, m: Record, key: string, v: Value)
    ensures (base + m)[key := v] == base + m[key := v]
  {
  }

  /** `if (!rec.id && recordId) rec.id = recordId`. */
  function AttachId(rec: Record, recordId: Option<string>): (r: Record)
    ensures forall k :: k != "id" ==> (k in r <==> k in rec) && (k in r ==> r[k] == rec[k])
    ensures FieldTruthy(rec, "id") || !TruthyText(recordId) ==> r == rec
    ensures !FieldTruthy(rec, "id") && TruthyText(recordId) ==> "id" in r && r["id"] == Str(recordId.value)
  {
    if !FieldTruthy(rec, "id") && TruthyText(recordId) then rec["id" := Str(recordId.value)] else rec
  }

  /** The record a list row or a board card becomes: the object kind, the
   *  schema projection of what was collected, the page's id when the
   *  projection has no truthy one, and the extraction time. */
  function Normalized(obj: string, raw: Record, schema: seq<string>, recordId: Option<string>, now: int): Record {
    AttachId(map["object" := Str(obj)] + Project(raw, schema), recordId)["extractedAt" := Num(now)]
  }

  /** The normalisation code shared by the list and board extractors. */
  method NormalizeRecord(obj: string, raw: Record, schema: seq<string>, recordId: Option<string>, now: int)
    returns (rec: Record)
    ensures rec == Normalized(obj, raw, schema, recordId, now)
  {
    rec := WriteSchemaFields(raw, schema, map["object" := Str(obj)]);
    if !FieldTruthy(rec, "id") && TruthyText(recordId) {
      rec := rec["id" := Str(recordId.value)];
    }
    rec := rec["extractedAt" := Num(now)];
  }

  /** What a normalised record holds: the extraction time; no key but the
   *  schema's, `object`, `extractedAt` and `id`; every other schema key with
   *  its collected value or `null`; and, when the schema has no `id`, an `id`
   *  exactly when the page supplied a truthy one. */
  lemma NormalizedShape(obj: string, raw: Record, schema: seq<string>, recordId: Option<string>, now: int)
    ensures var r := Normalized(obj, raw, schema, recordId, now);
      && r["extractedAt"] == Num(now)
      && (forall k :: k in r ==> k in schema || k == "object" || k == "extractedAt" || k == "id")
      && (forall k :: k in schema && k != "id" && k != "extractedAt" ==> k in r && r[k] == ValueOrNull(raw, k))
      && ("object" !in schema ==> r["object"] == Str(obj))
    ensures var r := Normalized(obj, raw, schema, recordId, now);
      "id" !in schema ==>
        && ("id" in r <==> TruthyText(recordId))
        && ("id" in r ==> r["id"] == Str(recordId.value))
  {
    var base := map["object" := Str(obj)] + Project(raw, schema);
    assert forall k :: k in schema ==> k in base && base[k] == ValueOrNull(raw, k);
  }

  /** Projecting twice is projecting once. */
  lemma ProjectIdempotent(raw: Record, schema: seq<string>)
    ensures Project(Project(raw, schema), schema) == Project(raw, schema)
  {
    var once := Project(raw, schema);
    assert forall k :: k in once ==> ValueOrNull(once, k) == once[k];
  }

  /** Only the schema keys matter: changing a collected value outside the
   *  schema changes nothing. */
  lemma ProjectIgnoresOtherKeys(raw: Record, schema: seq<string>, key: string, v: Value)
    requires key !in schema
    ensures Project(raw[key := v], schema) == Project(raw, schema)
  {
    var a := Project(raw[key := v], schema);
    var b := Project(raw, schema);
    assert forall k :: k in a ==> a[k] == b[k];
  }

  /** With no `id` in the schema the guard `!rec.id` always holds: the record
   *  carries an `id` exactly when the page supplied a truthy one. */
  lemma SchemaWithoutIdTakesPageId(raw: Record, schema: seq<string>, recordId: Option<string>)
    requires "id" !in schema
    ensures var r := AttachId(Project(raw, schema), recordId);
      && ("id" in r <==> TruthyText(recordId))
      && ("id" in r ==> r["id"] == Str(recordId.value))
  {
  }
}
