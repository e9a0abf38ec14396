/**
 * Record-view extraction (`extractRecord`). The page is data: the modern
 * layout items, then the legacy layout items, each with a visibility flag and
 * the texts of the elements the extractor queries, plus the location's path
 * and full address. Labels are matched through the kind's field map; the
 * modern pass runs first and the legacy pass after it, so later writes win.
 */
module RecordView {
  import opened Wrappers
  import opened Text
  import opened JsValues
  import opened Constants
  import opened Normalize
  import Seqs

  /** One layout item: `None` where the queried element is absent. */
  datatype LayoutItem = LayoutItem(
    visible: bool,
    fieldLabel: Option<string>,   // `.test-id__field-label`
    fieldValue: Option<string>,   // `.test-id__field-value`
    titleLabel: Option<string>,   // `span[title]`, the modern fallback label
    slotValue: Option<string>)    // `slot slot`, the modern fallback value

  datatype RecordPage = RecordPage(
    modernItems: seq<LayoutItem>,  // `records-record-layout-item`
    legacyItems: seq<LayoutItem>,  // `.forcePageBlockItem`
    path: string,                  // `location.pathname`
    href: string)                  // `location.href`

  function Visible(item: LayoutItem): bool {
    item.visible
  }

  /** The label and value texts an item offers. The modern pass falls back to
   *  the slot pair only when the primary pair is not both present; the legacy
   *  pass has no fallback. */
  function Pair(item: LayoutItem, legacy: bool): Option<(string, string)> {
    if item.fieldLabel.Some? && item.fieldValue.Some? then Some((item.fieldLabel.value, item.fieldValue.value))
    else if !legacy && item.titleLabel.Some? && item.slotValue.Some? then Some((item.titleLabel.value, item.slotValue.value))
    else None
  }

  /** The write an item makes, as (canonical key, trimmed value): only a
   *  visible item whose trimmed label the map turns into a truthy key writes. */
  function Contribution(fm: FieldMap, item: LayoutItem, legacy: bool): Option<(string, string)> {
    if !item.visible then None
    else
      match Pair(item, legacy)
      case None => None
      case Some((l, v)) =>
        match Lookup(fm, Trim(l))
        case Some(key) => if key != "" then Some((key, Trim(v))) else None
        case None => None
  }

  ghost predicate Writes(fm: FieldMap, item: LayoutItem, legacy: bool, key: string) {
    Contribution(fm, item, legacy).Some? && Contribution(fm, item, legacy).value.0 == key
  }

  function Step(fm: FieldMap, collected: Record, item: LayoutItem, legacy: bool): Record {
    match Contribution(fm, item, legacy)
    case None => collected
    case Some((key, v)) => collected[key := Str(v)]
  }

  /** `if (fieldMap[label]) collected[fieldMap[label]] = value`, with both texts trimmed. */
  function WriteMapped(fm: FieldMap, collected: Record, l: string, v: string): Record {
    match Lookup(fm, Trim(l))
    case Some(key) => if key != "" then collected[key := Str(Trim(v))] else collected
    case None => collected
  }

  /** A truthy mapped key takes the trimmed value and every other key stays
   *  as it was; without a truthy mapped key nothing changes. */
  lemma WriteMappedEffect(fm: FieldMap, collected: Record, l: string, v: string)
    ensures var key := Lookup(fm, Trim(l)); var r := WriteMapped(fm, collected, l, v);
      key.Some? && key.value != "" ==>
        && key.value in r && r[key.value] == Str(Trim(v))
        && (forall k :: k != key.value ==> (k in r <==> k in collected))
        && (forall k :: k != key.value && k in r ==> r[k] == collected[k])
    ensures var key := Lookup(fm, Trim(l));
      !(key.Some? && key.value != "") ==> WriteMapped(fm, collected, l, v) == collected
  {
  }

  /** A visible item with both a field label and a field value writes that
   *  value, trimmed, under the truthy key its trimmed label maps to, in
   *  either pass. */
  lemma PrimaryPairWrites(fm: FieldMap, collected: Record, item: LayoutItem, legacy: bool)
    requires item.visible && item.fieldLabel.Some? && item.fieldValue.Some?
    ensures Step(fm, collected, item, legacy)
      == match Lookup(fm, Trim(item.fieldLabel.value))
         case Some(key) => if key != "" then collected[key := Str(Trim(item.fieldValue.value))] else collected
         case None => collected
  {
  }

  lemma StepWrites(fm: FieldMap, collected: Record, item: LayoutItem, legacy: bool)
    ensures Step(fm, collected, item, legacy)
      == if !item.visible || Pair(item, legacy).None? then collected
         else WriteMapped(fm, collected, Pair(item, legacy).value.0, Pair(item, legacy).value.1)
  {
  }

  /** One `forEach` over the items, in document order. */
  function Pass(fm: FieldMap, collected: Record, items: seq<LayoutItem>, legacy: bool): Record
    decreases |items|
  {
    if |items| == 0 then collected
    else Step(fm, Pass(fm, collected, items[..|items| - 1], legacy), items[|items| - 1], legacy)
  }

  /** The fields collected from the page: modern pass, then legacy pass. */
  function CollectFields(fm: FieldMap, page: RecordPage): Record {
    Pass(fm, Pass(fm, map[], page.modernItems, false), page.legacyItems, true)
  }

  /** `parts.indexOf('r')` is `j`. */
  predicate FirstR(parts: seq<string>, j: int) {
    0 <= j < |parts| && parts[j] == "r" && "r" !in parts[..j]
  }

  /** The record id from the path: split on '/', the part two places after
   *  the first part equal to "r", when that index is in range. */
  function RecordIdFromPath(path: string): (r: Option<string>)
    ensures var parts := Split(path, '/');
      forall j :: FirstR(parts, j) ==> r == if j + 2 < |parts| then Some(parts[j + 2]) else None
    ensures "r" !in Split(path, '/') ==> r.None?
  {
    var parts := Split(path, '/');
    var idIndex := IndexOfElement(parts, "r") + 2;
    FirstRUnique(parts);
    if idIndex > 1 && idIndex < |parts| then Some(parts[idIndex]) else None
  }

  /** Only the index `indexOf` returns is a first occurrence. */
  lemma FirstRUnique(parts: seq<string>)
    ensures forall j :: FirstR(parts, j) ==> j == IndexOfElement(parts, "r")
  {
    var r := IndexOfElement(parts, "r");
    forall j | FirstR(parts, j) ensures j == r {
      assert r >= 0 by { assert parts[j] in parts; }
    }
  }

  /** What `extractRecord` returns: `{object, ...data, url, extractedAt}`
   *  with `data` the schema projection and the id attached. */
  function ExtractedRecord(obj: string, fm: FieldMap, schema: seq<string>, page: RecordPage, now: int): Record {
    map["object" := Str(obj)]
      + AttachId(Project(CollectFields(fm, page), schema), RecordIdFromPath(page.path))
      + map["url" := Str(page.href), "extractedAt" := Num(now)]
  }

  /** `if (fieldMap[label]) collected[fieldMap[label]] = value`. */
  method StoreMapped(fm: FieldMap, collected: Record, labelText: string, valueText: string) returns (out: Record)
    ensures out == WriteMapped(fm, collected, labelText, valueText)
    ensures var key := Lookup(fm, Trim(labelText));
      key.Some? && key.value != "" ==>
        && key.value in out && out[key.value] == Str(Trim(valueText))
        && (forall k :: k != key.value ==> (k in out <==> k in collected))
        && (forall k :: k != key.value && k in out ==> out[k] == collected[k])
    ensures var key := Lookup(fm, Trim(labelText));
      !(key.Some? && key.value != "") ==> out == collected
  {
    out := collected;
    var key := Lookup(fm, Trim(labelText));
    if key.Some? && key.value != "" {
      out := out[key.value := Str(Trim(valueText))];
    }
  }

  /** The modern-layout `forEach` callback for one item. */
  method ReadModernItem(fm: FieldMap, collected: Record, item: LayoutItem) returns (out: Record)
    ensures out == Step(fm, collected, item, false)
    ensures !item.visible ==> out == collected
    ensures item.visible && item.fieldLabel.Some? && item.fieldValue.Some? ==>
      out == WriteMapped(fm, collected, item.fieldLabel.value, item.fieldValue.value)
    ensures (item.visible && !(item.fieldLabel.Some? && item.fieldValue.Some?)
             && item.titleLabel.Some? && item.slotValue.Some?) ==>
      out == WriteMapped(fm, collected, item.titleLabel.value, item.slotValue.value)
    ensures !(item.fieldLabel.Some? && item.fieldValue.Some?) && !(item.titleLabel.Some? && item.slotValue.Some?) ==>
      out == collected
  {
    StepWrites(fm, collected, item, false);
    out := collected;
    if !item.visible {
      return;
    }
    if item.fieldLabel.Some? && item.fieldValue.Some? {
      out := StoreMapped(fm, out, item.fieldLabel.value, item.fieldValue.value);
      return;
    }
    if item.titleLabel.Some? && item.slotValue.Some? {
      out := StoreMapped(fm, out, item.titleLabel.value, item.slotValue.value);
    }
  }

  /** The legacy-layout `forEach` callback for one item. */
  method ReadLegacyItem(fm: FieldMap, collected: Record, item: LayoutItem) returns (out: Record)
    ensures out == Step(fm, collected, item, true)
    ensures item.visible && item.fieldLabel.Some? && item.fieldValue.Some? ==>
      out == WriteMapped(fm, collected, item.fieldLabel.value, item.fieldValue.value)
    ensures !(item.visible && item.fieldLabel.Some? && item.fieldValue.Some?) ==> out == collected
  {
    StepWrites(fm, collected, item, true);
    out := collected;
    if item.visible && item.fieldLabel.Some? && item.fieldValue.Some? {
      out := StoreMapped(fm, out, item.fieldLabel.value, item.fieldValue.value);
    }
  }

  /** One pass over the items in document order. */
  method RunPass(fm: FieldMap, start: Record, items: seq<LayoutItem>, legacy: bool) returns (collected: Record)
    ensures collected == Pass(fm, start, items, legacy)
  {
    collected := start;
    var i := 0;
    while i < |items|
      invariant 0 <= i <= |items|
      invariant collected == Pass(fm, start, items[..i], legacy)
    {
      assert items[..i + 1] == items[..i] + [items[i]];
      PassSnoc(fm, start, items[..i], items[i], legacy);
      if legacy {
        collected := ReadLegacyItem(fm, collected, items[i]);
      } else {
        collected := ReadModernItem(fm, collected, items[i]);
      }
      i := i + 1;
    }
    assert items[..i] == items;
  }

  /** `extractRecord`, once the layout has appeared; `now` is `Date.now()`. */
  method ExtractRecord(obj: string, fm: FieldMap, schema: seq<string>, page: RecordPage, now: int)
    returns (rec: Record)
    ensures rec == ExtractedRecord(obj, fm, schema, page, now)
  {
    var collected := RunPass(fm, map[], page.modernItems, false);
    collected := RunPass(fm, collected, page.legacyItems, true);
    var recordId := RecordIdFromPath(page.path);
    var data := WriteSchemaFields(collected, schema, map[]);
    assert map[] + Project(collected, schema) == Project(collected, schema);
    if !FieldTruthy(data, "id") && TruthyText(recordId) {
      data := data["id" := Str(recordId.value)];
    }
    rec := map["object" := Str(obj)] + data + map["url" := Str(page.href), "extractedAt" := Num(now)];
  }

  lemma PassSnoc(fm: FieldMap, collected: Record, items: seq<LayoutItem>, item: LayoutItem, legacy: bool)
    ensures Pass(fm, collected, items + [item], legacy) == Step(fm, Pass(fm, collected, items, legacy), item, legacy)
  {
    assert (items + [item])[..|items|] == items;
  }

  /** Hidden items contribute nothing: a pass over all items equals the pass
   *  over the visible ones. */
  lemma {:induction false} HiddenItemsIgnored(fm: FieldMap, collected: Record, items: seq<LayoutItem>, legacy: bool)
    ensures Pass(fm, collected, items, legacy) == Pass(fm, collected, Seqs.FilterSeq(items, Visible), legacy)
    decreases |items|
  {
    if |items| > 0 {
      var init := items[..|items| - 1];
      var last := items[|items| - 1];
      assert items == init + [last];
      HiddenItemsIgnored(fm, collected, init, legacy);
      Seqs.FilterSeqAppend(init, [last], Visible);
      var kept := Seqs.FilterSeq(init, Visible);
      if last.visible {
        assert Seqs.FilterSeq([last], Visible) == [last];
        PassSnoc(fm, collected, kept, last, legacy);
      } else {
        assert Seqs.FilterSeq([last], Visible) == [];
        assert kept + [] == kept;
      }
    }
  }

  /** The last item that writes a key decides its value. */
  lemma {:induction false} LastWriterWins(fm: FieldMap, collected: Record, items: seq<LayoutItem>, legacy: bool, key: string, i: nat)
    requires i < |items| && Writes(fm, items[i], legacy, key)
    requires forall j :: i < j < |items| ==> !Writes(fm, items[j], legacy, key)
    ensures key in Pass(fm, collected, items, legacy)
    ensures Pass(fm, collected, items, legacy)[key] == Str(Contribution(fm, items[i], legacy).value.1)
    decreases |items|
  {
    if i < |items| - 1 {
      LastWriterWins(fm, collected, items[..|items| - 1], legacy, key, i);
      assert !Writes(fm, items[|items| - 1], legacy, key);
    }
  }

  /** A key no item writes keeps what it had before the pass. */
  lemma {:induction false} UnwrittenKeyKept(fm: FieldMap, collected: Record, items: seq<LayoutItem>, legacy: bool, key: string)
    requires forall j :: 0 <= j < |items| ==> !Writes(fm, items[j], legacy, key)
    ensures key in Pass(fm, collected, items, legacy) <==> key in collected
    ensures key in collected ==> Pass(fm, collected, items, legacy)[key] == collected[key]
    decreases |items|
  {
    if |items| > 0 {
      UnwrittenKeyKept(fm, collected, items[..|items| - 1], legacy, key);
      assert !Writes(fm, items[|items| - 1], legacy, key);
    }
  }

  /** The legacy pass runs last: its last writer of a key wins over anything
   *  the modern pass wrote; without a legacy writer the modern value stands. */
  lemma LegacyPassWins(fm: FieldMap, page: RecordPage, key: string, i: nat)
    requires i < |page.legacyItems| && Writes(fm, page.legacyItems[i], true, key)
    requires forall j :: i < j < |page.legacyItems| ==> !Writes(fm, page.legacyItems[j], true, key)
    ensures key in CollectFields(fm, page)
    ensures CollectFields(fm, page)[key] == Str(Contribution(fm, page.legacyItems[i], true).value.1)
  {
    LastWriterWins(fm, Pass(fm, map[], page.modernItems, false), page.legacyItems, true, key, i);
  }

  /** Without a legacy writer of a key, the modern pass's value stands. */
  lemma ModernValueStands(fm: FieldMap, page: RecordPage, key: string)
    requires forall j :: 0 <= j < |page.legacyItems| ==> !Writes(fm, page.legacyItems[j], true, key)
    ensures key in CollectFields(fm, page) <==> key in Pass(fm, map[], page.modernItems, false)
    ensures key in CollectFields(fm, page) ==>
      CollectFields(fm, page)[key] == Pass(fm, map[], page.modernItems, false)[key]
  {
    UnwrittenKeyKept(fm, Pass(fm, map[], page.modernItems, false), page.legacyItems, true, key);
  }

  /** The fallback pair of a modern item is read only when the primary pair
   *  is incomplete, and a legacy item never reads it. */
  lemma FallbackOnlyWhenPrimaryIncomplete(fm: FieldMap, item: LayoutItem, t: Option<string>, v: Option<string>)
    ensures item.fieldLabel.Some? && item.fieldValue.Some? ==>
      Contribution(fm, item.(titleLabel := t, slotValue := v), false) == Contribution(fm, item, false)
    ensures Contribution(fm, item.(titleLabel := t, slotValue := v), true) == Contribution(fm, item, true)
    ensures !(item.fieldLabel.Some? && item.fieldValue.Some?) && item.visible && t.Some? && v.Some? ==>
      Contribution(fm, item.(titleLabel := t, slotValue := v), false)
        == match Lookup(fm, Trim(t.value))
           case Some(key) => if key != "" then Some((key, Trim(v.value))) else None
           case None => None
  {
  }

  /** Every collected field sits under a key the field map produces, and
   *  holds a string. */
  lemma {:induction false} PassKeysFromMap(fm: FieldMap, collected: Record, items: seq<LayoutItem>, legacy: bool)
    requires forall k :: k in collected ==> Produces(fm, k) && collected[k].Str?
    ensures var r := Pass(fm, collected, items, legacy);
      forall k :: k in r ==> Produces(fm, k) && r[k].Str?
    decreases |items|
  {
    if |items| > 0 {
      PassKeysFromMap(fm, collected, items[..|items| - 1], legacy);
      var item := items[|items| - 1];
      match Pair(item, legacy)
      case None =>
      case Some((l, v)) =>
        LookupProduces(fm, Trim(l));
    }
  }

  lemma CollectedKeysFromMap(fm: FieldMap, page: RecordPage)
    ensures forall k :: k in CollectFields(fm, page) ==> Produces(fm, k) && CollectFields(fm, page)[k].Str?
  {
    PassKeysFromMap(fm, map[], page.modernItems, false);
    PassKeysFromMap(fm, Pass(fm, map[], page.modernItems, false), page.legacyItems, true);
  }

  /** `object`, `url` and `extractedAt` come from the caller; the spread
   *  order lets a schema key named `object` overwrite the kind. */
  lemma ExtractedRecordFixedFields(obj: string, fm: FieldMap, schema: seq<string>, page: RecordPage, now: int)
    ensures var r := ExtractedRecord(obj, fm, schema, page, now);
      && r["object"] == (if "object" in schema then ValueOrNull(CollectFields(fm, page), "object") else Str(obj))
      && r["url"] == Str(page.href)
      && r["extractedAt"] == Num(now)
  {
  }

  /** Every other schema key holds the collected string or `null`. */
  lemma ExtractedRecordSchemaFields(obj: string, fm: FieldMap, schema: seq<string>, page: RecordPage, now: int)
    ensures var r := ExtractedRecord(obj, fm, schema, page, now);
      forall k :: k in schema && k != "id" && k != "url" && k != "extractedAt" ==>
        k in r && r[k] == ValueOrNull(CollectFields(fm, page), k)
  {
    var p := Project(CollectFields(fm, page), schema);
    var a := AttachId(p, RecordIdFromPath(page.path));
    assert forall k :: k in schema && k != "id" ==> k in a && a[k] == p[k];
  }

  /** Nothing outside the schema survives but `object`, `url`, `extractedAt`
   *  and `id`. */
  lemma ExtractedRecordNoOtherKeys(obj: string, fm: FieldMap, schema: seq<string>, page: RecordPage, now: int)
    ensures var r := ExtractedRecord(obj, fm, schema, page, now);
      forall k :: k in r ==> k in schema || k == "object" || k == "url" || k == "extractedAt" || k == "id"
  {
  }

  /** With no `id` in the schema, the record carries an `id` exactly when the
   *  path yields a truthy one. */
  lemma ExtractedRecordId(obj: string, fm: FieldMap, schema: seq<string>, page: RecordPage, now: int)
    requires "id" !in schema
    ensures var r := ExtractedRecord(obj, fm, schema, page, now);
      && ("id" in r <==> TruthyText(RecordIdFromPath(page.path)))
      && ("id" in r ==> r["id"] == Str(RecordIdFromPath(page.path).value))
  {
    SchemaWithoutIdTakesPageId(CollectFields(fm, page), schema, RecordIdFromPath(page.path));
  }

  /** With consistent tables nothing collected is dropped by the projection:
   *  every collected string reaches the output under its key. */
  lemma NothingCollectedIsDropped(obj: string, fm: FieldMap, schema: seq<string>, page: RecordPage, now: int)
    requires SchemaAgrees(fm, schema)
    ensures var r := ExtractedRecord(obj, fm, schema, page, now);
      forall k :: k in CollectFields(fm, page) && k != "url" && k != "extractedAt" ==>
        k in r && r[k] == CollectFields(fm, page)[k]
  {
    CollectedKeysFromMap(fm, page);
    var c := CollectFields(fm, page);
    forall k | k in c ensures k in schema {
      var i :| 0 <= i < |fm| && fm[i].1 == k;
    }
    ExtractedRecordSchemaFields(obj, fm, schema, page, now);
  }

  /** The record address `/lightning/r/<Object>/<Id>/view`, built by joining
   *  its segments with '/', yields `<Id>`. */
  lemma RecordIdOfRecordAddress(objectKind: string, id: string)
    requires '/' !in objectKind && '/' !in id
    ensures RecordIdFromPath(Join(["", "lightning", "r", objectKind, id, "view"], '/')) == Some(id)
  {
    var parts := ["", "lightning", "r", objectKind, id, "view"];
    JoinSplit(parts, '/');
    assert FirstR(parts, 2);
  }
}
