/**
 * List-view extraction (`extractListView`). The page is a sequence of table
 * rows, each with its optional `data-row-key-value` and its cells. Standard
 * rows label each cell by its `data-label` attribute; task rows have no such
 * attribute, and their labels come from the title of the inline-edit button
 * (`Edit <Label>: ...`). One record comes out per row.
 */
module ListView {
  import opened Wrappers
  import opened Text
  import opened JsValues
  import opened Constants
  import opened Normalize

  /** One `td`/`th` cell: `None` where the queried element or attribute is absent. */
  datatype ListCell = ListCell(
    dataLabel: Option<string>,      // `data-label` attribute
    text: string,                   // the cell's rendered text
    buttonTitles: seq<string>,      // titles of the cell's titled buttons, in document order
    output: Option<string>,         // first `.uiOutputText, .uiOutputDate, .outputLookupLink`
    recordIdLink: Option<string>)   // `data-recordid` of the first `a[data-recordid]`

  datatype ListRow = ListRow(rowKey: Option<string>, cells: seq<ListCell>)

  const EditPrefix: string := "Edit "

  // ----- Standard rows -----------------------------------------------------

  /** `cell.innerText.trim() || null`. */
  function CellValue(text: string): (v: Value)
    ensures v == Null <==> Trim(text) == ""
    ensures v != Null ==> v == Str(Trim(text))
  {
    if Trim(text) == "" then Null else Str(Trim(text))
  }

  function StandardStep(raw: Record, cell: ListCell): Record {
    if TruthyText(cell.dataLabel) then raw[cell.dataLabel.value := CellValue(cell.text)] else raw
  }

  /** The raw fields of a standard row: each labelled cell in order, a later
   *  cell with the same label overwriting an earlier one. */
  function StandardRowFields(cells: seq<ListCell>): Record
    decreases |cells|
  {
    if |cells| == 0 then map[] else StandardStep(StandardRowFields(cells[..|cells| - 1]), cells[|cells| - 1])
  }

  // ----- Task rows: the edit-button title -----------------------------------

  /** The first title of the cell that starts with "Edit "
   *  (`button[title^="Edit "]`). */
  function FirstEditTitle(titles: seq<string>): (r: Option<string>)
    ensures r.Some? ==>
      exists i :: (0 <= i < |titles| && titles[i] == r.value && StartsWith(titles[i], EditPrefix)
        && forall j :: 0 <= j < i ==> !StartsWith(titles[j], EditPrefix))
    ensures r.None? ==> forall t :: t in titles ==> !StartsWith(t, EditPrefix)
  {
    if |titles| == 0 then None
    else if StartsWith(titles[0], EditPrefix) then Some(titles[0])
    else FirstEditTitle(titles[1..])
  }

  /** `Edit <g>:` stands at index `i` with the shortest `g` the lazy group
   *  `(.*?)` takes: `g` has no ':' and, as `.` does not match them, no line
   *  terminator. */
  ghost predicate LabelMatchAt(t: string, i: int, g: string) {
    && ':' !in g
    && (forall m :: 0 <= m < |g| ==> !IsLineTerminator(g[m]))
    && OccursAt(t, EditPrefix + g + ":", i)
  }

  ghost predicate NoLabelMatchBefore(t: string, i: int) {
    forall j, g :: 0 <= j < i ==> !LabelMatchAt(t, j, g)
  }

  /** The first index at or after `k` holding ':' or a line terminator, or the end. */
  function StopAt(t: string, k: nat): (j: nat)
    requires k <= |t|
    ensures k <= j <= |t|
    ensures forall m :: k <= m < j ==> t[m] != ':' && !IsLineTerminator(t[m])
    ensures j < |t| ==> t[j] == ':' || IsLineTerminator(t[j])
    decreases |t| - k
  {
    if k == |t| || t[k] == ':' || IsLineTerminator(t[k]) then k else StopAt(t, k + 1)
  }

  /** The pattern `Edit (.*?):` tried at index `i`. */
  function LabelAt(t: string, i: nat): (r: Option<string>)
    requires i <= |t|
    ensures r.Some? ==> forall m :: 0 <= m < |r.value| ==> r.value[m] != ':' && !IsLineTerminator(r.value[m])
  {
    if OccursAt(t, EditPrefix, i) then
      var j := StopAt(t, i + 5);
      if j < |t| && t[j] == ':' then Some(t[i + 5..j]) else None
    else None
  }

  function TitleLabelFrom(t: string, from: nat): (r: Option<string>)
    requires from <= |t|
    ensures r.Some? ==> forall m :: 0 <= m < |r.value| ==> r.value[m] != ':' && !IsLineTerminator(r.value[m])
    decreases |t| - from
  {
    if LabelAt(t, from).Some? then LabelAt(t, from)
    else if from == |t| then None
    else TitleLabelFrom(t, from + 1)
  }

  /** `title.match(/Edit (.*?):/)[1]`, `None` when there is no match. */
  function TitleLabel(t: string): (r: Option<string>)
    ensures r.Some? ==> forall m :: 0 <= m < |r.value| ==> r.value[m] != ':' && !IsLineTerminator(r.value[m])
  {
    TitleLabelFrom(t, 0)
  }

  lemma LabelMatchIsFound(t: string, i: nat, g: string)
    requires i <= |t| && LabelMatchAt(t, i, g)
    ensures LabelAt(t, i) == Some(g)
  {
    var pat := EditPrefix + g + ":";
    var window := t[i..i + |pat|];
    assert window == pat;
    assert t[i..i + 5] == window[..5] == EditPrefix;
    assert OccursAt(t, EditPrefix, i);
    forall m | 0 <= m < |g| ensures t[i + 5 + m] == g[m] {
      assert t[i + 5 + m] == window[5 + m] == pat[5 + m];
    }
    assert t[i + 5 + |g|] == window[5 + |g|] == ':';
    StopAtFirst(t, i + 5, |g|);
    assert t[i + 5..i + 5 + |g|] == g;
  }

  lemma StopAtFirst(t: string, k: nat, n: nat)
    requires k + n < |t| && t[k + n] == ':'
    requires forall m :: k <= m < k + n ==> t[m] != ':' && !IsLineTerminator(t[m])
    ensures StopAt(t, k) == k + n
    decreases n
  {
    if n > 0 {
      StopAtFirst(t, k + 1, n - 1);
    }
  }

  lemma LabelFoundIsMatch(t: string, i: nat, g: string)
    requires i <= |t| && LabelAt(t, i) == Some(g)
    ensures LabelMatchAt(t, i, g)
  {
    var j := StopAt(t, i + 5);
    assert g == t[i + 5..j];
    assert ':' !in g by {
      forall m | 0 <= m < |g| ensures g[m] != ':' {
        assert g[m] == t[i + 5 + m];
      }
    }
    assert forall m :: 0 <= m < |g| ==> !IsLineTerminator(g[m]) by {
      forall m | 0 <= m < |g| ensures !IsLineTerminator(g[m]) {
        assert g[m] == t[i + 5 + m];
      }
    }
    var pat := EditPrefix + g + ":";
    assert t[i..i + |pat|] == t[i..i + 5] + t[i + 5..j] + [t[j]];
  }

  /** The scan finds the leftmost match of the pattern, or reports none. */
  lemma {:induction false} TitleLabelFromIsLeftmost(t: string, from: nat)
    requires from <= |t|
    requires NoLabelMatchBefore(t, from)
    ensures TitleLabelFrom(t, from).None? ==> NoLabelMatchBefore(t, |t| + 1)
    ensures TitleLabelFrom(t, from).Some? ==>
      exists i :: from <= i <= |t| && NoLabelMatchBefore(t, i) && LabelMatchAt(t, i, TitleLabelFrom(t, from).value)
    decreases |t| - from
  {
    match LabelAt(t, from)
    case Some(g) =>
      LabelFoundIsMatch(t, from, g);
    case None =>
      forall g | LabelMatchAt(t, from, g) ensures false {
        LabelMatchIsFound(t, from, g);
      }
      if from < |t| {
        TitleLabelFromIsLeftmost(t, from + 1);
      }
  }

  /** The task label is the group of the leftmost match of `Edit (.*?):`,
   *  and there is none when the title holds no match. */
  lemma TitleLabelIsLeftmostMatch(t: string)
    ensures TitleLabel(t).None? <==> NoLabelMatchBefore(t, |t| + 1)
    ensures TitleLabel(t).Some? ==>
      exists i :: NoLabelMatchBefore(t, i) && LabelMatchAt(t, i, TitleLabel(t).value)
  {
    TitleLabelFromIsLeftmost(t, 0);
    if TitleLabel(t).Some? {
      var i :| 0 <= i <= |t| && NoLabelMatchBefore(t, i) && LabelMatchAt(t, i, TitleLabel(t).value);
      assert !NoLabelMatchBefore(t, |t| + 1);
    }
  }

  // ----- Task rows: the value ---------------------------------------------

  /** The first line terminator at or after `k`, or the end. */
  function LineEnd(s: string, k: nat): (e: nat)
    requires k <= |s|
    ensures k <= e <= |s|
    ensures forall m :: k <= m < e ==> !IsLineTerminator(s[m])
    ensures e < |s| ==> IsLineTerminator(s[e])
    decreases |s| - k
  {
    if k == |s| || IsLineTerminator(s[k]) then k else LineEnd(s, k + 1)
  }

  /** `s.replace(/Edit .*\/, '')`: the first "Edit " and the rest of its line go. */
  function CutEditNoise(s: string): (r: string)
    ensures !Contains(s, EditPrefix) ==> r == s
    ensures Contains(s, EditPrefix) ==> |r| < |s|
  {
    match IndexOf(s, EditPrefix)
    case None => s
    case Some(i) => s[..i] + s[LineEnd(s, i + 5)..]
  }

  /** On one line, the cut keeps exactly the text before the first "Edit ". */
  lemma CutEditNoiseOneLine(s: string, i: nat)
    requires OccursAt(s, EditPrefix, i) && forall j :: 0 <= j < i ==> !OccursAt(s, EditPrefix, j)
    requires forall m :: 0 <= m < |s| ==> !IsLineTerminator(s[m])
    ensures CutEditNoise(s) == s[..i]
  {
    assert IndexOf(s, EditPrefix) == Some(i);
    assert LineEnd(s, i + 5) == |s|;
  }

  /** `/Edit .*\/` matches from `i` to `e`: "Edit " at `i`, then the greedy
   *  `.*` takes every character up to the next line terminator or the end. */
  ghost predicate EditNoiseAt(s: string, i: int, e: int) {
    && OccursAt(s, EditPrefix, i)
    && i + 5 <= e <= |s|
    && (forall m :: i + 5 <= m < e ==> !IsLineTerminator(s[m]))
    && (e == |s| || IsLineTerminator(s[e]))
  }

  /** At the leftmost "Edit " the pattern has exactly one match, and the cut
   *  removes exactly that match. */
  lemma CutEditNoiseRemovesMatch(s: string, i: nat)
    requires OccursAt(s, EditPrefix, i) && forall j :: 0 <= j < i ==> !OccursAt(s, EditPrefix, j)
    ensures exists e :: EditNoiseAt(s, i, e)
    ensures forall e :: EditNoiseAt(s, i, e) ==> CutEditNoise(s) == s[..i] + s[e..]
  {
    assert IndexOf(s, EditPrefix) == Some(i);
    var e := LineEnd(s, i + 5);
    assert EditNoiseAt(s, i, e);
    forall e' | EditNoiseAt(s, i, e') ensures e' == e {
    }
  }

  /** The value of a task cell: the output element's text if there is one,
   *  else the cell text without the title, cut at "Edit " and trimmed. */
  function TaskValue(cell: ListCell, title: string): (r: string)
    ensures Trim(r) == r
    ensures r == [] || (!IsSpace(r[0]) && !IsSpace(r[|r| - 1]))
  {
    var raw := if cell.output.Some? then cell.output.value else CutEditNoise(Trim(RemoveFirst(cell.text, title)));
    TrimEnds(raw);
    TrimIdempotent(raw);
    Trim(raw)
  }

  /** Without an output element, the first occurrence of the title is removed
   *  from the cell text, the rest is trimmed, cut at its first "Edit " match
   *  and trimmed again. */
  lemma TaskValueFromText(cell: ListCell, title: string, i: nat)
    requires cell.output.None?
    requires OccursAt(cell.text, title, i) && forall j :: 0 <= j < i ==> !OccursAt(cell.text, title, j)
    ensures TaskValue(cell, title) == Trim(CutEditNoise(Trim(cell.text[..i] + cell.text[i + |title|..])))
  {
  }

  /** The two remaining cases: an output element gives its trimmed text, and a
   *  title absent from the cell text leaves the text as it is before the cut. */
  lemma TaskValueCases(cell: ListCell, title: string)
    ensures cell.output.Some? ==> TaskValue(cell, title) == Trim(cell.output.value)
    ensures cell.output.None? && !Contains(cell.text, title) ==>
      TaskValue(cell, title) == Trim(CutEditNoise(Trim(cell.text)))
  {
  }

  /** The (label, value) a task cell contributes, if any. */
  function TaskEntry(cell: ListCell): (r: Option<(string, string)>)
    ensures r.Some? <==>
      && FirstEditTitle(cell.buttonTitles).Some?
      && TitleLabel(FirstEditTitle(cell.buttonTitles).value).Some?
      && Trim(TitleLabel(FirstEditTitle(cell.buttonTitles).value).value) != ""
    ensures r.Some? ==> r.value.0 == Trim(TitleLabel(FirstEditTitle(cell.buttonTitles).value).value)
    ensures r.Some? ==> r.value.0 != "" && Trim(r.value.0) == r.value.0 && Trim(r.value.1) == r.value.1
    ensures r.Some? ==> r.value.1 == TaskValue(cell, FirstEditTitle(cell.buttonTitles).value)
  {
    match FirstEditTitle(cell.buttonTitles)
    case None => None
    case Some(title) =>
      match TitleLabel(title)
      case None => None
      case Some(g) =>
        TrimIdempotent(g);
        if Trim(g) != "" then Some((Trim(g), TaskValue(cell, title))) else None
  }

  function TaskStep(raw: Record, cell: ListCell): Record {
    match TaskEntry(cell)
    case None => raw
    case Some((l, v)) => raw[l := Str(v)]
  }

  function TaskRowFields(cells: seq<ListCell>): Record
    decreases |cells|
  {
    if |cells| == 0 then map[] else TaskStep(TaskRowFields(cells[..|cells| - 1]), cells[|cells| - 1])
  }

  /** `if (!recordId) { link = ...; if (link) recordId = link's data-recordid }`. */
  function IdStep(id: Option<string>, cell: ListCell): Option<string> {
    if !TruthyText(id) && cell.recordIdLink.Some? then cell.recordIdLink else id
  }

  function TaskRowId(rowKey: Option<string>, cells: seq<ListCell>): Option<string>
    decreases |cells|
  {
    if |cells| == 0 then rowKey else IdStep(TaskRowId(rowKey, cells[..|cells| - 1]), cells[|cells| - 1])
  }

  // ----- Whole rows ---------------------------------------------------------

  function RowFields(obj: string, row: ListRow): Record {
    if obj == "Task" then TaskRowFields(row.cells) else StandardRowFields(row.cells)
  }

  function RowId(obj: string, row: ListRow): Option<string> {
    if obj == "Task" then TaskRowId(row.rowKey, row.cells) else row.rowKey
  }

  function MapStep(raw: Record, mapped: Record, entry: (string, string)): Record {
    if entry.0 in raw then mapped[entry.1 := raw[entry.0]] else mapped
  }

  /** `Object.entries(fieldMap).forEach(...)`: the field map in its order. */
  function MapFields(fm: FieldMap, raw: Record): Record
    decreases |fm|
  {
    if |fm| == 0 then map[] else MapStep(raw, MapFields(fm[..|fm| - 1], raw), fm[|fm| - 1])
  }

  /** The record of one row. */
  function ListRecord(obj: string, fm: FieldMap, schema: seq<string>, row: ListRow, now: int): Record {
    Normalized(obj, MapFields(fm, RowFields(obj, row)), schema, RowId(obj, row), now)
  }

  // ----- The imperative extractor -------------------------------------------

  /** The task-row `forEach` callback, its label/value part. */
  method ReadTaskEntry(raw: Record, cell: ListCell) returns (raw': Record)
    ensures raw' == TaskStep(raw, cell)
  {
    raw' := raw;
    var title := FirstEditTitle(cell.buttonTitles);
    if title.None? {
      return;
    }
    var m := TitleLabel(title.value);
    if m.None? {
      return;
    }
    var fieldLabel := Trim(m.value);
    var value := ReadTaskValue(cell, title.value);
    if fieldLabel != "" {
      assert TaskEntry(cell) == Some((fieldLabel, value));
      raw' := raw'[fieldLabel := Str(value)];
    }
  }

  /** The value of a task cell, as the callback computes it. */
  method ReadTaskValue(cell: ListCell, title: string) returns (value: string)
    ensures value == TaskValue(cell, title)
  {
    if cell.output.Some? {
      value := Trim(cell.output.value);
    } else {
      value := Trim(RemoveFirst(cell.text, title));
    }
    if cell.output.None? {
      value := Trim(CutEditNoise(value));
    }
  }

  /** The task-row `forEach` callback, its id part. */
  method ReadTaskId(id: Option<string>, cell: ListCell) returns (id': Option<string>)
    ensures id' == IdStep(id, cell)
  {
    id' := id;
    if !TruthyText(id') {
      if cell.recordIdLink.Some? {
        id' := cell.recordIdLink;
      }
    }
  }

  /** The raw fields and the id of one row. */
  method ReadRow(obj: string, row: ListRow) returns (raw: Record, id: Option<string>)
    ensures raw == RowFields(obj, row) && id == RowId(obj, row)
  {
    raw := map[];
    id := row.rowKey;
    var cells := row.cells;
    var i := 0;
    if obj == "Task" {
      while i < |cells|
        invariant 0 <= i <= |cells|
        invariant raw == TaskRowFields(cells[..i]) && id == TaskRowId(row.rowKey, cells[..i])
      {
        assert cells[..i + 1][..i] == cells[..i];
        raw := ReadTaskEntry(raw, cells[i]);
        id := ReadTaskId(id, cells[i]);
        i := i + 1;
      }
    } else {
      while i < |cells|
        invariant 0 <= i <= |cells|
        invariant raw == StandardRowFields(cells[..i])
      {
        assert cells[..i + 1][..i] == cells[..i];
        var dataLabel := cells[i].dataLabel;
        if TruthyText(dataLabel) {
          raw := raw[dataLabel.value := CellValue(cells[i].text)];
        }
        i := i + 1;
      }
    }
    assert cells[..i] == cells;
  }

  method MapRow(fm: FieldMap, raw: Record) returns (mapped: Record)
    ensures mapped == MapFields(fm, raw)
  {
    mapped := map[];
    var i := 0;
    while i < |fm|
      invariant 0 <= i <= |fm|
      invariant mapped == MapFields(fm[..i], raw)
    {
      assert fm[..i + 1][..i] == fm[..i];
      var fieldLabel := fm[i].0;
      var key := fm[i].1;
      if fieldLabel in raw {
        mapped := mapped[key := raw[fieldLabel]];
      }
      i := i + 1;
    }
    assert fm[..i] == fm;
  }

  method ExtractRow(obj: string, fm: FieldMap, schema: seq<string>, row: ListRow, now: int) returns (rec: Record)
    ensures rec == ListRecord(obj, fm, schema, row, now)
  {
    var raw, id := ReadRow(obj, row);
    var mapped := MapRow(fm, raw);
    rec := NormalizeRecord(obj, mapped, schema, id, now);
  }

  /** `extractListView`, once rows have appeared: one record per row, in
   *  row order. */
  method ExtractListView(obj: string, fm: FieldMap, schema: seq<string>, rows: seq<ListRow>, now: int)
    returns (records: seq<Record>)
    ensures |records| == |rows|
    ensures forall i :: 0 <= i < |rows| ==> records[i] == ListRecord(obj, fm, schema, rows[i], now)
  {
    records := [];
    var i := 0;
    while i < |rows|
      invariant 0 <= i <= |rows|
      invariant |records| == i
      invariant forall j :: 0 <= j < i ==> records[j] == ListRecord(obj, fm, schema, rows[j], now)
    {
      var rec := ExtractRow(obj, fm, schema, rows[i], now);
      records := records + [rec];
      i := i + 1;
    }
  }

  // ----- Properties -----------------------------------------------------------

  /** In a standard row the last cell carrying a label decides its value:
   *  the trimmed text, or `null` when that is empty. */
  lemma {:induction false} LastLabelledCellWins(cells: seq<ListCell>, l: string, i: nat)
    requires i < |cells| && cells[i].dataLabel == Some(l) && l != ""
    requires forall j :: i < j < |cells| ==> cells[j].dataLabel != Some(l)
    ensures l in StandardRowFields(cells)
    ensures StandardRowFields(cells)[l] == CellValue(cells[i].text)
    decreases |cells|
  {
    if i < |cells| - 1 {
      LastLabelledCellWins(cells[..|cells| - 1], l, i);
    }
  }

  /** A standard row's fields are named by its cells' non-empty labels only. */
  lemma {:induction false} StandardKeysAreLabels(cells: seq<ListCell>)
    ensures forall l :: l in StandardRowFields(cells) ==>
      l != "" && exists i :: 0 <= i < |cells| && cells[i].dataLabel == Some(l)
    decreases |cells|
  {
    if |cells| > 0 {
      var init := cells[..|cells| - 1];
      StandardKeysAreLabels(init);
      forall l | l in StandardRowFields(cells)
        ensures l != "" && exists i :: 0 <= i < |cells| && cells[i].dataLabel == Some(l)
      {
        if l in StandardRowFields(init) && cells[|cells| - 1].dataLabel != Some(l) {
          var i :| 0 <= i < |init| && init[i].dataLabel == Some(l);
          assert cells[i] == init[i];
        }
      }
    }
  }

  /** Field-map entries apply in map order: the last entry for a key whose
   *  label the row has decides the key's value, `null` included. */
  lemma {:induction false} LastAliasWins(fm: FieldMap, raw: Record, key: string, i: nat)
    requires i < |fm| && fm[i].1 == key && fm[i].0 in raw
    requires forall j :: i < j < |fm| ==> fm[j].1 != key || fm[j].0 !in raw
    ensures key in MapFields(fm, raw) && MapFields(fm, raw)[key] == raw[fm[i].0]
    decreases |fm|
  {
    if i < |fm| - 1 {
      LastAliasWins(fm[..|fm| - 1], raw, key, i);
    }
  }

  /** A key none of whose labels the row has stays out of the mapped fields. */
  lemma {:induction false} UnmatchedKeyAbsent(fm: FieldMap, raw: Record, key: string)
    requires forall j :: 0 <= j < |fm| ==> fm[j].1 != key || fm[j].0 !in raw
    ensures key !in MapFields(fm, raw)
    decreases |fm|
  {
    if |fm| > 0 {
      UnmatchedKeyAbsent(fm[..|fm| - 1], raw, key);
    }
  }

  /** A task row's raw fields are named by non-empty, trimmed labels, each
   *  the label some cell's edit-button title carries. */
  lemma TaskKeysAreLabels(cells: seq<ListCell>)
    ensures forall l :: l in TaskRowFields(cells) ==>
      l != "" && Trim(l) == l
      && exists i :: 0 <= i < |cells| && TaskEntry(cells[i]).Some? && TaskEntry(cells[i]).value.0 == l
  {
    TaskKeysComeFromCells(cells);
    forall l | l in TaskRowFields(cells) ensures l != "" && Trim(l) == l {
      var i :| 0 <= i < |cells| && TaskEntry(cells[i]).Some? && TaskEntry(cells[i]).value.0 == l;
    }
  }

  lemma {:induction false} TaskKeysComeFromCells(cells: seq<ListCell>)
    ensures forall l :: l in TaskRowFields(cells) ==>
      exists i :: 0 <= i < |cells| && TaskEntry(cells[i]).Some? && TaskEntry(cells[i]).value.0 == l
    decreases |cells|
  {
    if |cells| > 0 {
      var init := cells[..|cells| - 1];
      var last := cells[|cells| - 1];
      TaskKeysComeFromCells(init);
      forall l | l in TaskRowFields(cells)
        ensures exists i :: 0 <= i < |cells| && TaskEntry(cells[i]).Some? && TaskEntry(cells[i]).value.0 == l
      {
        TaskStepKeys(TaskRowFields(init), last, l);
        if !(TaskEntry(last).Some? && TaskEntry(last).value.0 == l) {
          var i :| 0 <= i < |init| && TaskEntry(init[i]).Some? && TaskEntry(init[i]).value.0 == l;
          assert cells[i] == init[i];
        }
      }
    }
  }

  /** One cell adds at most its own label. */
  lemma TaskStepKeys(raw: Record, cell: ListCell, l: string)
    ensures l in TaskStep(raw, cell) ==> l in raw || (TaskEntry(cell).Some? && TaskEntry(cell).value.0 == l)
  {
  }

  /** In a task row the last cell whose title names a label decides its value. */
  lemma {:induction false} LastTaskCellWins(cells: seq<ListCell>, l: string, i: nat)
    requires i < |cells| && TaskEntry(cells[i]).Some? && TaskEntry(cells[i]).value.0 == l
    requires forall j :: i < j < |cells| ==> TaskEntry(cells[j]).None? || TaskEntry(cells[j]).value.0 != l
    ensures l in TaskRowFields(cells)
    ensures TaskRowFields(cells)[l] == Str(TaskEntry(cells[i]).value.1)
    decreases |cells|
  {
    if i < |cells| - 1 {
      LastTaskCellWins(cells[..|cells| - 1], l, i);
    }
  }

  /** A truthy row key is never replaced. */
  lemma {:induction false} TruthyRowKeyKept(rowKey: Option<string>, cells: seq<ListCell>)
    requires TruthyText(rowKey)
    ensures TaskRowId(rowKey, cells) == rowKey
    decreases |cells|
  {
    if |cells| > 0 {
      TruthyRowKeyKept(rowKey, cells[..|cells| - 1]);
    }
  }

  /** While the id stays falsy every cell's link is consulted; the first
   *  truthy `data-recordid` sticks. */
  lemma {:induction false} FirstTruthyLinkWins(rowKey: Option<string>, cells: seq<ListCell>, i: nat)
    requires !TruthyText(rowKey)
    requires i < |cells| && TruthyText(cells[i].recordIdLink)
    requires forall j :: 0 <= j < i ==> !TruthyText(cells[j].recordIdLink)
    ensures TaskRowId(rowKey, cells) == cells[i].recordIdLink
    decreases |cells|
  {
    var init := cells[..|cells| - 1];
    if i < |cells| - 1 {
      assert init[i] == cells[i];
      assert forall j :: 0 <= j < i ==> init[j] == cells[j];
      FirstTruthyLinkWins(rowKey, init, i);
    } else {
      assert forall j :: 0 <= j < |init| ==> !TruthyText(init[j].recordIdLink) by {
        assert forall j :: 0 <= j < |init| ==> init[j] == cells[j];
      }
      NoTruthyLinkStaysFalsy(rowKey, init);
    }
  }

  /** Without a truthy row key or link, the id stays falsy. */
  lemma {:induction false} NoTruthyLinkStaysFalsy(rowKey: Option<string>, cells: seq<ListCell>)
    requires !TruthyText(rowKey)
    requires forall j :: 0 <= j < |cells| ==> !TruthyText(cells[j].recordIdLink)
    ensures !TruthyText(TaskRowId(rowKey, cells))
    decreases |cells|
  {
    if |cells| > 0 {
      var init := cells[..|cells| - 1];
      assert forall j :: 0 <= j < |init| ==> init[j] == cells[j];
      NoTruthyLinkStaysFalsy(rowKey, init);
    }
  }
}
