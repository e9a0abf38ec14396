# Salesforce Lightning record extractor — a Dafny model

This project models the core of a browser extension that reads records out of
Salesforce Lightning pages. It covers four parts of that core:

- **Three extraction strategies.**
  - Record view: two passes over the layout items, modern first and legacy second.
  - List view: table rows, with a special path for task rows whose labels come from inline-edit button titles.
  - Pipeline (Kanban) board: one record per card, with the stage taken from the column header.
- **What the strategies need.**
  - The static label-to-key field maps and object schemas.
  - The page-context classifier.
  - The readiness waiters and the Details-tab activation.
- **The popup's data hook.** Its initial state, its storage listeners and `deleteRecord`.
- **The popup list.** The search filter and the grouping of records by a field.

The page is data: each extractor receives what the DOM queries would return, and
the current time and the location arrive as parameters. JavaScript values are
`Value = Str | Null | Num`, and a record is a `map<string, Value>`. A missing key
stands for `undefined`.

Each extractor is written as a `method` with the loops of the source, and is
proved equal to a specification function. Its properties are lemmas about
that function. The four regular expressions of the core are hand-written
scanners, each proved against a declarative description of what the pattern
matches, leftmost match first:

- `\/lightning\/(r|o)\/([^/]+)\/`
- `/Edit (.*?):/`
- `/Edit .*/`
- `\/([a-zA-Z0-9]{15,18})(\/|$)`

The data hook is a class whose fields are the hook's two state cells, plus the
last state it wrote to storage.

Modules, one per file:

| module | file | models |
|---|---|---|
| `Wrappers`, `Text` | text.dfy | `Option`; `trim`, `split`, `indexOf`, `includes`, ASCII `toLowerCase`, `String(n)`; `join`, which the extension never calls, only as the inverse of `split` in `SplitJoin` and `JoinSplit` |
| `JsValues`, `Seqs` | values.dfy | JavaScript values, truthiness, `String(v)`; `filter` |
| `Constants` | constants.dfy | `FIELD_MAPPINGS`, `OBJECT_SCHEMAS` |
| `Normalize` | normalize.dfy | schema projection, id attachment |
| `PageContext` | page_context.dfy | `getPageContext` |
| `Waiters` | waiters.dfy | `waitForListViewRows`, `waitForKanbanBoard`, `waitForRecordLayout` |
| `DetailsTab` | details_tab.dfy | `activateDetailsTab` |
| `RecordView` | record_view.dfy | `extractRecord` |
| `ListView` | list_view.dfy | `extractListView` |
| `Kanban` | kanban.dfy | `extractKanbanBoard` |
| `SalesforceData` | salesforce_data.dfy | `useSalesforceData` |
| `DataList` | data_list.dfy | `filteredData`, `groupedData` |

## Model

| member | source | states |
|---|---|---|
| Constants.SameFiveKinds | content/constants.js:1-92 | the field maps and the schemas both know exactly Lead, Contact, Account, Opportunity and Task |
| Constants.TablesConsistent | content/constants.js:1-92 | for every kind: labels are unique; every key a label maps to is in the schema; every schema key is produced by some label; no schema key repeats; no schema has `id` |
| Constants.LeadTablesAgree | content/constants.js:2-16 | the Lead map and the Lead schema agree as above |
| Constants.LeadLabelsUnique | content/constants.js:2-16 | no Lead label occurs twice |
| Constants.LeadSchemaAgrees | content/constants.js:72-75 | the Lead schema is exactly the set of keys the Lead map produces, without repeats or `id` |
| Constants.LeadKeysUnique | content/constants.js:72-75 | the Lead schema has no repeated key and no `id` |
| Constants.LeadKeysInSchema | content/constants.js:2-16 | every Lead key the map produces is a Lead schema key |
| Constants.ContactTablesAgree | content/constants.js:17-31 | the Contact map and the Contact schema agree |
| Constants.ContactLabelsUnique | content/constants.js:17-31 | no Contact label occurs twice |
| Constants.ContactSchemaAgrees | content/constants.js:76-79 | the Contact schema is exactly the set of keys the Contact map produces |
| Constants.ContactKeysUnique | content/constants.js:76-79 | the Contact schema has no repeated key and no `id` |
| Constants.ContactKeysInSchema | content/constants.js:17-31 | every Contact key the map produces is a Contact schema key |
| Constants.AccountTablesAgree | content/constants.js:32-43 | the Account map and the Account schema agree |
| Constants.AccountLabelsUnique | content/constants.js:32-43 | no Account label occurs twice |
| Constants.AccountSchemaAgrees | content/constants.js:80-83 | the Account schema is exactly the set of keys the Account map produces |
| Constants.AccountKeysUnique | content/constants.js:80-83 | the Account schema has no repeated key and no `id` |
| Constants.AccountKeysInSchema | content/constants.js:32-43 | every Account key the map produces is an Account schema key |
| Constants.OpportunityTablesAgree | content/constants.js:44-58 | the Opportunity map and the Opportunity schema agree |
| Constants.OpportunityLabelsUnique | content/constants.js:44-58 | no Opportunity label occurs twice |
| Constants.OpportunitySchemaAgrees | content/constants.js:84-88 | the Opportunity schema is exactly the set of keys the Opportunity map produces |
| Constants.OpportunityKeysUnique | content/constants.js:84-88 | the Opportunity schema has no repeated key and no `id` |
| Constants.OpportunityKeysInSchema | content/constants.js:44-58 | every Opportunity key the map produces is an Opportunity schema key |
| Constants.TaskTablesAgree | content/constants.js:59-68 | the Task map and the Task schema agree |
| Constants.TaskLabelsUnique | content/constants.js:59-68 | no Task label occurs twice |
| Constants.TaskSchemaAgrees | content/constants.js:89-92 | the Task schema is exactly the set of keys the Task map produces |
| Constants.TaskKeysUnique | content/constants.js:89-92 | the Task schema has no repeated key and no `id` |
| Constants.TaskKeysInSchema | content/constants.js:59-68 | every Task key the map produces is a Task schema key |
| Constants.Lookup | content/extractors.js:27 | `fieldMap[label]` is undefined exactly when no entry carries the label |
| Constants.LookupAt | content/extractors.js:27 | the lookup yields the key of the first entry carrying the label |
| Constants.LookupProduces | content/extractors.js:27 | a key the lookup returns is one the map produces |
| Constants.LeadNameAliases | content/constants.js:3-5 | "Name", "Lead Name" and "Lead Full Name" all map to `name` |
| Constants.OwnerAliases | content/constants.js:14 | "Owner" maps to each kind's own owner key (lines 14, 28, 40, 54); Task has no "Owner" label |
| Normalize.Project | content/extractors.js:67-70 | the projection has exactly the schema keys, each holding the collected value or `null` |
| Normalize.WriteSchemaFields | content/extractors.js:154-156 | the schema loop writes the projection over what the record already holds |
| Normalize.AttachId | content/extractors.js:72-75 | `id` is set to the page's id exactly when the record has no truthy `id` and the page's id is truthy; no other key changes |
| Normalize.NormalizeRecord | content/extractors.js:144-163 | the shared normalisation: `object`, then the schema loop, then the id guard, then `extractedAt` |
| Normalize.NormalizedShape | content/extractors.js:244-261 | a normalised record holds `extractedAt`; its only keys are schema keys, `object`, `extractedAt` and `id`; every other schema key holds its collected value or `null`; with no `id` in the schema, the record has an `id` exactly when the page gave a truthy one |
| Normalize.ProjectIdempotent | content/extractors.js:154-156 | projecting twice is projecting once |
| Normalize.ProjectIgnoresOtherKeys | content/extractors.js:154-156 | a collected value outside the schema has no effect on the record |
| Normalize.SchemaWithoutIdTakesPageId | content/extractors.js:158-161 | with no `id` in the schema, the guard always falls through to the page's id |
| PageContext.MatchAtIff | content/utils.js:9 | the scanner at one index matches exactly when the pattern `/lightning/(r\|o)/<seg>/` stands there |
| PageContext.FirstMatchIsLeftmost | content/utils.js:9 | the scanner returns the leftmost occurrence, or nothing when there is none |
| PageContext.LeftmostUnique | content/utils.js:9 | there is only one leftmost occurrence |
| PageContext.ContextComesFromFirstOccurrence | content/utils.js:5-29 | with no occurrence there is no context; a context's object kind is the segment of the leftmost occurrence |
| PageContext.RecordMode | content/utils.js:16-18 | after `/lightning/r/<seg>/` the page is a record view of `seg` exactly when the path contains `/view`, and has no context otherwise |
| PageContext.ListingMode | content/utils.js:20-28 | after `/lightning/o/<seg>/` with `/list` or `/home` in the path, it is a board when a column is present and a list otherwise; otherwise no context |
| PageContext.MatchAt | content/utils.js:9 | a match at one index has mode `r` or `o` and a non-empty segment |
| PageContext.FirstMatch | content/utils.js:9 | the first match has mode `r` or `o` and a non-empty segment |
| PageContext.GetPageContext | content/utils.js:5-29 | a context has a non-empty object kind; a record view needs `/view` in the path, a list or board needs `/list` or `/home`; board exactly when the column marker is present, list exactly when it is absent |
| Waiters.ListCheck | content/utils.js:48-59 | a board column means failure with "Detected Kanban instead of List View", even when rows exist; otherwise rows mean success; otherwise keep waiting |
| Waiters.KanbanCheck | content/utils.js:92-96 | success exactly when a column exists; it never fails |
| Waiters.LayoutCheck | content/utils.js:119-124 | success exactly when a modern or a legacy layout item exists; it never fails |
| Waiters.SettleIsFirstDecisive | content/utils.js:61-84 | a waiter settles on the first decisive observed state with that state's verdict, or rejects with the timeout message when no state was decisive |
| Waiters.UndecidedTimesOut | content/utils.js:81-84 | with only undecided states, the outcome is the timer's rejection |
| Waiters.DecisiveStateSettles | content/utils.js:62-76 | the first decisive state decides the outcome |
| Waiters.ListWaiterSettlesAtFirstChange | content/utils.js:43-86 | the list waiter settles at the first state with a column or a row: rejected as a board when a column is present, resolved otherwise |
| Waiters.ListWaiterTimesOut | content/utils.js:81-84 | with no column and no row in any observed state, the list waiter rejects with "List view rows not found" |
| Waiters.KanbanWaiterOutcome | content/utils.js:88-115 | the board waiter rejects exactly when no observed state has a column, and then only with "Kanban board not found"; otherwise it resolves at the first state with a column |
| Waiters.LayoutWaiterOutcome | content/utils.js:117-142 | the layout waiter rejects exactly when no observed state has a layout item, and then only with "Record layout not found"; otherwise it resolves at the first state with one |
| Waiters.SettleFrom | content/utils.js:61-84 | from one observed state on, the waiter resolves only on a successful state and rejects only with a state's error or the timer's message |
| Waiters.Settle | content/utils.js:61-84 | a waiter resolves only on a successful observed state, and rejects only with a state's error or the timer's message |
| Waiters.WaitForListViewRows | content/utils.js:43-86 | the list waiter resolves only on a state with rows and no board column, and rejects only with "Detected Kanban instead of List View" or "List view rows not found" |
| Waiters.WaitForKanbanBoard | content/utils.js:88-115 | the board waiter resolves only on a state with a column, and rejects only with "Kanban board not found" |
| Waiters.WaitForRecordLayout | content/utils.js:117-142 | the layout waiter resolves only on a state with a modern or a legacy item, and rejects only with "Record layout not found" |
| DetailsTab.FindVisible | content/utils.js:163-168 | the index of the first visible match, or none exactly when no match is visible |
| DetailsTab.ActivateDetailsTab | content/utils.js:147-189 | not found exactly when no selector has a visible match; otherwise the tab is the first visible match of the first selector that has one; it is clicked exactly when it is neither `aria-selected="true"` nor inside an `li` with class `slds-is-active` or `active` |
| DetailsTab.FirstVisibleUnique | content/utils.js:159-170 | the tab chosen is unique |
| DetailsTab.EarlierSelectorWins | content/utils.js:151-170 | a visible match of a higher-priority selector always beats every match of a lower one |
| RecordView.RecordIdFromPath | content/extractors.js:62-64 | the id is the part two places after the first part equal to `r` when that index is in range, and none when there is no `r` part |
| RecordView.RecordIdOfRecordAddress | content/extractors.js:61-64 | the address `/lightning/r/<Object>/<Id>/view` yields `<Id>` |
| RecordView.StepWrites | content/extractors.js:18-39 | a visible item with a label and value writes them through `WriteMapped`, whose effect `WriteMappedEffect` states; otherwise the item changes nothing |
| RecordView.WriteMappedEffect | content/extractors.js:27 | a truthy mapped key takes the trimmed value and every other key is unchanged; with no truthy mapped key nothing changes |
| RecordView.PrimaryPairWrites | content/extractors.js:24-28 | in either pass, a visible item with both a field label and a field value writes the trimmed value under the truthy key its trimmed label maps to, and writes nothing otherwise |
| RecordView.StoreMapped | content/extractors.js:25-27 | when the trimmed label maps to a truthy key, that key takes the trimmed value and every other key keeps its presence and value; otherwise nothing changes |
| RecordView.ReadModernItem | content/extractors.js:18-39 | a hidden item changes nothing; a complete primary pair is written through the field map; only when the primary pair is incomplete is a complete slot pair written; with neither complete, nothing changes |
| RecordView.ReadLegacyItem | content/extractors.js:43-58 | a visible item with a complete primary pair is written through the field map; any other item changes nothing |
| RecordView.RunPass | content/extractors.js:17-58 | one `forEach` over the items computes the pass function |
| RecordView.ExtractRecord | content/extractors.js:1-83 | `{object, ...data, url, extractedAt}`, with `data` the schema projection of both passes plus the path's id |
| RecordView.HiddenItemsIgnored | content/extractors.js:19 | a pass over all items equals the pass over the visible ones |
| RecordView.LastWriterWins | content/extractors.js:27 | the last item that writes a key decides its value |
| RecordView.UnwrittenKeyKept | content/extractors.js:18-58 | a key no item writes keeps its earlier value |
| RecordView.LegacyPassWins | content/extractors.js:41-58 | the legacy pass overrides the modern one for every key it writes |
| RecordView.ModernValueStands | content/extractors.js:17-58 | without a legacy writer of a key, the modern value stands |
| RecordView.FallbackOnlyWhenPrimaryIncomplete | content/extractors.js:24-38 | the slot pair is read only when the primary pair is incomplete, and never by the legacy pass |
| RecordView.CollectedKeysFromMap | content/extractors.js:27 | every collected key is one the field map produces, and it holds a string |
| RecordView.ExtractedRecordFixedFields | content/extractors.js:77-82 | `object` is the kind (unless the schema itself has `object`); `url` is the address; `extractedAt` is the time |
| RecordView.ExtractedRecordSchemaFields | content/extractors.js:67-70 | every other schema key holds the collected string or `null` |
| RecordView.ExtractedRecordNoOtherKeys | content/extractors.js:77-82 | no key outside the schema survives except `object`, `url`, `extractedAt` and `id` |
| RecordView.ExtractedRecordId | content/extractors.js:72-75 | with no `id` in the schema, the record has an `id` exactly when the path yields a truthy one |
| RecordView.NothingCollectedIsDropped | content/extractors.js:66-70 | with consistent tables, every collected string reaches the record under its key |
| ListView.CellValue | content/extractors.js:139 | `null` exactly when the trimmed text is empty, and the trimmed text otherwise |
| ListView.FirstEditTitle | content/extractors.js:105 | the first title, in document order, starting with "Edit ", or none when no title does |
| ListView.StopAt | content/extractors.js:108 | the first `:` or line terminator at or after the index |
| ListView.TitleLabelIsLeftmostMatch | content/extractors.js:108 | the label is the group of the leftmost match of `Edit (.*?):`, and there is none exactly when nothing matches |
| ListView.LabelAt | content/extractors.js:108 | a label found at one index holds no ':' and no line terminator |
| ListView.TitleLabelFrom | content/extractors.js:108 | a label found from one index on holds no ':' and no line terminator |
| ListView.TitleLabel | content/extractors.js:108 | the label of `Edit (.*?):` holds no ':' and no line terminator |
| ListView.TaskValue | content/extractors.js:114-120 | a task cell's value is trimmed; `TaskValueCases` and `TaskValueFromText` give it in each case |
| ListView.TaskValueCases | content/extractors.js:114-115 | with an output element the value is its trimmed text; without one, a title absent from the cell text leaves the text to be trimmed, cut at "Edit " and trimmed, as `replace` then changes nothing |
| ListView.TaskEntry | content/extractors.js:105-123 | a cell contributes exactly when it has an edit-button title whose `Edit (.*?):` label is non-empty once trimmed; the label is that trimmed group, non-empty and trimmed, and the value is the trimmed `TaskValue` under the first edit title |
| ListView.LineEnd | content/extractors.js:119 | the first line terminator at or after the index |
| ListView.CutEditNoise | content/extractors.js:119 | text without "Edit " is unchanged, and text with it gets shorter |
| ListView.CutEditNoiseRemovesMatch | content/extractors.js:119 | at the leftmost "Edit " the pattern `/Edit .*/` has exactly one match, running to the next line terminator or the end, and the cut removes exactly that match |
| ListView.CutEditNoiseOneLine | content/extractors.js:119 | on one line, the cut keeps exactly the text before the first "Edit " |
| ListView.ReadTaskEntry | content/extractors.js:105-123 | one task cell adds its `TaskEntry`: the trimmed label of its first edit title, with the value, when that label is non-empty; otherwise the row is unchanged |
| ListView.TaskValueFromText | content/extractors.js:115-120 | without an output element, the value is the cell text with the leftmost occurrence of the title removed, trimmed, cut at its first `/Edit .*/` match and trimmed |
| ListView.ReadTaskValue | content/extractors.js:114-120 | the value is `TaskValue`: the output element's trimmed text, or else the cell text without the title, cut at "Edit " and trimmed |
| ListView.ReadTaskId | content/extractors.js:127-130 | the id is replaced by the cell's `data-recordid` only while it is falsy |
| ListView.ReadRow | content/extractors.js:95-142 | the row's raw fields and id, via the task path or the labelled-cell path |
| ListView.MapRow | content/extractors.js:147-152 | the field map applied entry by entry, in map order |
| ListView.ExtractRow | content/extractors.js:95-164 | the record of one row |
| ListView.ExtractListView | content/extractors.js:85-168 | one record per row, in row order, each the row's normalised record |
| ListView.LastLabelledCellWins | content/extractors.js:136-140 | in a standard row, the last cell with a label decides its value |
| ListView.StandardKeysAreLabels | content/extractors.js:137-139 | a standard row's raw keys are the non-empty labels of its cells |
| ListView.LastAliasWins | content/extractors.js:147-152 | the last map entry for a key whose label the row has decides the key's value, `null` included |
| ListView.UnmatchedKeyAbsent | content/extractors.js:149 | a key none of whose labels the row has is not in the mapped fields |
| ListView.TaskKeysAreLabels | content/extractors.js:105-122 | a task row's raw keys are non-empty trimmed labels, each the label of some cell's edit-button title |
| ListView.TaskKeysComeFromCells | content/extractors.js:105-122 | every raw key of a task row is the label of some cell's edit-button title |
| ListView.LastTaskCellWins | content/extractors.js:102-122 | in a task row, the last cell whose title names a label decides its value |
| ListView.TruthyRowKeyKept | content/extractors.js:97 | a truthy `data-row-key-value` is never replaced |
| ListView.FirstTruthyLinkWins | content/extractors.js:127-130 | without a truthy row key, the first truthy `data-recordid` becomes the id |
| ListView.NoTruthyLinkStaysFalsy | content/extractors.js:127-130 | without a truthy row key or link, the id stays falsy |
| Kanban.IdAt | content/extractors.js:200 | an id found at one index is 15 to 18 characters long |
| Kanban.HrefIdFrom | content/extractors.js:200 | an id found from one index on is 15 to 18 characters long |
| Kanban.HrefIdIsLeftmostMatch | content/extractors.js:200-201 | the href id is the group of the leftmost match of `/([a-zA-Z0-9]{15,18})(/\|$)`, and there is none exactly when nothing matches |
| Kanban.HrefId | content/extractors.js:200-201 | the href id, when there is one, is 15 to 18 characters long (`HrefIdIsLeftmostMatch` states that they are ASCII letters and digits) |
| Kanban.CardId | content/extractors.js:192-207 | no primary link gives no id; a matching href gives the href id; otherwise the link's `data-recordid`, when it has one |
| Kanban.StageName | content/extractors.js:182-183 | the stage is the stage label's trimmed text when there is one, else the column header's trimmed text, and `null` exactly when there is neither |
| Kanban.ReadStage | content/extractors.js:182-183 | the stage read from the column is `StageName`: the trimmed stage label, else the trimmed header, else `null` |
| Kanban.ReadLinks | content/extractors.js:234-242 | every secondary link writes its text under the three relation keys |
| Kanban.ReadCardId | content/extractors.js:192-207 | the card's id, as above |
| Kanban.ReadBaseFields | content/extractors.js:195-212 | the name and, for schema keys `stage` and `status`, the column's stage |
| Kanban.ReadDetailFields | content/extractors.js:214-230 | the detail reads, in source order, leave what `DetailFields` describes; the values they put in the record are stated by `AmountFromCard`, `CloseDateFromCard` and `DueDateFromCard` |
| Kanban.ReadTaskExtras | content/extractors.js:223-230 | a task card's due date, and a subject equal to its non-empty name |
| Kanban.ReadCardFields | content/extractors.js:189-242 | what the card callback collects before normalising |
| Kanban.ExtractCard | content/extractors.js:188-262 | the record of one card |
| Kanban.ColumnRecords | content/extractors.js:186-263 | one record per card of the column |
| Kanban.CardsRecords | content/extractors.js:186-263 | one record per card, the `j`-th being the record of the `j`-th card under the column's stage |
| Kanban.ExtractColumn | content/extractors.js:180-264 | the records of one column's cards, in order, under its stage name |
| Kanban.ExtractKanbanBoard | content/extractors.js:170-267 | the records of the board, column by column and card by card |
| Kanban.OneRecordPerCard | content/extractors.js:180-264 | the board yields exactly one record per card |
| Kanban.StageFromHeader | content/extractors.js:211-212 | a card's record holds its column's stage name under `stage` and under `status`, whenever the schema has that key |
| Kanban.LinksKeepOtherKeys | content/extractors.js:234-242 | the link pass changes no key other than the relation keys |
| Kanban.LastLinkWins | content/extractors.js:235-241 | the last secondary link decides all three relation keys |
| Kanban.PrimaryLinksChangeNothing | content/extractors.js:236 | with no secondary link, nothing changes |
| Kanban.RelationFromLastLink | content/extractors.js:234-253 | in a card's record, each relation key of the schema holds the last secondary link's text |
| Kanban.TaskSubjectIsName | content/extractors.js:229 | on a task board, the subject is the card's non-empty name |
| Kanban.HeadFieldReachesRecord | content/extractors.js:234-253 | a schema key other than the relation keys, `id` and `extractedAt` reaches the record as collected, `null` when nothing was collected |
| Kanban.BaseFieldsValues | content/extractors.js:195-212 | before the detail reads, the fields hold the primary link's trimmed text as the name and nothing under amount, close date or due date |
| Kanban.DetailFieldsValues | content/extractors.js:214-230 | the detail reads write amount and close date from the first present element each, the due date only on a task board, and never the name |
| Kanban.AmountFromCard | content/extractors.js:215-216 | a schema's `amount` is the trimmed deal amount, else the trimmed output number, and `null` when the card shows neither |
| Kanban.CloseDateFromCard | content/extractors.js:219-220 | a schema's `closeDate` is the trimmed deal close date, else the trimmed output date, and `null` when the card shows neither |
| Kanban.DueDateFromCard | content/extractors.js:223-226 | a schema's `dueDate` is the trimmed output date on a task board with one, and `null` otherwise |
| Kanban.NameFromLink | content/extractors.js:195-196 | a schema's `name` is the primary link's trimmed text on every board, and `null` without a primary link |
| SalesforceData.InitialStateShape | src/hooks/useSalesforceData.js:6-13 | five empty record lists and `lastSync` 0, nothing else |
| SalesforceData.InitialState | src/hooks/useSalesforceData.js:6-13 | in the initial state the record lists are exactly the five kinds' entries, and each is empty |
| SalesforceData.DeleteFromState | src/hooks/useSalesforceData.js:38-39 | fails exactly when the kind's entry is missing or not a list; otherwise the same keys, every other entry unchanged, and the kind's list filtered by id |
| SalesforceData.DeleteKeepsExactlyTheOthers | src/hooks/useSalesforceData.js:39 | afterwards the list holds exactly the records whose id differs, in their order and as often as before |
| SalesforceData.DeleteIdempotent | src/hooks/useSalesforceData.js:36-46 | deleting twice is deleting once |
| SalesforceData.DeleteAbsentId | src/hooks/useSalesforceData.js:39 | deleting an id no record has changes nothing |
| SalesforceData.DeleteUndefinedIdRemovesIdless | src/hooks/useSalesforceData.js:39 | deleting with an undefined id removes exactly the records without an id |
| SalesforceData.DataHook.constructor | src/hooks/useSalesforceData.js:6-14 | the hook starts from the initial state, loading, with nothing written |
| SalesforceData.DataHook.OnInitialFetch | src/hooks/useSalesforceData.js:18-23 | a stored state replaces the current one; loading ends either way |
| SalesforceData.DataHook.OnStorageChanged | src/hooks/useSalesforceData.js:26-30 | a local change of the storage key replaces the state with its new value, possibly undefined; other changes are ignored |
| SalesforceData.DataHook.DeleteRecord | src/hooks/useSalesforceData.js:36-46 | succeeds exactly when the kind's entry is a list; then the state and the written value are both the filtered state; otherwise nothing changes |
| DataList.EmptyTermKeepsAll | src/components/DataList.jsx:9 | an empty search term keeps every item |
| DataList.FilterKeepsExactlyTheMatches | src/components/DataList.jsx:10-14 | an item is kept exactly when some value's lowercase string contains the lowercase term; survivors keep their order and their multiplicity |
| DataList.FilteredIsSubsequence | src/components/DataList.jsx:8-16 | whatever the term, the result is an order-preserving subsequence of the data |
| DataList.FilteredData | src/components/DataList.jsx:8-16 | the result is no longer than the data and holds an item exactly when the data does and the term is empty or some value of the item contains it, ignoring ASCII case |
| DataList.GroupedData | src/components/DataList.jsx:18-27 | one group `All` holding everything without a `groupBy`; otherwise the reduce's grouping |
| DataList.GroupKeysInOrder | src/components/DataList.jsx:21-26 | the groups are the keys met, each once, in first-appearance order |
| DataList.GroupIsFilter | src/components/DataList.jsx:22-24 | each group holds exactly the items with its key, in their order |
| DataList.ItemInExactlyOneGroup | src/components/DataList.jsx:22-24 | every item lands in exactly one group, the one of its key |
| DataList.GroupSizesSum | src/components/DataList.jsx:21-26 | the group sizes add up to the number of items |
| DataList.GroupKey | src/components/DataList.jsx:22 | the group name is never empty; a falsy field gives "Uncategorized", and a truthy string field is its own group name |
| DataList.Grouping | src/components/DataList.jsx:21-26 | every group is non-empty, and every item of a group is one of the items with that group's key |
| Text.RemoveFirst | content/extractors.js:115 | `replace` with a string removes exactly the leftmost occurrence, and changes nothing without one |
| Text.TrimEnds | content/extractors.js:25 | a trimmed string starts and ends with no white space |
| Text.TrimIsSlice | content/extractors.js:25 | a trimmed string is a contiguous slice of the original |
| Text.TrimIdempotent | content/extractors.js:25 | trimming twice is trimming once |
| Text.SplitJoin | content/extractors.js:62 | joining on '/' undoes splitting on '/' |
| Text.JoinSplit | content/extractors.js:62 | splitting on '/' undoes joining on '/' when no part holds '/' |
| Text.Trim | content/extractors.js:25 | a trimmed string is never longer than the original |
| Text.TrimRemovesOnlySpace | content/extractors.js:25 | `trim` keeps a slice `s[i..j]` and everything outside it is white space; with `TrimEnds`, the kept slice is the longest one whose ends are not white space |
| Text.Split | content/extractors.js:62 | splitting gives at least one part, and no part holds the separator |
| Text.IndexOf | content/extractors.js:115-119 | the index is found exactly when the string contains the pattern, and it is the leftmost occurrence |
| Text.ToLower | src/components/DataList.jsx:10-13 | lowercasing keeps the length and lowercases each ASCII letter in place |
| Text.NatToStringValue | src/components/DataList.jsx:13 | reading the decimal digits of `String(n)` back gives `n` |
| Text.NatToStringInjective | src/components/DataList.jsx:13 | different numbers have different decimal strings |
| Seqs.FilterSeq | src/components/DataList.jsx:11 | `filter` keeps exactly the items that satisfy the predicate, and is no longer than its input |
| Seqs.FilterSeqOrder | src/components/DataList.jsx:11 | `filter` keeps its items' order and the multiplicity of each kept item |

## Left out

- The orchestration in `content/index.js` is not part of this model. That covers choosing a strategy from the page context and the runtime messaging. Neither are `content/ui.js`, the popup `App`, the service worker or the build configuration. Each reaches the core only through calls the model covers.
- No merge, upsert or locking persistence layer is modelled, because the code has none. The extracted records are sent in a `SAVE_EXTRACTED_DATA` message (content/index.js:48-51) that no handler receives, and the service worker only logs.
- DOM querying is left out. Each extractor receives what its selectors would return. `innerText` and `textContent` are both the element's text.
- `isVisible` is a boolean on each element. Its style and layout tests depend on rendering.
- `MutationObserver`, `setTimeout` and promises are left out.
  - A waiter's run is the sequence of states its check observes before the timer fires.
  - The 10-second timeout, the observer's disconnect and the resolved values (the rows, the columns, `true`) are not modelled.
  - The 300 ms pause after the tab click is not modelled, nor are the console messages.
- `Date.now()`, `location.pathname` and `location.href` are parameters. `ExtractListView` and `ExtractKanbanBoard` stamp every record with the same `now`. The source calls `Date.now()` once per record (content/extractors.js:163, 261), so later records of one extraction can carry later times; the model does not capture that.
- The extractors' guards for a missing waiter function (the `throw` for `typeof … !== 'function'`) are left out. The waiters are always defined in the content script the extractors run in.
- `extractRecord`'s calls to `activateDetailsTab` and `waitForRecordLayout` are modelled separately. `ExtractRecord` is the part after they complete.
- The regex scanners follow the four patterns of the core and nothing more general.
- Case-insensitive search: `toLowerCase` is modelled for ASCII letters only. Unicode case mapping is left out.
- Trim uses the ECMAScript white-space and line-terminator set, with the non-ASCII space characters listed explicitly.
- `String(val)` is modelled for strings, `null` and integers. Floating-point numbers, booleans, nested arrays and objects are not values in this model, since the extractors only store strings and `null`. The `Value` type has no `undefined`: an absent key stands for it.
- Property lookups that reach `Object.prototype` are left out. For example, `fieldMap["constructor"]` or a group key `"toString"` behave like any absent key in the model.
- Group display order: `reduce` inserts into a plain object, whose integer-like keys JavaScript enumerates first. The model states the first-appearance order of keys (`KeyOrder`) and the contents of each group, not the enumeration order.
- `chrome.storage.local.set` is modelled as an assignment to `DataHook.written`. Its asynchronous completion and failure are left out.
- The stored state is assumed to be an object, so `result[STORAGE_KEY]` is truthy whenever present. A stored `null` or other falsy value is not modelled.
- `deleteRecord` reads the `data` of the render it was created in. The model uses the hook's current `data`, which is the same unless a storage event lands between a render and the call.
- `link !== nameEl` compares element identity. The model gives each lookup link an `isNameLink` flag.
- The field map's entries are an ordered sequence, in the order of the object literal. This is the order `Object.entries` visits them. Its labels are unique, as `Constants.TablesConsistent` states.
- Reading and writing the page's data through storage is not modelled.
