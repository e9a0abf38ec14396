/**
 * Pipeline-board extraction (`extractKanbanBoard`). The page is a sequence
 * of columns, each with its header texts and its cards; a card offers the
 * texts (and, for the primary link, the attributes) of the elements the
 * extractor queries. The field map plays no part here: keys are fixed.
 */
module Kanban {
  import opened Wrappers
  import opened Text
  import opened JsValues
  import opened Normalize

  /** The card's primary link, `.primaryDisplayField a`. */
  datatype NameLink = NameLink(text: string, href: Option<string>, dataRecordId: Option<string>)

  /** One `a.forceOutputLookup` of the card; `isNameLink` when it is the
   *  primary link itself. */
  datatype LookupLink = LookupLink(text: string, isNameLink: bool)

  datatype Card = Card(
    nameLink: Option<NameLink>,
    dealAmount: Option<string>,      // `.sfaOpportunityDealMotionAmount`
    outputNumber: Option<string>,    // `.uiOutputNumber`
    dealCloseDate: Option<string>,   // `.sfaOpportunityDealMotionCloseDate .uiOutputDate`
    outputDate: Option<string>,      // first `.uiOutputDate`
    lookupLinks: seq<LookupLink>)

  datatype Column = Column(
    stageLabel: Option<string>,      // `.stageHeaderLabel`
    columnHeader: Option<string>,    // `.runtime_sales_pipelineboardPipelineViewColumnHeader`
    cards: seq<Card>)

  // ----- The record id in the primary link's href ---------------------------

  predicate IsAlnum(c: char) {
    ('a' <= c <= 'z') || ('A' <= c <= 'Z') || ('0' <= c <= '9')
  }

  /** `/<g>` stands at `i`, `g` being 15 to 18 ASCII letters and digits,
   *  followed by '/' or the end: a match of `\/([a-zA-Z0-9]{15,18})(\/|$)`. */
  ghost predicate IdMatchAt(s: string, i: int, g: string) {
    && 15 <= |g| <= 18
    && (forall m :: 0 <= m < |g| ==> IsAlnum(g[m]))
    && OccursAt(s, "/" + g, i)
    && (i + 1 + |g| == |s| || s[i + 1 + |g|] == '/')
  }

  ghost predicate NoIdMatchBefore(s: string, i: int) {
    forall j, g :: 0 <= j < i ==> !IdMatchAt(s, j, g)
  }

  /** Length of the run of letters and digits starting at `i`. */
  function AlnumRun(s: string, i: nat): (n: nat)
    requires i <= |s|
    ensures i + n <= |s|
    ensures forall m :: i <= m < i + n ==> IsAlnum(s[m])
    ensures i + n == |s| || !IsAlnum(s[i + n])
    decreases |s| - i
  {
    if i == |s| || !IsAlnum(s[i]) then 0 else 1 + AlnumRun(s, i + 1)
  }

  /** The pattern tried at `i`: the run after the slash must be 15 to 18 long
   *  and end at a slash or the end, since a longer run leaves a letter or
   *  digit where the pattern wants `\/|$`. */
  function IdAt(s: string, i: nat): (r: Option<string>)
    requires i <= |s|
    ensures r.Some? ==> 15 <= |r.value| <= 18
  {
    if i < |s| && s[i] == '/' then
      var n := AlnumRun(s, i + 1);
      if 15 <= n <= 18 && (i + 1 + n == |s| || s[i + 1 + n] == '/') then Some(s[i + 1..i + 1 + n]) else None
    else None
  }

  function HrefIdFrom(s: string, from: nat): (r: Option<string>)
    requires from <= |s|
    ensures r.Some? ==> 15 <= |r.value| <= 18
    decreases |s| - from
  {
    if IdAt(s, from).Some? then IdAt(s, from)
    else if from == |s| then None
    else HrefIdFrom(s, from + 1)
  }

  /** `href.match(/\/([a-zA-Z0-9]{15,18})(\/|$)/)[1]`, `None` without a match. */
  function HrefId(s: string): (r: Option<string>)
    ensures r.Some? ==> 15 <= |r.value| <= 18
  {
    HrefIdFrom(s, 0)
  }

  lemma RunEndsAtNonAlnum(s: string, i: nat, n: nat)
    requires i + n <= |s|
    requires forall m :: i <= m < i + n ==> IsAlnum(s[m])
    requires i + n == |s| || !IsAlnum(s[i + n])
    ensures AlnumRun(s, i) == n
    decreases n
  {
    if n > 0 {
      RunEndsAtNonAlnum(s, i + 1, n - 1);
    }
  }

  lemma IdMatchIsFound(s: string, i: nat, g: string)
    requires i <= |s| && IdMatchAt(s, i, g)
    ensures IdAt(s, i) == Some(g)
  {
    var pat := "/" + g;
    var window := s[i..i + |pat|];
    assert window == pat;
    assert s[i] == window[0] == '/';
    forall m | 0 <= m < |g| ensures s[i + 1 + m] == g[m] {
      assert s[i + 1 + m] == window[1 + m] == pat[1 + m];
    }
    RunEndsAtNonAlnum(s, i + 1, |g|);
    assert s[i + 1..i + 1 + |g|] == g;
  }

  lemma IdFoundIsMatch(s: string, i: nat, g: string)
    requires i <= |s| && IdAt(s, i) == Some(g)
    ensures IdMatchAt(s, i, g)
  {
    var n := AlnumRun(s, i + 1);
    assert g == s[i + 1..i + 1 + n];
    forall m | 0 <= m < |g| ensures IsAlnum(g[m]) {
      assert g[m] == s[i + 1 + m];
    }
    assert s[i..i + 1 + n] == [s[i]] + s[i + 1..i + 1 + n];
  }

  lemma {:induction false} HrefIdFromIsLeftmost(s: string, from: nat)
    requires from <= |s|
    requires NoIdMatchBefore(s, from)
    ensures HrefIdFrom(s, from).None? ==> NoIdMatchBefore(s, |s| + 1)
    ensures HrefIdFrom(s, from).Some? ==>
      exists i :: from <= i <= |s| && NoIdMatchBefore(s, i) && IdMatchAt(s, i, HrefIdFrom(s, from).value)
    decreases |s| - from
  {
    match IdAt(s, from)
    case Some(g) =>
      IdFoundIsMatch(s, from, g);
    case None =>
      forall g | IdMatchAt(s, from, g) ensures false {
        IdMatchIsFound(s, from, g);
      }
      if from < |s| {
        HrefIdFromIsLeftmost(s, from + 1);
      }
  }

  /** The href id is the group of the leftmost match, none without a match. */
  lemma HrefIdIsLeftmostMatch(s: string)
    ensures HrefId(s).None? <==> NoIdMatchBefore(s, |s| + 1)
    ensures HrefId(s).Some? ==> exists i :: NoIdMatchBefore(s, i) && IdMatchAt(s, i, HrefId(s).value)
  {
    HrefIdFromIsLeftmost(s, 0);
    if HrefId(s).Some? {
      var i :| 0 <= i <= |s| && NoIdMatchBefore(s, i) && IdMatchAt(s, i, HrefId(s).value);
      assert !NoIdMatchBefore(s, |s| + 1);
    }
  }

  /** The card's record id: the href id, else the link's `data-recordid`
   *  when it has that attribute. */
  function CardId(card: Card): (r: Option<string>)
    ensures card.nameLink.None? ==> r.None?
    ensures card.nameLink.Some? && card.nameLink.value.href.Some? && HrefId(card.nameLink.value.href.value).Some?
      ==> r == HrefId(card.nameLink.value.href.value)
    ensures card.nameLink.Some? && (card.nameLink.value.href.None? || HrefId(card.nameLink.value.href.value).None?)
      ==> r == card.nameLink.value.dataRecordId
  {
    match card.nameLink
    case None => None
    case Some(link) =>
      var fromHref := if link.href.Some? then HrefId(link.href.value) else None;
      if !TruthyText(fromHref) && link.dataRecordId.Some? then link.dataRecordId else fromHref
  }

  // ----- The fields of one card ----------------------------------------------

  function FirstPresent(a: Option<string>, b: Option<string>): Option<string> {
    if a.Some? then a else b
  }

  /** `headerEl ? headerEl.innerText.trim() : null`. */
  function StageName(col: Column): (v: Value)
    ensures FirstPresent(col.stageLabel, col.columnHeader).None? <==> v == Null
    ensures col.stageLabel.Some? ==> v == Str(Trim(col.stageLabel.value))
    ensures col.stageLabel.None? && col.columnHeader.Some? ==> v == Str(Trim(col.columnHeader.value))
  {
    match FirstPresent(col.stageLabel, col.columnHeader)
    case None => Null
    case Some(t) => Str(Trim(t))
  }

  function SetText(ex: Record, key: string, t: Option<string>): Record {
    if t.Some? then ex[key := Str(Trim(t.value))] else ex
  }

  /** The keys every secondary link writes. */
  predicate IsRelationKey(key: string) {
    key == "accountName" || key == "relatedTo" || key == "associatedAccount"
  }

  function LinkStep(ex: Record, link: LookupLink): Record {
    if link.isNameLink then ex
    else ex["accountName" := Str(Trim(link.text))]["relatedTo" := Str(Trim(link.text))]
           ["associatedAccount" := Str(Trim(link.text))]
  }

  function LinkFields(ex: Record, links: seq<LookupLink>): Record
    decreases |links|
  {
    if |links| == 0 then ex else LinkStep(LinkFields(ex, links[..|links| - 1]), links[|links| - 1])
  }

  function TaskExtras(ex: Record, card: Card): Record {
    var e := SetText(ex, "dueDate", card.outputDate);
    if FieldTruthy(e, "name") then e["subject" := e["name"]] else e
  }

  /** The primary link's text and the column's stage, the latter only under
   *  the schema's `stage` and `status` keys. */
  function BaseFields(schema: seq<string>, stage: Value, card: Card): Record {
    var ex0 := if card.nameLink.Some? then map["name" := Str(Trim(card.nameLink.value.text))] else map[];
    var ex1 := if "stage" in schema then ex0["stage" := stage] else ex0;
    if "status" in schema then ex1["status" := stage] else ex1
  }

  /** Amount, close date and, on a task board, due date and subject. */
  function DetailFields(obj: string, ex: Record, card: Card): Record {
    var ex3 := SetText(ex, "amount", FirstPresent(card.dealAmount, card.outputNumber));
    var ex4 := SetText(ex3, "closeDate", FirstPresent(card.dealCloseDate, card.outputDate));
    if obj == "Task" then TaskExtras(ex4, card) else ex4
  }

  /** What the card callback collects before it reads the lookup links. */
  function HeadFields(obj: string, schema: seq<string>, stage: Value, card: Card): Record {
    DetailFields(obj, BaseFields(schema, stage, card), card)
  }

  /** What the card callback collects before normalising. */
  function CardFields(obj: string, schema: seq<string>, stage: Value, card: Card): Record {
    LinkFields(HeadFields(obj, schema, stage, card), card.lookupLinks)
  }

  function CardRecord(obj: string, schema: seq<string>, stage: Value, card: Card, now: int): Record {
    Normalized(obj, CardFields(obj, schema, stage, card), schema, CardId(card), now)
  }

  /** The records of the cards `cards` under the stage `stage`, in card order. */
  function CardsRecords(obj: string, schema: seq<string>, stage: Value, cards: seq<Card>, now: int): (r: seq<Record>)
    ensures |r| == |cards|
    ensures forall j :: 0 <= j < |cards| ==> r[j] == CardRecord(obj, schema, stage, cards[j], now)
    decreases |cards|
  {
    if |cards| == 0 then []
    else CardsRecords(obj, schema, stage, cards[..|cards| - 1], now) + [CardRecord(obj, schema, stage, cards[|cards| - 1], now)]
  }

  lemma CardsRecordsSnoc(obj: string, schema: seq<string>, stage: Value, cards: seq<Card>, k: nat, now: int)
    requires k < |cards|
    ensures CardsRecords(obj, schema, stage, cards[..k + 1], now)
      == CardsRecords(obj, schema, stage, cards[..k], now) + [CardRecord(obj, schema, stage, cards[k], now)]
  {
    assert cards[..k + 1][..k] == cards[..k];
  }

  /** The records of one column's cards, in card order. */
  function ColumnRecords(obj: string, schema: seq<string>, col: Column, now: int): (r: seq<Record>)
    ensures |r| == |col.cards|
  {
    CardsRecords(obj, schema, StageName(col), col.cards, now)
  }

  /** The records of the whole board: column by column, card by card. */
  function BoardRecords(obj: string, schema: seq<string>, cols: seq<Column>, now: int): seq<Record>
    decreases |cols|
  {
    if |cols| == 0 then []
    else
      BoardRecords(obj, schema, cols[..|cols| - 1], now) + ColumnRecords(obj, schema, cols[|cols| - 1], now)
  }

  function TotalCards(cols: seq<Column>): nat
    decreases |cols|
  {
    if |cols| == 0 then 0 else TotalCards(cols[..|cols| - 1]) + |cols[|cols| - 1].cards|
  }

  // ----- The imperative extractor ----------------------------------------------

  method ReadLinks(ex: Record, links: seq<LookupLink>) returns (out: Record)
    ensures out == LinkFields(ex, links)
  {
    out := ex;
    var i := 0;
    while i < |links|
      invariant 0 <= i <= |links|
      invariant out == LinkFields(ex, links[..i])
    {
      assert links[..i + 1][..i] == links[..i];
      if !links[i].isNameLink {
        var t := Trim(links[i].text);
        out := out["accountName" := Str(t)];
        out := out["relatedTo" := Str(t)];
        out := out["associatedAccount" := Str(t)];
      }
      i := i + 1;
    }
    assert links[..i] == links;
  }

  /** The id search on the primary link. */
  method ReadCardId(card: Card) returns (recordId: Option<string>)
    ensures recordId == CardId(card)
  {
    recordId := None;
    if card.nameLink.Some? {
      var link := card.nameLink.value;
      if link.href.Some? {
        var m := HrefId(link.href.value);
        if m.Some? {
          recordId := m;
        }
      }
      if !TruthyText(recordId) && link.dataRecordId.Some? {
        recordId := link.dataRecordId;
      }
    }
  }

  method ReadBaseFields(schema: seq<string>, stage: Value, card: Card) returns (ex: Record)
    ensures ex == BaseFields(schema, stage, card)
  {
    ex := map[];
    if card.nameLink.Some? {
      ex := ex["name" := Str(Trim(card.nameLink.value.text))];
    }
    if "stage" in schema {
      ex := ex["stage" := stage];
    }
    if "status" in schema {
      ex := ex["status" := stage];
    }
  }

  method ReadDetailFields(obj: string, ex0: Record, card: Card) returns (ex: Record)
    ensures ex == DetailFields(obj, ex0, card)
  {
    ex := ex0;
    var amount := if card.dealAmount.Some? then card.dealAmount else card.outputNumber;
    if amount.Some? {
      ex := ex["amount" := Str(Trim(amount.value))];
    }
    var date := if card.dealCloseDate.Some? then card.dealCloseDate else card.outputDate;
    if date.Some? {
      ex := ex["closeDate" := Str(Trim(date.value))];
    }
    if obj == "Task" {
      ex := ReadTaskExtras(ex, card);
    }
  }

  method ReadTaskExtras(ex0: Record, card: Card) returns (ex: Record)
    ensures ex == TaskExtras(ex0, card)
  {
    ex := ex0;
    if card.outputDate.Some? {
      ex := ex["dueDate" := Str(Trim(card.outputDate.value))];
    }
    if FieldTruthy(ex, "name") {
      ex := ex["subject" := ex["name"]];
    }
  }

  /** The card callback up to normalising. */
  method ReadCardFields(obj: string, schema: seq<string>, stage: Value, card: Card) returns (ex: Record)
    ensures ex == CardFields(obj, schema, stage, card)
  {
    ex := ReadBaseFields(schema, stage, card);
    ex := ReadDetailFields(obj, ex, card);
    ex := ReadLinks(ex, card.lookupLinks);
  }

  method ExtractCard(obj: string, schema: seq<string>, stage: Value, card: Card, now: int) returns (rec: Record)
    ensures rec == CardRecord(obj, schema, stage, card, now)
  {
    var recordId := ReadCardId(card);
    var ex := ReadCardFields(obj, schema, stage, card);
    rec := NormalizeRecord(obj, ex, schema, recordId, now);
  }

  /** The column's header text, trimmed, or `null` without a header. */
  method ReadStage(col: Column) returns (stage: Value)
    ensures stage == StageName(col)
  {
    stage := Null;
    if col.stageLabel.Some? {
      stage := Str(Trim(col.stageLabel.value));
    } else if col.columnHeader.Some? {
      stage := Str(Trim(col.columnHeader.value));
    }
  }

  /** The cards of one column, under the column's stage name. */
  method ExtractColumn(obj: string, schema: seq<string>, col: Column, now: int) returns (records: seq<Record>)
    ensures records == ColumnRecords(obj, schema, col, now)
  {
    var stage := ReadStage(col);
    records := [];
    var k := 0;
    while k < |col.cards|
      invariant 0 <= k <= |col.cards|
      invariant records == CardsRecords(obj, schema, stage, col.cards[..k], now)
    {
      CardsRecordsSnoc(obj, schema, stage, col.cards, k, now);
      var rec := ExtractCard(obj, schema, stage, col.cards[k], now);
      records := records + [rec];
      k := k + 1;
    }
    assert col.cards[..k] == col.cards;
  }

  /** `extractKanbanBoard`, once the columns have appeared. */
  method ExtractKanbanBoard(obj: string, schema: seq<string>, cols: seq<Column>, now: int)
    returns (records: seq<Record>)
    ensures records == BoardRecords(obj, schema, cols, now)
  {
    records := [];
    var c := 0;
    while c < |cols|
      invariant 0 <= c <= |cols|
      invariant records == BoardRecords(obj, schema, cols[..c], now)
    {
      assert cols[..c + 1][..c] == cols[..c];
      var recs := ExtractColumn(obj, schema, cols[c], now);
      records := records + recs;
      c := c + 1;
    }
    assert cols[..c] == cols;
  }

  // ----- Properties -------------------------------------------------------------

  /** One record per card. */
  lemma {:induction false} OneRecordPerCard(obj: string, schema: seq<string>, cols: seq<Column>, now: int)
    ensures |BoardRecords(obj, schema, cols, now)| == TotalCards(cols)
    decreases |cols|
  {
    if |cols| > 0 {
      OneRecordPerCard(obj, schema, cols[..|cols| - 1], now);
    }
  }

  /** A card's record takes its column's stage name under `stage` and under
   *  `status`, whenever the schema has that key. */
  lemma StageFromHeader(obj: string, schema: seq<string>, col: Column, card: Card, now: int, key: string)
    requires key == "stage" || key == "status"
    requires key in schema
    ensures key in CardRecord(obj, schema, StageName(col), card, now)
    ensures CardRecord(obj, schema, StageName(col), card, now)[key] == StageName(col)
  {
    var stage := StageName(col);
    var head := HeadFields(obj, schema, stage, card);
    assert key in head && head[key] == stage by {
      var base := BaseFields(schema, stage, card);
      assert key in base && base[key] == stage;
    }
    LinksKeepOtherKeys(head, card.lookupLinks, key);
    NormalizedShape(obj, CardFields(obj, schema, stage, card), schema, CardId(card), now);
  }

  /** A schema key the link pass does not write reaches the record as the
   *  card callback collected it, or `null` when it collected nothing. */
  lemma HeadFieldReachesRecord(obj: string, schema: seq<string>, stage: Value, card: Card, now: int, key: string)
    requires !IsRelationKey(key) && key != "id" && key != "extractedAt"
    requires key in schema
    ensures key in CardRecord(obj, schema, stage, card, now)
    ensures CardRecord(obj, schema, stage, card, now)[key] == ValueOrNull(HeadFields(obj, schema, stage, card), key)
  {
    LinksKeepOtherKeys(HeadFields(obj, schema, stage, card), card.lookupLinks, key);
    NormalizedShape(obj, CardFields(obj, schema, stage, card), schema, CardId(card), now);
  }

  /** What the primary link and the column leave under the detail keys. */
  lemma BaseFieldsValues(schema: seq<string>, stage: Value, card: Card)
    ensures var base := BaseFields(schema, stage, card);
      && "amount" !in base && "closeDate" !in base && "dueDate" !in base
      && ValueOrNull(base, "name") == (if card.nameLink.Some? then Str(Trim(card.nameLink.value.text)) else Null)
  {
  }

  /** What the detail reads write, and that they leave the name alone. */
  lemma DetailFieldsValues(obj: string, ex: Record, card: Card)
    ensures var d := DetailFields(obj, ex, card); var amount := FirstPresent(card.dealAmount, card.outputNumber);
      ValueOrNull(d, "amount") == (if amount.Some? then Str(Trim(amount.value)) else ValueOrNull(ex, "amount"))
    ensures var d := DetailFields(obj, ex, card); var close := FirstPresent(card.dealCloseDate, card.outputDate);
      ValueOrNull(d, "closeDate") == (if close.Some? then Str(Trim(close.value)) else ValueOrNull(ex, "closeDate"))
    ensures ValueOrNull(DetailFields(obj, ex, card), "dueDate")
      == (if obj == "Task" && card.outputDate.Some? then Str(Trim(card.outputDate.value)) else ValueOrNull(ex, "dueDate"))
    ensures ValueOrNull(DetailFields(obj, ex, card), "name") == ValueOrNull(ex, "name")
  {
  }

  /** The amount is the deal amount, else the output number, trimmed;
   *  `null` when the card shows neither. */
  lemma AmountFromCard(obj: string, schema: seq<string>, stage: Value, card: Card, now: int)
    requires "amount" in schema
    ensures "amount" in CardRecord(obj, schema, stage, card, now)
    ensures CardRecord(obj, schema, stage, card, now)["amount"]
      == (if FirstPresent(card.dealAmount, card.outputNumber).Some?
          then Str(Trim(FirstPresent(card.dealAmount, card.outputNumber).value)) else Null)
  {
    HeadFieldReachesRecord(obj, schema, stage, card, now, "amount");
    BaseFieldsValues(schema, stage, card);
    DetailFieldsValues(obj, BaseFields(schema, stage, card), card);
  }

  /** The close date is the deal close date, else the output date, trimmed;
   *  `null` when the card shows neither. */
  lemma CloseDateFromCard(obj: string, schema: seq<string>, stage: Value, card: Card, now: int)
    requires "closeDate" in schema
    ensures "closeDate" in CardRecord(obj, schema, stage, card, now)
    ensures CardRecord(obj, schema, stage, card, now)["closeDate"]
      == (if FirstPresent(card.dealCloseDate, card.outputDate).Some?
          then Str(Trim(FirstPresent(card.dealCloseDate, card.outputDate).value)) else Null)
  {
    HeadFieldReachesRecord(obj, schema, stage, card, now, "closeDate");
    BaseFieldsValues(schema, stage, card);
    DetailFieldsValues(obj, BaseFields(schema, stage, card), card);
  }

  /** On a task board the due date is the output date, trimmed; on any other
   *  board nothing writes it and the record holds `null`. */
  lemma DueDateFromCard(obj: string, schema: seq<string>, stage: Value, card: Card, now: int)
    requires "dueDate" in schema
    ensures "dueDate" in CardRecord(obj, schema, stage, card, now)
    ensures CardRecord(obj, schema, stage, card, now)["dueDate"]
      == (if obj == "Task" && card.outputDate.Some? then Str(Trim(card.outputDate.value)) else Null)
  {
    HeadFieldReachesRecord(obj, schema, stage, card, now, "dueDate");
    BaseFieldsValues(schema, stage, card);
    DetailFieldsValues(obj, BaseFields(schema, stage, card), card);
  }

  /** The name is the primary link's text, trimmed, on every board;
   *  `null` when the card has no primary link. */
  lemma NameFromLink(obj: string, schema: seq<string>, stage: Value, card: Card, now: int)
    requires "name" in schema
    ensures "name" in CardRecord(obj, schema, stage, card, now)
    ensures CardRecord(obj, schema, stage, card, now)["name"]
      == (if card.nameLink.Some? then Str(Trim(card.nameLink.value.text)) else Null)
  {
    HeadFieldReachesRecord(obj, schema, stage, card, now, "name");
    BaseFieldsValues(schema, stage, card);
    DetailFieldsValues(obj, BaseFields(schema, stage, card), card);
  }

  /** The link pass leaves every key but the relation keys alone. */
  lemma {:induction false} LinksKeepOtherKeys(ex: Record, links: seq<LookupLink>, key: string)
    requires !IsRelationKey(key)
    ensures key in LinkFields(ex, links) <==> key in ex
    ensures key in ex ==> LinkFields(ex, links)[key] == ex[key]
    decreases |links|
  {
    if |links| > 0 {
      LinksKeepOtherKeys(ex, links[..|links| - 1], key);
    }
  }

  /** The last secondary link decides all three relation keys. */
  lemma {:induction false} LastLinkWins(ex: Record, links: seq<LookupLink>, i: nat, key: string)
    requires IsRelationKey(key)
    requires i < |links| && !links[i].isNameLink
    requires forall j :: i < j < |links| ==> links[j].isNameLink
    ensures key in LinkFields(ex, links) && LinkFields(ex, links)[key] == Str(Trim(links[i].text))
    decreases |links|
  {
    if i < |links| - 1 {
      LastLinkWins(ex, links[..|links| - 1], i, key);
    }
  }

  /** Without a secondary link, the relation keys keep what they had. */
  lemma {:induction false} PrimaryLinksChangeNothing(ex: Record, links: seq<LookupLink>)
    requires forall j :: 0 <= j < |links| ==> links[j].isNameLink
    ensures LinkFields(ex, links) == ex
    decreases |links|
  {
    if |links| > 0 {
      PrimaryLinksChangeNothing(ex, links[..|links| - 1]);
    }
  }

  /** In the record of a card, a relation key of the schema holds the text
   *  of the card's last secondary link. */
  lemma RelationFromLastLink(obj: string, schema: seq<string>, stage: Value, card: Card, now: int, i: nat, key: string)
    requires IsRelationKey(key) && key in schema
    requires i < |card.lookupLinks| && !card.lookupLinks[i].isNameLink
    requires forall j :: i < j < |card.lookupLinks| ==> card.lookupLinks[j].isNameLink
    ensures key in CardRecord(obj, schema, stage, card, now)
    ensures CardRecord(obj, schema, stage, card, now)[key] == Str(Trim(card.lookupLinks[i].text))
  {
    LastLinkWins(HeadFields(obj, schema, stage, card), card.lookupLinks, i, key);
  }

  /** On a task board the subject is the card's name when that is not empty. */
  lemma TaskSubjectIsName(schema: seq<string>, stage: Value, card: Card)
    requires card.nameLink.Some? && Trim(card.nameLink.value.text) != ""
    ensures var ex := HeadFields("Task", schema, stage, card);
      "subject" in ex && ex["subject"] == Str(Trim(card.nameLink.value.text))
  {
  }
}
