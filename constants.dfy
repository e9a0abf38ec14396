/**
 * The static tables every extraction strategy consumes: for each object kind,
 * the UI labels that name a field and the canonical key each maps to, and the
 * kind's schema (the ordered list of canonical keys a record carries).
 */
module Constants {
  import opened Wrappers

  /** A field map in its literal's order: (UI label, canonical key). The list
   *  view applies the entries in this order, so order is part of the data. */
  type FieldMap = seq<(string, string)>

  const ObjectKinds: seq<string> := ["Lead", "Contact", "Account", "Opportunity", "Task"]

  function LeadFields(): FieldMap {
    [
      ("Name", "name"), ("Lead Name", "name"), ("Lead Full Name", "name"),
      ("Company", "company"), ("Company / Account", "company"),
      ("Email", "email"), ("Phone", "phone"),
      ("Lead Source", "leadSource"),
      ("Lead Status", "leadStatus"), ("Status", "leadStatus"),
      ("Lead Owner", "leadOwner"), ("Owner", "leadOwner"), ("Lead Owner Alias", "leadOwner")
    ]
  }

  function ContactFields(): FieldMap {
    [
      ("Name", "name"), ("Contact Name", "name"), ("Full Name", "name"),
      ("Email", "email"), ("Phone", "phone"), ("Business Phone", "phone"),
      ("Account Name", "accountName"), ("Account", "accountName"),
      ("Title", "title"),
      ("Contact Owner", "contactOwner"), ("Owner", "contactOwner"), ("Contact Owner Alias", "contactOwner"),
      ("Mailing Address", "mailingAddress")
    ]
  }

  function AccountFields(): FieldMap {
    [
      ("Account Name", "accountName"), ("Name", "accountName"),
      ("Website", "website"), ("Phone", "phone"), ("Industry", "industry"), ("Type", "type"),
      ("Account Owner", "accountOwner"), ("Owner", "accountOwner"), ("Account Owner Alias", "accountOwner"),
      ("Annual Revenue", "annualRevenue")
    ]
  }

  function OpportunityFields(): FieldMap {
    [
      ("Opportunity Name", "name"), ("Name", "name"),
      ("Amount", "amount"), ("Stage", "stage"),
      ("Probability (%)", "probability"), ("Probability", "probability"),
      ("Close Date", "closeDate"), ("Forecast Category", "forecastCategory"),
      ("Opportunity Owner", "opportunityOwner"), ("Owner", "opportunityOwner"),
      ("Opportunity Owner Alias", "opportunityOwner"),
      ("Account Name", "associatedAccount"), ("Account", "associatedAccount")
    ]
  }

  function TaskFields(): FieldMap {
    [
      ("Subject", "subject"), ("Due Date", "dueDate"), ("Status", "status"), ("Priority", "priority"),
      ("Related To", "relatedTo"), ("Related To ID", "relatedTo"),
      ("Assigned To", "assignedTo"), ("Assigned To Alias", "assignedTo")
    ]
  }

  function LeadSchema(): seq<string> {
    ["name", "company", "email", "phone", "leadSource", "leadStatus", "leadOwner"]
  }
  function ContactSchema(): seq<string> {
    ["name", "email", "phone", "accountName", "title", "contactOwner", "mailingAddress"]
  }
  function AccountSchema(): seq<string> {
    ["accountName", "website", "phone", "industry", "type", "accountOwner", "annualRevenue"]
  }
  function OpportunitySchema(): seq<string> {
    ["name", "amount", "stage", "probability", "closeDate", "forecastCategory", "opportunityOwner", "associatedAccount"]
  }
  function TaskSchema(): seq<string> {
    ["subject", "dueDate", "status", "priority", "relatedTo", "assignedTo"]
  }

  /** `FIELD_MAPPINGS[kind]`, `undefined` for any other kind. */
  function FieldMappings(kind: string): Option<FieldMap> {
    if kind == "Lead" then Some(LeadFields())
    else if kind == "Contact" then Some(ContactFields())
    else if kind == "Account" then Some(AccountFields())
    else if kind == "Opportunity" then Some(OpportunityFields())
    else if kind == "Task" then Some(TaskFields())
    else None
  }

  /** `OBJECT_SCHEMAS[kind]`, `undefined` for any other kind. */
  function ObjectSchemas(kind: string): Option<seq<string>> {
    if kind == "Lead" then Some(LeadSchema())
    else if kind == "Contact" then Some(ContactSchema())
    else if kind == "Account" then Some(AccountSchema())
    else if kind == "Opportunity" then Some(OpportunitySchema())
    else if kind == "Task" then Some(TaskSchema())
    else None
  }

  /** `fieldMap[fieldLabel]`: the key of the first entry with that label
   *  (`LookupAt` states the found case). */
  function Lookup(fm: FieldMap, fieldLabel: string): (r: Option<string>)
    ensures r.None? <==> forall i :: 0 <= i < |fm| ==> fm[i].0 != fieldLabel
  {
    if |fm| == 0 then None
    else if fm[0].0 == fieldLabel then Some(fm[0].1)
    else Lookup(fm[1..], fieldLabel)
  }

  ghost predicate LabelsUnique(fm: FieldMap) {
    forall i, j :: 0 <= i < j < |fm| ==> fm[i].0 != fm[j].0
  }

  ghost predicate KeysUnique(schema: seq<string>) {
    forall i, j :: 0 <= i < j < |schema| ==> schema[i] != schema[j]
  }

  /** Some label of the map produces the key. */
  ghost predicate Produces(fm: FieldMap, key: string) {
    exists i :: 0 <= i < |fm| && fm[i].1 == key
  }

  /** What holds of each kind's pair of tables: labels and schema keys are
   *  unique, the map produces exactly the schema's keys, and `id` is not one. */
  ghost predicate TablesAgree(fm: FieldMap, schema: seq<string>) {
    LabelsUnique(fm) && SchemaAgrees(fm, schema)
  }

  ghost predicate SchemaAgrees(fm: FieldMap, schema: seq<string>) {
    && KeysUnique(schema)
    && (forall i :: 0 <= i < |fm| ==> fm[i].1 in schema)
    && (forall j :: 0 <= j < |schema| ==> Produces(fm, schema[j]))
    && "id" !in schema
  }

  /** Both tables know exactly the five object kinds. */
  lemma SameFiveKinds(kind: string)
    ensures FieldMappings(kind).Some? <==> kind in ObjectKinds
    ensures ObjectSchemas(kind).Some? <==> kind in ObjectKinds
  {
  }

  /** For each of the five kinds: every canonical key its map produces is in
   *  its schema, every schema key is produced by at least one label, labels
   *  are unique (they are the keys of a JavaScript object), no schema lists a
   *  key twice, and no schema has `id`, so the `!data.id` guards of the
   *  extractors always fall through to the identity found on the page. */
  lemma TablesConsistent(kind: string)
    requires kind in ObjectKinds
    ensures TablesAgree(FieldMappings(kind).value, ObjectSchemas(kind).value)
  {
    if kind == "Lead" {
      LeadTablesAgree();
    } else if kind == "Contact" {
      ContactTablesAgree();
    } else if kind == "Account" {
      AccountTablesAgree();
    } else if kind == "Opportunity" {
      OpportunityTablesAgree();
    } else {
      TaskTablesAgree();
    }
  }

  lemma LeadTablesAgree()
    ensures TablesAgree(LeadFields(), LeadSchema())
  {
    LeadLabelsUnique();
    LeadSchemaAgrees();
  }

  lemma LeadLabelsUnique()
    ensures LabelsUnique(LeadFields())
  {
  }

  lemma LeadSchemaAgrees()
    ensures SchemaAgrees(LeadFields(), LeadSchema())
  {
    LeadKeysUnique();
    LeadKeysInSchema();
    Covered(LeadFields(), LeadSchema(), [0, 3, 5, 6, 7, 8, 10]);
  }

  lemma LeadKeysUnique()
    ensures KeysUnique(LeadSchema()) && "id" !in LeadSchema()
  {
  }

  lemma LeadKeysInSchema()
    ensures forall i :: 0 <= i < |LeadFields()| ==> LeadFields()[i].1 in LeadSchema()
  {
  }

  lemma ContactTablesAgree()
    ensures TablesAgree(ContactFields(), ContactSchema())
  {
    ContactLabelsUnique();
    ContactSchemaAgrees();
  }

  lemma ContactLabelsUnique()
    ensures LabelsUnique(ContactFields())
  {
  }

  lemma ContactSchemaAgrees()
    ensures SchemaAgrees(ContactFields(), ContactSchema())
  {
    ContactKeysUnique();
    ContactKeysInSchema();
    Covered(ContactFields(), ContactSchema(), [0, 3, 4, 6, 8, 9, 12]);
  }

  lemma ContactKeysUnique()
    ensures KeysUnique(ContactSchema()) && "id" !in ContactSchema()
  {
  }

  lemma ContactKeysInSchema()
    ensures forall i :: 0 <= i < |ContactFields()| ==> ContactFields()[i].1 in ContactSchema()
  {
  }

  lemma AccountTablesAgree()
    ensures TablesAgree(AccountFields(), AccountSchema())
  {
    AccountLabelsUnique();
    AccountSchemaAgrees();
  }

  lemma AccountLabelsUnique()
    ensures LabelsUnique(AccountFields())
  {
  }

  lemma AccountSchemaAgrees()
    ensures SchemaAgrees(AccountFields(), AccountSchema())
  {
    AccountKeysUnique();
    AccountKeysInSchema();
    Covered(AccountFields(), AccountSchema(), [0, 2, 3, 4, 5, 6, 9]);
  }

  lemma AccountKeysUnique()
    ensures KeysUnique(AccountSchema()) && "id" !in AccountSchema()
  {
  }

  lemma AccountKeysInSchema()
    ensures forall i :: 0 <= i < |AccountFields()| ==> AccountFields()[i].1 in AccountSchema()
  {
  }

  lemma OpportunityTablesAgree()
    ensures TablesAgree(OpportunityFields(), OpportunitySchema())
  {
    OpportunityLabelsUnique();
    OpportunitySchemaAgrees();
  }

  lemma OpportunityLabelsUnique()
    ensures LabelsUnique(OpportunityFields())
  {
  }

  lemma OpportunitySchemaAgrees()
    ensures SchemaAgrees(OpportunityFields(), OpportunitySchema())
  {
    OpportunityKeysUnique();
    OpportunityKeysInSchema();
    Covered(OpportunityFields(), OpportunitySchema(), [0, 2, 3, 4, 6, 7, 8, 11]);
  }

  lemma OpportunityKeysUnique()
    ensures KeysUnique(OpportunitySchema()) && "id" !in OpportunitySchema()
  {
  }

  lemma OpportunityKeysInSchema()
    ensures forall i :: 0 <= i < |OpportunityFields()| ==> OpportunityFields()[i].1 in OpportunitySchema()
  {
  }

  lemma TaskTablesAgree()
    ensures TablesAgree(TaskFields(), TaskSchema())
  {
    TaskLabelsUnique();
    TaskSchemaAgrees();
  }

  lemma TaskLabelsUnique()
    ensures LabelsUnique(TaskFields())
  {
  }

  lemma TaskSchemaAgrees()
    ensures SchemaAgrees(TaskFields(), TaskSchema())
  {
    TaskKeysUnique();
    TaskKeysInSchema();
    Covered(TaskFields(), TaskSchema(), [0, 1, 2, 3, 4, 6]);
  }

  lemma TaskKeysUnique()
    ensures KeysUnique(TaskSchema()) && "id" !in TaskSchema()
  {
  }

  lemma TaskKeysInSchema()
    ensures forall i :: 0 <= i < |TaskFields()| ==> TaskFields()[i].1 in TaskSchema()
  {
  }

  /** A schema is covered when each key has a witness entry. */
  lemma Covered(fm: FieldMap, schema: seq<string>, w: seq<nat>)
    requires |w| == |schema|
    requires forall j :: 0 <= j < |schema| ==> w[j] < |fm| && fm[w[j]].1 == schema[j]
    ensures forall k :: k in schema ==> Produces(fm, k)
  {
    forall k | k in schema ensures Produces(fm, k) {
      var j :| 0 <= j < |schema| && schema[j] == k;
      assert fm[w[j]].1 == k;
    }
  }

  /** The lookup finds the first entry carrying the label. */
  lemma {:induction false} LookupAt(fm: FieldMap, fieldLabel: string, i: nat)
    requires i < |fm| && fm[i].0 == fieldLabel
    requires forall j :: 0 <= j < i ==> fm[j].0 != fieldLabel
    ensures Lookup(fm, fieldLabel) == Some(fm[i].1)
  {
    if i > 0 {
      LookupAt(fm[1..], fieldLabel, i - 1);
    }
  }

  /** A label the map knows names one of the map's own keys. */
  lemma {:induction false} LookupProduces(fm: FieldMap, fieldLabel: string)
    ensures Lookup(fm, fieldLabel).Some? ==> Produces(fm, Lookup(fm, fieldLabel).value)
  {
    if |fm| > 0 && fm[0].0 != fieldLabel {
      LookupProduces(fm[1..], fieldLabel);
      if Lookup(fm, fieldLabel).Some? {
        var i :| 0 <= i < |fm[1..]| && fm[1..][i].1 == Lookup(fm, fieldLabel).value;
        assert fm[i + 1].1 == Lookup(fm, fieldLabel).value;
      }
    }
  }

  /** Several labels alias one key: the three names of a lead. */
  lemma LeadNameAliases()
    ensures Lookup(LeadFields(), "Name") == Some("name")
    ensures Lookup(LeadFields(), "Lead Name") == Some("name")
    ensures Lookup(LeadFields(), "Lead Full Name") == Some("name")
  {
    LookupAt(LeadFields(), "Name", 0);
    LookupAt(LeadFields(), "Lead Name", 1);
    LookupAt(LeadFields(), "Lead Full Name", 2);
  }

  /** "Owner" names each kind's own owner key, and tasks have no such label. */
  lemma OwnerAliases()
    ensures Lookup(LeadFields(), "Owner") == Some("leadOwner")
    ensures Lookup(ContactFields(), "Owner") == Some("contactOwner")
    ensures Lookup(AccountFields(), "Owner") == Some("accountOwner")
    ensures Lookup(OpportunityFields(), "Owner") == Some("opportunityOwner")
    ensures Lookup(TaskFields(), "Owner") == None
  {
    LeadOwner();
    ContactOwner();
    AccountOwner();
    OpportunityOwner();
    TaskHasNoOwner();
  }

  lemma LeadOwner() ensures Lookup(LeadFields(), "Owner") == Some("leadOwner") {
    LookupAt(LeadFields(), "Owner", 11);
  }

  lemma ContactOwner() ensures Lookup(ContactFields(), "Owner") == Some("contactOwner") {
    LookupAt(ContactFields(), "Owner", 10);
  }

  lemma AccountOwner() ensures Lookup(AccountFields(), "Owner") == Some("accountOwner") {
    LookupAt(AccountFields(), "Owner", 7);
  }

  lemma OpportunityOwner() ensures Lookup(OpportunityFields(), "Owner") == Some("opportunityOwner") {
    LookupAt(OpportunityFields(), "Owner", 9);
  }

  lemma TaskHasNoOwner() ensures Lookup(TaskFields(), "Owner") == None {
    assert forall i :: 0 <= i < |TaskFields()| ==> TaskFields()[i].0 != "Owner";
  }
}
