/** Why what the audit lets through can be migrated, and what comes out passes it. */
module MigrationTheorems {
  import opened Wrappers
  import opened Vault
  import opened EncryptionAudit
  import opened MigrationSteps
  import opened MigrationFrames
  import opened MigrationProgram

  // ---------- what a caller can check beforehand ----------

  ghost predicate ClientPart(tools: Tools, ns: Namespace) {
    forall f, p :: f in CLIENT_FIELDS && p in Payloads(ns, f) ==> ClientReady(tools.cipher, p)
  }

  ghost predicate ProposedPart(tools: Tools, ns: Namespace) {
    && (forall id :: id in Ids(ns.main, Notes) ==> ValidNoteId(id))
    && forall p :: p in Payloads(ns, ProposedTags) ==> ProposedReady(tools.cipher, p)
  }

  ghost predicate ContentPart(tools: Tools, ns: Namespace) {
    DocumentIds(ns) != {} ==> forall p :: p in Payloads(ns, NoteContent) ==> ContentReady(tools, p)
  }

  ghost predicate JsonPart(tools: Tools, ns: Namespace) {
    && (forall p :: p in Payloads(ns, ReminderPayload) ==> JsonReady(tools, p))
    && (forall p :: p in Payloads(ns, ClientPreferences) ==> JsonReady(tools, p))
    && forall p :: p in Payloads(ns, PaletteUsage) ==> JsonReady(tools, p)
  }

  /** Every payload that a step still has to read can be read. */
  ghost predicate Ready(tools: Tools, ns: Namespace) {
    && (ns.version == 0 ==> ClientPart(tools, ns))
    && (ns.version <= 5 ==> ProposedPart(tools, ns))
    && (ns.version <= 7 ==> ContentPart(tools, ns))
    && (ns.version <= 8 ==> JsonPart(tools, ns))
  }

  /** Admitted, nonce reuse aside. */
  ghost predicate Passable(ns: Namespace) {
    && SchemasOk(ns) && ns.main.intact && (ns.files.Some? ==> ns.files.value.intact)
    && OneSettingsRow(ns) && ns.vaultFaults == 0
    && forall f :: FieldPasses(ns, f, Deferrable(ns.version, f))
  }

  lemma {:induction false} AdmittedIsPassable(ns: Namespace)
    ensures Admitted(ns) <==> Passable(ns) && exists owner :: Owned(ns, owner)
  {
    hide SchemasOk, FieldPasses, Deferrable, Owned, OneSettingsRow;
  }

  lemma {:induction false} Bumped(ns: Namespace, v: int)
    ensures forall f :: Payloads(ns.(version := v), f) == Payloads(ns, f)
    ensures DocumentIds(ns.(version := v)) == DocumentIds(ns)
  {
    hide Cells, InFiles;
  }

  /** At the current version the audit defers nothing. */
  lemma {:induction false} CurrentIsClean(ns: Namespace)
    requires Admitted(ns) && ns.version == CURRENT_DATABASE_VERSION
    ensures Clean(ns)
  {
    hide SchemasOk, Owned, OneSettingsRow, Passes, Payloads;
    forall f
      ensures FieldPasses(ns, f, {})
    {
      assert FieldPasses(ns, f, Deferrable(ns.version, f));
    }
  }

  // ---------- schemas ----------

  /** A table that no step touches is admitted in the next version too. */
  predicate Steady(v: int, t: Table, columns: Option<set<Column>>) {
    && !(v == 1 && t == ContentMigrations && columns == None)
    && !(v == 2 && t == SearchHistory && columns == Some(LEGACY_SEARCH_COLUMNS))
    && !(v == 4 && t == AppSettings && columns == Some(APP_SETTINGS_COLUMNS - Group(OpenAiKey)))
    && !(v == 5 && t == Notes && columns == Some(NOTES_COLUMNS - Group(ProposedTags)))
    && !(v in {6, 7} && t == Documents)
  }

  lemma {:induction false} AdmittedLater(v: int, t: Table, columns: Option<set<Column>>)
    requires 0 <= v < CURRENT_DATABASE_VERSION && Admits(v, t, columns) && Steady(v, t, columns)
    ensures Admits(v + 1, t, columns)
  {
    hide NOTES_COLUMNS, APP_SETTINGS_COLUMNS, OPAQUE_SEARCH_COLUMNS, LEGACY_SEARCH_COLUMNS,
      RULES_COLUMNS, TAB_STATE_COLUMNS, LINK_TITLES_COLUMNS, REMINDERS_COLUMNS, LAUNCH_PROFILE_COLUMNS,
      CONTENT_MIGRATIONS_COLUMNS, DOCUMENTS_COLUMNS, Group;
  }

  lemma {:induction false} FilesLater(v: int, db: Database)
    requires 0 <= v < CURRENT_DATABASE_VERSION && v !in {8, 9} && FilesSchemaOk(v, db)
    ensures FilesSchemaOk(v + 1, db)
  {
    hide FILES_COLUMNS, PREVIEWS_COLUMNS, SOUNDS_COLUMNS;
    forall t
      ensures AdmitsFiles(v + 1, t, ColumnsOf(db, t))
    {
      assert AdmitsFiles(v, t, ColumnsOf(db, t));
    }
  }

  lemma {:induction false} AddedColumns(ns: Namespace, f: Field, default: Payload, t: Table)
    requires CanAdd(ns, f)
    ensures ColumnsOf(Added(ns, f, default).main, t) ==
      if t != TableOf(f) then ColumnsOf(ns.main, t)
      else
        var columns := ns.main.tables[t].columns;
        Some(if Group(f) <= columns then columns else columns + Group(f))
  {
    hide Group, TableOf;
  }

  lemma {:induction false} OptionalTable(v: int, f: Field, columns: Option<set<Column>>, whole: set<Column>)
    requires (v == 4 && f == OpenAiKey && whole == APP_SETTINGS_COLUMNS) ||
        (v == 5 && f == ProposedTags && whole == NOTES_COLUMNS)
    ensures Admits(v, TableOf(f), columns) ==> columns == Some(whole) || columns == Some(whole - Group(f))
    ensures Admits(v + 1, TableOf(f), Some(whole)) && Group(f) <= whole && !InFiles(f)
    ensures forall t :: t != TableOf(f) ==> Steady(v, t, columns)
  {
    OptionalGroups();
    hide NOTES_COLUMNS, APP_SETTINGS_COLUMNS, Group;
  }

  /** Adding the missing group makes the table complete. */
  lemma {:induction false} GroupCompletes(v: int, ns: Namespace, f: Field, default: Payload, whole: set<Column>)
    requires (v == 4 && f == OpenAiKey && whole == APP_SETTINGS_COLUMNS) ||
        (v == 5 && f == ProposedTags && whole == NOTES_COLUMNS)
    requires MainSchemaOk(v, ns.main)
    ensures CanAdd(ns, f)
    ensures MainSchemaOk(v + 1, Added(ns, f, default).main)
  {
    hide NOTES_COLUMNS, APP_SETTINGS_COLUMNS, Group, Added, Admits, Steady;
    var t := TableOf(f);
    assert Admits(v, t, ColumnsOf(ns.main, t));
    OptionalTable(v, f, ColumnsOf(ns.main, t), whole);
    OptionalGroupIsWhole(f, whole, ns.main.tables[t].columns);
    forall u
      ensures Admits(v + 1, u, ColumnsOf(Added(ns, f, default).main, u))
    {
      AddedColumns(ns, f, default, u);
      assert Admits(v, u, ColumnsOf(ns.main, u));
      if u != t {
        OptionalTable(v, f, ColumnsOf(ns.main, u), whole);
        AdmittedLater(v, u, ColumnsOf(ns.main, u));
      }
    }
  }

  lemma {:induction false} OptionalGroupIsWhole(f: Field, whole: set<Column>, columns: set<Column>)
    requires Group(f) <= whole && (columns == whole || columns == whole - Group(f))
    ensures Group(f) <= columns || Group(f) !! columns
    ensures (if Group(f) <= columns then columns else columns + Group(f)) == whole
  {
    assert ValueOf(f) in Group(f);
    if columns != whole {
      assert ValueOf(f) !in columns;
    }
  }

  // ---------- payloads ----------

  lemma {:induction false} ClientCell(tools: Tools, f: Field, p: Payload, q: Payload)
    requires f in CLIENT_FIELDS && ClientReady(tools.cipher, p) && ClientDone(tools.cipher, p, q) && tools.hasDek
    requires Passes(f, p, DeferredFields(0))
    ensures Passes(f, q, {}) && (JsonReady(tools, q) <==> JsonReady(tools, p))
  {
    hide Decrypted;
  }

  lemma {:induction false} ProposedCell(cipher: Cipher, p: Payload, q: Payload)
    requires ProposedReady(cipher, p) && ProposedDone(cipher, p, q)
    requires p.nonce != Null ==> Passes(ProposedTags, p, {ProposedTags})
    ensures Passes(ProposedTags, q, {})
  {
    hide Decrypted;
  }

  lemma {:induction false} ContentCell(cipher: Cipher, documentIds: set<Cell>, id: Cell, p: Payload, q: Payload)
    requires ContentDone(cipher, true, documentIds, id, p, q) && Passes(NoteContent, p, {})
    ensures Passes(NoteContent, q, {})
  {
    hide Decrypted;
  }

  lemma {:induction false} JsonCell(tools: Tools, removed: set<string>, id: Cell, f: Field, p: Payload, q: Payload)
    requires f in {ReminderPayload, ClientPreferences, PaletteUsage}
    requires JsonDone(tools, removed, id, p, q) && Passes(f, p, {})
    ensures Passes(f, q, {})
  {
    hide Decrypted;
  }

  /** What a step must leave for the next version to be passable. */
  lemma {:induction false} NextPassable(a: Namespace, b: Namespace, changed: set<Field>)
    requires Passable(a) && a.version < CURRENT_DATABASE_VERSION
    requires b.version == a.version + 1 && SchemasOk(b) && OneSettingsRow(b)
    requires b.vaultFaults == a.vaultFaults && b.main.intact && (b.files.Some? ==> b.files.value.intact)
    requires forall f :: f !in changed ==> Payloads(b, f) == Payloads(a, f) || Payloads(b, f) == []
    requires forall f :: f in changed ==> FieldPasses(b, f, {})
    requires a.version == 0 ==> {ClientPreferences, PaletteUsage, TagPrefixes} <= changed
    requires a.version == 5 ==> ProposedTags in changed
    ensures Passable(b)
  {
    hide SchemasOk, OneSettingsRow, Payloads;
    forall f
      ensures FieldPasses(b, f, Deferrable(b.version, f))
    {
      if f in changed {
        PassesMore(b, f, {}, Deferrable(b.version, f));
      } else {
        assert FieldPasses(a, f, Deferrable(a.version, f));
        assert f in Deferrable(a.version, f) ==> f in Deferrable(b.version, f);
        StillPasses(a, b, f);
      }
    }
  }

  lemma {:induction false} PassesMore(ns: Namespace, f: Field, fewer: set<Field>, more: set<Field>)
    requires fewer <= more && FieldPasses(ns, f, fewer)
    ensures FieldPasses(ns, f, more)
  {
    hide Payloads;
  }

  lemma {:induction false} StillPasses(a: Namespace, b: Namespace, f: Field)
    requires Payloads(b, f) == Payloads(a, f) || Payloads(b, f) == []
    requires FieldPasses(a, f, Deferrable(a.version, f))
    requires f in Deferrable(a.version, f) ==> f in Deferrable(b.version, f)
    ensures FieldPasses(b, f, Deferrable(b.version, f))
  {
    hide Payloads, Deferrable, DeferredFields;
    forall i | 0 <= i < |Payloads(b, f)|
      ensures Passes(f, Payloads(b, f)[i], Deferrable(b.version, f))
    {
      assert Passes(f, Payloads(a, f)[i], Deferrable(a.version, f));
    }
  }

  // ---------- one step ----------

  /** The next version of what a step leaves. */
  ghost function Next(a: Namespace, b: Namespace): Namespace {
    b.(version := a.version + 1)
  }

  ghost predicate Carried(tools: Tools, a: Namespace, b: Namespace) {
    Passable(Next(a, b)) && Next(a, b).encrypted && (Ready(tools, a) <==> Ready(tools, Next(a, b)))
  }

  ghost predicate Unlocked(tools: Tools, a: Namespace) {
    Passable(a) && a.encrypted && tools.hasDek
  }

  lemma {:induction false} ShapeSchema(a: Namespace, b: Namespace)
    requires SchemasOk(a) && SameShape(a, b) && a.version in {0, 3}
    ensures SchemasOk(Next(a, b))
  {
    hide Admits, FilesSchemaOk;
    forall t
      ensures Admits(a.version + 1, t, ColumnsOf(b.main, t))
    {
      assert Admits(a.version, t, ColumnsOf(a.main, t));
      assert ColumnsOf(a.main, t) == ColumnsOf(b.main, t);
      AdmittedLater(a.version, t, ColumnsOf(a.main, t));
    }
    if a.files.Some? {
      FilesLater(a.version, a.files.value);
    }
  }

  lemma {:induction false} SettingsKept(a: Namespace, b: Namespace)
    requires OneSettingsRow(a) && Ids(b.main, AppSettings) == Ids(a.main, AppSettings)
    ensures OneSettingsRow(b) && OneSettingsRow(Next(a, b))
    ensures SettingsAt(Ids(a.main, AppSettings)) == Some(0)
  {
    assert Ids(a.main, AppSettings)[0] == Number(1);
  }

  lemma {:induction false} OneOfEach(a: Namespace, f: Field)
    requires OneSettingsRow(a) && f in CLIENT_FIELDS
    ensures |Payloads(a, f)| <= 1
  {
  }

  lemma {:induction false} Step0(tools: Tools, a: Namespace, b: Namespace)
    requires Unlocked(tools, a) && a.version == 0 && StepReady(0, tools, a) && StepDone(0, tools, a, b)
    ensures Carried(tools, a, b)
  {
    hide SchemasOk, Payloads, OneSettingsRow, ClientReady, ClientDone, SameShape, Passes, ContentPart, JsonReady,
      ProposedPart;
    var c := Next(a, b);
    OnlyFieldsShapeOf(a, b, {ClientPreferences, PaletteUsage, TagPrefixes});
    ShapeSchema(a, b);
    SettingsKept(a, b);
    Bumped(b, 1);
    forall f | f in CLIENT_FIELDS
      ensures FieldPasses(c, f, {})
      ensures (forall p :: p in Payloads(c, f) ==> JsonReady(tools, p)) <==>
          forall p :: p in Payloads(a, f) ==> JsonReady(tools, p)
      ensures forall p :: p in Payloads(a, f) ==> ClientReady(tools.cipher, p)
    {
      OneOfEach(a, f);
      assert FieldPasses(a, f, Deferrable(0, f));
      ClientDeferrable(f);
      ClientCell(tools, f, Payloads(a, f)[0], Payloads(c, f)[0]);
    }
    NextPassable(a, c, {ClientPreferences, PaletteUsage, TagPrefixes});
    OtherPartsSame(tools, a, c);
    ReadyPartsJson(tools, a, c);
  }

  lemma {:induction false} ClientDeferrable(f: Field)
    requires f in CLIENT_FIELDS
    ensures Deferrable(0, f) == DeferredFields(0)
  {
  }

  lemma {:induction false} OnlyFieldsShapeOf(a: Namespace, b: Namespace, fields: set<Field>)
    requires OnlyFields(a, b, fields)
    ensures SameShape(a, b) && forall t :: Ids(b.main, t) == Ids(a.main, t)
    ensures b.version == a.version && b.encrypted == a.encrypted && b.vaultFaults == a.vaultFaults && b.files == a.files
    ensures b.main.intact == a.main.intact && DocumentIds(b) == DocumentIds(a)
  {
    assert Ids(a.main, Documents) == Ids(b.main, Documents);
  }

  /** The parts of Ready that look at untouched fields. */
  lemma {:induction false} OtherPartsSame(tools: Tools, a: Namespace, c: Namespace)
    requires Ids(c.main, Notes) == Ids(a.main, Notes) && DocumentIds(c) == DocumentIds(a)
    ensures Payloads(c, ProposedTags) == Payloads(a, ProposedTags) ==>
        (ProposedPart(tools, c) <==> ProposedPart(tools, a))
    ensures Payloads(c, NoteContent) == Payloads(a, NoteContent) ==> (ContentPart(tools, c) <==> ContentPart(tools, a))
  {
    hide Payloads, Ids, ProposedReady, ContentReady;
  }

  lemma {:induction false} ReadyPartsJson(tools: Tools, a: Namespace, c: Namespace)
    requires Payloads(c, ReminderPayload) == Payloads(a, ReminderPayload)
    requires forall f :: f in {ClientPreferences, PaletteUsage} ==>
      ((forall p :: p in Payloads(c, f) ==> JsonReady(tools, p)) <==>
        forall p :: p in Payloads(a, f) ==> JsonReady(tools, p))
    ensures JsonPart(tools, c) <==> JsonPart(tools, a)
  {
    hide Payloads, JsonReady;
  }

  /** Steps that leave every payload but those of `gone` fields, which have none left. */
  lemma {:induction false} SchemaStep(tools: Tools, a: Namespace, b: Namespace)
    requires Unlocked(tools, a) && a.version in {1, 2, 3, 4, 6, 9} && SchemasOk(Next(a, b))
    requires b.encrypted && b.vaultFaults == a.vaultFaults && b.main.intact && (b.files.Some? ==> b.files.value.intact)
    requires Ids(b.main, AppSettings) == Ids(a.main, AppSettings) && Ids(b.main, Notes) == Ids(a.main, Notes)
    requires DocumentIds(b) == DocumentIds(a)
    requires forall f :: f !in {OpenAiKey, SearchPayload, QueryKey, RootTag, TagsJson} ==>
        Payloads(b, f) == Payloads(a, f)
    requires forall f :: f in {SearchPayload, QueryKey, RootTag, TagsJson} ==>
        Payloads(b, f) == Payloads(a, f) || Payloads(b, f) == []
    requires Payloads(b, OpenAiKey) == Payloads(a, OpenAiKey) || forall p :: p in Payloads(b, OpenAiKey) ==>
        p == Payload(Null, Null, Null)
    ensures Carried(tools, a, b)
  {
    hide SchemasOk, Payloads, OneSettingsRow, Passes, ContentPart, JsonReady, ProposedPart, ClientPart;
    var c := Next(a, b);
    SettingsKept(a, b);
    Bumped(b, c.version);
    if Payloads(b, OpenAiKey) == Payloads(a, OpenAiKey) {
      NextPassable(a, c, {});
    } else {
      NullsPass(c);
      NextPassable(a, c, {OpenAiKey});
    }
    OtherPartsSame(tools, a, c);
    ReadyPartsJson(tools, a, c);
  }

  lemma {:induction false} NullsPass(ns: Namespace)
    requires forall p :: p in Payloads(ns, OpenAiKey) ==> p == Payload(Null, Null, Null)
    ensures FieldPasses(ns, OpenAiKey, {})
  {
    hide Payloads;
    forall i | 0 <= i < |Payloads(ns, OpenAiKey)|
      ensures Passes(OpenAiKey, Payloads(ns, OpenAiKey)[i], {})
    {
      assert Payloads(ns, OpenAiKey)[i] in Payloads(ns, OpenAiKey);
    }
  }

  /** Replacing one table by one that the next version admits. */
  lemma {:induction false} TableSchema(a: Namespace, b: Namespace, t: Table)
    requires SchemasOk(a) && a.version !in {8, 9} && a.version < CURRENT_DATABASE_VERSION && b.files == a.files
    requires Admits(a.version + 1, t, ColumnsOf(b.main, t))
    requires forall u :: u != t ==>
        ColumnsOf(b.main, u) == ColumnsOf(a.main, u) && Steady(a.version, u, ColumnsOf(a.main, u))
    ensures SchemasOk(Next(a, b))
  {
    hide Admits, Steady, FilesSchemaOk;
    forall u
      ensures Admits(a.version + 1, u, ColumnsOf(b.main, u))
    {
      assert Admits(a.version, u, ColumnsOf(a.main, u));
      if u != t {
        AdmittedLater(a.version, u, ColumnsOf(a.main, u));
      }
    }
    if a.files.Some? {
      FilesLater(a.version, a.files.value);
    }
  }

  lemma {:induction false} Step1(tools: Tools, a: Namespace, b: Namespace)
    requires Unlocked(tools, a) && a.version == 1 && StepDone(1, tools, a, b)
    ensures Carried(tools, a, b)
  {
    hide SchemasOk, Payloads, OneSettingsRow, CONTENT_MIGRATIONS_COLUMNS, FieldPasses;
    AdmittedAt(a, ContentMigrations);
    TableSchema(a, b, ContentMigrations);
    NewTable(a, b, ContentMigrations, CONTENT_MIGRATIONS_COLUMNS);
    SchemaStep(tools, a, b);
  }

  lemma {:induction false} AdmittedAt(a: Namespace, t: Table)
    requires SchemasOk(a)
    ensures Admits(a.version, t, ColumnsOf(a.main, t))
  {
  }

  /** An empty table in place of one that holds no field, or of none. */
  lemma {:induction false} NewTable(a: Namespace, b: Namespace, t: Table, columns: set<Column>)
    requires t in {ContentMigrations, Documents, SearchHistory}
    requires b == a || b == WithTable(a, t, Relation(columns, []))
    requires t == Documents && b != a ==> t !in a.main.tables
    ensures Ids(b.main, AppSettings) == Ids(a.main, AppSettings) && Ids(b.main, Notes) == Ids(a.main, Notes)
    ensures DocumentIds(b) == DocumentIds(a)
    ensures forall f :: TableOf(f) != SearchHistory ==> Payloads(b, f) == Payloads(a, f)
    ensures forall f :: TableOf(f) == SearchHistory ==> Payloads(b, f) == Payloads(a, f) || Payloads(b, f) == []
  {
    hide Payloads;
    forall f
      ensures TableOf(f) != SearchHistory ==> Payloads(b, f) == Payloads(a, f)
      ensures TableOf(f) == SearchHistory ==> Payloads(b, f) == Payloads(a, f) || Payloads(b, f) == []
    {
      if b != a {
        TableReplaced(a, t, Relation(columns, []), f);
        NoDocuments(a, f);
      }
    }
    assert Ids(b.main, Documents) == Ids(a.main, Documents);
  }

  lemma {:induction false} NoDocuments(a: Namespace, f: Field)
    ensures TableOf(f) == Documents && Documents !in a.main.tables ==> Payloads(a, f) == []
    ensures TableOf(f) != ContentMigrations
  {
  }

  lemma {:induction false} Step2(tools: Tools, a: Namespace, b: Namespace)
    requires Unlocked(tools, a) && a.version == 2 && StepDone(2, tools, a, b)
    ensures Carried(tools, a, b)
  {
    hide SchemasOk, Payloads, OneSettingsRow, OPAQUE_SEARCH_COLUMNS, LEGACY_SEARCH_COLUMNS, FieldPasses;
    AdmittedAt(a, SearchHistory);
    AdmittedAt(a, Other("search_interaction_history_v3"));
    NoSuchTableDropped(a);
    TableSchema(a, b, SearchHistory);
    NewTable(a, b, SearchHistory, OPAQUE_SEARCH_COLUMNS);
    SchemaStep(tools, a, b);
  }

  lemma {:induction false} NoSuchTableDropped(a: Namespace)
    requires ColumnsOf(a.main, Other("search_interaction_history_v3")) == None
    ensures WithoutTable(a, Other("search_interaction_history_v3")) == a
  {
    assert a.main.tables - {Other("search_interaction_history_v3")} == a.main.tables;
  }

  lemma {:induction false} Step3(tools: Tools, a: Namespace, b: Namespace)
    requires Unlocked(tools, a) && a.version == 3 && StepDone(3, tools, a, b)
    ensures Carried(tools, a, b)
  {
    hide SchemasOk, Payloads, OneSettingsRow, OPAQUE_SEARCH_COLUMNS, LEGACY_SEARCH_COLUMNS, FieldPasses;
    AdmittedAt(a, SearchHistory);
    TableSchema(a, b, SearchHistory);
    NewTable(a, b, SearchHistory, OPAQUE_SEARCH_COLUMNS);
    SchemaStep(tools, a, b);
  }

  lemma {:induction false} Step4(tools: Tools, a: Namespace, b: Namespace)
    requires Unlocked(tools, a) && a.version == 4 && StepDone(4, tools, a, b)
    ensures Carried(tools, a, b)
  {
    hide SchemasOk, Payloads, OneSettingsRow, APP_SETTINGS_COLUMNS, FieldPasses, Group;
    var default := Payload(Null, Null, Null);
    AddedSchema(a, OpenAiKey, default, APP_SETTINGS_COLUMNS);
    AddedFrame(a, OpenAiKey, default);
    SchemaStep(tools, a, b);
  }

  lemma {:induction false} Step6(tools: Tools, a: Namespace, b: Namespace)
    requires Unlocked(tools, a) && a.version == 6 && StepDone(6, tools, a, b)
    ensures Carried(tools, a, b)
  {
    hide SchemasOk, Payloads, OneSettingsRow, DOCUMENTS_COLUMNS, FieldPasses;
    AdmittedAt(a, Documents);
    TableSchema(a, b, Documents);
    NewTable(a, b, Documents, DOCUMENTS_COLUMNS);
    SchemaStep(tools, a, b);
  }

  lemma {:induction false} AddedSchema(a: Namespace, f: Field, default: Payload, whole: set<Column>)
    requires SchemasOk(a)
    requires (a.version == 4 && f == OpenAiKey && whole == APP_SETTINGS_COLUMNS) ||
        (a.version == 5 && f == ProposedTags && whole == NOTES_COLUMNS)
    ensures CanAdd(a, f) && SchemasOk(Next(a, Added(a, f, default)))
  {
    hide Admits, AdmitsFiles, NOTES_COLUMNS, APP_SETTINGS_COLUMNS, Group;
    GroupCompletes(a.version, a, f, default, whole);
    if a.files.Some? {
      FilesLater(a.version, a.files.value);
    }
  }

  lemma {:induction false} AddedFrame(a: Namespace, f: Field, default: Payload)
    requires CanAdd(a, f) && !InFiles(f)
    ensures var b := Added(a, f, default);
            && b.version == a.version && b.encrypted == a.encrypted && b.vaultFaults == a.vaultFaults
            && b.files == a.files
            && b.main.intact == a.main.intact
            && (forall t :: Ids(b.main, t) == Ids(a.main, t)) && DocumentIds(b) == DocumentIds(a)
            && (forall g :: g != f ==> Payloads(b, g) == Payloads(a, g))
            && (Payloads(b, f) == Payloads(a, f) || forall p :: p in Payloads(b, f) ==> p == default)
  {
    hide Payloads, Ids, Group;
    var b := Added(a, f, default);
    forall t
      ensures Ids(b.main, t) == Ids(a.main, t)
    {
      AddedIds(a, f, default, t);
    }
    if !HasField(a.main, f) {
      forall g
        ensures g != f ==> Payloads(b, g) == Payloads(a, g)
      {
        GroupAdded(a, f, default, g);
      }
      GroupAdded(a, f, default, f);
    }
    AddedIds(a, f, default, Documents);
    SameDocumentIds(a, b);
  }

  lemma {:induction false} SameDocumentIds(a: Namespace, b: Namespace)
    requires Ids(b.main, Documents) == Ids(a.main, Documents)
    ensures DocumentIds(b) == DocumentIds(a)
  {
  }

  lemma {:induction false} SameShapeSchema(a: Namespace, x: Namespace, b: Namespace)
    requires SchemasOk(Next(a, x)) && SameShape(x, b)
    ensures SchemasOk(Next(a, b))
  {
    hide Admits, FilesSchemaOk;
    forall t
      ensures Admits(a.version + 1, t, ColumnsOf(b.main, t))
    {
      assert Admits(a.version + 1, t, ColumnsOf(x.main, t));
      assert ColumnsOf(x.main, t) == ColumnsOf(b.main, t);
    }
  }

  lemma {:induction false} ProposedPasses(cipher: Cipher, a: Namespace, added: Namespace, b: Namespace)
    requires FieldPasses(a, ProposedTags, {ProposedTags})
    requires Payloads(added, ProposedTags) == Payloads(a, ProposedTags)
      || forall p :: p in Payloads(added, ProposedTags) ==> p == Payload(Text(""), Null, Null)
    requires forall p :: p in Payloads(added, ProposedTags) ==> ProposedReady(cipher, p)
    requires ProposedAllDone(cipher, Payloads(added, ProposedTags), Payloads(b, ProposedTags))
    ensures FieldPasses(b, ProposedTags, {})
  {
    hide Payloads, ProposedReady, ProposedDone, Passes;
    var before, after := Payloads(added, ProposedTags), Payloads(b, ProposedTags);
    forall i | 0 <= i < |after|
      ensures Passes(ProposedTags, after[i], {})
    {
      assert before[i] in before;
      assert before == Payloads(a, ProposedTags) ==> Passes(ProposedTags, Payloads(a, ProposedTags)[i], {ProposedTags});
      ProposedCell(cipher, before[i], after[i]);
    }
  }

  lemma {:induction false} Step5(tools: Tools, a: Namespace, b: Namespace)
    requires Unlocked(tools, a) && a.version == 5 && StepReady(5, tools, a) && StepDone(5, tools, a, b)
    ensures Carried(tools, a, b)
  {
    hide SchemasOk, Payloads, OneSettingsRow, NOTES_COLUMNS, Group, CanAdd, Added, SameShape, ProposedReady,
      ProposedAllDone, ContentPart, JsonPart, Ids, FieldPasses;
    var default := Payload(Text(""), Null, Null);
    AddedSchema(a, ProposedTags, default, NOTES_COLUMNS);
    AddedFrame(a, ProposedTags, default);
    var added := Added(a, ProposedTags, default);
    ProposedAfterAll(tools.cipher, a);
    OnlyFieldsShapeOf(added, b, {ProposedTags});
    SameShapeSchema(a, added, b);
    SettingsKept(a, b);
    Bumped(b, 6);
    var c := Next(a, b);
    assert FieldPasses(a, ProposedTags, Deferrable(5, ProposedTags));
    ProposedPasses(tools.cipher, a, added, c);
    NextPassable(a, c, {ProposedTags});
    OtherPartsSame(tools, a, c);
    JsonSame(tools, a, c);
  }

  lemma {:induction false} JsonSame(tools: Tools, a: Namespace, c: Namespace)
    requires forall f :: f in {ReminderPayload, ClientPreferences, PaletteUsage} ==> Payloads(c, f) == Payloads(a, f)
    ensures JsonPart(tools, c) <==> JsonPart(tools, a)
  {
    hide Payloads, JsonReady;
  }

  lemma {:induction false} ProposedAfterAll(cipher: Cipher, a: Namespace)
    requires CanAdd(a, ProposedTags) && forall p :: p in Payloads(a, ProposedTags) ==> ProposedReady(cipher, p)
    ensures forall p :: p in Payloads(Added(a, ProposedTags, Payload(Text(""), Null, Null)), ProposedTags) ==>
        ProposedReady(cipher, p)
  {
    hide Payloads, Group, CanAdd;
    AddedFrame(a, ProposedTags, Payload(Text(""), Null, Null));
    assert ProposedReady(cipher, Payload(Text(""), Null, Null));
  }

  lemma {:induction false} ContentsPass(tools: Tools, a: Namespace, b: Namespace)
    requires FieldPasses(a, NoteContent, {}) && a.encrypted
    requires ContentsDone(tools.cipher, a.encrypted, DocumentIds(a), Ids(a.main, Notes), Payloads(a, NoteContent),
        Payloads(b, NoteContent))
    ensures FieldPasses(b, NoteContent, {})
  {
    hide Payloads, Ids, ContentDone, Passes;
    forall i | 0 <= i < |Payloads(b, NoteContent)|
      ensures Passes(NoteContent, Payloads(b, NoteContent)[i], {})
    {
      assert Passes(NoteContent, Payloads(a, NoteContent)[i], {});
      ContentCell(tools.cipher, DocumentIds(a), Ids(a.main, Notes)[i], Payloads(a, NoteContent)[i],
          Payloads(b, NoteContent)[i]);
    }
  }

  lemma {:induction false} Step7(tools: Tools, a: Namespace, b: Namespace)
    requires Unlocked(tools, a) && a.version == 7 && StepReady(7, tools, a) && StepDone(7, tools, a, b)
    ensures Carried(tools, a, b)
  {
    hide SchemasOk, Payloads, OneSettingsRow, SameShape, ContentReady, ContentsDone, JsonPart, Ids, FieldPasses,
      DOCUMENTS_COLUMNS, HasField, DocumentIds;
    var cleaned :| DocumentsRetired(tools, a, cleaned, b);
    assert FieldPasses(a, NoteContent, Deferrable(7, NoteContent));
    SameFields(a, {NoteContent});
    if DocumentIds(a) != {} {
      ContentsPass(tools, a, cleaned);
    }
    OnlyFieldsShapeOf(a, cleaned, {NoteContent});
    DroppedDocuments(a, cleaned, b);
    SettingsKept(a, b);
    Bumped(b, 8);
    var c := Next(a, b);
    SamePayloadsPass(cleaned, c, NoteContent);
    NextPassable(a, c, {NoteContent});
    JsonSame(tools, a, c);
  }

  lemma {:induction false} SamePayloadsPass(a: Namespace, b: Namespace, f: Field)
    requires Payloads(b, f) == Payloads(a, f)
    ensures FieldPasses(a, f, {}) <==> FieldPasses(b, f, {})
  {
    hide Payloads, Passes;
  }

  lemma {:induction false} DroppedDocuments(a: Namespace, cleaned: Namespace, b: Namespace)
    requires SchemasOk(a) && a.version == 7 && SameShape(a, cleaned) && b == WithoutTable(cleaned, Documents)
    ensures SchemasOk(Next(a, b)) && Ids(b.main, AppSettings) == Ids(a.main, AppSettings)
    ensures forall f :: f != Document ==> Payloads(b, f) == Payloads(cleaned, f)
    ensures Payloads(b, Document) == []
  {
    hide Admits, FilesSchemaOk, Payloads;
    forall u
      ensures Admits(8, u, ColumnsOf(b.main, u))
    {
      assert Admits(7, u, ColumnsOf(a.main, u)) && ColumnsOf(a.main, u) == ColumnsOf(cleaned.main, u);
      if u == Documents {
        NoDocumentsAtEight();
      } else {
        AdmittedLater(7, u, ColumnsOf(a.main, u));
      }
    }
    if a.files.Some? {
      FilesLater(7, a.files.value);
    }
    forall f
      ensures f != Document ==> Payloads(b, f) == Payloads(cleaned, f)
      ensures f == Document ==> Payloads(b, f) == []
    {
      TableDropped(cleaned, Documents, f);
    }
    assert Ids(b.main, AppSettings) == Ids(cleaned.main, AppSettings);
    assert Ids(a.main, AppSettings) == Ids(cleaned.main, AppSettings);
  }

  lemma {:induction false} NoDocumentsAtEight()
    ensures Admits(8, Documents, None)
  {
  }

  lemma {:induction false} RemindersPass(tools: Tools, a: Namespace, b: Namespace)
    requires FieldPasses(a, ReminderPayload, {})
    requires RemindersDone(tools, Ids(a.main, Reminders), Payloads(a, ReminderPayload), Payloads(b, ReminderPayload))
    ensures FieldPasses(b, ReminderPayload, {})
  {
    hide Payloads, Ids, JsonDone, Passes;
    forall i | 0 <= i < |Payloads(b, ReminderPayload)|
      ensures Passes(ReminderPayload, Payloads(b, ReminderPayload)[i], {})
    {
      assert Passes(ReminderPayload, Payloads(a, ReminderPayload)[i], {});
      JsonCell(tools, SOUND_FIELDS, Ids(a.main, Reminders)[i], ReminderPayload, Payloads(a, ReminderPayload)[i],
          Payloads(b, ReminderPayload)[i]);
    }
  }

  lemma {:induction false} PreferencesPass(tools: Tools, removed: set<string>, a: Namespace, b: Namespace, f: Field)
    requires f in {ClientPreferences, PaletteUsage} && FieldPasses(a, f, {})
    requires exists k: nat :: PreferencesDone(tools, removed, k, Payloads(a, f), Payloads(b, f))
    ensures FieldPasses(b, f, {})
  {
    hide Payloads, JsonDone, Passes;
    var k: nat :| PreferencesDone(tools, removed, k, Payloads(a, f), Payloads(b, f));
    forall i | 0 <= i < |Payloads(b, f)|
      ensures Passes(f, Payloads(b, f)[i], {})
    {
      assert Passes(f, Payloads(a, f)[i], {});
      if i == k {
        JsonCell(tools, removed, Number(1), f, Payloads(a, f)[i], Payloads(b, f)[i]);
      }
    }
  }

  lemma {:induction false} Step8(tools: Tools, a: Namespace, b: Namespace)
    requires Unlocked(tools, a) && a.version == 8 && StepReady(8, tools, a) && StepDone(8, tools, a, b)
    ensures Carried(tools, a, b)
  {
    hide SchemasOk, Payloads, OneSettingsRow, SameShape, RemindersDone, PreferencesDone, Ids, FieldPasses, HasField,
      JsonReady, SOUND_PREFERENCES, SOUND_COMMANDS, WithFiles;
    var cleaned :| SoundsRetired(tools, a, cleaned, b);
    SettingsAtFirst(a);
    assert FieldPasses(a, ReminderPayload, Deferrable(8, ReminderPayload));
    assert FieldPasses(a, ClientPreferences, Deferrable(8, ClientPreferences));
    assert FieldPasses(a, PaletteUsage, Deferrable(8, PaletteUsage));
    RemindersPass(tools, a, cleaned);
    PreferencesPass(tools, SOUND_PREFERENCES, a, cleaned, ClientPreferences);
    PreferencesPass(tools, SOUND_COMMANDS, a, cleaned, PaletteUsage);
    OnlyFieldsShapeOf(a, cleaned, {ReminderPayload, ClientPreferences, PaletteUsage});
    DroppedSounds(a, cleaned, b);
    SettingsKept(a, b);
    Bumped(b, 9);
    var c := Next(a, b);
    SamePayloadsPass(cleaned, c, ReminderPayload);
    SamePayloadsPass(cleaned, c, ClientPreferences);
    SamePayloadsPass(cleaned, c, PaletteUsage);
    NextPassable(a, c, {ReminderPayload, ClientPreferences, PaletteUsage});
    SettingsJson(tools, a);
  }

  lemma {:induction false} SettingsAtFirst(a: Namespace)
    requires OneSettingsRow(a)
    ensures SettingsAt(Ids(a.main, AppSettings)) == Some(0)
  {
    assert Ids(a.main, AppSettings)[0] == Number(1);
  }

  lemma {:induction false} SettingsJson(tools: Tools, a: Namespace)
    requires OneSettingsRow(a) && StepReady(8, tools, a)
    ensures JsonPart(tools, a)
  {
    hide Payloads, JsonReady, OneSettingsRow;
    SettingsAtFirst(a);
    OneOfEach(a, ClientPreferences);
    OneOfEach(a, PaletteUsage);
  }

  lemma {:induction false} DroppedSounds(a: Namespace, cleaned: Namespace, b: Namespace)
    requires SchemasOk(a) && a.version == 8 && SameShape(a, cleaned) && b == WithFiles(cleaned, WithoutSounds)
    ensures SchemasOk(Next(a, b)) && Ids(b.main, AppSettings) == Ids(a.main, AppSettings)
    ensures b.encrypted == a.encrypted && b.vaultFaults == a.vaultFaults && b.main.intact == a.main.intact
    ensures b.files.Some? ==> a.files.Some? && b.files.value.intact == a.files.value.intact
    ensures forall f :: Payloads(b, f) == Payloads(cleaned, f) || Payloads(b, f) == []
    ensures forall f :: f in {ReminderPayload, ClientPreferences, PaletteUsage} ==>
        Payloads(b, f) == Payloads(cleaned, f)
  {
    hide Admits, Payloads, FILES_COLUMNS, PREVIEWS_COLUMNS, SOUNDS_COLUMNS;
    forall u
      ensures Admits(9, u, ColumnsOf(b.main, u))
    {
      assert Admits(8, u, ColumnsOf(a.main, u)) && ColumnsOf(a.main, u) == ColumnsOf(cleaned.main, u);
      AdmittedLater(8, u, ColumnsOf(a.main, u));
    }
    if a.files.Some? {
      forall u
        ensures AdmitsFiles(9, u, ColumnsOf(b.files.value, u))
      {
        assert AdmitsFiles(8, u, ColumnsOf(a.files.value, u));
      }
    }
    forall f
      ensures Payloads(b, f) == if TableOf(f) == Sounds then [] else Payloads(cleaned, f)
    {
      FilesChanged(cleaned, f);
    }
    assert Ids(a.main, AppSettings) == Ids(cleaned.main, AppSettings);
  }

  lemma {:induction false} Step9(tools: Tools, a: Namespace, b: Namespace)
    requires Unlocked(tools, a) && a.version == 9 && StepDone(9, tools, a, b)
    ensures Carried(tools, a, b)
  {
    hide SchemasOk, Payloads, OneSettingsRow, FieldPasses, EditableFiles;
    FilesUpgraded(a, b);
    forall f
      ensures Payloads(b, f) == Payloads(a, f)
    {
      FilesEditable(a, f);
    }
    assert b.main == a.main;
    SameDocumentIds(a, b);
    SchemaStep(tools, a, b);
  }

  lemma {:induction false} RevisedIsWhole(columns: set<Column>)
    requires columns == FILES_COLUMNS || columns == FILES_COLUMNS - {Revision}
    ensures columns + {Revision} == FILES_COLUMNS
  {
    hide Names, Group;
    assert Revision in FILES_COLUMNS;
  }

  lemma {:induction false} FilesUpgraded(a: Namespace, b: Namespace)
    requires SchemasOk(a) && a.version == 9 && b == WithFiles(a, EditableFiles)
    ensures SchemasOk(Next(a, b))
    ensures b.main == a.main && b.encrypted == a.encrypted && b.vaultFaults == a.vaultFaults
    ensures b.files.Some? ==> a.files.Some? && b.files.value.intact == a.files.value.intact
  {
    hide Admits, PREVIEWS_COLUMNS, SOUNDS_COLUMNS, Names, Group;
    forall u
      ensures Admits(10, u, ColumnsOf(b.main, u))
    {
      assert Admits(9, u, ColumnsOf(a.main, u));
      AdmittedLater(9, u, ColumnsOf(a.main, u));
    }
    if a.files.Some? {
      assert AdmitsFiles(9, Files, ColumnsOf(a.files.value, Files));
      RevisedIsWhole(a.files.value.tables[Files].columns);
      hide FILES_COLUMNS;
      forall u
        ensures AdmitsFiles(10, u, ColumnsOf(b.files.value, u))
      {
        assert AdmitsFiles(9, u, ColumnsOf(a.files.value, u));
      }
    }
  }
}
