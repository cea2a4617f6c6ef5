/** The read-only audit of one namespace, and what it means for it to report nothing fatal. */
module EncryptionAudit {
  import opened Wrappers
  import opened Base64
  import opened Vault

  // ---------- what the audit lets through ----------

  /** Fields that a database of version `v` may still hold in plain text. */
  function DeferredFields(v: int): set<Field> {
    if v == 0 then {ClientPreferences, PaletteUsage, TagPrefixes, ProposedTags}
    else if 1 <= v <= 5 then {ProposedTags}
    else {}
  }

  predicate IsNullable(f: Field) {
    f in {BackupSettings, ClientPreferences, PaletteUsage, TagPrefixes, OpenAiKey, LinkTitle}
  }

  predicate IsBinary(f: Field) {
    f in {FileBlob, SoundBlob, PreviewData}
  }

  predicate Absent(f: Field, p: Payload) {
    (p.value == Null || p.value == Text("")) && IsNullable(f) && p.nonce == Null && p.tag == Null
  }

  predicate Encrypted(f: Field, p: Payload) {
    && IsNonce(p.nonce) && IsTag(p.tag)
    && if IsBinary(f) then p.value.Blob? else p.value.Text? && IsCanonical(p.value.text)
  }

  /** No fatal finding about this payload, nonce reuse aside. */
  predicate Passes(f: Field, p: Payload, deferred: set<Field>) {
    Absent(f, p) || Encrypted(f, p) || (p.nonce == Null && p.tag == Null && f in deferred)
  }

  /** The columns a main database of version `v` may have for a table; None stands for no such table. */
  predicate Admits(v: int, t: Table, columns: Option<set<Column>>) {
    match t
    case Notes => columns == Some(NOTES_COLUMNS) || (v < 6 && columns == Some(NOTES_COLUMNS - Group(ProposedTags)))
    case AppSettings =>
      columns == Some(APP_SETTINGS_COLUMNS) || (v < 5 && columns == Some(APP_SETTINGS_COLUMNS - Group(OpenAiKey)))
    case OntologyRules => columns == Some(RULES_COLUMNS)
    case TabState => columns == Some(TAB_STATE_COLUMNS)
    case LinkTitles => columns == Some(LINK_TITLES_COLUMNS)
    case Reminders => columns == Some(REMINDERS_COLUMNS)
    case LaunchProfile => columns == Some(LAUNCH_PROFILE_COLUMNS)
    case SearchHistory => columns == Some(OPAQUE_SEARCH_COLUMNS) || (v < 3 && columns == Some(LEGACY_SEARCH_COLUMNS))
    case ContentMigrations => columns == Some(CONTENT_MIGRATIONS_COLUMNS) || (v < 2 && columns == None)
    case Documents => (v <= 7 && columns == Some(DOCUMENTS_COLUMNS)) || (v != 7 && columns == None)
    case _ => columns == None
  }

  /** The same for the files database. */
  predicate AdmitsFiles(v: int, t: Table, columns: Option<set<Column>>) {
    match t
    case Files => columns == Some(FILES_COLUMNS) || (v < 10 && columns == Some(FILES_COLUMNS - {Revision}))
    case Previews => columns == Some(PREVIEWS_COLUMNS) || (v < 10 && columns == None)
    case Sounds => columns == None || (v < 9 && columns == Some(SOUNDS_COLUMNS))
    case _ => columns == None
  }

  ghost predicate MainSchemaOk(v: int, db: Database) {
    forall t :: Admits(v, t, ColumnsOf(db, t))
  }

  ghost predicate FilesSchemaOk(v: int, db: Database) {
    forall t :: AdmitsFiles(v, t, ColumnsOf(db, t))
  }

  predicate OneSettingsRow(ns: Namespace) {
    |RowsOf(ns.main, AppSettings)| == 1 && RowsOf(ns.main, AppSettings)[0].id == Number(1)
  }

  ghost predicate SchemasOk(ns: Namespace) {
    && 0 <= ns.version <= CURRENT_DATABASE_VERSION && MainSchemaOk(ns.version, ns.main)
    && (ns.files.Some? ==> FilesSchemaOk(ns.version, ns.files.value))
  }

  function Deferrable(v: int, f: Field): set<Field> {
    if InFiles(f) then {} else DeferredFields(v)
  }

  ghost predicate FieldPasses(ns: Namespace, f: Field, deferred: set<Field>) {
    forall i :: 0 <= i < |Payloads(ns, f)| ==> Passes(f, Payloads(ns, f)[i], deferred)
  }

  /** The audit of this encrypted namespace reports nothing fatal. */
  ghost predicate Admitted(ns: Namespace) {
    && SchemasOk(ns) && ns.main.intact && (ns.files.Some? ==> ns.files.value.intact)
    && OneSettingsRow(ns) && ns.vaultFaults == 0
    && (forall f :: FieldPasses(ns, f, Deferrable(ns.version, f)))
    && exists owner :: Owned(ns, owner)
  }

  /** The search history still waits for the steps 2→3 or 3→4. */
  predicate SearchPending(ns: Namespace) {
    || (ns.version < 3 && ColumnsOf(ns.main, SearchHistory) == Some(LEGACY_SEARCH_COLUMNS))
    || (2 <= ns.version <= 3 && ColumnsOf(ns.main, SearchHistory) == Some(OPAQUE_SEARCH_COLUMNS))
  }

  /** The audit of this encrypted namespace reports nothing at all. */
  ghost predicate Clean(ns: Namespace) {
    Admitted(ns) && !SearchPending(ns) && forall f :: FieldPasses(ns, f, {})
  }

  // ---------- the schema the audit expects ----------

  type Schema = map<Table, set<Column>>

  function SchemaOf(db: Database): Schema {
    map t | t in db.tables :: db.tables[t].columns
  }

  predicate IsLegacySearch(v: int, actual: Schema) {
    v < 3 && SearchHistory in actual && actual[SearchHistory] == LEGACY_SEARCH_COLUMNS
  }

  function ColumnsIn(actual: Schema, t: Table): set<Column> {
    if t in actual then actual[t] else {}
  }

  function BaseSchema(legacySearch: bool, contentMigrations: bool): Schema {
    var base := map[
      Notes := NOTES_COLUMNS, AppSettings := APP_SETTINGS_COLUMNS, OntologyRules := RULES_COLUMNS,
      TabState := TAB_STATE_COLUMNS, LinkTitles := LINK_TITLES_COLUMNS, Reminders := REMINDERS_COLUMNS,
      SearchHistory := if legacySearch then LEGACY_SEARCH_COLUMNS else OPAQUE_SEARCH_COLUMNS,
      LaunchProfile := LAUNCH_PROFILE_COLUMNS];
    if contentMigrations then base[ContentMigrations := CONTENT_MIGRATIONS_COLUMNS] else base
  }

  /** The expected main schema, resolved step by step from the version and from what is there. */
  function ExpectedMain(v: int, actual: Schema): Schema {
    var base := BaseSchema(IsLegacySearch(v, actual), v >= 2 || ContentMigrations in actual);
    var documented := if v < 8 && (v == 7 || Documents in actual) then base[Documents := DOCUMENTS_COLUMNS] else base;
    var proposed :=
      if v < 6 && Group(ProposedTags) !! ColumnsIn(actual, Notes)
      then documented[Notes := documented[Notes] - Group(ProposedTags)] else documented;
    if v >= 5 || !(Group(OpenAiKey) !! ColumnsIn(actual, AppSettings)) then proposed
    else proposed[AppSettings := proposed[AppSettings] - Group(OpenAiKey)]
  }

  function ExpectedFiles(v: int, actual: Schema): Schema {
    var base := map[Files := FILES_COLUMNS, Previews := PREVIEWS_COLUMNS];
    var sounding := if v < 9 then base[Sounds := SOUNDS_COLUMNS] else base;
    var previewed := if v < 10 && Previews !in actual then sounding - {Previews} else sounding;
    var revised :=
      if v < 10 && Files in actual && Revision !in actual[Files]
      then previewed[Files := FILES_COLUMNS - {Revision}] else previewed;
    if Sounds !in actual then revised - {Sounds} else revised
  }

  function At(schema: Schema, t: Table): Option<set<Column>> {
    if t in schema then Some(schema[t]) else None
  }

  lemma {:induction false} SameSchema(actual: Schema, expected: Schema)
    ensures actual == expected <==> forall t :: At(actual, t) == At(expected, t)
  {
    if forall t :: At(actual, t) == At(expected, t) {
      forall t
        ensures t in actual <==> t in expected
        ensures t in actual ==> actual[t] == expected[t]
      {
        assert At(actual, t) == At(expected, t);
      }
    }
  }

  lemma {:induction false} OptionalGroups()
    ensures Group(ProposedTags) <= NOTES_COLUMNS && Group(OpenAiKey) <= APP_SETTINGS_COLUMNS
    ensures ValueOf(ProposedTags) in Group(ProposedTags) && ValueOf(OpenAiKey) in Group(OpenAiKey)
    ensures Group(SearchPayload) <= OPAQUE_SEARCH_COLUMNS
    ensures ValueOf(SearchPayload) !in LEGACY_SEARCH_COLUMNS && Revision in FILES_COLUMNS
  {
    hide Names;
  }

  /** Comparing with the resolved schema accepts exactly the admitted variants of each table. */
  lemma {:induction false} ExpectedMainIsAdmits(v: int, db: Database)
    requires 0 <= v <= CURRENT_DATABASE_VERSION
    ensures SchemaOf(db) == ExpectedMain(v, SchemaOf(db)) <==> MainSchemaOk(v, db)
  {
    hide ExpectedMain, Admits;
    var actual := SchemaOf(db);
    forall t
      ensures At(actual, t) == ColumnsOf(db, t)
      ensures At(actual, t) == At(ExpectedMain(v, actual), t) <==> Admits(v, t, At(actual, t))
    {
      ExpectedAt(v, actual, t);
    }
    SameSchema(actual, ExpectedMain(v, actual));
  }

  lemma {:induction false} ExpectedAt(v: int, actual: Schema, t: Table)
    requires 0 <= v <= CURRENT_DATABASE_VERSION
    ensures At(actual, t) == At(ExpectedMain(v, actual), t) <==> Admits(v, t, At(actual, t))
  {
    OptionalGroups();
    Resolved(v, actual, t);
    hide ExpectedMain, NOTES_COLUMNS, APP_SETTINGS_COLUMNS, OPAQUE_SEARCH_COLUMNS, LEGACY_SEARCH_COLUMNS,
      RULES_COLUMNS, TAB_STATE_COLUMNS, LINK_TITLES_COLUMNS, REMINDERS_COLUMNS, LAUNCH_PROFILE_COLUMNS,
      CONTENT_MIGRATIONS_COLUMNS, DOCUMENTS_COLUMNS, Group;
  }

  /** What the resolution comes to for one table. */
  lemma {:induction false} Resolved(v: int, actual: Schema, t: Table)
    requires 0 <= v <= CURRENT_DATABASE_VERSION
    ensures At(ExpectedMain(v, actual), t) == match t
      case Notes =>
        Some(if v < 6 && Group(ProposedTags) !! ColumnsIn(actual, Notes)
             then NOTES_COLUMNS - Group(ProposedTags) else NOTES_COLUMNS)
      case AppSettings =>
        Some(if v < 5 && Group(OpenAiKey) !! ColumnsIn(actual, AppSettings)
             then APP_SETTINGS_COLUMNS - Group(OpenAiKey) else APP_SETTINGS_COLUMNS)
      case SearchHistory => Some(if IsLegacySearch(v, actual) then LEGACY_SEARCH_COLUMNS else OPAQUE_SEARCH_COLUMNS)
      case ContentMigrations => if v >= 2 || ContentMigrations in actual then Some(CONTENT_MIGRATIONS_COLUMNS) else None
      case Documents => if v == 7 || (v < 7 && Documents in actual) then Some(DOCUMENTS_COLUMNS) else None
      case OntologyRules => Some(RULES_COLUMNS)
      case TabState => Some(TAB_STATE_COLUMNS)
      case LinkTitles => Some(LINK_TITLES_COLUMNS)
      case Reminders => Some(REMINDERS_COLUMNS)
      case LaunchProfile => Some(LAUNCH_PROFILE_COLUMNS)
      case _ => None
  {
    var legacy, content := IsLegacySearch(v, actual), v >= 2 || ContentMigrations in actual;
    BaseAt(legacy, content, t);
    BaseAt(legacy, content, Notes);
    BaseAt(legacy, content, AppSettings);
    hide BaseSchema, IsLegacySearch, NOTES_COLUMNS, APP_SETTINGS_COLUMNS, OPAQUE_SEARCH_COLUMNS, LEGACY_SEARCH_COLUMNS,
      RULES_COLUMNS, TAB_STATE_COLUMNS, LINK_TITLES_COLUMNS, REMINDERS_COLUMNS, LAUNCH_PROFILE_COLUMNS,
      CONTENT_MIGRATIONS_COLUMNS, DOCUMENTS_COLUMNS, Group;
  }

  lemma {:induction false} BaseAt(legacy: bool, content: bool, t: Table)
    ensures At(BaseSchema(legacy, content), t) == match t
      case Notes => Some(NOTES_COLUMNS)
      case AppSettings => Some(APP_SETTINGS_COLUMNS)
      case SearchHistory => Some(if legacy then LEGACY_SEARCH_COLUMNS else OPAQUE_SEARCH_COLUMNS)
      case ContentMigrations => if content then Some(CONTENT_MIGRATIONS_COLUMNS) else None
      case OntologyRules => Some(RULES_COLUMNS)
      case TabState => Some(TAB_STATE_COLUMNS)
      case LinkTitles => Some(LINK_TITLES_COLUMNS)
      case Reminders => Some(REMINDERS_COLUMNS)
      case LaunchProfile => Some(LAUNCH_PROFILE_COLUMNS)
      case _ => None
  {
    hide NOTES_COLUMNS, APP_SETTINGS_COLUMNS, OPAQUE_SEARCH_COLUMNS, LEGACY_SEARCH_COLUMNS,
      RULES_COLUMNS, TAB_STATE_COLUMNS, LINK_TITLES_COLUMNS, REMINDERS_COLUMNS, LAUNCH_PROFILE_COLUMNS,
      CONTENT_MIGRATIONS_COLUMNS;
  }

  lemma {:induction false} ExpectedFilesAt(v: int, actual: Schema, t: Table)
    requires 0 <= v <= CURRENT_DATABASE_VERSION
    ensures At(actual, t) == At(ExpectedFiles(v, actual), t) <==> AdmitsFiles(v, t, At(actual, t))
  {
    hide SOUNDS_COLUMNS, PREVIEWS_COLUMNS, Names, Group;
  }

  lemma {:induction false} ExpectedFilesIsAdmits(v: int, db: Database)
    requires 0 <= v <= CURRENT_DATABASE_VERSION
    ensures SchemaOf(db) == ExpectedFiles(v, SchemaOf(db)) <==> FilesSchemaOk(v, db)
  {
    hide ExpectedFiles, AdmitsFiles;
    var actual := SchemaOf(db);
    forall t
      ensures At(actual, t) == ColumnsOf(db, t)
      ensures At(actual, t) == At(ExpectedFiles(v, actual), t) <==> AdmitsFiles(v, t, At(actual, t))
    {
      ExpectedFilesAt(v, actual, t);
    }
    SameSchema(actual, ExpectedFiles(v, actual));
  }
}
