/** Auditing a namespace: its main database, then its files database. */
module NamespaceAudit {
  import opened Wrappers
  import opened Vault
  import opened EncryptionAudit
  import opened AuditRun

  function MainSpecs(legacySearch: bool): seq<Field> {
    [NoteContent, NoteTags, ProposedTags, BackupSettings, ClientPreferences, PaletteUsage, TagPrefixes, OpenAiKey,
     RuleText, Document, TabStateJson, LinkUrl, LinkTitle, ReminderPayload]
    + (if legacySearch then [QueryKey, RootTag, TagsJson] else [SearchPayload])
  }

  function FileSpecs(v: int): seq<Field> {
    [FileTitle, FileMetadata, FileBlob] + (if v < 9 then [SoundTitle, SoundMetadata, SoundBlob] else []) + [PreviewData]
  }

  predicate IsLegacy(ns: Namespace) {
    IsLegacySearch(ns.version, SchemaOf(ns.main))
  }

  // ---------- which payloads are visited ----------

  lemma {:induction false} MainSpecsAreNew(legacySearch: bool)
    ensures NewFields({}, MainSpecs(legacySearch)) && forall f :: f in MainSpecs(legacySearch) ==> !InFiles(f)
  {
    var specs := MainSpecs(legacySearch);
    assert |specs| == if legacySearch then 17 else 15;
    forall i | 0 <= i < |specs|
      ensures SpecAt(specs[i]) == if i < 14 || legacySearch then i else 17
    {
      MainSpecAt(legacySearch, i);
    }
  }

  /** The place of a main field in the list of specs. */
  ghost function SpecAt(f: Field): nat {
    match f
    case NoteContent => 0 case NoteTags => 1 case ProposedTags => 2 case BackupSettings => 3
    case ClientPreferences => 4 case PaletteUsage => 5 case TagPrefixes => 6 case OpenAiKey => 7
    case RuleText => 8 case Document => 9 case TabStateJson => 10 case LinkUrl => 11 case LinkTitle => 12
    case ReminderPayload => 13 case QueryKey => 14 case RootTag => 15 case TagsJson => 16
    case _ => 17
  }

  lemma {:induction false} MainSpecAt(legacySearch: bool, i: nat)
    requires i < |MainSpecs(legacySearch)|
    ensures SpecAt(MainSpecs(legacySearch)[i]) == if i < 14 || legacySearch then i else 17
  {
  }

  lemma {:induction false} SpecsAreNew(legacySearch: bool, v: int)
    ensures NewFields({}, MainSpecs(legacySearch)) && forall f :: f in MainSpecs(legacySearch) ==> !InFiles(f)
    ensures NewFields(Elements(MainSpecs(legacySearch)), FileSpecs(v)) && forall f :: f in FileSpecs(v) ==> InFiles(f)
  {
    MainSpecsAreNew(legacySearch);
    hide MainSpecs;
  }

  lemma {:induction false} PayloadsAreCells(ns: Namespace, legacySearch: bool)
    ensures forall f :: f in MainSpecs(legacySearch) ==> Payloads(ns, f) == Cells(ns.main, f)
    ensures ns.files.Some? ==> forall f :: f in FileSpecs(ns.version) ==> Payloads(ns, f) == Cells(ns.files.value, f)
  {
    SpecsAreNew(legacySearch, ns.version);
    hide MainSpecs, FileSpecs, InFiles, Cells;
  }

  lemma {:induction false} UnvisitedMain(ns: Namespace, f: Field)
    requires SchemasOk(ns) && !InFiles(f) && f !in MainSpecs(IsLegacy(ns))
    ensures Payloads(ns, f) == []
  {
    hide MainSpecs, LEGACY_SEARCH_COLUMNS, OPAQUE_SEARCH_COLUMNS, Admits, SchemasOk, SearchPending;
    UnvisitedSearch(f, IsLegacy(ns));
    SearchAdmitted(ns);
    LegacyOrOpaque();
    assert ValueOf(f) in Group(f);
  }

  lemma {:induction false} SearchAdmitted(ns: Namespace)
    requires SchemasOk(ns)
    ensures ColumnsOf(ns.main, SearchHistory)
        == Some(if IsLegacy(ns) then LEGACY_SEARCH_COLUMNS else OPAQUE_SEARCH_COLUMNS)
  {
    assert Admits(ns.version, SearchHistory, ColumnsOf(ns.main, SearchHistory));
    hide NOTES_COLUMNS, APP_SETTINGS_COLUMNS, RULES_COLUMNS, TAB_STATE_COLUMNS, LINK_TITLES_COLUMNS, REMINDERS_COLUMNS,
      LAUNCH_PROFILE_COLUMNS, CONTENT_MIGRATIONS_COLUMNS, DOCUMENTS_COLUMNS, LEGACY_SEARCH_COLUMNS,
          OPAQUE_SEARCH_COLUMNS;
  }

  lemma {:induction false} UnvisitedSearch(f: Field, legacySearch: bool)
    requires !InFiles(f) && f !in MainSpecs(legacySearch)
    ensures f in if legacySearch then {SearchPayload} else {QueryKey, RootTag, TagsJson}
  {
  }

  lemma {:induction false} LegacyOrOpaque()
    ensures ValueOf(SearchPayload) !in LEGACY_SEARCH_COLUMNS
    ensures ValueOf(QueryKey) !in OPAQUE_SEARCH_COLUMNS && ValueOf(RootTag) !in OPAQUE_SEARCH_COLUMNS
    ensures ValueOf(TagsJson) !in OPAQUE_SEARCH_COLUMNS
  {
    hide Names;
  }

  lemma {:induction false} UnvisitedFiles(ns: Namespace, f: Field)
    requires SchemasOk(ns) && InFiles(f) && (ns.files.None? || f !in FileSpecs(ns.version))
    ensures Payloads(ns, f) == []
  {
    if ns.files.Some? {
      assert AdmitsFiles(ns.version, Sounds, ColumnsOf(ns.files.value, Sounds));
      assert f in {SoundTitle, SoundMetadata, SoundBlob};
      assert TableOf(f) !in ns.files.value.tables;
    }
  }

  /** Who used a nonce first is the owner, if anybody owns them all. */
  lemma {:induction false} FirstUserOwns(ns: Namespace, owner: Owner, other: Owner, done: set<Field>, f: Field)
    requires Known(ns, owner, done) && Owned(ns, other) && f in done
    ensures OwnedBy(ns, owner, f)
  {
    forall i: nat | i < |Payloads(ns, f)|
      ensures OwnsAt(owner, Payloads(ns, f)[i], f, i)
    {
      var p := Payloads(ns, f)[i];
      if Recorded(p) {
        assert Visited(done, NoteContent, 0, (f, i));
        var at := owner[p.nonce.bytes];
        assert Uses(ns, at, p.nonce.bytes);
        assert OwnsAt(other, Payloads(ns, at.0)[at.1], at.0, at.1);
        assert OwnsAt(other, p, f, i);
      }
    }
  }

  // ---------- the audit ----------

  ghost predicate VaultOk(ns: Namespace) {
    AppSettings in ns.main.tables && VAULT_COLUMNS <= ns.main.tables[AppSettings].columns ==>
      OneSettingsRow(ns) && ns.vaultFaults == 0
  }

  method AuditVaultSettings(state: AuditState, ns: Namespace)
    modifies state`counts
    ensures state.Quiet() <==> old(state.Quiet()) && VaultOk(ns)
    ensures state.Silent() <==> old(state.Silent()) && VaultOk(ns)
  {
    hide NothingFatal, VAULT_COLUMNS;
    if AppSettings !in ns.main.tables || !(VAULT_COLUMNS <= ns.main.tables[AppSettings].columns) { return; }
    if !OneSettingsRow(ns) {
      state.AddFinding(false, AppSettings, Some(Plain("id")), SettingsRow);
      return;
    }
    if ns.vaultFaults > 0 {
      state.AddFinding(false, AppSettings, None, VaultValue);
    }
  }

  method AuditIntegrity(state: AuditState, db: Database, inFiles: bool)
    modifies state`counts
    ensures state.Quiet() <==> old(state.Quiet()) && db.intact
    ensures state.Silent() <==> old(state.Silent()) && db.intact
  {
    if !db.intact {
      state.AddFinding(inFiles, Other("<database>"), None, NotIntact);
    }
  }

  /** One database against the schema expected of it. */
  ghost predicate DatabaseOk(ns: Namespace, owner: Owner, db: Database, expected: Schema, specs: seq<Field>,
        deferred: set<Field>) {
    db.intact && SchemaOf(db) == expected && FieldsPass(ns, owner, specs, deferred)
  }

  method AuditDatabase(
    state: AuditState, db: Database, inFiles: bool, expected: Schema, specs: seq<Field>, deferred: set<Field>,
    ghost ns: Namespace, ghost done: set<Field>)
    requires state.Valid() && NewFields(done, specs) && Known(ns, state.owner, done)
    requires forall f :: f in specs ==> Payloads(ns, f) == Cells(db, f)
    modifies state
    ensures state.Valid() && Known(ns, state.owner, done + Elements(specs)) && Extends(old(state.owner), state.owner)
    ensures state.Quiet() <==> old(state.Quiet()) && DatabaseOk(ns, state.owner, db, expected, specs, deferred)
    ensures state.Silent() <==> old(state.Silent()) && DatabaseOk(ns, state.owner, db, expected, specs, {})
  {
    hide NothingFatal, NewFields, Known, FieldsPass, Payloads, Cells, Elements;
    AuditIntegrity(state, db, inFiles);
    state.AuditSchema(inFiles, SchemaOf(db), expected);
    state.AuditPayloads(db, specs, inFiles, deferred, ns, done);
  }

  /** One of the two notes on the search history that wait for a migration. */
  method NoteSearchHistory(state: AuditState, ns: Namespace)
    requires 0 <= ns.version
    modifies state`counts
    ensures state.Quiet() <==> old(state.Quiet())
    ensures state.Silent() <==> old(state.Silent()) && !SearchPending(ns)
  {
    hide NothingFatal, LEGACY_SEARCH_COLUMNS, OPAQUE_SEARCH_COLUMNS;
    var columns := ColumnsIn(SchemaOf(ns.main), SearchHistory);
    if IsLegacy(ns) {
      state.AddMigrationFinding(false, SearchHistory, None, LegacySearch);
    } else if 2 <= ns.version <= 3 && columns == OPAQUE_SEARCH_COLUMNS {
      OpaqueIsSome();
      state.AddMigrationFinding(false, SearchHistory, None, ResetPending);
    }
  }

  lemma {:induction false} OpaqueIsSome()
    ensures OPAQUE_SEARCH_COLUMNS != {}
  {
    assert ValueOf(SearchPayload) in OPAQUE_SEARCH_COLUMNS;
  }

  predicate SettingsReadable(ns: Namespace) {
    && AppSettings in ns.main.tables && Plain("encryption_enabled") in ns.main.tables[AppSettings].columns
    && |SettingsRows(RowsOf(ns.main, AppSettings))| == 1
  }

  /** The settings rows with id 1. */
  function SettingsRows(rows: seq<Row>): seq<Row> {
    if rows == [] then [] else (if rows[0].id == Number(1) then [rows[0]] else []) + SettingsRows(rows[1..])
  }

  lemma {:induction false} NothingKnown(ns: Namespace)
    ensures Known(ns, map[], {}) && NothingFatal(map[])
  {
  }

  lemma {:induction false} UnvisitedPass(ns: Namespace, owner: Owner, f: Field, deferred: set<Field>)
    requires Payloads(ns, f) == []
    ensures FieldPasses(ns, f, deferred) && OwnedBy(ns, owner, f)
  {
  }

  /** Everything the audit checks, with `deferred` allowed in plain text in the main database. */
  ghost predicate AllOk(ns: Namespace, deferred: set<Field>) {
    && SchemasOk(ns) && ns.main.intact && (ns.files.Some? ==> ns.files.value.intact)
    && OneSettingsRow(ns) && ns.vaultFaults == 0
    && (forall f :: FieldPasses(ns, f, if InFiles(f) then {} else deferred))
    && exists owner :: Owned(ns, owner)
  }

  lemma {:induction false} AllOkIsAdmitted(ns: Namespace)
    ensures AllOk(ns, DeferredFields(ns.version)) <==> Admitted(ns)
    ensures AllOk(ns, {}) && !SearchPending(ns) <==> Clean(ns)
  {
    hide SchemasOk, OneSettingsRow, SearchPending, Owned;
    if AllOk(ns, {}) || Clean(ns) {
      forall f
        ensures FieldPasses(ns, f, {}) && FieldPasses(ns, f, Deferrable(ns.version, f))
      {
        assert AllOk(ns, {}) ==> FieldPasses(ns, f, if InFiles(f) then {} else {});
        assert forall i :: 0 <= i < |Payloads(ns, f)| ==> Passes(f, Payloads(ns, f)[i], {});
      }
    }
    if AllOk(ns, DeferredFields(ns.version)) {
      forall f
        ensures FieldPasses(ns, f, Deferrable(ns.version, f))
      {
        assert FieldPasses(ns, f, if InFiles(f) then {} else DeferredFields(ns.version));
      }
    }
    if Admitted(ns) {
      forall f
        ensures FieldPasses(ns, f, if InFiles(f) then {} else DeferredFields(ns.version))
      {
        assert FieldPasses(ns, f, Deferrable(ns.version, f));
      }
    }
  }

  /** The nonces known after the main database, and after both. */
  ghost predicate KnownBoth(ns: Namespace, mid: Owner, owner: Owner) {
    var main := Elements(MainSpecs(IsLegacy(ns)));
    && Known(ns, mid, main) && Extends(mid, owner)
    && if ns.files.Some? then Known(ns, owner, main + Elements(FileSpecs(ns.version))) else owner == mid
  }

  ghost predicate MainDatabaseOk(ns: Namespace, mid: Owner, deferred: set<Field>) {
    DatabaseOk(ns, mid, ns.main, ExpectedMain(ns.version, SchemaOf(ns.main)), MainSpecs(IsLegacy(ns)), deferred)
  }

  ghost predicate FilesDatabaseOk(ns: Namespace, owner: Owner) {
    ns.files.Some? ==>
      var files := ns.files.value;
      DatabaseOk(ns, owner, files, ExpectedFiles(ns.version, SchemaOf(files)), FileSpecs(ns.version), {})
  }

  lemma {:induction false} SchemaVerdict(ns: Namespace)
    requires 0 <= ns.version <= CURRENT_DATABASE_VERSION
    ensures SchemasOk(ns) <==>
      && SchemaOf(ns.main) == ExpectedMain(ns.version, SchemaOf(ns.main))
      && (ns.files.Some? ==> SchemaOf(ns.files.value) == ExpectedFiles(ns.version, SchemaOf(ns.files.value)))
    ensures SchemasOk(ns) ==> (VaultOk(ns) <==> OneSettingsRow(ns) && ns.vaultFaults == 0)
  {
    hide ExpectedMain, ExpectedFiles;
    ExpectedMainIsAdmits(ns.version, ns.main);
    if ns.files.Some? {
      ExpectedFilesIsAdmits(ns.version, ns.files.value);
    }
    if SchemasOk(ns) {
      assert Admits(ns.version, AppSettings, ColumnsOf(ns.main, AppSettings));
      VaultColumnsAreThere();
    }
  }

  lemma {:induction false} VaultColumnsAreThere()
    ensures VAULT_COLUMNS <= APP_SETTINGS_COLUMNS && VAULT_COLUMNS <= APP_SETTINGS_COLUMNS - Group(OpenAiKey)
  {
    hide Names;
  }

  /** Passing both databases is passing every field with one owner for all nonces. */
  lemma {:induction false} PayloadsVerdict(ns: Namespace, mid: Owner, owner: Owner, deferred: set<Field>)
    requires SchemasOk(ns) && KnownBoth(ns, mid, owner)
    ensures
      && FieldsPass(ns, mid, MainSpecs(IsLegacy(ns)), deferred)
      && (ns.files.Some? ==> FieldsPass(ns, owner, FileSpecs(ns.version), {}))
      <==>
      && (forall f :: FieldPasses(ns, f, if InFiles(f) then {} else deferred))
      && exists other :: Owned(ns, other)
  {
    hide SchemasOk, Knows, Extends, OwnedBy, FieldPasses, Payloads, Elements;
    SpecsAreNew(IsLegacy(ns), ns.version);
    hide MainSpecs, FileSpecs, IsLegacySearch;
    var specs, fileSpecs := MainSpecs(IsLegacy(ns)), FileSpecs(ns.version);
    InElements(specs);
    InElements(fileSpecs);
    forall f
      ensures f !in specs && (ns.files.None? || f !in fileSpecs) ==>
        OwnedBy(ns, owner, f) && FieldPasses(ns, f, deferred) && FieldPasses(ns, f, {})
      ensures f in specs ==> (OwnedBy(ns, mid, f) <==> OwnedBy(ns, owner, f))
    {
      if f in specs {
        VerdictStays(ns, mid, owner, Elements(specs), NoteContent, 0, f);
      } else if ns.files.None? || f !in fileSpecs {
        if InFiles(f) { UnvisitedFiles(ns, f); } else { UnvisitedMain(ns, f); }
        UnvisitedPass(ns, owner, f, deferred);
        UnvisitedPass(ns, owner, f, {});
      }
    }
    OwnersAgree(ns, mid, owner);
  }

  lemma {:induction false} InElements(specs: seq<Field>)
    ensures forall f :: f in Elements(specs) <==> f in specs
  {
  }

  lemma {:induction false} OwnersAgree(ns: Namespace, mid: Owner, owner: Owner)
    requires KnownBoth(ns, mid, owner)
    ensures forall other :: Owned(ns, other) ==>
      && (forall f :: f in MainSpecs(IsLegacy(ns)) ==> OwnedBy(ns, mid, f))
      && (ns.files.Some? ==> forall f :: f in FileSpecs(ns.version) ==> OwnedBy(ns, owner, f))
    ensures (forall f :: OwnedBy(ns, owner, f)) ==> Owned(ns, owner)
  {
    hide MainSpecs, FileSpecs, IsLegacySearch, Known, Payloads, OwnsAt;
    var specs, fileSpecs := MainSpecs(IsLegacy(ns)), FileSpecs(ns.version);
    InElements(specs);
    InElements(fileSpecs);
    forall other, f | Owned(ns, other)
      ensures f in specs ==> OwnedBy(ns, mid, f)
      ensures ns.files.Some? && f in fileSpecs ==> OwnedBy(ns, owner, f)
    {
      if f in specs {
        FirstUserOwns(ns, mid, other, Elements(specs), f);
      }
      if ns.files.Some? && f in fileSpecs {
        FirstUserOwns(ns, owner, other, Elements(specs) + Elements(fileSpecs), f);
      }
    }
    if forall f :: OwnedBy(ns, owner, f) {
      forall f: Field, i: nat | i < |Payloads(ns, f)|
        ensures OwnsAt(owner, Payloads(ns, f)[i], f, i)
      {
        assert OwnedBy(ns, owner, f);
      }
    }
  }

  lemma {:induction false} Verdict(ns: Namespace, mid: Owner, owner: Owner, deferred: set<Field>)
    requires 0 <= ns.version <= CURRENT_DATABASE_VERSION && KnownBoth(ns, mid, owner)
    ensures MainDatabaseOk(ns, mid, deferred) && VaultOk(ns) && FilesDatabaseOk(ns, owner) <==> AllOk(ns, deferred)
  {
    hide ExpectedMain, ExpectedFiles, SchemasOk, MainSpecs, FileSpecs, FieldsPass, KnownBoth, VaultOk, OneSettingsRow,
      SchemaOf, Owned;
    SchemaVerdict(ns);
    if SchemasOk(ns) {
      PayloadsVerdict(ns, mid, owner, deferred);
    }
  }

  /** What the audit reports is exactly the two conditions, of the whole namespace. */
  method AuditNamespace(ns: Namespace) returns (r: Result<AuditResult, AuditError>)
    ensures r.Err? <==>
        !SettingsReadable(ns) || ns.version < 0 || (ns.encrypted && ns.version > CURRENT_DATABASE_VERSION)
    ensures r.Ok? ==> r.value.encrypted == ns.encrypted
    ensures r.Ok? && !ns.encrypted ==> r.value.counts == map[] && r.value.checked == 0
    ensures r.Ok? && ns.encrypted ==> (NothingFatal(r.value.counts) <==> Admitted(ns))
    ensures r.Ok? && ns.encrypted ==> (r.value.counts == map[] <==> Clean(ns))
  {
    hide NothingFatal, Admitted, Clean, MainSpecs, FileSpecs, ExpectedMain, ExpectedFiles, SearchPending,
      FieldsPass, Known, NewFields, Elements, DatabaseOk, VaultOk, IsLegacySearch;
    if !SettingsReadable(ns) { return Err(NoSettings); }
    if ns.version < 0 { return Err(BadVersion); }
    var state := new AuditState();
    if !ns.encrypted { return Ok(AuditResult(false, 0, state.counts)); }
    if ns.version > CURRENT_DATABASE_VERSION { return Err(BadVersion); }
    var legacy := IsLegacy(ns);
    var v := ns.version;
    SpecsAreNew(legacy, v);
    PayloadsAreCells(ns, legacy);
    NothingKnown(ns);
    hide Payloads, Cells, InFiles, AllOk;
    NoteSearchHistory(state, ns);
    AuditDatabase(state, ns.main, false, ExpectedMain(v, SchemaOf(ns.main)), MainSpecs(legacy), DeferredFields(v), ns,
        {});
    if AppSettings in ns.main.tables {
      AuditVaultSettings(state, ns);
    }
    ghost var mid := state.owner;
    assert {} + Elements(MainSpecs(legacy)) == Elements(MainSpecs(legacy));
    if ns.files.Some? {
      AuditDatabase(state, ns.files.value, true, ExpectedFiles(v, SchemaOf(ns.files.value)), FileSpecs(v), {}, ns,
                    Elements(MainSpecs(legacy)));
    }
    Verdict(ns, mid, state.owner, DeferredFields(v));
    Verdict(ns, mid, state.owner, {});
    AllOkIsAdmitted(ns);
    return Ok(AuditResult(true, state.checked, state.counts));
  }
}
