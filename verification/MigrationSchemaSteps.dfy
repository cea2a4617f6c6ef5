/** The steps that only change tables and columns. */
module MigrationSchemaSteps {
  import opened Wrappers
  import opened Vault
  import opened MigrationSteps
  import opened Migrations
  import opened MigrationFrames
  import opened MigrationProgram

  /** Put a changed namespace in place. */
  method Install(db: NamespaceDatabase, service: EncryptionService, next: Namespace)
    requires Working(db, service, 0) && KeyedTables(next) && NoNewNonces(db.ns, next)
    modifies db
    ensures db.ns == next && db.owner == old(db.owner) && Working(db, service, |service.draws|)
    ensures old(Safe(db, service)) ==> Safe(db, service)
  {
    hide NoNewNonces, Secure, KeyedTables;
    if Safe(db, service) {
      StaysSecure(db.ns, next, db.owner, service.draws);
    }
    db.ns := next;
  }

  method Migrate1To2(db: NamespaceDatabase, service: EncryptionService) returns (r: Result<nat, MigrationError>)
    requires Working(db, service, 0)
    modifies db
    ensures Working(db, service, |service.draws|)
    ensures old(Safe(db, service)) ==> Safe(db, service)
    ensures r.Ok? && StepDone(1, service.tools, old(db.ns), db.ns)
  {
    hide KeyedTables, NoNewNonces, Secure, CONTENT_MIGRATIONS_COLUMNS;
    if ContentMigrations !in db.ns.main.tables {
      EmptyTable(db.ns, ContentMigrations, CONTENT_MIGRATIONS_COLUMNS);
      Install(db, service, WithTable(db.ns, ContentMigrations, Relation(CONTENT_MIGRATIONS_COLUMNS, [])));
    }
    return Ok(0);
  }

  method Migrate2To3(db: NamespaceDatabase, service: EncryptionService) returns (r: Result<nat, MigrationError>)
    requires Working(db, service, 0)
    modifies db
    ensures Working(db, service, |service.draws|)
    ensures old(Safe(db, service)) ==> Safe(db, service)
    ensures r.Ok? <==> StepReady(2, service.tools, old(db.ns))
    ensures r.Ok? ==> StepDone(2, service.tools, old(db.ns), db.ns)
  {
    hide KeyedTables, NoNewNonces, Secure, OPAQUE_SEARCH_COLUMNS, LEGACY_SEARCH_COLUMNS;
    SearchColumnsNamed();
    var columns := if SearchHistory in db.ns.main.tables then db.ns.main.tables[SearchHistory].columns else {};
    if columns == OPAQUE_SEARCH_COLUMNS { return Ok(0); }
    if columns != LEGACY_SEARCH_COLUMNS { return Err(UnexpectedSearchSchema); }
    var count := |db.ns.main.tables[SearchHistory].rows|;
    SearchReplaced(db.ns);
    Install(db, service, OpaqueSearch(db.ns));
    return Ok(count);
  }

  lemma {:induction false} SearchColumnsNamed()
    ensures OPAQUE_SEARCH_COLUMNS != {} && LEGACY_SEARCH_COLUMNS != {}
  {
    hide Names;
    assert ValueOf(SearchPayload) in OPAQUE_SEARCH_COLUMNS && ValueOf(QueryKey) in LEGACY_SEARCH_COLUMNS;
  }

  method Migrate3To4(db: NamespaceDatabase, service: EncryptionService) returns (r: Result<nat, MigrationError>)
    requires Working(db, service, 0)
    modifies db
    ensures Working(db, service, |service.draws|)
    ensures old(Safe(db, service)) ==> Safe(db, service)
    ensures r.Ok? <==> StepReady(3, service.tools, old(db.ns))
    ensures r.Ok? ==> StepDone(3, service.tools, old(db.ns), db.ns)
  {
    hide KeyedTables, NoNewNonces, Secure, OPAQUE_SEARCH_COLUMNS;
    SearchColumnsNamed();
    var columns := if SearchHistory in db.ns.main.tables then db.ns.main.tables[SearchHistory].columns else {};
    if columns != OPAQUE_SEARCH_COLUMNS { return Err(UnexpectedSearchSchema); }
    var count := |db.ns.main.tables[SearchHistory].rows|;
    EmptyTable(db.ns, SearchHistory, columns);
    Install(db, service, WithTable(db.ns, SearchHistory, db.ns.main.tables[SearchHistory].(rows := [])));
    return Ok(count);
  }

  /** The existing columns of a group, and three ALTER TABLE statements when there are none. */
  method AddColumns(db: NamespaceDatabase, service: EncryptionService, f: Field, default: Payload)
    returns (problem: Option<MigrationError>)
    requires Working(db, service, 0) && !InFiles(f) && default.nonce == Null
    modifies db
    ensures Working(db, service, |service.draws|)
    ensures old(Safe(db, service)) ==> Safe(db, service)
    ensures problem.None? <==> CanAdd(old(db.ns), f)
    ensures problem.None? ==> db.ns == Added(old(db.ns), f, default)
  {
    hide KeyedTables, NoNewNonces, Secure, Group;
    GroupIsSome(f);
    if TableOf(f) !in db.ns.main.tables { return Some(NoSuchTable); }
    var existing := Group(f) * db.ns.main.tables[TableOf(f)].columns;
    if existing == Group(f) {
      assert Group(f) <= db.ns.main.tables[TableOf(f)].columns;
      return None;
    }
    if existing != {} { return Some(PartialSchema); }
    assert forall c :: c in Group(f) ==> c !in existing;
    assert Group(f) !! db.ns.main.tables[TableOf(f)].columns;
    GroupAddedKeeps(db.ns, f, default);
    Install(db, service, Added(db.ns, f, default));
    return None;
  }

  lemma {:induction false} GroupIsSome(f: Field)
    ensures Group(f) != {}
  {
    assert ValueOf(f) in Group(f);
  }

  method Migrate4To5(db: NamespaceDatabase, service: EncryptionService) returns (r: Result<nat, MigrationError>)
    requires Working(db, service, 0)
    modifies db
    ensures Working(db, service, |service.draws|)
    ensures old(Safe(db, service)) ==> Safe(db, service)
    ensures r.Ok? <==> StepReady(4, service.tools, old(db.ns))
    ensures r.Ok? ==> StepDone(4, service.tools, old(db.ns), db.ns)
  {
    hide KeyedTables, Secure, CanAdd, Added;
    var problem := AddColumns(db, service, OpenAiKey, Payload(Null, Null, Null));
    return if problem.Some? then Err(problem.value) else Ok(0);
  }

  method Migrate6To7(db: NamespaceDatabase, service: EncryptionService) returns (r: Result<nat, MigrationError>)
    requires Working(db, service, 0)
    modifies db
    ensures Working(db, service, |service.draws|)
    ensures old(Safe(db, service)) ==> Safe(db, service)
    ensures r.Ok? && StepDone(6, service.tools, old(db.ns), db.ns)
  {
    hide KeyedTables, NoNewNonces, Secure, DOCUMENTS_COLUMNS;
    if Documents !in db.ns.main.tables {
      EmptyTable(db.ns, Documents, DOCUMENTS_COLUMNS);
      Install(db, service, WithTable(db.ns, Documents, Relation(DOCUMENTS_COLUMNS, [])));
    }
    return Ok(0);
  }

  lemma {:induction false} FilesOnly(ns: Namespace)
    requires KeyedTables(ns)
    ensures NoNewNonces(ns, WithFiles(ns, WithoutSounds)) && KeyedTables(WithFiles(ns, WithoutSounds))
    ensures NoNewNonces(ns, WithFiles(ns, EditableFiles)) && KeyedTables(WithFiles(ns, EditableFiles))
  {
    hide Payloads, Recorded, KeysUnique;
    forall f
      ensures Payloads(WithFiles(ns, WithoutSounds), f) == Payloads(ns, f)
        || forall p :: p in Payloads(WithFiles(ns, WithoutSounds), f) ==> !Recorded(p)
      ensures Payloads(WithFiles(ns, EditableFiles), f) == Payloads(ns, f)
    {
      FilesChanged(ns, f);
      FilesEditable(ns, f);
    }
  }

  /** Step 9→10: the files database gets the revision column and the previews table. */
  method Migrate9To10(db: NamespaceDatabase, service: EncryptionService) returns (r: Result<nat, MigrationError>)
    requires Working(db, service, 0)
    modifies db
    ensures Working(db, service, |service.draws|)
    ensures old(Safe(db, service)) ==> Safe(db, service)
    ensures r.Ok? <==> StepReady(9, service.tools, old(db.ns))
    ensures r.Ok? ==> StepDone(9, service.tools, old(db.ns), db.ns)
  {
    hide KeyedTables, NoNewNonces, Secure, FILES_COLUMNS, PREVIEWS_COLUMNS;
    if db.ns.files.None? { return Ok(0); }
    var tables := db.ns.files.value.tables;
    if Files in tables && Plain("id") !in tables[Files].columns { return Err(NoFileId); }
    FilesOnly(db.ns);
    Install(db, service, WithFiles(db.ns, EditableFiles));
    return Ok(0);
  }
}
