/** Running the migrations, and auditing before and after. */
module MigrationRun {
  import opened Wrappers
  import opened Base64
  import opened Vault
  import opened EncryptionAudit
  import opened AuditRun
  import opened NamespaceAudit
  import opened MigrationSteps
  import opened Migrations
  import opened MigrationProgram
  import opened MigrationSchemaSteps
  import opened MigrationPayloadSteps
  import opened MigrationSoundStep
  import opened MigrationTheorems
  import opened MigrationConservation

  datatype MigrationResult = MigrationResult(initial: int, final: int, applied: seq<int>, rewritten: nat)

  // ---------- a step is ready when the payloads are ----------

  lemma {:induction false} ReadyForStep(tools: Tools, a: Namespace)
    requires Unlocked(tools, a) && Ready(tools, a) && a.version < CURRENT_DATABASE_VERSION
    ensures StepReady(a.version, tools, a)
  {
    hide Payloads, ClientReady, ProposedReady, ContentReady, JsonReady, FieldPasses, Group;
    SettingsAtFirst(a);
    FieldsThere(a);
  }

  /** The admitted schema has what the steps look for. */
  lemma {:induction false} FieldsThere(a: Namespace)
    requires SchemasOk(a) && OneSettingsRow(a)
    ensures forall f :: f in CLIENT_FIELDS ==> HasField(a.main, f) && |Payloads(a, f)| == 1
    ensures HasField(a.main, ReminderPayload) && HasField(a.main, NoteContent)
    ensures a.version == 4 ==> CanAdd(a, OpenAiKey)
    ensures a.version == 5 ==> CanAdd(a, ProposedTags)
    ensures a.version == 2 ==>
        ColumnsOf(a.main, SearchHistory) in {Some(OPAQUE_SEARCH_COLUMNS), Some(LEGACY_SEARCH_COLUMNS)}
    ensures a.version == 3 ==> ColumnsOf(a.main, SearchHistory) == Some(OPAQUE_SEARCH_COLUMNS)
    ensures a.version == 7 ==> Documents in a.main.tables
    ensures a.version == 9 && a.files.Some? && Files in a.files.value.tables ==>
        Plain("id") in a.files.value.tables[Files].columns
  {
    SettingsFields(a);
    ReminderField(a);
    NoteField(a);
    AdmittedAt(a, SearchHistory);
    AdmittedAt(a, Documents);
    FilesHaveId(a);
    hide NOTES_COLUMNS, APP_SETTINGS_COLUMNS, OPAQUE_SEARCH_COLUMNS, LEGACY_SEARCH_COLUMNS, DOCUMENTS_COLUMNS, Payloads,
      Group;
    if a.version == 4 { GroupCompletes(4, a, OpenAiKey, Payload(Null, Null, Null), APP_SETTINGS_COLUMNS); }
    if a.version == 5 { GroupCompletes(5, a, ProposedTags, Payload(Null, Null, Null), NOTES_COLUMNS); }
  }

  lemma {:induction false} SettingsFields(a: Namespace)
    requires SchemasOk(a) && OneSettingsRow(a)
    ensures forall f :: f in CLIENT_FIELDS ==> HasField(a.main, f) && |Payloads(a, f)| == 1
  {
    hide SchemasOk, Admits, HasField, Payloads, OneSettingsRow;
    AdmittedAt(a, AppSettings);
    forall f | f in CLIENT_FIELDS
      ensures HasField(a.main, f) && |Payloads(a, f)| == 1
    {
      SettingsField(a, f);
    }
  }

  lemma {:induction false} SettingsField(a: Namespace, f: Field)
    requires Admits(a.version, AppSettings, ColumnsOf(a.main, AppSettings)) && OneSettingsRow(a) && f in CLIENT_FIELDS
    ensures HasField(a.main, f) && |Payloads(a, f)| == 1
  {
    ClientColumns();
    hide Names, APP_SETTINGS_COLUMNS, Group;
  }

  lemma {:induction false} ClientColumns()
    ensures forall f :: f in CLIENT_FIELDS ==>
        Group(f) <= APP_SETTINGS_COLUMNS && Group(f) <= APP_SETTINGS_COLUMNS - Group(OpenAiKey)
  {
    hide Names;
  }

  lemma {:induction false} ReminderField(a: Namespace)
    requires SchemasOk(a)
    ensures HasField(a.main, ReminderPayload)
  {
    hide Names, SchemasOk;
    AdmittedAt(a, Reminders);
  }

  lemma {:induction false} NoteField(a: Namespace)
    requires SchemasOk(a)
    ensures HasField(a.main, NoteContent)
  {
    hide Names, SchemasOk;
    AdmittedAt(a, Notes);
  }

  lemma {:induction false} FilesHaveId(a: Namespace)
    requires SchemasOk(a)
    ensures a.files.Some? && Files in a.files.value.tables ==> Plain("id") in a.files.value.tables[Files].columns
  {
    if a.files.Some? {
      assert AdmitsFiles(a.version, Files, ColumnsOf(a.files.value, Files));
      assert "id" in {"id", "created_at", "updated_at"};
      assert Plain("id") in Names({"id", "created_at", "updated_at"});
      hide Names, Group;
    }
  }

  // ---------- one step, whatever the version ----------

  lemma {:induction false} StepCarries(tools: Tools, a: Namespace, b: Namespace)
    requires Unlocked(tools, a) && a.version < CURRENT_DATABASE_VERSION
    requires StepReady(a.version, tools, a) && StepDone(a.version, tools, a, b)
    ensures Carried(tools, a, b)
  {
    hide Carried, Unlocked;
    match a.version
    case 0 => Step0(tools, a, b);
    case 1 => Step1(tools, a, b);
    case 2 => Step2(tools, a, b);
    case 3 => Step3(tools, a, b);
    case 4 => Step4(tools, a, b);
    case 5 => Step5(tools, a, b);
    case 6 => Step6(tools, a, b);
    case 7 => Step7(tools, a, b);
    case 8 => Step8(tools, a, b);
    case 9 => Step9(tools, a, b);
  }

  /** How many nonces the steps from version `v` on may draw. */
  function Draws(v: int, notes: nat, reminders: nat): nat {
    (if v <= 0 then 3 else 0) + (if v <= 5 then notes else 0) + (if v <= 7 then notes else 0)
      + (if v <= 8 then reminders + 2 else 0)
  }

  ghost predicate SameKeys(a: Namespace, b: Namespace) {
    Ids(b.main, Notes) == Ids(a.main, Notes) && Ids(b.main, Reminders) == Ids(a.main, Reminders)
  }

  lemma {:induction false} SchemaStepKeepsKeys(v: int, tools: Tools, a: Namespace, b: Namespace)
    requires v in {1, 2, 3, 6, 9} && StepDone(v, tools, a, b)
    ensures SameKeys(a, b) && b.version == a.version && b.encrypted == a.encrypted
  {
    hide Payloads, OPAQUE_SEARCH_COLUMNS, DOCUMENTS_COLUMNS, CONTENT_MIGRATIONS_COLUMNS, EditableFiles;
  }

  lemma {:induction false} PayloadStepKeepsKeys(v: int, tools: Tools, a: Namespace, b: Namespace)
    requires v in {7, 8} && StepDone(v, tools, a, b)
    ensures SameKeys(a, b) && b.version == a.version && b.encrypted == a.encrypted
  {
    hide Payloads, RemindersDone, ContentsDone, PreferencesDone, SettingsAt, SameShape, DocumentIds, Ids, OnlyFields;
    if v == 7 {
      var cleaned :| DocumentsRetired(tools, a, cleaned, b);
      if DocumentIds(a) != {} { OnlyFieldsShapeOf(a, cleaned, {NoteContent}); }
      DroppedKeys(cleaned);
    } else {
      var cleaned :| SoundsRetired(tools, a, cleaned, b);
      OnlyFieldsShapeOf(a, cleaned, {ReminderPayload, ClientPreferences, PaletteUsage});
    }
  }

  lemma {:induction false} DroppedKeys(ns: Namespace)
    ensures SameKeys(ns, WithoutTable(ns, Documents))
  {
  }

  /** No step adds or removes a note or a reminder. */
  lemma {:induction false} StepKeepsKeys(v: int, tools: Tools, a: Namespace, b: Namespace)
    requires 0 <= v < CURRENT_DATABASE_VERSION && StepDone(v, tools, a, b)
    ensures SameKeys(a, b) && b.version == a.version && b.encrypted == a.encrypted
  {
    hide Payloads, ProposedAllDone, ClientsDone, SettingsAt, Group, SameShape, Ids, OnlyFields, DocumentsRetired,
      SoundsRetired, CanAdd, Added;
    if v in {1, 2, 3, 6, 9} {
      SchemaStepKeepsKeys(v, tools, a, b);
    } else if v == 0 {
      if a.encrypted { OnlyFieldsShapeOf(a, b, {ClientPreferences, PaletteUsage, TagPrefixes}); }
    } else if v == 4 {
      AddedFrame(a, OpenAiKey, Payload(Null, Null, Null));
    } else if v == 5 {
      var added := Added(a, ProposedTags, Payload(Text(""), Null, Null));
      AddedFrame(a, ProposedTags, Payload(Text(""), Null, Null));
      if a.encrypted { OnlyFieldsShapeOf(added, b, {ProposedTags}); }
    } else {
      PayloadStepKeepsKeys(v, tools, a, b);
    }
  }

  /** The step registered for version `v`. */
  method StepFrom(v: int, db: NamespaceDatabase, service: EncryptionService) returns (r: Result<nat, MigrationError>)
    requires 0 <= v < CURRENT_DATABASE_VERSION
    requires Working(db, service, Draws(v, |Ids(db.ns.main, Notes)|, |Ids(db.ns.main, Reminders)|))
    modifies db, service
    ensures old(Safe(db, service)) ==> Safe(db, service)
    ensures r.Ok? <==> StepReady(v, service.tools, old(db.ns))
    ensures r.Ok? ==> StepDone(v, service.tools, old(db.ns), db.ns)
    ensures r.Ok? ==> Working(db, service,
        Draws(v + 1, old(|Ids(db.ns.main, Notes)|), old(|Ids(db.ns.main, Reminders)|)))
  {
    hide StepReady, StepDone, Secure, KeyedTables, Ids, CipherOk, JsonOk;
    if v == 0 { r := Migrate0To1(db, service); }
    else if v == 1 { r := Migrate1To2(db, service); StepIsFree(v, service.tools, old(db.ns)); }
    else if v == 2 { r := Migrate2To3(db, service); }
    else if v == 3 { r := Migrate3To4(db, service); }
    else if v == 4 { r := Migrate4To5(db, service); }
    else if v == 5 { r := Migrate5To6(db, service); }
    else if v == 6 { r := Migrate6To7(db, service); StepIsFree(v, service.tools, old(db.ns)); }
    else if v == 7 { r := Migrate7To8(db, service); }
    else if v == 8 { r := RetireSounds(db, service); }
    else { r := Migrate9To10(db, service); }
  }

  lemma {:induction false} StepIsFree(v: int, tools: Tools, ns: Namespace)
    requires v in {1, 6}
    ensures StepReady(v, tools, ns)
  {
  }

  /** The versions from `v + 1` to `w`. */
  function Consecutive(v: int, w: int): seq<int>
    requires v <= w
  {
    seq(w - v, i requires 0 <= i < w - v => v + 1 + i)
  }

  lemma {:induction false} OneVersionOn(v: int, w: int)
    requires v <= w
    ensures Consecutive(v, w + 1) == Consecutive(v, w) + [w + 1]
  {
  }

  /** What the run keeps about an encrypted, unlocked namespace that the audit lets through. */
  ghost predicate OnTrack(tools: Tools, start: Namespace, now: Namespace) {
    Unlocked(tools, now) && (Ready(tools, start) <==> Ready(tools, now))
  }

  lemma {:induction false} StaysOnTrack(tools: Tools, start: Namespace, a: Namespace, b: Namespace)
    requires OnTrack(tools, start, a) && a.version < CURRENT_DATABASE_VERSION
    requires StepReady(a.version, tools, a) && StepDone(a.version, tools, a, b)
    ensures OnTrack(tools, start, Next(a, b))
  {
    hide StepReady, StepDone, Passable, Ready;
    StepCarries(tools, a, b);
  }

  /** A step that cannot run means that the start was not ready. */
  lemma {:induction false} OffTrack(tools: Tools, start: Namespace, a: Namespace)
    requires OnTrack(tools, start, a) && a.version < CURRENT_DATABASE_VERSION && !StepReady(a.version, tools, a)
    ensures !Ready(tools, start)
  {
    hide StepReady, Passable;
    if Ready(tools, a) {
      ReadyForStep(tools, a);
    }
  }

  lemma {:induction false} NextVersion(ns: Namespace, v: int, owner: Owner, draws: seq<seq<Byte>>)
    ensures Secure(ns, owner, draws) <==> Secure(ns.(version := v), owner, draws)
    ensures KeyedTables(ns) <==> KeyedTables(ns.(version := v))
  {
    hide Fresh, OwnsAt;
    Bumped(ns, v);
  }

  method RunDatabaseMigrations(db: NamespaceDatabase, service: EncryptionService)
    returns (r: Result<MigrationResult, MigrationError>)
    requires Working(db, service, Draws(db.ns.version, |Ids(db.ns.main, Notes)|, |Ids(db.ns.main, Reminders)|))
    modifies db, service
    ensures r.Ok? ==>
      && r.value.initial == old(db.ns.version) && r.value.final == db.ns.version == CURRENT_DATABASE_VERSION
      && 0 <= r.value.initial <= r.value.final && r.value.applied == Consecutive(r.value.initial, r.value.final)
    ensures r.Ok? ==> Conserved(service.tools, old(db.ns), db.ns)
    ensures old(db.ns.version) == CURRENT_DATABASE_VERSION ==>
        r.Ok? && db.ns == old(db.ns) && r.value.applied == [] && r.value.rewritten == 0
    ensures old(Safe(db, service)) ==> Safe(db, service)
    ensures old(Unlocked(service.tools, db.ns)) ==>
      (r.Ok? <==> Ready(service.tools, old(db.ns))) && (r.Ok? ==> Passable(db.ns) && db.ns.encrypted)
  {
    hide StepReady, StepDone, Passable, Ready, Secure, KeyedTables, Ids, CipherOk, JsonOk, Conserved;
    hide RowsKept, DocumentIds;
    var initial := db.ns.version;
    if initial < 0 { PassableVersion(db.ns); return Err(InvalidVersion); }
    if initial > CURRENT_DATABASE_VERSION { PassableVersion(db.ns); return Err(NewerVersion); }
    ghost var start := db.ns;
    ghost var tools := service.tools;
    var version := initial;
    var applied: seq<int> := [];
    var rewritten := 0;
    NothingDoneYet(tools, start);
    while version < CURRENT_DATABASE_VERSION
      invariant initial <= version <= CURRENT_DATABASE_VERSION && db.ns.version == version
      invariant applied == Consecutive(initial, version)
      invariant version == initial ==> db.ns == start && rewritten == 0
      invariant Working(db, service, Draws(version, |Ids(start.main, Notes)|, |Ids(start.main, Reminders)|))
      invariant SameKeys(start, db.ns)
      invariant old(Safe(db, service)) ==> Safe(db, service)
      invariant Unlocked(tools, start) ==> OnTrack(tools, start, db.ns)
      invariant Underway(tools, start, db.ns)
    {
      ghost var a := db.ns;
      var step := StepFrom(version, db, service);
      if step.Err? {
        if Unlocked(tools, start) { OffTrack(tools, start, a); }
        return Err(step.error);
      }
      StepKeepsKeys(version, tools, a, db.ns);
      StepConserves(tools, start, a, db.ns);
      if Unlocked(tools, start) { StaysOnTrack(tools, start, a, db.ns); }
      NextVersion(db.ns, version + 1, db.owner, service.draws);
      OneVersionOn(initial, version);
      SameRows(db.ns, version + 1);
      rewritten := rewritten + step.value;
      version := version + 1;
      db.ns := db.ns.(version := version);
      applied := applied + [version];
    }
    ReadyAtTheEnd(tools, db.ns);
    return Ok(MigrationResult(initial, version, applied, rewritten));
  }

  lemma {:induction false} SameRows(ns: Namespace, v: int)
    ensures forall t :: Ids(ns.(version := v).main, t) == Ids(ns.main, t)
  {
  }

  lemma {:induction false} PassableVersion(ns: Namespace)
    ensures Passable(ns) ==> 0 <= ns.version <= CURRENT_DATABASE_VERSION
  {
  }

  lemma {:induction false} ReadyAtTheEnd(tools: Tools, ns: Namespace)
    ensures ns.version == CURRENT_DATABASE_VERSION ==> Ready(tools, ns)
  {
  }

  // ---------- the audit and the migrations together ----------

  /** The random source gives 12 bytes at a time, never the same again, and none that is in use. */
  ghost predicate FreshFor(ns: Namespace, draws: seq<seq<Byte>>) {
    && (forall i :: 0 <= i < |draws| ==> |draws[i]| == GCM_NONCE_BYTES)
    && (forall i, j :: 0 <= i < j < |draws| ==> draws[i] != draws[j])
    && forall f, p :: p in Payloads(ns, f) && Recorded(p) ==> p.nonce.bytes !in draws
  }

  /** An owner of the stored nonces that knows nothing of the new ones. */
  lemma {:induction false} OwnerOfStored(ns: Namespace, owner: Owner, draws: seq<seq<Byte>>) returns (stored: Owner)
    requires Owned(ns, owner) && FreshFor(ns, draws)
    ensures Secure(ns, stored, draws)
  {
    hide Payloads;
    stored := map n | n in owner && n !in draws :: owner[n];
    forall f: Field, i: nat | i < |Payloads(ns, f)|
      ensures OwnsAt(stored, Payloads(ns, f)[i], f, i)
    {
      assert Payloads(ns, f)[i] in Payloads(ns, f);
      assert OwnsAt(owner, Payloads(ns, f)[i], f, i);
    }
  }

  /**
   If the audit of an encrypted namespace reports nothing fatal, then the migrations succeed exactly when
   the payloads they have to read can be read, and then a second audit reports nothing at all.
   */
  method AuditMigrateAudit(ns: Namespace, tools: Tools, draws: seq<seq<Byte>>)
    returns (first: Result<AuditResult, AuditError>, migrated: Result<MigrationResult, MigrationError>,
        second: Result<AuditResult, AuditError>)
    requires CipherOk(tools.cipher) && JsonOk(tools.json) && tools.hasDek && KeyedTables(ns) && FreshFor(ns, draws)
    requires |draws| >= Draws(ns.version, |Ids(ns.main, Notes)|, |Ids(ns.main, Reminders)|)
    ensures first.Ok? && ns.encrypted && NothingFatal(first.value.counts) ==>
      && (migrated.Ok? <==> Ready(tools, ns))
      && (migrated.Ok? ==> migrated.value.final == CURRENT_DATABASE_VERSION
                           && 0 <= ns.version <= CURRENT_DATABASE_VERSION
                           && migrated.value.applied == Consecutive(ns.version, CURRENT_DATABASE_VERSION)
                           && second.Ok? && second.value.encrypted && second.value.counts == map[])
  {
    hide Passable, Admitted, Clean, Ready, Secure, KeyedTables, NothingFatal, CipherOk, JsonOk, FreshFor, Owned, Ids;
    first := AuditNamespace(ns);
    NewNonceSizes(ns, draws);
    ghost var owner: Owner := map[];
    if Admitted(ns) {
      AdmittedIsPassable(ns);
      var known :| Owned(ns, known);
      owner := OwnerOfStored(ns, known, draws);
    }
    var service := new EncryptionService(tools, draws);
    var db := new NamespaceDatabase(ns, owner);
    migrated := RunDatabaseMigrations(db, service);
    second := AuditNamespace(db.ns);
    if migrated.Ok? && ns.encrypted && Admitted(ns) {
      SecureIsOwned(db.ns, db.owner, service.draws);
      AdmittedIsPassable(db.ns);
      CurrentIsClean(db.ns);
      PassableIsReadable(db.ns);
    }
  }

  lemma {:induction false} NewNonceSizes(ns: Namespace, draws: seq<seq<Byte>>)
    requires FreshFor(ns, draws)
    ensures forall i :: 0 <= i < |draws| ==> |draws[i]| == GCM_NONCE_BYTES
  {
  }

  lemma {:induction false} SecureIsOwned(ns: Namespace, owner: Owner, draws: seq<seq<Byte>>)
    requires Secure(ns, owner, draws)
    ensures Owned(ns, owner)
  {
  }

  /** A passable namespace has its settings row and the column that says it is encrypted. */
  lemma {:induction false} PassableIsReadable(ns: Namespace)
    requires Passable(ns)
    ensures SettingsReadable(ns)
  {
    AdmittedAt(ns, AppSettings);
    EnabledColumn();
    hide APP_SETTINGS_COLUMNS, SchemasOk, FieldPasses;
    var rows := RowsOf(ns.main, AppSettings);
    assert SettingsRows(rows[1..]) == [];
  }

  lemma {:induction false} EnabledColumn()
    ensures Plain("encryption_enabled") in APP_SETTINGS_COLUMNS
    ensures Plain("encryption_enabled") in APP_SETTINGS_COLUMNS - Group(OpenAiKey)
  {
    assert "encryption_enabled" in {"encryption_enabled", "session_timeout_minutes", "created_at", "updated_at"};
    assert Plain("encryption_enabled") in Names({"encryption_enabled", "session_timeout_minutes", "created_at",
        "updated_at"});
  }
}
