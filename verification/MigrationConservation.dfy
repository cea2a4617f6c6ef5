/** What a whole run of migrations leaves of every stored text, from any version to any later one. */
module MigrationConservation {
  import opened Vault
  import opened MigrationSteps
  import opened MigrationFrames
  import opened MigrationTheorems
  import opened MigrationMeaning

  /** The fields of which a step may change payloads. */
  function Touched(v: int): set<Field> {
    match v
    case 0 => {ClientPreferences, PaletteUsage, TagPrefixes}
    case 2 => {SearchPayload, QueryKey, RootTag, TagsJson}
    case 3 => {SearchPayload, QueryKey, RootTag, TagsJson}
    case 4 => {OpenAiKey}
    case 5 => {ProposedTags}
    case 7 => {NoteContent, Document}
    case 8 => {ReminderPayload, ClientPreferences, PaletteUsage, SoundTitle, SoundMetadata, SoundBlob}
    case _ => {}
  }

  /** The fields that no step touches. */
  const UNTOUCHED := {
    NoteTags, BackupSettings, RuleText, TabStateJson, LinkUrl, LinkTitle, FileTitle, FileMetadata, FileBlob,
        PreviewData}

  lemma {:induction false} TableStepTouches(v: int, tools: Tools, a: Namespace, b: Namespace, f: Field)
    requires v in {1, 2, 3, 6} && StepDone(v, tools, a, b) && f !in Touched(v)
    ensures Payloads(b, f) == Payloads(a, f)
  {
    hide Payloads, OPAQUE_SEARCH_COLUMNS, DOCUMENTS_COLUMNS, CONTENT_MIGRATIONS_COLUMNS;
    NoDocuments(a, f);
    if v == 1 {
      TableReplaced(a, ContentMigrations, Relation(CONTENT_MIGRATIONS_COLUMNS, []), f);
    } else if v == 2 {
      var dropped := WithoutTable(a, Other("search_interaction_history_v3"));
      TableDropped(a, Other("search_interaction_history_v3"), f);
      TableReplaced(dropped, SearchHistory, Relation(OPAQUE_SEARCH_COLUMNS, []), f);
    } else if v == 3 {
      TableReplaced(a, SearchHistory, a.main.tables[SearchHistory].(rows := []), f);
    } else {
      TableReplaced(a, Documents, Relation(DOCUMENTS_COLUMNS, []), f);
    }
  }

  /** A step leaves the payloads of all other fields exactly as they were. */
  lemma {:induction false} StepTouches(v: int, tools: Tools, a: Namespace, b: Namespace, f: Field)
    requires 0 <= v < CURRENT_DATABASE_VERSION && StepDone(v, tools, a, b) && f !in Touched(v)
    ensures Payloads(b, f) == Payloads(a, f)
  {
    hide Payloads, Ids, SameShape, CanAdd, Added, Group, SettingsAt, ClientsDone, ProposedAllDone, ContentsDone,
      RemindersDone, PreferencesDone,
      DocumentIds, EditableFiles, WithoutSounds, WithFiles, WithoutTable;
    if v in {1, 2, 3, 6} {
      TableStepTouches(v, tools, a, b, f);
    } else if v == 4 {
      AddedFrame(a, OpenAiKey, Payload(Null, Null, Null));
    } else if v == 5 {
      AddedFrame(a, ProposedTags, Payload(Text(""), Null, Null));
    } else if v == 7 {
      var cleaned :| DocumentsRetired(tools, a, cleaned, b);
      TableDropped(cleaned, Documents, f);
    } else if v == 8 {
      var cleaned :| SoundsRetired(tools, a, cleaned, b);
      FilesChanged(cleaned, f);
    } else if v == 9 {
      FilesEditable(a, f);
    }
  }

  // ---------- rows and columns ----------

  ghost predicate ColumnsStay(a: Namespace, b: Namespace, t: Table) {
    ColumnsOf(a.main, t).Some? ==>
        ColumnsOf(b.main, t).Some? && ColumnsOf(a.main, t).value <= ColumnsOf(b.main, t).value
  }

  /** The same notes, reminders and settings, and at least the same columns. */
  ghost predicate RowsKept(a: Namespace, b: Namespace) {
    && b.encrypted == a.encrypted
    && (forall t :: t in {Notes, Reminders, AppSettings} ==> Ids(b.main, t) == Ids(a.main, t) && ColumnsStay(a, b, t))
  }

  lemma {:induction false} ShapeKeepsRows(a: Namespace, b: Namespace, fields: set<Field>)
    requires OnlyFields(a, b, fields)
    ensures RowsKept(a, b) && DocumentIds(b) == DocumentIds(a)
  {
    hide Payloads, Ids, DocumentIds;
    OnlyFieldsShapeOf(a, b, fields);
  }

  lemma {:induction false} RowsKeptTrans(a: Namespace, b: Namespace, c: Namespace)
    requires RowsKept(a, b) && RowsKept(b, c)
    ensures RowsKept(a, c)
  {
    hide Ids;
  }

  lemma {:induction false} AddedKeepsRows(a: Namespace, f: Field, default: Payload)
    requires CanAdd(a, f) && !InFiles(f)
    ensures RowsKept(a, Added(a, f, default)) && DocumentIds(Added(a, f, default)) == DocumentIds(a)
  {
    hide Payloads, Ids, DocumentIds, CanAdd, Added, Group;
    AddedFrame(a, f, default);
    forall t
      ensures ColumnsStay(a, Added(a, f, default), t)
    {
      AddedColumns(a, f, default, t);
    }
  }

  lemma {:induction false} TableStepKeepsRows(v: int, tools: Tools, a: Namespace, b: Namespace)
    requires v in {1, 2, 3, 6, 9} && StepDone(v, tools, a, b)
    ensures RowsKept(a, b) && DocumentIds(b) == DocumentIds(a)
  {
    hide Payloads, OPAQUE_SEARCH_COLUMNS, DOCUMENTS_COLUMNS, CONTENT_MIGRATIONS_COLUMNS, EditableFiles, DocumentIds;
    assert Ids(b.main, Documents) == Ids(a.main, Documents);
    SameDocumentIds(a, b);
  }

  lemma {:induction false} DropKeepsRows(ns: Namespace)
    ensures RowsKept(ns, WithoutTable(ns, Documents)) && RowsKept(ns, WithFiles(ns, WithoutSounds))
  {
  }

  lemma {:induction false} StepKeepsRows(v: int, tools: Tools, a: Namespace, b: Namespace)
    requires 0 <= v < CURRENT_DATABASE_VERSION && StepDone(v, tools, a, b)
    ensures RowsKept(a, b) && (v != 7 && v != 8 ==> DocumentIds(b) == DocumentIds(a))
  {
    hide Payloads, Ids, SameShape, CanAdd, Added, Group, SettingsAt, ClientsDone, ProposedAllDone, ContentsDone,
      RemindersDone, PreferencesDone,
      DocumentIds, EditableFiles, WithoutSounds, WithFiles, WithoutTable, RowsKept, OnlyFields;
    if v in {1, 2, 3, 6, 9} {
      TableStepKeepsRows(v, tools, a, b);
    } else if v == 0 {
      if a.encrypted { ShapeKeepsRows(a, b, Touched(0)); } else { Itself(a); }
    } else if v == 4 {
      AddedKeepsRows(a, OpenAiKey, Payload(Null, Null, Null));
    } else if v == 5 {
      var default := Payload(Text(""), Null, Null);
      var added := Added(a, ProposedTags, default);
      AddedKeepsRows(a, ProposedTags, default);
      if a.encrypted {
        ShapeKeepsRows(added, b, {ProposedTags});
        RowsKeptTrans(a, added, b);
      }
    } else {
      DroppingKeepsRows(v, tools, a, b);
    }
  }

  lemma {:induction false} Itself(a: Namespace)
    ensures RowsKept(a, a)
  {
  }

  lemma {:induction false} DroppingKeepsRows(v: int, tools: Tools, a: Namespace, b: Namespace)
    requires v in {7, 8} && StepDone(v, tools, a, b)
    ensures RowsKept(a, b)
  {
    hide Payloads, Ids, SettingsAt, ContentsDone, RemindersDone, PreferencesDone, DocumentIds, WithoutSounds, WithFiles,
      WithoutTable,
      RowsKept, OnlyFields;
    if v == 7 {
      var cleaned :| DocumentsRetired(tools, a, cleaned, b);
      if DocumentIds(a) == {} { Itself(a); } else { ShapeKeepsRows(a, cleaned, {NoteContent}); }
      DropKeepsRows(cleaned);
      RowsKeptTrans(a, cleaned, b);
    } else {
      var cleaned :| SoundsRetired(tools, a, cleaned, b);
      ShapeKeepsRows(a, cleaned, {ReminderPayload, ClientPreferences, PaletteUsage});
      DropKeepsRows(cleaned);
      RowsKeptTrans(a, cleaned, b);
    }
  }

  // ---------- what a run conserves ----------

  /** Note texts lose the placements of the documents there were, once step 7→8 is done. */
  ghost predicate NotesKept(tools: Tools, start: Namespace, now: Namespace) {
    if start.version <= 7 < now.version && DocumentIds(start) != {} then
      ContentsDone(tools.cipher, start.encrypted, DocumentIds(start), Ids(start.main, Notes),
                   Payloads(start, NoteContent), Payloads(now, NoteContent))
    else Payloads(now, NoteContent) == Payloads(start, NoteContent)
  }

  /** Reminders lose their sound keys, once step 8→9 is done. */
  ghost predicate RemindersKept(tools: Tools, start: Namespace, now: Namespace) {
    if start.version <= 8 < now.version then
      RemindersDone(tools, Ids(start.main, Reminders), Payloads(start, ReminderPayload), Payloads(now, ReminderPayload))
    else Payloads(now, ReminderPayload) == Payloads(start, ReminderPayload)
  }

  /** A setting keeps its text, encrypted or not, and loses the removed keys once step 8→9 is done. */
  ghost predicate SettingKept(tools: Tools, start: Namespace, now: Namespace, f: Field, removed: set<string>) {
    if start.version <= 8 < now.version then
      exists mid :: SameTexts(tools.cipher, Payloads(start, f), mid) &&
          SettingCleaned(tools, removed, start, mid, Payloads(now, f))
    else SameTexts(tools.cipher, Payloads(start, f), Payloads(now, f))
  }

  ghost predicate SettingCleaned(tools: Tools, removed: set<string>, ns: Namespace, mid: seq<Payload>,
        after: seq<Payload>) {
    match SettingsAt(Ids(ns.main, AppSettings))
    case None => after == mid
    case Some(k) => PreferencesDone(tools, removed, k, mid, after)
  }

  ghost predicate Conserved(tools: Tools, start: Namespace, now: Namespace) {
    && (forall f :: f in UNTOUCHED ==> Payloads(now, f) == Payloads(start, f))
    && (HasField(start.main, OpenAiKey) ==> Payloads(now, OpenAiKey) == Payloads(start, OpenAiKey))
    && (HasField(start.main, ProposedTags) ==>
          SameTexts(tools.cipher, Payloads(start, ProposedTags), Payloads(now, ProposedTags)))
    && SameTexts(tools.cipher, Payloads(start, TagPrefixes), Payloads(now, TagPrefixes))
    && NotesKept(tools, start, now) && RemindersKept(tools, start, now)
    && SettingKept(tools, start, now, ClientPreferences, SOUND_PREFERENCES)
    && SettingKept(tools, start, now, PaletteUsage, SOUND_COMMANDS)
  }

  /** What the loop keeps besides: the rows, and until they are retired the documents. */
  ghost predicate Underway(tools: Tools, start: Namespace, now: Namespace) {
    && Conserved(tools, start, now) && RowsKept(start, now) && start.version <= now.version
    && (now.version <= 7 ==> DocumentIds(now) == DocumentIds(start))
  }

  lemma {:induction false} NothingDoneYet(tools: Tools, start: Namespace)
    ensures Underway(tools, start, start)
  {
    hide Payloads, PlainText;
  }

  lemma {:induction false} StillThere(start: Namespace, now: Namespace, f: Field)
    requires RowsKept(start, now) && TableOf(f) in {Notes, AppSettings} && HasField(start.main, f)
    ensures HasField(now.main, f)
  {
    hide Group;
    assert ColumnsStay(start, now, TableOf(f));
  }

  lemma {:induction false} TextsTrans(cipher: Cipher, x: seq<Payload>, y: seq<Payload>, z: seq<Payload>)
    requires SameTexts(cipher, x, y) && SameTexts(cipher, y, z)
    ensures SameTexts(cipher, x, z)
  {
    hide PlainText;
  }

  lemma {:induction false} SameTextsItself(cipher: Cipher, x: seq<Payload>)
    ensures SameTexts(cipher, x, x)
  {
  }

  /** Away from step 8→9, every text field other than the notes' keeps its texts. */
  lemma {:induction false} StepKeepsTexts(v: int, tools: Tools, a: Namespace, b: Namespace, f: Field)
    requires 0 <= v < CURRENT_DATABASE_VERSION && StepDone(v, tools, a, b)
    requires f in {ClientPreferences, PaletteUsage, TagPrefixes, ProposedTags} && (v == 8 ==> f !in Touched(8))
    requires f == ProposedTags ==> HasField(a.main, f)
    ensures SameTexts(tools.cipher, Payloads(a, f), Payloads(b, f))
  {
    hide StepDone, Payloads, SameTexts, HasField;
    if f !in Touched(v) {
      StepTouches(v, tools, a, b, f);
      SameTextsItself(tools.cipher, Payloads(a, f));
    } else if a.encrypted {
      EncryptingKeepsTexts(v, tools, a, b, f);
    } else {
      PlainStep(v, tools, a, b);
      SameTextsItself(tools.cipher, Payloads(a, f));
    }
  }

  /** Without encryption the encrypting steps encrypt nothing. */
  lemma {:induction false} PlainStep(v: int, tools: Tools, a: Namespace, b: Namespace)
    requires v in {0, 5} && StepDone(v, tools, a, b) && !a.encrypted
    ensures v == 5 && HasField(a.main, ProposedTags) ==> Payloads(b, ProposedTags) == Payloads(a, ProposedTags)
    ensures v == 0 ==> b == a
  {
    if v == 5 && HasField(a.main, ProposedTags) { AlreadyAdded(a, Payload(Text(""), Null, Null)); }
    hide Payloads, HasField, CanAdd, Added;
  }

  lemma {:induction false} UntouchedStay(v: int, tools: Tools, a: Namespace, b: Namespace)
    requires 0 <= v < CURRENT_DATABASE_VERSION && StepDone(v, tools, a, b)
    ensures forall f :: f in UNTOUCHED ==> Payloads(b, f) == Payloads(a, f)
  {
    hide StepDone, Payloads;
    forall f | f in UNTOUCHED
      ensures Payloads(b, f) == Payloads(a, f)
    {
      StepTouches(v, tools, a, b, f);
    }
  }

  lemma {:induction false} KeyStays(v: int, tools: Tools, a: Namespace, b: Namespace)
    requires 0 <= v < CURRENT_DATABASE_VERSION && StepDone(v, tools, a, b) && HasField(a.main, OpenAiKey)
    ensures Payloads(b, OpenAiKey) == Payloads(a, OpenAiKey)
  {
    hide Payloads, HasField, CanAdd, Added;
    if v == 4 {
      AddedAlready(a);
    } else {
      hide StepDone;
      StepTouches(v, tools, a, b, OpenAiKey);
    }
  }

  lemma {:induction false} AddedAlready(a: Namespace)
    requires HasField(a.main, OpenAiKey)
    ensures CanAdd(a, OpenAiKey) ==> Added(a, OpenAiKey, Payload(Null, Null, Null)) == a
  {
  }

  lemma {:induction false} NotesStep(tools: Tools, start: Namespace, a: Namespace, b: Namespace)
    requires NotesKept(tools, start, a) && RowsKept(start, a) && start.version <= a.version
    requires a.version <= 7 ==> DocumentIds(a) == DocumentIds(start)
    requires 0 <= a.version < CURRENT_DATABASE_VERSION && StepDone(a.version, tools, a, b)
    ensures NotesKept(tools, start, Next(a, b))
  {
    hide Payloads, Ids, DocumentIds, ContentsDone, StepDone, OnlyFields, WithoutTable;
    Bumped(b, a.version + 1);
    if a.version == 7 {
      NotesRetired(tools, a, b);
    } else {
      StepTouches(a.version, tools, a, b, NoteContent);
    }
  }

  lemma {:induction false} NotesRetired(tools: Tools, a: Namespace, b: Namespace)
    requires StepDone(7, tools, a, b)
    ensures if DocumentIds(a) == {} then Payloads(b, NoteContent) == Payloads(a, NoteContent)
      else ContentsDone(tools.cipher, a.encrypted, DocumentIds(a), Ids(a.main, Notes), Payloads(a, NoteContent),
        Payloads(b, NoteContent))
  {
    hide Payloads, Ids, DocumentIds, ContentsDone, OnlyFields, WithoutTable;
    var cleaned :| DocumentsRetired(tools, a, cleaned, b);
    TableDropped(cleaned, Documents, NoteContent);
  }

  lemma {:induction false} RemindersStep(tools: Tools, start: Namespace, a: Namespace, b: Namespace)
    requires RemindersKept(tools, start, a) && RowsKept(start, a) && start.version <= a.version
    requires 0 <= a.version < CURRENT_DATABASE_VERSION && StepDone(a.version, tools, a, b)
    ensures RemindersKept(tools, start, Next(a, b))
  {
    hide Payloads, Ids, RemindersDone, StepDone, OnlyFields, WithFiles;
    Bumped(b, a.version + 1);
    if a.version == 8 {
      RemindersRetired(tools, a, b);
    } else {
      StepTouches(a.version, tools, a, b, ReminderPayload);
    }
  }

  lemma {:induction false} RemindersRetired(tools: Tools, a: Namespace, b: Namespace)
    requires StepDone(8, tools, a, b)
    ensures RemindersDone(tools, Ids(a.main, Reminders), Payloads(a, ReminderPayload), Payloads(b, ReminderPayload))
    ensures SettingCleaned(tools, SOUND_PREFERENCES, a, Payloads(a, ClientPreferences), Payloads(b, ClientPreferences))
    ensures SettingCleaned(tools, SOUND_COMMANDS, a, Payloads(a, PaletteUsage), Payloads(b, PaletteUsage))
  {
    hide Payloads, Ids, RemindersDone, PreferencesDone, SameShape, WithFiles, SettingsAt;
    var cleaned :| SoundsRetired(tools, a, cleaned, b);
    FilesChanged(cleaned, ReminderPayload);
    FilesChanged(cleaned, ClientPreferences);
    FilesChanged(cleaned, PaletteUsage);
  }

  lemma {:induction false} SettingStep(tools: Tools, start: Namespace, a: Namespace, b: Namespace, f: Field,
        removed: set<string>)
    requires SettingKept(tools, start, a, f, removed) && RowsKept(start, a) && start.version <= a.version
    requires (f == ClientPreferences && removed == SOUND_PREFERENCES) ||
        (f == PaletteUsage && removed == SOUND_COMMANDS)
    requires 0 <= a.version < CURRENT_DATABASE_VERSION && StepDone(a.version, tools, a, b)
    ensures SettingKept(tools, start, Next(a, b), f, removed)
  {
    hide Payloads, Ids, StepDone, SameTexts, PreferencesDone, SettingsAt, SOUND_PREFERENCES, SOUND_COMMANDS;
    Bumped(b, a.version + 1);
    if a.version == 8 {
      RemindersRetired(tools, a, b);
      assert SettingCleaned(tools, removed, start, Payloads(a, f), Payloads(b, f));
    } else if a.version == 9 {
      StepTouches(9, tools, a, b, f);
    } else {
      StepKeepsTexts(a.version, tools, a, b, f);
      TextsTrans(tools.cipher, Payloads(start, f), Payloads(a, f), Payloads(b, f));
    }
  }

  /** Every step conserves what the run has to conserve. */
  lemma {:induction false} StepConserves(tools: Tools, start: Namespace, a: Namespace, b: Namespace)
    requires Underway(tools, start, a) && 0 <= a.version < CURRENT_DATABASE_VERSION && StepDone(a.version, tools, a, b)
    ensures Underway(tools, start, Next(a, b))
  {
    hide Payloads, StepDone, SameTexts, NotesKept, RemindersKept, SettingKept, DocumentIds, HasField, RowsKept,
      SOUND_PREFERENCES, SOUND_COMMANDS;
    var v := a.version;
    UntouchedStay(v, tools, a, b);
    if HasField(start.main, OpenAiKey) {
      StillThere(start, a, OpenAiKey);
      KeyStays(v, tools, a, b);
    }
    if HasField(start.main, ProposedTags) {
      StillThere(start, a, ProposedTags);
      StepKeepsTexts(v, tools, a, b, ProposedTags);
      TextsTrans(tools.cipher, Payloads(start, ProposedTags), Payloads(a, ProposedTags), Payloads(b, ProposedTags));
    }
    StepKeepsTexts(v, tools, a, b, TagPrefixes);
    TextsTrans(tools.cipher, Payloads(start, TagPrefixes), Payloads(a, TagPrefixes), Payloads(b, TagPrefixes));
    NotesStep(tools, start, a, b);
    RemindersStep(tools, start, a, b);
    SettingStep(tools, start, a, b, ClientPreferences, SOUND_PREFERENCES);
    SettingStep(tools, start, a, b, PaletteUsage, SOUND_COMMANDS);
    StepKeepsRows(v, tools, a, b);
    RowsKeptTrans(start, a, b);
    Bumped(b, v + 1);
    RowsBumped(start, b, v + 1);
  }

  lemma {:induction false} RowsBumped(start: Namespace, b: Namespace, v: int)
    requires RowsKept(start, b)
    ensures RowsKept(start, b.(version := v))
  {
  }
}
