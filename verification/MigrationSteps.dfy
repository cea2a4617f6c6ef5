/** What each migration step needs of a namespace, and what it makes of it. */
module MigrationSteps {
  import opened Wrappers
  import opened Vault
  import opened RetiredReferences

  /** json.loads to an object (None: not JSON, or not an object) and json.dumps. */
  datatype Json = Json(load: string -> Option<map<string, string>>, dump: map<string, string> -> string)

  ghost predicate DumpLoads(json: Json, entries: map<string, string>) {
    json.load(json.dump(entries)) == Some(entries) && json.dump(entries) != ""
  }

  ghost predicate JsonOk(json: Json) {
    forall entries :: DumpLoads(json, entries)
  }

  datatype Tools = Tools(cipher: Cipher, json: Json, hasDek: bool)

  const SOUND_FIELDS := {"popup_sound_enabled", "popup_sound_id", "ack_sound_enabled", "ack_sound_id"}
  const SOUND_PREFERENCES :=
    (set name | name in SOUND_FIELDS :: "pref.reminder_" + name)
      + (set name | name in SOUND_FIELDS :: "pref.reminder_default_" + name)
  const SOUND_COMMANDS := {"form.manage_sounds"}

  const CLIENT_FIELDS := [ClientPreferences, PaletteUsage, TagPrefixes]

  // ---------- one payload ----------

  predicate Complete(p: Payload) {
    p.nonce == Null <==> p.tag == Null
  }

  predicate Blank(p: Payload) {
    p.value == Null || p.value == Text("")
  }

  /** Step 0→1 can handle this client-state value. */
  predicate ClientReady(cipher: Cipher, p: Payload) {
    && Complete(p)
    && if Blank(p) then p.nonce == Null
       else p.value.Text? && (p.nonce != Null ==> Decrypted(cipher, p).Some?)
  }

  predicate ClientDone(cipher: Cipher, p: Payload, q: Payload) {
    if Blank(p) || p.nonce != Null then q == p
    else WellSealed(q) && PlainText(cipher, q) == PlainText(cipher, p) && !Blank(q)
  }

  predicate ValidNoteId(id: Cell) {
    id.Text? && id.text != ""
  }

  predicate ProposedReady(cipher: Cipher, p: Payload) {
    p.value.Text? && Complete(p) && (p.nonce != Null ==> Decrypted(cipher, p).Some?)
  }

  predicate ProposedDone(cipher: Cipher, p: Payload, q: Payload) {
    if p.nonce != Null then q == p
    else WellSealed(q) && PlainText(cipher, q) == PlainText(cipher, p)
  }

  predicate ContentReady(tools: Tools, p: Payload) {
    Complete(p) && (p.nonce != Null ==> tools.hasDek) && PlainText(tools.cipher, p).Some?
  }

  predicate ContentDone(cipher: Cipher, encrypted: bool, documentIds: set<Cell>, id: Cell, p: Payload, q: Payload) {
    PlainText(cipher, p).Some? &&
    var text := PlainText(cipher, p).value;
    if Cleaned(text, documentIds) == text || id == Null then q == p
    else
      && PlainText(cipher, q) == Some(Cleaned(text, documentIds))
      && if encrypted then WellSealed(q) else q.nonce == Null && q.tag == Null
  }

  predicate JsonReady(tools: Tools, p: Payload) {
    Blank(p)
    || (Complete(p) && (p.nonce != Null ==> tools.hasDek) && PlainText(tools.cipher, p).Some?
        && tools.json.load(PlainText(tools.cipher, p).value).Some?)
  }

  predicate JsonDone(tools: Tools, removed: set<string>, id: Cell, p: Payload, q: Payload) {
    if Blank(p) then q == p
    else
      && PlainText(tools.cipher, p).Some? && tools.json.load(PlainText(tools.cipher, p).value).Some?
      && var entries := tools.json.load(PlainText(tools.cipher, p).value).value;
         if entries.Keys !! removed || id == Null then q == p
         else
           && PlainText(tools.cipher, q) == Some(tools.json.dump(entries - removed))
           && if p.nonce != Null then WellSealed(q) else q.nonce == Null && q.tag == Null
  }

  // ---------- the shape of a namespace ----------

  /** Nothing but payloads of the main database differs. */
  ghost predicate SameShape(a: Namespace, b: Namespace) {
    && a.(main := b.main) == b && a.main.intact == b.main.intact
    && forall t :: ColumnsOf(a.main, t) == ColumnsOf(b.main, t) && Ids(a.main, t) == Ids(b.main, t)
  }

  /** Nothing but the payloads of these main fields differs. */
  ghost predicate OnlyFields(a: Namespace, b: Namespace, fields: set<Field>) {
    SameShape(a, b) && forall f :: f !in fields ==> Payloads(a, f) == Payloads(b, f)
  }

  lemma {:induction false} OnlyFieldsTrans(a: Namespace, b: Namespace, c: Namespace, fields: set<Field>)
    requires OnlyFields(a, b, fields) && OnlyFields(b, c, fields)
    ensures OnlyFields(a, c, fields)
  {
    forall t
      ensures ColumnsOf(a.main, t) == ColumnsOf(c.main, t) && Ids(a.main, t) == Ids(c.main, t)
    {
      assert ColumnsOf(a.main, t) == ColumnsOf(b.main, t) && Ids(a.main, t) == Ids(b.main, t);
    }
  }

  /** The settings row that `WHERE id = 1` finds first. */
  function SettingsAt(ids: seq<Cell>): (k: Option<nat>)
    ensures k.Some? ==> k.value < |ids| && ids[k.value] == Number(1)
  {
    if ids == [] then None
    else if ids[0] == Number(1) then Some(0)
    else match SettingsAt(ids[1..]) case None => None case Some(k) => Some(k + 1)
  }

  function WithTable(ns: Namespace, t: Table, relation: Relation): Namespace {
    ns.(main := ns.main.(tables := ns.main.tables[t := relation]))
  }

  function WithoutTable(ns: Namespace, t: Table): Namespace {
    ns.(main := ns.main.(tables := ns.main.tables - {t}))
  }

  /** ALTER TABLE ADD COLUMN, three times: every row gets the default. */
  function AddGroup(relation: Relation, f: Field, default: Payload): Relation {
    Relation(relation.columns + Group(f),
             seq(|relation.rows|, i requires 0 <= i < |relation.rows| =>
               relation.rows[i].(cells := relation.rows[i].cells[f := default])))
  }

  function DocumentIds(ns: Namespace): set<Cell> {
    set i | 0 <= i < |Ids(ns.main, Documents)| :: Ids(ns.main, Documents)[i]
  }

  // ---------- what each step needs ----------

  ghost predicate StepReady(v: int, tools: Tools, ns: Namespace) {
    match v
    case 0 =>
      && (forall f :: f in CLIENT_FIELDS ==> HasField(ns.main, f))
      && (ns.encrypted ==>
            && tools.hasDek && SettingsAt(Ids(ns.main, AppSettings)).Some?
            && forall f :: f in CLIENT_FIELDS ==>
                 ClientReady(tools.cipher, Payloads(ns, f)[SettingsAt(Ids(ns.main, AppSettings)).value]))
    case 2 =>
      ColumnsOf(ns.main, SearchHistory) in {Some(OPAQUE_SEARCH_COLUMNS), Some(LEGACY_SEARCH_COLUMNS)}
    case 3 => ColumnsOf(ns.main, SearchHistory) == Some(OPAQUE_SEARCH_COLUMNS)
    case 4 => CanAdd(ns, OpenAiKey)
    case 5 =>
      && CanAdd(ns, ProposedTags)
      && (ns.encrypted ==>
            && tools.hasDek && (forall id :: id in Ids(ns.main, Notes) ==> ValidNoteId(id))
            && forall p :: p in Payloads(ns, ProposedTags) ==> ProposedReady(tools.cipher, p))
    case 7 =>
      && Documents in ns.main.tables
      && (DocumentIds(ns) != {} ==>
            && (ns.encrypted ==> tools.hasDek) && HasField(ns.main, NoteContent)
            && forall p :: p in Payloads(ns, NoteContent) ==> ContentReady(tools, p))
    case 8 =>
      && HasField(ns.main, ReminderPayload) && HasField(ns.main, ClientPreferences) && HasField(ns.main, PaletteUsage)
      && (forall p :: p in Payloads(ns, ReminderPayload) ==> JsonReady(tools, p))
      && (SettingsAt(Ids(ns.main, AppSettings)).Some? ==>
            var k := SettingsAt(Ids(ns.main, AppSettings)).value;
            JsonReady(tools, Payloads(ns, ClientPreferences)[k]) && JsonReady(tools, Payloads(ns, PaletteUsage)[k]))
    case 9 => ns.files.Some? && Files in ns.files.value.tables ==> Plain("id") in ns.files.value.tables[Files].columns
    case _ => true
  }

  /** The three columns are all there, or none is. */
  predicate CanAdd(ns: Namespace, f: Field) {
    TableOf(f) in ns.main.tables
    && (Group(f) <= ns.main.tables[TableOf(f)].columns || Group(f) !! ns.main.tables[TableOf(f)].columns)
  }

  function Added(ns: Namespace, f: Field, default: Payload): Namespace
    requires CanAdd(ns, f)
  {
    if HasField(ns.main, f) then ns
    else WithTable(ns, TableOf(f), AddGroup(ns.main.tables[TableOf(f)], f, default))
  }

  // ---------- what each step does ----------

  /** `done` at the settings row, nothing elsewhere. */
  ghost predicate ClientsDone(cipher: Cipher, k: nat, before: seq<Payload>, after: seq<Payload>) {
    k < |before| == |after| && ClientDone(cipher, before[k], after[k])
    && forall i :: 0 <= i < |before| && i != k ==> after[i] == before[i]
  }

  ghost predicate ProposedAllDone(cipher: Cipher, before: seq<Payload>, after: seq<Payload>) {
    |before| == |after| && forall i :: 0 <= i < |before| ==> ProposedDone(cipher, before[i], after[i])
  }

  ghost predicate ContentsDone(
    cipher: Cipher, encrypted: bool, documentIds: set<Cell>, ids: seq<Cell>, before: seq<Payload>, after: seq<Payload>)
  {
    |ids| == |before| == |after|
    && forall i :: 0 <= i < |before| ==> ContentDone(cipher, encrypted, documentIds, ids[i], before[i], after[i])
  }

  ghost predicate RemindersDone(tools: Tools, ids: seq<Cell>, before: seq<Payload>, after: seq<Payload>) {
    |ids| == |before| == |after|
    && forall i :: 0 <= i < |before| ==> JsonDone(tools, SOUND_FIELDS, ids[i], before[i], after[i])
  }

  ghost predicate PreferencesDone(tools: Tools, removed: set<string>, k: nat, before: seq<Payload>,
        after: seq<Payload>) {
    k < |before| == |after| && JsonDone(tools, removed, Number(1), before[k], after[k])
    && forall i :: 0 <= i < |before| && i != k ==> after[i] == before[i]
  }

  function OpaqueSearch(ns: Namespace): Namespace {
    if ColumnsOf(ns.main, SearchHistory) == Some(OPAQUE_SEARCH_COLUMNS) then ns
    else WithTable(WithoutTable(ns, Other("search_interaction_history_v3")), SearchHistory,
      Relation(OPAQUE_SEARCH_COLUMNS, []))
  }

  function WithFiles(ns: Namespace, change: map<Table, Relation> -> map<Table, Relation>): Namespace {
    if ns.files.None? then ns
    else ns.(files := Some(ns.files.value.(tables := change(ns.files.value.tables))))
  }

  function WithoutSounds(tables: map<Table, Relation>): map<Table, Relation> {
    tables - {Sounds}
  }

  function EditableFiles(tables: map<Table, Relation>): map<Table, Relation> {
    var created := if Files in tables then tables else tables[Files := Relation(FILES_COLUMNS, [])];
    var revised := created[Files := created[Files].(columns := created[Files].columns + {Revision})];
    if Previews in revised then revised else revised[Previews := Relation(PREVIEWS_COLUMNS, [])]
  }

  /** Before and after the step from version `v`, apart from the version number. */
  ghost predicate StepDone(v: int, tools: Tools, a: Namespace, b: Namespace) {
    match v
    case 0 =>
      if !a.encrypted then b == a
      else
        && OnlyFields(a, b, {ClientPreferences, PaletteUsage, TagPrefixes})
        && SettingsAt(Ids(a.main, AppSettings)).Some?
        && forall f :: f in CLIENT_FIELDS ==>
             ClientsDone(tools.cipher, SettingsAt(Ids(a.main, AppSettings)).value, Payloads(a, f), Payloads(b, f))
    case 1 =>
      b == if ContentMigrations in a.main.tables then a
           else WithTable(a, ContentMigrations, Relation(CONTENT_MIGRATIONS_COLUMNS, []))
    case 2 => b == OpaqueSearch(a)
    case 3 =>
      SearchHistory in a.main.tables && b == WithTable(a, SearchHistory, a.main.tables[SearchHistory].(rows := []))
    case 4 => CanAdd(a, OpenAiKey) && b == Added(a, OpenAiKey, Payload(Null, Null, Null))
    case 5 =>
      CanAdd(a, ProposedTags) &&
      var added := Added(a, ProposedTags, Payload(Text(""), Null, Null));
      if !a.encrypted then b == added
      else
        && OnlyFields(added, b, {ProposedTags})
        && ProposedAllDone(tools.cipher, Payloads(added, ProposedTags), Payloads(b, ProposedTags))
    case 6 => b == if Documents in a.main.tables then a else WithTable(a, Documents, Relation(DOCUMENTS_COLUMNS, []))
    case 7 => exists cleaned :: DocumentsRetired(tools, a, cleaned, b)
    case 8 => exists cleaned :: SoundsRetired(tools, a, cleaned, b)
    case 9 => b == WithFiles(a, EditableFiles)
    case _ => false
  }

  /** `cleaned` is the state just before the documents table is dropped. */
  ghost predicate DocumentsRetired(tools: Tools, a: Namespace, cleaned: Namespace, b: Namespace) {
    && (if DocumentIds(a) == {} then cleaned == a
        else
          && OnlyFields(a, cleaned, {NoteContent})
          && ContentsDone(tools.cipher, a.encrypted, DocumentIds(a), Ids(a.main, Notes),
                          Payloads(a, NoteContent), Payloads(cleaned, NoteContent)))
    && b == WithoutTable(cleaned, Documents)
  }

  ghost predicate SoundsRetired(tools: Tools, a: Namespace, cleaned: Namespace, b: Namespace) {
    && OnlyFields(a, cleaned, {ReminderPayload, ClientPreferences, PaletteUsage})
    && RemindersDone(tools, Ids(a.main, Reminders), Payloads(a, ReminderPayload), Payloads(cleaned, ReminderPayload))
    && (match SettingsAt(Ids(a.main, AppSettings))
        case None => OnlyFields(a, cleaned, {ReminderPayload})
        case Some(k) =>
          && PreferencesDone(tools, SOUND_PREFERENCES, k, Payloads(a, ClientPreferences),
               Payloads(cleaned, ClientPreferences))
          && PreferencesDone(tools, SOUND_COMMANDS, k, Payloads(a, PaletteUsage), Payloads(cleaned, PaletteUsage)))
    && b == WithFiles(cleaned, WithoutSounds)
  }
}
