/** What a namespace stores: tables, encrypted cells, and the cipher of its data encryption key. */
module Vault {
  import opened Wrappers
  import opened Base64

  const GCM_NONCE_BYTES := 12
  const GCM_TAG_BYTES := 16
  const CURRENT_DATABASE_VERSION := 10

  /** A stored SQLite value. */
  datatype Cell = Null | Text(text: string) | Blob(bytes: seq<Byte>) | Number(number: int)

  /** A sensitive value with its encryption metadata. */
  datatype Payload = Payload(value: Cell, nonce: Cell, tag: Cell)

  datatype Field =
    | NoteContent | NoteTags | ProposedTags
    | BackupSettings | ClientPreferences | PaletteUsage | TagPrefixes | OpenAiKey
    | RuleText | Document | TabStateJson | LinkUrl | LinkTitle | ReminderPayload
    | SearchPayload | QueryKey | RootTag | TagsJson
    | FileTitle | FileMetadata | FileBlob | SoundTitle | SoundMetadata | SoundBlob | PreviewData

  datatype Table =
    | Notes | AppSettings | OntologyRules | Documents | TabState | LinkTitles | Reminders | SearchHistory
    | LaunchProfile | ContentMigrations | Files | Sounds | Previews | Other(name: string)

  datatype Column = ValueOf(f: Field) | NonceOf(f: Field) | TagOf(f: Field) | Revision | Plain(name: string)

  datatype Row = Row(id: Cell, cells: map<Field, Payload>)

  datatype Relation = Relation(columns: set<Column>, rows: seq<Row>)

  datatype Database = Database(intact: bool, tables: map<Table, Relation>)

  /** `vaultFaults` counts what is wrong with the key-derivation columns, which no migration touches. */
  datatype Namespace = Namespace(
    version: int, encrypted: bool, vaultFaults: nat, main: Database, files: Option<Database>)

  function TableOf(f: Field): Table {
    match f
    case NoteContent => Notes case NoteTags => Notes case ProposedTags => Notes
    case BackupSettings => AppSettings case ClientPreferences => AppSettings case PaletteUsage => AppSettings
    case TagPrefixes => AppSettings case OpenAiKey => AppSettings
    case RuleText => OntologyRules case Document => Documents case TabStateJson => TabState
    case LinkUrl => LinkTitles case LinkTitle => LinkTitles case ReminderPayload => Reminders
    case SearchPayload => SearchHistory case QueryKey => SearchHistory
    case RootTag => SearchHistory case TagsJson => SearchHistory
    case FileTitle => Files case FileMetadata => Files case FileBlob => Files
    case SoundTitle => Sounds case SoundMetadata => Sounds case SoundBlob => Sounds
    case PreviewData => Previews
  }

  predicate InFiles(f: Field) {
    TableOf(f) in {Files, Sounds, Previews}
  }

  function Group(f: Field): set<Column> {
    {ValueOf(f), NonceOf(f), TagOf(f)}
  }

  function Names(names: set<string>): (r: set<Column>)
    ensures forall c :: c in r ==> c.Plain?
  {
    set name | name in names :: Plain(name)
  }

  // ---------- the columns of each table ----------

  const NOTES_COLUMNS :=
    Names({"id", "is_collapsed", "parent_id", "prev_id", "next_id", "created_at", "updated_at"})
    + Group(NoteContent) + Group(NoteTags) + Group(ProposedTags)

  const VAULT_COLUMNS :=
    Names({"id", "auth_verifier", "auth_salt", "auth_iterations", "kek_salt", "kek_iterations", "vault_version",
           "kdf_algorithm", "kdf_memory_cost_kib", "kdf_parallelism", "encryption_algorithm", "encrypted_dek",
           "dek_nonce", "dek_tag"})

  const APP_SETTINGS_COLUMNS :=
    VAULT_COLUMNS + Names({"encryption_enabled", "session_timeout_minutes", "created_at", "updated_at"})
    + Group(BackupSettings) + Group(ClientPreferences) + Group(PaletteUsage) + Group(TagPrefixes) + Group(OpenAiKey)

  const RULES_COLUMNS := Names({"id", "created_at", "updated_at"}) + Group(RuleText)

  const TAB_STATE_COLUMNS := Names({"id", "created_at", "updated_at"}) + Group(TabStateJson)

  const LINK_TITLES_COLUMNS :=
    Names({"id", "status", "last_error_kind", "last_checked_at", "last_success_at", "last_failure_at",
           "next_check_after", "failure_count", "created_at", "updated_at"})
    + Group(LinkUrl) + Group(LinkTitle)

  const REMINDERS_COLUMNS := Names({"id", "created_at", "updated_at"}) + Group(ReminderPayload)

  const LEGACY_SEARCH_COLUMNS :=
    Names({"query_hash", "score", "created_at", "last_interacted_at", "updated_at"})
    + Group(QueryKey) + Group(RootTag) + Group(TagsJson)

  const OPAQUE_SEARCH_COLUMNS := Names({"storage_id"}) + Group(SearchPayload)

  const LAUNCH_PROFILE_COLUMNS := Names({"namespace", "port", "https_port", "mcp_port", "created_at", "updated_at"})

  const CONTENT_MIGRATIONS_COLUMNS :=
    Names({"migration_id", "status", "converted_count", "unresolved_count", "last_attempt_at", "completed_at",
           "created_at", "updated_at"})

  const DOCUMENTS_COLUMNS := Names({"id"}) + Group(Document)

  const FILES_COLUMNS :=
    Names({"id", "created_at", "updated_at"}) + {Revision} + Group(FileTitle) + Group(FileMetadata) + Group(FileBlob)

  const SOUNDS_COLUMNS :=
    Names({"id", "created_at", "updated_at"}) + Group(SoundTitle) + Group(SoundMetadata) + Group(SoundBlob)

  const PREVIEWS_COLUMNS :=
    Names({"file_id", "variant", "mime_type", "content_revision", "updated_at"}) + Group(PreviewData)

  // ---------- looking into a database ----------

  function ColumnsOf(db: Database, t: Table): Option<set<Column>> {
    if t in db.tables then Some(db.tables[t].columns) else None
  }

  function RowsOf(db: Database, t: Table): seq<Row> {
    if t in db.tables then db.tables[t].rows else []
  }

  function PayloadOf(row: Row, f: Field): Payload {
    if f in row.cells then row.cells[f] else Payload(Null, Null, Null)
  }

  predicate HasField(db: Database, f: Field) {
    TableOf(f) in db.tables && Group(f) <= db.tables[TableOf(f)].columns
  }

  /** All stored payloads of a field, in row order. */
  function Cells(db: Database, f: Field): (r: seq<Payload>)
    ensures |r| == if HasField(db, f) then |RowsOf(db, TableOf(f))| else 0
  {
    var rows := if HasField(db, f) then RowsOf(db, TableOf(f)) else [];
    seq(|rows|, i requires 0 <= i < |rows| => PayloadOf(rows[i], f))
  }

  /** The payloads of a field wherever its database is. */
  function Payloads(ns: Namespace, f: Field): seq<Payload> {
    if !InFiles(f) then Cells(ns.main, f)
    else if ns.files.Some? then Cells(ns.files.value, f) else []
  }

  function Ids(db: Database, t: Table): (ids: seq<Cell>)
    ensures |ids| == |RowsOf(db, t)|
  {
    seq(|RowsOf(db, t)|, i requires 0 <= i < |RowsOf(db, t)| => RowsOf(db, t)[i].id)
  }

  /** Primary keys: no two rows share an id that is not NULL. */
  ghost predicate KeysUnique(ids: seq<Cell>) {
    forall i, j :: 0 <= i < j < |ids| && ids[i] == ids[j] ==> ids[i] == Null
  }

  ghost predicate KeyedTables(ns: Namespace) {
    KeysUnique(Ids(ns.main, Notes)) && KeysUnique(Ids(ns.main, Reminders)) && KeysUnique(Ids(ns.main, AppSettings))
  }

  // ---------- encryption ----------

  /** AES-256-GCM under the data encryption key: `seal` gives ciphertext and tag. */
  datatype Cipher = Cipher(
    seal: (seq<Byte>, string) -> (seq<Byte>, seq<Byte>), open: (seq<Byte>, seq<Byte>, seq<Byte>) -> Option<string>)

  ghost predicate SealOk(cipher: Cipher, nonce: seq<Byte>, text: string) {
    var sealed := cipher.seal(nonce, text);
    && |sealed.1| == GCM_TAG_BYTES && cipher.open(sealed.0, nonce, sealed.1) == Some(text)
    && (sealed.0 == [] <==> text == "")
  }

  /** Opening undoes sealing, and a ciphertext is as long as what it hides. */
  ghost predicate CipherOk(cipher: Cipher) {
    forall nonce: seq<Byte>, text: string :: SealOk(cipher, nonce, text)
  }

  function Sealed(cipher: Cipher, nonce: seq<Byte>, text: string): Payload {
    Payload(Text(Encode(cipher.seal(nonce, text).0)), Blob(nonce), Blob(cipher.seal(nonce, text).1))
  }

  function Decrypted(cipher: Cipher, p: Payload): Option<string> {
    if p.value.Text? && IsCanonical(p.value.text) && p.nonce.Blob? && p.tag.Blob? && |p.tag.bytes| == GCM_TAG_BYTES
    then cipher.open(Decode(p.value.text), p.nonce.bytes, p.tag.bytes)
    else None
  }

  /** The text behind a payload, stored as it is or encrypted. */
  function PlainText(cipher: Cipher, p: Payload): Option<string> {
    if p.nonce != Null then Decrypted(cipher, p) else if p.value.Text? then Some(p.value.text) else None
  }

  predicate IsNonce(c: Cell) {
    c.Blob? && |c.bytes| == GCM_NONCE_BYTES
  }

  predicate IsTag(c: Cell) {
    c.Blob? && |c.bytes| == GCM_TAG_BYTES
  }

  /** A text payload as encryption leaves it. */
  predicate WellSealed(p: Payload) {
    IsNonce(p.nonce) && IsTag(p.tag) && p.value.Text? && IsCanonical(p.value.text)
  }

  lemma {:induction false} SealedOpens(cipher: Cipher, nonce: seq<Byte>, text: string)
    requires CipherOk(cipher) && |nonce| == GCM_NONCE_BYTES
    ensures WellSealed(Sealed(cipher, nonce, text))
    ensures Decrypted(cipher, Sealed(cipher, nonce, text)) == Some(text)
    ensures Sealed(cipher, nonce, text).value == Text("") <==> text == ""
  {
    hide Encode, Decode, Shape;
    var ciphertext := cipher.seal(nonce, text).0;
    assert SealOk(cipher, nonce, text);
    DecodeEncode(ciphertext);
    EmptyEncoding(ciphertext);
  }

  lemma {:induction false} EmptyEncoding(bytes: seq<Byte>)
    ensures Encode(bytes) == "" <==> bytes == []
  {
  }

  // ---------- nonce ownership ----------

  /** A payload whose nonce counts as used: metadata is there and the nonce has its size. */
  predicate Recorded(p: Payload) {
    IsNonce(p.nonce) && p.tag != Null
  }

  type Owner = map<seq<Byte>, (Field, nat)>

  ghost predicate OwnsAt(owner: Owner, p: Payload, f: Field, i: nat) {
    Recorded(p) ==> p.nonce.bytes in owner && owner[p.nonce.bytes] == (f, i)
  }

  /** Every nonce in use belongs to one payload only. */
  ghost predicate Owned(ns: Namespace, owner: Owner) {
    forall f: Field, i: nat :: i < |Payloads(ns, f)| ==> OwnsAt(owner, Payloads(ns, f)[i], f, i)
  }
}
