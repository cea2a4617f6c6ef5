/**
 The audit lets through what the program stores, and nothing that is stored otherwise: text as Base64 of its
 ciphertext, the contents of files, sounds and previews as raw ciphertext, and some columns not at all.
 */
module StoredForms {
  import opened Wrappers
  import opened Base64
  import opened Vault
  import opened EncryptionAudit

  ghost predicate SealedText(cipher: Cipher, p: Payload) {
    exists nonce: seq<Byte>, text: string :: |nonce| == 12 && p == Sealed(cipher, nonce, text)
  }

  ghost predicate SealedBytes(p: Payload) {
    exists bytes, nonce, tag :: |nonce| == 12 && |tag| == 16 && p == Payload(Blob(bytes), Blob(nonce), Blob(tag))
  }

  ghost predicate NoValue(p: Payload) {
    p == Payload(Null, Null, Null) || p == Payload(Text(""), Null, Null)
  }

  /** How the program stores a payload of each field. */
  ghost predicate AsStored(cipher: Cipher, f: Field, p: Payload) {
    match f
    case FileBlob => SealedBytes(p)
    case SoundBlob => SealedBytes(p)
    case PreviewData => SealedBytes(p)
    case BackupSettings => SealedText(cipher, p) || NoValue(p)
    case ClientPreferences => SealedText(cipher, p) || NoValue(p)
    case PaletteUsage => SealedText(cipher, p) || NoValue(p)
    case TagPrefixes => SealedText(cipher, p) || NoValue(p)
    case OpenAiKey => SealedText(cipher, p) || NoValue(p)
    case LinkTitle => SealedText(cipher, p) || NoValue(p)
    case _ => SealedText(cipher, p)
  }

  /** What a database of version `v` may hold as it was before encryption. */
  predicate NotYetSealed(v: int, f: Field, p: Payload) {
    p.nonce == Null && p.tag == Null &&
    match f
    case ClientPreferences => v == 0
    case PaletteUsage => v == 0
    case TagPrefixes => v == 0
    case ProposedTags => v <= 5
    case _ => false
  }

  lemma {:induction false} SealedTextIsSealed(cipher: Cipher, p: Payload)
    requires CipherOk(cipher) && SealedText(cipher, p)
    ensures WellSealed(p)
  {
    hide Encode, Decode, Shape, IsCanonical;
    var nonce: seq<Byte>, text: string :| |nonce| == 12 && p == Sealed(cipher, nonce, text);
    SealedOpens(cipher, nonce, text);
  }

  lemma {:induction false} SealedBytesAre(p: Payload)
    requires SealedBytes(p)
    ensures IsNonce(p.nonce) && IsTag(p.tag) && p.value.Blob?
  {
  }

  lemma {:induction false} SealedPasses(cipher: Cipher, f: Field, p: Payload)
    requires CipherOk(cipher) && AsStored(cipher, f, p)
    ensures Passes(f, p, {})
  {
    hide SealedText, SealedBytes, CipherOk, IsNonce, IsTag, IsCanonical;
    if SealedBytes(p) {
      SealedBytesAre(p);
    }
    if SealedText(cipher, p) {
      SealedTextIsSealed(cipher, p);
    }
  }

  lemma {:induction false} UnsealedPasses(v: int, f: Field, p: Payload)
    requires 0 <= v <= CURRENT_DATABASE_VERSION && NotYetSealed(v, f, p)
    ensures Passes(f, p, Deferrable(v, f))
  {
    hide IsCanonical;
  }

  lemma {:induction false} PassesAnyway(f: Field, p: Payload, deferred: set<Field>)
    requires Passes(f, p, {})
    ensures Passes(f, p, deferred)
  {
    hide Absent, Encrypted;
  }

  /** Each field passes as it is stored, and in versions before its migration as it was. */
  lemma {:induction false} StoredPasses(cipher: Cipher, v: int, f: Field, p: Payload)
    requires CipherOk(cipher) && 0 <= v <= CURRENT_DATABASE_VERSION
    ensures AsStored(cipher, f, p) ==> Passes(f, p, {}) && Passes(f, p, Deferrable(v, f))
    ensures NotYetSealed(v, f, p) ==> Passes(f, p, Deferrable(v, f))
  {
    hide AsStored, NotYetSealed, Passes, CipherOk, Deferrable;
    if AsStored(cipher, f, p) {
      SealedPasses(cipher, f, p);
      PassesAnyway(f, p, Deferrable(v, f));
    }
    if NotYetSealed(v, f, p) { UnsealedPasses(v, f, p); }
  }

  /** The other form is refused: Base64 where bytes are stored, bytes where text is, nothing where there must be
      something, and plain text that no migration waits for. */
  lemma {:induction false} OtherFormsAreRefused(cipher: Cipher, v: int, f: Field, p: Payload)
    requires CipherOk(cipher) && 0 <= v <= CURRENT_DATABASE_VERSION && !NotYetSealed(v, f, p)
    ensures SealedText(cipher, p) ==> (Passes(f, p, Deferrable(v, f)) <==> f !in {FileBlob, SoundBlob, PreviewData})
    ensures SealedBytes(p) ==> (Passes(f, p, Deferrable(v, f)) <==> f in {FileBlob, SoundBlob, PreviewData})
    ensures NoValue(p) ==> (Passes(f, p, Deferrable(v, f)) <==>
        f in {BackupSettings, ClientPreferences, PaletteUsage, TagPrefixes, OpenAiKey, LinkTitle})
    ensures p.nonce == Null && p.tag == Null && !NoValue(p) ==> !Passes(f, p, Deferrable(v, f))
    ensures (p.nonce == Null) != (p.tag == Null) ==> !Passes(f, p, Deferrable(v, f))
  {
    if SealedText(cipher, p) {
      SealedTextIsSealed(cipher, p);
    }
    hide IsCanonical, SealedText, CipherOk;
  }

  // ---------- nonces ----------

  ghost predicate HasNonce(ns: Namespace, f: Field, i: nat, n: seq<Byte>) {
    i < |Payloads(ns, f)| && Recorded(Payloads(ns, f)[i]) && Payloads(ns, f)[i].nonce == Blob(n)
  }

  /** No two payloads share a nonce. */
  ghost predicate NoncesDiffer(ns: Namespace) {
    forall f: Field, i: nat, g: Field, j: nat, n :: HasNonce(ns, f, i, n) && HasNonce(ns, g, j, n) ==> f == g && i == j
  }

  ghost function NoncesOf(ns: Namespace): set<seq<Byte>> {
    set f: Field, i: nat | i < |Payloads(ns, f)| && Recorded(Payloads(ns, f)[i]) :: Payloads(ns, f)[i].nonce.bytes
  }

  lemma {:induction false} NonceIsKnown(ns: Namespace, n: seq<Byte>)
    requires n in NoncesOf(ns)
    ensures exists f: Field, i: nat :: HasNonce(ns, f, i, n)
  {
    hide Payloads;
    var f: Field, i: nat :|
      i < |Payloads(ns, f)| && Recorded(Payloads(ns, f)[i]) && Payloads(ns, f)[i].nonce.bytes == n;
    assert HasNonce(ns, f, i, n);
  }

  ghost function PlaceOf(ns: Namespace, n: seq<Byte>): (Field, nat)
    requires exists f: Field, i: nat :: HasNonce(ns, f, i, n)
  {
    var f: Field, i: nat :| HasNonce(ns, f, i, n);
    (f, i)
  }

  /** Each nonce has one owner exactly if no two payloads share one. */
  lemma {:induction false} OwnedExactly(ns: Namespace)
    ensures (exists owner :: Owned(ns, owner)) <==> NoncesDiffer(ns)
  {
    hide Payloads, Recorded, NoncesOf;
    if NoncesDiffer(ns) {
      forall n | n in NoncesOf(ns)
        ensures exists f: Field, i: nat :: HasNonce(ns, f, i, n)
      {
        NonceIsKnown(ns, n);
      }
      var owner: Owner := map n | n in NoncesOf(ns) :: PlaceOf(ns, n);
      forall f: Field, i: nat | i < |Payloads(ns, f)|
        ensures OwnsAt(owner, Payloads(ns, f)[i], f, i)
      {
        if Recorded(Payloads(ns, f)[i]) { NonceIsPlaced(ns, f, i); }
      }
      assert Owned(ns, owner);
    }
    if exists owner :: Owned(ns, owner) {
      var owner :| Owned(ns, owner);
      forall f: Field, i: nat, g: Field, j: nat, n | HasNonce(ns, f, i, n) && HasNonce(ns, g, j, n)
        ensures f == g && i == j
      {
        assert OwnsAt(owner, Payloads(ns, f)[i], f, i) && OwnsAt(owner, Payloads(ns, g)[j], g, j);
      }
    }
  }

  lemma {:induction false} NonceIsPlaced(ns: Namespace, f: Field, i: nat)
    requires NoncesDiffer(ns) && i < |Payloads(ns, f)| && Recorded(Payloads(ns, f)[i])
    ensures var n := Payloads(ns, f)[i].nonce.bytes;
      n in NoncesOf(ns) && HasNonce(ns, f, i, n) && PlaceOf(ns, n) == (f, i)
  {
    hide Payloads;
    assert HasNonce(ns, f, i, Payloads(ns, f)[i].nonce.bytes);
  }

  // ---------- whole namespaces ----------

  /** The tables and columns of the current version. */
  ghost predicate CurrentSchema(ns: Namespace) {
    && SchemaOf(ns.main) == map[
         Notes := NOTES_COLUMNS, AppSettings := APP_SETTINGS_COLUMNS, OntologyRules := RULES_COLUMNS,
         TabState := TAB_STATE_COLUMNS, LinkTitles := LINK_TITLES_COLUMNS, Reminders := REMINDERS_COLUMNS,
         SearchHistory := OPAQUE_SEARCH_COLUMNS, LaunchProfile := LAUNCH_PROFILE_COLUMNS,
         ContentMigrations := CONTENT_MIGRATIONS_COLUMNS]
    && (ns.files.Some? ==> SchemaOf(ns.files.value) == map[Files := FILES_COLUMNS, Previews := PREVIEWS_COLUMNS])
  }

  /** Nothing else is wrong: sound files, one settings row, a vault in order, no nonce used twice. */
  ghost predicate InOrder(ns: Namespace) {
    && ns.main.intact && (ns.files.Some? ==> ns.files.value.intact)
    && |RowsOf(ns.main, AppSettings)| == 1 && RowsOf(ns.main, AppSettings)[0].id == Number(1)
    && ns.vaultFaults == 0 && NoncesDiffer(ns)
  }

  /** The audit has nothing to report about a current namespace that is stored as the program stores it. */
  lemma {:induction false} StoredIsClean(cipher: Cipher, ns: Namespace)
    requires CipherOk(cipher) && ns.version == CURRENT_DATABASE_VERSION && CurrentSchema(ns) && InOrder(ns)
    requires forall f, p :: p in Payloads(ns, f) ==> AsStored(cipher, f, p)
    ensures Clean(ns)
  {
    hide AsStored, Passes, Payloads, CipherOk, NoncesDiffer, Names;
    CurrentSchemaIsOk(ns);
    OwnedExactly(ns);
    forall f
      ensures FieldPasses(ns, f, {}) && FieldPasses(ns, f, Deferrable(ns.version, f))
    {
      forall i | 0 <= i < |Payloads(ns, f)|
        ensures Passes(f, Payloads(ns, f)[i], {}) && Passes(f, Payloads(ns, f)[i], Deferrable(ns.version, f))
      {
        StoredPasses(cipher, ns.version, f, Payloads(ns, f)[i]);
      }
    }
  }

  lemma {:induction false} CurrentSchemaIsOk(ns: Namespace)
    requires ns.version == CURRENT_DATABASE_VERSION && CurrentSchema(ns)
    ensures SchemasOk(ns) && !SearchPending(ns)
  {
    hide Names, Group;
    SchemaAt(ns.main);
    if ns.files.Some? { SchemaAt(ns.files.value); }
  }

  lemma {:induction false} SchemaAt(db: Database)
    ensures forall t :: ColumnsOf(db, t) == At(SchemaOf(db), t)
  {
  }

  /** The columns that a table has in that schema. */
  function ColumnsNow(t: Table): set<Column> {
    match t
    case Notes => NOTES_COLUMNS case AppSettings => APP_SETTINGS_COLUMNS case OntologyRules => RULES_COLUMNS
    case TabState => TAB_STATE_COLUMNS case LinkTitles => LINK_TITLES_COLUMNS case Reminders => REMINDERS_COLUMNS
    case SearchHistory => OPAQUE_SEARCH_COLUMNS case LaunchProfile => LAUNCH_PROFILE_COLUMNS
    case ContentMigrations => CONTENT_MIGRATIONS_COLUMNS case Files => FILES_COLUMNS case Previews => PREVIEWS_COLUMNS
    case _ => {}
  }

  lemma {:induction false} SettingsGroups(f: Field)
    requires f in {BackupSettings, ClientPreferences, PaletteUsage, TagPrefixes, OpenAiKey}
    ensures TableOf(f) == AppSettings && Group(f) <= APP_SETTINGS_COLUMNS
  {
    hide Names, VAULT_COLUMNS;
  }

  lemma {:induction false} OtherGroups(f: Field)
    requires f !in {BackupSettings, ClientPreferences, PaletteUsage, TagPrefixes, OpenAiKey}
    requires f !in {Document, QueryKey, RootTag, TagsJson, SoundTitle, SoundMetadata, SoundBlob}
    ensures Group(f) <= ColumnsNow(TableOf(f))
  {
    hide Names, APP_SETTINGS_COLUMNS;
  }

  lemma {:induction false} TableIsThere(ns: Namespace, t: Table)
    requires CurrentSchema(ns)
    ensures t in {Notes, AppSettings, OntologyRules, TabState, LinkTitles, Reminders, SearchHistory} ==>
      ColumnsOf(ns.main, t) == Some(ColumnsNow(t))
    ensures ns.files.Some? && t in {Files, Previews} ==> ColumnsOf(ns.files.value, t) == Some(ColumnsNow(t))
  {
    hide Names, NOTES_COLUMNS, APP_SETTINGS_COLUMNS, RULES_COLUMNS, TAB_STATE_COLUMNS, LINK_TITLES_COLUMNS,
      REMINDERS_COLUMNS, OPAQUE_SEARCH_COLUMNS, FILES_COLUMNS, PREVIEWS_COLUMNS;
    SchemaAt(ns.main);
    assert ColumnsOf(ns.main, t) == At(SchemaOf(ns.main), t);
    if ns.files.Some? {
      SchemaAt(ns.files.value);
      assert ColumnsOf(ns.files.value, t) == At(SchemaOf(ns.files.value), t);
    }
  }

  lemma {:induction false} GroupIsNow(f: Field)
    requires f !in {Document, QueryKey, RootTag, TagsJson, SoundTitle, SoundMetadata, SoundBlob}
    ensures Group(f) <= ColumnsNow(TableOf(f))
  {
    hide Group, Names, VAULT_COLUMNS, APP_SETTINGS_COLUMNS, NOTES_COLUMNS, FILES_COLUMNS;
    if f in {BackupSettings, ClientPreferences, PaletteUsage, TagPrefixes, OpenAiKey} {
      SettingsGroups(f);
    } else {
      OtherGroups(f);
    }
  }

  lemma {:induction false} TableIsCurrent(f: Field)
    requires f !in {Document, QueryKey, RootTag, TagsJson, SoundTitle, SoundMetadata, SoundBlob}
    ensures InFiles(f) <==> f in {FileTitle, FileMetadata, FileBlob, PreviewData}
    ensures if InFiles(f) then TableOf(f) in {Files, Previews}
            else TableOf(f) in {Notes, AppSettings, OntologyRules, TabState, LinkTitles, Reminders, SearchHistory}
  {
  }

  lemma {:induction false} GroupMakesField(db: Database, f: Field)
    requires ColumnsOf(db, TableOf(f)).Some? && Group(f) <= ColumnsOf(db, TableOf(f)).value
    ensures HasField(db, f)
  {
    hide Group, TableOf;
  }

  /** In that schema every field of the version has its table and its three columns there, so it is looked at. */
  lemma {:induction false} CurrentFieldsAreThere(ns: Namespace, f: Field)
    requires CurrentSchema(ns) && f !in {Document, QueryKey, RootTag, TagsJson, SoundTitle, SoundMetadata, SoundBlob}
    ensures InFiles(f) <==> f in {FileTitle, FileMetadata, FileBlob, PreviewData}
    ensures !InFiles(f) ==> HasField(ns.main, f)
    ensures InFiles(f) && ns.files.Some? ==> HasField(ns.files.value, f)
  {
    hide CurrentSchema, ColumnsNow, Group, NOTES_COLUMNS, APP_SETTINGS_COLUMNS;
    GroupIsNow(f);
    TableIsThere(ns, TableOf(f));
    TableIsCurrent(f);
    hide TableOf, InFiles;
    if InFiles(f) {
      if ns.files.Some? { GroupMakesField(ns.files.value, f); }
    } else {
      GroupMakesField(ns.main, f);
    }
  }

  /** About an older one it has nothing fatal to report, if what is not sealed yet is what a migration will seal. */
  lemma {:induction false} OldIsAdmitted(cipher: Cipher, ns: Namespace)
    requires CipherOk(cipher) && SchemasOk(ns) && InOrder(ns)
    requires forall f, p :: p in Payloads(ns, f) ==> AsStored(cipher, f, p) || NotYetSealed(ns.version, f, p)
    ensures Admitted(ns)
  {
    hide AsStored, NotYetSealed, Passes, Payloads, CipherOk, NoncesDiffer, MainSchemaOk, FilesSchemaOk;
    OwnedExactly(ns);
    forall f
      ensures FieldPasses(ns, f, Deferrable(ns.version, f))
    {
      forall i | 0 <= i < |Payloads(ns, f)|
        ensures Passes(f, Payloads(ns, f)[i], Deferrable(ns.version, f))
      {
        StoredPasses(cipher, ns.version, f, Payloads(ns, f)[i]);
      }
    }
  }
}
