/** What an older program stored can be migrated, and what the migrations look up and take away by name. */
module StoredReady {
  import opened Wrappers
  import opened Base64
  import opened Vault
  import opened StoredForms
  import opened MigrationSteps
  import opened MigrationTheorems
  import opened NamespaceAudit

  /** `text` is behind the payload, sealed or as it is. */
  ghost predicate Behind(cipher: Cipher, p: Payload, text: string) {
    p == Payload(Text(text), Null, Null) || exists nonce: seq<Byte> :: |nonce| == 12 && p == Sealed(cipher, nonce, text)
  }

  ghost predicate HoldsText(cipher: Cipher, p: Payload) {
    exists text :: Behind(cipher, p, text)
  }

  ghost predicate HoldsSome(cipher: Cipher, p: Payload) {
    NoValue(p) || exists text :: text != "" && Behind(cipher, p, text)
  }

  ghost predicate HoldsEntries(tools: Tools, p: Payload) {
    NoValue(p) || exists text :: Behind(tools.cipher, p, text) && tools.json.load(text).Some?
  }

  lemma {:induction false} BehindIs(cipher: Cipher, p: Payload, text: string)
    requires CipherOk(cipher) && Behind(cipher, p, text)
    ensures p.value.Text? && Complete(p) && PlainText(cipher, p) == Some(text)
    ensures p.nonce != Null ==> Decrypted(cipher, p) == Some(text)
    ensures Blank(p) <==> text == ""
  {
    hide Encode, Decode, Shape, IsCanonical, Decrypted, Sealed;
    if p != Payload(Text(text), Null, Null) {
      var nonce: seq<Byte> :| |nonce| == 12 && p == Sealed(cipher, nonce, text);
      SealedOpens(cipher, nonce, text);
    }
  }

  /** Stored as any version stores it: client state not sealed empty, ids of notes, JSON objects where they are read. */
  ghost predicate StoredWell(tools: Tools, ns: Namespace) {
    && (forall f, p :: f in {ClientPreferences, PaletteUsage, TagPrefixes} && p in Payloads(ns, f) ==>
          HoldsSome(tools.cipher, p))
    && (forall f, p :: f in {NoteContent, ProposedTags} && p in Payloads(ns, f) ==> HoldsText(tools.cipher, p))
    && (forall f, p :: f in {ReminderPayload, ClientPreferences, PaletteUsage} && p in Payloads(ns, f) ==>
          HoldsEntries(tools, p))
    && forall id :: id in Ids(ns.main, Notes) ==> exists text :: text != "" && id == Text(text)
  }

  /** Such a namespace is ready for every migration, from whatever version. */
  lemma {:induction false} StoredIsReady(tools: Tools, ns: Namespace)
    requires CipherOk(tools.cipher) && tools.hasDek && StoredWell(tools, ns)
    ensures Ready(tools, ns)
  {
    hide Payloads, Ids, CipherOk, HoldsText, HoldsSome, HoldsEntries, Behind, DocumentIds;
    forall f, p | f in CLIENT_FIELDS && p in Payloads(ns, f)
      ensures ClientReady(tools.cipher, p)
    {
      ClientIsReady(tools.cipher, p);
    }
    forall f, p | f in {NoteContent, ProposedTags} && p in Payloads(ns, f)
      ensures ContentReady(tools, p) && ProposedReady(tools.cipher, p)
    {
      TextIsReady(tools, p);
    }
    forall f, p | f in {ReminderPayload, ClientPreferences, PaletteUsage} && p in Payloads(ns, f)
      ensures JsonReady(tools, p)
    {
      EntriesAreReady(tools, p);
    }
  }

  lemma {:induction false} ClientIsReady(cipher: Cipher, p: Payload)
    requires CipherOk(cipher) && HoldsSome(cipher, p)
    ensures ClientReady(cipher, p)
  {
    hide CipherOk, Behind, PlainText, Decrypted;
    if !NoValue(p) {
      var text :| text != "" && Behind(cipher, p, text);
      BehindIs(cipher, p, text);
    }
  }

  lemma {:induction false} TextIsReady(tools: Tools, p: Payload)
    requires CipherOk(tools.cipher) && tools.hasDek && HoldsText(tools.cipher, p)
    ensures ContentReady(tools, p) && ProposedReady(tools.cipher, p)
  {
    hide CipherOk, Behind, PlainText, Decrypted;
    var text :| Behind(tools.cipher, p, text);
    BehindIs(tools.cipher, p, text);
  }

  lemma {:induction false} EntriesAreReady(tools: Tools, p: Payload)
    requires CipherOk(tools.cipher) && tools.hasDek && HoldsEntries(tools, p)
    ensures JsonReady(tools, p)
  {
    hide CipherOk, Behind, PlainText, Decrypted;
    if !NoValue(p) {
      var text :| Behind(tools.cipher, p, text) && tools.json.load(text).Some?;
      BehindIs(tools.cipher, p, text);
    }
  }

  // ---------- by name ----------

  /** The keys that step 8→9 takes out of reminders, preferences and the command palette. */
  predicate SoundKey(f: Field, key: string) {
    match f
    case ReminderPayload => key in {"popup_sound_enabled", "popup_sound_id", "ack_sound_enabled", "ack_sound_id"}
    case ClientPreferences => key in {
      "pref.reminder_popup_sound_enabled", "pref.reminder_popup_sound_id", "pref.reminder_ack_sound_enabled",
      "pref.reminder_ack_sound_id", "pref.reminder_default_popup_sound_enabled",
      "pref.reminder_default_popup_sound_id", "pref.reminder_default_ack_sound_enabled",
      "pref.reminder_default_ack_sound_id"}
    case PaletteUsage => key == "form.manage_sounds"
    case _ => false
  }

  function RemovedFrom(f: Field): set<string> {
    match f
    case ReminderPayload => SOUND_FIELDS
    case ClientPreferences => SOUND_PREFERENCES
    case PaletteUsage => SOUND_COMMANDS
    case _ => {}
  }

  lemma {:induction false} RemovedAre(f: Field, key: string)
    ensures key in RemovedFrom(f) <==> SoundKey(f, key)
  {
    if f == ClientPreferences {
      PreferenceKeys();
    }
  }

  lemma {:induction false} PreferenceKeys()
    ensures SOUND_PREFERENCES == {
      "pref.reminder_popup_sound_enabled", "pref.reminder_popup_sound_id", "pref.reminder_ack_sound_enabled",
      "pref.reminder_ack_sound_id", "pref.reminder_default_popup_sound_enabled",
      "pref.reminder_default_popup_sound_id", "pref.reminder_default_ack_sound_enabled",
      "pref.reminder_default_ack_sound_id"}
  {
    var plain := set name | name in SOUND_FIELDS :: "pref.reminder_" + name;
    var default := set name | name in SOUND_FIELDS :: "pref.reminder_default_" + name;
    assert SOUND_PREFERENCES == plain + default;
    hide SOUND_FIELDS, SOUND_PREFERENCES;
    PlainKeys();
    KeysOf("pref.reminder_");
    assert plain == {
      "pref.reminder_popup_sound_enabled", "pref.reminder_popup_sound_id", "pref.reminder_ack_sound_enabled",
      "pref.reminder_ack_sound_id"};
    DefaultKeys();
    KeysOf("pref.reminder_default_");
    assert default == {
      "pref.reminder_default_popup_sound_enabled", "pref.reminder_default_popup_sound_id",
      "pref.reminder_default_ack_sound_enabled", "pref.reminder_default_ack_sound_id"};
  }

  lemma {:induction false} PlainKeys()
    ensures "pref.reminder_" + "popup_sound_enabled" == "pref.reminder_popup_sound_enabled"
    ensures "pref.reminder_" + "popup_sound_id" == "pref.reminder_popup_sound_id"
    ensures "pref.reminder_" + "ack_sound_enabled" == "pref.reminder_ack_sound_enabled"
    ensures "pref.reminder_" + "ack_sound_id" == "pref.reminder_ack_sound_id"
  {
  }

  lemma {:induction false} DefaultKeys()
    ensures "pref.reminder_default_" + "popup_sound_enabled" == "pref.reminder_default_popup_sound_enabled"
    ensures "pref.reminder_default_" + "popup_sound_id" == "pref.reminder_default_popup_sound_id"
    ensures "pref.reminder_default_" + "ack_sound_enabled" == "pref.reminder_default_ack_sound_enabled"
    ensures "pref.reminder_default_" + "ack_sound_id" == "pref.reminder_default_ack_sound_id"
  {
  }

  lemma {:induction false} KeysOf(prefix: string)
    ensures (set name | name in SOUND_FIELDS :: prefix + name) == {
      prefix + "popup_sound_enabled", prefix + "popup_sound_id", prefix + "ack_sound_enabled", prefix + "ack_sound_id"}
  {
    var keys := set name | name in SOUND_FIELDS :: prefix + name;
    forall name | name in SOUND_FIELDS
      ensures prefix + name in keys
    {
    }
  }

  /** After the step the entries are those of before without these keys, whatever else they are. */
  lemma {:induction false} SoundKeysGo(tools: Tools, f: Field, id: Cell, p: Payload, q: Payload, text: string,
        key: string)
    requires CipherOk(tools.cipher) && JsonOk(tools.json) && id != Null
    requires Behind(tools.cipher, p, text) && text != "" && JsonDone(tools, RemovedFrom(f), id, p, q)
    ensures tools.json.load(text).Some? && PlainText(tools.cipher, q).Some?
    ensures tools.json.load(PlainText(tools.cipher, q).value).Some?
    ensures var before := tools.json.load(text).value;
      var after := tools.json.load(PlainText(tools.cipher, q).value).value;
      && (key in after <==> key in before && !SoundKey(f, key))
      && (key in after ==> after[key] == before[key])
  {
    BehindIs(tools.cipher, p, text);
    RemovedAre(f, key);
    hide CipherOk, Behind, PlainText, SoundKey, RemovedFrom;
    var entries := tools.json.load(text).value;
    assert DumpLoads(tools.json, entries - RemovedFrom(f));
  }

  /** The retired documents are the rows of their table, every one. */
  lemma {:induction false} RetiredIdsAre(ns: Namespace, id: Cell)
    ensures id in DocumentIds(ns) <==> exists row :: row in RowsOf(ns.main, Documents) && row.id == id
  {
    var rows, ids := RowsOf(ns.main, Documents), Ids(ns.main, Documents);
    if id in DocumentIds(ns) {
      var i :| 0 <= i < |ids| && ids[i] == id;
      assert rows[i] in rows && rows[i].id == id;
    }
    if row :| row in rows && row.id == id {
      var i :| 0 <= i < |rows| && rows[i] == row;
      assert ids[i] == id;
    }
  }

  /** The settings are found at the first row with id 1, if there is one. */
  lemma {:induction false} SettingsRowIs(ids: seq<Cell>, k: nat)
    ensures SettingsAt(ids) == Some(k) <==>
      k < |ids| && ids[k] == Number(1) && forall i :: 0 <= i < k ==> ids[i] != Number(1)
    ensures SettingsAt(ids) == None <==> Number(1) !in ids
  {
    if ids != [] && ids[0] != Number(1) {
      SettingsRowIs(ids[1..], if k > 0 then k - 1 else 0);
    }
  }

  /** The settings can be read exactly if the column is there and one row, and one only, has id 1. */
  lemma {:induction false} ReadableExactly(ns: Namespace)
    ensures SettingsReadable(ns) <==>
      && AppSettings in ns.main.tables && Plain("encryption_enabled") in ns.main.tables[AppSettings].columns
      && exists i :: 0 <= i < |RowsOf(ns.main, AppSettings)| && OnlyAt(RowsOf(ns.main, AppSettings), i)
  {
    OneRow(RowsOf(ns.main, AppSettings));
  }

  /** Row `i` has id 1, and no other row has. */
  ghost predicate OnlyAt(rows: seq<Row>, i: nat)
    requires i < |rows|
  {
    rows[i].id == Number(1) && forall j :: 0 <= j < |rows| && j != i ==> rows[j].id != Number(1)
  }

  lemma {:induction false} OneRow(rows: seq<Row>)
    ensures |SettingsRows(rows)| == 1 <==> exists i :: 0 <= i < |rows| && OnlyAt(rows, i)
    ensures SettingsRows(rows) == [] <==> forall i :: 0 <= i < |rows| ==> rows[i].id != Number(1)
  {
    if rows != [] {
      OneRow(rows[1..]);
      if i :| 0 <= i < |rows[1..]| && OnlyAt(rows[1..], i) {
        assert rows[0].id != Number(1) ==> OnlyAt(rows, i + 1);
      }
      if i :| 0 <= i < |rows| && OnlyAt(rows, i) {
        if i > 0 {
          assert OnlyAt(rows[1..], i - 1);
        } else {
          assert forall j :: 0 <= j < |rows[1..]| ==> rows[1..][j] == rows[j + 1];
        }
      }
      if rows[0].id == Number(1) && SettingsRows(rows[1..]) == [] {
        assert OnlyAt(rows, 0);
      }
    }
  }

  /** A stored text is opened exactly if it is canonical Base64 with a nonce and a whole tag that fit the key. */
  lemma {:induction false} DecryptsExactly(cipher: Cipher, ciphertext: seq<Byte>, nonce: Cell, tag: Cell)
    ensures Decrypted(cipher, Payload(Text(Encode(ciphertext)), nonce, tag)) ==
      if nonce.Blob? && tag.Blob? && |tag.bytes| == 16 then cipher.open(ciphertext, nonce.bytes, tag.bytes) else None
    ensures forall value: Cell :: !value.Text? ==> Decrypted(cipher, Payload(value, nonce, tag)) == None
    ensures forall text :: !IsCanonical(text) ==> Decrypted(cipher, Payload(Text(text), nonce, tag)) == None
  {
    DecodeEncode(ciphertext);
    hide Encode, Decode, Shape;
  }
}
