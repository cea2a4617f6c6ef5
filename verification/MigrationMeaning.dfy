/** What the migrations keep of the stored texts, and where the audit promises too much. */
module MigrationMeaning {
  import opened Wrappers
  import opened Base64
  import opened Vault
  import opened RetiredReferences
  import opened EncryptionAudit
  import opened MigrationSteps
  import opened MigrationFrames
  import opened MigrationTheorems

  ghost predicate SameTexts(cipher: Cipher, before: seq<Payload>, after: seq<Payload>) {
    |before| == |after| && forall i :: 0 <= i < |before| ==> PlainText(cipher, after[i]) == PlainText(cipher, before[i])
  }

  /** The steps 0→1 and 5→6 encrypt, and leave the text behind every payload as it was. */
  lemma {:induction false} EncryptingKeepsTexts(v: int, tools: Tools, a: Namespace, b: Namespace, f: Field)
    requires v in {0, 5} && a.encrypted && StepDone(v, tools, a, b)
    ensures v == 0 || f != ProposedTags || HasField(a.main, ProposedTags) ==>
      SameTexts(tools.cipher, Payloads(a, f), Payloads(b, f))
    ensures v == 5 && !HasField(a.main, ProposedTags) ==>
      forall p :: p in Payloads(b, ProposedTags) ==> PlainText(tools.cipher, p) == Some("")
  {
    hide Payloads, PlainText, CanAdd, Added, Group, SameShape, HasField;
    if v == 0 {
      if f in CLIENT_FIELDS {
        ClientTexts(tools.cipher, SettingsAt(Ids(a.main, AppSettings)).value, Payloads(a, f), Payloads(b, f));
      } else {
        assert Payloads(b, f) == Payloads(a, f);
      }
    } else {
      var default := Payload(Text(""), Null, Null);
      var added := Added(a, ProposedTags, default);
      AddedFrame(a, ProposedTags, default);
      ProposedTexts(tools.cipher, Payloads(added, ProposedTags), Payloads(b, ProposedTags));
      if HasField(a.main, ProposedTags) {
        AlreadyAdded(a, default);
      } else {
        AddedDefaults(a, default);
        DefaultText(tools.cipher, Payloads(added, ProposedTags), Payloads(b, ProposedTags));
      }
      assert f != ProposedTags ==> Payloads(b, f) == Payloads(added, f);
    }
  }

  lemma {:induction false} AlreadyAdded(a: Namespace, default: Payload)
    requires CanAdd(a, ProposedTags) && HasField(a.main, ProposedTags)
    ensures Added(a, ProposedTags, default) == a
  {
  }

  lemma {:induction false} AddedDefaults(a: Namespace, default: Payload)
    requires CanAdd(a, ProposedTags) && !HasField(a.main, ProposedTags)
    ensures forall p :: p in Payloads(Added(a, ProposedTags, default), ProposedTags) ==> p == default
  {
    GroupAdded(a, ProposedTags, default, ProposedTags);
  }

  lemma {:induction false} ClientTexts(cipher: Cipher, k: nat, before: seq<Payload>, after: seq<Payload>)
    requires ClientsDone(cipher, k, before, after)
    ensures SameTexts(cipher, before, after)
  {
    hide PlainText;
  }

  lemma {:induction false} ProposedTexts(cipher: Cipher, before: seq<Payload>, after: seq<Payload>)
    requires ProposedAllDone(cipher, before, after)
    ensures SameTexts(cipher, before, after)
  {
    hide PlainText;
    forall i | 0 <= i < |before|
      ensures PlainText(cipher, after[i]) == PlainText(cipher, before[i])
    {
      assert ProposedDone(cipher, before[i], after[i]);
    }
  }

  lemma {:induction false} DefaultText(cipher: Cipher, before: seq<Payload>, after: seq<Payload>)
    requires SameTexts(cipher, before, after) && forall p :: p in before ==> p == Payload(Text(""), Null, Null)
    ensures forall p :: p in after ==> PlainText(cipher, p) == Some("")
  {
    forall p | p in after
      ensures PlainText(cipher, p) == Some("")
    {
      var i :| 0 <= i < |after| && after[i] == p;
      assert before[i] in before;
    }
  }

  lemma {:induction false} OnlyDocumentsDropped(ns: Namespace)
    ensures forall f :: f != Document ==> Payloads(WithoutTable(ns, Documents), f) == Payloads(ns, f)
  {
    hide Payloads;
    forall f
      ensures f != Document ==> Payloads(WithoutTable(ns, Documents), f) == Payloads(ns, f)
    {
      TableDropped(ns, Documents, f);
    }
  }

  /** Step 7→8 takes the placements of the retired documents out of the notes, and nothing else. */
  lemma {:induction false} RetiringRemovesPlacements(tools: Tools, a: Namespace, b: Namespace, i: nat)
    requires StepDone(7, tools, a, b) && DocumentIds(a) != {} && i < |Payloads(a, NoteContent)|
    requires Ids(a.main, Notes)[i] != Null
    ensures i < |Payloads(b, NoteContent)| && PlainText(tools.cipher, Payloads(a, NoteContent)[i]).Some?
    ensures var text := PlainText(tools.cipher, Payloads(a, NoteContent)[i]).value;
            PlainText(tools.cipher, Payloads(b, NoteContent)[i]) == Some(Joined(Kept(Pieces(text), DocumentIds(a))))
    ensures forall f :: f !in {NoteContent, Document} ==> Payloads(b, f) == Payloads(a, f)
  {
    hide Payloads, Ids, PlainText, Cleaned, SameShape, DocumentIds, WellSealed, Joined, Kept, Pieces, WithoutTable,
      IsRetired, CutFromTheLeft;
    var cleaned :| DocumentsRetired(tools, a, cleaned, b);
    OnlyDocumentsDropped(cleaned);
    assert ContentDone(tools.cipher, a.encrypted, DocumentIds(a), Ids(a.main, Notes)[i], Payloads(a, NoteContent)[i],
        Payloads(cleaned, NoteContent)[i]);
    RemovesExactlyRetired(PlainText(tools.cipher, Payloads(a, NoteContent)[i]).value, DocumentIds(a));
  }

  // ---------- where the audit lets through what a step refuses ----------

  function Nulls(): Payload {
    Payload(Null, Null, Null)
  }

  function SettingsRow(p: Payload): Row {
    Row(Number(1), map[
      BackupSettings := Nulls(), ClientPreferences := p, PaletteUsage := Nulls(), TagPrefixes := Nulls(),
      OpenAiKey := Nulls()])
  }

  /** A version 0 database with nothing in it but a settings row, whose client preferences are `p`. */
  function Bare(p: Payload): Namespace {
    Namespace(0, true, 0, Database(true, map[
      Notes := Relation(NOTES_COLUMNS, []), AppSettings := Relation(APP_SETTINGS_COLUMNS, [SettingsRow(p)]),
      OntologyRules := Relation(RULES_COLUMNS, []), TabState := Relation(TAB_STATE_COLUMNS, []),
      LinkTitles := Relation(LINK_TITLES_COLUMNS, []), Reminders := Relation(REMINDERS_COLUMNS, []),
      SearchHistory := Relation(OPAQUE_SEARCH_COLUMNS, []), LaunchProfile :=
          Relation(LAUNCH_PROFILE_COLUMNS, [])]), None)
  }

  lemma {:induction false} BareTable(p: Payload, t: Table)
    ensures Admits(0, t, ColumnsOf(Bare(p).main, t))
    ensures RowsOf(Bare(p).main, t) == if t == AppSettings then [SettingsRow(p)] else []
    ensures ColumnsOf(Bare(p).main, AppSettings) == Some(APP_SETTINGS_COLUMNS)
  {
    hide NOTES_COLUMNS, APP_SETTINGS_COLUMNS, OPAQUE_SEARCH_COLUMNS, LEGACY_SEARCH_COLUMNS, RULES_COLUMNS,
      TAB_STATE_COLUMNS,
      LINK_TITLES_COLUMNS, REMINDERS_COLUMNS, LAUNCH_PROFILE_COLUMNS, CONTENT_MIGRATIONS_COLUMNS, DOCUMENTS_COLUMNS,
          Group, SettingsRow;
  }

  lemma {:induction false} BareSchema(p: Payload)
    ensures SchemasOk(Bare(p)) && OneSettingsRow(Bare(p))
  {
    BareFacts(p);
    hide Bare, Admits;
    forall t
      ensures Admits(0, t, ColumnsOf(Bare(p).main, t))
    {
      BareTable(p, t);
    }
    BareTable(p, AppSettings);
  }

  lemma {:induction false} BarePayloads(p: Payload, f: Field)
    ensures f == ClientPreferences ==> Payloads(Bare(p), f) == [p]
    ensures f in {BackupSettings, PaletteUsage, TagPrefixes, OpenAiKey} ==> Payloads(Bare(p), f) == [Nulls()]
    ensures TableOf(f) != AppSettings ==> Payloads(Bare(p), f) == []
  {
    BareFacts(p);
    BareTable(p, TableOf(f));
    SettingsGroups(f);
    hide Bare, APP_SETTINGS_COLUMNS, Group, Admits;
    if TableOf(f) == AppSettings {
      assert HasField(Bare(p).main, f);
      assert Cells(Bare(p).main, f)[0] == PayloadOf(SettingsRow(p), f);
    }
  }

  lemma {:induction false} SettingsGroups(f: Field)
    ensures TableOf(f) == AppSettings ==> Group(f) <= APP_SETTINGS_COLUMNS
  {
    hide Names;
  }

  /** The audit accepts an empty ciphertext in a client-state column; step 0→1 does not. */
  lemma {:induction false} EmptyCiphertextIsStuck(tools: Tools, nonce: seq<Byte>, tag: seq<Byte>)
    requires |nonce| == GCM_NONCE_BYTES && |tag| == GCM_TAG_BYTES
    ensures var ns := Bare(Payload(Text(""), Blob(nonce), Blob(tag))); Admitted(ns) && !Ready(tools, ns)
  {
    var p := Payload(Text(""), Blob(nonce), Blob(tag));
    BareIsAdmitted(p, map[nonce := (ClientPreferences, 0)]);
    BarePayloads(p, ClientPreferences);
    assert p in Payloads(Bare(p), ClientPreferences) && !ClientReady(tools.cipher, p);
  }

  /** The audit defers a client-state value that is not text; step 0→1 refuses it. */
  lemma {:induction false} DeferredNumberIsStuck(tools: Tools, number: int)
    ensures var ns := Bare(Payload(Number(number), Null, Null)); Admitted(ns) && !Ready(tools, ns)
  {
    var p := Payload(Number(number), Null, Null);
    BareIsAdmitted(p, map[]);
    BarePayloads(p, ClientPreferences);
    assert p in Payloads(Bare(p), ClientPreferences) && !ClientReady(tools.cipher, p);
  }

  lemma {:induction false} BareIsAdmitted(p: Payload, owner: Owner)
    requires Passes(ClientPreferences, p, DeferredFields(0)) && OwnsAt(owner, p, ClientPreferences, 0)
    ensures Admitted(Bare(p))
  {
    hide SchemasOk, Payloads, Bare;
    BareFacts(p);
    BareSchema(p);
    forall f
      ensures FieldPasses(Bare(p), f, Deferrable(0, f))
      ensures forall i: nat :: i < |Payloads(Bare(p), f)| ==> OwnsAt(owner, Payloads(Bare(p), f)[i], f, i)
    {
      BarePayloads(p, f);
    }
    assert Owned(Bare(p), owner);
  }

  lemma {:induction false} BareFacts(p: Payload)
    ensures Bare(p).version == 0 && Bare(p).vaultFaults == 0 && Bare(p).main.intact && Bare(p).files == None
  {
  }
}
