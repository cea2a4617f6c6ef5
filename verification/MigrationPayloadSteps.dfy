/** The steps that rewrite notes, reminders and preferences. */
module MigrationPayloadSteps {
  import opened Wrappers
  import opened Vault
  import opened RetiredReferences
  import opened MigrationSteps
  import opened Migrations
  import opened MigrationFrames
  import opened MigrationProgram
  import opened MigrationSchemaSteps

  lemma {:induction false} NotesAreKeyed(ns: Namespace, f: Field)
    requires f in {NoteContent, ProposedTags} && HasField(ns.main, f)
    ensures !InFiles(f) && TableOf(f) == Notes && |Payloads(ns, f)| == |Ids(ns.main, Notes)|
    ensures forall i: nat :: i < |Ids(ns.main, Notes)| ==> Updatable(ns, f, i)
  {
  }

  // ---------- 5→6: proposed tags ----------

  ghost predicate ProposedSoFar(cipher: Cipher, a: Namespace, b: Namespace, n: nat) {
    && OnlyFields(a, b, {ProposedTags})
    && var before, after := Payloads(a, ProposedTags), Payloads(b, ProposedTags);
       && n <= |before| == |after| == |Ids(a.main, Notes)|
       && (forall i :: 0 <= i < n ==>
             ValidNoteId(Ids(a.main, Notes)[i]) && ProposedReady(cipher, before[i]) &&
                 ProposedDone(cipher, before[i], after[i]))
       && forall i :: n <= i < |before| ==> after[i] == before[i]
  }

  lemma {:induction false} ProposedSkipped(cipher: Cipher, a: Namespace, b: Namespace, n: nat)
    requires ProposedSoFar(cipher, a, b, n) && n < |Ids(a.main, Notes)| && ValidNoteId(Ids(a.main, Notes)[n])
    requires ProposedReady(cipher, Payloads(a, ProposedTags)[n]) && Payloads(a, ProposedTags)[n].nonce != Null
    ensures ProposedSoFar(cipher, a, b, n + 1)
  {
    hide Payloads, OnlyFields, ProposedReady;
  }

  lemma {:induction false} ProposedSealed(cipher: Cipher, a: Namespace, b: Namespace, c: Namespace, n: nat)
    requires ProposedSoFar(cipher, a, b, n) && n < |Ids(a.main, Notes)| && ValidNoteId(Ids(a.main, Notes)[n])
    requires ProposedReady(cipher, Payloads(a, ProposedTags)[n]) && Payloads(a, ProposedTags)[n].nonce == Null
    requires SealedInto(cipher, b, c, ProposedTags, n, Payloads(a, ProposedTags)[n].value.text)
    ensures ProposedSoFar(cipher, a, c, n + 1)
  {
    hide Payloads, OnlyFields, Decrypted, WellSealed, Ids;
    OnlyFieldsShape(a, b, {ProposedTags}, Notes);
    OnlyFieldsTrans(a, b, c, {ProposedTags});
  }

  method EncryptProposed(db: NamespaceDatabase, service: EncryptionService) returns (r: Result<nat, MigrationError>)
    requires HasField(db.ns.main, ProposedTags) && Working(db, service, |Ids(db.ns.main, Notes)|)
    modifies db, service
    ensures Working(db, service, 0) && |service.draws| >= |old(service.draws)| - |old(Ids(db.ns.main, Notes))|
    ensures old(Safe(db, service)) ==> Safe(db, service)
    ensures r.Ok? <==>
      && (forall id :: id in old(Ids(db.ns.main, Notes)) ==> ValidNoteId(id))
      && forall p :: p in old(Payloads(db.ns, ProposedTags)) ==> ProposedReady(service.tools.cipher, p)
    ensures r.Ok? ==>
      && OnlyFields(old(db.ns), db.ns, {ProposedTags})
      && ProposedAllDone(service.tools.cipher, old(Payloads(db.ns, ProposedTags)), Payloads(db.ns, ProposedTags))
  {
    hide Secure, KeyedTables, Payloads, Ids, OnlyFields, HasField, CipherOk, JsonOk, ProposedSoFar, ProposedDone,
      Decrypted, SealedInto, Updatable;
    var ids, payloads := Ids(db.ns.main, Notes), Payloads(db.ns, ProposedTags);
    ghost var a := db.ns;
    var count := 0;
    NotesAreKeyed(a, ProposedTags);
    NoProposedYet(service.tools.cipher, a);
    for i := 0 to |ids|
      invariant Working(db, service, |ids| - i) && |service.draws| >= |old(service.draws)| - i
      invariant old(Safe(db, service)) ==> Safe(db, service)
      invariant ProposedSoFar(service.tools.cipher, a, db.ns, i)
    {
      var p := payloads[i];
      assert p in payloads && ids[i] in ids;
      if !ValidNoteId(ids[i]) { return Err(InvalidNoteId); }
      if !p.value.Text? { return Err(NotText); }
      if (p.nonce == Null) != (p.tag == Null) { return Err(IncompleteMetadata); }
      if p.nonce != Null {
        if Decrypted(service.tools.cipher, p).None? { return Err(Undecryptable); }
        ProposedSkipped(service.tools.cipher, a, db.ns, i);
      } else {
        ghost var b := db.ns;
        ProposedShape(service.tools.cipher, a, b, i);
        StillUpdatable(a, b, ProposedTags, i);
        db.SealInto(service, ProposedTags, i, p.value.text);
        ProposedSealed(service.tools.cipher, a, b, db.ns, i);
        count := count + 1;
      }
    }
    ProposedFinished(service.tools.cipher, a, db.ns);
    return Ok(count);
  }

  lemma {:induction false} OnlyFieldsShape(a: Namespace, b: Namespace, fields: set<Field>, t: Table)
    requires OnlyFields(a, b, fields)
    ensures SameShape(a, b) && Ids(b.main, t) == Ids(a.main, t)
  {
  }

  lemma {:induction false} ProposedShape(cipher: Cipher, a: Namespace, b: Namespace, n: nat)
    requires ProposedSoFar(cipher, a, b, n)
    ensures SameShape(a, b)
  {
  }

  lemma {:induction false} StillUpdatable(a: Namespace, b: Namespace, f: Field, i: nat)
    requires SameShape(a, b) && Updatable(a, f, i)
    ensures Updatable(b, f, i)
  {
    HasFieldStays(a, b, f);
  }

  lemma {:induction false} NoProposedYet(cipher: Cipher, a: Namespace)
    requires HasField(a.main, ProposedTags)
    ensures ProposedSoFar(cipher, a, a, 0)
  {
    NotesAreKeyed(a, ProposedTags);
  }

  lemma {:induction false} ProposedFinished(cipher: Cipher, a: Namespace, b: Namespace)
    requires ProposedSoFar(cipher, a, b, |Ids(a.main, Notes)|)
    ensures OnlyFields(a, b, {ProposedTags})
    ensures ProposedAllDone(cipher, Payloads(a, ProposedTags), Payloads(b, ProposedTags))
    ensures forall id :: id in Ids(a.main, Notes) ==> ValidNoteId(id)
    ensures forall p :: p in Payloads(a, ProposedTags) ==> ProposedReady(cipher, p)
  {
    hide Payloads, Ids, OnlyFields, ProposedReady, ProposedDone, ValidNoteId;
  }

  method Migrate5To6(db: NamespaceDatabase, service: EncryptionService) returns (r: Result<nat, MigrationError>)
    requires Working(db, service, |Ids(db.ns.main, Notes)|)
    modifies db, service
    ensures Working(db, service, 0) && |service.draws| >= |old(service.draws)| - |old(Ids(db.ns.main, Notes))|
    ensures old(Safe(db, service)) ==> Safe(db, service)
    ensures r.Ok? <==> StepReady(5, service.tools, old(db.ns))
    ensures r.Ok? ==> StepDone(5, service.tools, old(db.ns), db.ns)
  {
    hide Secure, KeyedTables, Payloads, Ids, OnlyFields, HasField, CipherOk, JsonOk, CanAdd, Added, ProposedReady,
      ProposedAllDone, ValidNoteId;
    ghost var a := db.ns;
    var problem := AddColumns(db, service, ProposedTags, Payload(Text(""), Null, Null));
    if problem.Some? { return Err(problem.value); }
    ProposedAfterAdding(service.tools.cipher, a);
    if !db.ns.encrypted { return Ok(0); }
    if !service.tools.hasDek { return Err(NoDek); }
    r := EncryptProposed(db, service);
  }

  /** The default value can always be encrypted, so adding the columns changes no verdict. */
  lemma {:induction false} ProposedAfterAdding(cipher: Cipher, a: Namespace)
    requires CanAdd(a, ProposedTags)
    ensures var added := Added(a, ProposedTags, Payload(Text(""), Null, Null));
            && added.encrypted == a.encrypted && HasField(added.main, ProposedTags)
            && Ids(added.main, Notes) == Ids(a.main, Notes)
            && ((forall p :: p in Payloads(added, ProposedTags) ==> ProposedReady(cipher, p))
                <==> forall p :: p in Payloads(a, ProposedTags) ==> ProposedReady(cipher, p))
  {
    var default := Payload(Text(""), Null, Null);
    AddedIds(a, ProposedTags, default, Notes);
    if !HasField(a.main, ProposedTags) {
      GroupAdded(a, ProposedTags, default, ProposedTags);
      assert Payloads(a, ProposedTags) == [];
      assert ProposedReady(cipher, default);
    }
  }

  // ---------- 7→8: references to retired documents ----------

  ghost predicate ContentsSoFar(tools: Tools, documentIds: set<Cell>, a: Namespace, b: Namespace, n: nat) {
    && OnlyFields(a, b, {NoteContent})
    && var before, after := Payloads(a, NoteContent), Payloads(b, NoteContent);
       && n <= |before| == |after| == |Ids(a.main, Notes)|
       && (forall i :: 0 <= i < n ==>
             ContentReady(tools, before[i])
             && ContentDone(tools.cipher, a.encrypted, documentIds, Ids(a.main, Notes)[i], before[i], after[i]))
       && forall i :: n <= i < |before| ==> after[i] == before[i]
  }

  lemma {:induction false} ContentsShape(tools: Tools, documentIds: set<Cell>, a: Namespace, b: Namespace, n: nat)
    requires ContentsSoFar(tools, documentIds, a, b, n)
    ensures SameShape(a, b) && OnlyFields(a, b, {NoteContent}) && Ids(b.main, Notes) == Ids(a.main, Notes)
    ensures n < |Ids(a.main, Notes)| ==>
        n < |Payloads(b, NoteContent)| && Payloads(b, NoteContent)[n] == Payloads(a, NoteContent)[n]
  {
  }

  /** One more row is as it should be. */
  lemma {:induction false} NextContent(tools: Tools, documentIds: set<Cell>, a: Namespace, b: Namespace, c: Namespace,
        n: nat)
    requires ContentsSoFar(tools, documentIds, a, b, n) && n < |Ids(a.main, Notes)|
    requires b == c || (OnlyFields(b, c, {NoteContent}) && n < |Payloads(c, NoteContent)|
                        && Payloads(c, NoteContent) == Payloads(b, NoteContent)[n := Payloads(c, NoteContent)[n]])
    requires ContentReady(tools, Payloads(a, NoteContent)[n])
    requires ContentDone(tools.cipher, a.encrypted, documentIds, Ids(a.main, Notes)[n], Payloads(a, NoteContent)[n],
        Payloads(c, NoteContent)[n])
    ensures ContentsSoFar(tools, documentIds, a, c, n + 1)
  {
    hide Payloads, OnlyFields, ContentReady, ContentDone, Ids;
    if b != c {
      OnlyFieldsTrans(a, b, c, {NoteContent});
    }
  }

  /** The text behind a payload, or why it cannot be read. */
  method ReadText(service: EncryptionService, p: Payload) returns (r: Result<string, MigrationError>)
    ensures r.Ok? <==>
        Complete(p) && (p.nonce != Null ==> service.tools.hasDek) && PlainText(service.tools.cipher, p).Some?
    ensures r.Ok? ==> r.value == PlainText(service.tools.cipher, p).value
  {
    hide Decrypted;
    if (p.nonce == Null) != (p.tag == Null) { return Err(IncompleteMetadata); }
    if p.nonce != Null {
      if !service.tools.hasDek { return Err(NoDek); }
      var text := Decrypted(service.tools.cipher, p);
      return if text.Some? then Ok(text.value) else Err(Undecryptable);
    }
    return if p.value.Text? then Ok(p.value.text) else Err(NotText);
  }

  /** Store a new text in row `i` the way the step stores it: encrypted or plain. */
  method StoreText(db: NamespaceDatabase, service: EncryptionService, f: Field, i: nat, text: string, seal: bool)
    requires KeyedTables(db.ns) && Updatable(db.ns, f, i) && service.Valid() && (seal ==> service.draws != [])
    modifies db, service
    ensures KeyedTables(db.ns) && service.Valid() && |service.draws| == |old(service.draws)| - (if seal then 1 else 0)
    ensures old(Safe(db, service)) ==> Safe(db, service)
    ensures Stored(service.tools.cipher, old(db.ns), db.ns, f, i, text, seal)
  {
    hide Secure, KeyedTables, Payloads, Ids, OnlyFields, WellSealed, Decrypted, Updatable, CipherOk, JsonOk;
    if seal {
      db.SealInto(service, f, i, text);
    } else {
      db.PlainInto(service, f, i, text);
    }
  }

  ghost predicate Stored(cipher: Cipher, a: Namespace, b: Namespace, f: Field, i: nat, text: string, seal: bool) {
    i < |Ids(a.main, TableOf(f))| &&
    if Ids(a.main, TableOf(f))[i] == Null then b == a
    else
      && OnlyFields(a, b, {f}) && i < |Payloads(a, f)| == |Payloads(b, f)|
      && Payloads(b, f) == Payloads(a, f)[i := Payloads(b, f)[i]]
      && PlainText(cipher, Payloads(b, f)[i]) == Some(text)
      && if seal then WellSealed(Payloads(b, f)[i])
           else Payloads(b, f)[i].nonce == Null && Payloads(b, f)[i].tag == Null
  }

  lemma {:induction false} ContentStored(tools: Tools, documentIds: set<Cell>, a: Namespace, b: Namespace, c: Namespace,
        n: nat)
    requires ContentsSoFar(tools, documentIds, a, b, n) && n < |Ids(a.main, Notes)|
    requires ContentReady(tools, Payloads(a, NoteContent)[n])
    requires var text := PlainText(tools.cipher, Payloads(a, NoteContent)[n]).value;
             && Cleaned(text, documentIds) != text
             && Stored(tools.cipher, b, c, NoteContent, n, Cleaned(text, documentIds), a.encrypted)
    ensures ContentsSoFar(tools, documentIds, a, c, n + 1)
  {
    hide Payloads, OnlyFields, Ids, Cleaned, PlainText, WellSealed, ContentsSoFar;
    ContentsShape(tools, documentIds, a, b, n);
    NextContent(tools, documentIds, a, b, c, n);
  }

  method RemoveReferences(db: NamespaceDatabase, service: EncryptionService, documentIds: set<Cell>)
    returns (r: Result<nat, MigrationError>)
    requires HasField(db.ns.main, NoteContent) && Working(db, service, |Ids(db.ns.main, Notes)|)
    modifies db, service
    ensures Working(db, service, 0) && |service.draws| >= |old(service.draws)| - |old(Ids(db.ns.main, Notes))|
    ensures old(Safe(db, service)) ==> Safe(db, service)
    ensures r.Ok? <==>
      && (old(db.ns.encrypted) ==> service.tools.hasDek)
      && forall p :: p in old(Payloads(db.ns, NoteContent)) ==> ContentReady(service.tools, p)
    ensures r.Ok? ==>
      && OnlyFields(old(db.ns), db.ns, {NoteContent})
      && ContentsDone(service.tools.cipher, old(db.ns.encrypted), documentIds, old(Ids(db.ns.main, Notes)),
                      old(Payloads(db.ns, NoteContent)), Payloads(db.ns, NoteContent))
  {
    hide Secure, KeyedTables, Payloads, Ids, OnlyFields, HasField, CipherOk, JsonOk, ContentsSoFar, ContentDone,
      Decrypted, Stored, Updatable, Cleaned, PlainText;
    if db.ns.encrypted && !service.tools.hasDek { return Err(NoDek); }
    var ids, payloads := Ids(db.ns.main, Notes), Payloads(db.ns, NoteContent);
    var seal := db.ns.encrypted;
    ghost var a := db.ns;
    ghost var tools := service.tools;
    var count := 0;
    NotesAreKeyed(a, NoteContent);
    NoContentYet(tools, documentIds, a);
    for i := 0 to |ids|
      invariant Working(db, service, |ids| - i) && |service.draws| >= |old(service.draws)| - i
      invariant old(Safe(db, service)) ==> Safe(db, service)
      invariant ContentsSoFar(tools, documentIds, a, db.ns, i)
    {
      var text := ReadText(service, payloads[i]);
      assert payloads[i] in payloads;
      if text.Err? { return Err(text.error); }
      var cleaned := Cleaned(text.value, documentIds);
      ContentsShape(tools, documentIds, a, db.ns, i);
      if cleaned == text.value {
        ContentUnchanged(tools, documentIds, a, db.ns, i);
      } else {
        ghost var b := db.ns;
        StillUpdatable(a, b, NoteContent, i);
        StoreText(db, service, NoteContent, i, cleaned, seal);
        ContentStored(tools, documentIds, a, b, db.ns, i);
        count := count + 1;
      }
    }
    ContentsFinished(tools, documentIds, a, db.ns);
    return Ok(count);
  }

  lemma {:induction false} NoContentYet(tools: Tools, documentIds: set<Cell>, a: Namespace)
    requires HasField(a.main, NoteContent)
    ensures ContentsSoFar(tools, documentIds, a, a, 0)
  {
    NotesAreKeyed(a, NoteContent);
  }

  lemma {:induction false} ContentUnchanged(tools: Tools, documentIds: set<Cell>, a: Namespace, b: Namespace, n: nat)
    requires ContentsSoFar(tools, documentIds, a, b, n) && n < |Ids(a.main, Notes)|
    requires ContentReady(tools, Payloads(a, NoteContent)[n])
    requires var text := PlainText(tools.cipher, Payloads(a, NoteContent)[n]).value; Cleaned(text, documentIds) == text
    ensures ContentsSoFar(tools, documentIds, a, b, n + 1)
  {
    hide Payloads, OnlyFields, Ids, Cleaned, PlainText, ContentsSoFar;
    ContentsShape(tools, documentIds, a, b, n);
    NextContent(tools, documentIds, a, b, b, n);
  }

  lemma {:induction false} ContentsFinished(tools: Tools, documentIds: set<Cell>, a: Namespace, b: Namespace)
    requires ContentsSoFar(tools, documentIds, a, b, |Ids(a.main, Notes)|)
    ensures OnlyFields(a, b, {NoteContent})
    ensures ContentsDone(tools.cipher, a.encrypted, documentIds, Ids(a.main, Notes), Payloads(a, NoteContent),
        Payloads(b, NoteContent))
    ensures forall p :: p in Payloads(a, NoteContent) ==> ContentReady(tools, p)
  {
    hide Payloads, Ids, OnlyFields, ContentReady, ContentDone;
  }

  method Migrate7To8(db: NamespaceDatabase, service: EncryptionService) returns (r: Result<nat, MigrationError>)
    requires Working(db, service, |Ids(db.ns.main, Notes)|)
    modifies db, service
    ensures Working(db, service, 0) && |service.draws| >= |old(service.draws)| - |old(Ids(db.ns.main, Notes))|
    ensures old(Safe(db, service)) ==> Safe(db, service)
    ensures r.Ok? <==> StepReady(7, service.tools, old(db.ns))
    ensures r.Ok? ==> StepDone(7, service.tools, old(db.ns), db.ns)
  {
    hide Secure, KeyedTables, Payloads, Ids, OnlyFields, HasField, CipherOk, JsonOk, ContentReady, ContentsDone,
      NoNewNonces;
    ghost var a := db.ns;
    if Documents !in db.ns.main.tables { return Err(NoSuchTable); }
    var documentIds := DocumentIds(db.ns);
    var count := 0;
    if documentIds != {} {
      if !HasField(db.ns.main, NoteContent) { return Err(NoSuchTable); }
      var rewritten := RemoveReferences(db, service, documentIds);
      if rewritten.Err? { return rewritten; }
      count := rewritten.value;
    }
    ghost var cleaned := db.ns;
    DroppedTable(cleaned, Documents);
    Install(db, service, WithoutTable(db.ns, Documents));
    assert DocumentsRetired(service.tools, a, cleaned, db.ns);
    return Ok(count);
  }
}
