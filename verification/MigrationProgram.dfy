/** Each migration step, and the loop that applies them in order. */
module MigrationProgram {
  import opened Wrappers
  import opened Vault
  import opened MigrationSteps
  import opened Migrations

  /** The database is consistent and at least `n` more nonces can be drawn. */
  ghost predicate Working(db: NamespaceDatabase, service: EncryptionService, n: nat)
    reads db, service
  {
    KeyedTables(db.ns) && service.Valid() && |service.draws| >= n
  }

  ghost predicate Safe(db: NamespaceDatabase, service: EncryptionService)
    reads db, service
  {
    Secure(db.ns, db.owner, service.draws)
  }

  lemma {:induction false} SettingsAreKeyed(ns: Namespace, f: Field)
    requires f in CLIENT_FIELDS && HasField(ns.main, f)
    ensures !InFiles(f) && TableOf(f) == AppSettings && |Payloads(ns, f)| == |Ids(ns.main, AppSettings)|
  {
  }

  lemma {:induction false} ClientSealed(cipher: Cipher, a: Namespace, b: Namespace, f: Field, k: nat, text: string)
    requires f in CLIENT_FIELDS && HasField(a.main, f) && k < |Ids(a.main, AppSettings)| == |Payloads(a, f)|
    requires Ids(a.main, AppSettings)[k] == Number(1) && text != ""
    requires Payloads(a, f)[k].value == Text(text) && Payloads(a, f)[k].nonce == Null
    requires SealedInto(cipher, a, b, f, k, text)
    ensures OnlyFields(a, b, {f}) && ClientsDone(cipher, k, Payloads(a, f), Payloads(b, f))
  {
    hide Payloads, OnlyFields;
  }

  method RewriteClientState(db: NamespaceDatabase, service: EncryptionService, f: Field)
    returns (r: Result<nat, MigrationError>)
    requires f in CLIENT_FIELDS && HasField(db.ns.main, f) && Working(db, service, 1)
    modifies db, service
    ensures Working(db, service, 0) && |service.draws| >= |old(service.draws)| - 1
    ensures old(Safe(db, service)) ==> Safe(db, service)
    ensures var k := old(SettingsAt(Ids(db.ns.main, AppSettings)));
            && (r.Ok? <==>
                 k.Some? && k.value < |old(Payloads(db.ns, f))| &&
                 ClientReady(service.tools.cipher, old(Payloads(db.ns, f))[k.value]))
            && (r.Ok? ==> OnlyFields(old(db.ns), db.ns, {f})
                          && ClientsDone(service.tools.cipher, k.value, old(Payloads(db.ns, f)), Payloads(db.ns, f)))
  {
    hide Secure, KeyedTables, Payloads, SealedInto, Ids, OnlyFields, PlainText, Decrypted, HasField, CipherOk, JsonOk;
    SettingsAreKeyed(db.ns, f);
    SameFields(db.ns, {f});
    var k := SettingsAt(Ids(db.ns.main, AppSettings));
    if k.None? { return Err(NoSettingsRow); }
    var p := Payloads(db.ns, f)[k.value];
    if (p.nonce == Null) != (p.tag == Null) { return Err(IncompleteMetadata); }
    if p.value == Null || p.value == Text("") {
      if p.nonce != Null { return Err(MetadataWithoutPayload); }
      return Ok(0);
    }
    if !p.value.Text? { return Err(NotText); }
    if p.nonce != Null {
      if Decrypted(service.tools.cipher, p).None? { return Err(Undecryptable); }
      return Ok(0);
    }
    db.SealInto(service, f, k.value, p.value.text);
    ClientSealed(service.tools.cipher, old(db.ns), db.ns, f, k.value, p.value.text);
    return Ok(1);
  }

  lemma {:induction false} SameFields(ns: Namespace, fields: set<Field>)
    ensures OnlyFields(ns, ns, fields)
  {
  }

  // ---------- 0→1: client state ----------

  const CLIENTS := {ClientPreferences, PaletteUsage, TagPrefixes}

  /** The first `n` client-state fields are done. */
  ghost predicate ClientsSoFar(cipher: Cipher, a: Namespace, b: Namespace, n: nat) {
    && n <= 3 && OnlyFields(a, b, CLIENTS)
    && (n > 0 ==> SettingsAt(Ids(a.main, AppSettings)).Some?)
    && (forall i :: 0 <= i < n ==>
          ClientReady(cipher, ReadAt(a, CLIENT_FIELDS[i]))
          && ClientsDone(cipher, SettingsAt(Ids(a.main, AppSettings)).value, Payloads(a, CLIENT_FIELDS[i]),
               Payloads(b, CLIENT_FIELDS[i])))
    && forall i :: n <= i < 3 ==> Payloads(b, CLIENT_FIELDS[i]) == Payloads(a, CLIENT_FIELDS[i])
  }

  /** The payload of a client-state field in the settings row. */
  ghost function ReadAt(ns: Namespace, f: Field): Payload {
    var k := SettingsAt(Ids(ns.main, AppSettings));
    if k.Some? && k.value < |Payloads(ns, f)| then Payloads(ns, f)[k.value] else Payload(Null, Null, Null)
  }

  lemma {:induction false} NextClient(cipher: Cipher, a: Namespace, b: Namespace, c: Namespace, i: nat)
    requires i < 3 && ClientsSoFar(cipher, a, b, i) && SettingsAt(Ids(a.main, AppSettings)).Some?
    requires SettingsAt(Ids(b.main, AppSettings)) == SettingsAt(Ids(a.main, AppSettings))
    requires OnlyFields(b, c, {CLIENT_FIELDS[i]})
    requires var k := SettingsAt(Ids(a.main, AppSettings)).value;
             && ClientReady(cipher, ReadAt(a, CLIENT_FIELDS[i]))
             && ClientsDone(cipher, k, Payloads(b, CLIENT_FIELDS[i]), Payloads(c, CLIENT_FIELDS[i]))
    ensures ClientsSoFar(cipher, a, c, i + 1)
  {
    hide ClientReady, ClientsDone, Payloads, SettingsAt, ReadAt, SameShape;
    var f := CLIENT_FIELDS[i];
    assert f in CLIENTS && forall j :: 0 <= j < 3 && j != i ==> CLIENT_FIELDS[j] != f;
    assert OnlyFields(b, c, CLIENTS);
    OnlyFieldsTrans(a, b, c, CLIENTS);
  }

  method Migrate0To1(db: NamespaceDatabase, service: EncryptionService) returns (r: Result<nat, MigrationError>)
    requires Working(db, service, 3)
    modifies db, service
    ensures Working(db, service, 0) && |service.draws| >= |old(service.draws)| - 3
    ensures old(Safe(db, service)) ==> Safe(db, service)
    ensures r.Ok? <==> StepReady(0, service.tools, old(db.ns))
    ensures r.Ok? ==> StepDone(0, service.tools, old(db.ns), db.ns)
  {
    hide Secure, KeyedTables, Payloads, Ids, OnlyFields, HasField, CipherOk, JsonOk, ClientReady, ClientsDone,
      ClientsSoFar, ReadAt;
    ClientsListed(service.tools, db.ns);
    if !HasField(db.ns.main, ClientPreferences) || !HasField(db.ns.main, PaletteUsage) ||
      !HasField(db.ns.main, TagPrefixes) {
      return Err(MissingColumns);
    }
    if !db.ns.encrypted { return Ok(0); }
    if !service.tools.hasDek { return Err(NoDek); }
    ghost var a := db.ns;
    var count := 0;
    NoClientYet(service.tools.cipher, a);
    for i := 0 to 3
      invariant Working(db, service, 3 - i) && |service.draws| >= |old(service.draws)| - i
      invariant old(Safe(db, service)) ==> Safe(db, service)
      invariant ClientsSoFar(service.tools.cipher, a, db.ns, i)
    {
      ClientLeft(service.tools.cipher, a, db.ns, i);
      ghost var b := db.ns;
      var r' := RewriteClientState(db, service, CLIENT_FIELDS[i]);
      if r'.Err? { return r'; }
      NextClient(service.tools.cipher, a, b, db.ns, i);
      count := count + r'.value;
    }
    ClientsAllDone(service.tools, a, db.ns);
    return Ok(count);
  }

  lemma {:induction false} NoClientYet(cipher: Cipher, a: Namespace)
    ensures ClientsSoFar(cipher, a, a, 0)
  {
  }

  /** Field `i` is still as it was, and is where the source looks for it. */
  lemma {:induction false} ClientLeft(cipher: Cipher, a: Namespace, b: Namespace, i: nat)
    requires i < 3 && ClientsSoFar(cipher, a, b, i) && HasField(a.main, CLIENT_FIELDS[i])
    ensures CLIENT_FIELDS[i] in CLIENT_FIELDS && HasField(b.main, CLIENT_FIELDS[i])
    ensures Payloads(b, CLIENT_FIELDS[i]) == Payloads(a, CLIENT_FIELDS[i])
    ensures SettingsAt(Ids(b.main, AppSettings)) == SettingsAt(Ids(a.main, AppSettings))
    ensures SettingsAt(Ids(a.main, AppSettings)).Some? ==>
      var k := SettingsAt(Ids(a.main, AppSettings)).value;
      k < |Payloads(a, CLIENT_FIELDS[i])| && ReadAt(a, CLIENT_FIELDS[i]) == Payloads(a, CLIENT_FIELDS[i])[k]
  {
    HasFieldStays(a, b, CLIENT_FIELDS[i]);
    SettingsAreKeyed(a, CLIENT_FIELDS[i]);
    assert Ids(a.main, AppSettings) == Ids(b.main, AppSettings);
  }

  /** The three fields, spelt out. */
  lemma {:induction false} ClientsListed(tools: Tools, ns: Namespace)
    ensures StepReady(0, tools, ns) <==>
      && HasField(ns.main, ClientPreferences) && HasField(ns.main, PaletteUsage) && HasField(ns.main, TagPrefixes)
      && (ns.encrypted ==>
            && tools.hasDek && SettingsAt(Ids(ns.main, AppSettings)).Some?
            && forall i :: 0 <= i < 3 ==> ClientReady(tools.cipher, ReadAt(ns, CLIENT_FIELDS[i])))
    ensures forall i :: 0 <= i < 3 ==> CLIENT_FIELDS[i] in {ClientPreferences, PaletteUsage, TagPrefixes}
  {
    hide ClientReady, SettingsAt;
    forall f | f in CLIENT_FIELDS && HasField(ns.main, f)
      ensures SettingsAt(Ids(ns.main, AppSettings)).Some? ==>
        var k := SettingsAt(Ids(ns.main, AppSettings)).value;
        k < |Payloads(ns, f)| && ReadAt(ns, f) == Payloads(ns, f)[k]
    {
      SettingsAreKeyed(ns, f);
    }
  }

  lemma {:induction false} ClientsAllDone(tools: Tools, a: Namespace, b: Namespace)
    requires a.encrypted && ClientsSoFar(tools.cipher, a, b, 3)
    ensures StepDone(0, tools, a, b)
    ensures forall i :: 0 <= i < 3 ==> ClientReady(tools.cipher, ReadAt(a, CLIENT_FIELDS[i]))
    ensures SettingsAt(Ids(a.main, AppSettings)).Some?
  {
  }
}
