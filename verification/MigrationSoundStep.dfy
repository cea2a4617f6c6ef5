/** Step 8→9: sound settings leave the reminders, the preferences and the command usage. */
module MigrationSoundStep {
  import opened Wrappers
  import opened Vault
  import opened MigrationSteps
  import opened Migrations
  import opened MigrationFrames
  import opened MigrationProgram
  import opened MigrationSchemaSteps
  import opened MigrationPayloadSteps

  /** The new text without the removed keys, unless there is nothing to change. */
  method CleanJson(service: EncryptionService, p: Payload, removed: set<string>)
    returns (r: Result<Option<string>, MigrationError>)
    ensures r.Ok? <==> JsonReady(service.tools, p)
    ensures r.Ok? ==> r.value == Cleaner(service.tools, p, removed)
  {
    hide PlainText;
    if p.value == Null || p.value == Text("") { return Ok(None); }
    var text := ReadText(service, p);
    if text.Err? { return Err(text.error); }
    var entries := service.tools.json.load(text.value);
    if entries.None? { return Err(NotAnEntry); }
    if entries.value.Keys !! removed { return Ok(None); }
    return Ok(Some(service.tools.json.dump(entries.value - removed)));
  }

  function Cleaner(tools: Tools, p: Payload, removed: set<string>): Option<string>
    requires JsonReady(tools, p)
  {
    if Blank(p) then None
    else
      var entries := tools.json.load(PlainText(tools.cipher, p).value).value;
      if entries.Keys !! removed then None else Some(tools.json.dump(entries - removed))
  }

  /** Storing the cleaned text, or leaving the row, is what the step asks for. */
  lemma {:induction false} CleanedIsDone(tools: Tools, removed: set<string>, id: Cell, p: Payload, q: Payload)
    requires JsonReady(tools, p)
    requires var text := Cleaner(tools, p, removed);
             if text.None? || id == Null then q == p
             else PlainText(tools.cipher, q) == text && if p.nonce != Null then WellSealed(q)
               else q.nonce == Null && q.tag == Null
    ensures JsonDone(tools, removed, id, p, q)
  {
    hide PlainText, WellSealed;
  }

  ghost predicate RemindersSoFar(tools: Tools, a: Namespace, b: Namespace, n: nat) {
    && OnlyFields(a, b, {ReminderPayload})
    && var before, after := Payloads(a, ReminderPayload), Payloads(b, ReminderPayload);
       && n <= |before| == |after| == |Ids(a.main, Reminders)|
       && (forall i :: 0 <= i < n ==>
             JsonReady(tools, before[i]) &&
                 JsonDone(tools, SOUND_FIELDS, Ids(a.main, Reminders)[i], before[i], after[i]))
       && forall i :: n <= i < |before| ==> after[i] == before[i]
  }

  lemma {:induction false} RemindersAreKeyed(ns: Namespace)
    requires HasField(ns.main, ReminderPayload)
    ensures |Payloads(ns, ReminderPayload)| == |Ids(ns.main, Reminders)|
    ensures forall i: nat :: i < |Ids(ns.main, Reminders)| ==> Updatable(ns, ReminderPayload, i)
  {
  }

  lemma {:induction false} NoReminderYet(tools: Tools, a: Namespace)
    requires HasField(a.main, ReminderPayload)
    ensures RemindersSoFar(tools, a, a, 0)
  {
    RemindersAreKeyed(a);
  }

  lemma {:induction false} RemindersShape(tools: Tools, a: Namespace, b: Namespace, n: nat)
    requires RemindersSoFar(tools, a, b, n)
    ensures SameShape(a, b) && OnlyFields(a, b, {ReminderPayload}) && Ids(b.main, Reminders) == Ids(a.main, Reminders)
    ensures n < |Ids(a.main, Reminders)| ==>
      n < |Payloads(b, ReminderPayload)| && Payloads(b, ReminderPayload)[n] == Payloads(a, ReminderPayload)[n]
  {
  }

  lemma {:induction false} NextReminder(tools: Tools, a: Namespace, b: Namespace, c: Namespace, n: nat)
    requires RemindersSoFar(tools, a, b, n) && n < |Ids(a.main, Reminders)|
    requires b == c || (OnlyFields(b, c, {ReminderPayload}) && n < |Payloads(c, ReminderPayload)|
                        && Payloads(c, ReminderPayload)
                             == Payloads(b, ReminderPayload)[n := Payloads(c, ReminderPayload)[n]])
    requires JsonReady(tools, Payloads(a, ReminderPayload)[n])
    requires JsonDone(tools, SOUND_FIELDS, Ids(a.main, Reminders)[n], Payloads(a, ReminderPayload)[n],
        Payloads(c, ReminderPayload)[n])
    ensures RemindersSoFar(tools, a, c, n + 1)
  {
    hide Payloads, OnlyFields, JsonReady, JsonDone, Ids;
    if b != c {
      OnlyFieldsTrans(a, b, c, {ReminderPayload});
    }
  }

  lemma {:induction false} ReminderHandled(tools: Tools, a: Namespace, b: Namespace, c: Namespace, n: nat)
    requires RemindersSoFar(tools, a, b, n) && n < |Ids(a.main, Reminders)|
    requires JsonReady(tools, Payloads(a, ReminderPayload)[n])
    requires var p := Payloads(a, ReminderPayload)[n];
             var text := Cleaner(tools, p, SOUND_FIELDS);
             if text.None? then b == c else Stored(tools.cipher, b, c, ReminderPayload, n, text.value, p.nonce != Null)
    ensures RemindersSoFar(tools, a, c, n + 1)
  {
    hide Payloads, OnlyFields, Ids, PlainText, WellSealed, RemindersSoFar, JsonReady, JsonDone, Cleaner;
    RemindersShape(tools, a, b, n);
    RemindersAsMany(tools, a, b, n);
    CleanedIsDone(tools, SOUND_FIELDS, Ids(a.main, Reminders)[n], Payloads(a, ReminderPayload)[n],
        Payloads(c, ReminderPayload)[n]);
    NextReminder(tools, a, b, c, n);
  }

  lemma {:induction false} RemindersAsMany(tools: Tools, a: Namespace, b: Namespace, n: nat)
    requires RemindersSoFar(tools, a, b, n)
    ensures |Payloads(a, ReminderPayload)| == |Payloads(b, ReminderPayload)| == |Ids(a.main, Reminders)|
  {
  }

  lemma {:induction false} RemindersFinished(tools: Tools, a: Namespace, b: Namespace)
    requires RemindersSoFar(tools, a, b, |Ids(a.main, Reminders)|)
    ensures OnlyFields(a, b, {ReminderPayload})
    ensures RemindersDone(tools, Ids(a.main, Reminders), Payloads(a, ReminderPayload), Payloads(b, ReminderPayload))
    ensures forall p :: p in Payloads(a, ReminderPayload) ==> JsonReady(tools, p)
  {
    hide Payloads, Ids, OnlyFields, JsonReady, JsonDone;
  }

  method RetireReminderSounds(db: NamespaceDatabase, service: EncryptionService)
    returns (r: Result<nat, MigrationError>)
    requires HasField(db.ns.main, ReminderPayload) && Working(db, service, |Ids(db.ns.main, Reminders)|)
    modifies db, service
    ensures Working(db, service, 0) && |service.draws| >= |old(service.draws)| - |old(Ids(db.ns.main, Reminders))|
    ensures old(Safe(db, service)) ==> Safe(db, service)
    ensures r.Ok? <==> forall p :: p in old(Payloads(db.ns, ReminderPayload)) ==> JsonReady(service.tools, p)
    ensures r.Ok? ==>
      && OnlyFields(old(db.ns), db.ns, {ReminderPayload})
      && RemindersDone(service.tools, old(Ids(db.ns.main, Reminders)), old(Payloads(db.ns, ReminderPayload)),
           Payloads(db.ns, ReminderPayload))
  {
    hide Secure, KeyedTables, Payloads, Ids, OnlyFields, HasField, CipherOk, JsonOk, RemindersSoFar, JsonReady,
      JsonDone, Stored, Updatable, Cleaner;
    var ids, payloads := Ids(db.ns.main, Reminders), Payloads(db.ns, ReminderPayload);
    ghost var a := db.ns;
    ghost var tools := service.tools;
    var count := 0;
    RemindersAreKeyed(a);
    NoReminderYet(tools, a);
    for i := 0 to |ids|
      invariant Working(db, service, |ids| - i) && |service.draws| >= |old(service.draws)| - i
      invariant old(Safe(db, service)) ==> Safe(db, service)
      invariant RemindersSoFar(tools, a, db.ns, i)
    {
      assert payloads[i] in payloads;
      var text := CleanJson(service, payloads[i], SOUND_FIELDS);
      if text.Err? { return Err(text.error); }
      ghost var b := db.ns;
      if text.value.Some? {
        RemindersShape(tools, a, b, i);
        StillUpdatable(a, b, ReminderPayload, i);
        StoreText(db, service, ReminderPayload, i, text.value.value, payloads[i].nonce != Null);
        count := count + 1;
      }
      ReminderHandled(tools, a, b, db.ns, i);
    }
    RemindersFinished(tools, a, db.ns);
    return Ok(count);
  }

  lemma {:induction false} SettingStored(tools: Tools, a: Namespace, b: Namespace, f: Field, removed: set<string>,
        k: nat)
    requires k < |Payloads(a, f)| == |Ids(a.main, TableOf(f))| && Ids(a.main, TableOf(f))[k] == Number(1)
    requires JsonReady(tools, Payloads(a, f)[k])
    requires var p := Payloads(a, f)[k];
             var text := Cleaner(tools, p, removed);
             if text.None? then a == b else Stored(tools.cipher, a, b, f, k, text.value, p.nonce != Null)
    ensures OnlyFields(a, b, {f}) && PreferencesDone(tools, removed, k, Payloads(a, f), Payloads(b, f))
  {
    hide Payloads, OnlyFields, Ids, PlainText, WellSealed, JsonReady, JsonDone, Cleaner;
    SameFields(a, {f});
    CleanedIsDone(tools, removed, Number(1), Payloads(a, f)[k], Payloads(b, f)[k]);
  }

  /** One of the two settings; a database without the settings row is left alone. */
  method RetireSetting(db: NamespaceDatabase, service: EncryptionService, f: Field, removed: set<string>)
    returns (r: Result<nat, MigrationError>)
    requires f in CLIENT_FIELDS && HasField(db.ns.main, f) && Working(db, service, 1)
    modifies db, service
    ensures Working(db, service, 0) && |service.draws| >= |old(service.draws)| - 1
    ensures old(Safe(db, service)) ==> Safe(db, service)
    ensures var k := old(SettingsAt(Ids(db.ns.main, AppSettings)));
            && (k.Some? ==> k.value < |old(Payloads(db.ns, f))|)
            && (r.Ok? <==> (k.Some? ==> JsonReady(service.tools, old(Payloads(db.ns, f))[k.value])))
            && (r.Ok? && k.None? ==> db.ns == old(db.ns))
            && (r.Ok? && k.Some? ==>
                  && OnlyFields(old(db.ns), db.ns, {f})
                  && PreferencesDone(service.tools, removed, k.value, old(Payloads(db.ns, f)), Payloads(db.ns, f)))
  {
    hide Secure, KeyedTables, Payloads, Ids, OnlyFields, HasField, CipherOk, JsonOk, JsonReady, PreferencesDone, Stored,
      Cleaner;
    SettingsAreKeyed(db.ns, f);
    var k := SettingsAt(Ids(db.ns.main, AppSettings));
    if k.None? { return Ok(0); }
    var p := Payloads(db.ns, f)[k.value];
    var text := CleanJson(service, p, removed);
    if text.Err? { return Err(text.error); }
    ghost var a := db.ns;
    if text.value.Some? {
      StoreText(db, service, f, k.value, text.value.value, p.nonce != Null);
    }
    SettingStored(service.tools, a, db.ns, f, removed, k.value);
    return Ok(if text.value.Some? then 1 else 0);
  }

  method RetireSounds(db: NamespaceDatabase, service: EncryptionService) returns (r: Result<nat, MigrationError>)
    requires Working(db, service, |Ids(db.ns.main, Reminders)| + 2)
    modifies db, service
    ensures Working(db, service, 0) && |service.draws| >= |old(service.draws)| - |old(Ids(db.ns.main, Reminders))| - 2
    ensures old(Safe(db, service)) ==> Safe(db, service)
    ensures r.Ok? <==> StepReady(8, service.tools, old(db.ns))
    ensures r.Ok? ==> StepDone(8, service.tools, old(db.ns), db.ns)
  {
    hide Secure, KeyedTables, Payloads, Ids, OnlyFields, HasField, CipherOk, JsonOk, JsonReady, RemindersDone,
      PreferencesDone, NoNewNonces, SOUND_PREFERENCES, SOUND_COMMANDS;
    ghost var a := db.ns;
    if !HasField(db.ns.main, ReminderPayload) || !HasField(db.ns.main, ClientPreferences) ||
      !HasField(db.ns.main, PaletteUsage) {
      return Err(NoSuchTable);
    }
    SettingsAreKeyed(a, ClientPreferences);
    SettingsAreKeyed(a, PaletteUsage);
    var reminders := RetireReminderSounds(db, service);
    if reminders.Err? { return reminders; }
    ghost var b := db.ns;
    StillThere(a, b, {ReminderPayload});
    var preferences := RetireSetting(db, service, ClientPreferences, SOUND_PREFERENCES);
    if preferences.Err? { return preferences; }
    ghost var c := db.ns;
    if SettingsAt(Ids(a.main, AppSettings)).Some? {
      StillThere(b, c, {ClientPreferences});
    }
    var usage := RetireSetting(db, service, PaletteUsage, SOUND_COMMANDS);
    if usage.Err? { return usage; }
    ghost var cleaned := db.ns;
    SoundsComposed(service.tools, a, b, c, cleaned);
    FilesOnly(db.ns);
    Install(db, service, WithFiles(db.ns, WithoutSounds));
    assert SoundsRetired(service.tools, a, cleaned, db.ns);
    return Ok(reminders.value + preferences.value + usage.value);
  }

  lemma {:induction false} StillThere(a: Namespace, b: Namespace, fields: set<Field>)
    requires OnlyFields(a, b, fields)
    ensures HasField(a.main, ClientPreferences) <==> HasField(b.main, ClientPreferences)
    ensures HasField(a.main, PaletteUsage) <==> HasField(b.main, PaletteUsage)
    ensures Ids(b.main, AppSettings) == Ids(a.main, AppSettings) && Ids(b.main, Reminders) == Ids(a.main, Reminders)
    ensures ClientPreferences !in fields ==> Payloads(b, ClientPreferences) == Payloads(a, ClientPreferences)
    ensures PaletteUsage !in fields ==> Payloads(b, PaletteUsage) == Payloads(a, PaletteUsage)
  {
    HasFieldStays(a, b, ClientPreferences);
    HasFieldStays(a, b, PaletteUsage);
  }

  /** The three parts of the step, one after the other. */
  lemma {:induction false} SoundsComposed(tools: Tools, a: Namespace, b: Namespace, c: Namespace, d: Namespace)
    requires OnlyFields(a, b, {ReminderPayload})
    requires RemindersDone(tools, Ids(a.main, Reminders), Payloads(a, ReminderPayload), Payloads(b, ReminderPayload))
    requires match SettingsAt(Ids(a.main, AppSettings))
             case None => b == c == d
             case Some(k) =>
               && OnlyFields(b, c, {ClientPreferences}) && OnlyFields(c, d, {PaletteUsage})
               && PreferencesDone(tools, SOUND_PREFERENCES, k, Payloads(b, ClientPreferences),
                    Payloads(c, ClientPreferences))
               && PreferencesDone(tools, SOUND_COMMANDS, k, Payloads(c, PaletteUsage), Payloads(d, PaletteUsage))
    ensures SoundsRetired(tools, a, d, WithFiles(d, WithoutSounds))
  {
    hide Payloads, RemindersDone, PreferencesDone, SOUND_PREFERENCES, SOUND_COMMANDS, SameShape;
    var all := {ReminderPayload, ClientPreferences, PaletteUsage};
    assert OnlyFields(a, b, all);
    if SettingsAt(Ids(a.main, AppSettings)).Some? {
      assert OnlyFields(b, c, all) && OnlyFields(c, d, all);
      OnlyFieldsTrans(a, b, c, all);
      OnlyFieldsTrans(a, c, d, all);
    }
  }
}
