/** The audit as it runs: findings are counted and nonces remembered while the rows go by. */
module AuditRun {
  import opened Wrappers
  import opened Vault
  import opened Base64
  import opened EncryptionAudit

  datatype Message =
    | UnknownTable | MissingTable | UnknownColumn | MissingColumn | NotIntact
    | NonceReused(previous: Field) | AwaitsMigration | NoMetadata | IncompleteMetadata | BadNonce | BadTag
    | NotBase64 | NotBlob | SettingsRow | VaultValue | LegacySearch | ResetPending

  datatype Finding = Finding(inFiles: bool, table: Table, column: Option<Column>, message: Message, deferred: bool)

  datatype AuditResult = AuditResult(encrypted: bool, checked: nat, counts: map<Finding, nat>)

  datatype AuditError = NoSettings | BadVersion

  predicate NothingFatal(counts: map<Finding, nat>) {
    forall finding :: finding in counts ==> finding.deferred
  }

  // ---------- what is known while the rows go by ----------

  ghost predicate OwnedBy(ns: Namespace, owner: Owner, f: Field) {
    OwnedUpTo(ns, owner, f, |Payloads(ns, f)|)
  }

  ghost predicate OwnedUpTo(ns: Namespace, owner: Owner, f: Field, n: nat)
    requires n <= |Payloads(ns, f)|
  {
    forall i: nat :: i < n ==> OwnsAt(owner, Payloads(ns, f)[i], f, i)
  }

  /** The payload at `at` uses the nonce `n`. */
  ghost predicate Uses(ns: Namespace, at: (Field, nat), n: seq<Byte>) {
    at.1 < |Payloads(ns, at.0)| && Recorded(Payloads(ns, at.0)[at.1]) && Payloads(ns, at.0)[at.1].nonce == Blob(n)
  }

  ghost predicate Visited(done: set<Field>, f: Field, k: nat, at: (Field, nat)) {
    at.0 in done || (at.0 == f && at.1 < k)
  }

  /** `owner` holds the nonces of the fields in `done` and of the first `k` rows of `f`, and only those. */
  ghost predicate Knows(ns: Namespace, owner: Owner, done: set<Field>, f: Field, k: nat) {
    && (forall at: (Field, nat) ::
         Visited(done, f, k, at) && at.1 < |Payloads(ns, at.0)| && Recorded(Payloads(ns, at.0)[at.1]) ==>
          Payloads(ns, at.0)[at.1].nonce.bytes in owner)
    && forall n :: n in owner ==> Visited(done, f, k, owner[n]) && Uses(ns, owner[n], n)
  }

  ghost predicate Extends(before: Owner, after: Owner) {
    forall n :: n in before ==> n in after && after[n] == before[n]
  }

  /** Later nonces do not change the verdict on a field already seen. */
  lemma {:induction false} VerdictStays(ns: Namespace, before: Owner, after: Owner, done: set<Field>, f: Field, k: nat,
        g: Field)
    requires Knows(ns, before, done, f, k) && Extends(before, after) && g in done
    ensures OwnedBy(ns, before, g) <==> OwnedBy(ns, after, g)
  {
    forall i: nat | i < |Payloads(ns, g)|
      ensures OwnsAt(before, Payloads(ns, g)[i], g, i) <==> OwnsAt(after, Payloads(ns, g)[i], g, i)
    {
      assert Visited(done, f, k, (g, i));
    }
  }

  lemma {:induction false} PrefixVerdictStays(ns: Namespace, before: Owner, after: Owner, done: set<Field>, f: Field,
        k: nat)
    requires Knows(ns, before, done, f, k) && Extends(before, after) && k <= |Payloads(ns, f)|
    ensures OwnedUpTo(ns, before, f, k) <==> OwnedUpTo(ns, after, f, k)
  {
    forall i: nat | i < k
      ensures OwnsAt(before, Payloads(ns, f)[i], f, i) <==> OwnsAt(after, Payloads(ns, f)[i], f, i)
    {
      assert Visited(done, f, k, (f, i));
    }
  }

  ghost function Recording(owner: Owner, p: Payload, f: Field, i: nat): Owner {
    if Recorded(p) && p.nonce.bytes !in owner then owner[p.nonce.bytes := (f, i)] else owner
  }

  lemma {:induction false} KnowsMore(ns: Namespace, owner: Owner, done: set<Field>, f: Field, k: nat)
    requires Knows(ns, owner, done, f, k) && k < |Payloads(ns, f)| && f !in done
    ensures var owner' := Recording(owner, Payloads(ns, f)[k], f, k);
            Knows(ns, owner', done, f, k + 1) && Extends(owner, owner')
  {
    var p := Payloads(ns, f)[k];
    var owner' := Recording(owner, p, f, k);
    forall n | n in owner'
      ensures Visited(done, f, k + 1, owner'[n]) && Uses(ns, owner'[n], n)
    {
      assert n in owner ==> Visited(done, f, k, owner[n]);
    }
    forall at: (Field, nat) | Visited(done, f, k + 1, at) && at.1 < |Payloads(ns, at.0)| &&
        Recorded(Payloads(ns, at.0)[at.1])
      ensures Payloads(ns, at.0)[at.1].nonce.bytes in owner'
    {
      assert at != (f, k) ==> Visited(done, f, k, at);
    }
  }

  /** One more row: it owns its nonce exactly if nobody used it before. */
  lemma {:induction false} RowKnown(ns: Namespace, owner: Owner, done: set<Field>, f: Field, k: nat)
    requires Knows(ns, owner, done, f, k) && k < |Payloads(ns, f)| && f !in done
    ensures var p := Payloads(ns, f)[k];
            var owner' := Recording(owner, p, f, k);
            && Knows(ns, owner', done, f, k + 1) && Extends(owner, owner')
            && (OwnsAt(owner', p, f, k) <==> (Recorded(p) ==> p.nonce.bytes !in owner))
            && (OwnedUpTo(ns, owner', f, k + 1) <==> OwnedUpTo(ns, owner, f, k) && OwnsAt(owner', p, f, k))
  {
    var p := Payloads(ns, f)[k];
    var owner' := Recording(owner, p, f, k);
    KnowsMore(ns, owner, done, f, k);
    if Recorded(p) && p.nonce.bytes in owner {
      assert Visited(done, f, k, owner[p.nonce.bytes]);
    }
    PrefixVerdictStays(ns, owner, owner', done, f, k);
    assert OwnedUpTo(ns, owner', f, k + 1) <==> OwnedUpTo(ns, owner', f, k) && OwnsAt(owner', p, f, k);
  }

  lemma {:induction false} NothingOwned(ns: Namespace, owner: Owner, f: Field)
    ensures OwnedUpTo(ns, owner, f, 0)
  {
  }

  lemma {:induction false} PassesByMetadata(f: Field, p: Payload, deferred: set<Field>)
    ensures p.nonce == Null || p.tag == Null ==> !Recorded(p)
    ensures Absent(f, p) ==> Passes(f, p, deferred) && !Recorded(p)
    ensures !Absent(f, p) && p.nonce == Null && p.tag == Null ==> (Passes(f, p, deferred) <==> f in deferred)
    ensures (p.nonce == Null) != (p.tag == Null) ==> !Passes(f, p, deferred)
    ensures p.nonce != Null && p.tag != Null ==> (Passes(f, p, deferred) <==> Encrypted(f, p))
  {
  }

  function OnlyIn(one: Schema, other: Schema): set<(Table, Option<Column>)> {
    set t | t in one && t !in other :: (t, None)
  }

  function Others(t: Table, one: set<Column>, other: set<Column>): set<(Table, Option<Column>)> {
    set c | c in one && c !in other :: (t, Some(c))
  }

  lemma {:induction false} TablesOnlyIn(one: Schema, other: Schema)
    ensures OnlyIn(one, other) == {} <==> one.Keys <= other.Keys
  {
    forall t | t in one && t !in other
      ensures OnlyIn(one, other) != {}
    {
      var place: (Table, Option<Column>) := (t, None);
      assert place in OnlyIn(one, other);
    }
  }

  lemma {:induction false} ColumnsOnlyIn(t: Table, one: set<Column>, other: set<Column>)
    ensures Others(t, one, other) == {} <==> one <= other
  {
    forall c | c in one && c !in other
      ensures Others(t, one, other) != {}
    {
      var place: (Table, Option<Column>) := (t, Some(c));
      assert place in Others(t, one, other);
    }
  }

  ghost predicate AgreeExcept(actual: Schema, expected: Schema, left: set<Table>) {
    forall t :: t in actual && t in expected && t !in left ==> actual[t] == expected[t]
  }

  lemma {:induction false} AgreeNext(actual: Schema, expected: Schema, left: set<Table>, t: Table)
    requires t in left && t in actual && t in expected
    ensures AgreeExcept(actual, expected, left - {t}) <==>
        AgreeExcept(actual, expected, left) && actual[t] == expected[t]
  {
    if AgreeExcept(actual, expected, left - {t}) {
      assert t !in left - {t};
    }
  }

  class AuditState {
    var checked: nat
    var counts: map<Finding, nat>
    var used: map<seq<Byte>, Field>
    ghost var owner: Owner

    ghost predicate Valid()
      reads this
    {
      used.Keys == owner.Keys && forall n :: n in used ==> used[n] == owner[n].0
    }

    ghost predicate Quiet()
      reads this
    {
      NothingFatal(counts)
    }

    ghost predicate Silent()
      reads this
    {
      counts == map[]
    }

    constructor ()
      ensures Valid() && Silent() && checked == 0 && owner == map[]
    {
      checked, counts, used, owner := 0, map[], map[], map[];
    }

    method AddFinding(inFiles: bool, table: Table, column: Option<Column>, message: Message)
      modifies this`counts
      ensures !Quiet() && !Silent()
    {
      var key := Finding(inFiles, table, column, message, false);
      counts := counts[key := (if key in counts then counts[key] else 0) + 1];
      assert key in counts;
    }

    method AddMigrationFinding(inFiles: bool, table: Table, column: Option<Column>, message: Message)
      modifies this`counts
      ensures (Quiet() <==> old(Quiet())) && !Silent()
    {
      var key := Finding(inFiles, table, column, message, true);
      var counts0 := counts;
      counts := counts[key := (if key in counts then counts[key] else 0) + 1];
      assert key in counts;
      assert forall finding :: finding in counts0 ==> finding in counts;
    }

    method AddEach(inFiles: bool, places: set<(Table, Option<Column>)>, message: Message)
      modifies this`counts
      ensures Quiet() <==> old(Quiet()) && places == {}
      ensures Silent() <==> old(Silent()) && places == {}
    {
      hide NothingFatal;
      var left := places;
      while left != {}
        invariant left <= places
        invariant Quiet() <==> old(Quiet()) && left == places
        invariant Silent() <==> old(Silent()) && left == places
      {
        var place :| place in left;
        AddFinding(inFiles, place.0, place.1, message);
        left := left - {place};
      }
    }

    /** Unknown and missing tables, then unknown and missing columns. */
    method AuditSchema(inFiles: bool, actual: Schema, expected: Schema)
      modifies this`counts
      ensures Quiet() <==> old(Quiet()) && actual == expected
      ensures Silent() <==> old(Silent()) && actual == expected
    {
      hide NothingFatal;
      TablesOnlyIn(actual, expected);
      AddEach(inFiles, OnlyIn(actual, expected), UnknownTable);
      TablesOnlyIn(expected, actual);
      AddEach(inFiles, OnlyIn(expected, actual), MissingTable);
      var left := actual.Keys * expected.Keys;
      while left != {}
        invariant left <= actual.Keys * expected.Keys
        invariant Quiet() <==> old(Quiet()) && actual.Keys == expected.Keys && AgreeExcept(actual, expected, left)
        invariant Silent() <==> old(Silent()) && actual.Keys == expected.Keys && AgreeExcept(actual, expected, left)
      {
        var t :| t in left;
        ColumnsOnlyIn(t, actual[t], expected[t]);
        AddEach(inFiles, Others(t, actual[t], expected[t]), UnknownColumn);
        ColumnsOnlyIn(t, expected[t], actual[t]);
        AddEach(inFiles, Others(t, expected[t], actual[t]), MissingColumn);
        AgreeNext(actual, expected, left, t);
        left := left - {t};
      }
    }

    method RecordNonce(nonce: seq<Byte>, inFiles: bool, f: Field, ghost i: nat)
      requires Valid()
      modifies this`counts, this`used, this`owner
      ensures Valid() && owner == if nonce in old(owner) then old(owner) else old(owner)[nonce := (f, i)]
      ensures Quiet() <==> old(Quiet()) && nonce !in old(owner)
      ensures Silent() <==> old(Silent()) && nonce !in old(owner)
    {
      if nonce !in used {
        used := used[nonce := f];
        owner := owner[nonce := (f, i)];
        return;
      }
      AddFinding(inFiles, TableOf(f), Some(ValueOf(f)), NonceReused(used[nonce]));
    }

    method AuditPayloadRow(p: Payload, f: Field, inFiles: bool, deferred: set<Field>, ghost i: nat)
      requires Valid()
      modifies this
      ensures Valid() && owner == Recording(old(owner), p, f, i)
      ensures Quiet() <==> old(Quiet()) && Passes(f, p, deferred) && (Recorded(p) ==> p.nonce.bytes !in old(owner))
      ensures Silent() <==> old(Silent()) && Passes(f, p, {}) && (Recorded(p) ==> p.nonce.bytes !in old(owner))
    {
      PassesByMetadata(f, p, deferred);
      PassesByMetadata(f, p, {});
      hide NothingFatal, Passes, Absent, Encrypted, Recorded, IsNullable, TableOf;
      if Absent(f, p) { return; }
      checked := checked + 1;
      if p.nonce == Null && p.tag == Null {
        if f in deferred {
          AddMigrationFinding(inFiles, TableOf(f), Some(ValueOf(f)), AwaitsMigration);
        } else {
          AddFinding(inFiles, TableOf(f), Some(ValueOf(f)), NoMetadata);
        }
        return;
      }
      if p.nonce == Null || p.tag == Null {
        AddFinding(inFiles, TableOf(f), Some(ValueOf(f)), IncompleteMetadata);
        return;
      }
      AuditEncryptedRow(p, f, inFiles, i);
    }

    method AuditEncryptedRow(p: Payload, f: Field, inFiles: bool, ghost i: nat)
      requires Valid() && p.nonce != Null && p.tag != Null
      modifies this`counts, this`used, this`owner
      ensures Valid() && owner == Recording(old(owner), p, f, i)
      ensures Quiet() <==> old(Quiet()) && Encrypted(f, p) && (Recorded(p) ==> p.nonce.bytes !in old(owner))
      ensures Silent() <==> old(Silent()) && Encrypted(f, p) && (Recorded(p) ==> p.nonce.bytes !in old(owner))
    {
      hide NothingFatal, IsCanonical, TableOf, IsBinary;
      if !IsNonce(p.nonce) {
        AddFinding(inFiles, TableOf(f), Some(NonceOf(f)), BadNonce);
      } else {
        RecordNonce(p.nonce.bytes, inFiles, f, i);
      }
      if !IsTag(p.tag) {
        AddFinding(inFiles, TableOf(f), Some(TagOf(f)), BadTag);
      }
      if !IsBinary(f) && !(p.value.Text? && IsCanonical(p.value.text)) {
        AddFinding(inFiles, TableOf(f), Some(ValueOf(f)), NotBase64);
      }
      if IsBinary(f) && !p.value.Blob? {
        AddFinding(inFiles, TableOf(f), Some(ValueOf(f)), NotBlob);
      }
    }

    /** All rows of one payload column. */
    method AuditField(cells: seq<Payload>, f: Field, inFiles: bool, deferred: set<Field>, ghost ns: Namespace,
          ghost done: set<Field>)
      requires Valid() && cells == Payloads(ns, f) && f !in done && Knows(ns, owner, done, f, 0)
      modifies this
      ensures Valid() && Knows(ns, owner, done, f, |cells|) && Extends(old(owner), owner)
      ensures Quiet() <==> old(Quiet()) && FieldPasses(ns, f, deferred) && OwnedBy(ns, owner, f)
      ensures Silent() <==> old(Silent()) && FieldPasses(ns, f, {}) && OwnedBy(ns, owner, f)
    {
      hide Knows, Payloads, Recording, Passes, NothingFatal, OwnedUpTo, OwnsAt, Recorded;
      assert OwnedUpTo(ns, owner, f, 0) by { NothingOwned(ns, owner, f); }
      for i := 0 to |cells|
        invariant Valid() && Knows(ns, owner, done, f, i) && Extends(old(owner), owner)
        invariant Quiet() <==>
            old(Quiet()) && (forall j :: 0 <= j < i ==> Passes(f, cells[j], deferred)) && OwnedUpTo(ns, owner, f, i)
        invariant Silent() <==>
            old(Silent()) && (forall j :: 0 <= j < i ==> Passes(f, cells[j], {})) && OwnedUpTo(ns, owner, f, i)
      {
        RowKnown(ns, owner, done, f, i);
        AuditPayloadRow(cells[i], f, inFiles, deferred, i);
      }
    }

    /** The payload columns of one database, in the order of `specs`. */
    method AuditPayloads(db: Database, specs: seq<Field>, inFiles: bool, deferred: set<Field>, ghost ns: Namespace,
          ghost done: set<Field>)
      requires Valid() && NewFields(done, specs) && Known(ns, owner, done)
      requires forall f :: f in specs ==> Payloads(ns, f) == Cells(db, f)
      modifies this
      ensures Valid() && Known(ns, owner, done + Elements(specs)) && Extends(old(owner), owner)
      ensures Quiet() <==> old(Quiet()) && FieldsPass(ns, owner, specs, deferred)
      ensures Silent() <==> old(Silent()) && FieldsPass(ns, owner, specs, {})
    {
      hide Known, Payloads, FieldPasses, OwnedBy, NothingFatal, NewFields, Cells, FieldsPass, Elements;
      NoFields(ns, owner, done, specs);
      for i := 0 to |specs|
        invariant Valid() && Known(ns, owner, done + Elements(specs[..i])) && Extends(old(owner), owner)
        invariant Quiet() <==> old(Quiet()) && FieldsPass(ns, owner, specs[..i], deferred)
        invariant Silent() <==> old(Silent()) && FieldsPass(ns, owner, specs[..i], {})
      {
        var f := specs[i];
        ghost var seen := done + Elements(specs[..i]);
        ghost var before := owner;
        NextField(done, specs, i);
        KnownStarts(ns, owner, seen, f);
        AuditField(Cells(db, f), f, inFiles, deferred, ns, seen);
        KnownDone(ns, owner, seen, f);
        FieldsPassNext(ns, before, owner, seen, specs, i, deferred);
        FieldsPassNext(ns, before, owner, seen, specs, i, {});
      }
      assert specs[..|specs|] == specs;
    }
  }

  ghost function Elements(specs: seq<Field>): set<Field> {
    set f | f in specs
  }

  /** The specs name each field once, and none of `done`. */
  ghost predicate NewFields(done: set<Field>, specs: seq<Field>) {
    && (forall i, j :: 0 <= i < j < |specs| ==> specs[i] != specs[j])
    && forall i :: 0 <= i < |specs| ==> specs[i] !in done
  }

  /** Knows, between two fields. */
  ghost predicate Known(ns: Namespace, owner: Owner, done: set<Field>) {
    Knows(ns, owner, done, NoteContent, 0)
  }

  ghost predicate FieldsPass(ns: Namespace, owner: Owner, specs: seq<Field>, deferred: set<Field>) {
    forall f :: f in specs ==> FieldPasses(ns, f, deferred) && OwnedBy(ns, owner, f)
  }

  lemma {:induction false} NoFields(ns: Namespace, owner: Owner, done: set<Field>, specs: seq<Field>)
    ensures done + Elements(specs[..0]) == done
    ensures forall deferred :: FieldsPass(ns, owner, specs[..0], deferred)
  {
  }

  lemma {:induction false} NextField(done: set<Field>, specs: seq<Field>, i: nat)
    requires NewFields(done, specs) && i < |specs|
    ensures specs[i] in specs && specs[i] !in done + Elements(specs[..i])
    ensures forall f :: f in specs[..i] ==> f in done + Elements(specs[..i])
    ensures done + Elements(specs[..i + 1]) == done + Elements(specs[..i]) + {specs[i]}
  {
    forall f
      ensures f in specs[..i + 1] <==> f in specs[..i] || f == specs[i]
    {
      assert specs[..i + 1] == specs[..i] + [specs[i]];
    }
  }

  lemma {:induction false} KnownStarts(ns: Namespace, owner: Owner, done: set<Field>, f: Field)
    requires Known(ns, owner, done)
    ensures Knows(ns, owner, done, f, 0)
  {
    assert forall at: (Field, nat) :: Visited(done, f, 0, at) <==> Visited(done, NoteContent, 0, at);
  }

  lemma {:induction false} KnownDone(ns: Namespace, owner: Owner, done: set<Field>, f: Field)
    requires Knows(ns, owner, done, f, |Payloads(ns, f)|)
    ensures Known(ns, owner, done + {f})
  {
    hide Recorded, Payloads;
    forall at: (Field, nat) | at.1 < |Payloads(ns, at.0)|
      ensures Visited(done, f, |Payloads(ns, f)|, at) <==> Visited(done + {f}, NoteContent, 0, at)
    {
    }
    forall n | n in owner
      ensures Visited(done + {f}, NoteContent, 0, owner[n]) && Uses(ns, owner[n], n)
    {
      assert Visited(done, f, |Payloads(ns, f)|, owner[n]);
    }
  }

  lemma {:induction false} FieldsPassNext(
    ns: Namespace, before: Owner, after: Owner, done: set<Field>, specs: seq<Field>, i: nat, deferred: set<Field>)
    requires Known(ns, before, done) && Extends(before, after) && i < |specs|
    requires forall f :: f in specs[..i] ==> f in done
    ensures FieldsPass(ns, after, specs[..i + 1], deferred) <==>
      FieldsPass(ns, before, specs[..i], deferred) && FieldPasses(ns, specs[i], deferred) &&
          OwnedBy(ns, after, specs[i])
  {
    hide Knows, OwnedBy, FieldPasses;
    assert specs[..i + 1] == specs[..i] + [specs[i]];
    forall f | f in specs[..i]
      ensures OwnedBy(ns, before, f) <==> OwnedBy(ns, after, f)
    {
      VerdictStays(ns, before, after, done, NoteContent, 0, f);
    }
  }
}
