/** The migration steps on an open namespace database. */
module Migrations {
  import opened Wrappers
  import opened Base64
  import opened Vault
  import opened MigrationSteps

  datatype MigrationError =
    | NewerVersion | InvalidVersion | MissingColumns | NoDek | NoSettingsRow | IncompleteMetadata
    | MetadataWithoutPayload | NotText | Undecryptable | UnexpectedSearchSchema | PartialSchema | InvalidNoteId
    | NoSuchTable | NotAnEntry | NoFileId

  /** New nonces are 12 bytes, differ from each other and from every nonce in use. */
  ghost predicate Fresh(draws: seq<seq<Byte>>, owner: Owner) {
    && (forall i :: 0 <= i < |draws| ==> draws[i] !in owner)
    && forall i, j :: 0 <= i < j < |draws| ==> draws[i] != draws[j]
  }

  ghost predicate Secure(ns: Namespace, owner: Owner, draws: seq<seq<Byte>>) {
    Owned(ns, owner) && Fresh(draws, owner)
  }

  /** `draws` are the nonces that the system's random source will give. */
  class EncryptionService {
    const tools: Tools
    var draws: seq<seq<Byte>>

    ghost predicate Valid()
      reads this
    {
      CipherOk(tools.cipher) && JsonOk(tools.json) && forall i :: 0 <= i < |draws| ==> |draws[i]| == GCM_NONCE_BYTES
    }

    constructor (tools: Tools, draws: seq<seq<Byte>>)
      requires CipherOk(tools.cipher) && JsonOk(tools.json) && forall i :: 0 <= i < |draws| ==>
          |draws[i]| == GCM_NONCE_BYTES
      ensures Valid() && this.tools == tools && this.draws == draws
    {
      this.tools, this.draws := tools, draws;
    }

    method EncryptForStorage(text: string) returns (p: Payload)
      requires Valid() && draws != []
      modifies this
      ensures Valid() && draws == old(draws)[1..] && p == Sealed(tools.cipher, old(draws)[0], text)
      ensures WellSealed(p) && PlainText(tools.cipher, p) == Some(text) && (p.value == Text("") <==> text == "")
    {
      hide CipherOk, JsonOk;
      SealedOpens(tools.cipher, draws[0], text);
      p := Sealed(tools.cipher, draws[0], text);
      draws := draws[1..];
    }
  }

  /** UPDATE ... SET the payload of `f` WHERE id = `id`: no row has the id NULL. */
  function UpdateWhere(ns: Namespace, id: Cell, f: Field, p: Payload): Namespace
    requires TableOf(f) in ns.main.tables
  {
    var relation := ns.main.tables[TableOf(f)];
    var rows := seq(|relation.rows|, i requires 0 <= i < |relation.rows| =>
      if id != Null && relation.rows[i].id == id then
        relation.rows[i].(cells := relation.rows[i].cells[f := p]) else relation.rows[i]);
    WithTable(ns, TableOf(f), relation.(rows := rows))
  }

  lemma {:induction false} UpdateNothing(ns: Namespace, f: Field, p: Payload)
    requires TableOf(f) in ns.main.tables
    ensures UpdateWhere(ns, Null, f, p) == ns
  {
    var relation := ns.main.tables[TableOf(f)];
    var after := UpdateWhere(ns, Null, f, p);
    assert after.main.tables[TableOf(f)].rows == relation.rows;
    assert after.main.tables == ns.main.tables;
  }

  lemma {:induction false} UpdateShape(ns: Namespace, id: Cell, f: Field, p: Payload)
    requires TableOf(f) in ns.main.tables
    ensures SameShape(ns, UpdateWhere(ns, id, f, p))
  {
    var after := UpdateWhere(ns, id, f, p);
    forall t
      ensures ColumnsOf(ns.main, t) == ColumnsOf(after.main, t) && Ids(ns.main, t) == Ids(after.main, t)
    {
      assert t != TableOf(f) ==> RowsOf(after.main, t) == RowsOf(ns.main, t);
    }
  }

  /** With unique keys, one payload of one row changes. */
  lemma {:induction false} UpdateOne(ns: Namespace, f: Field, i: nat, p: Payload)
    requires !InFiles(f) && HasField(ns.main, f) && i < |Ids(ns.main, TableOf(f))|
    requires KeysUnique(Ids(ns.main, TableOf(f))) && Ids(ns.main, TableOf(f))[i] != Null
    ensures var after := UpdateWhere(ns, Ids(ns.main, TableOf(f))[i], f, p);
            OnlyFields(ns, after, {f}) && Payloads(after, f) == Payloads(ns, f)[i := p]
  {
    var id := Ids(ns.main, TableOf(f))[i];
    var after := UpdateWhere(ns, id, f, p);
    UpdateShape(ns, id, f, p);
    forall g | !InFiles(g)
      ensures Cells(after.main, g) == if g == f then Cells(ns.main, f)[i := p] else Cells(ns.main, g)
    {
      UpdateCells(ns, f, i, p, g);
    }
  }

  lemma {:induction false} UpdateCell(ns: Namespace, id: Cell, f: Field, p: Payload, g: Field, j: nat)
    requires HasField(ns.main, f) && TableOf(g) == TableOf(f) && j < |Cells(ns.main, g)|
    ensures var after := UpdateWhere(ns, id, f, p);
            && |Cells(after.main, g)| == |Cells(ns.main, g)|
            && Cells(after.main, g)[j] ==
                 if g == f && id != Null && Ids(ns.main, TableOf(f))[j] == id then p else Cells(ns.main, g)[j]
  {
    hide Group, TableOf;
    var after := UpdateWhere(ns, id, f, p);
    var row, row' := ns.main.tables[TableOf(f)].rows[j], after.main.tables[TableOf(f)].rows[j];
    assert Cells(after.main, g)[j] == PayloadOf(row', g) && Cells(ns.main, g)[j] == PayloadOf(row, g);
  }

  lemma {:induction false} UpdateElsewhere(ns: Namespace, id: Cell, f: Field, p: Payload, g: Field)
    requires HasField(ns.main, f) && (TableOf(g) != TableOf(f) || !HasField(ns.main, g))
    ensures Cells(UpdateWhere(ns, id, f, p).main, g) == Cells(ns.main, g)
  {
    hide Group, TableOf;
  }

  lemma {:induction false} UpdateCells(ns: Namespace, f: Field, i: nat, p: Payload, g: Field)
    requires HasField(ns.main, f) && i < |Ids(ns.main, TableOf(f))|
    requires KeysUnique(Ids(ns.main, TableOf(f))) && Ids(ns.main, TableOf(f))[i] != Null
    ensures var after := UpdateWhere(ns, Ids(ns.main, TableOf(f))[i], f, p);
            Cells(after.main, g) == if g == f then Cells(ns.main, f)[i := p] else Cells(ns.main, g)
  {
    hide Group, TableOf, UpdateWhere;
    var ids := Ids(ns.main, TableOf(f));
    var before, after := Cells(ns.main, g), Cells(UpdateWhere(ns, ids[i], f, p).main, g);
    if TableOf(g) == TableOf(f) && HasField(ns.main, g) {
      UpdateCell(ns, ids[i], f, p, g, i);
      forall j | 0 <= j < |before|
        ensures after[j] == if g == f && j == i then p else before[j]
      {
        UpdateCell(ns, ids[i], f, p, g, j);
        assert ids[j] == ids[i] ==> j == i;
      }
    } else {
      UpdateElsewhere(ns, ids[i], f, p, g);
    }
  }

  lemma {:induction false} SealOwns(a: Namespace, b: Namespace, owner: Owner, draws: seq<seq<Byte>>, f: Field, i: nat)
    requires Secure(a, owner, draws) && draws != [] && OnlyFields(a, b, {f}) && i < |Payloads(a, f)|
    requires |Payloads(b, f)| == |Payloads(a, f)| && Payloads(b, f) == Payloads(a, f)[i := Payloads(b, f)[i]]
    requires Payloads(b, f)[i].nonce == Blob(draws[0])
    ensures Secure(b, owner[draws[0] := (f, i)], draws[1..])
  {
    hide Payloads, SameShape;
    var after := owner[draws[0] := (f, i)];
    forall g: Field, j: nat | j < |Payloads(b, g)|
      ensures OwnsAt(after, Payloads(b, g)[j], g, j)
    {
      if !(g == f && j == i) {
        assert Payloads(b, g)[j] == Payloads(a, g)[j];
        assert OwnsAt(owner, Payloads(a, g)[j], g, j);
      }
    }
  }

  lemma {:induction false} PlainOwns(a: Namespace, b: Namespace, owner: Owner, draws: seq<seq<Byte>>, f: Field, i: nat)
    requires Secure(a, owner, draws) && OnlyFields(a, b, {f}) && i < |Payloads(a, f)|
    requires |Payloads(b, f)| == |Payloads(a, f)| && Payloads(b, f) == Payloads(a, f)[i := Payloads(b, f)[i]]
    requires Payloads(b, f)[i].nonce == Null
    ensures Secure(b, owner, draws)
  {
    hide Payloads, SameShape;
    forall g: Field, j: nat | j < |Payloads(b, g)|
      ensures OwnsAt(owner, Payloads(b, g)[j], g, j)
    {
      if !(g == f && j == i) {
        assert Payloads(b, g)[j] == Payloads(a, g)[j];
        assert OwnsAt(owner, Payloads(a, g)[j], g, j);
      }
    }
  }

  lemma {:induction false} DrawUnused(ns: Namespace, owner: Owner, draws: seq<seq<Byte>>)
    requires Secure(ns, owner, draws) && draws != []
    ensures Secure(ns, owner, draws[1..])
  {
  }

  lemma {:induction false} KeysStay(a: Namespace, b: Namespace)
    requires KeyedTables(a) && SameShape(a, b)
    ensures KeyedTables(b)
  {
    assert Ids(a.main, Notes) == Ids(b.main, Notes) && Ids(a.main, Reminders) == Ids(b.main, Reminders);
    assert Ids(a.main, AppSettings) == Ids(b.main, AppSettings);
  }

  predicate Updatable(ns: Namespace, f: Field, i: nat) {
    TableOf(f) in {Notes, Reminders, AppSettings} && HasField(ns.main, f) && i < |Ids(ns.main, TableOf(f))|
  }

  /** What sealing a text into row `i` leaves behind. */
  ghost predicate SealedInto(cipher: Cipher, a: Namespace, b: Namespace, f: Field, i: nat, text: string) {
    i < |Ids(a.main, TableOf(f))| &&
    if Ids(a.main, TableOf(f))[i] == Null then b == a
    else
      && OnlyFields(a, b, {f}) && i < |Payloads(a, f)| == |Payloads(b, f)|
      && Payloads(b, f) == Payloads(a, f)[i := Payloads(b, f)[i]]
      && WellSealed(Payloads(b, f)[i]) && PlainText(cipher, Payloads(b, f)[i]) == Some(text)
      && (Payloads(b, f)[i].value == Text("") <==> text == "")
  }

  /** The same for a text stored as it is. */
  ghost predicate StoredInto(a: Namespace, b: Namespace, f: Field, i: nat, text: string) {
    i < |Ids(a.main, TableOf(f))| &&
    if Ids(a.main, TableOf(f))[i] == Null then b == a
    else
      && OnlyFields(a, b, {f}) && i < |Payloads(a, f)|
      && Payloads(b, f) == Payloads(a, f)[i := Payload(Text(text), Null, Null)]
  }

  /** The UPDATE with a sealed payload. */
  lemma {:induction false} SealStep(cipher: Cipher, a: Namespace, f: Field, i: nat, p: Payload, text: string)
    requires KeyedTables(a) && Updatable(a, f, i)
    requires WellSealed(p) && PlainText(cipher, p) == Some(text) && (p.value == Text("") <==> text == "")
    ensures TableOf(f) in a.main.tables
    ensures var b := UpdateWhere(a, Ids(a.main, TableOf(f))[i], f, p);
            && KeyedTables(b) && SealedInto(cipher, a, b, f, i, text)
            && (Ids(a.main, TableOf(f))[i] != Null ==> Payloads(b, f)[i] == p)
  {
    hide KeysUnique, WellSealed, PlainText, UpdateWhere, HasField, OnlyFields, Payloads, SameShape, Ids;
    var id := Ids(a.main, TableOf(f))[i];
    UpdatableIsMain(a, f, i);
    UpdateShape(a, id, f, p);
    KeysStay(a, UpdateWhere(a, id, f, p));
    if id == Null {
      UpdateNothing(a, f, p);
    } else {
      UpdateOne(a, f, i, p);
      HasFieldStays(a, UpdateWhere(a, id, f, p), f);
      PayloadCount(a, f);
      PayloadCount(UpdateWhere(a, id, f, p), f);
    }
  }

  lemma {:induction false} SealSecure(
    cipher: Cipher, a: Namespace, owner: Owner, draws: seq<seq<Byte>>, f: Field, i: nat, p: Payload, text: string)
    requires KeyedTables(a) && Updatable(a, f, i) && Secure(a, owner, draws) && draws != [] && p.nonce == Blob(draws[0])
    requires WellSealed(p) && PlainText(cipher, p) == Some(text) && (p.value == Text("") <==> text == "")
    ensures TableOf(f) in a.main.tables
    ensures var id := Ids(a.main, TableOf(f))[i];
            Secure(UpdateWhere(a, id, f, p), if id == Null then owner else owner[draws[0] := (f, i)], draws[1..])
  {
    hide Secure, KeyedTables, WellSealed, PlainText, UpdateWhere, OnlyFields, Payloads, Ids;
    SealStep(cipher, a, f, i, p, text);
    if Ids(a.main, TableOf(f))[i] == Null {
      DrawUnused(a, owner, draws);
    } else {
      SealOwns(a, UpdateWhere(a, Ids(a.main, TableOf(f))[i], f, p), owner, draws, f, i);
    }
  }

  class NamespaceDatabase {
    var ns: Namespace
    ghost var owner: Owner

    constructor (ns: Namespace, ghost owner: Owner)
      ensures this.ns == ns && this.owner == owner
    {
      this.ns, this.owner := ns, owner;
    }

    /** encrypt_for_storage, then UPDATE the row with the id of row `i`. */
    method SealInto(service: EncryptionService, f: Field, i: nat, text: string)
      requires KeyedTables(ns) && Updatable(ns, f, i) && service.draws != [] && service.Valid()
      modifies this, service
      ensures KeyedTables(ns) && service.Valid() && service.draws == old(service.draws)[1..]
      ensures SealedInto(service.tools.cipher, old(ns), ns, f, i, text)
      ensures old(Secure(ns, owner, service.draws)) ==> Secure(ns, owner, service.draws)
    {
      hide Secure, KeyedTables, KeysUnique, SealedInto, UpdateWhere, WellSealed, PlainText, CipherOk, JsonOk;
      var id := Ids(ns.main, TableOf(f))[i];
      var p := service.EncryptForStorage(text);
      SealStep(service.tools.cipher, ns, f, i, p, text);
      if old(Secure(ns, owner, service.draws)) {
        SealSecure(service.tools.cipher, ns, owner, old(service.draws), f, i, p, text);
      }
      owner := if id == Null then owner else owner[old(service.draws)[0] := (f, i)];
      ns := UpdateWhere(ns, id, f, p);
    }

    /** UPDATE the row with the id of row `i` to a text without encryption metadata. */
    method PlainInto(service: EncryptionService, f: Field, i: nat, text: string)
      requires KeyedTables(ns) && Updatable(ns, f, i)
      modifies this
      ensures KeyedTables(ns) && owner == old(owner)
      ensures StoredInto(old(ns), ns, f, i, text)
      ensures old(Secure(ns, owner, service.draws)) ==> Secure(ns, owner, service.draws)
    {
      hide Secure, KeysUnique, UpdateWhere, OnlyFields, Payloads, SameShape, Ids, HasField;
      var id := Ids(ns.main, TableOf(f))[i];
      var p := Payload(Text(text), Null, Null);
      UpdatableIsMain(ns, f, i);
      UpdateShape(ns, id, f, p);
      KeysStay(ns, UpdateWhere(ns, id, f, p));
      if id == Null {
        UpdateNothing(ns, f, p);
      } else {
        UpdateOne(ns, f, i, p);
        PayloadCount(ns, f);
        if old(Secure(ns, owner, service.draws)) {
          PlainOwns(ns, UpdateWhere(ns, id, f, p), owner, service.draws, f, i);
        }
      }
      ns := UpdateWhere(ns, id, f, p);
    }
  }

  lemma {:induction false} UpdatableIsMain(ns: Namespace, f: Field, i: nat)
    requires Updatable(ns, f, i)
    ensures !InFiles(f) && HasField(ns.main, f) && TableOf(f) in ns.main.tables
    ensures KeyedTables(ns) ==> KeysUnique(Ids(ns.main, TableOf(f)))
  {
  }

  lemma {:induction false} HasFieldStays(a: Namespace, b: Namespace, f: Field)
    requires SameShape(a, b)
    ensures HasField(a.main, f) <==> HasField(b.main, f)
    ensures Ids(a.main, TableOf(f)) == Ids(b.main, TableOf(f))
  {
    assert ColumnsOf(a.main, TableOf(f)) == ColumnsOf(b.main, TableOf(f));
  }

  lemma {:induction false} PayloadCount(ns: Namespace, f: Field)
    requires !InFiles(f) && HasField(ns.main, f)
    ensures |Payloads(ns, f)| == |Ids(ns.main, TableOf(f))|
  {
  }
}
