/** What the schema changes leave as it is. */
module MigrationFrames {
  import opened Base64
  import opened Vault
  import opened MigrationSteps
  import opened Migrations

  /** Each field keeps its payloads, or has none left with a nonce. */
  ghost predicate NoNewNonces(a: Namespace, b: Namespace) {
    forall f :: Payloads(b, f) == Payloads(a, f) || forall p :: p in Payloads(b, f) ==> !Recorded(p)
  }

  lemma {:induction false} StaysSecure(a: Namespace, b: Namespace, owner: Owner, draws: seq<seq<Byte>>)
    requires Secure(a, owner, draws) && NoNewNonces(a, b)
    ensures Secure(b, owner, draws)
  {
    hide Payloads, Recorded;
    forall f: Field, i: nat | i < |Payloads(b, f)|
      ensures OwnsAt(owner, Payloads(b, f)[i], f, i)
    {
      if Payloads(b, f) == Payloads(a, f) {
        assert OwnsAt(owner, Payloads(a, f)[i], f, i);
      } else {
        NotRecorded(owner, Payloads(b, f), f, i);
      }
    }
  }

  lemma {:induction false} NotRecorded(owner: Owner, payloads: seq<Payload>, f: Field, i: nat)
    requires i < |payloads| && forall p :: p in payloads ==> !Recorded(p)
    ensures OwnsAt(owner, payloads[i], f, i)
  {
    assert payloads[i] in payloads;
  }

  lemma {:induction false} TableReplaced(ns: Namespace, t: Table, relation: Relation, f: Field)
    ensures TableOf(f) != t || InFiles(f) ==> Payloads(WithTable(ns, t, relation), f) == Payloads(ns, f)
    ensures TableOf(f) == t && !InFiles(f) && relation.rows == [] ==> Payloads(WithTable(ns, t, relation), f) == []
  {
    hide Group, TableOf;
  }

  lemma {:induction false} EmptyTable(ns: Namespace, t: Table, columns: set<Column>)
    requires t !in {Notes, Reminders, AppSettings} && KeyedTables(ns)
    ensures NoNewNonces(ns, WithTable(ns, t, Relation(columns, [])))
    ensures KeyedTables(WithTable(ns, t, Relation(columns, [])))
  {
    var after := WithTable(ns, t, Relation(columns, []));
    forall f
      ensures Payloads(after, f) == Payloads(ns, f) || forall p :: p in Payloads(after, f) ==> !Recorded(p)
    {
      TableReplaced(ns, t, Relation(columns, []), f);
    }
    KeyedElsewhere(ns, after, t);
  }

  lemma {:induction false} KeyedElsewhere(a: Namespace, b: Namespace, t: Table)
    requires t !in {Notes, Reminders, AppSettings} && KeyedTables(a)
    requires forall u :: u != t ==> RowsOf(b.main, u) == RowsOf(a.main, u)
    ensures KeyedTables(b)
  {
    assert Ids(b.main, Notes) == Ids(a.main, Notes) && Ids(b.main, Reminders) == Ids(a.main, Reminders);
    assert Ids(b.main, AppSettings) == Ids(a.main, AppSettings);
  }

  lemma {:induction false} TableDropped(ns: Namespace, t: Table, f: Field)
    ensures TableOf(f) != t || InFiles(f) ==> Payloads(WithoutTable(ns, t), f) == Payloads(ns, f)
    ensures TableOf(f) == t && !InFiles(f) ==> Payloads(WithoutTable(ns, t), f) == []
  {
    hide Group, TableOf;
  }

  lemma {:induction false} DroppedTable(ns: Namespace, t: Table)
    requires t !in {Notes, Reminders, AppSettings} && KeyedTables(ns)
    ensures NoNewNonces(ns, WithoutTable(ns, t)) && KeyedTables(WithoutTable(ns, t))
  {
    var after := WithoutTable(ns, t);
    forall f
      ensures Payloads(after, f) == Payloads(ns, f) || forall p :: p in Payloads(after, f) ==> !Recorded(p)
    {
      TableDropped(ns, t, f);
    }
    KeyedElsewhere(ns, after, t);
  }

  lemma {:induction false} NoNewNoncesTrans(a: Namespace, b: Namespace, c: Namespace)
    requires NoNewNonces(a, b) && NoNewNonces(b, c)
    ensures NoNewNonces(a, c)
  {
    hide Payloads, Recorded;
    forall f
      ensures Payloads(c, f) == Payloads(a, f) || forall p :: p in Payloads(c, f) ==> !Recorded(p)
    {
      assert Payloads(b, f) == Payloads(a, f) || forall p :: p in Payloads(b, f) ==> !Recorded(p);
    }
  }

  lemma {:induction false} SearchReplaced(ns: Namespace)
    requires KeyedTables(ns)
    ensures NoNewNonces(ns, OpaqueSearch(ns)) && KeyedTables(OpaqueSearch(ns))
  {
    hide OPAQUE_SEARCH_COLUMNS, Payloads, KeyedTables;
    var t := Other("search_interaction_history_v3");
    DroppedTable(ns, t);
    EmptyTable(WithoutTable(ns, t), SearchHistory, OPAQUE_SEARCH_COLUMNS);
    NoNewNoncesTrans(ns, WithoutTable(ns, t),
        WithTable(WithoutTable(ns, t), SearchHistory, Relation(OPAQUE_SEARCH_COLUMNS, [])));
  }

  lemma {:induction false} AddedElsewhere(ns: Namespace, f: Field, default: Payload, g: Field)
    requires !InFiles(f) && CanAdd(ns, f) && (TableOf(g) != TableOf(f) || InFiles(g))
    ensures Payloads(Added(ns, f, default), g) == Payloads(ns, g)
  {
    hide Group, TableOf;
  }

  lemma {:induction false} AddedRow(relation: Relation, f: Field, default: Payload, g: Field, j: nat)
    requires j < |relation.rows|
    ensures PayloadOf(AddGroup(relation, f, default).rows[j], g) == if g == f then default
        else PayloadOf(relation.rows[j], g)
  {
  }

  lemma {:induction false} AddedHere(ns: Namespace, f: Field, default: Payload, g: Field)
    requires CanAdd(ns, f) && !HasField(ns.main, f) && TableOf(g) == TableOf(f)
    ensures var after := Added(ns, f, default);
            HasField(after.main, g) <==> HasField(ns.main, g) || g == f
    ensures var relation := ns.main.tables[TableOf(f)];
            Added(ns, f, default).main.tables[TableOf(f)] == AddGroup(relation, f, default)
  {
    SameColumns(ns.main.tables[TableOf(f)].columns, f, g);
    hide Group, TableOf;
  }

  /** Adding a group of columns gives the field its default and touches no other payload. */
  lemma {:induction false} GroupAdded(ns: Namespace, f: Field, default: Payload, g: Field)
    requires !InFiles(f) && CanAdd(ns, f) && !HasField(ns.main, f)
    ensures g != f ==> Payloads(Added(ns, f, default), g) == Payloads(ns, g)
    ensures g == f ==> HasField(Added(ns, f, default).main, f) && forall p ::
        p in Payloads(Added(ns, f, default), f) ==> p == default
  {
    if TableOf(g) == TableOf(f) && !InFiles(g) {
      AddedHere(ns, f, default, g);
      var relation := ns.main.tables[TableOf(f)];
      var before, after := Cells(ns.main, g), Cells(Added(ns, f, default).main, g);
      hide HasField, TableOf, Added, AddGroup;
      forall j | 0 <= j < |after|
        ensures after[j] == if g == f then default else before[j]
      {
        AddedRow(relation, f, default, g, j);
      }
    } else {
      AddedElsewhere(ns, f, default, g);
    }
  }

  lemma {:induction false} SameColumns(columns: set<Column>, f: Field, g: Field)
    ensures g != f ==> (Group(g) <= columns + Group(f) <==> Group(g) <= columns)
  {
    if g != f && Group(g) <= columns + Group(f) {
      assert ValueOf(g) in Group(g) && NonceOf(g) in Group(g) && TagOf(g) in Group(g);
    }
  }

  lemma {:induction false} AddedIds(ns: Namespace, f: Field, default: Payload, t: Table)
    requires CanAdd(ns, f)
    ensures Ids(Added(ns, f, default).main, t) == Ids(ns.main, t)
  {
  }

  lemma {:induction false} GroupAddedKeeps(ns: Namespace, f: Field, default: Payload)
    requires !InFiles(f) && CanAdd(ns, f) && KeyedTables(ns) && default.nonce == Null
    ensures NoNewNonces(ns, Added(ns, f, default)) && KeyedTables(Added(ns, f, default))
  {
    hide Payloads, Ids, Group, TableOf;
    var after := Added(ns, f, default);
    if !HasField(ns.main, f) {
      forall g
        ensures Payloads(after, g) == Payloads(ns, g) || forall p :: p in Payloads(after, g) ==> !Recorded(p)
      {
        GroupAdded(ns, f, default, g);
      }
    }
    AddedIds(ns, f, default, Notes);
    AddedIds(ns, f, default, Reminders);
    AddedIds(ns, f, default, AppSettings);
  }

  /** The files database: dropping the sounds, adding a revision column and previews. */
  lemma {:induction false} FilesChanged(ns: Namespace, f: Field)
    ensures Payloads(WithFiles(ns, WithoutSounds), f) == if TableOf(f) == Sounds then [] else Payloads(ns, f)
  {
    hide Group, TableOf;
  }

  lemma {:induction false} FilesEditable(ns: Namespace, f: Field)
    ensures Payloads(WithFiles(ns, EditableFiles), f) == Payloads(ns, f)
  {
    if ns.files.Some? && InFiles(f) {
      RevisionAdded(f, Relation(FILES_COLUMNS, []).columns);
      if Files in ns.files.value.tables {
        RevisionAdded(f, ns.files.value.tables[Files].columns);
      }
      hide Group, TableOf, FILES_COLUMNS, PREVIEWS_COLUMNS;
    }
  }

  lemma {:induction false} RevisionAdded(f: Field, columns: set<Column>)
    ensures Group(f) <= columns + {Revision} <==> Group(f) <= columns
  {
    if Group(f) <= columns + {Revision} {
      assert ValueOf(f) in Group(f) && NonceOf(f) in Group(f) && TagOf(f) in Group(f);
    }
  }
}
