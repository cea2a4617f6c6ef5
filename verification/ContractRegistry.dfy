/** Property contracts at run time: a registry keyed by id() that behaves as one keyed by the object itself. */
module ContractRegistry {
  import opened Wrappers

  /** Every object ever made, by number; an address can serve many objects, one after the other. */
  type Obj = nat
  type Address = nat
  /** Every weak reference ever made, by number. */
  type Ref = nat

  datatype Kind = Scalar | Weakable | Unweakable

  datatype Life = Life(address: Address, kind: Kind, alive: bool)

  datatype Holder = Strong(value: Obj) | Weak(ref: Ref)

  datatype Entry = Entry(holder: Holder, properties: set<string>)

  datatype Mode = Off | Check | Verify

  datatype ContractError =
    | CannotCarry(name: string) | Missing(name: string) | NoPredicate(name: string) | DoesNotHold(name: string)

  class Registry {
    // the interpreter
    var lives: map<Obj, Life>
    var targets: map<Ref, Obj>
    // _Registry
    var mode: Mode
    var statics: set<string>
    var predicates: map<string, Obj -> bool>
    var entries: map<Address, Entry>
    /** What has been declared for each object: the map the registry stands for. */
    ghost var declared: map<Obj, set<string>>

    predicate Alive(o: Obj)
      reads this
    {
      o in lives && lives[o].alive
    }

    ghost function Declared(o: Obj): set<string>
      reads this
    {
      if o in declared then declared[o] else {}
    }

    /** Live objects have addresses of their own. */
    ghost predicate HeapOk()
      reads this
    {
      forall o, p :: Alive(o) && Alive(p) && o != p ==> lives[o].address != lives[p].address
    }

    /** An entry is about an object that has, or had, its key as address; if it lives, the entry is right. */
    ghost predicate EntryOk(key: Address)
      reads this
      requires key in entries
    {
      var entry := entries[key];
      match entry.holder
      case Strong(o) =>
        Alive(o) && lives[o].address == key && lives[o].kind.Unweakable? && entry.properties == Declared(o)
      case Weak(r) =>
        && r in targets && targets[r] in lives && lives[targets[r]].address == key && lives[targets[r]].kind.Weakable?
        && (Alive(targets[r]) ==> entry.properties == Declared(targets[r]))
    }

    ghost predicate EntriesOk()
      reads this
    {
      forall key :: key in entries ==> EntryOk(key)
    }

    predicate HoldsObject(key: Address, o: Obj)
      reads this
    {
      key in entries
      && match entries[key].holder
         case Strong(p) => p == o
         case Weak(r) => r in targets && targets[r] == o
    }

    /** A live object with declarations has the entry at its address. */
    ghost predicate Complete()
      reads this
    {
      forall o :: Alive(o) && Declared(o) != {} ==> HoldsObject(lives[o].address, o)
    }

    ghost predicate Valid()
      reads this
    {
      && HeapOk() && EntriesOk() && Complete()
      && (forall o :: o in declared ==> o in lives && !lives[o].kind.Scalar?)
    }

    constructor ()
      ensures Valid() && lives == map[] && mode == Off && declared == map[]
    {
      lives, targets, mode, statics, predicates, entries, declared := map[], map[], Off, {}, map[], map[], map[];
    }

    // ---------- what the interpreter does ----------

    /** A new object, at any address that no live object has; dead ones may have had it. */
    method Allocate(o: Obj, address: Address, kind: Kind)
      requires Valid() && o !in lives && forall p :: Alive(p) ==> lives[p].address != address
      modifies this`lives
      ensures Valid() && lives == old(lives)[o := Life(address, kind, true)]
      ensures Declared(o) == {}
    {
      label before:
      lives := lives[o := Life(address, kind, true)];
      forall p | p in old@before(lives)
        ensures Alive(p) <==> old@before(Alive(p))
      {
      }
      forall key | key in entries
        ensures EntryOk(key)
      {
        assert old@before(EntryOk(key));
      }
    }

    /** A value the registry holds is never collected. */
    ghost predicate Held(o: Obj)
      reads this
    {
      exists key :: key in entries && entries[key].holder == Strong(o)
    }

    method Collect(o: Obj)
      requires Valid() && Alive(o) && !Held(o)
      modifies this`lives
      ensures Valid() && lives == old(lives)[o := old(lives)[o].(alive := false)]
    {
      label before:
      lives := lives[o := lives[o].(alive := false)];
      forall key | key in entries
        ensures EntryOk(key)
      {
        assert old@before(EntryOk(key));
        assert entries[key].holder != Strong(o);
      }
    }

    /** _Forget: the callback of a reference whose object is gone, however late it comes. */
    method Forget(r: Ref, key: Address)
      requires Valid() && r in targets && targets[r] in lives && !Alive(targets[r])
      modifies this`entries
      ensures Valid()
      ensures entries == old(entries) || entries == old(entries) - {key}
      ensures forall o :: Alive(o) && HoldsObject(lives[o].address, o) <==>
          old(Alive(o) && HoldsObject(lives[o].address, o))
    {
      label before:
      if key in entries && entries[key].holder == Weak(r) {
        entries := entries - {key};
      }
      forall k | k in entries
        ensures EntryOk(k)
      {
        assert old@before(EntryOk(k));
      }
      forall o | old@before(Alive(o) && HoldsObject(lives[o].address, o))
        ensures HoldsObject(lives[o].address, o)
      {
      }
    }

    // ---------- the registry ----------

    function Holds(entry: Entry, o: Obj): bool
      reads this
    {
      match entry.holder
      case Strong(p) => p == o
      case Weak(r) => r in targets && Alive(targets[r]) && targets[r] == o
    }

    /** What is recorded for a live object is exactly what was declared for that very object. */
    method Recorded(o: Obj) returns (found: set<string>)
      requires Valid() && Alive(o)
      ensures found == Declared(o)
    {
      var key := lives[o].address;
      found := {};
      if key in entries && Holds(entries[key], o) {
        assert EntryOk(key);
        found := entries[key].properties;
      } else {
        assert !HoldsObject(key, o) by {
          if key in entries { assert EntryOk(key); }
        }
      }
    }

    /** A new entry at the object's address, whatever was there before. */
    method Put(o: Obj, entry: Entry)
      requires Valid() && Alive(o) && Declared(o) <= entry.properties
      requires match entry.holder
               case Strong(p) => p == o && lives[o].kind.Unweakable?
               case Weak(r) => r in targets && targets[r] == o && lives[o].kind.Weakable?
      modifies this`entries, this`declared
      ensures Valid() && declared == old(declared)[o := entry.properties]
      ensures entries == old(entries)[lives[o].address := entry]
    {
      label before:
      var key := lives[o].address;
      entries := entries[key := entry];
      declared := declared[o := entry.properties];
      forall k | k in entries
        ensures EntryOk(k)
      {
        if k != key {
          assert old@before(EntryOk(k));
        }
      }
      forall p | Alive(p) && Declared(p) != {}
        ensures HoldsObject(lives[p].address, p)
      {
        if p != o {
          assert old@before(HoldsObject(lives[p].address, p));
          assert lives[p].address != key;
        }
      }
    }

    /** A new weak reference; no entry has it yet. */
    method MakeReference(o: Obj, newRef: Ref)
      requires Valid() && Alive(o) && newRef !in targets
      modifies this`targets
      ensures Valid() && targets == old(targets)[newRef := o]
    {
      label before:
      targets := targets[newRef := o];
      forall k | k in entries
        ensures EntryOk(k)
      {
        assert old@before(EntryOk(k));
      }
    }

    /** `newRef` is the number of the weak reference that may be made. */
    method Record(o: Obj, properties: set<string>, newRef: Ref)
      requires Valid() && Alive(o) && newRef !in targets && Declared(o) <= properties
      modifies this`entries, this`targets, this`declared
      ensures Valid()
      ensures Declared(o) == if lives[o].kind.Scalar? then {} else properties
      ensures forall p :: p != o ==> Declared(p) == old(Declared(p))
    {
      hide Valid;
      if lives[o].kind.Scalar? {
        ScalarsCarryNothing(o);
      } else if properties == {} {
        assert Declared(o) == {};
      } else if lives[o].kind.Unweakable? {
        Put(o, Entry(Strong(o), properties));
      } else {
        MakeReference(o, newRef);
        Put(o, Entry(Weak(newRef), properties));
      }
    }

    /** The properties that are followed at run time. */
    ghost function Followed(properties: seq<string>): set<string>
      reads this
    {
      set name | name in properties && name !in statics
    }

    method Tracked(properties: seq<string>, o: Obj) returns (r: Result<set<string>, ContractError>)
      requires Alive(o)
      ensures r.Ok? <==> !(lives[o].kind.Scalar? && mode.Check?) || Followed(properties) == {}
      ensures r.Ok? ==> r.value == Followed(properties)
    {
      var checked: set<string> := {};
      for i := 0 to |properties|
        invariant checked == Followed(properties[..i])
        invariant lives[o].kind.Scalar? && mode.Check? ==> checked == {}
      {
        var name := properties[i];
        assert properties[..i + 1] == properties[..i] + [name];
        if name !in statics {
          assert name in Followed(properties);
          if lives[o].kind.Scalar? && mode.Check? { return Err(CannotCarry(name)); }
          checked := checked + {name};
        }
      }
      assert properties[..|properties|] == properties;
      return Ok(checked);
    }

    /** In verify mode every predicate must be registered and hold. */
    predicate Verifies(properties: set<string>, o: Obj)
      reads this
    {
      mode.Verify? ==> forall name :: name in properties ==> name in predicates && predicates[name](o)
    }

    method Verified(properties: set<string>, o: Obj) returns (problem: Option<ContractError>)
      ensures problem.None? <==> Verifies(properties, o)
    {
      if !mode.Verify? { return None; }
      var left := properties;
      while left != {}
        invariant left <= properties
        invariant forall name :: name in properties && name !in left ==> name in predicates && predicates[name](o)
      {
        var name :| name in left;
        if name !in predicates { return Some(NoPredicate(name)); }
        if !predicates[name](o) { return Some(DoesNotHold(name)); }
        left := left - {name};
      }
      return None;
    }

    /** produces(value, ...): the value now carries these properties too. */
    method Produces(o: Obj, properties: seq<string>, newRef: Ref) returns (problem: Option<ContractError>)
      requires Valid() && Alive(o) && newRef !in targets
      modifies this`entries, this`targets, this`declared
      ensures Valid()
      ensures forall p :: p != o ==> Declared(p) == old(Declared(p))
      ensures Declared(o) == old(Declared(o))
        + (if problem.None? && !mode.Off? && !lives[o].kind.Scalar? then old(Followed(properties)) else {})
      ensures problem.Some? ==> declared == old(declared)
      ensures problem.None? <==>
        (mode.Off?
         || ((lives[o].kind.Scalar? && mode.Check? ==> Followed(properties) == {}) &&
              Verifies(Followed(properties), o)))
    {
      hide Valid;
      if mode.Off? { return None; }
      var added := Tracked(properties, o);
      if added.Err? { return Some(added.error); }
      problem := Verified(added.value, o);
      if problem.Some? { return; }
      var found := Recorded(o);
      if lives[o].kind.Scalar? { ScalarsCarryNothing(o); }
      Record(o, found + added.value, newRef);
    }

    lemma {:induction false} ScalarsCarryNothing(o: Obj)
      requires Valid() && o in lives && lives[o].kind.Scalar?
      ensures Declared(o) == {}
    {
    }

    /** preserves_except(result, source, ...), and preserves when nothing is dropped. */
    method Preserves(result: Obj, source: Obj, dropped: set<string>, newRef: Ref)
      returns (problem: Option<ContractError>)
      requires Valid() && Alive(result) && Alive(source) && newRef !in targets
      modifies this`entries, this`targets, this`declared
      ensures Valid()
      ensures forall p :: p != result ==> Declared(p) == old(Declared(p))
      ensures Declared(result) == old(Declared(result))
        + (if problem.None? && !mode.Off? && !lives[result].kind.Scalar?
           then (set name | name in old(Declared(source)) && name !in dropped && name !in statics) else {})
      ensures problem.Some? <==>
        (mode.Check? && lives[result].kind.Scalar?
         && exists name :: name in old(Declared(source)) && name !in dropped && name !in statics)
    {
      hide Valid;
      if mode.Off? { return None; }
      var carriedOver := Recorded(source);
      carriedOver := carriedOver - dropped;
      ghost var carried := set name | name in Declared(source) && name !in dropped && name !in statics;
      assert carried == carriedOver - statics;
      if carried != {} {
        ghost var some :| some in carried;
        assert some in Declared(source) && some !in dropped && some !in statics;
      }
      assert forall name :: name in Declared(source) && name !in dropped && name !in statics ==> name in carried;
      if carriedOver == {} { return None; }
      var names := AsSequence(carriedOver);
      var tracked := Tracked(names, result);
      if tracked.Err? { return Some(tracked.error); }
      var found := Recorded(result);
      if lives[result].kind.Scalar? { ScalarsCarryNothing(result); }
      assert tracked.value == carried;
      Record(result, found + tracked.value, newRef);
      problem := None;
    }

    method AsSequence(names: set<string>) returns (listed: seq<string>)
      ensures forall name :: name in listed <==> name in names
    {
      listed := [];
      var left := names;
      while left != {}
        invariant left <= names && forall name :: name in listed <==> name in names && name !in left
      {
        var name :| name in left;
        listed := listed + [name];
        left := left - {name};
      }
    }

    /** requires(value, ...): passes exactly when this very object carries everything that is followed. */
    method Requires(o: Obj, properties: seq<string>) returns (problem: Option<ContractError>)
      requires Valid() && Alive(o)
      ensures mode.Off? ==> problem.None?
      ensures !mode.Off? && !lives[o].kind.Scalar? ==>
        (problem.None? <==> Followed(properties) <= Declared(o) && Verifies(Followed(properties), o))
      ensures !mode.Off? && lives[o].kind.Scalar? ==>
        (problem.None? <==> (mode.Check? ==> Followed(properties) == {}) && Verifies(Followed(properties), o))
    {
      hide Valid;
      if mode.Off? { return None; }
      var required := Tracked(properties, o);
      if required.Err? { return Some(required.error); }
      if !lives[o].kind.Scalar? {
        var found := Recorded(o);
        var missing := required.value - found;
        if missing != {} {
          var name :| name in missing;
          assert name in required.value && name !in found;
          return Some(Missing(name));
        }
        assert forall name :: name in required.value ==> name !in missing;
        assert required.value <= found;
      }
      problem := Verified(required.value, o);
    }
  }
}
