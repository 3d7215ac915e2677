/** The model engine on objects: a record instance owns one fresh copy of
    each declared field prototype; construction loads it from an optional
    compound and `Save` writes it into the caller's compound in place. */
module Models {
  import opened Tags
  import opened Fields
  import opened Schema

  /** A class attribute as reflection lists it: a field prototype, or
      anything else (a method, a constant), which construction ignores. */
  datatype Attr = FieldAttr(field: Field) | OtherAttr

  /** The field prototypes among a record type's attributes, in the order
      they are listed. */
  function FieldMembers(members: seq<(string, Attr)>): seq<(string, Field)>
    decreases |members|
  {
    if members == [] then []
    else
      var rest := FieldMembers(members[1..]);
      if members[0].1.FieldAttr? then [(members[0].0, members[0].1.field)] + rest else rest
  }

  /** Every listed prototype comes from a field attribute under the same id. */
  lemma {:induction false} FieldMembersSound(members: seq<(string, Attr)>)
    ensures forall k :: 0 <= k < |FieldMembers(members)| ==>
      (FieldMembers(members)[k].0, FieldAttr(FieldMembers(members)[k].1)) in members
    decreases |members|
  {
    if members != [] {
      var tail := members[1..];
      FieldMembersSound(tail);
      var r, rest := FieldMembers(members), FieldMembers(tail);
      var head := if members[0].1.FieldAttr? then [(members[0].0, members[0].1.field)] else [];
      assert r == head + rest;
      forall k | |head| <= k < |r|
        ensures (r[k].0, FieldAttr(r[k].1)) in members
      {
        assert r[k] == rest[k - |head|];
        assert (rest[k - |head|].0, FieldAttr(rest[k - |head|].1)) in tail;
        var i :| 0 <= i < |tail| && tail[i] == (r[k].0, FieldAttr(r[k].1));
        assert members[i + 1] == tail[i];
      }
    }
  }

  /** Every field attribute is listed under its id. */
  lemma {:induction false} FieldMembersComplete(members: seq<(string, Attr)>)
    ensures forall i :: 0 <= i < |members| && members[i].1.FieldAttr? ==>
      (members[i].0, members[i].1.field) in FieldMembers(members)
    decreases |members|
  {
    if members != [] {
      var tail := members[1..];
      FieldMembersComplete(tail);
      forall i | 0 < i < |members| && members[i].1.FieldAttr?
        ensures (members[i].0, members[i].1.field) in FieldMembers(members)
      {
        assert tail[i - 1] == members[i];
      }
    }
  }

  /** Attributes with pairwise distinct ids, as reflection lists them, give
      prototypes with pairwise distinct ids: with `FieldMembersSound` and
      `FieldMembersComplete`, each field attribute is listed exactly once. */
  lemma {:induction false} FieldMembersDistinct(members: seq<(string, Attr)>)
    requires forall i, j :: 0 <= i < j < |members| ==> members[i].0 != members[j].0
    ensures forall k, l :: 0 <= k < l < |FieldMembers(members)| ==>
      FieldMembers(members)[k].0 != FieldMembers(members)[l].0
    decreases |members|
  {
    if members != [] {
      var tail := members[1..];
      forall i, j | 0 <= i < j < |tail| ensures tail[i].0 != tail[j].0 {
        assert tail[i] == members[i + 1] && tail[j] == members[j + 1];
      }
      FieldMembersDistinct(tail);
      var rest := FieldMembers(tail);
      if members[0].1.FieldAttr? {
        FieldMembersSound(tail);
        forall l | 0 <= l < |rest| ensures rest[l].0 != members[0].0 {
          assert (rest[l].0, FieldAttr(rest[l].1)) in tail;
          var i :| 0 <= i < |tail| && tail[i] == (rest[l].0, FieldAttr(rest[l].1));
          assert members[i + 1] == tail[i];
        }
        var r := FieldMembers(members);
        assert r == [(members[0].0, members[0].1.field)] + rest;
        forall k, l | 0 <= k < l < |r| ensures r[k].0 != r[l].0 {
          assert r[l] == rest[l - 1];
          if k > 0 {
            assert r[k] == rest[k - 1];
          }
        }
      } else {
        assert FieldMembers(members) == rest;
      }
    }
  }

  /** Discovery keeps the listed order and visits each attribute once: the
      prototypes of two consecutive runs of attributes are those of the
      first run followed by those of the second. */
  lemma {:induction false} FieldMembersAppend(a: seq<(string, Attr)>, b: seq<(string, Attr)>)
    ensures FieldMembers(a + b) == FieldMembers(a) + FieldMembers(b)
    decreases |a|
  {
    if a != [] {
      var head := if a[0].1.FieldAttr? then [(a[0].0, a[0].1.field)] else [];
      assert (a + b)[0] == a[0] && (a + b)[1..] == a[1..] + b;
      assert FieldMembers(a + b) == head + FieldMembers(a[1..] + b);
      assert FieldMembers(a) == head + FieldMembers(a[1..]);
      FieldMembersAppend(a[1..], b);
      assert head + (FieldMembers(a[1..]) + FieldMembers(b)) == (head + FieldMembers(a[1..])) + FieldMembers(b);
    } else {
      assert a + b == b;
    }
  }

  /** A single attribute contributes its field prototype when it is one, and
      nothing otherwise; with `FieldMembersAppend` this fixes the result for
      every attribute sequence. */
  lemma FieldMembersSingle(m: (string, Attr))
    ensures FieldMembers([m]) == if m.1.FieldAttr? then [(m.0, m.1.field)] else []
  {
    assert [m][1..] == [];
  }

  /** The objects a sequence of attached fields refers to. */
  function Objects(fs: seq<(string, Field)>): set<Field>
  {
    set k | 0 <= k < |fs| :: fs[k].1
  }

  /** The current state of each attached field, under its attribute id. */
  function States(fs: seq<(string, Field)>): (r: seq<Decl>)
    reads Objects(fs)
    ensures |r| == |fs|
    ensures forall k :: 0 <= k < |fs| ==> r[k] == (fs[k].0, fs[k].1.State())
  {
    seq(|fs|, k requires 0 <= k < |fs| reads Objects(fs) => (fs[k].0, fs[k].1.State()))
  }

  lemma StatesSnoc(fs: seq<(string, Field)>, id: string, f: Field)
    ensures States(fs + [(id, f)]) == States(fs) + [(id, f.State())]
  {
  }

  /** The compound construction loads from, if one is given. */
  function Source(compound: Compound?): Option<map<Obj, Tag>>
    reads compound
  {
    if compound == null then None else Some(compound.entries)
  }

  /** A record instance: its fields, each attached under its attribute id. */
  class Model {
    var fields: seq<(string, Field)>
    ghost var Repr: set<Field>

    /** Every attached field is in `Repr`, and no field is attached twice. */
    ghost predicate Valid()
      reads this
    {
      && Objects(fields) <= Repr
      && forall j, k :: 0 <= j < k < |fields| ==> fields[j].1 != fields[k].1
    }

    ghost function Views(): seq<Decl>
      reads this, Repr
      requires Valid()
    {
      States(fields)
    }

    constructor ()
      ensures Valid() && fields == [] && Repr == {}
    {
      fields := [];
      Repr := {};
    }

    /** `setattr(self, id, field)` for a field not yet attached. */
    method Attach(id: string, f: Field)
      requires Valid() && f !in Repr
      modifies this
      ensures Valid()
      ensures fields == old(fields) + [(id, f)] && Repr == old(Repr) + {f}
    {
      fields := fields + [(id, f)];
      Repr := Repr + {f};
    }

    /** `save`: every field writes a tag of its kind holding its value under
        its name into `compound`; the instance is left as it was. */
    method Save(compound: Compound)
      requires Valid()
      modifies compound
      ensures compound.entries == SaveAll(old(compound.entries), Views())
    {
      var i := 0;
      while i < |fields|
        invariant 0 <= i <= |fields|
        invariant SaveAll(compound.entries, Views()[i..]) == SaveAll(old(compound.entries), Views())
      {
        var f := fields[i].1;
        assert Views()[i..][1..] == Views()[i + 1..];
        compound.Set(f.Name(), Tag(f.kind, f.Value()));
        i := i + 1;
      }
    }
  }

  /** The body of the construction loop for the copy `local` of prototype
      state `proto`, declared under `id`: resolve its name, then, when a
      compound is given, load its value from it or report the error. */
  method ResolveAndLoad(id: string, local: Field, compound: Compound?, ghost proto: FieldState)
    returns (err: Option<LoadError>)
    requires local.kind == proto.kind && local.options == Initialized(proto.options)
    modifies local
    ensures err.None? ==> Step((id, proto), Source(compound)) == Ok((id, local.State()))
    ensures err.Some? ==> Step((id, proto), Source(compound)) == Err(err.value)
  {
    if local.Name() == Null {
      local.SetName(Str(id));
    }
    if compound != null {
      var tag := compound.Get(local.Name());
      if tag.None? && !Truthy(local.Optional()) {
        return Some(ModelError(local.Name()));
      }
      if tag.None? {
        return Some(NoneDeref(local.Name()));
      }
      local.SetValue(tag.value.value);
    }
    err := None;
  }

  /** Construction of a record instance from the record type's attributes,
      listed as reflection lists them (by attribute id), with `compound` null
      when none is given. Each field prototype gets a fresh copy attached
      under its id; the prototypes themselves are left as they were. */
  method Construct(members: seq<(string, Attr)>, compound: Compound?) returns (r: Result<Model>)
    ensures var expected := Load(States(FieldMembers(members)), Source(compound));
      && (expected.Ok? ==>
            r.Ok? && fresh(r.value) && r.value.Valid() && fresh(r.value.Repr) &&
            r.value.Views() == expected.value)
      && (expected.Err? ==> r == Err(expected.error))
    ensures States(FieldMembers(members)) == old(States(FieldMembers(members)))
  {
    var declared := FieldMembers(members);
    r := ConstructFrom(declared, compound);
  }

  /** One turn of the construction loop for prototype `proto` declared
      under `id`: attach a fresh copy of it to `m`, resolve its name and,
      when a compound is given, load its value or report the error. */
  method AttachAndLoad(m: Model, id: string, proto: Field, compound: Compound?)
    returns (err: Option<LoadError>)
    requires m.Valid()
    modifies m
    ensures m.Valid() && fresh(m.Repr - old(m.Repr))
    ensures var step := Step((id, proto.State()), Source(compound));
      && (err.None? ==> step.Ok? && m.Views() == old(m.Views()) + [step.value])
      && (err.Some? ==> step == Err(err.value))
  {
    ghost var others := m.fields;
    ghost var before := m.Views();
    var local := proto.Copy();
    assert local !in Objects(others);
    m.Attach(id, local);
    err := ResolveAndLoad(id, local, compound, proto.State());
    if err.None? {
      assert States(others) == before;
      StatesSnoc(others, id, local);
    }
  }

  /** One turn of the construction loop over `declared`, tied to the chain of
      their steps: the instance's fields grow by step `i`'s result, or the
      whole construction fails with step `i`'s error. */
  method LoadNext(m: Model, declared: seq<(string, Field)>, i: nat, compound: Compound?,
                  ghost protos: seq<Decl>, ghost steps: seq<Result<Decl>>)
    returns (err: Option<LoadError>)
    requires i < |declared| && m.Valid()
    requires States(declared) == protos && steps == Steps(protos, Source(compound))
    requires Chain(steps[..i]) == Ok(m.Views())
    modifies m
    ensures m.Valid() && fresh(m.Repr - old(m.Repr))
    ensures States(declared) == protos
    ensures err.None? ==> Chain(steps[..i + 1]) == Ok(m.Views())
    ensures err.Some? ==> Chain(steps) == Err(err.value)
  {
    assert steps[i] == Step((declared[i].0, declared[i].1.State()), Source(compound));
    err := AttachAndLoad(m, declared[i].0, declared[i].1, compound);
    if err.Some? {
      ChainFirstFailure(steps, i);
    } else {
      ChainSnoc(steps, i);
    }
  }

  /** The construction loop over the declared field prototypes, run on an
      instance with no fields yet: it ends with the instance holding the
      chained result of every step, or with the first failing step's error. */
  method LoadAll(m: Model, declared: seq<(string, Field)>, compound: Compound?,
                 ghost protos: seq<Decl>, ghost steps: seq<Result<Decl>>)
    returns (err: Option<LoadError>)
    requires m.Valid() && m.fields == []
    requires States(declared) == protos && steps == Steps(protos, Source(compound))
    modifies m
    ensures m.Valid() && fresh(m.Repr - old(m.Repr))
    ensures States(declared) == protos
    ensures err.None? ==> Chain(steps) == Ok(m.Views())
    ensures err.Some? ==> Chain(steps) == Err(err.value)
  {
    var i := 0;
    assert steps[..0] == [];
    while i < |declared|
      invariant 0 <= i <= |declared| == |steps|
      invariant m.Valid() && fresh(m.Repr - old(m.Repr))
      invariant States(declared) == protos
      invariant Chain(steps[..i]) == Ok(m.Views())
    {
      err := LoadNext(m, declared, i, compound, protos, steps);
      if err.Some? {
        return;
      }
      i := i + 1;
    }
    assert steps[..i] == steps;
    err := None;
  }

  /** Construction of an instance from the declared field prototypes. */
  method ConstructFrom(declared: seq<(string, Field)>, compound: Compound?) returns (r: Result<Model>)
    ensures var expected := Load(States(declared), Source(compound));
      && (expected.Ok? ==>
            r.Ok? && fresh(r.value) && r.value.Valid() && fresh(r.value.Repr) &&
            r.value.Views() == expected.value)
      && (expected.Err? ==> r == Err(expected.error))
    ensures States(declared) == old(States(declared))
  {
    var m := new Model();
    ghost var protos := States(declared);
    var err := LoadAll(m, declared, compound, protos, Steps(protos, Source(compound)));
    r := if err.Some? then Err(err.value) else Ok(m);
  }

  /** `a.<id>.value = v` on an instance `a` whose fields are shared neither
      with another instance `b` nor with the prototypes `declared` (as
      `Construct`, which attaches fresh copies only, guarantees): `b` and
      the prototypes keep their state. */
  method SetValueIsolated(a: Model, k: nat, v: Obj, b: Model, declared: seq<(string, Field)>)
    requires a.Valid() && b.Valid() && k < |a.fields|
    requires a.Repr !! b.Repr && a.Repr !! Objects(declared)
    modifies a.fields[k].1
    ensures a.Valid() && a.fields == old(a.fields)
    ensures a.Views() == old(a.Views())[k := (a.fields[k].0, a.fields[k].1.State())]
    ensures a.fields[k].1.options == WithValue(old(a.fields[k].1.options), v)
    ensures b.Views() == old(b.Views())
    ensures States(declared) == old(States(declared))
  {
    var f := a.fields[k].1;
    assert f in Objects(a.fields);
    f.SetValue(v);
    forall j | 0 <= j < |a.fields| && j != k
      ensures a.fields[j].1 != f
    {
    }
  }
}
