/** The model engine on values: what construction and `save` compute, given
    the declared fields' prototypes as values, and what is proved about it. */
module Schema {
  import opened Tags
  import opened Fields

  /** A declared field: its attribute id and the state of its prototype. */
  type Decl = (string, FieldState)

  /** How construction fails: `ModelError` for an absent required field, and
      `NoneDeref` for the attribute error of reading `.value` on None. */
  datatype LoadError = ModelError(name: Obj) | NoneDeref(name: Obj)

  datatype Result<+T> = Ok(value: T) | Err(error: LoadError)

  /** The instance's copy of a prototype declared under `id`, with its name
      resolved: a copy without a name takes the attribute id. */
  function Instantiate(id: string, proto: FieldState): (f: FieldState)
    ensures f.kind == proto.kind
    ensures NameOf(f.options) == if NameOf(proto.options) == Null then Str(id) else NameOf(proto.options)
    ensures NameOf(f.options) != Null
    ensures OptionalOf(f.options) == OptionalOf(proto.options)
    ensures ValueOf(f.options) == DefaultOf(proto.options)
    ensures DefaultOf(f.options) == DefaultOf(proto.options)
  {
    var copy := Initialized(proto.options);
    FieldState(proto.kind, if NameOf(copy) == Null then WithName(copy, Str(id)) else copy)
  }

  /** The key a declared field is loaded from and saved under. */
  function ResolvedName(d: Decl): Obj
  {
    NameOf(Instantiate(d.0, d.1).options)
  }

  /** The error an absent field raises, as the code is written. */
  function AbsentError(d: Decl): LoadError
  {
    if Truthy(OptionalOf(d.1.options)) then NoneDeref(ResolvedName(d)) else ModelError(ResolvedName(d))
  }

  /** One turn of the construction loop: copy, resolve the name and, when
      a compound is given, load the value stored under that name. */
  function Step(d: Decl, source: Option<map<Obj, Tag>>): Result<Decl>
  {
    var f := Instantiate(d.0, d.1);
    match source
    case None => Ok((d.0, f))
    case Some(c) =>
      var n := NameOf(f.options);
      if n !in c && !Truthy(OptionalOf(f.options)) then Err(ModelError(n))
      else if n !in c then Err(NoneDeref(n))
      else Ok((d.0, FieldState(f.kind, WithValue(f.options, c[n].value))))
  }

  /** A turn of the loop succeeds exactly when no compound is given or the
      resolved name is a key of it; the loaded field keeps its id, kind,
      name and optional flag and holds the default, or the stored payload
      verbatim; an absent field raises the error `AbsentError` gives. */
  lemma StepMeaning(d: Decl, source: Option<map<Obj, Tag>>)
    ensures var r := Step(d, source);
      && (r.Ok? <==> source.None? || ResolvedName(d) in source.value)
      && (r.Err? ==> r.error == AbsentError(d))
    ensures var r := Step(d, source);
      r.Ok? ==>
        && r.value.0 == d.0 && r.value.1.kind == d.1.kind
        && NameOf(r.value.1.options) == ResolvedName(d)
        && OptionalOf(r.value.1.options) == OptionalOf(d.1.options)
        && ValueOf(r.value.1.options) ==
             (if source.None? then DefaultOf(d.1.options) else source.value[ResolvedName(d)].value)
  {
  }

  /** Fail-fast sequencing of step results: the values of all of them when
      every one succeeds, otherwise the error of the first that fails. */
  function Chain<T>(rs: seq<Result<T>>): Result<seq<T>>
    decreases |rs|
  {
    if rs == [] then Ok([])
    else
      match Chain(rs[..|rs| - 1])
      case Err(e) => Err(e)
      case Ok(done) =>
        match rs[|rs| - 1]
        case Err(e) => Err(e)
        case Ok(x) => Ok(done + [x])
  }

  /** A chain succeeds exactly when every step does, and then holds every
      step's value, in order. */
  lemma {:induction false} ChainShape<T>(rs: seq<Result<T>>)
    ensures Chain(rs).Ok? <==> forall i :: 0 <= i < |rs| ==> rs[i].Ok?
    ensures Chain(rs).Ok? ==>
      |Chain(rs).value| == |rs| && forall i :: 0 <= i < |rs| ==> Chain(rs).value[i] == rs[i].value
    decreases |rs|
  {
    if rs != [] {
      var n := |rs| - 1;
      var init := rs[..n];
      ChainShape(init);
      if Chain(rs).Ok? {
        var done := Chain(init).value;
        var all := Chain(rs).value;
        assert all == done + [rs[n].value];
        forall i | 0 <= i < |rs|
          ensures rs[i].Ok? && all[i] == rs[i].value
        {
          if i < n {
            assert init[i] == rs[i];
            assert all[i] == done[i];
          }
        }
      } else if Chain(init).Ok? {
        assert rs[n].Err?;
      } else {
        var i :| 0 <= i < n && init[i].Err?;
        assert init[i] == rs[i];
      }
    }
  }

  /** One more successful step extends a successful chain by its value. */
  lemma ChainSnoc<T>(rs: seq<Result<T>>, i: nat)
    requires i < |rs| && Chain(rs[..i]).Ok? && rs[i].Ok?
    ensures Chain(rs[..i + 1]) == Ok(Chain(rs[..i]).value + [rs[i].value])
  {
    assert rs[..i + 1][..i] == rs[..i];
  }

  /** Once the steps before `j` have succeeded and step `j` fails, the chain
      fails with step `j`'s error, whatever follows. */
  lemma {:induction false} ChainFirstFailure<T>(rs: seq<Result<T>>, j: nat)
    requires j < |rs| && Chain(rs[..j]).Ok? && rs[j].Err?
    ensures Chain(rs) == Err(rs[j].error)
    decreases |rs|
  {
    var n := |rs| - 1;
    var init := rs[..n];
    if n > j {
      assert init[..j] == rs[..j] && init[j] == rs[j];
      ChainFirstFailure(init, j);
      assert Chain(init).Err?;
    } else {
      assert init == rs[..j];
    }
  }

  /** A failed chain has a first failing step, and its error is that step's. */
  lemma {:induction false} ChainFirstError<T>(rs: seq<Result<T>>) returns (j: nat)
    requires Chain(rs).Err?
    ensures j < |rs| && rs[j].Err? && forall i :: 0 <= i < j ==> rs[i].Ok?
    ensures Chain(rs) == Err(rs[j].error)
    decreases |rs|
  {
    var n := |rs| - 1;
    var init := rs[..n];
    if Chain(init).Err? {
      j := ChainFirstError(init);
      assert init[j] == rs[j];
      forall i | 0 <= i < j ensures rs[i].Ok? {
        assert init[i] == rs[i];
      }
    } else {
      ChainShape(init);
      j := n;
    }
  }

  /** The step of each declared field, in enumeration order. */
  function Steps(ps: seq<Decl>, source: Option<map<Obj, Tag>>): seq<Result<Decl>>
  {
    seq(|ps|, i requires 0 <= i < |ps| => Step(ps[i], source))
  }

  /** Construction over the declared fields in enumeration order: the first
      failing field decides the outcome. */
  function Load(ps: seq<Decl>, source: Option<map<Obj, Tag>>): Result<seq<Decl>>
  {
    Chain(Steps(ps, source))
  }

  /** `save`: each field in turn writes a tag of its kind holding its value
      under its name, overwriting what was there. */
  function SaveAll(into: map<Obj, Tag>, fs: seq<Decl>): map<Obj, Tag>
    decreases |fs|
  {
    if fs == [] then into
    else
      var f := fs[0].1;
      SaveAll(into[NameOf(f.options) := Tag(f.kind, ValueOf(f.options))], fs[1..])
  }

  /** Construction succeeds exactly when every field's step does, and then
      yields one field per declaration, in order. */
  lemma LoadShape(ps: seq<Decl>, source: Option<map<Obj, Tag>>)
    ensures Load(ps, source).Ok? <==> forall i :: 0 <= i < |ps| ==> Step(ps[i], source).Ok?
    ensures Load(ps, source).Ok? ==>
      |Load(ps, source).value| == |ps| &&
      forall i :: 0 <= i < |ps| ==> Load(ps, source).value[i] == Step(ps[i], source).value
  {
    var rs := Steps(ps, source);
    ChainShape(rs);
    forall i | 0 <= i < |ps|
      ensures rs[i] == Step(ps[i], source)
    {
    }
  }

  /** Once the fields before `j` have loaded and field `j` fails, construction
      fails with field `j`'s error, whatever follows. */
  lemma LoadFirstFailure(ps: seq<Decl>, j: nat, source: Option<map<Obj, Tag>>)
    requires j < |ps| && Step(ps[j], source).Err?
    requires forall i :: 0 <= i < j ==> Step(ps[i], source).Ok?
    ensures Load(ps, source) == Err(Step(ps[j], source).error)
  {
    var rs := Steps(ps, source);
    ChainShape(rs[..j]);
    ChainFirstFailure(rs, j);
  }

  /** Without a compound, construction never fails and every field holds its
      default under its resolved name. */
  lemma {:induction false} NoCompoundLoadsDefaults(ps: seq<Decl>)
    ensures Load(ps, None).Ok?
    ensures |Load(ps, None).value| == |ps|
    ensures forall i :: 0 <= i < |ps| ==>
      var f := Load(ps, None).value[i];
      f.0 == ps[i].0 && f.1 == Instantiate(ps[i].0, ps[i].1) &&
      ValueOf(f.1.options) == DefaultOf(ps[i].1.options)
  {
    LoadShape(ps, None);
  }

  /** With a compound, construction succeeds if and only if every field's
      resolved name is a key of it. */
  lemma {:induction false} LoadSucceedsIff(ps: seq<Decl>, c: map<Obj, Tag>)
    ensures Load(ps, Some(c)).Ok? <==> forall i :: 0 <= i < |ps| ==> ResolvedName(ps[i]) in c
  {
    LoadShape(ps, Some(c));
    forall i | 0 <= i < |ps| {
      StepMeaning(ps[i], Some(c));
    }
  }

  /** The first absent field decides the error: `ModelError` naming it when
      it is required, `NoneDeref` naming it when it is optional. */
  lemma {:induction false} FirstAbsentDecides(ps: seq<Decl>, c: map<Obj, Tag>, j: nat)
    requires j < |ps| && ResolvedName(ps[j]) !in c
    requires forall i :: 0 <= i < j ==> ResolvedName(ps[i]) in c
    ensures Load(ps, Some(c)) == Err(AbsentError(ps[j]))
    ensures Load(ps, Some(c)).error.ModelError? <==> !Truthy(OptionalOf(ps[j].1.options))
  {
    forall i | 0 <= i < j {
      StepMeaning(ps[i], Some(c));
    }
    StepMeaning(ps[j], Some(c));
    LoadFirstFailure(ps, j, Some(c));
  }

  /** A loaded field holds the payload of the tag under its name verbatim,
      whatever that tag's kind, and keeps its own kind and options. */
  lemma {:induction false} LoadedValues(ps: seq<Decl>, c: map<Obj, Tag>)
    requires Load(ps, Some(c)).Ok?
    ensures |Load(ps, Some(c)).value| == |ps|
    ensures forall i :: 0 <= i < |ps| ==>
      var f := Load(ps, Some(c)).value[i];
      f.0 == ps[i].0 && f.1.kind == ps[i].1.kind &&
      NameOf(f.1.options) == ResolvedName(ps[i]) &&
      OptionalOf(f.1.options) == OptionalOf(ps[i].1.options) &&
      ResolvedName(ps[i]) in c && ValueOf(f.1.options) == c[ResolvedName(ps[i])].value
  {
    LoadShape(ps, Some(c));
    forall i | 0 <= i < |ps| {
      StepMeaning(ps[i], Some(c));
    }
  }

  /** Keys that no field is named after keep what they held. */
  lemma {:induction false} SaveAllUntouched(into: map<Obj, Tag>, fs: seq<Decl>, n: Obj)
    requires forall i :: 0 <= i < |fs| ==> NameOf(fs[i].1.options) != n
    ensures n in SaveAll(into, fs) <==> n in into
    ensures n in into ==> SaveAll(into, fs)[n] == into[n]
    decreases |fs|
  {
    if fs != [] {
      SaveAllUntouched(into[NameOf(fs[0].1.options) := Tag(fs[0].1.kind, ValueOf(fs[0].1.options))], fs[1..], n);
    }
  }

  /** The last field with a given name decides the tag stored under it. */
  lemma {:induction false} SaveAllLastWins(into: map<Obj, Tag>, fs: seq<Decl>, k: nat)
    requires k < |fs|
    requires forall j :: k < j < |fs| ==> NameOf(fs[j].1.options) != NameOf(fs[k].1.options)
    ensures NameOf(fs[k].1.options) in SaveAll(into, fs)
    ensures SaveAll(into, fs)[NameOf(fs[k].1.options)] == Tag(fs[k].1.kind, ValueOf(fs[k].1.options))
    decreases |fs|
  {
    var into' := into[NameOf(fs[0].1.options) := Tag(fs[0].1.kind, ValueOf(fs[0].1.options))];
    if k == 0 {
      SaveAllUntouched(into', fs[1..], NameOf(fs[0].1.options));
    } else {
      SaveAllLastWins(into', fs[1..], k - 1);
    }
  }

  /** The index of the last field sharing field `i`'s name. */
  lemma {:induction false} LastWithName(fs: seq<Decl>, i: nat) returns (j: nat)
    requires i < |fs|
    ensures i <= j < |fs| && NameOf(fs[j].1.options) == NameOf(fs[i].1.options)
    ensures forall l :: j < l < |fs| ==> NameOf(fs[l].1.options) != NameOf(fs[i].1.options)
    decreases |fs| - i
  {
    if l :| i < l < |fs| && NameOf(fs[l].1.options) == NameOf(fs[i].1.options) {
      j := LastWithName(fs, l);
    } else {
      j := i;
    }
  }

  /** Loading from `c` and saving into an empty compound writes, under every
      field's resolved name, the payload `c` holds there, and writes nothing
      else. */
  lemma {:induction false} RoundTrip(ps: seq<Decl>, c: map<Obj, Tag>)
    requires Load(ps, Some(c)).Ok?
    ensures var out := SaveAll(map[], Load(ps, Some(c)).value);
      forall i :: 0 <= i < |ps| ==>
        ResolvedName(ps[i]) in c && ResolvedName(ps[i]) in out &&
        out[ResolvedName(ps[i])].value == c[ResolvedName(ps[i])].value
    ensures var out := SaveAll(map[], Load(ps, Some(c)).value);
      forall n :: n in out ==> exists i :: 0 <= i < |ps| && ResolvedName(ps[i]) == n
  {
    var fs := Load(ps, Some(c)).value;
    LoadedValues(ps, Some(c).value);
    var out := SaveAll(map[], fs);
    forall i | 0 <= i < |ps|
      ensures ResolvedName(ps[i]) in c && ResolvedName(ps[i]) in out
      ensures out[ResolvedName(ps[i])].value == c[ResolvedName(ps[i])].value
    {
      var j := LastWithName(fs, i);
      SaveAllLastWins(map[], fs, j);
    }
    forall n | n in out
      ensures exists i :: 0 <= i < |ps| && ResolvedName(ps[i]) == n
    {
      if forall i :: 0 <= i < |fs| ==> NameOf(fs[i].1.options) != n {
        SaveAllUntouched(map[], fs, n);
        assert false;
      }
    }
  }

  /** One turn of the construction loop as evidently intended: an absent
      optional field keeps its default instead of failing. */
  function StepIntended(d: Decl, source: Option<map<Obj, Tag>>): Result<Decl>
  {
    var f := Instantiate(d.0, d.1);
    match source
    case None => Ok((d.0, f))
    case Some(c) =>
      var n := NameOf(f.options);
      if n !in c && !Truthy(OptionalOf(f.options)) then Err(ModelError(n))
      else if n !in c then Ok((d.0, f))
      else Ok((d.0, FieldState(f.kind, WithValue(f.options, c[n].value))))
  }

  /** The step of each declared field as evidently intended. */
  function IntendedSteps(ps: seq<Decl>, source: Option<map<Obj, Tag>>): seq<Result<Decl>>
  {
    seq(|ps|, i requires 0 <= i < |ps| => StepIntended(ps[i], source))
  }

  /** Construction as evidently intended, failing fast on the first absent
      required field. */
  function LoadIntended(ps: seq<Decl>, source: Option<map<Obj, Tag>>): Result<seq<Decl>>
  {
    Chain(IntendedSteps(ps, source))
  }

  /** The intended construction succeeds if and only if every required field
      is present, and then an absent optional field holds its default while
      a present field holds the stored payload. */
  lemma IntendedKeepsDefaults(ps: seq<Decl>, c: map<Obj, Tag>)
    ensures LoadIntended(ps, Some(c)).Ok? <==>
      forall i :: 0 <= i < |ps| ==> ResolvedName(ps[i]) in c || Truthy(OptionalOf(ps[i].1.options))
    ensures LoadIntended(ps, Some(c)).Ok? ==>
      |LoadIntended(ps, Some(c)).value| == |ps| &&
      forall i :: 0 <= i < |ps| ==>
        var f := LoadIntended(ps, Some(c)).value[i];
        f.0 == ps[i].0 && NameOf(f.1.options) == ResolvedName(ps[i]) &&
        ValueOf(f.1.options) ==
          if ResolvedName(ps[i]) in c then c[ResolvedName(ps[i])].value else DefaultOf(ps[i].1.options)
  {
    var rs := IntendedSteps(ps, Some(c));
    ChainShape(rs);
    forall i | 0 <= i < |ps|
      ensures rs[i].Ok? <==> ResolvedName(ps[i]) in c || Truthy(OptionalOf(ps[i].1.options))
    {
    }
  }

  /** Wherever the code as written succeeds, or fails with `ModelError`, the
      intended construction gives the same outcome. */
  lemma IntendedAgrees(ps: seq<Decl>, source: Option<map<Obj, Tag>>)
    ensures Load(ps, source).Ok? ==> LoadIntended(ps, source) == Load(ps, source)
    ensures Load(ps, source).Err? && Load(ps, source).error.ModelError? ==>
      LoadIntended(ps, source) == Load(ps, source)
  {
    var rs := Steps(ps, source);
    var qs := IntendedSteps(ps, source);
    forall i | 0 <= i < |ps| && (rs[i].Ok? || rs[i].error.ModelError?)
      ensures qs[i] == rs[i]
    {
    }
    ChainShape(rs);
    if Chain(rs).Ok? {
      assert qs == rs;
    } else if Chain(rs).error.ModelError? {
      var j := ChainFirstError(rs);
      ChainShape(qs[..j]);
      ChainFirstFailure(qs, j);
    }
  }
}
