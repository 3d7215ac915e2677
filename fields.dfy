/** The field descriptor: one mutable option map per field, read and written
    through the `name`, `optional` and `value` properties. */
module Fields {
  import opened Tags

  /** The keyword options a field was built with (`name`, `default`,
      `optional`, `value` and any other keyword, kept verbatim). */
  type Options = map<string, Obj>

  /** The `name` property: the `name` option, Null when unset. */
  function NameOf(o: Options): Obj
  {
    if "name" in o then o["name"] else Null
  }

  /** The `optional` property: the `optional` option, False when unset. */
  function OptionalOf(o: Options): Obj
  {
    if "optional" in o then o["optional"] else Bool(false)
  }

  /** The `value` property: the `value` option, Null when unset. */
  function ValueOf(o: Options): Obj
  {
    if "value" in o then o["value"] else Null
  }

  /** `kwargs.get('default')` */
  function DefaultOf(o: Options): Obj
  {
    if "default" in o then o["default"] else Null
  }

  /** Unset properties read as None (`name`, `value`) and False (`optional`). */
  lemma UnsetReads(o: Options)
    ensures "name" !in o ==> NameOf(o) == Null
    ensures "optional" !in o ==> OptionalOf(o) == Bool(false)
    ensures "value" !in o ==> ValueOf(o) == Null
  {
  }

  /** `a` and `b` hold the same options, except possibly under `key`. */
  ghost predicate SameExcept(a: Options, b: Options, key: string)
  {
    forall k :: k != key ==> (k in a <==> k in b) && (k in a ==> a[k] == b[k])
  }

  /** The option map after the `name` setter. */
  function WithName(o: Options, v: Obj): (r: Options)
    ensures NameOf(r) == v
    ensures OptionalOf(r) == OptionalOf(o) && ValueOf(r) == ValueOf(o) && DefaultOf(r) == DefaultOf(o)
    ensures SameExcept(o, r, "name")
  {
    o["name" := v]
  }

  /** The option map after the `optional` setter. */
  function WithOptional(o: Options, v: Obj): (r: Options)
    ensures OptionalOf(r) == v
    ensures NameOf(r) == NameOf(o) && ValueOf(r) == ValueOf(o) && DefaultOf(r) == DefaultOf(o)
    ensures SameExcept(o, r, "optional")
  {
    o["optional" := v]
  }

  /** The option map after the `value` setter. */
  function WithValue(o: Options, v: Obj): (r: Options)
    ensures ValueOf(r) == v
    ensures NameOf(r) == NameOf(o) && OptionalOf(r) == OptionalOf(o) && DefaultOf(r) == DefaultOf(o)
    ensures SameExcept(o, r, "value")
  {
    o["value" := v]
  }

  /** The option map of a field just built from keyword options `o`: the
      constructor stores `o` and then sets `value` to the `default` option,
      discarding any explicit `value` option. */
  function Initialized(o: Options): (r: Options)
    ensures ValueOf(r) == DefaultOf(o)
    ensures NameOf(r) == NameOf(o) && OptionalOf(r) == OptionalOf(o) && DefaultOf(r) == DefaultOf(o)
    ensures SameExcept(o, r, "value")
  {
    WithValue(o, DefaultOf(o))
  }

  /** Rebuilding a field from the options of a built field changes nothing:
      a copy of a copy holds the same options as the copy. */
  lemma InitializedIdempotent(o: Options)
    ensures Initialized(Initialized(o)) == Initialized(o)
  {
  }

  /** A field's state as a value: its variant's kind and its option map. */
  datatype FieldState = FieldState(kind: FieldKind, options: Options)

  /** A field descriptor; the seven variants (byte, short, int, float, long,
      double, string) differ only in `kind`. */
  class Field {
    const kind: FieldKind
    var options: Options

    /** `__init__(**options)` of the variant with tag `kind`. */
    constructor (kind: FieldKind, options: Options)
      ensures this.kind == kind && this.options == Initialized(options)
    {
      this.kind := kind;
      this.options := options;
      new;
      SetValue(DefaultOf(options));
    }

    function State(): FieldState
      reads this
    {
      FieldState(kind, options)
    }

    function Name(): Obj
      reads this
    {
      NameOf(options)
    }

    function Optional(): Obj
      reads this
    {
      OptionalOf(options)
    }

    function Value(): Obj
      reads this
    {
      ValueOf(options)
    }

    method SetName(v: Obj)
      modifies this
      ensures options == WithName(old(options), v)
    {
      options := options["name" := v];
    }

    method SetOptional(v: Obj)
      modifies this
      ensures options == WithOptional(old(options), v)
    {
      options := options["optional" := v];
    }

    method SetValue(v: Obj)
      modifies this
      ensures options == WithValue(old(options), v)
    {
      options := options["value" := v];
    }

    /** `_copy`: a new field of the same variant, rebuilt from this field's
        option map; it owns its own map, so nothing done to it reaches `this`. */
    method Copy() returns (c: Field)
      ensures fresh(c)
      ensures c.kind == kind && c.options == Initialized(options)
    {
      c := new Field(kind, options);
    }
  }
}
