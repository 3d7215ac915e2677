# PyNBT schema layer, modelled in Dafny

PyNBT's `pynbt/model.py` maps a typed record onto an NBT compound, a
string-keyed map of tags. A record type declares fields as class attributes.
There are seven field variants: byte, short, int, float, long, double and
string. Each variant fixes the tag kind it saves as.

- **Field descriptor.** All of a field's state is one mutable option map.
  The properties `name`, `optional` and `value` read and write that map.
  `_copy` rebuilds a new field from the map.
- **Construction.** Building a record instance enumerates the field
  prototypes and attaches a private copy of each. A copy without a name
  takes its attribute id. When a compound is given, each copy then loads
  its value from that compound, and construction stops at the first field
  that is absent.
- **Save.** `save` writes every field of the instance into the caller's
  compound, in place.

Files and modules:

- `tags.dfy`, module `Tags`: what the layer needs from the tag codec.
  - `Obj` holds Python values. `Truthy` is Python truthiness.
  - `Kind` lists the tag kinds; `FieldKind` is the seven a field can declare.
  - `Tag` is a (kind, payload) pair.
  - `Compound` is a class holding `entries: map<Obj, Tag>`, with `get` and
    item assignment.
- `fields.dfy`, module `Fields`: the field descriptor.
  - Pure functions read and update an option map: `NameOf`, `OptionalOf`,
    `ValueOf`, `DefaultOf`, `WithName`, `WithOptional`, `WithValue`, and
    `Initialized` (the constructor's effect).
  - The `Field` class holds a constant `kind` and a mutable `options` map.
    Its setter methods and `Copy` are specified by those functions.
- `schema.dfy`, module `Schema`: construction and save on values.
  - `Step` is one turn of the construction loop. It works on a prototype's
    state.
  - `Chain` sequences step results and stops at the first failure. `Load`
    is the whole loop: `Chain` of every declared field's step.
  - `SaveAll` is `save`.
  - The lemmas state what these functions promise.
  - `StepIntended` and `LoadIntended` are the corrected construction (see
    Findings).
- `models.dfy`, module `Models`: the engine on objects.
  - The `Model` class keeps its attached fields in `fields`. `Model.Save`
    is the save loop.
  - `Construct` and `ConstructFrom` are the construction loop.
    `LoadAll` is the loop; `LoadNext`, `AttachAndLoad` and `ResolveAndLoad`
    are its body.
  - Each of these methods is proved against the functions in `Schema`.
- `scenario.dfy`, module `Scenario`: a `Player` record with a required
  `name` and an optional `health` that defaults to 20.

Reflection (`inspect.getmembers`) is replaced by an explicit sequence of
`(attribute id, Attr)` pairs. `Attr` is either a field prototype or any other
attribute. The sequence is taken in the order given, which stands for
`getmembers`' order (sorted by attribute id). `setattr(self, id, copy)`
appends `(id, copy)` to `Model.fields`. A construction that raises returns
`Err(ModelError(name))` or `Err(NoneDeref(name))` and no instance.

Where the documented design and the code differ, the model follows the code:

- An absent optional field does not keep its default. Construction reads
  `.value` of None and fails (see Findings).
- The error is `ModelError`.
- A copy is rebuilt from the prototype's current option map, not from the
  options the prototype was declared with. A name set on a class-level
  prototype is therefore inherited. Only `value` is reset to `default`.
- An explicit `value=` option is discarded at construction, because the
  constructor sets `value` to `default` through the setter.

## Model

| member | source | states |
|---|---|---|
| `Fields.UnsetReads` | pynbt/model.py:23-41 | unset `name` and `value` read as None and unset `optional` reads as False |
| `Fields.NameOf` | pynbt/model.py:23-25 | the `name` getter: the `name` option, None when unset; its contract is carried by `Fields.UnsetReads` and by `Fields.WithName`, which reads back what the setter stored |
| `Fields.OptionalOf` | pynbt/model.py:31-33 | the `optional` getter: the `optional` option, False when unset; its contract is carried by `Fields.UnsetReads` and `Fields.WithOptional` |
| `Fields.ValueOf` | pynbt/model.py:39-41 | the `value` getter: the `value` option, None when unset; its contract is carried by `Fields.UnsetReads` and `Fields.WithValue` |
| `Fields.DefaultOf` | pynbt/model.py:15 | `kwargs.get('default')`, the value a new field and every copy start with; its contract is carried by `Fields.Initialized` and `Schema.Instantiate` |
| `Fields.WithName` | pynbt/model.py:27-29 | after the `name` setter, `name` reads back the value set; every other option is unchanged |
| `Fields.WithOptional` | pynbt/model.py:35-37 | after the `optional` setter, `optional` reads back the value set; every other option is unchanged |
| `Fields.WithValue` | pynbt/model.py:43-45 | after the `value` setter, `value` reads back the value set; every other option is unchanged |
| `Fields.Initialized` | pynbt/model.py:13-15 | a newly built field's `value` is its `default` option (None if absent), even when a `value` option was passed; every other option is kept verbatim |
| `Fields.InitializedIdempotent` | pynbt/model.py:17-18 | rebuilding a field from a built field's options gives the same options |
| `Fields.Field.constructor` | pynbt/model.py:13-15 | the field keeps its variant's kind and holds `Initialized` of the options |
| `Fields.Field.Name` | pynbt/model.py:23-25 | the `name` getter on a field object reads that object's option map through `NameOf`, so it reads back what `SetName` stored |
| `Fields.Field.Optional` | pynbt/model.py:31-33 | the `optional` getter on a field object reads its option map through `OptionalOf` |
| `Fields.Field.Value` | pynbt/model.py:39-41 | the `value` getter on a field object reads its option map through `ValueOf` |
| `Fields.Field.SetName` | pynbt/model.py:27-29 | the option map becomes `WithName` of the old map |
| `Fields.Field.SetOptional` | pynbt/model.py:35-37 | the option map becomes `WithOptional` of the old map |
| `Fields.Field.SetValue` | pynbt/model.py:43-45 | the option map becomes `WithValue` of the old map |
| `Fields.Field.Copy` | pynbt/model.py:17-18 | the copy is a new object of the same kind; it holds the same options with `value` reset to `default`; the original is untouched |
| `Schema.Instantiate` | pynbt/model.py:86-91 | an instance's copy keeps its kind and optional flag and holds its default; its name is the explicit name, or the attribute id when the name is None; the resolved name is never None |
| `Schema.Step` | pynbt/model.py:86-104 | one turn of the construction loop on a prototype's state; its contract is carried by `Schema.StepMeaning` |
| `Schema.StepMeaning` | pynbt/model.py:89-104 | one field loads iff no compound is given or its resolved name is a key; it then holds the default or the stored payload verbatim (no kind check); an absent field fails with `ModelError` when it is required and `NoneDeref` when it is optional |
| `Schema.Chain` | pynbt/model.py:85-104 | the loop's fail-fast order: the first raising turn ends construction; its contract is carried by `Schema.ChainShape`, `Schema.ChainFirstFailure` and `Schema.ChainFirstError` |
| `Schema.ChainShape` | pynbt/model.py:85-104 | a run of turns succeeds iff every turn does, and then holds every turn's result in order |
| `Schema.ChainFirstFailure` | pynbt/model.py:98-104 | once the turns before `j` have succeeded and turn `j` raises, the run fails with turn `j`'s error, whatever follows |
| `Schema.Load` | pynbt/model.py:85-104 | the construction loop on values: `Chain` of every declared field's `Step`; its contract is carried by `Schema.LoadShape`, `Schema.LoadFirstFailure`, `Schema.LoadSucceedsIff`, `Schema.FirstAbsentDecides`, `Schema.LoadedValues` and `Schema.NoCompoundLoadsDefaults` |
| `Schema.ChainFirstError` | pynbt/model.py:85-104 | a construction that fails has a first failing field, every field before it loaded, and the error is that field's |
| `Schema.LoadShape` | pynbt/model.py:85-104 | construction succeeds iff every field's step does; it then yields one field per declaration, in order, under the same id |
| `Schema.LoadFirstFailure` | pynbt/model.py:98-104 | once the fields before `j` have loaded and field `j` fails, construction fails with field `j`'s error, whatever follows |
| `Schema.NoCompoundLoadsDefaults` | pynbt/model.py:93 | with no compound, construction never fails; every field has its resolved name and holds its default |
| `Schema.LoadSucceedsIff` | pynbt/model.py:95-100 | with a compound, construction succeeds iff every field's resolved name is a key of it |
| `Schema.FirstAbsentDecides` | pynbt/model.py:95-104 | the first absent field, in enumeration order, decides the outcome; the error is `ModelError` with its name iff that field is not optional, and `NoneDeref` otherwise |
| `Schema.LoadedValues` | pynbt/model.py:95-104 | after a successful load, each field holds the payload stored under its resolved name, whatever the tag's kind; it keeps its id, kind, name and optional flag |
| `Schema.SaveAll` | pynbt/model.py:106-111 | `save` on values: each field writes a tag of its kind holding its value under its name; its contract is carried by `Schema.SaveAllUntouched`, `Schema.SaveAllLastWins` and `Schema.RoundTrip` |
| `Schema.SaveAllUntouched` | pynbt/model.py:106-111 | save leaves every key that no field is named after as it was, present or absent |
| `Schema.SaveAllLastWins` | pynbt/model.py:110-111 | under a field's name, save stores a tag of that field's kind holding its value, unless a later field has the same name and overwrites it |
| `Schema.RoundTrip` | pynbt/model.py:93-111 | after loading from `c` and saving into an empty compound, each field's resolved name holds the payload `c` holds there, and no other key is written |
| `Schema.IntendedKeepsDefaults` | pynbt/model.py:98-104 | corrected construction succeeds iff every required field is present; an absent optional field then holds its default and a present field holds the stored payload |
| `Schema.IntendedAgrees` | pynbt/model.py:98-104 | wherever the code as written succeeds or raises `ModelError`, the corrected construction has the same outcome |
| `Models.FieldMembers` | pynbt/model.py:82-83 | the field prototypes among the class attributes, in the listed order; its contract is carried by the four lemmas below |
| `Models.FieldMembersSound` | pynbt/model.py:83 | every listed prototype comes from a field attribute under the same id |
| `Models.FieldMembersComplete` | pynbt/model.py:83 | every field attribute is listed under its id; other attributes are ignored |
| `Models.FieldMembersDistinct` | pynbt/model.py:82-83 | attributes with distinct ids (as `getmembers` lists them) give prototypes with distinct ids, so each field is listed exactly once |
| `Models.FieldMembersAppend` | pynbt/model.py:82-85 | discovery keeps the listed order: the prototypes of two consecutive runs of attributes are those of the first run followed by those of the second |
| `Models.FieldMembersSingle` | pynbt/model.py:83 | one attribute contributes its prototype when it is a field and nothing otherwise; with `FieldMembersAppend` this fixes the result for every attribute sequence |
| `Models.Model.Attach` | pynbt/model.py:87 | `setattr` appends the copy under its id; no field is attached twice |
| `Models.ResolveAndLoad` | pynbt/model.py:89-104 | the loop body after the copy: name resolution, then the lookup, then either the error or the stored value, exactly as `Step` |
| `Models.AttachAndLoad` | pynbt/model.py:86-104 | one turn of the loop: a fresh copy is attached, and the instance's fields grow by `Step`'s result, or the turn reports `Step`'s error |
| `Models.LoadNext` | pynbt/model.py:85-104 | one turn of the loop after `i` fields have loaded: the instance's fields become `Chain` of the first `i + 1` steps, or the whole construction fails with field `i`'s error; prototypes are unchanged |
| `Models.LoadAll` | pynbt/model.py:85-104 | the loop on an instance with no fields yet ends with the instance holding `Chain` of every turn, or with the first raising turn's error; prototypes are unchanged |
| `Models.ConstructFrom` | pynbt/model.py:85-104 | a new instance run through `LoadAll` holds `Load`'s result, all fresh and pairwise distinct; or it returns `Load`'s error; prototypes are unchanged |
| `Models.Construct` | pynbt/model.py:77-104 | `__init__`: construction from the class attributes equals `Load` of their field prototypes, each field attribute once and in the listed order; the instance owns fresh copies only; the prototypes are unchanged |
| `Models.Model.Save` | pynbt/model.py:106-111 | the caller's compound becomes `SaveAll` of its old entries and the instance's fields; only the compound changes |
| `Models.SetValueIsolated` | pynbt/model.py:43-45 | setting a field's value on one instance changes only that field; another instance and the prototypes keep their state |
| `Scenario.PlayerAsWritten` | pynbt/model.py:98-104 | for `Player`, the compound `{name: "Steve"}` and the empty compound both fail at `health` with `NoneDeref`; no compound gives `health` 20 |
| `Scenario.PlayerAsIntended` | pynbt/model.py:98-104 | for `Player`, corrected construction from `{name: "Steve"}` gives `health` 20 and `name` "Steve"; the empty compound fails with `ModelError("name")` |

## Left out

- `inspect.getmembers` and `setattr`. Reflection is replaced by an explicit attribute sequence, taken in the order given. Attributes set on an instance after construction are not modelled, so `Model.Save` writes exactly the fields that `Construct` attached.
- The tag codec (`pynbt.nbt`). A tag is an abstract (kind, payload) pair whose constructor stores the payload verbatim. Byte encoding and range checks on payloads are not modelled.
- A field object without a tag. Construction accepts any `NBTField` instance, including a bare `NBTField` or a subclass without `_TAG`, and `save` then raises AttributeError on `field._TAG` (pynbt/model.py:111). The model gives every field one of the seven tag kinds (`FieldKind`), so this error path of `save` is not modelled.
- Python key equality across types. A Python dict treats `True`, `1` and `1.0` as the same key. `Obj` keeps `Bool(true)` and `Int(1)` apart, so a compound lookup or write under an equal key of another type is not modelled.
- Python values are reduced to `Obj`. Floats, lists and other objects are `Other`, which is always truthy, so a float `0.0` passed as `optional` is not modelled as falsy. Hashing of unhashable names is not modelled.
- Exception messages. `ModelError` carries only the resolved name, not the text "... is not optional".
- `Models.SetValueIsolated`: isolation is stated under the disjointness that `Construct` guarantees (fresh copies), not re-derived from two constructions in one statement.
- `NBTField.__str__` and the unused `pprint` import: presentation only.
- Concurrency and I/O: the layer has none.

## Findings

| source | as written | input that shows it | evidently intended | confidence | as-written member | corrected member |
|---|---|---|---|---|---|---|
| pynbt/model.py:98-104 | an absent field whose `optional` is truthy passes the check at line 98 and then reads `.value` of None, which raises an AttributeError | `Player` with `health = IntegerField(default=20, optional=True)` and `name = StringField()`, built from `{name: "Steve"}` (or from `{}`, which fails at `health` before reaching `name`) | an absent optional field keeps its default and loading continues | high; not executed | `Scenario.PlayerAsWritten` | `Schema.IntendedKeepsDefaults` |

`Construct` keeps the behaviour as written. The corrected construction is
`Schema.LoadIntended`. `Schema.IntendedAgrees` proves that it changes only
the `NoneDeref` outcomes: every success and every `ModelError` of the code is
also an outcome of the corrected construction.
