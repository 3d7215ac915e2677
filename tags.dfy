/** What this layer needs from the NBT tag codec: Python values, tag kinds,
    tags as (kind, value) pairs, and the compound, a mutable map from key to tag. */
module Tags {

  datatype Option<+T> = None | Some(value: T)

  /** A Python value as this layer sees it: an option of a field, a field's
      payload, a tag's payload or a compound key. `Null` is Python's None;
      `Other` stands for any further object (a float, a list, ...), all truthy. */
  datatype Obj = Null | Bool(b: bool) | Int(i: int) | Str(s: string) | Other(id: nat)

  /** Python truthiness, as used by `not field.optional`. */
  predicate Truthy(v: Obj)
  {
    match v
    case Null => false
    case Bool(b) => b
    case Int(i) => i != 0
    case Str(s) => s != []
    case Other(_) => true
  }

  /** The tag classes of the codec; `TagOther` covers the kinds no field uses
      (lists, arrays, nested compounds), which may still occur in a compound. */
  datatype Kind =
    | TagByte | TagShort | TagInt | TagFloat | TagLong | TagDouble | TagString
    | TagOther(code: nat)

  /** The kinds a field can declare: one per field variant. */
  type FieldKind = k: Kind | !k.TagOther? witness TagByte

  /** A tag: constructing one stores the payload verbatim. */
  datatype Tag = Tag(kind: Kind, value: Obj)

  /** The caller's compound: get-with-default and item assignment. */
  class Compound {
    var entries: map<Obj, Tag>

    constructor (entries: map<Obj, Tag>)
      ensures this.entries == entries
    {
      this.entries := entries;
    }

    /** `compound.get(key, None)` */
    function Get(key: Obj): Option<Tag>
      reads this
    {
      if key in entries then Some(entries[key]) else None
    }

    /** `compound[key] = tag` */
    method Set(key: Obj, tag: Tag)
      modifies this
      ensures entries == old(entries)[key := tag]
    {
      entries := entries[key := tag];
    }
  }
}
