/** A record type `Player` with a required string field `name` and an
    optional integer field `health` defaulting to 20. Reflection lists the
    attributes by id, so `health` is visited before `name`. */
module Scenario {
  import opened Tags
  import opened Fields
  import opened Schema

  /** The prototypes' states: `IntegerField(default=20, optional=True)` and
      `StringField(optional=False)`, as their constructors leave them. */
  function Player(): seq<Decl>
  {
    [ ("health", FieldState(TagInt, Initialized(map["default" := Int(20), "optional" := Bool(true)]))),
      ("name", FieldState(TagString, Initialized(map["optional" := Bool(false)]))) ]
  }

  function Steve(): map<Obj, Tag>
  {
    map[Str("name") := Tag(TagString, Str("Steve"))]
  }

  /** As written, a compound lacking the optional `health` fails at `health`
      with the None dereference, whether or not the required `name` is
      present; no compound gives the defaults. */
  lemma {:induction false} PlayerAsWritten()
    ensures Load(Player(), Some(Steve())) == Err(NoneDeref(Str("health")))
    ensures Load(Player(), Some(map[])) == Err(NoneDeref(Str("health")))
    ensures Load(Player(), None).Ok? && ValueOf(Load(Player(), None).value[0].1.options) == Int(20)
  {
    FirstAbsentDecides(Player(), Steve(), 0);
    FirstAbsentDecides(Player(), map[], 0);
    NoCompoundLoadsDefaults(Player());
  }

  /** As intended, `health` keeps its default 20 and `name` is loaded; an
      empty compound fails with `ModelError` naming `name`. */
  lemma {:induction false} PlayerAsIntended()
    ensures LoadIntended(Player(), Some(Steve())).Ok?
    ensures var fs := LoadIntended(Player(), Some(Steve())).value;
      |fs| == 2 && ValueOf(fs[0].1.options) == Int(20) && ValueOf(fs[1].1.options) == Str("Steve")
    ensures LoadIntended(Player(), Some(map[])) == Err(ModelError(Str("name")))
  {
    IntendedKeepsDefaults(Player(), Steve());
    assert ResolvedName(Player()[0]) == Str("health");
    assert ResolvedName(Player()[1]) == Str("name");
    var qs := IntendedSteps(Player(), Some(map[]));
    assert qs[..1] == [qs[0]] && qs[0].Ok? && qs[1] == Err(ModelError(Str("name")));
    ChainFirstFailure(qs, 1);
  }
}
