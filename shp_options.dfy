/** `getWriteOptions` of the shp-write library: the ZIP file name and the
    per-geometry-type file names derived from what the caller passes. */
module ShpOptions {
  import opened JsText
  import opened JsValues

  const defaultName := "Shapefile"

  /** `defaults.types` for a base name. */
  function DefaultTypes(base: string): Entries {
    [("point", Str(base)), ("line", Str(base)), ("polygon", Str(base))]
  }

  /** `defaults` for a base name. */
  function Defaults(base: string): Entries {
    [("name", Str(base + ".zip")), ("types", Obj(DefaultTypes(base)))]
  }

  /** `name.split('.')[0]`: the name up to its first dot. */
  function Basename(name: string): (b: string)
    ensures '.' !in b
    ensures b == name[..FirstIndex(name, '.')]
  {
    SplitHead(name, '.');
    Split(name, '.')[0]
  }

  /** The name before the split: a string argument, else `options.name`
      unless it is nullish, else the default. */
  function ChosenName(opts: JsValue, options: Entries): JsValue {
    if opts.Str? then opts else Coalesce(Get(options, "name"), Str(defaultName))
  }

  /** `typeof opts === 'object' ? {...opts} : {}` */
  function OptionsOf(given: JsValue): Entries {
    if TypeOf(given) == "object" then SpreadSource(given) else []
  }

  /** `options.types = {...defaults.types, ...options?.types ?? {}}` */
  function WithTypes(options: Entries, base: string): Entries {
    var userTypes := Coalesce(Get(options, "types"), Obj([]));
    Assign(options, "types", Obj(Spread(DefaultTypes(base), SpreadSource(userTypes))))
  }

  /** `getWriteOptions(opts)`; `opts` = Undefined is the missing argument. */
  function GetWriteOptions(opts: JsValue): (r: Outcome<JsValue>)
    ensures r.Ok? ==> r.value.Obj?
  {
    var given := if opts == Undefined then Obj([]) else opts;
    var options := OptionsOf(given);
    var name := Coalesce(ChosenName(given, options), Str(defaultName));
    // `.split` of a number, boolean, array or object is not a function
    if !name.Str? then TypeError
    else
      var base := Basename(name.s);
      Ok(Obj(Spread(Defaults(base), WithTypes(options, base))))
  }

  /** Assigning the defaults' own types back leaves the defaults unchanged. */
  lemma DefaultsFixed(base: string)
    ensures Spread(Defaults(base), WithTypes([], base)) == Defaults(base)
  {
    assert Spread(DefaultTypes(base), []) == DefaultTypes(base);
    assert WithTypes([], base) == [("types", Obj(DefaultTypes(base)))];
    SpreadOne(Defaults(base), "types", Obj(DefaultTypes(base)));
    assert Defaults(base)[1..] == [("types", Obj(DefaultTypes(base)))];
  }

  /** Without usable options the ZIP is `Shapefile.zip` and every type file is `Shapefile`. */
  lemma DefaultOptions(opts: JsValue)
    requires opts.Undefined? || opts.Null? || opts.Bool? || opts.Num? || opts.Func? || opts == Obj([])
    ensures GetWriteOptions(opts) == Ok(Obj([("name", Str("Shapefile" + ".zip")),
                                             ("types", Obj([("point", Str("Shapefile")),
                                                            ("line", Str("Shapefile")),
                                                            ("polygon", Str("Shapefile"))]))]))
  {
    var given := if opts == Undefined then Obj([]) else opts;
    assert OptionsOf(given) == [];
    assert Coalesce(ChosenName(given, []), Str(defaultName)) == Str(defaultName);
    assert '.' !in defaultName;
    assert FirstIndex(defaultName, '.') == |defaultName|;
    assert Basename(defaultName) == defaultName;
    DefaultsFixed(defaultName);
    hide Spread, WithTypes;
    assert GetWriteOptions(opts) == Ok(Obj(Defaults(defaultName)));
  }

  /** A string argument is cut at its first dot; the ZIP gets `.zip` appended
      and every type file gets the cut name. */
  lemma StringOptions(s: string)
    ensures var b := s[..FirstIndex(s, '.')];
            GetWriteOptions(Str(s)) == Ok(Obj(Defaults(b))) && '.' !in b && b <= s
  {
    var b := Basename(s);
    assert OptionsOf(Str(s)) == [];
    DefaultsFixed(b);
    hide Spread, WithTypes;
  }

  /** An object argument throws iff its name is neither nullish nor a string. */
  lemma ObjectOptionsError(e: Entries)
    ensures GetWriteOptions(Obj(e)).TypeError? <==>
            !(Get(e, "name").Undefined? || Get(e, "name").Null? || Get(e, "name").Str?)
  {
  }

  predicate NameUsable(e: Entries) {
    Get(e, "name").Undefined? || Get(e, "name").Null? || Get(e, "name").Str?
  }

  /** The base name for an object argument whose name is usable. */
  function ObjectBase(e: Entries): string
    requires NameUsable(e)
  {
    Basename(if Get(e, "name").Str? then Get(e, "name").s else defaultName)
  }

  lemma ObjectUnfold(e: Entries)
    requires NameUsable(e)
    ensures GetWriteOptions(Obj(e)) == Ok(Obj(Spread(Defaults(ObjectBase(e)), WithTypes(e, ObjectBase(e)))))
  {
    assert OptionsOf(Obj(e)) == e;
    var name := Coalesce(ChosenName(Obj(e), e), Str(defaultName));
    assert name == if Get(e, "name").Str? then Get(e, "name") else Str(defaultName);
    hide Spread, WithTypes, Defaults, Basename, Get;
  }

  /** Filling in the types keeps the argument's other properties and keys. */
  lemma WithTypesFacts(e: Entries, base: string, k: string)
    requires DistinctKeys(e)
    ensures DistinctKeys(WithTypes(e, base))
    ensures k != "types" ==> Get(WithTypes(e, base), k) == Get(e, k)
    ensures HasKey(WithTypes(e, base), k) <==> k == "types" || HasKey(e, k)
  {
    var types := Obj(Spread(DefaultTypes(base), SpreadSource(Coalesce(Get(e, "types"), Obj([])))));
    assert WithTypes(e, base) == Assign(e, "types", types);
    hide WithTypes, Spread;
    AssignKeepsDistinct(e, "types", types);
    GetAssign(e, "types", types, k);
    HasKeyAssign(e, "types", types, k);
  }

  /** An object argument's own name is kept as given (no `.zip` appended); a
      missing one becomes the base name with `.zip`. */
  lemma ObjectName(e: Entries)
    requires DistinctKeys(e) && NameUsable(e)
    ensures Get(GetWriteOptions(Obj(e)).value.entries, "name")
            == if HasKey(e, "name") then Get(e, "name") else Str(ObjectBase(e) + ".zip")
  {
    var base := ObjectBase(e);
    ObjectUnfold(e);
    WithTypesFacts(e, base, "name");
    hide GetWriteOptions, WithTypes, Spread, ObjectBase;
    GetSpread(Defaults(base), WithTypes(e, base), "name");
    assert Get(Defaults(base), "name") == Str(base + ".zip");
  }

  /** Every other own property of an object argument passes through. */
  lemma ObjectPassesThrough(e: Entries, k: string)
    requires DistinctKeys(e) && NameUsable(e)
    requires k != "types" && HasKey(e, k)
    ensures Get(GetWriteOptions(Obj(e)).value.entries, k) == Get(e, k)
  {
    var base := ObjectBase(e);
    ObjectUnfold(e);
    WithTypesFacts(e, base, k);
    hide GetWriteOptions, WithTypes, Spread, ObjectBase;
    GetSpread(Defaults(base), WithTypes(e, base), k);
  }

  lemma DefaultsKeys(base: string, k: string)
    ensures HasKey(Defaults(base), k) <==> k == "name" || k == "types"
  {
    assert Keys(Defaults(base)) == ["name", "types"];
  }

  /** The result has the argument's keys plus `name` and `types`. */
  lemma ObjectKeys(e: Entries, k: string)
    requires DistinctKeys(e) && NameUsable(e)
    ensures HasKey(GetWriteOptions(Obj(e)).value.entries, k) <==> k == "name" || k == "types" || HasKey(e, k)
  {
    var base := ObjectBase(e);
    ObjectUnfold(e);
    WithTypesFacts(e, base, k);
    DefaultsKeys(base, k);
    hide GetWriteOptions, WithTypes, Spread, ObjectBase, HasKey, Defaults, Basename;
    HasKeySpread(Defaults(base), WithTypes(e, base), k);
  }

  /** The type file names: a type the argument's `types` names takes that
      value, the others keep the base name. */
  lemma {:induction false} ObjectTypes(e: Entries, u: Entries, k: string)
    requires DistinctKeys(e) && DistinctKeys(u) && NameUsable(e)
    requires Get(e, "types") == Obj(u)
    ensures var r := GetWriteOptions(Obj(e)).value.entries;
            && Get(r, "types").Obj?
            && Get(Get(r, "types").entries, k) == (if HasKey(u, k) then Get(u, k) else Get(DefaultTypes(ObjectBase(e)), k))
  {
    var base := ObjectBase(e);
    ObjectUnfold(e);
    var types := Obj(Spread(DefaultTypes(base), u));
    var withTypes := Assign(e, "types", types);
    assert WithTypes(e, base) == withTypes;
    hide GetWriteOptions, WithTypes, Spread, Assign;
    AssignKeepsDistinct(e, "types", types);
    GetSpread(Defaults(base), withTypes, "types");
    GetAssign(e, "types", types, "types");
    HasKeyAssign(e, "types", types, "types");
    GetSpread(DefaultTypes(base), u, k);
  }
}
