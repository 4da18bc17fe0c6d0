/** Checking and repairing the arguments of a tool call against its input schema.
    The source ranges over Go maps, whose order is not specified, and rewrites one
    of them while ranging over it. */
module Arguments {
  import opened Ordering
  import opened Text
  import opened Wrappers

  datatype Value =
    | Null | Str(text: string) | Number(number: real) | Bool(flag: bool)
    | List(items: seq<Value>) | Object(fields: map<string, Value>)

  datatype Kind = StringKind | IntegerKind | NumberKind | BooleanKind | ArrayKind | ObjectKind | AnyKind

  type Args = map<string, Value>

  /** A property whose entry is not itself an object has no kind. */
  datatype Schema = Schema(properties: map<string, Option<Kind>>, closed: bool, required: seq<string>)

  /** The library functions the check leans on: lower-casing a rune, printing a
      number and reading one (None for a failure and for infinities). */
  datatype Library = Library(fold: char -> char, format: real -> string, parse: string -> Option<real>)

  // ----- Names -----

  function Strip(name: string): string {
    if name == "" then ""
    else (if name[0] == '_' || name[0] == '-' || name[0] == ' ' then [] else [name[0]]) + Strip(name[1..])
  }

  function NormalizeName(lib: Library, name: string): string {
    ToLower(Strip(name), lib.fold)
  }

  predicate IsIdField(name: string) {
    name == "id" || (|name| > 2 && name[|name| - 2..] == "Id")
  }

  predicate IsHex(c: char) {
    '0' <= c <= '9' || 'a' <= c <= 'f' || 'A' <= c <= 'F'
  }

  predicate IsUuid(s: string) {
    && |s| == 36
    && forall i | 0 <= i < 36 :: if i == 8 || i == 13 || i == 18 || i == 23 then s[i] == '-' else IsHex(s[i])
  }

  // ----- Values -----

  datatype Conversion = Keep(value: Value) | Absent | Refuse

  function Numeric(lib: Library, value: Value): Option<real> {
    match value
    case Number(x) => Some(x)
    case Str(s) => lib.parse(TrimSpace(s))
    case _ => None
  }

  function FormatBool(b: bool): string {
    if b then "true" else "false"
  }

  function AsText(lib: Library, value: Value): Option<string> {
    match value
    case Str(s) => Some(s)
    case Number(x) => Some(lib.format(x))
    case Bool(b) => Some(FormatBool(b))
    case _ => None
  }

  function ConvertString(lib: Library, key: string, value: Value): Conversion {
    var text := AsText(lib, value);
    if text.None? then Refuse
    else if !IsIdField(key) then Keep(Str(text.value))
    else
      var id := TrimSpace(text.value);
      if id == "" then Absent else if IsUuid(id) then Keep(Str(id)) else Refuse
  }

  function ConvertBoolean(lib: Library, value: Value): Conversion {
    match value
    case Bool(_) => Keep(value)
    case Str(s) =>
      var word := ToLower(TrimSpace(s), lib.fold);
      if word == "true" then Keep(Bool(true)) else if word == "false" then Keep(Bool(false)) else Refuse
    case _ => Refuse
  }

  function ConvertArgument(lib: Library, key: string, kind: Kind, value: Value): Conversion {
    match kind
    case StringKind => ConvertString(lib, key, value)
    case IntegerKind =>
      var number := Numeric(lib, value);
      if number.None? || number.value.Floor as real != number.value then Refuse else Keep(Number(number.value))
    case NumberKind =>
      var number := Numeric(lib, value);
      if number.None? then Refuse else Keep(Number(number.value))
    case BooleanKind => ConvertBoolean(lib, value)
    case ArrayKind => if value.List? then Keep(value) else Refuse
    case ObjectKind => if value.Object? then Keep(value) else Refuse
    case AnyKind => Keep(value)
  }

  /** What the second loop makes of one entry. */
  function Convert(lib: Library, schema: Schema, key: string, value: Value): Conversion {
    if key in schema.properties && schema.properties[key].Some?
    then ConvertArgument(lib, key, schema.properties[key].value, value)
    else Keep(value)
  }

  /** What a handler may rely on for a property of this kind. */
  predicate HasKind(key: string, kind: Kind, value: Value) {
    match kind
    case StringKind => value.Str? && (IsIdField(key) ==> IsUuid(value.text))
    case IntegerKind => value.Number? && value.number.Floor as real == value.number
    case NumberKind => value.Number?
    case BooleanKind => value.Bool?
    case ArrayKind => value.List?
    case ObjectKind => value.Object?
    case AnyKind => true
  }

  lemma UuidIsTrimmed(s: string)
    requires IsUuid(s)
    ensures TrimSpace(s) == s
  {
    assert !IsSpace(s[0]) && !IsSpace(s[35]);
    TrimKeeps(s);
  }

  /** Conversion yields values of the declared kind, and changes none that already
      are of that kind. */
  lemma ConvertedHasKind(lib: Library, key: string, kind: Kind, value: Value)
    ensures var c := ConvertArgument(lib, key, kind, value); c.Keep? ==> HasKind(key, kind, c.value)
    ensures HasKind(key, kind, value) ==> ConvertArgument(lib, key, kind, value) == Keep(value)
  {
    if value.Str? && IsUuid(value.text) {
      UuidIsTrimmed(value.text);
    }
  }

  lemma ConvertIsIdempotent(lib: Library, schema: Schema, key: string, value: Value)
    requires value != Null && Convert(lib, schema, key, value).Keep?
    ensures var kept := Convert(lib, schema, key, value).value;
            kept != Null && Convert(lib, schema, key, kept) == Keep(kept)
  {
    if key in schema.properties && schema.properties[key].Some? {
      var kind := schema.properties[key].value;
      ConvertedHasKind(lib, key, kind, value);
      ConvertedHasKind(lib, key, kind, Convert(lib, schema, key, value).value);
    }
  }

  predicate IsTyped(schema: Schema, key: string, value: Value) {
    key in schema.properties && schema.properties[key].Some? ==> HasKind(key, schema.properties[key].value, value)
  }

  lemma ConvertedIsTyped(lib: Library, schema: Schema, key: string, value: Value)
    requires Convert(lib, schema, key, value).Keep?
    ensures IsTyped(schema, key, Convert(lib, schema, key, value).value)
  {
    if key in schema.properties && schema.properties[key].Some? {
      ConvertedHasKind(lib, key, schema.properties[key].value, value);
    }
  }

  // ----- The repair of unknown names -----

  function NonNull(args: Args): Args {
    map key | key in args && args[key] != Null :: args[key]
  }

  /** index names, for each normal form that occurs, a property with that form. */
  ghost predicate Indexes(lib: Library, index: map<string, string>, schema: Schema) {
    && (forall name | name in schema.properties :: NormalizeName(lib, name) in index)
    && (forall form | form in index :: index[form] in schema.properties && NormalizeName(lib, index[form]) == form)
  }

  /** No two properties share a normal form. */
  ghost predicate DistinctForms(lib: Library, schema: Schema) {
    forall a, b | a in schema.properties && b in schema.properties && NormalizeName(lib, a) == NormalizeName(lib, b) :: a == b
  }

  lemma IndexIsUnique(lib: Library, index: map<string, string>, other: map<string, string>, schema: Schema)
    requires DistinctForms(lib, schema) && Indexes(lib, index, schema) && Indexes(lib, other, schema)
    ensures index == other
  {
  }

  /** The repair at work: the schema, the index over it and the arguments given. */
  datatype Repair = Repair(lib: Library, schema: Schema, index: map<string, string>, given: Args) {

    predicate Unknown(key: string) {
      key in given && key !in schema.properties
    }

    /** An unknown key that spells a property nobody gave. */
    predicate Hopeful(key: string) {
      Unknown(key) && NormalizeName(lib, key) in index && index[NormalizeName(lib, key)] !in given
    }

    function Target(key: string): string
      requires Hopeful(key)
    {
      index[NormalizeName(lib, key)]
    }

    /** Renaming the unknown keys is total, lands outside the given names and never
        lands twice on one name. */
    ghost predicate Possible() {
      && (forall key | Unknown(key) :: Hopeful(key))
      && (forall a, b | Hopeful(a) && Hopeful(b) && Target(a) == Target(b) :: a == b)
    }

    ghost predicate Comes(name: string, key: string) {
      if key in schema.properties then key == name && key in given else Hopeful(key) && Target(key) == name
    }

    /** out holds, under its declared name, what was given under any spelling. */
    ghost predicate IsRepaired(out: Args) {
      && (forall key | key in given && key in schema.properties :: key in out && out[key] == given[key])
      && (forall key | Hopeful(key) :: Target(key) in out && out[Target(key)] == given[key])
      && (forall name | name in out :: exists key :: Comes(name, key))
    }

    /** The names reported as unknown: those without hope, and of the keys that
        spell the same free property all but one. */
    ghost predicate LeftOver(names: set<string>) {
      && (forall key | key in names :: Unknown(key))
      && (forall key | Unknown(key) && !Hopeful(key) :: key in names)
      && (forall a, b | Hopeful(a) && Hopeful(b) && a !in names && b !in names && Target(a) == Target(b) :: a == b)
      && (forall key | Hopeful(key) && key in names ::
            exists winner :: Hopeful(winner) && winner !in names && Target(winner) == Target(key))
    }

    /** Nothing is reported exactly when the renaming is possible. */
    lemma NothingLeftIff(names: set<string>)
      requires LeftOver(names)
      ensures names == {} <==> Possible()
    {
    }

    lemma RepairedIsUnique(out: Args, other: Args)
      requires IsRepaired(out) && IsRepaired(other)
      ensures out == other
    {
      forall name
        ensures name in out <==> name in other
        ensures name in out && name in other ==> out[name] == other[name]
      {
        if name in out {
          var key :| Comes(name, key);
        }
        if name in other {
          var key :| Comes(name, key);
        }
      }
    }

    /** An unknown key the loop has dealt with by renaming it. */
    ghost predicate Renamed(key: string, todo: set<string>, names: set<string>) {
      Hopeful(key) && key !in todo && key !in names
    }

    /** Where a key stands in the middle of the loop: todo are keys still to be
        produced, names those found unknown so far. */
    ghost predicate Placed(key: string, todo: set<string>, out: Args, names: set<string>) {
      if key !in given then key !in names && (key in todo ==> key in schema.properties)
      else if key in schema.properties then key in out && out[key] == given[key] && key !in names
      else if key in todo then key in out && out[key] == given[key] && key !in names
      else if key in names then key in out && (Hopeful(key) ==> Target(key) in out)
      else key !in out && Hopeful(key) && Target(key) in out && out[Target(key)] == given[key]
    }

    ghost predicate Sourced(name: string, todo: set<string>, out: Args, names: set<string>) {
      name in out && name !in given ==> exists key :: Renamed(key, todo, names) && Target(key) == name
    }

    ghost predicate Midway(todo: set<string>, out: Args, names: set<string>) {
      && (forall key :: Placed(key, todo, out, names))
      && (forall name :: Sourced(name, todo, out, names))
      && (forall a, b | Renamed(a, todo, names) && Renamed(b, todo, names) && Target(a) == Target(b) :: a == b)
    }

    lemma MidwayDone(out: Args, names: set<string>)
      requires Midway({}, out, names)
      ensures LeftOver(names)
      ensures names == {} ==> IsRepaired(out)
    {
      forall key
        ensures key in names ==> Unknown(key)
        ensures Unknown(key) && !Hopeful(key) ==> key in names
        ensures Hopeful(key) && key in names ==>
                  exists winner :: Hopeful(winner) && winner !in names && Target(winner) == Target(key)
        ensures key in given && key in schema.properties ==> key in out && out[key] == given[key]
        ensures Hopeful(key) && key !in names ==> Target(key) in out && out[Target(key)] == given[key]
      {
        assert Placed(key, {}, out, names);
        if Hopeful(key) && key in names {
          assert Sourced(Target(key), {}, out, names);
          var winner :| Renamed(winner, {}, names) && Target(winner) == Target(key);
        }
      }
      forall a, b | Hopeful(a) && Hopeful(b) && a !in names && b !in names && Target(a) == Target(b)
        ensures a == b
      {
        assert Renamed(a, {}, names) && Renamed(b, {}, names);
      }
      if names == {} {
        forall name | name in out
          ensures exists key :: Comes(name, key)
        {
          NameComes(out, name);
        }
      }
    }

    lemma NameComes(out: Args, name: string)
      requires Midway({}, out, {}) && name in out
      ensures exists key :: Comes(name, key)
    {
      assert Placed(name, {}, out, {}) && Sourced(name, {}, out, {});
      if name in given {
        assert Comes(name, name);
      } else {
        var key :| Renamed(key, {}, {}) && Target(key) == name;
        assert Comes(name, key);
      }
    }
  }

  method IndexNames(lib: Library, schema: Schema) returns (index: map<string, string>)
    ensures Indexes(lib, index, schema)
  {
    index := map[];
    var todo := schema.properties.Keys;
    while todo != {}
      invariant todo <= schema.properties.Keys
      invariant forall name | name in schema.properties && name !in todo :: NormalizeName(lib, name) in index
      invariant forall form | form in index :: index[form] in schema.properties && NormalizeName(lib, index[form]) == form
      decreases todo
    {
      var name :| name in todo;
      index := index[NormalizeName(lib, name) := name];
      todo := todo - {name};
    }
  }

  // ----- The rename loop, for a given order of the keys -----

  /** The keys as the range produces them: each given key once and, since the loop
      adds names to the map it ranges over, possibly declared names besides. */
  ghost predicate Enumerates(r: Repair, visit: seq<string>) {
    && (forall i, j | 0 <= i < j < |visit| :: visit[i] != visit[j])
    && (forall key | key in r.given :: key in visit)
    && (forall key | key in visit :: key in r.given || key in r.schema.properties)
  }

  /** The map and the unknown names at some point of the loop. */
  datatype Progress = Progress(out: Args, unknown: set<string>)

  function RepairOne(r: Repair, p: Progress, key: string): Progress {
    var form := NormalizeName(r.lib, key);
    if key in r.schema.properties || key !in r.given then p
    else if form in r.index && r.index[form] !in p.out
    then Progress((p.out - {key})[r.index[form] := r.given[key]], p.unknown)
    else Progress(p.out, p.unknown + {key})
  }

  function RepairAlong(r: Repair, visit: seq<string>): Progress {
    if visit == [] then Progress(r.given, {})
    else RepairOne(r, RepairAlong(r, visit[..|visit| - 1]), visit[|visit| - 1])
  }

  method RepairNames(r: Repair, visit: seq<string>) returns (out: Args, unknown: set<string>)
    requires Indexes(r.lib, r.index, r.schema) && Enumerates(r, visit)
    ensures Progress(out, unknown) == RepairAlong(r, visit)
    ensures r.LeftOver(unknown)
    ensures unknown == {} ==> r.IsRepaired(out)
  {
    out, unknown := r.given, {};
    for i := 0 to |visit|
      invariant Progress(out, unknown) == RepairAlong(r, visit[..i])
    {
      var key := visit[i];
      assert visit[..i + 1][..i] == visit[..i];
      if key in r.schema.properties {
        continue;
      }
      assert key in visit;
      var form := NormalizeName(r.lib, key);
      if form in r.index && r.index[form] !in out {
        var target := r.index[form];
        out := (out - {key})[target := r.given[key]];
        continue;
      }
      unknown := unknown + {key};
    }
    assert visit[..|visit|] == visit;
    RepairMeetsItsGoal(r, visit);
  }

  function Rest(visit: seq<string>, i: nat): set<string>
    requires i <= |visit|
  {
    set key | key in visit[i..]
  }

  lemma RestShrinks(visit: seq<string>, i: nat)
    requires i < |visit| && forall j, k | 0 <= j < k < |visit| :: visit[j] != visit[k]
    ensures visit[i] in Rest(visit, i) && Rest(visit, i + 1) == Rest(visit, i) - {visit[i]}
  {
    assert visit[i..] == [visit[i]] + visit[i + 1..];
    forall j | i + 1 <= j < |visit|
      ensures visit[j] != visit[i]
    {
    }
  }

  lemma {:induction false} RepairIsMidway(r: Repair, visit: seq<string>, i: nat)
    requires Indexes(r.lib, r.index, r.schema) && Enumerates(r, visit) && i <= |visit|
    ensures var p := RepairAlong(r, visit[..i]); r.Midway(Rest(visit, i), p.out, p.unknown)
  {
    if i == 0 {
      NothingVisited(r, Rest(visit, 0));
    } else {
      RepairIsMidway(r, visit, i - 1);
      var key, p := visit[i - 1], RepairAlong(r, visit[..i - 1]);
      assert visit[..i][..i - 1] == visit[..i - 1] && key in visit;
      RestShrinks(visit, i - 1);
      var todo, form := Rest(visit, i - 1), NormalizeName(r.lib, key);
      if key in r.schema.properties {
        KnownStep(r, todo, p.out, p.unknown, key);
      } else if form in r.index && r.index[form] !in p.out {
        RenameStep(r, todo, p.out, p.unknown, key, Rest(visit, i));
      } else {
        UnknownStep(r, todo, p.out, p.unknown, key);
      }
    }
  }

  /** In every order the loop reports exactly the leftover keys and repairs the rest. */
  lemma {:induction false} RepairMeetsItsGoal(r: Repair, visit: seq<string>)
    requires Indexes(r.lib, r.index, r.schema) && Enumerates(r, visit)
    ensures r.LeftOver(RepairAlong(r, visit).unknown)
    ensures RepairAlong(r, visit).unknown == {} ==> r.IsRepaired(RepairAlong(r, visit).out)
  {
    RepairIsMidway(r, visit, |visit|);
    assert visit[..|visit|] == visit && Rest(visit, |visit|) == {};
    var p := RepairAlong(r, visit);
    r.MidwayDone(p.out, p.unknown);
  }

  // ----- Where the report depends on the order -----

  /** Two given keys spell one free property. */
  ghost predicate SharesTarget(r: Repair, a: string, b: string) {
    a != b && r.Hopeful(a) && r.Hopeful(b) && r.Target(a) == r.Target(b)
  }

  /** The order that starts with one key. */
  ghost function StartingWith(r: Repair, key: string): (visit: seq<string>)
    requires key in r.given
    ensures Enumerates(r, visit) && visit[0] == key
  {
    var rest := Sorted(r.given.Keys - {key});
    forall i, j | 0 <= i < j < |rest|
      ensures rest[i] != rest[j]
    {
      LessIsTotal(rest[i], rest[j]);
    }
    assert forall k | k in rest :: k in r.given && k != key;
    assert forall i | 0 <= i < |rest| :: rest[i] in rest;
    [key] + rest
  }

  /** A hopeful key produced first is renamed, never reported. */
  lemma {:induction false} FirstIsRenamed(r: Repair, visit: seq<string>, i: nat)
    requires Enumerates(r, visit) && 1 <= i <= |visit| && r.Hopeful(visit[0])
    ensures visit[0] !in RepairAlong(r, visit[..i]).unknown
  {
    assert visit[..i][..i - 1] == visit[..i - 1];
    if i == 1 {
      assert RepairAlong(r, visit[..0]) == Progress(r.given, {});
    } else {
      FirstIsRenamed(r, visit, i - 1);
    }
  }

  lemma {:induction false} StartingKeyWins(r: Repair, a: string, b: string)
    requires Indexes(r.lib, r.index, r.schema) && SharesTarget(r, a, b)
    ensures a !in RepairAlong(r, StartingWith(r, a)).unknown
    ensures b in RepairAlong(r, StartingWith(r, a)).unknown
  {
    var visit := StartingWith(r, a);
    FirstIsRenamed(r, visit, |visit|);
    assert visit[..|visit|] == visit;
    RepairMeetsItsGoal(r, visit);
  }

  /** What is reported is the same in every order if and only if no two of the given
      keys spell one free property. */
  lemma {:induction false} ReportIgnoresOrderIff(r: Repair)
    requires Indexes(r.lib, r.index, r.schema)
    ensures (forall v, w | Enumerates(r, v) && Enumerates(r, w) :: RepairAlong(r, v).unknown == RepairAlong(r, w).unknown)
       <==> (forall a, b :: !SharesTarget(r, a, b))
  {
    if a, b :| SharesTarget(r, a, b) {
      StartingKeyWins(r, a, b);
      assert SharesTarget(r, b, a);
      StartingKeyWins(r, b, a);
      assert Enumerates(r, StartingWith(r, a)) && Enumerates(r, StartingWith(r, b));
    } else {
      forall v, w | Enumerates(r, v) && Enumerates(r, w)
        ensures RepairAlong(r, v).unknown == RepairAlong(r, w).unknown
      {
        OnlyHopelessAreReported(r, v);
        OnlyHopelessAreReported(r, w);
      }
    }
  }

  lemma {:induction false} OnlyHopelessAreReported(r: Repair, visit: seq<string>)
    requires Indexes(r.lib, r.index, r.schema) && Enumerates(r, visit)
    requires forall a, b :: !SharesTarget(r, a, b)
    ensures forall key :: key in RepairAlong(r, visit).unknown <==> r.Unknown(key) && !r.Hopeful(key)
  {
    RepairMeetsItsGoal(r, visit);
    var names := RepairAlong(r, visit).unknown;
    forall key | r.Hopeful(key)
      ensures key !in names
    {
      forall winner | r.Hopeful(winner) && r.Target(winner) == r.Target(key)
        ensures winner == key
      {
        assert !SharesTarget(r, winner, key);
      }
    }
  }

  lemma {:induction false} OtherKeyIsReported(r: Repair, a: string, b: string)
    requires Indexes(r.lib, r.index, r.schema) && r.given.Keys == {a, b} && SharesTarget(r, a, b)
    ensures Enumerates(r, [a, b]) && RepairAlong(r, [a, b]).unknown == {b}
  {
    var visit := [a, b];
    FirstIsRenamed(r, visit, 2);
    assert visit[..2] == visit;
    RepairMeetsItsGoal(r, visit);
    assert forall key | key in RepairAlong(r, visit).unknown :: key in r.given;
  }

  /** One property "limit", given as "_limit" and as "-limit": each order reports the other key. */
  lemma TwoSpellingsOneProperty(lib: Library)
    ensures var r := TwoSpellings(lib);
            && Indexes(lib, r.index, r.schema)
            && Enumerates(r, ["_limit", "-limit"]) && RepairAlong(r, ["_limit", "-limit"]).unknown == {"-limit"}
            && Enumerates(r, ["-limit", "_limit"]) && RepairAlong(r, ["-limit", "_limit"]).unknown == {"_limit"}
  {
    SpellingsStrip();
    var r := TwoSpellings(lib);
    assert SharesTarget(r, "_limit", "-limit") && SharesTarget(r, "-limit", "_limit");
    OtherKeyIsReported(r, "_limit", "-limit");
    OtherKeyIsReported(r, "-limit", "_limit");
  }

  lemma SpellingsStrip()
    ensures Strip("limit") == Strip("_limit") == Strip("-limit") && "_limit" != "-limit" && "limit" != "_limit" && "limit" != "-limit"
  {
    assert "_limit"[0] == '_' && "-limit"[0] == '-' && "limit"[0] == 'l';
    assert "_limit"[1..] == "limit" && "-limit"[1..] == "limit";
  }

  function TwoSpellings(lib: Library): Repair {
    Repair(lib, Schema(map["limit" := Some(IntegerKind)], true, []), map[NormalizeName(lib, "limit") := "limit"],
           map["_limit" := Number(5.0), "-limit" := Number(9.0)])
  }

  lemma RenameStep(r: Repair, todo: set<string>, out: Args, unknown: set<string>, key: string, later: set<string>)
    requires r.Midway(todo, out, unknown) && key in todo && key in r.given && key !in r.schema.properties
    requires Indexes(r.lib, r.index, r.schema)
    requires NormalizeName(r.lib, key) in r.index && r.index[NormalizeName(r.lib, key)] !in out
    requires forall x | x !in r.schema.properties :: x in later <==> x in todo && x != key
    ensures r.Midway(later, (out - {key})[r.index[NormalizeName(r.lib, key)] := r.given[key]], unknown)
  {
    var target := r.index[NormalizeName(r.lib, key)];
    var after := (out - {key})[target := r.given[key]];
    assert r.Placed(key, todo, out, unknown) && r.Placed(target, todo, out, unknown);
    assert r.Hopeful(key) && r.Target(key) == target;
    forall x
      ensures r.Placed(x, later, after, unknown)
    {
      assert r.Placed(x, todo, out, unknown);
    }
    forall name
      ensures r.Sourced(name, later, after, unknown)
    {
      assert r.Sourced(name, todo, out, unknown);
      if name == target {
        assert r.Renamed(key, later, unknown);
      } else if name in after && name !in r.given {
        var x :| r.Renamed(x, todo, unknown) && r.Target(x) == name;
        assert r.Renamed(x, later, unknown);
      }
    }
    forall a, b | r.Renamed(a, later, unknown) && r.Renamed(b, later, unknown) && r.Target(a) == r.Target(b)
      ensures a == b
    {
      assert r.Placed(a, todo, out, unknown) && r.Placed(b, todo, out, unknown);
      assert a != key ==> r.Renamed(a, todo, unknown);
      assert b != key ==> r.Renamed(b, todo, unknown);
    }
  }

  lemma UnknownStep(r: Repair, todo: set<string>, out: Args, unknown: set<string>, key: string)
    requires r.Midway(todo, out, unknown) && key in todo && key !in r.schema.properties
    requires NormalizeName(r.lib, key) !in r.index || r.index[NormalizeName(r.lib, key)] in out
    ensures r.Midway(todo - {key}, out, unknown + {key})
  {
    var later, names := todo - {key}, unknown + {key};
    forall x
      ensures r.Placed(x, later, out, names)
      ensures r.Renamed(x, later, names) <==> r.Renamed(x, todo, unknown)
    {
      assert r.Placed(x, todo, out, unknown) && r.Placed(key, todo, out, unknown);
    }
    forall name
      ensures r.Sourced(name, later, out, names)
    {
      assert r.Sourced(name, todo, out, unknown);
    }
  }

  lemma KnownStep(r: Repair, todo: set<string>, out: Args, unknown: set<string>, key: string)
    requires r.Midway(todo, out, unknown) && key in r.schema.properties
    ensures r.Midway(todo - {key}, out, unknown)
  {
    forall x
      ensures r.Placed(x, todo - {key}, out, unknown)
      ensures r.Renamed(x, todo - {key}, unknown) <==> r.Renamed(x, todo, unknown)
    {
      assert r.Placed(x, todo, out, unknown);
    }
    forall name
      ensures r.Sourced(name, todo - {key}, out, unknown)
    {
      assert r.Sourced(name, todo, out, unknown);
    }
  }

  lemma NothingVisited(r: Repair, todo: set<string>)
    requires r.given.Keys <= todo && forall key | key in todo :: key in r.given || key in r.schema.properties
    ensures r.Midway(todo, r.given, {})
  {
  }

  // ----- Conversion and required names -----

  /** The names the model is told about, whatever order the messages come in. */
  datatype Refusal = UnknownNames(names: set<string>) | Problems(bad: set<string>, missing: multiset<string>)

  ghost function BadOf(lib: Library, schema: Schema, args: Args): set<string> {
    set key | key in args && Convert(lib, schema, key, args[key]).Refuse?
  }

  /** The map after the second loop: a refused entry stays as it was. */
  function ConvertedAll(lib: Library, schema: Schema, args: Args): Args {
    map key | key in args && !Convert(lib, schema, key, args[key]).Absent? ::
      var c := Convert(lib, schema, key, args[key]);
      if c.Keep? then c.value else args[key]
  }

  /** A required text sent blank is as missing as no value. */
  predicate IsMissing(name: string, args: Args) {
    name !in args || (args[name].Str? && TrimSpace(args[name].text) == "")
  }

  function MissingOf(required: seq<string>, args: Args): multiset<string> {
    if required == [] then multiset{}
    else
      var n := |required| - 1;
      MissingOf(required[..n], args) + if IsMissing(required[n], args) then multiset{required[n]} else multiset{}
  }

  lemma {:induction false} NothingMissing(required: seq<string>, args: Args, name: string)
    ensures name in MissingOf(required, args) <==> name in required && IsMissing(name, args)
  {
    if required != [] {
      var n := |required| - 1;
      NothingMissing(required[..n], args, name);
      assert required == required[..n] + [required[n]];
    }
  }

  ghost function Checked(lib: Library, schema: Schema, args: Args): Result<Args, Refusal> {
    var bad, out := BadOf(lib, schema, args), ConvertedAll(lib, schema, args);
    var missing := MissingOf(schema.required, out);
    if bad == {} && missing == multiset{} then Ok(out) else Err(Problems(bad, missing))
  }

  method ConvertEach(lib: Library, schema: Schema, args: Args) returns (out: Args, bad: set<string>)
    ensures out == ConvertedAll(lib, schema, args) && bad == BadOf(lib, schema, args)
  {
    out, bad := args, {};
    var todo := args.Keys;
    while todo != {}
      invariant todo <= args.Keys
      invariant forall key | key in todo :: key in out && out[key] == args[key]
      invariant forall key | key !in todo :: key in out <==> key in ConvertedAll(lib, schema, args)
      invariant forall key | key !in todo && key in out :: out[key] == ConvertedAll(lib, schema, args)[key]
      invariant forall key :: key in bad <==> key in BadOf(lib, schema, args) && key !in todo
      decreases todo
    {
      var key :| key in todo;
      match Convert(lib, schema, key, out[key]) {
        case Refuse => bad := bad + {key};
        case Absent => out := out - {key};
        case Keep(value) => out := out[key := value];
      }
      todo := todo - {key};
    }
  }

  method FindMissing(required: seq<string>, args: Args) returns (missing: multiset<string>)
    ensures missing == MissingOf(required, args)
  {
    missing := multiset{};
    for i := 0 to |required|
      invariant missing == MissingOf(required[..i], args)
    {
      assert required[..i + 1][..i] == required[..i];
      if IsMissing(required[i], args) {
        missing := missing + multiset{required[i]};
      }
    }
    assert required[..|required|] == required;
  }

  // ----- The whole check -----

  /** The answer of a closed schema when the keys are produced in this order. */
  ghost function AnswerAlong(r: Repair, visit: seq<string>): Result<Args, Refusal> {
    var p := RepairAlong(r, visit);
    if p.unknown != {} then Err(UnknownNames(p.unknown)) else Checked(r.lib, r.schema, p.out)
  }

  /** The answers runs give, one for each order in which the maps may be ranged. */
  ghost predicate Outcome(lib: Library, schema: Schema, args: Args, r: Result<Args, Refusal>) {
    if !schema.closed then r == Checked(lib, schema, NonNull(args))
    else exists index, visit :: GivesAnswer(Repair(lib, schema, index, NonNull(args)), visit, r)
  }

  ghost predicate GivesAnswer(rep: Repair, visit: seq<string>, r: Result<Args, Refusal>) {
    Indexes(rep.lib, rep.index, rep.schema) && Enumerates(rep, visit) && r == AnswerAlong(rep, visit)
  }

  /** What all those answers have in common. */
  ghost predicate Answers(rep: Repair, r: Result<Args, Refusal>) {
    if rep.Possible() then exists out :: rep.IsRepaired(out) && r == Checked(rep.lib, rep.schema, out)
    else r.Err? && r.error.UnknownNames? && r.error.names != {} && rep.LeftOver(r.error.names)
  }

  lemma OutcomeAnswers(lib: Library, schema: Schema, args: Args, r: Result<Args, Refusal>)
        returns (index: map<string, string>)
    requires schema.closed && Outcome(lib, schema, args, r)
    ensures Indexes(lib, index, schema) && Answers(Repair(lib, schema, index, NonNull(args)), r)
  {
    var i, visit :| GivesAnswer(Repair(lib, schema, i, NonNull(args)), visit, r);
    index := i;
    var rep := Repair(lib, schema, i, NonNull(args));
    RepairMeetsItsGoal(rep, visit);
    rep.NothingLeftIff(RepairAlong(rep, visit).unknown);
  }

  method DropNulls(args: Args) returns (out: Args)
    ensures out == NonNull(args)
  {
    out := map[];
    var todo := args.Keys;
    while todo != {}
      invariant todo <= args.Keys
      invariant forall key :: key in out <==> key in args && key !in todo && args[key] != Null
      invariant forall key | key in out :: out[key] == args[key]
      decreases todo
    {
      var key :| key in todo;
      if args[key] != Null {
        out := out[key := args[key]];
      }
      todo := todo - {key};
    }
  }

  /** validateArguments; visit is the order in which the repair meets the keys. */
  method ValidateArguments(lib: Library, schema: Schema, args: Args, visit: seq<string>)
        returns (r: Result<Args, Refusal>)
    requires Enumerates(Repair(lib, schema, map[], NonNull(args)), visit)
    ensures Outcome(lib, schema, args, r)
    ensures schema.closed ==> exists index :: GivesAnswer(Repair(lib, schema, index, NonNull(args)), visit, r)
  {
    var out := DropNulls(args);
    if schema.closed {
      var index := IndexNames(lib, schema);
      var rep := Repair(lib, schema, index, out);
      assert Enumerates(rep, visit);
      var repaired, unknown := RepairNames(rep, visit);
      if unknown != {} {
        r := Err(UnknownNames(unknown));
        assert GivesAnswer(rep, visit, r);
        return;
      }
      out := repaired;
      assert GivesAnswer(rep, visit, Checked(lib, schema, out));
    }
    var converted, bad := ConvertEach(lib, schema, out);
    var missing := FindMissing(schema.required, converted);
    if bad != {} || missing != multiset{} {
      return Err(Problems(bad, missing));
    }
    return Ok(converted);
  }

  /** With distinct normal forms, the order in which the maps are ranged over decides
      neither whether a call is accepted nor what the handler then sees. */
  lemma OrderDoesNotMatter(lib: Library, schema: Schema, args: Args, r: Result<Args, Refusal>, s: Result<Args, Refusal>)
    requires schema.closed ==> DistinctForms(lib, schema)
    requires Outcome(lib, schema, args, r) && Outcome(lib, schema, args, s)
    ensures r == s || (r.Err? && s.Err? && r.error.UnknownNames? && s.error.UnknownNames?)
  {
    if schema.closed {
      var i := OutcomeAnswers(lib, schema, args, r);
      var j := OutcomeAnswers(lib, schema, args, s);
      IndexIsUnique(lib, i, j, schema);
      var rep := Repair(lib, schema, i, NonNull(args));
      if rep.Possible() {
        var a :| rep.IsRepaired(a) && r == Checked(lib, schema, a);
        var b :| rep.IsRepaired(b) && s == Checked(lib, schema, b);
        rep.RepairedIsUnique(a, b);
      }
    }
  }

  /** Names are reported as unknown exactly when the renaming is not total, injective
      and clear of the names already given. */
  lemma UnknownNamesIff(lib: Library, schema: Schema, index: map<string, string>, args: Args, r: Result<Args, Refusal>)
    requires schema.closed && DistinctForms(lib, schema) && Indexes(lib, index, schema)
    requires Outcome(lib, schema, args, r)
    ensures r.Err? && r.error.UnknownNames? <==> !Repair(lib, schema, index, NonNull(args)).Possible()
  {
    var i := OutcomeAnswers(lib, schema, args, r);
    IndexIsUnique(lib, i, index, schema);
  }

  lemma RepairedIsDeclared(rep: Repair, out: Args)
    requires Indexes(rep.lib, rep.index, rep.schema) && rep.IsRepaired(out)
    requires forall key | key in rep.given :: rep.given[key] != Null
    ensures forall name | name in out :: name in rep.schema.properties && out[name] != Null
  {
  }

  /** What a successful check was the conversion of. */
  lemma SuccessComesFrom(lib: Library, schema: Schema, args: Args, out: Args) returns (given: Args)
    requires Outcome(lib, schema, args, Ok(out))
    ensures Checked(lib, schema, given) == Ok(out) && forall key | key in given :: given[key] != Null
    ensures schema.closed ==> given.Keys <= schema.properties.Keys
  {
    given := NonNull(args);
    if schema.closed {
      var index := OutcomeAnswers(lib, schema, args, Ok(out));
      var rep := Repair(lib, schema, index, NonNull(args));
      given :| rep.IsRepaired(given) && Ok(out) == Checked(lib, schema, given);
      RepairedIsDeclared(rep, given);
    }
  }

  /** What the handler sees: only declared names under a closed schema, no nulls, each
      value of its declared kind, and every required name with a value that is not
      blank. */
  lemma ResultIsClean(lib: Library, schema: Schema, args: Args, out: Args)
    requires Outcome(lib, schema, args, Ok(out))
    ensures schema.closed ==> out.Keys <= schema.properties.Keys
    ensures forall key | key in out :: out[key] != Null && IsTyped(schema, key, out[key])
    ensures forall name | name in schema.required ::
              name in out && (out[name].Str? ==> TrimSpace(out[name].text) != "")
  {
    var given := SuccessComesFrom(lib, schema, args, out);
    forall key | key in out
      ensures key in given && out[key] != Null && IsTyped(schema, key, out[key])
    {
      ConvertKeepsNonNull(lib, schema, given, key);
      ConvertedIsTyped(lib, schema, key, given[key]);
    }
    forall name | name in schema.required
      ensures !IsMissing(name, out)
    {
      NothingMissing(schema.required, out, name);
    }
  }

  lemma ConvertKeepsNonNull(lib: Library, schema: Schema, given: Args, key: string)
    requires key in ConvertedAll(lib, schema, given) && key !in BadOf(lib, schema, given) && given[key] != Null
    ensures var kept := ConvertedAll(lib, schema, given)[key];
            kept != Null && Convert(lib, schema, key, kept) == Keep(kept)
  {
    ConvertIsIdempotent(lib, schema, key, given[key]);
  }

  lemma RecheckChangesNothing(lib: Library, schema: Schema, given: Args, out: Args)
    requires Checked(lib, schema, given) == Ok(out) && forall key | key in given :: given[key] != Null
    ensures Checked(lib, schema, out) == Ok(out)
  {
    forall key | key in out
      ensures Convert(lib, schema, key, out[key]) == Keep(out[key])
    {
      ConvertKeepsNonNull(lib, schema, given, key);
    }
    assert ConvertedAll(lib, schema, out) == out;
    assert BadOf(lib, schema, out) == {};
  }

  /** Checking an accepted result again accepts it unchanged, in every order. */
  lemma RevalidationIsIdentity(lib: Library, schema: Schema, args: Args, out: Args, again: Result<Args, Refusal>)
    requires Outcome(lib, schema, args, Ok(out)) && Outcome(lib, schema, out, again)
    ensures again == Ok(out)
  {
    SuccessIsStable(lib, schema, args, out);
    ResultIsClean(lib, schema, args, out);
    NonNullKeepsAll(out);
    if schema.closed {
      CleanIsNotRenamed(lib, schema, out, again);
    }
  }

  lemma NonNullKeepsAll(out: Args)
    requires forall key | key in out :: out[key] != Null
    ensures NonNull(out) == out
  {
  }

  lemma SuccessIsStable(lib: Library, schema: Schema, args: Args, out: Args)
    requires Outcome(lib, schema, args, Ok(out))
    ensures Checked(lib, schema, out) == Ok(out)
  {
    var given := SuccessComesFrom(lib, schema, args, out);
    RecheckChangesNothing(lib, schema, given, out);
  }

  lemma CleanIsNotRenamed(lib: Library, schema: Schema, out: Args, again: Result<Args, Refusal>)
    requires schema.closed && out.Keys <= schema.properties.Keys && NonNull(out) == out
    requires Outcome(lib, schema, out, again)
    ensures again == Checked(lib, schema, out)
  {
    var index := OutcomeAnswers(lib, schema, out, again);
    NothingToRepair(Repair(lib, schema, index, out), again);
  }

  lemma NothingToRepair(rep: Repair, r: Result<Args, Refusal>)
    requires rep.given.Keys <= rep.schema.properties.Keys && Answers(rep, r)
    ensures r == Checked(rep.lib, rep.schema, rep.given)
  {
    assert rep.Possible();
    forall name | name in rep.given
      ensures rep.Comes(name, name)
    {
    }
    assert rep.IsRepaired(rep.given);
    var out :| rep.IsRepaired(out) && r == Checked(rep.lib, rep.schema, out);
    rep.RepairedIsUnique(out, rep.given);
  }
}
