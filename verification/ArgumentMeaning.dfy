/** What checking arguments preserves: an accepted value says what the value sent said,
    under a name that spells the same property. */
module ArgumentMeaning {
  import opened Wrappers
  import opened Text
  import opened Arguments

  // ----- Values -----

  /** The printed form of a text, a number or a flag. */
  ghost predicate Printed(lib: Library, given: Value, text: string) {
    || (given.Str? && text == given.text)
    || (given.Number? && text == lib.format(given.number))
    || (given.Bool? && text == if given.flag then "true" else "false")
  }

  /** The number a text spells, or a number itself. */
  ghost predicate SpellsNumber(lib: Library, given: Value, x: real) {
    given == Number(x) || (given.Str? && lib.parse(TrimSpace(given.text)) == Some(x))
  }

  /** The flag a text spells, whatever its case and the blanks around it, or a flag. */
  ghost predicate SpellsFlag(lib: Library, given: Value, flag: bool) {
    given == Bool(flag)
    || (given.Str? && ToLower(TrimSpace(given.text), lib.fold) == if flag then "true" else "false")
  }

  /** The value accepted for a property of this kind says what the given one says. */
  ghost predicate Means(lib: Library, key: string, kind: Kind, given: Value, kept: Value) {
    match kind
    case StringKind =>
      kept.Str? && exists text :: Printed(lib, given, text) && kept.text == if IsIdField(key) then TrimSpace(text) else text
    case IntegerKind => kept.Number? && SpellsNumber(lib, given, kept.number)
    case NumberKind => kept.Number? && SpellsNumber(lib, given, kept.number)
    case BooleanKind => kept.Bool? && SpellsFlag(lib, given, kept.flag)
    case ArrayKind => kept == given
    case ObjectKind => kept == given
    case AnyKind => kept == given
  }

  /** A blank id: the property counts as not given. */
  ghost predicate BlankId(lib: Library, key: string, kind: Kind, given: Value) {
    kind == StringKind && IsIdField(key) && exists text :: Printed(lib, given, text) && TrimSpace(text) == ""
  }

  lemma PrintedIsText(lib: Library, given: Value, text: string)
    ensures Printed(lib, given, text) <==> AsText(lib, given) == Some(text)
  {
  }

  lemma UuidIsNotBlank(s: string)
    requires IsUuid(s)
    ensures s != ""
  {
  }

  lemma StringMeans(lib: Library, key: string, given: Value, kept: Value)
    ensures ConvertString(lib, key, given) == Keep(kept)
       <==> HasKind(key, StringKind, kept) && Means(lib, key, StringKind, given, kept)
    ensures ConvertString(lib, key, given) == Absent <==> BlankId(lib, key, StringKind, given)
  {
    forall text
      ensures Printed(lib, given, text) <==> AsText(lib, given) == Some(text)
    {
      PrintedIsText(lib, given, text);
    }
    if AsText(lib, given).Some? {
      assert Printed(lib, given, AsText(lib, given).value);
    }
  }

  lemma FlagMeans(lib: Library, key: string, given: Value, kept: Value)
    ensures ConvertBoolean(lib, given) == Keep(kept)
       <==> HasKind(key, BooleanKind, kept) && Means(lib, key, BooleanKind, given, kept)
    ensures ConvertBoolean(lib, given) != Absent
  {
    assert "true"[0] != "false"[0];
  }

  lemma NumberMeans(lib: Library, given: Value, x: real)
    ensures Numeric(lib, given) == Some(x) <==> SpellsNumber(lib, given, x)
  {
  }

  /** A value is accepted as kept if and only if kept is of the declared kind and says
      what was given; it is dropped if and only if it is a blank id. */
  lemma ConvertedMeans(lib: Library, key: string, kind: Kind, given: Value, kept: Value)
    ensures ConvertArgument(lib, key, kind, given) == Keep(kept) <==> HasKind(key, kind, kept) && Means(lib, key, kind, given, kept)
    ensures ConvertArgument(lib, key, kind, given) == Absent <==> BlankId(lib, key, kind, given)
  {
    match kind
    case StringKind => StringMeans(lib, key, given, kept);
    case BooleanKind => FlagMeans(lib, key, given, kept);
    case IntegerKind =>
      if kept.Number? {
        NumberMeans(lib, given, kept.number);
      }
    case NumberKind =>
      if kept.Number? {
        NumberMeans(lib, given, kept.number);
      }
    case _ =>
  }

  // ----- Identifiers -----

  ghost predicate AllHex(s: string) {
    forall c | c in s :: '0' <= c <= '9' || 'a' <= c <= 'f' || 'A' <= c <= 'F'
  }

  ghost predicate FiveGroups(s: string, a: string, b: string, c: string, d: string, e: string) {
    && |a| == 8 && |b| == 4 && |c| == 4 && |d| == 4 && |e| == 12
    && AllHex(a) && AllHex(b) && AllHex(c) && AllHex(d) && AllHex(e)
    && s == a + "-" + b + "-" + c + "-" + d + "-" + e
  }

  lemma GroupIsHex(s: string, from: nat, to: nat)
    requires IsUuid(s) && from <= to <= 36
    requires to <= 8 || 9 <= from <= to <= 13 || 14 <= from <= to <= 18 || 19 <= from <= to <= 23 || 24 <= from
    ensures AllHex(s[from..to])
  {
    forall c | c in s[from..to]
      ensures '0' <= c <= '9' || 'a' <= c <= 'f' || 'A' <= c <= 'F'
    {
      var i :| 0 <= i < to - from && s[from..to][i] == c;
      assert s[from + i] == c;
    }
  }

  lemma GroupsOfUuid(s: string)
    requires IsUuid(s)
    ensures FiveGroups(s, s[..8], s[9..13], s[14..18], s[19..23], s[24..])
  {
    GroupIsHex(s, 0, 8);
    GroupIsHex(s, 9, 13);
    GroupIsHex(s, 14, 18);
    GroupIsHex(s, 19, 23);
    GroupIsHex(s, 24, 36);
    assert s[0..8] == s[..8] && s[24..36] == s[24..];
    assert s[8] == '-' && s[13] == '-' && s[18] == '-' && s[23] == '-';
    assert s == s[..8] + "-" + s[9..13] + "-" + s[14..18] + "-" + s[19..23] + "-" + s[24..];
  }

  lemma GroupsMakeUuid(s: string, a: string, b: string, c: string, d: string, e: string)
    requires FiveGroups(s, a, b, c, d, e)
    ensures IsUuid(s)
  {
    forall i | 0 <= i < 36
      ensures if i == 8 || i == 13 || i == 18 || i == 23 then s[i] == '-' else IsHex(s[i])
    {
      if i < 8 {
        assert s[i] == a[i] && a[i] in a;
      } else if 8 < i < 13 {
        assert s[i] == b[i - 9] && b[i - 9] in b;
      } else if 13 < i < 18 {
        assert s[i] == c[i - 14] && c[i - 14] in c;
      } else if 18 < i < 23 {
        assert s[i] == d[i - 19] && d[i - 19] in d;
      } else if 23 < i {
        assert s[i] == e[i - 24] && e[i - 24] in e;
      }
    }
  }

  /** An id is five groups of 8, 4, 4, 4 and 12 hexadecimal digits, joined by dashes. */
  lemma UuidIsFiveGroups(s: string)
    ensures IsUuid(s) <==> exists a, b, c, d, e :: FiveGroups(s, a, b, c, d, e)
  {
    if IsUuid(s) {
      GroupsOfUuid(s);
    }
    if a, b, c, d, e :| FiveGroups(s, a, b, c, d, e) {
      GroupsMakeUuid(s, a, b, c, d, e);
    }
  }

  /** A property holds an id if it is called "id" or something followed by "Id". */
  lemma IdFieldsAreNamed(name: string)
    ensures IsIdField(name) <==> name == "id" || exists head :: head != "" && name == head + "Id"
  {
    if |name| > 2 && name[|name| - 2..] == "Id" {
      var head := name[..|name| - 2];
      assert head != "" && name == head + "Id";
    }
    if head :| head != "" && name == head + "Id" {
      assert name[|name| - 2..] == "Id";
    }
  }

  // ----- Names -----

  predicate IsSeparator(c: char) {
    c == '_' || c == '-' || c == ' '
  }

  lemma {:induction false} StripAppend(a: string, b: string)
    ensures Strip(a + b) == Strip(a) + Strip(b)
  {
    if a == "" {
      assert a + b == b;
    } else {
      StripAppend(a[1..], b);
      StripFirst(a);
      StripFirst(a + b);
      assert (a + b)[1..] == a[1..] + b && (a + b)[0] == a[0];
      Associate(if IsSeparator(a[0]) then "" else [a[0]], Strip(a[1..]), Strip(b));
    }
  }

  lemma Associate(x: string, y: string, z: string)
    ensures x + (y + z) == x + y + z
  {
  }

  lemma {:induction false} StripFirst(a: string)
    requires a != ""
    ensures Strip(a) == (if IsSeparator(a[0]) then "" else [a[0]]) + Strip(a[1..])
  {
  }

  lemma SeparatorIsStripped(c: char)
    requires IsSeparator(c)
    ensures Strip([c]) == ""
  {
    assert [c][1..] == "";
  }

  /** A separator anywhere in a name makes no difference to what it spells. */
  lemma SeparatorsDoNotCount(lib: Library, a: string, c: char, b: string)
    requires IsSeparator(c)
    ensures NormalizeName(lib, a + [c] + b) == NormalizeName(lib, a + b)
  {
    StripAppend(a + [c], b);
    StripAppend(a, [c]);
    StripAppend(a, b);
    SeparatorIsStripped(c);
    assert Strip(a) + "" == Strip(a);
  }

  /** And a name without any spells itself, whatever its case. */
  lemma PlainNameSpellsItself(lib: Library, a: string)
    requires forall x | x in a :: !IsSeparator(x)
    ensures NormalizeName(lib, a) == ToLower(a, lib.fold)
  {
    NothingStripped(a);
  }

  lemma {:induction false} NothingStripped(a: string)
    requires forall x | x in a :: !IsSeparator(x)
    ensures Strip(a) == a
  {
    if a != "" {
      assert a[0] in a;
      assert forall x | x in a[1..] :: x in a;
      NothingStripped(a[1..]);
      StripFirst(a);
      assert [a[0]] + a[1..] == a;
    }
  }

  /** A key given for a property: its name, or under a closed schema another spelling. */
  ghost predicate Spells(lib: Library, schema: Schema, key: string, name: string) {
    || key == name
    || (&& schema.closed && key !in schema.properties && name in schema.properties
        && NormalizeName(lib, key) == NormalizeName(lib, name))
  }

  // ----- Whole calls -----

  ghost predicate HasDeclaredKind(schema: Schema, name: string) {
    name in schema.properties && schema.properties[name].Some?
  }

  /** The value under this name says what was given for it. */
  ghost predicate Carries(lib: Library, schema: Schema, name: string, given: Value, kept: Value) {
    if HasDeclaredKind(schema, name) then Means(lib, name, schema.properties[name].value, given, kept) else kept == given
  }

  lemma KeptCarries(lib: Library, schema: Schema, name: string, given: Value)
    ensures var c := Convert(lib, schema, name, given);
            && (c.Keep? ==> Carries(lib, schema, name, given, c.value))
            && (c.Absent? ==> HasDeclaredKind(schema, name) && BlankId(lib, name, schema.properties[name].value, given))
  {
    if HasDeclaredKind(schema, name) {
      var kind := schema.properties[name].value;
      var c := ConvertArgument(lib, name, kind, given);
      ConvertedMeans(lib, name, kind, given, if c.Keep? then c.value else given);
    }
  }

  /** The value was given under this key, which spells this name. */
  ghost predicate GivenAs(lib: Library, schema: Schema, args: Args, key: string, name: string, value: Value) {
    key in args && args[key] == value != Null && Spells(lib, schema, key, name)
  }

  /** Every entry of repaired was given under a spelling of its name. */
  ghost predicate NothingMadeUp(lib: Library, schema: Schema, args: Args, repaired: Args) {
    forall name | name in repaired :: exists key :: GivenAs(lib, schema, args, key, name, repaired[name])
  }

  ghost predicate KeptAs(lib: Library, schema: Schema, args: Args, key: string, name: string, repaired: Args) {
    name in repaired && GivenAs(lib, schema, args, key, name, repaired[name])
  }

  /** Every value given is in repaired under the name it spells. */
  ghost predicate NothingLost(lib: Library, schema: Schema, args: Args, repaired: Args) {
    forall key | key in args && args[key] != Null :: exists name :: KeptAs(lib, schema, args, key, name, repaired)
  }

  lemma RepairedRenames(rep: Repair, args: Args, repaired: Args)
    requires rep.schema.closed && Indexes(rep.lib, rep.index, rep.schema) && rep.given == NonNull(args)
    requires rep.Possible() && rep.IsRepaired(repaired)
    ensures NothingMadeUp(rep.lib, rep.schema, args, repaired) && NothingLost(rep.lib, rep.schema, args, repaired)
  {
    forall name | name in repaired
      ensures exists key :: GivenAs(rep.lib, rep.schema, args, key, name, repaired[name])
    {
      var key :| rep.Comes(name, key);
      assert GivenAs(rep.lib, rep.schema, args, key, name, repaired[name]);
    }
    forall key | key in args && args[key] != Null
      ensures exists name :: KeptAs(rep.lib, rep.schema, args, key, name, repaired)
    {
      assert key in rep.given;
      if key in rep.schema.properties {
        assert KeptAs(rep.lib, rep.schema, args, key, key, repaired);
      } else {
        assert rep.Unknown(key) && rep.Hopeful(key);
        assert KeptAs(rep.lib, rep.schema, args, key, rep.Target(key), repaired);
      }
    }
  }

  lemma NothingToRename(lib: Library, schema: Schema, args: Args)
    ensures NothingMadeUp(lib, schema, args, NonNull(args)) && NothingLost(lib, schema, args, NonNull(args))
  {
    forall key | key in args && args[key] != Null
      ensures KeptAs(lib, schema, args, key, key, NonNull(args))
    {
    }
  }

  lemma AcceptedRenames(lib: Library, schema: Schema, args: Args, out: Args) returns (repaired: Args)
    requires Outcome(lib, schema, args, Ok(out))
    ensures NothingMadeUp(lib, schema, args, repaired) && NothingLost(lib, schema, args, repaired)
    ensures Checked(lib, schema, repaired) == Ok(out)
  {
    repaired := NonNull(args);
    if schema.closed {
      var index := OutcomeAnswers(lib, schema, args, Ok(out));
      var rep := Repair(lib, schema, index, NonNull(args));
      repaired :| rep.IsRepaired(repaired) && Ok(out) == Checked(lib, schema, repaired);
      RepairedRenames(rep, args, repaired);
    } else {
      NothingToRename(lib, schema, args);
    }
  }

  /** What was given for a name is in the result, or was a blank id. */
  ghost predicate Arrives(lib: Library, schema: Schema, name: string, given: Value, out: Args) {
    if name in out then Carries(lib, schema, name, given, out[name])
    else HasDeclaredKind(schema, name) && BlankId(lib, name, schema.properties[name].value, given)
  }

  lemma OutIsConverted(lib: Library, schema: Schema, repaired: Args, out: Args, name: string)
    requires Checked(lib, schema, repaired) == Ok(out) && name in out
    ensures name in repaired && Convert(lib, schema, name, repaired[name]) == Keep(out[name])
  {
    assert name !in BadOf(lib, schema, repaired);
  }

  lemma GivenArrives(lib: Library, schema: Schema, repaired: Args, out: Args, name: string)
    requires Checked(lib, schema, repaired) == Ok(out) && name in repaired
    ensures Arrives(lib, schema, name, repaired[name], out)
  {
    assert name !in BadOf(lib, schema, repaired);
    KeptCarries(lib, schema, name, repaired[name]);
  }

  /** The value under this name in the result says what was given under this key. */
  ghost predicate ComesFrom(lib: Library, schema: Schema, args: Args, key: string, name: string, kept: Value) {
    key in args && GivenAs(lib, schema, args, key, name, args[key]) && Carries(lib, schema, name, args[key], kept)
  }

  ghost predicate Reaches(lib: Library, schema: Schema, args: Args, key: string, name: string, out: Args) {
    key in args && GivenAs(lib, schema, args, key, name, args[key]) && Arrives(lib, schema, name, args[key], out)
  }

  /** Nothing is made up and nothing is lost: each value of an accepted call says what
      was given under a spelling of its name, and each value given, nulls apart, is
      there under the name it spells, unless it is a blank id. */
  lemma AcceptedMeansGiven(lib: Library, schema: Schema, args: Args, out: Args)
    requires Outcome(lib, schema, args, Ok(out))
    ensures forall name | name in out :: exists key :: ComesFrom(lib, schema, args, key, name, out[name])
    ensures forall key | key in args && args[key] != Null :: exists name :: Reaches(lib, schema, args, key, name, out)
  {
    var repaired := AcceptedRenames(lib, schema, args, out);
    AllNamesAreGiven(lib, schema, args, repaired, out);
    AllKeysArrive(lib, schema, args, repaired, out);
  }

  lemma AllNamesAreGiven(lib: Library, schema: Schema, args: Args, repaired: Args, out: Args)
    requires NothingMadeUp(lib, schema, args, repaired) && Checked(lib, schema, repaired) == Ok(out)
    ensures forall name | name in out :: exists key :: ComesFrom(lib, schema, args, key, name, out[name])
  {
    forall name | name in out
      ensures exists key :: ComesFrom(lib, schema, args, key, name, out[name])
    {
      OutIsConverted(lib, schema, repaired, out, name);
      KeptCarries(lib, schema, name, repaired[name]);
      var key :| GivenAs(lib, schema, args, key, name, repaired[name]);
      assert ComesFrom(lib, schema, args, key, name, out[name]);
    }
  }

  lemma AllKeysArrive(lib: Library, schema: Schema, args: Args, repaired: Args, out: Args)
    requires NothingLost(lib, schema, args, repaired) && Checked(lib, schema, repaired) == Ok(out)
    ensures forall key | key in args && args[key] != Null :: exists name :: Reaches(lib, schema, args, key, name, out)
  {
    forall key | key in args && args[key] != Null
      ensures exists name :: Reaches(lib, schema, args, key, name, out)
    {
      var name :| KeptAs(lib, schema, args, key, name, repaired);
      GivenArrives(lib, schema, repaired, out, name);
      assert Reaches(lib, schema, args, key, name, out);
    }
  }

  // ----- Which calls are accepted -----

  /** The given value can be read as one of the declared kind. */
  ghost predicate ReadAs(lib: Library, schema: Schema, name: string, given: Value, kept: Value) {
    if HasDeclaredKind(schema, name)
    then HasKind(name, schema.properties[name].value, kept) && Means(lib, name, schema.properties[name].value, given, kept)
    else kept == given
  }

  ghost predicate IsBlankId(lib: Library, schema: Schema, name: string, given: Value) {
    HasDeclaredKind(schema, name) && BlankId(lib, name, schema.properties[name].value, given)
  }

  lemma ConvertIff(lib: Library, schema: Schema, name: string, given: Value, kept: Value)
    ensures Convert(lib, schema, name, given) == Keep(kept) <==> ReadAs(lib, schema, name, given, kept)
    ensures Convert(lib, schema, name, given) == Absent <==> IsBlankId(lib, schema, name, given)
  {
    if HasDeclaredKind(schema, name) {
      ConvertedMeans(lib, name, schema.properties[name].value, given, kept);
    }
  }

  ghost predicate Readable(lib: Library, schema: Schema, name: string, given: Value) {
    IsBlankId(lib, schema, name, given) || exists kept :: ReadAs(lib, schema, name, given, kept)
  }

  predicate IsBlankText(value: Value) {
    value.Str? && TrimSpace(value.text) == ""
  }

  /** The given value can be read as one that is not a blank text. */
  ghost predicate Fills(lib: Library, schema: Schema, name: string, given: Value) {
    exists kept :: ReadAs(lib, schema, name, given, kept) && !IsBlankText(kept)
  }

  lemma ReadableIff(lib: Library, schema: Schema, name: string, given: Value)
    ensures Readable(lib, schema, name, given) <==> !Convert(lib, schema, name, given).Refuse?
    ensures Fills(lib, schema, name, given)
       <==> Convert(lib, schema, name, given).Keep? && !IsBlankText(Convert(lib, schema, name, given).value)
  {
    var c := Convert(lib, schema, name, given);
    forall kept
      ensures c == Keep(kept) <==> ReadAs(lib, schema, name, given, kept)
      ensures c == Absent <==> IsBlankId(lib, schema, name, given)
    {
      ConvertIff(lib, schema, name, given, kept);
    }
    if c.Keep? {
      assert ReadAs(lib, schema, name, given, c.value);
    }
    assert c == Absent <==> IsBlankId(lib, schema, name, given) by {
      ConvertIff(lib, schema, name, given, given);
    }
  }

  lemma NothingBadIff(lib: Library, schema: Schema, args: Args)
    ensures BadOf(lib, schema, args) == {} <==> forall name | name in args :: Readable(lib, schema, name, args[name])
  {
    forall name | name in args
      ensures name in BadOf(lib, schema, args) <==> !Readable(lib, schema, name, args[name])
    {
      ReadableIff(lib, schema, name, args[name]);
    }
  }

  lemma RequiredIff(lib: Library, schema: Schema, args: Args, name: string)
    requires name in args ==> Readable(lib, schema, name, args[name])
    ensures !IsMissing(name, ConvertedAll(lib, schema, args)) <==> name in args && Fills(lib, schema, name, args[name])
  {
    if name in args {
      ReadableIff(lib, schema, name, args[name]);
    }
  }

  /** A call whose names are in order is accepted if and only if every value can be read
      as its declared kind, and every required name has one that is not blank. */
  lemma CheckedIff(lib: Library, schema: Schema, args: Args)
    ensures Checked(lib, schema, args).Ok?
       <==> && (forall name | name in args :: Readable(lib, schema, name, args[name]))
            && (forall name | name in schema.required :: name in args && Fills(lib, schema, name, args[name]))
  {
    NothingBadIff(lib, schema, args);
    if forall name | name in args :: Readable(lib, schema, name, args[name]) {
      var out := ConvertedAll(lib, schema, args);
      forall name
        ensures name in MissingOf(schema.required, out) <==> name in schema.required && IsMissing(name, out)
        ensures !IsMissing(name, out) <==> name in args && Fills(lib, schema, name, args[name])
      {
        NothingMissing(schema.required, out, name);
        RequiredIff(lib, schema, args, name);
      }
      assert MissingOf(schema.required, out) == multiset{} <==> forall name :: name !in MissingOf(schema.required, out);
    }
  }
}
