/** Printing a map as a JavaScript object literal: names sorted in place, so that the
    text depends on the map alone. */
module JsObject {
  import opened Wrappers
  import opened Ordering
  import opened JsLiteral

  /** No later name is less than an earlier one. */
  ghost predicate InOrder(names: seq<string>) {
    forall i, j | 0 <= i < j < |names| :: !Less(names[j], names[i])
  }

  lemma {:induction false} NotLessIsTransitive(a: string, b: string, c: string)
    requires !Less(b, a) && !Less(c, b)
    ensures !Less(c, a)
  {
    LessIsTotal(a, b);
    LessIsTotal(b, c);
    if Less(c, a) && a != b {
      LessIsTransitive(c, a, b);
    }
  }

  /** The prefix up to i is in order but for the name at j, which still moves down. */
  ghost predicate InOrderBut(names: seq<string>, i: nat, j: nat) {
    i < |names| && forall a, b | 0 <= a < b <= i && b != j :: !Less(names[b], names[a])
  }

  lemma MoveDown(names: seq<string>, i: nat, j: nat)
    requires InOrderBut(names, i, j) && 0 < j <= i && Less(names[j], names[j - 1])
    ensures InOrderBut(names[j := names[j - 1]][j - 1 := names[j]], i, j - 1)
  {
    LessIsTotal(names[j], names[j - 1]);
  }

  lemma MovedEnough(names: seq<string>, i: nat, j: nat)
    requires InOrderBut(names, i, j) && j <= i && (j == 0 || !Less(names[j], names[j - 1]))
    ensures InOrder(names[..i + 1])
  {
    forall a | 0 <= a < j
      ensures !Less(names[j], names[a])
    {
      if a < j - 1 {
        NotLessIsTransitive(names[a], names[j - 1], names[j]);
      }
    }
  }

  /** The insertion sort, swap by swap. */
  method SortNames(names: array<string>)
    modifies names
    ensures InOrder(names[..]) && multiset(names[..]) == multiset(old(names[..]))
  {
    var i := 1;
    while i < names.Length
      invariant 1 <= i && (i <= names.Length ==> InOrder(names[..i])) && (names.Length < i ==> names.Length == 0)
      invariant multiset(names[..]) == multiset(old(names[..]))
    {
      var j := i;
      assert InOrderBut(names[..], i, j) by {
        assert forall a | 0 <= a < i :: names[..][a] == names[..i][a];
      }
      while j > 0 && Less(names[j], names[j - 1])
        invariant 0 <= j <= i < names.Length && InOrderBut(names[..], i, j)
        invariant multiset(names[..]) == multiset(old(names[..]))
      {
        MoveDown(names[..], i, j);
        ghost var before := names[..];
        names[j], names[j - 1] := names[j - 1], names[j];
        assert names[..] == before[j := before[j - 1]][j - 1 := before[j]];
        j := j - 1;
      }
      MovedEnough(names[..], i, j);
      assert names[..][..i + 1] == names[..i + 1];
      i := i + 1;
    }
    if 0 < names.Length {
      assert names[..i] == names[..];
    }
  }

  lemma CountedTwice(s: seq<string>, i: nat, j: nat)
    requires i < j < |s| && s[i] == s[j]
    ensures multiset(s)[s[i]] >= 2
  {
    assert s == s[..i] + [s[i]] + s[i + 1..];
    assert s[j] in s[i + 1..];
  }

  /** A sorted arrangement of a set of names is the one in ascending order. */
  lemma {:induction false} SortedArrangementIsUnique(names: seq<string>, all: set<string>)
    requires InOrder(names) && multiset(names) == multiset(all)
    ensures names == Sorted(all)
  {
    forall i, j | 0 <= i < j < |names|
      ensures Less(names[i], names[j])
    {
      if names[i] == names[j] {
        CountedTwice(names, i, j);
      }
      LessIsTotal(names[i], names[j]);
    }
    forall s
      ensures s in names <==> s in all
    {
      assert s in names <==> s in multiset(names);
      assert s in all <==> s in multiset(all);
    }
    ListIsUnique(names, Sorted(all), all);
  }

  function Member(name: string, values: map<string, string>): string
    requires name in values
  {
    StringText(name) + [':'] + StringText(values[name])
  }

  /** strings.Join of the members with commas. */
  function Members(names: seq<string>, values: map<string, string>): string
    requires forall name | name in names :: name in values
  {
    if names == [] then []
    else if |names| == 1 then Member(names[0], values)
    else Member(names[0], values) + [','] + Members(names[1..], values)
  }

  /** The literal of a map. */
  ghost function ObjectText(values: map<string, string>): string {
    ['{'] + Members(Sorted(values.Keys), values) + ['}']
  }

  lemma Regroup(a: string, b: string, c: string, d: string)
    ensures a + b + c + d == a + (b + (c + d)) == a + (b + c + d)
  {
  }

  lemma {:induction false} MembersAppend(names: seq<string>, name: string, values: map<string, string>)
    requires names != [] && name in values && forall n | n in names :: n in values
    ensures Members(names + [name], values) == Members(names, values) + [','] + Member(name, values)
  {
    if |names| == 1 {
      assert (names + [name])[1..] == [name];
    } else {
      MembersAppend(names[1..], name, values);
      assert (names + [name])[1..] == names[1..] + [name];
      Regroup(Member(names[0], values) + [','], Members(names[1..], values), [','], Member(name, values));
    }
  }

  lemma {:induction false} JoinOneMore(all: seq<string>, i: nat, values: map<string, string>)
    requires i < |all| && forall n | n in all :: n in values
    ensures Members(all[..i + 1], values)
         == if i > 0 then Members(all[..i], values) + [','] + Member(all[i], values) else Member(all[i], values)
  {
    assert all[..i + 1] == all[..i] + [all[i]];
    if i > 0 {
      MembersAppend(all[..i], all[i], values);
    }
  }

  lemma OneNameMore(all: set<string>, todo: set<string>, name: string)
    requires todo <= all && name in todo
    ensures multiset(all - (todo - {name})) == multiset(all - todo) + multiset{name}
    ensures |todo - {name}| == |todo| - 1
  {
  }

  /** The names of a map in whatever order it is ranged over. */
  method NamesOf(values: map<string, string>) returns (names: array<string>)
    ensures fresh(names) && multiset(names[..]) == multiset(values.Keys)
  {
    names := new string[|values|](_ => "");
    var todo, n := values.Keys, 0;
    assert values.Keys - todo == {};
    while todo != {}
      invariant todo <= values.Keys && n + |todo| == names.Length
      invariant multiset(names[..n]) == multiset(values.Keys - todo)
      decreases todo
    {
      var name :| name in todo;
      OneNameMore(values.Keys, todo, name);
      names[n] := name;
      assert names[..n + 1] == names[..n] + [name];
      todo := todo - {name};
      n := n + 1;
    }
    assert values.Keys - todo == values.Keys;
    assert names[..n] == names[..];
  }

  method JsObject(values: map<string, string>) returns (text: string)
    ensures text == ObjectText(values)
  {
    if |values| == 0 {
      assert values.Keys == {};
      return ['{', '}'];
    }
    var names := NamesOf(values);
    SortNames(names);
    SortedArrangementIsUnique(names[..], values.Keys);
    ghost var all := names[..];
    var parts: string := [];
    for i := 0 to names.Length
      invariant names[..] == all && parts == Members(all[..i], values)
    {
      assert all[i] in all;
      var name := JsString(names[i]);
      var value := JsString(values[names[i]]);
      var part := name + [':'] + value;
      assert part == Member(all[i], values);
      JoinOneMore(all, i, values);
      parts := if i > 0 then parts + [','] + part else part;
    }
    assert all[..names.Length] == all;
    text := ['{'] + parts + ['}'];
  }

  // ----- Reading an object back -----

  /** The members after the opening brace, in the order they are written. */
  function ReadMembers(src: string): Option<(seq<(Units, Units)>, string)>
    decreases |src|
  {
    var name := ReadString(src);
    ReadShortens(src);
    if name.None? || name.value.1 == [] || name.value.1[0] != ':' then None
    else
      var value := ReadString(name.value.1[1..]);
      ReadShortens(name.value.1[1..]);
      if value.None? || value.value.1 == [] then None
      else
        var member, after := (name.value.0, value.value.0), value.value.1;
        if after[0] == '}' then Some(([member], after[1..]))
        else if after[0] != ',' then None
        else
          var more := ReadMembers(after[1..]);
          if more.None? then None else Some(([member] + more.value.0, more.value.1))
  }

  function ReadObject(src: string): Option<(seq<(Units, Units)>, string)> {
    if src == [] || src[0] != '{' then None
    else if src[1..] != [] && src[1] == '}' then Some(([], src[2..]))
    else ReadMembers(src[1..])
  }

  lemma {:induction false} BodyShortens(src: string)
    ensures var r := ReadBody(src); r.Some? ==> |r.value.1| < |src|
    decreases |src|
  {
    if src != [] && src[0] == '\\' {
      if Escape(src[1..]).Some? {
        BodyShortens(Escape(src[1..]).value.1);
      }
    } else if src != [] && src[0] != '"' {
      BodyShortens(src[1..]);
    }
  }

  lemma ReadShortens(src: string)
    ensures var r := ReadString(src); r.Some? ==> |r.value.1| < |src|
  {
    if src != [] {
      BodyShortens(src[1..]);
    }
  }

  function Pairs(names: seq<string>, values: map<string, string>): seq<(Units, Units)>
    requires forall name | name in names :: name in values
  {
    if names == [] then []
    else [(Utf16(names[0]), Utf16(values[names[0]]))] + Pairs(names[1..], values)
  }

  /** What follows a member's name when rest follows the member. */
  function ValueOn(name: string, values: map<string, string>, rest: string): string
    requires name in values
  {
    [':'] + (StringText(values[name]) + rest)
  }

  lemma MemberSplits(name: string, values: map<string, string>, rest: string)
    requires name in values
    ensures Member(name, values) + rest == StringText(name) + ValueOn(name, values, rest)
  {
  }

  lemma {:induction false} MemberReads(name: string, values: map<string, string>, rest: string)
    requires name in values
    ensures ReadString(Member(name, values) + rest) == Some((Utf16(name), ValueOn(name, values, rest)))
    ensures ReadString(ValueOn(name, values, rest)[1..]) == Some((Utf16(values[name]), rest))
  {
    MemberSplits(name, values, rest);
    StringRoundTrip(name, ValueOn(name, values, rest));
    StringRoundTrip(values[name], rest);
    assert ValueOn(name, values, rest)[1..] == StringText(values[name]) + rest;
  }

  /** Reading a member takes exactly it off the text. */
  lemma {:induction false} MemberThen(name: string, values: map<string, string>, tail: string)
    requires name in values && tail != []
    ensures var member := (Utf16(name), Utf16(values[name]));
            ReadMembers(Member(name, values) + tail)
            == if tail[0] == '}' then Some(([member], tail[1..]))
               else if tail[0] != ',' then None
               else var more := ReadMembers(tail[1..]);
                    if more.None? then None else Some(([member] + more.value.0, more.value.1))
  {
    MemberReads(name, values, tail);
    var value := ValueOn(name, values, tail);
    assert value[0] == ':';
  }

  /** The closing brace and the text behind the object. */
  function Closing(rest: string): string {
    ['}'] + rest
  }

  lemma {:induction false} MembersSplit(names: seq<string>, values: map<string, string>, rest: string)
    requires |names| > 1 && forall name | name in names :: name in values
    ensures Members(names, values) + rest == Member(names[0], values) + ([','] + (Members(names[1..], values) + rest))
  {
    Regroup(Member(names[0], values), [','], Members(names[1..], values), rest);
  }

  lemma {:induction false} MembersRead(names: seq<string>, values: map<string, string>, rest: string)
    requires names != [] && forall name | name in names :: name in values
    ensures ReadMembers(Members(names, values) + Closing(rest)) == Some((Pairs(names, values), rest))
  {
    if |names| == 1 {
      MemberThen(names[0], values, Closing(rest));
      assert Closing(rest)[1..] == rest && names[1..] == [];
      assert Pairs(names, values) == [(Utf16(names[0]), Utf16(values[names[0]]))];
    } else {
      MembersRead(names[1..], values, rest);
      MembersSplit(names, values, Closing(rest));
      var more := Members(names[1..], values) + Closing(rest);
      MemberThen(names[0], values, [','] + more);
      assert ([','] + more)[1..] == more;
    }
  }

  lemma {:induction false} MembersStart(names: seq<string>, values: map<string, string>)
    requires names != [] && forall name | name in names :: name in values
    ensures Members(names, values) != [] && Members(names, values)[0] == '"'
  {
  }

  /** A printed object reads back as its entries in ascending order of names, and the
      reader stops right behind it. */
  lemma {:induction false} ObjectRoundTrip(values: map<string, string>, rest: string)
    ensures ReadObject(ObjectText(values) + rest) == Some((Pairs(Sorted(values.Keys), values), rest))
  {
    var names := Sorted(values.Keys);
    var members := Members(names, values);
    ObjectSplits(members, rest);
    if names != [] {
      MembersRead(names, values, rest);
      MembersStart(names, values);
    }
  }

  lemma ObjectSplits(members: string, rest: string)
    ensures var src := ['{'] + members + ['}'] + rest;
            && src[1..] == members + Closing(rest)
            && (members == [] ==> src[1] == '}' && src[2..] == rest)
            && (members != [] ==> src[1] == members[0])
  {
  }
}
