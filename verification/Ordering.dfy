/** The order sort.Strings and the < of Go strings use. Comparing UTF-8 bytes and
    comparing code points give the same answer. */
module Ordering {

  predicate Less(s: string, t: string) {
    if t == "" then false
    else if s == "" then true
    else s[0] < t[0] || (s[0] == t[0] && Less(s[1..], t[1..]))
  }

  lemma {:induction false} LessIsTotal(s: string, t: string)
    ensures s == t || Less(s, t) || Less(t, s)
    ensures !(Less(s, t) && Less(t, s)) && !Less(s, s)
  {
    if s != "" && t != "" && s[0] == t[0] {
      LessIsTotal(s[1..], t[1..]);
      assert s == [s[0]] + s[1..] && t == [t[0]] + t[1..];
    }
    if s != "" {
      LessIsTotal(s[1..], s[1..]);
    }
  }

  lemma {:induction false} LessIsTransitive(s: string, t: string, u: string)
    requires Less(s, t) && Less(t, u)
    ensures Less(s, u)
  {
    if s != "" && s[0] == t[0] && t[0] == u[0] {
      LessIsTransitive(s[1..], t[1..], u[1..]);
    }
  }

  ghost predicate Ascending(names: seq<string>) {
    forall i, j | 0 <= i < j < |names| :: Less(names[i], names[j])
  }

  /** names lists each of these texts once, in ascending order. */
  ghost predicate Lists(names: seq<string>, all: set<string>) {
    && Ascending(names)
    && forall s :: s in names <==> s in all
  }

  lemma EmptyIff(names: seq<string>)
    ensures names == [] <==> forall s :: s !in names
  {
    if names != [] {
      assert names[0] in names;
    }
  }

  /** There is one such list. */
  lemma {:induction false} ListIsUnique(a: seq<string>, b: seq<string>, all: set<string>)
    requires Lists(a, all) && Lists(b, all)
    ensures a == b
    decreases |a|
  {
    EmptyIff(a);
    EmptyIff(b);
    if a != [] {
      assert a[0] in b;
      var j :| 0 <= j < |b| && b[j] == a[0];
      assert b[0] in a;
      var i :| 0 <= i < |a| && a[i] == b[0];
      LessIsTotal(a[0], b[0]);
      assert i == 0;
      DropFirst(a, all);
      DropFirst(b, all);
      ListIsUnique(a[1..], b[1..], all - {a[0]});
      assert a == [a[0]] + a[1..] && b == [b[0]] + b[1..];
    }
  }

  lemma DropFirst(a: seq<string>, all: set<string>)
    requires a != [] && Lists(a, all)
    ensures Lists(a[1..], all - {a[0]})
  {
    LessIsTotal(a[0], a[0]);
    forall s
      ensures s in a[1..] <==> s in all && s != a[0]
    {
      if s in a[1..] {
        var i :| 0 <= i < |a[1..]| && a[1..][i] == s;
        assert a[i + 1] == s;
        LessIsTotal(a[0], s);
      }
    }
  }

  lemma {:induction false} LeastExists(all: set<string>) returns (least: string)
    requires all != {}
    ensures least in all && forall s | s in all && s != least :: Less(least, s)
    decreases |all|
  {
    var s :| s in all;
    if all == {s} {
      least := s;
    } else {
      least := LeastExists(all - {s});
      LessIsTotal(least, s);
      if Less(s, least) {
        forall t | t in all && t != s
          ensures Less(s, t)
        {
          if t != least {
            LessIsTransitive(s, least, t);
          }
        }
        least := s;
      }
    }
  }

  /** The texts of a set in ascending order: sort.Strings of its enumeration. */
  ghost function Sorted(all: set<string>): (names: seq<string>)
    ensures Lists(names, all)
    decreases |all|
  {
    if all == {} then [] else
      assert exists least :: least in all && forall s | s in all && s != least :: Less(least, s) by {
        var least := LeastExists(all);
      }
      var least :| least in all && forall s | s in all && s != least :: Less(least, s);
      var rest := Sorted(all - {least});
      PrependLeast(least, rest, all);
      [least] + rest
  }

  lemma {:induction false} PrependLeast(least: string, rest: seq<string>, all: set<string>)
    requires least in all && (forall s | s in all && s != least :: Less(least, s)) && Lists(rest, all - {least})
    ensures Lists([least] + rest, all)
  {
    forall i | 0 <= i < |rest|
      ensures rest[i] in all && rest[i] != least
    {
      assert rest[i] in rest;
    }
  }

  /** Sorting the keys of a map. */
  method Sort(all: set<string>) returns (names: seq<string>)
    ensures names == Sorted(all)
  {
    names := [];
    var todo := all;
    while todo != {}
      invariant todo <= all
      invariant Lists(names, all - todo)
      invariant forall s, t | s in names && t in todo :: Less(s, t)
      decreases todo
    {
      ghost var lowest := LeastExists(todo);
      var least :| least in todo && forall s | s in todo && s != least :: Less(least, s);
      AppendGreatest(names, least, all - todo);
      names := names + [least];
      todo := todo - {least};
      assert all - todo == all - (todo + {least}) + {least};
    }
    assert all - todo == all;
    ListIsUnique(names, Sorted(all), all);
  }

  lemma {:induction false} AppendGreatest(names: seq<string>, greatest: string, all: set<string>)
    requires Lists(names, all) && forall s | s in names :: Less(s, greatest)
    ensures Lists(names + [greatest], all + {greatest})
  {
  }
}
