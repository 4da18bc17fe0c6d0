/** Totals. Amounts are whole cents, so every total is an integer and the order
    of summation never matters. */
module Sums {

  function Sum(s: seq<int>): int {
    if s == [] then 0 else s[0] + Sum(s[1..])
  }

  lemma {:induction false} SumAppend(s: seq<int>, t: seq<int>)
    ensures Sum(s + t) == Sum(s) + Sum(t)
  {
    if s == [] {
      assert s + t == t;
    } else {
      SumAppend(s[1..], t);
      assert (s + t)[1..] == s[1..] + t;
    }
  }

  lemma {:induction false} SumOfLast(s: seq<int>)
    requires s != []
    ensures Sum(s) == Sum(s[..|s| - 1]) + s[|s| - 1]
  {
    SumAppend(s[..|s| - 1], [s[|s| - 1]]);
    assert s == s[..|s| - 1] + [s[|s| - 1]];
  }

  /** The total of a column: the sum of the values of a map. */
  ghost function Total<K(!new)>(m: map<K, int>): int
    decreases |m|
  {
    if m.Keys == {} then 0 else
      var k :| k in m;
      assert |m - {k}| < |m| by { RemoveShrinks(m, k); }
      m[k] + Total(m - {k})
  }

  lemma RemoveShrinks<K, V>(m: map<K, V>, k: K)
    requires k in m
    ensures |m - {k}| == |m| - 1
  {
  }

  lemma {:induction false} TotalRemove<K(!new)>(m: map<K, int>, k: K)
    requires k in m
    ensures Total(m) == m[k] + Total(m - {k})
    decreases |m|
  {
    var x :| x in m && Total(m) == m[x] + Total(m - {x});
    if x != k {
      RemoveShrinks(m, x);
      RemoveShrinks(m, k);
      TotalRemove(m - {x}, k);
      TotalRemove(m - {k}, x);
      assert m - {x} - {k} == m - {k} - {x};
    }
  }

  lemma TotalAdd<K(!new)>(m: map<K, int>, k: K, v: int)
    requires k !in m
    ensures Total(m[k := v]) == Total(m) + v
  {
    TotalRemove(m[k := v], k);
    assert m[k := v] - {k} == m;
  }

  lemma MergeRemove<K, V>(a: map<K, V>, b: map<K, V>, k: K)
    requires k in b && k !in a
    ensures (a + b) - {k} == a + (b - {k})
  {
  }

  lemma {:induction false} TotalMerge<K(!new)>(a: map<K, int>, b: map<K, int>)
    requires a.Keys !! b.Keys
    ensures Total(a + b) == Total(a) + Total(b)
    decreases |b|
  {
    if b.Keys == {} {
      assert a + b == a;
    } else {
      var k :| k in b;
      RemoveShrinks(b, k);
      TotalMerge(a, b - {k});
      TotalRemove(b, k);
      TotalRemove(a + b, k);
      MergeRemove(a, b, k);
    }
  }

  /** Renaming the keys one to one leaves the total alone. */
  lemma {:induction false} TotalRekey<K(!new), L(!new)>(m: map<K, int>, name: map<K, L>, n: map<L, int>)
    requires name.Keys == m.Keys
    requires forall j, k | j in m && k in m && j != k :: name[j] != name[k]
    requires n.Keys == name.Values
    requires forall k | k in m :: n[name[k]] == m[k]
    ensures Total(n) == Total(m)
    decreases |m|
  {
    if m.Keys == {} {
      assert n.Keys == {};
    } else {
      var k :| k in m;
      var l := name[k];
      RemoveShrinks(m, k);
      assert (name - {k}).Values == n.Keys - {l} by {
        forall x | x in n.Keys - {l}
          ensures x in (name - {k}).Values
        {
          var j :| j in name && name[j] == x;
          assert j in name - {k} && (name - {k})[j] == x;
        }
      }
      TotalRekey(m - {k}, name - {k}, n - {l});
      TotalRemove(m, k);
      TotalRemove(n, l);
    }
  }

  /** The total of column by column differences. */
  lemma {:induction false} TotalMinus<K(!new)>(a: map<K, int>, b: map<K, int>, d: map<K, int>)
    requires a.Keys == b.Keys == d.Keys
    requires forall k | k in a :: d[k] == a[k] - b[k]
    ensures Total(d) == Total(a) - Total(b)
    decreases |a|
  {
    if a.Keys == {} {
    } else {
      var k :| k in a;
      RemoveShrinks(a, k);
      TotalMinus(a - {k}, b - {k}, d - {k});
      TotalRemove(a, k);
      TotalRemove(b, k);
      TotalRemove(d, k);
    }
  }

  /** Bookkeeping of a loop that ranges over a collection in any order. */
  lemma VisitOneMore<T>(all: set<T>, todo: set<T>, x: T)
    requires x in todo && todo <= all
    ensures all - (todo - {x}) == (all - todo) + {x} && x !in all - todo
  {
  }
}
