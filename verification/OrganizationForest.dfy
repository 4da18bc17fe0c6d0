/** Organizations and the two recursive queries over them: upward along parent_id
    and downward along the children. Both stop only if no organization is its own
    ancestor, which is what the checks on every change have to preserve. Reporting
    lines of users (manager_id) are checked by the same query over the same shape. */
module OrganizationForest {
  import opened Wrappers

  type Id = nat

  datatype Org = Org(parent: Option<Id>, kind: string)

  type Orgs = map<Id, Org>

  /** The organization n levels above x, if the upward query has an n-th row. */
  ghost function Up(o: Orgs, x: Id, n: nat): Option<Id>
    decreases n
  {
    if x !in o then None
    else if n == 0 then Some(x)
    else match o[x].parent
      case None => None
      case Some(p) => Up(o, p, n - 1)
  }

  ghost predicate Stops(o: Orgs, x: Id) {
    exists n :: Up(o, x, n).None?
  }

  /** Every upward walk ends. */
  ghost predicate Forest(o: Orgs) {
    forall x | x in o :: Stops(o, x)
  }

  ghost predicate Passes(o: Orgs, x: Id, n: nat, y: Id) {
    Up(o, x, n) == Some(y)
  }

  ghost predicate Reaches(o: Orgs, x: Id, y: Id) {
    exists n :: Passes(o, x, n, y)
  }

  ghost predicate ParentsExist(o: Orgs) {
    forall x | x in o && o[x].parent.Some? :: o[x].parent.value in o
  }

  lemma {:induction false} UpAdds(o: Orgs, x: Id, m: nat, n: nat)
    ensures Up(o, x, m + n) == if Up(o, x, m).None? then None else Up(o, Up(o, x, m).value, n)
    decreases m
  {
    if x in o && m > 0 && o[x].parent.Some? {
      UpAdds(o, o[x].parent.value, m - 1, n);
    }
  }

  lemma ReachesIsTransitive(o: Orgs, x: Id, y: Id, z: Id)
    requires Reaches(o, x, y) && Reaches(o, y, z)
    ensures Reaches(o, x, z)
  {
    var m: nat :| Passes(o, x, m, y);
    var n: nat :| Passes(o, y, n, z);
    UpAdds(o, x, m, n);
    assert Passes(o, x, m + n, z);
  }

  /** Where a walk stops, it has stopped for good. */
  lemma {:induction false} StaysStopped(o: Orgs, x: Id, m: nat, n: nat)
    requires Up(o, x, m).None? && m <= n
    ensures Up(o, x, n).None?
  {
    UpAdds(o, x, m, n - m);
  }

  ghost predicate OnCycle(o: Orgs, x: Id) {
    exists n: nat :: n > 0 && Up(o, x, n) == Some(x)
  }

  lemma {:induction false} CycleComesBack(o: Orgs, x: Id, n: nat, k: nat)
    requires n > 0 && Up(o, x, n) == Some(x)
    ensures Up(o, x, k * n) == Some(x)
  {
    if k == 0 {
      assert k * n == 0;
    } else {
      CycleComesBack(o, x, n, k - 1);
      assert k * n == (k - 1) * n + n;
      UpAdds(o, x, (k - 1) * n, n);
    }
  }

  lemma CycleNeverStops(o: Orgs, x: Id)
    requires OnCycle(o, x)
    ensures !Stops(o, x)
  {
    var n: nat :| n > 0 && Up(o, x, n) == Some(x);
    forall m: nat
      ensures Up(o, x, m).Some?
    {
      CycleComesBack(o, x, n, m);
      assert m * n >= m;
      if Up(o, x, m).None? {
        StaysStopped(o, x, m, m * n);
      }
    }
  }

  /** Without cycles a walk does not come back to a row it has passed. */
  lemma {:induction false} NeverBack(o: Orgs, x: Id, i: nat, m: nat)
    requires i < m && Up(o, x, m).Some? && forall y | y in o :: !OnCycle(o, y)
    ensures Up(o, x, i) != Up(o, x, m)
  {
    if Up(o, x, i).Some? {
      UpLandsInside(o, x, i);
      UpAdds(o, x, i, m - i);
      assert !OnCycle(o, Up(o, x, i).value);
    }
  }

  /** The walk of m + 1 rows from x, with no organization on a cycle, visits m + 1
      different organizations: at most as many as there are. */
  lemma {:induction false} WalkVisitsDistinct(o: Orgs, x: Id, m: nat) returns (seen: set<Id>)
    requires Up(o, x, m).Some? && forall y | y in o :: !OnCycle(o, y)
    ensures seen <= o.Keys && |seen| == m + 1
    ensures forall y :: y in seen ==> exists i: nat :: i <= m && Passes(o, x, i, y)
  {
    if m == 0 {
      assert Passes(o, x, 0, x);
      seen := {x};
    } else {
      if Up(o, x, m - 1).None? {
        StaysStopped(o, x, m - 1, m);
      }
      seen := WalkVisitsDistinct(o, x, m - 1);
      var last := Up(o, x, m).value;
      UpLandsInside(o, x, m);
      forall i: nat | i <= m - 1
        ensures !Passes(o, x, i, last)
      {
        NeverBack(o, x, i, m);
      }
      assert Passes(o, x, m, last);
      seen := seen + {last};
    }
  }

  lemma {:induction false} UpLandsInside(o: Orgs, x: Id, n: nat)
    requires Up(o, x, n).Some?
    ensures Up(o, x, n).value in o
    decreases n
  {
    if n > 0 {
      UpLandsInside(o, o[x].parent.value, n - 1);
    }
  }

  /** All walks end if and only if no organization is its own ancestor; and then
      they end within as many steps as there are organizations. */
  lemma {:induction false} ForestIffNoCycle(o: Orgs)
    ensures Forest(o) <==> forall x | x in o :: !OnCycle(o, x)
    ensures Forest(o) ==> forall x | x in o :: Up(o, x, |o|).None?
  {
    if x :| x in o && OnCycle(o, x) {
      CycleNeverStops(o, x);
    } else {
      forall x | x in o
        ensures Up(o, x, |o|).None?
      {
        if Up(o, x, |o|).Some? {
          var seen := WalkVisitsDistinct(o, x, |o|);
          SubsetIsNoLarger(seen, o.Keys);
        }
      }
    }
  }

  lemma {:induction false} SubsetIsNoLarger(a: set<Id>, b: set<Id>)
    requires a <= b
    ensures |a| <= |b|
  {
    if x :| x in a {
      SubsetIsNoLarger(a - {x}, b - {x});
    }
  }

  // ---- the three changes ------------------------------------------------------

  /** Away from id, a changed tree has the old walks. */
  lemma {:induction false} WalkAvoiding(o: Orgs, id: Id, org: Org, x: Id, n: nat)
    requires id in o && forall i: nat | i < n :: !Passes(o, x, i, id)
    ensures Up(o[id := org], x, n) == Up(o, x, n)
    decreases n
  {
    if x in o && n > 0 {
      assert x != id by {
        assert !Passes(o, x, 0, id);
      }
      if o[x].parent.Some? {
        var p := o[x].parent.value;
        forall i: nat | i < n - 1
          ensures !Passes(o, p, i, id)
        {
          assert !Passes(o, x, i + 1, id);
          assert Up(o, x, i + 1) == Up(o, p, i);
        }
        WalkAvoiding(o, id, org, p, n - 1);
      }
    }
  }

  lemma FirstVisit(o: Orgs, x: Id, y: Id) returns (n: nat)
    requires Reaches(o, x, y)
    ensures Up(o, x, n) == Some(y) && forall i: nat | i < n :: !Passes(o, x, i, y)
  {
    var bound: nat :| Passes(o, x, bound, y);
    n := 0;
    while Up(o, x, n) != Some(y)
      invariant n <= bound && forall i: nat | i < n :: !Passes(o, x, i, y)
      decreases bound - n
    {
      n := n + 1;
    }
  }

  /** A walk that never meets id is the same before and after id changes. */
  lemma {:induction false} NotReachingIsUnchanged(o: Orgs, id: Id, org: Org, x: Id)
    requires id in o && !Reaches(o, x, id)
    ensures forall n: nat :: Up(o[id := org], x, n) == Up(o, x, n)
  {
    forall n: nat
      ensures Up(o[id := org], x, n) == Up(o, x, n)
    {
      WalkAvoiding(o, id, org, x, n);
    }
  }

  /** Giving id a parent keeps the forest if and only if that parent is not at or
      below id: precisely the question the chain query asks. */
  lemma ReparentKeepsForestIff(o: Orgs, id: Id, org: Org)
    requires Forest(o) && id in o
    ensures Forest(o[id := org]) <==> org.parent.None? || !Reaches(o, org.parent.value, id)
  {
    var after := o[id := org];
    if org.parent.Some? && Reaches(o, org.parent.value, id) {
      var p := org.parent.value;
      var n := FirstVisit(o, p, id);
      WalkAvoiding(o, id, org, p, n);
      assert Up(after, id, n + 1) == Up(after, p, n) == Some(id);
      assert OnCycle(after, id);
      CycleNeverStops(after, id);
    } else {
      forall x | x in after
        ensures Stops(after, x)
      {
        ReparentedWalkStops(o, id, org, x);
      }
    }
  }

  lemma ReparentedWalkStops(o: Orgs, id: Id, org: Org, x: Id)
    requires Forest(o) && id in o && x in o
    requires org.parent.Some? ==> !Reaches(o, org.parent.value, id)
    ensures Stops(o[id := org], x)
  {
    var after := o[id := org];
    if Reaches(o, x, id) {
      var n := FirstVisit(o, x, id);
      WalkAvoiding(o, id, org, x, n);
      if org.parent.None? {
        assert Up(after, id, 1).None?;
        UpAdds(after, x, n, 1);
      } else {
        var p := org.parent.value;
        NotReachingIsUnchanged(o, id, org, p);
        var k: nat :| Up(o, p, k).None? by {
          if p !in o {
            assert Up(o, p, 0).None?;
          } else {
            assert Stops(o, p);
          }
        }
        assert Up(after, id, k + 1) == Up(after, p, k);
        UpAdds(after, x, n, k + 1);
      }
    } else {
      NotReachingIsUnchanged(o, id, org, x);
      var k: nat :| Up(o, x, k).None? by { assert Stops(o, x); }
      assert Up(after, x, k).None?;
    }
  }

  lemma {:induction false} NewLeafKeepsWalks(o: Orgs, id: Id, org: Org, x: Id, n: nat)
    requires ParentsExist(o) && id !in o && x in o
    ensures Up(o[id := org], x, n) == Up(o, x, n)
    decreases n
  {
    if n > 0 && o[x].parent.Some? {
      NewLeafKeepsWalks(o, id, org, o[x].parent.value, n - 1);
    }
  }

  lemma CreateKeepsForest(o: Orgs, id: Id, org: Org)
    requires Forest(o) && ParentsExist(o) && id !in o && (org.parent.Some? ==> org.parent.value in o)
    ensures Forest(o[id := org]) && ParentsExist(o[id := org])
  {
    var after := o[id := org];
    forall x | x in o
      ensures Stops(after, x)
    {
      var n: nat :| Up(o, x, n).None? by { assert Stops(o, x); }
      NewLeafKeepsWalks(o, id, org, x, n);
    }
    if org.parent.None? {
      assert Up(after, id, 1).None?;
    } else {
      var k: nat :| Up(after, org.parent.value, k).None? by { assert Stops(after, org.parent.value); }
      assert Up(after, id, k + 1).None?;
    }
  }

  lemma {:induction false} LeafRemovalKeepsWalks(o: Orgs, id: Id, x: Id, n: nat)
    requires x != id && forall y | y in o :: o[y].parent != Some(id)
    ensures Up(o - {id}, x, n) == Up(o, x, n)
    decreases n
  {
    if x in o && n > 0 && o[x].parent.Some? {
      LeafRemovalKeepsWalks(o, id, o[x].parent.value, n - 1);
    }
  }

  lemma DeleteKeepsForest(o: Orgs, id: Id)
    requires Forest(o) && ParentsExist(o) && forall y | y in o :: o[y].parent != Some(id)
    ensures Forest(o - {id}) && ParentsExist(o - {id})
  {
    forall x | x in o - {id}
      ensures Stops(o - {id}, x)
    {
      var n: nat :| Up(o, x, n).None? by { assert Stops(o, x); }
      LeafRemovalKeepsWalks(o, id, x, n);
    }
  }

  /** The chain check and the UPDATE are separate statements. Two re-parentings
      that both passed their check on the same tree still leave a forest exactly
      when they do not put each one's subtree under the other. */
  lemma ConcurrentReparentsIff(o: Orgs, a: Id, orgA: Org, b: Id, orgB: Org)
    requires Forest(o) && a in o && b in o && a != b && orgA.parent.Some? && orgB.parent.Some?
    requires !Reaches(o, orgA.parent.value, a) && !Reaches(o, orgB.parent.value, b)
    ensures Forest(o[a := orgA][b := orgB])
       <==> !(Reaches(o, orgA.parent.value, b) && Reaches(o, orgB.parent.value, a))
  {
    var p, q := orgA.parent.value, orgB.parent.value;
    var first := o[a := orgA];
    ReparentKeepsForestIff(o, a, orgA);
    ReparentKeepsForestIff(first, b, orgB);
    NotReachingIsUnchanged(o, a, orgA, p);
    if Reaches(o, q, a) {
      var n := FirstVisit(o, q, a);
      WalkAvoiding(o, a, orgA, q, n);
      forall k: nat
        ensures Up(first, q, n + 1 + k) == Up(o, p, k)
      {
        UpAdds(first, q, n, 1 + k);
        assert Up(first, a, 1 + k) == Up(first, p, k);
      }
      if Reaches(o, p, b) {
        var k: nat :| Passes(o, p, k, b);
        assert Passes(first, q, n + 1 + k, b);
      }
      if m: nat :| Passes(first, q, m, b) {
        if m <= n {
          WalkAvoiding(o, a, orgA, q, m);
          assert Passes(o, q, m, b);
        } else {
          assert Up(first, q, n + 1 + (m - n - 1)) == Up(o, p, m - n - 1);
          assert Passes(o, p, m - n - 1, b);
        }
      }
    } else {
      NotReachingIsUnchanged(o, a, orgA, q);
      if m: nat :| Passes(first, q, m, b) {
        assert Passes(o, q, m, b);
      }
    }
  }

  /** Two roots, each made the child of the other by requests that overlap. */
  lemma ConcurrentReparentsCanCycle()
    ensures var o: Orgs := map[1 := Org(None, ""), 2 := Org(None, "")];
            && Forest(o) && !Reaches(o, 2, 1) && !Reaches(o, 1, 2)
            && !Forest(o[1 := Org(Some(2), "")][2 := Org(Some(1), "")])
  {
    var o: Orgs := map[1 := Org(None, ""), 2 := Org(None, "")];
    forall x, n: nat | n > 0
      ensures Up(o, x, n).None?
    {
    }
    assert Up(o, 1, 1).None? && Up(o, 2, 1).None?;
    assert forall n: nat :: !Passes(o, 2, n, 1) && !Passes(o, 1, n, 2);
    var after := o[1 := Org(Some(2), "")][2 := Org(Some(1), "")];
    assert Up(after, 1, 2) == Up(after, 2, 1) == Up(after, 1, 0) == Some(1);
    assert OnCycle(after, 1);
    CycleNeverStops(after, 1);
  }

  /** The first of these organizations on the upward path from x, within n rows. */
  ghost function FirstOf(o: Orgs, ids: set<Id>, x: Id, n: nat): Option<Id>
    decreases n
  {
    if n == 0 || x !in o then None
    else if x in ids then Some(x)
    else match o[x].parent
      case None => None
      case Some(p) => FirstOf(o, ids, p, n - 1)
  }

  ghost predicate Avoids(o: Orgs, ids: set<Id>, x: Id, n: nat) {
    forall i: nat | i < n :: Up(o, x, i).None? || Up(o, x, i).value !in ids
  }

  lemma {:induction false} WalkAvoidingAll(o: Orgs, requests: Orgs, x: Id, n: nat)
    requires requests.Keys <= o.Keys && Avoids(o, requests.Keys, x, n)
    ensures Up(o + requests, x, n) == Up(o, x, n)
    decreases n
  {
    if x in o && n > 0 {
      assert x !in requests by {
        assert Up(o, x, 0) == Some(x);
      }
      if o[x].parent.Some? {
        var p := o[x].parent.value;
        forall i: nat | i < n - 1
          ensures Up(o, p, i).None? || Up(o, p, i).value !in requests.Keys
        {
          assert Up(o, x, i + 1) == Up(o, p, i);
        }
        WalkAvoidingAll(o, requests, p, n - 1);
      }
    }
  }

  lemma {:induction false} FirstOfIsFirst(o: Orgs, ids: set<Id>, x: Id, n: nat) returns (k: nat)
    ensures FirstOf(o, ids, x, n).Some? ==>
              k < n && Up(o, x, k) == FirstOf(o, ids, x, n) && FirstOf(o, ids, x, n).value in ids
    ensures FirstOf(o, ids, x, n).None? ==> k == n
    ensures Avoids(o, ids, x, k)
    decreases n
  {
    if n == 0 {
      k := 0;
    } else if x in o && x in ids {
      k := 0;
    } else if x in o && o[x].parent.Some? {
      var p := o[x].parent.value;
      var j := FirstOfIsFirst(o, ids, p, n - 1);
      k := j + 1;
      forall i: nat | i < k
        ensures Up(o, x, i).None? || Up(o, x, i).value !in ids
      {
        assert i > 0 ==> Up(o, x, i) == Up(o, p, i - 1);
      }
    } else {
      k := n;
      forall i: nat | i < k
        ensures Up(o, x, i).None? || Up(o, x, i).value !in ids
      {
      }
    }
  }

  /** The re-parented organizations alone: above each stands the first re-parented
      one on the upward path of its new parent. */
  ghost function Condensed(o: Orgs, requests: Orgs): Orgs {
    map id | id in requests ::
      Org(if requests[id].parent.Some? then FirstOf(o, requests.Keys, requests[id].parent.value, |o|) else None, "")
  }

  /** From x the changed tree leads to the first re-parented organization, or ends. */
  lemma WalkToFirst(o: Orgs, requests: Orgs, x: Id) returns (k: nat)
    requires Forest(o) && requests.Keys <= o.Keys
    ensures Up(o + requests, x, k) == FirstOf(o, requests.Keys, x, |o|)
    ensures FirstOf(o, requests.Keys, x, |o|).Some? ==> FirstOf(o, requests.Keys, x, |o|).value in requests
  {
    k := FirstOfIsFirst(o, requests.Keys, x, |o|);
    WalkAvoidingAll(o, requests, x, k);
    ForestIffNoCycle(o);
    if x !in o {
      assert Up(o, x, k).None?;
    }
  }

  lemma CondensedStep(o: Orgs, requests: Orgs, id: Id) returns (m: nat)
    requires Forest(o) && requests.Keys <= o.Keys && id in requests
    ensures m > 0 && Up(o + requests, id, m) == Condensed(o, requests)[id].parent
    ensures Condensed(o, requests)[id].parent.Some? ==> Condensed(o, requests)[id].parent.value in requests
  {
    m := 1;
    if requests[id].parent.Some? {
      var k := WalkToFirst(o, requests, requests[id].parent.value);
      m := k + 1;
    }
  }

  lemma {:induction false} CondensedWalk(o: Orgs, requests: Orgs, id: Id, n: nat) returns (m: nat)
    requires Forest(o) && requests.Keys <= o.Keys && id in requests
    ensures m >= n && Up(o + requests, id, m) == Up(Condensed(o, requests), id, n)
    decreases n
  {
    m := n;
    if n > 0 {
      var k := CondensedStep(o, requests, id);
      var up := Condensed(o, requests)[id].parent;
      if up.Some? {
        var j := CondensedWalk(o, requests, up.value, n - 1);
        UpAdds(o + requests, id, k, j);
        m := k + j;
      } else {
        m := k + n;
        StaysStopped(o + requests, id, k, m);
      }
    }
  }

  /** Any number of re-parentings whose checks and UPDATEs overlap leave a forest
      exactly when the re-parented organizations form one among themselves. */
  lemma AllReparentsIff(o: Orgs, requests: Orgs)
    requires Forest(o) && requests.Keys <= o.Keys
    ensures Forest(o + requests) <==> Forest(Condensed(o, requests))
  {
    var after, condensed := o + requests, Condensed(o, requests);
    if Forest(condensed) {
      forall x | x in after
        ensures Stops(after, x)
      {
        var k := WalkToFirst(o, requests, x);
        if Up(after, x, k).Some? {
          var y := Up(after, x, k).value;
          assert Stops(condensed, y);
          var n: nat :| Up(condensed, y, n).None?;
          var m := CondensedWalk(o, requests, y, n);
          UpAdds(after, x, k, m);
        }
      }
    } else {
      ForestIffNoCycle(condensed);
      var id :| id in condensed && OnCycle(condensed, id);
      var n: nat :| n > 0 && Up(condensed, id, n) == Some(id);
      var m := CondensedWalk(o, requests, id, n);
      assert OnCycle(after, id);
      CycleNeverStops(after, id);
    }
  }

  // ---- the queries ------------------------------------------------------------

  /** The number of rows the upward query from x yields. */
  ghost function Height(o: Orgs, x: Id): (h: nat)
    requires Forest(o)
    ensures Up(o, x, h).None? && forall i: nat | i < h :: Up(o, x, i).Some?
  {
    if x in o then
      ghost var bound: nat :| Up(o, x, bound).None?;
      LeastStop(o, x, 0, bound)
    else 0
  }

  ghost function LeastStop(o: Orgs, x: Id, from: nat, bound: nat): (h: nat)
    requires Up(o, x, bound).None? && from <= bound && forall i: nat | i < from :: Up(o, x, i).Some?
    ensures Up(o, x, h).None? && forall i: nat | i < h :: Up(o, x, i).Some?
    decreases bound - from
  {
    if Up(o, x, from).None? then from else LeastStop(o, x, from + 1, bound)
  }

  lemma NextUp(o: Orgs, x: Id, n: nat)
    requires Up(o, x, n).Some?
    ensures var y := Up(o, x, n).value;
            && y in o
            && Up(o, x, n + 1) == (if o[y].parent.Some? && o[y].parent.value in o then o[y].parent else None)
  {
    UpLandsInside(o, x, n);
    UpAdds(o, x, n, 1);
    var y := Up(o, x, n).value;
    if o[y].parent.Some? {
      assert Up(o, y, 1) == Up(o, o[y].parent.value, 0);
    } else {
      assert Up(o, y, 1).None?;
    }
  }

  /** MemberOfSQL and the cycle check: is target on the upward path from x? */
  method ChainContains(o: Orgs, x: Id, target: Id) returns (found: bool)
    requires Forest(o)
    ensures found <==> Reaches(o, x, target)
  {
    var chain := {};
    var current := if x in o then Some(x) else None;
    ghost var n := 0;
    ghost var h := Height(o, x);
    while current.Some?
      invariant n <= h && Up(o, x, n) == current
      invariant forall y :: y in chain <==> exists i: nat :: i < n && Passes(o, x, i, y)
      decreases h - n
    {
      NextUp(o, x, n);
      ghost var before := chain;
      chain := chain + {current.value};
      assert forall y :: y in chain <==> y in before || Passes(o, x, n, y);
      var parent := o[current.value].parent;
      current := if parent.Some? && parent.value in o then parent else None;
      n := n + 1;
    }
    found := target in chain;
    if Reaches(o, x, target) {
      var i: nat :| Passes(o, x, i, target);
      if i >= n {
        StaysStopped(o, x, n, i);
      }
    }
  }

  ghost predicate OfKind(o: Orgs, at: Option<Id>, kind: string) {
    at.Some? && at.value in o && o[at.value].kind == kind
  }

  /** The nearest organization of this kind at or above x, else x itself. */
  ghost predicate IsScopeRoot(o: Orgs, x: Id, kind: string, root: Id) {
    || (exists n: nat :: && Passes(o, x, n, root) && OfKind(o, Some(root), kind)
                         && forall i: nat | i < n :: !OfKind(o, Up(o, x, i), kind))
    || (root == x && forall n: nat :: !OfKind(o, Up(o, x, n), kind))
  }

  method ScopeRoot(o: Orgs, x: Id, kind: string) returns (root: Id)
    requires Forest(o)
    ensures IsScopeRoot(o, x, kind, root)
  {
    var current := if x in o then Some(x) else None;
    ghost var n := 0;
    ghost var h := Height(o, x);
    while current.Some?
      invariant n <= h && Up(o, x, n) == current
      invariant forall i: nat | i < n :: !OfKind(o, Up(o, x, i), kind)
      decreases h - n
    {
      NextUp(o, x, n);
      if o[current.value].kind == kind {
        assert Passes(o, x, n, current.value);
        return current.value;
      }
      var parent := o[current.value].parent;
      current := if parent.Some? && parent.value in o then parent else None;
      n := n + 1;
    }
    forall m: nat
      ensures !OfKind(o, Up(o, x, m), kind)
    {
      if m >= n {
        StaysStopped(o, x, n, m);
      }
    }
    root := x;
  }

  ghost predicate AtLevel(o: Orgs, root: Id, x: Id, n: nat) {
    if root in o then Up(o, x, n) == Some(root) else n == 0 && x == root
  }

  lemma LevelBelow(o: Orgs, root: Id, x: Id, n: nat)
    requires ParentsExist(o)
    ensures AtLevel(o, root, x, n + 1) <==> x in o && o[x].parent.Some? && AtLevel(o, root, o[x].parent.value, n)
  {
  }

  /** In a forest an organization is on one level of a tree only. */
  lemma LevelsAreDisjoint(o: Orgs, root: Id, x: Id, i: nat, j: nat)
    requires Forest(o) && AtLevel(o, root, x, i) && AtLevel(o, root, x, j)
    ensures i == j
  {
    if root in o && i != j {
      var low, high := if i < j then i else j, if i < j then j else i;
      UpAdds(o, x, low, high - low);
      assert OnCycle(o, root);
      CycleNeverStops(o, root);
    }
  }

  ghost predicate InTree(o: Orgs, root: Id, x: Id) {
    x == root || Reaches(o, x, root)
  }

  lemma InTreeIffOnALevel(o: Orgs, root: Id, x: Id)
    ensures InTree(o, root, x) <==> exists n: nat :: AtLevel(o, root, x, n)
  {
    if root in o {
      if x == root {
        assert AtLevel(o, root, x, 0);
      } else if n :| Passes(o, x, n, root) {
        assert AtLevel(o, root, x, n);
      }
      if n: nat :| AtLevel(o, root, x, n) {
        assert Passes(o, x, n, root);
      }
    } else {
      if n :| Passes(o, x, n, root) {
        UpLandsInside(o, x, n);
      }
      if x == root {
        assert AtLevel(o, root, x, 0);
      }
    }
  }

  /** scope_tree: level by level downward. It collects exactly the organizations
      whose own upward path meets the root, the root included. */
  method ScopeTree(o: Orgs, root: Id) returns (tree: set<Id>)
    requires Forest(o) && ParentsExist(o)
    ensures forall x :: x in tree <==> InTree(o, root, x)
  {
    tree := {};
    var level := {root};
    ghost var n := 0;
    while level != {}
      invariant IsLevel(o, root, level, n)
      invariant IsUpperPart(o, root, tree, n)
      invariant tree <= o.Keys + {root}
      decreases o.Keys + {root} - tree
    {
      NextLevel(o, root, tree, level, n);
      tree := tree + level;
      level := set x | x in o && o[x].parent.Some? && o[x].parent.value in level;
      n := n + 1;
    }
    WholeTree(o, root, tree, n);
  }

  ghost predicate IsLevel(o: Orgs, root: Id, level: set<Id>, n: nat) {
    forall x :: x in level <==> AtLevel(o, root, x, n)
  }

  ghost predicate IsUpperPart(o: Orgs, root: Id, tree: set<Id>, n: nat) {
    forall x :: x in tree <==> exists i: nat :: i < n && AtLevel(o, root, x, i)
  }

  lemma NextLevel(o: Orgs, root: Id, tree: set<Id>, level: set<Id>, n: nat)
    requires Forest(o) && ParentsExist(o)
    requires IsLevel(o, root, level, n) && IsUpperPart(o, root, tree, n)
    ensures level !! tree && level <= o.Keys + {root}
    ensures IsUpperPart(o, root, tree + level, n + 1)
    ensures IsLevel(o, root, (set x | x in o && o[x].parent.Some? && o[x].parent.value in level), n + 1)
  {
    forall x | x in level
      ensures x !in tree && x in o.Keys + {root}
    {
      if i: nat :| i < n && AtLevel(o, root, x, i) {
        LevelsAreDisjoint(o, root, x, i, n);
      }
    }
    forall x
      ensures AtLevel(o, root, x, n + 1) <==> x in o && o[x].parent.Some? && o[x].parent.value in level
    {
      LevelBelow(o, root, x, n);
    }
    forall x
      ensures x in tree + level <==> exists i: nat :: i < n + 1 && AtLevel(o, root, x, i)
    {
      if i: nat :| i < n + 1 && AtLevel(o, root, x, i) {
        assert i < n || i == n;
      }
    }
  }

  lemma WholeTree(o: Orgs, root: Id, tree: set<Id>, n: nat)
    requires Forest(o) && ParentsExist(o) && IsLevel(o, root, {}, n) && IsUpperPart(o, root, tree, n)
    ensures forall x :: x in tree <==> InTree(o, root, x)
  {
    NothingBelowAnEmptyLevel(o, root, n);
    forall x
      ensures x in tree <==> InTree(o, root, x)
    {
      InTreeIffOnALevel(o, root, x);
    }
  }

  lemma NothingBelowAnEmptyLevel(o: Orgs, root: Id, n: nat)
    requires ParentsExist(o) && forall x :: !AtLevel(o, root, x, n)
    ensures forall x, m: nat | n <= m :: !AtLevel(o, root, x, m)
  {
    forall x, m: nat | n <= m
      ensures !AtLevel(o, root, x, m)
    {
      if root in o && Up(o, x, m).Some? {
        UpAdds(o, x, m - n, n);
        if Up(o, x, m - n).Some? {
          assert !AtLevel(o, root, Up(o, x, m - n).value, n);
        }
      } else if root !in o {
        assert n > 0 by {
          if n == 0 {
            assert AtLevel(o, root, root, 0);
          }
        }
      }
    }
  }

  /** A scoped user's own organization is in the scope, and so is everything below
      it: the scope root is always at or above it. */
  lemma ScopeContainsOwnOrganization(o: Orgs, x: Id, kind: string, root: Id, below: Id)
    requires IsScopeRoot(o, x, kind, root) && InTree(o, x, below)
    ensures InTree(o, root, x) && InTree(o, root, below)
  {
    if root != x && below != x {
      ReachesIsTransitive(o, below, x, root);
    }
  }

  ghost function Children(o: Orgs, x: Id): set<Id> {
    set y | y in o && o[y].parent == Some(x)
  }

  /** The tree downward from x: x and, n levels deep, the trees of its children. */
  ghost function Down(o: Orgs, x: Id, n: nat): set<Id>
    decreases n
  {
    if n == 0 then {x}
    else {x} + set z | z in o && exists child | child in Children(o, x) :: z in Down(o, child, n - 1)
  }

  ghost predicate ReachesWithin(o: Orgs, x: Id, root: Id, n: nat) {
    exists k: nat :: k <= n && Passes(o, x, k, root)
  }

  /** One level up: whoever reaches a child reaches its parent. */
  lemma ThroughChild(o: Orgs, x: Id, child: Id, root: Id, k: nat)
    requires ParentsExist(o) && child in Children(o, root) && Passes(o, x, k, child)
    ensures Passes(o, x, k + 1, root)
  {
    NextUp(o, x, k);
  }

  lemma LastChild(o: Orgs, x: Id, root: Id, k: nat) returns (child: Id)
    requires k > 0 && Passes(o, x, k, root)
    ensures child in Children(o, root) && Passes(o, x, k - 1, child)
  {
    if Up(o, x, k - 1).None? {
      StaysStopped(o, x, k - 1, k);
    }
    child := Up(o, x, k - 1).value;
    NextUp(o, x, k - 1);
  }

  lemma {:induction false} DownIffUp(o: Orgs, root: Id, x: Id, n: nat)
    requires ParentsExist(o) && x in o
    ensures x in Down(o, root, n) <==> ReachesWithin(o, x, root, n)
    decreases n
  {
    assert Passes(o, x, 0, x);
    if n > 0 {
      if x != root && x in Down(o, root, n) {
        var child :| child in Children(o, root) && x in Down(o, child, n - 1);
        DownIffUp(o, child, x, n - 1);
        var k: nat :| k <= n - 1 && Passes(o, x, k, child);
        ThroughChild(o, x, child, root, k);
      }
      if k: nat :| 0 < k <= n && Passes(o, x, k, root) {
        var child := LastChild(o, x, root, k);
        assert ReachesWithin(o, x, child, n - 1);
        DownIffUp(o, child, x, n - 1);
      }
    }
  }

  /** The two queries agree: going down from a root, as many levels as there are
      organizations, meets an organization exactly when MemberOfSQL, going up from
      that one, meets the root. */
  lemma {:induction false} ScopeAgreesWithMembership(o: Orgs, root: Id, x: Id)
    requires Forest(o) && ParentsExist(o) && x in o
    ensures x in Down(o, root, |o|) <==> Reaches(o, x, root)
  {
    DownIffUp(o, root, x, |o|);
    ForestIffNoCycle(o);
    if k: nat :| Passes(o, x, k, root) {
      if k > |o| {
        StaysStopped(o, x, |o|, k);
      }
    }
  }

  // ---- the table --------------------------------------------------------------

  datatype Refusal = NameRequired | NotFound | OwnParent | ParentIsBelow | ParentMissing | InUse | CodeTaken

  class OrganizationTable {
    var orgs: Orgs

    ghost predicate Valid()
      reads this
    {
      Forest(orgs) && ParentsExist(orgs)
    }

    constructor ()
      ensures Valid() && orgs == map[]
    {
      orgs := map[];
    }

    /** createOrganization under a fresh id; the foreign key refuses an unknown parent. */
    method Create(id: Id, named: bool, org: Org) returns (r: Result<(), Refusal>)
      requires Valid() && id !in orgs
      modifies this
      ensures Valid()
      ensures r.Ok? <==> named && (org.parent.Some? ==> org.parent.value in old(orgs))
      ensures orgs == if r.Ok? then old(orgs)[id := org] else old(orgs)
    {
      if !named {
        return Err(NameRequired);
      }
      if org.parent.Some? && org.parent.value !in orgs {
        return Err(ParentMissing);
      }
      CreateKeepsForest(orgs, id, org);
      orgs := orgs[id := org];
      return Ok(());
    }

    /** updateOrganization. */
    method Update(id: Id, named: bool, org: Org) returns (r: Result<(), Refusal>)
      requires Valid()
      modifies this
      ensures Valid()
      ensures r.Ok? <==> named && id in old(orgs)
                         && (org.parent.Some? ==> org.parent.value in old(orgs) && !Reaches(old(orgs), org.parent.value, id))
      ensures orgs == if r.Ok? then old(orgs)[id := org] else old(orgs)
    {
      if !named {
        return Err(NameRequired);
      }
      if org.parent == Some(id) {
        if id in orgs {
          assert Passes(orgs, id, 0, id);
        }
        return Err(OwnParent);
      }
      if id !in orgs {
        return Err(NotFound);
      }
      if org.parent.Some? {
        var cycle := ChainContains(orgs, org.parent.value, id);
        if cycle {
          return Err(ParentIsBelow);
        }
        if org.parent.value !in orgs {
          return Err(ParentMissing);
        }
      }
      ReparentKeepsForestIff(orgs, id, org);
      orgs := orgs[id := org];
      return Ok(());
    }

    /** deleteOrganization; referenced tells whether users or policies still use it. */
    method Delete(id: Id, referenced: bool) returns (r: Result<(), Refusal>)
      requires Valid()
      modifies this
      ensures Valid()
      ensures r.Ok? <==> id in old(orgs) && !referenced && forall y | y in old(orgs) :: old(orgs)[y].parent != Some(id)
      ensures orgs == if r.Ok? then old(orgs) - {id} else old(orgs)
    {
      if id !in orgs {
        return Err(NotFound);
      }
      if referenced || exists y | y in orgs :: orgs[y].parent == Some(id) {
        return Err(InUse);
      }
      DeleteKeepsForest(orgs, id);
      orgs := orgs - {id};
      return Ok(());
    }
  }
}
