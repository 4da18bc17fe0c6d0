/** The stage positions of one pipeline under UNIQUE(pipeline_id, stage_order).
    PostgreSQL checks that constraint row by row, so a statement that shifts a
    whole block is modelled as a visit of its rows, one update each. */
module StageOrder {

  type Id = nat

  type Orders = map<Id, int>

  const PARKED := -1

  ghost predicate Unique(o: Orders) {
    forall a, b | a in o && b in o && a != b :: o[a] != o[b]
  }

  ghost predicate Positive(o: Orders) {
    forall a | a in o :: o[a] >= 1
  }

  predicate Taken(o: Orders, id: Id, position: int) {
    exists other | other in o :: other != id && o[other] == position
  }

  /** The visit lists exactly the rows whose position lies in (low, high]. */
  ghost predicate Enumerates(o: Orders, low: int, high: int, visit: seq<Id>) {
    && (forall i | 0 <= i < |visit| :: visit[i] in o && low < o[visit[i]] <= high)
    && (forall i, j | 0 <= i < j < |visit| :: visit[i] != visit[j])
    && (forall a | a in o && low < o[a] <= high :: a in visit)
  }

  /** No row is visited before the row immediately below it. */
  ghost predicate LowerNeighbourFirst(o: Orders, visit: seq<Id>) {
    forall i, j | 0 <= i < j < |visit| && visit[i] in o && visit[j] in o :: o[visit[i]] != o[visit[j]] + 1
  }

  /** o with the rows of a block moved down by one. */
  ghost function LoweredRows(o: Orders, rows: seq<Id>): Orders {
    map a | a in o :: if a in rows then o[a] - 1 else o[a]
  }

  /** o with every position in (low, high] moved down by one. */
  ghost function Lowered(o: Orders, low: int, high: int): Orders {
    map a | a in o :: if low < o[a] <= high then o[a] - 1 else o[a]
  }

  /** The table after moving a stage: it takes the position, the stages between
      the two positions make room, everything else stays. */
  ghost function Moved(o: Orders, id: Id, to: int): Orders
    requires id in o
  {
    map a | a in o ::
      if a == id then to
      else if o[id] < o[a] <= to then o[a] - 1
      else if to <= o[a] < o[id] then o[a] + 1
      else o[a]
  }

  ghost function Deleted(o: Orders, id: Id): Orders
    requires id in o
  {
    map a | a in o && a != id :: if o[a] > o[id] then o[a] - 1 else o[a]
  }

  // ---- the statements, row by row -------------------------------------------

  class StageTable {
    var orders: Orders

    constructor (initial: Orders)
      ensures orders == initial
    {
      orders := initial;
    }

    /** One row update; the constraint refuses a position another row holds. */
    method SetOrder(id: Id, position: int) returns (ok: bool)
      requires id in orders
      modifies this
      ensures ok <==> !Taken(old(orders), id, position)
      ensures orders == if ok then old(orders)[id := position] else old(orders)
    {
      ok := !Taken(orders, id, position);
      if ok {
        orders := orders[id := position];
      }
    }

    /** UPDATE ... SET stage_order=stage_order-1 over the rows in (low, high], in
        the order the rows happen to be visited. It goes through exactly when
        every row is visited after the one immediately below it. */
    method LowerBlock(low: int, high: int, visit: seq<Id>) returns (ok: bool)
      requires Unique(orders) && (forall a | a in orders :: orders[a] != low)
      requires Enumerates(orders, low, high, visit)
      modifies this
      ensures ok <==> LowerNeighbourFirst(old(orders), visit)
      ensures ok ==> orders == Lowered(old(orders), low, high)
    {
      for i := 0 to |visit|
        invariant orders == LoweredRows(old(orders), visit[..i])
        invariant LowerNeighbourFirstUpTo(old(orders), visit, i)
      {
        LoweringCollidesIff(old(orders), low, high, visit, i);
        NextLoweredRow(old(orders), visit, i);
        ok := SetOrder(visit[i], orders[visit[i]] - 1);
        if !ok {
          return;
        }
      }
      AllRowsLowered(old(orders), low, high, visit);
      ok := true;
    }

    /** The rows in [low, high), highest position first. */
    method SelectDescending(low: int, high: int) returns (rows: seq<Id>)
      requires Unique(orders)
      ensures forall i | 0 <= i < |rows| :: rows[i] in orders && low <= orders[rows[i]] < high
      ensures forall i, j | 0 <= i < j < |rows| :: rows[i] in orders && rows[j] in orders && orders[rows[i]] > orders[rows[j]]
      ensures forall a | a in orders && low <= orders[a] < high :: a in rows
    {
      rows := [];
      var position := high;
      while position > low
        invariant forall i | 0 <= i < |rows| :: rows[i] in orders && low <= orders[rows[i]] < high && orders[rows[i]] >= position
        invariant forall i, j | 0 <= i < j < |rows| :: rows[i] in orders && rows[j] in orders && orders[rows[i]] > orders[rows[j]]
        invariant forall a | a in orders && position <= orders[a] < high :: a in rows
      {
        position := position - 1;
        if exists a | a in orders :: orders[a] == position {
          var a :| a in orders && orders[a] == position;
          rows := rows + [a];
        }
      }
    }

    /** reorderStage. The upward branch never meets the constraint; the downward
        branch depends on the visit of its one bulk statement. */
    method ReorderStage(id: Id, to: int, visit: seq<Id>) returns (ok: bool)
      requires id in orders && Unique(orders) && Positive(orders) && to >= 1
      requires orders[id] < to ==> Enumerates(orders, orders[id], to, visit)
      modifies this
      ensures ok <==> old(orders[id]) < to ==> LowerNeighbourFirst(old(orders), visit)
      ensures ok ==> orders == Moved(old(orders), id, to)[id := PARKED]
    {
      var from := orders[id];
      ok := SetOrder(id, PARKED);
      if from < to {
        ParkedBlock(old(orders), id, to, visit);
        ParkedShift(old(orders), id, to);
        ok := LowerBlock(from, to, visit);
        return;
      }
      var shifted := SelectDescending(to, from);
      RaiseRows(old(orders), id, to, shifted);
      AllRowsRaised(old(orders), id, to, shifted);
      ok := true;
    }

    /** One update per row, highest first, so that each lands on a free position. */
    method RaiseRows(ghost before: Orders, id: Id, to: int, shifted: seq<Id>)
      requires id in before && Unique(before) && Positive(before) && orders == before[id := PARKED]
      requires DescendingBlock(before, id, to, shifted)
      modifies this
      ensures orders == RaisedRows(before[id := PARKED], shifted)
    {
      for i := 0 to |shifted|
        invariant orders == RaisedRows(before[id := PARKED], shifted[..i])
      {
        RaisingNeverCollides(before, id, to, shifted, i);
        NextRaisedRow(before[id := PARKED], shifted, i);
        var ok := SetOrder(shifted[i], orders[shifted[i]] + 1);
      }
      assert shifted[..|shifted|] == shifted;
    }

    /** updateStage, as far as positions go. A refused statement rolls back. */
    method UpdateStage(id: Id, to: int, visit: seq<Id>) returns (ok: bool)
      requires id in orders && Unique(orders) && Positive(orders)
      requires orders[id] < to ==> Enumerates(orders, orders[id], to, visit)
      modifies this
      ensures ok <==> to >= 1 && (old(orders[id]) < to ==> LowerNeighbourFirst(old(orders), visit))
      ensures orders == if ok then Moved(old(orders), id, to) else old(orders)
      ensures Unique(orders) && Positive(orders)
    {
      if to < 1 {
        return false;
      }
      var before := orders;
      MoveKeepsUnique(orders, id, to);
      if to != orders[id] {
        ok := ReorderStage(id, to, visit);
        if !ok {
          orders := before;
          return;
        }
        assert orders[id := to] == Moved(before, id, to);
      } else {
        assert Moved(before, id, to) == before;
      }
      ok := SetOrder(id, to);
    }

    /** deleteStage: a pipeline keeps at least one stage, and the rest close up. */
    method DeleteStage(id: Id, visit: seq<Id>, high: int) returns (ok: bool)
      requires id in orders && Unique(orders) && Positive(orders)
      requires forall a | a in orders :: orders[a] <= high
      requires Enumerates(orders, orders[id], high, visit)
      modifies this
      ensures ok <==> |old(orders)| > 1 && LowerNeighbourFirst(old(orders), visit)
      ensures orders == if ok then Deleted(old(orders), id) else old(orders)
    {
      if |orders| <= 1 {
        return false;
      }
      var before, order := orders, orders[id];
      orders := orders - {id};
      DeletedBlock(before, id, high, visit);
      ok := LowerBlock(order, high, visit);
      if !ok {
        orders := before;
      }
    }
  }

  ghost predicate LowerNeighbourFirstUpTo(o: Orders, visit: seq<Id>, n: nat) {
    forall i, j | 0 <= i < n && i < j < |visit| && visit[i] in o && visit[j] in o :: o[visit[i]] != o[visit[j]] + 1
  }

  ghost function RaisedRows(o: Orders, rows: seq<Id>): Orders {
    map a | a in o :: if a in rows then o[a] + 1 else o[a]
  }

  /** The rows in [to, o[id]), highest position first. */
  ghost predicate DescendingBlock(o: Orders, id: Id, to: int, rows: seq<Id>)
    requires id in o
  {
    && (forall k | 0 <= k < |rows| :: rows[k] in o && rows[k] != id && to <= o[rows[k]] < o[id])
    && (forall j, k | 0 <= j < k < |rows| :: rows[j] in o && rows[k] in o && o[rows[j]] > o[rows[k]])
    && (forall a | a in o && to <= o[a] < o[id] :: a in rows)
  }

  lemma NextLoweredRow(o: Orders, visit: seq<Id>, i: nat)
    requires i < |visit| && visit[i] in o
    requires forall j, k | 0 <= j < k < |visit| :: visit[j] != visit[k]
    ensures LoweredRows(o, visit[..i + 1]) == LoweredRows(o, visit[..i])[visit[i] := o[visit[i]] - 1]
  {
  }

  lemma AllRowsLowered(o: Orders, low: int, high: int, visit: seq<Id>)
    requires Enumerates(o, low, high, visit)
    ensures LoweredRows(o, visit[..|visit|]) == Lowered(o, low, high)
  {
  }

  lemma NextRaisedRow(o: Orders, rows: seq<Id>, i: nat)
    requires i < |rows| && rows[i] in o
    requires forall j, k | 0 <= j < k < |rows| :: rows[j] != rows[k]
    ensures RaisedRows(o, rows[..i + 1]) == RaisedRows(o, rows[..i])[rows[i] := o[rows[i]] + 1]
  {
  }

  lemma AllRowsRaised(o: Orders, id: Id, to: int, rows: seq<Id>)
    requires id in o && Positive(o) && to >= 1 && to <= o[id] && DescendingBlock(o, id, to, rows)
    ensures RaisedRows(o[id := PARKED], rows) == Moved(o, id, to)[id := PARKED]
  {
  }

  /** Parking the moved stage frees its position and leaves the block as it was. */
  lemma ParkedBlock(o: Orders, id: Id, to: int, visit: seq<Id>)
    requires id in o && Unique(o) && Positive(o) && o[id] < to && Enumerates(o, o[id], to, visit)
    ensures var parked := o[id := PARKED];
            && Unique(parked) && (forall a | a in parked :: parked[a] != o[id])
            && Enumerates(parked, o[id], to, visit)
            && (LowerNeighbourFirst(parked, visit) <==> LowerNeighbourFirst(o, visit))
  {
    assert id !in visit;
    assert forall i | 0 <= i < |visit| :: visit[i] in o && o[id := PARKED][visit[i]] == o[visit[i]];
  }

  lemma ParkedShift(o: Orders, id: Id, to: int)
    requires id in o && Unique(o) && Positive(o) && o[id] < to
    ensures Lowered(o[id := PARKED], o[id], to) == Moved(o, id, to)[id := PARKED]
  {
  }

  lemma DeletedBlock(o: Orders, id: Id, high: int, visit: seq<Id>)
    requires id in o && Unique(o) && (forall a | a in o :: o[a] <= high) && Enumerates(o, o[id], high, visit)
    ensures var rest := o - {id};
            && Unique(rest) && (forall a | a in rest :: rest[a] != o[id])
            && Enumerates(rest, o[id], high, visit)
            && (LowerNeighbourFirst(rest, visit) <==> LowerNeighbourFirst(o, visit))
            && Lowered(rest, o[id], high) == Deleted(o, id)
  {
    assert id !in visit;
  }

  /** The i-th update of the visit meets another row exactly when the row right
      below it has not been visited yet. */
  lemma LoweringCollidesIff(o: Orders, low: int, high: int, visit: seq<Id>, i: nat)
    requires Unique(o) && (forall a | a in o :: o[a] != low)
    requires Enumerates(o, low, high, visit) && i < |visit|
    ensures var now := LoweredRows(o, visit[..i]);
            && now[visit[i]] == o[visit[i]]
            && (Taken(now, visit[i], o[visit[i]] - 1) <==> exists j :: i < j < |visit| && o[visit[i]] == o[visit[j]] + 1)
  {
    var now := LoweredRows(o, visit[..i]);
    var me := visit[i];
    assert me !in visit[..i];
    if Taken(now, me, o[me] - 1) {
      var other :| other in now && other != me && now[other] == o[me] - 1;
      assert o[other] != o[me];
      assert other !in visit[..i];
      assert o[other] == o[me] - 1 > low - 1;
      assert other in visit;
      var j :| 0 <= j < |visit| && visit[j] == other;
      assert forall k | 0 <= k < i :: visit[..i][k] == visit[k] && visit[k] in visit[..i];
      assert i < j < |visit| && o[visit[i]] == o[visit[j]] + 1;
    }
    if j :| i < j < |visit| && o[visit[i]] == o[visit[j]] + 1 {
      assert visit[j] !in visit[..i];
      assert now[visit[j]] == o[me] - 1;
    }
  }

  lemma RaisingNeverCollides(o: Orders, id: Id, to: int, shifted: seq<Id>, i: nat)
    requires id in o && Unique(o) && Positive(o) && i < |shifted|
    requires DescendingBlock(o, id, to, shifted)
    ensures var now := RaisedRows(o[id := PARKED], shifted[..i]);
            now[shifted[i]] == o[shifted[i]] && !Taken(now, shifted[i], o[shifted[i]] + 1)
  {
    var now := RaisedRows(o[id := PARKED], shifted[..i]);
    var me := shifted[i];
    assert me !in shifted[..i];
    forall other | other in now && other != me
      ensures now[other] != o[me] + 1
    {
      if other != id && other !in shifted[..i] {
        NoneRightAbove(o, id, to, shifted, i, other);
      }
    }
  }

  /** A row not raised yet does not stand right above the next one to be raised. */
  lemma NoneRightAbove(o: Orders, id: Id, to: int, shifted: seq<Id>, i: nat, other: Id)
    requires id in o && Unique(o) && i < |shifted| && DescendingBlock(o, id, to, shifted)
    requires other in o && other != id && other !in shifted[..i]
    ensures o[other] != o[shifted[i]] + 1
  {
  }

  // ---- what a move means ------------------------------------------------------

  lemma MoveKeepsUnique(o: Orders, id: Id, to: int)
    requires id in o && Unique(o) && Positive(o) && to >= 1
    ensures Unique(Moved(o, id, to)) && Positive(Moved(o, id, to))
  {
  }

  /** Every stage but the moved one keeps its place relative to the others. */
  lemma MoveKeepsOthersInOrder(o: Orders, id: Id, to: int, a: Id, b: Id)
    requires id in o && Unique(o) && a in o && b in o && a != id && b != id
    ensures Moved(o, id, to)[a] < Moved(o, id, to)[b] <==> o[a] < o[b]
  {
  }

  /** Moving a stage back undoes the move. */
  lemma MoveBackRestores(o: Orders, id: Id, to: int)
    requires id in o && Unique(o)
    ensures Moved(Moved(o, id, to), id, o[id]) == o
  {
  }

  /** The board: stages in display order, at positions 1 to n. */
  ghost predicate Shows(o: Orders, board: seq<Id>) {
    && (forall k | 0 <= k < |board| :: board[k] in o && o[board[k]] == k + 1)
    && (forall a | a in o :: a in board)
  }

  function RemoveAt(s: seq<Id>, i: nat): seq<Id>
    requires i < |s|
  {
    s[..i] + s[i + 1..]
  }

  function InsertAt(s: seq<Id>, i: nat, x: Id): seq<Id>
    requires i <= |s|
  {
    s[..i] + [x] + s[i..]
  }

  /** Reordering is "take the stage out at i, put it back at j" on the board. */
  lemma MoveRefinesRemoveInsert(o: Orders, board: seq<Id>, i: nat, to: int)
    requires Shows(o, board) && i < |board| && 1 <= to <= |board|
    ensures Shows(Moved(o, board[i], to), InsertAt(RemoveAt(board, i), to - 1, board[i]))
  {
    var id := board[i];
    var after := InsertAt(RemoveAt(board, i), to - 1, id);
    var m := Moved(o, id, to);
    forall k | 0 <= k < |after|
      ensures after[k] in m && m[after[k]] == k + 1
    {
      assert after[k] == if k == to - 1 then id
                         else if k < to - 1 then (if k < i then board[k] else board[k + 1])
                         else if k - 1 < i then board[k - 1] else board[k];
    }
    forall a | a in m
      ensures a in after
    {
      var k :| 0 <= k < |board| && board[k] == a;
      assert a == after[m[a] - 1];
    }
  }

  /** Deleting is taking the stage out of the board. */
  lemma DeleteRefinesRemove(o: Orders, board: seq<Id>, i: nat)
    requires Shows(o, board) && i < |board|
    ensures Shows(Deleted(o, board[i]), RemoveAt(board, i))
  {
    var after := RemoveAt(board, i);
    var d := Deleted(o, board[i]);
    forall a | a in d
      ensures a in after
    {
      var k :| 0 <= k < |board| && board[k] == a;
      assert a == after[d[a] - 1];
    }
  }

  /** updateStage checks only that the position is at least 1. The positions stay
      exactly 1 to n if and only if the one asked for is at most n. */
  lemma MoveKeepsBoardIff(o: Orders, board: seq<Id>, i: nat, to: int)
    requires Shows(o, board) && i < |board| && to >= 1
    ensures (exists after :: Shows(Moved(o, board[i], to), after)) <==> to <= |board|
  {
    var m := Moved(o, board[i], to);
    if to <= |board| {
      MoveRefinesRemoveInsert(o, board, i, to);
    }
    if after :| Shows(m, after) {
      BoardsHaveTheSameLength(o, board, m, after);
      assert board[i] in after;
    }
  }

  /** Position 7 for the first of three stages is accepted and leaves gaps. */
  lemma PositionBeyondTheEnd()
    ensures var o: Orders := map[1 := 1, 2 := 2, 3 := 3];
            Moved(o, 1, 7) == map[1 := 7, 2 := 1, 3 := 2] && !exists after :: Shows(Moved(o, 1, 7), after)
  {
    var o: Orders := map[1 := 1, 2 := 2, 3 := 3];
    var board: seq<Id> := [1, 2, 3];
    assert board[0] == 1 && board[1] == 2 && board[2] == 3;
    MoveKeepsBoardIff(o, board, 0, 7);
  }

  lemma BoardsHaveTheSameLength(o: Orders, board: seq<Id>, m: Orders, after: seq<Id>)
    requires Shows(o, board) && Shows(m, after) && o.Keys == m.Keys
    ensures |after| == |board|
  {
    BoardLength(o, board);
    BoardLength(m, after);
  }

  lemma BoardLength(o: Orders, board: seq<Id>)
    requires Shows(o, board)
    ensures |board| == |o.Keys|
  {
    var positions := set k: int | 0 <= k < |board| :: board[k];
    assert positions == o.Keys;
    DistinctCount(board, o.Keys);
  }

  lemma {:induction false} DistinctCount(s: seq<Id>, ids: set<Id>)
    requires forall i, j | 0 <= i < j < |s| :: s[i] != s[j]
    requires forall a :: a in ids <==> a in s
    ensures |s| == |ids|
  {
    if s == [] {
      assert ids == {};
    } else {
      DistinctCount(s[1..], ids - {s[0]});
    }
  }

  /** On a board without gaps the bulk statement goes through for one visit only:
      ascending. So the shift is safe exactly when the rows are taken that way. */
  lemma GaplessVisitMustAscend(o: Orders, board: seq<Id>, low: int, high: int, visit: seq<Id>)
    requires Shows(o, board) && Enumerates(o, low, high, visit) && low >= 1
    ensures LowerNeighbourFirst(o, visit) <==> forall i, j | 0 <= i < j < |visit| :: o[visit[i]] < o[visit[j]]
  {
    if LowerNeighbourFirst(o, visit) {
      forall i, j | 0 <= i < j < |visit|
        ensures o[visit[i]] < o[visit[j]]
      {
        if o[visit[i]] > o[visit[j]] {
          DescentHasNeighbours(o, board, low, high, visit, i, j);
        } else if o[visit[i]] == o[visit[j]] {
          SamePositionSameStage(o, board, visit[i], visit[j]);
        }
      }
    }
  }

  lemma SamePositionSameStage(o: Orders, board: seq<Id>, a: Id, b: Id)
    requires Shows(o, board) && a in o && b in o && o[a] == o[b]
    ensures a == b
  {
  }

  /** Between a row visited too early and a lower one there is a pair of neighbours
      visited the wrong way round. */
  lemma {:induction false} DescentHasNeighbours(o: Orders, board: seq<Id>, low: int, high: int, visit: seq<Id>,
        i: nat, j: nat)
    requires Shows(o, board) && Enumerates(o, low, high, visit) && low >= 1
    requires i < j < |visit| && o[visit[i]] > o[visit[j]]
    ensures !LowerNeighbourFirst(o, visit)
    decreases o[visit[i]] - o[visit[j]]
  {
    if o[visit[i]] > o[visit[j]] + 1 {
      var between := board[o[visit[i]] - 2];
      assert low < o[between] <= high;
      assert between in visit;
      var k :| 0 <= k < |visit| && visit[k] == between;
      if k > i {
        assert o[visit[i]] == o[visit[k]] + 1;
      } else {
        DescentHasNeighbours(o, board, low, high, visit, k, j);
      }
    }
  }

  // ---- for which blocks the order of the rows does not matter -------------------

  /** Two rows of (low, high] at adjacent positions. */
  ghost predicate HasNeighbours(o: Orders, low: int, high: int) {
    exists a, b | a in o && b in o :: low < o[b] <= high && low < o[a] <= high && o[a] == o[b] + 1
  }

  /** The bulk statement goes through whatever order the database visits the rows in. */
  ghost predicate AlwaysGoesThrough(o: Orders, low: int, high: int) {
    forall visit | Enumerates(o, low, high, visit) :: LowerNeighbourFirst(o, visit)
  }

  lemma {:induction false} ListOf(ids: set<Id>) returns (list: seq<Id>)
    ensures forall a :: a in list <==> a in ids
    ensures forall i, j | 0 <= i < j < |list| :: list[i] != list[j]
    decreases ids
  {
    list := [];
    if ids != {} {
      var a :| a in ids;
      var rest := ListOf(ids - {a});
      list := [a] + rest;
    }
  }

  /** The visit that takes the upper of two neighbours first. */
  lemma UpperNeighbourFirst(o: Orders, low: int, high: int, upper: Id, lower: Id) returns (visit: seq<Id>)
    requires upper in o && lower in o && low < o[lower] <= high && low < o[upper] <= high && o[upper] == o[lower] + 1
    ensures Enumerates(o, low, high, visit) && !LowerNeighbourFirst(o, visit)
  {
    var rest := ListOf(set a | a in o && low < o[a] <= high && a != upper && a != lower);
    visit := [upper, lower] + rest;
    assert visit[0] == upper && visit[1] == lower;
    assert forall i | 0 <= i < |rest| :: rest[i] in rest;
  }

  /** The downward shift depends on the row order unless no two rows of the block
      stand at adjacent positions. */
  lemma AlwaysGoesThroughIff(o: Orders, low: int, high: int)
    ensures AlwaysGoesThrough(o, low, high) <==> !HasNeighbours(o, low, high)
  {
    if HasNeighbours(o, low, high) {
      var a, b :| a in o && b in o && low < o[b] <= high && low < o[a] <= high && o[a] == o[b] + 1;
      var visit := UpperNeighbourFirst(o, low, high, a, b);
    }
  }

  /** On a board without gaps: a move down the board is accepted whatever the row
      order exactly when it passes at most one stage, and so is a deletion. */
  lemma BoardAlwaysGoesThroughIff(o: Orders, board: seq<Id>, low: int, high: int)
    requires Shows(o, board) && low >= 1
    ensures AlwaysGoesThrough(o, low, high) <==> high <= low + 1 || |board| <= low + 1
  {
    AlwaysGoesThroughIff(o, low, high);
    if low + 2 <= high && low + 2 <= |board| {
      assert o[board[low]] == low + 1 && o[board[low + 1]] == low + 2;
    }
  }

  /** With three stages, moving the first to the end fails when the last row is
      visited before the middle one: its new position is still taken. */
  lemma ThreeStageMoveCanFail()
    ensures var o: Orders := map[1 := 1, 2 := 2, 3 := 3];
            && Shows(o, [1, 2, 3]) && Enumerates(o, 1, 3, [3, 2]) && Taken(o[1 := PARKED], 3, 2)
            && !LowerNeighbourFirst(o, [3, 2]) && LowerNeighbourFirst(o, [2, 3])
  {
    var o: Orders := map[1 := 1, 2 := 2, 3 := 3];
    var visit: seq<Id> := [3, 2];
    assert visit[0] == 3 && visit[1] == 2;
    assert o[1 := PARKED][2] == 2;
    assert forall a | a in o && 1 < o[a] <= 3 :: a == visit[0] || a == visit[1];
    assert [1, 2, 3][0] == 1 && [1, 2, 3][1] == 2 && [1, 2, 3][2] == 3;
  }
}
