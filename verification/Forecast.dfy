/** The forecast waterfall: how the open amount moved between two snapshots, deal
    by deal, and by exactly how much the movements miss the change. */
module Forecast {
  import opened Wrappers
  import opened Sums

  type Id = string

  datatype DealStatus = Open | Won | Lost | Other(name: string)

  datatype Item = Item(status: DealStatus, amount: int, weighted: int, commit: bool, closeDate: Option<int>)

  type Snapshot = map<Id, Item>

  datatype MovementType = NewPipeline | LostDeal | WonDeal | AmountIncrease | AmountDecrease | Slippage | Removed

  datatype Movement = Movement(kind: MovementType, amount: int, deal: Id)

  datatype Report = Report(
    previousAmount: int, currentAmount: int, weighted: int, repCommit: int, changeAmount: int, movements: seq<Movement>)

  function AmountMove(before: Item, item: Item, id: Id): seq<Movement> {
    if item.amount > before.amount then [Movement(AmountIncrease, item.amount - before.amount, id)]
    else if item.amount < before.amount then [Movement(AmountDecrease, item.amount - before.amount, id)]
    else []
  }

  function SlipMove(before: Item, item: Item, id: Id): seq<Movement> {
    if before.closeDate.Some? && item.closeDate.Some? && item.closeDate.value > before.closeDate.value
    then [Movement(Slippage, -item.amount, id)] else []
  }

  /** What the loop over the current snapshot adds for one deal. */
  function CurrentMoves(previous: Snapshot, current: Snapshot, id: Id): seq<Movement>
    requires id in current
  {
    var item := current[id];
    if id !in previous then
      if item.status == Open then [Movement(NewPipeline, item.amount, id)] else []
    else
      var before := previous[id];
      if before.status == Open && item.status == Lost then [Movement(LostDeal, -before.amount, id)]
      else if before.status == Open && item.status == Won then [Movement(WonDeal, -before.amount, id)]
      else AmountMove(before, item, id) + SlipMove(before, item, id)
  }

  /** What the loop over the previous snapshot adds for one deal. */
  function RemovedMoves(previous: Snapshot, current: Snapshot, id: Id): seq<Movement>
    requires id in previous
  {
    if id !in current && previous[id].status == Open then [Movement(Removed, -previous[id].amount, id)] else []
  }

  function MovesOf(previous: Snapshot, current: Snapshot, id: Id): seq<Movement> {
    if id in current then CurrentMoves(previous, current, id)
    else if id in previous then RemovedMoves(previous, current, id)
    else []
  }

  /** The movements of one deal in a list. */
  function OnDeal(moves: seq<Movement>, id: Id): seq<Movement> {
    if moves == [] then []
    else
      var n := |moves| - 1;
      OnDeal(moves[..n], id) + if moves[n].deal == id then [moves[n]] else []
  }

  /** The total of all movements but slippage, which moves a date and no amount. */
  function Net(moves: seq<Movement>): int {
    if moves == [] then 0
    else
      var n := |moves| - 1;
      Net(moves[..n]) + if moves[n].kind == Slippage then 0 else moves[n].amount
  }

  function OpenAmount(s: Snapshot, id: Id): int {
    if id in s && s[id].status == Open then s[id].amount else 0
  }

  function OpenWeighted(s: Snapshot, id: Id): int {
    if id in s && s[id].status == Open then s[id].weighted else 0
  }

  function OpenCommit(s: Snapshot, id: Id): int {
    if id in s && s[id].status == Open && s[id].commit then s[id].amount else 0
  }

  /** The columns the report and its reconciliation add up. */
  datatype Measure =
    | OpenAt(s: Snapshot) | Weighted(s: Snapshot) | Commit(s: Snapshot)
    | ChangeOf(previous: Snapshot, current: Snapshot) | NetOf(previous: Snapshot, current: Snapshot)
    | MissedOf(previous: Snapshot, current: Snapshot)

  function Value(f: Measure, id: Id): int {
    match f
    case OpenAt(s) => OpenAmount(s, id)
    case Weighted(s) => OpenWeighted(s, id)
    case Commit(s) => OpenCommit(s, id)
    case ChangeOf(previous, current) => OpenAmount(current, id) - OpenAmount(previous, id)
    case NetOf(previous, current) => Net(MovesOf(previous, current, id))
    case MissedOf(previous, current) => Missed(previous, current, id)
  }

  ghost function Column(f: Measure, ids: set<Id>): map<Id, int> {
    map id | id in ids :: Value(f, id)
  }

  lemma ColumnGrows(f: Measure, ids: set<Id>, id: Id)
    requires id !in ids
    ensures Total(Column(f, ids + {id})) == Total(Column(f, ids)) + Value(f, id)
  {
    assert Column(f, ids + {id}) == Column(f, ids)[id := Value(f, id)];
    TotalAdd(Column(f, ids), id, Value(f, id));
  }

  /** ids beyond those with a value add nothing. */
  lemma {:induction false} ColumnOfZeros(f: Measure, ids: set<Id>)
    requires forall id | id in ids :: Value(f, id) == 0
    ensures Total(Column(f, ids)) == 0
  {
    if id :| id in ids {
      ColumnOfZeros(f, ids - {id});
      ColumnGrows(f, ids - {id}, id);
      assert ids == ids - {id} + {id};
    } else {
      assert Column(f, ids).Keys == {};
    }
  }

  lemma ColumnOver(f: Measure, some: set<Id>, all: set<Id>)
    requires some <= all && forall id | id in all - some :: Value(f, id) == 0
    ensures Total(Column(f, all)) == Total(Column(f, some))
  {
    TotalMerge(Column(f, some), Column(f, all - some));
    assert Column(f, some) + Column(f, all - some) == Column(f, all);
    ColumnOfZeros(f, all - some);
  }

  lemma {:induction false} NetAppend(s: seq<Movement>, t: seq<Movement>)
    ensures Net(s + t) == Net(s) + Net(t)
  {
    if t == [] {
      assert s + t == s;
    } else {
      NetAppend(s, t[..|t| - 1]);
      assert (s + t)[..|s + t| - 1] == s + t[..|t| - 1];
    }
  }

  lemma {:induction false} OnDealOneMore(s: seq<Movement>, m: Movement, id: Id)
    ensures OnDeal(s + [m], id) == OnDeal(s, id) + if m.deal == id then [m] else []
  {
    assert (s + [m])[..|s|] == s;
  }

  lemma {:induction false} OnDealAppend(s: seq<Movement>, t: seq<Movement>, id: Id)
    ensures OnDeal(s + t, id) == OnDeal(s, id) + OnDeal(t, id)
  {
    if t == [] {
      assert s + t == s;
    } else {
      var before, last := t[..|t| - 1], t[|t| - 1];
      OnDealAppend(s, before, id);
      OnDealOneMore(s + before, last, id);
      OnDealOneMore(before, last, id);
      assert s + t == s + before + [last] && t == before + [last];
    }
  }

  lemma {:induction false} AllOnOneDeal(moves: seq<Movement>, visited: Id, id: Id)
    requires forall m | m in moves :: m.deal == visited
    ensures OnDeal(moves, id) == if id == visited then moves else []
  {
    if moves != [] {
      var n := |moves| - 1;
      assert moves == moves[..n] + [moves[n]];
      assert moves[n] in moves;
      AllOnOneDeal(moves[..n], visited, id);
    }
  }

  lemma MovesNameTheirDeal(previous: Snapshot, current: Snapshot, id: Id)
    ensures forall m | m in MovesOf(previous, current, id) :: m.deal == id
  {
  }

  /** moves holds the movements of the visited deals, deal by deal. */
  ghost predicate Listed(previous: Snapshot, current: Snapshot, visited: set<Id>, moves: seq<Movement>) {
    && (forall id :: OnDeal(moves, id) == if id in visited then MovesOf(previous, current, id) else [])
    && Net(moves) == Total(Column(NetOf(previous, current), visited))
  }

  lemma ListOneMore(previous: Snapshot, current: Snapshot, visited: set<Id>, moves: seq<Movement>, id: Id)
    requires Listed(previous, current, visited, moves) && id !in visited
    ensures Listed(previous, current, visited + {id}, moves + MovesOf(previous, current, id))
  {
    var more := MovesOf(previous, current, id);
    MovesNameTheirDeal(previous, current, id);
    ListMoreOf(previous, current, visited, moves, id, more);
  }

  lemma ListMoreOf(previous: Snapshot, current: Snapshot, visited: set<Id>, moves: seq<Movement>, id: Id,
        more: seq<Movement>)
    requires Listed(previous, current, visited, moves) && id !in visited
    requires more == MovesOf(previous, current, id) && forall m | m in more :: m.deal == id
    ensures Listed(previous, current, visited + {id}, moves + more)
  {
    NetAppend(moves, more);
    ColumnGrows(NetOf(previous, current), visited, id);
    forall x
      ensures OnDeal(moves + more, x) == if x in visited + {id} then MovesOf(previous, current, x) else []
    {
      assert OnDeal(moves, x) == if x in visited then MovesOf(previous, current, x) else [];
      MoreOnDeal(moves, id, more, x);
    }
  }

  lemma {:induction false} MoreOnDeal(moves: seq<Movement>, id: Id, more: seq<Movement>, x: Id)
    requires OnDeal(moves, id) == [] && forall m | m in more :: m.deal == id
    ensures OnDeal(moves + more, x) == if x == id then more else OnDeal(moves, x)
  {
    OnDealAppend(moves, more, x);
    AllOnOneDeal(more, id, x);
    assert OnDeal(moves, x) + [] == OnDeal(moves, x) && [] + more == more;
  }

  /** The report of two snapshots. */
  ghost predicate Reports(previous: Snapshot, current: Snapshot, out: Report) {
    && out.previousAmount == Total(Column(OpenAt(previous), previous.Keys))
    && out.currentAmount == Total(Column(OpenAt(current), current.Keys))
    && out.weighted == Total(Column(Weighted(current), current.Keys))
    && out.repCommit == Total(Column(Commit(current), current.Keys))
    && out.changeAmount == out.currentAmount - out.previousAmount
    && Listed(previous, current, previous.Keys + current.Keys, out.movements)
  }

  /** ForecastIntelligence, from the two snapshots on. The final sort by type and
      name only rearranges the movements. */
  method ForecastIntelligence(previous: Snapshot, current: Snapshot) returns (out: Report)
    ensures Reports(previous, current, out)
  {
    var previousAmount := SumPrevious(previous);
    var currentAmount, weighted, repCommit, moves := WalkCurrent(previous, current);
    var all := AddRemoved(previous, current, moves);
    out := Report(previousAmount, currentAmount, weighted, repCommit, currentAmount - previousAmount, all);
  }

  method SumPrevious(previous: Snapshot) returns (amount: int)
    ensures amount == Total(Column(OpenAt(previous), previous.Keys))
  {
    amount := 0;
    var todo := previous.Keys;
    NothingWalked(previous, previous);
    assert previous.Keys - todo == {};
    while todo != {}
      invariant todo <= previous.Keys
      invariant amount == Total(Column(OpenAt(previous), previous.Keys - todo))
      decreases todo
    {
      var id :| id in todo;
      VisitOneMore(previous.Keys, todo, id);
      ColumnGrows(OpenAt(previous), previous.Keys - todo, id);
      if previous[id].status == Open {
        amount := amount + previous[id].amount;
      }
      todo := todo - {id};
    }
    assert previous.Keys - todo == previous.Keys;
  }

  ghost predicate Totalled(current: Snapshot, visited: set<Id>, amount: int, weighted: int, commit: int) {
    && amount == Total(Column(OpenAt(current), visited))
    && weighted == Total(Column(Weighted(current), visited))
    && commit == Total(Column(Commit(current), visited))
  }

  lemma TotalOneMore(current: Snapshot, visited: set<Id>, amount: int, weighted: int, commit: int, id: Id)
    requires Totalled(current, visited, amount, weighted, commit) && id !in visited
    ensures Totalled(current, visited + {id}, amount + OpenAmount(current, id), weighted + OpenWeighted(current, id),
                     commit + OpenCommit(current, id))
  {
    ColumnGrows(OpenAt(current), visited, id);
    ColumnGrows(Weighted(current), visited, id);
    ColumnGrows(Commit(current), visited, id);
  }

  /** The running totals and the movement list after the visited deals. */
  ghost predicate Walked(previous: Snapshot, current: Snapshot, visited: set<Id>,
                         amount: int, weighted: int, commit: int, moves: seq<Movement>) {
    Totalled(current, visited, amount, weighted, commit) && Listed(previous, current, visited, moves)
  }

  lemma NothingWalked(previous: Snapshot, current: Snapshot)
    ensures Walked(previous, current, {}, 0, 0, 0, [])
    ensures Total(Column(OpenAt(previous), {})) == 0
  {
  }

  lemma WalkOneMore(previous: Snapshot, current: Snapshot, visited: set<Id>, amount: int, weighted: int, commit: int,
                    moves: seq<Movement>, id: Id)
    requires Walked(previous, current, visited, amount, weighted, commit, moves) && id !in visited && id in current
    ensures Walked(previous, current, visited + {id}, amount + OpenAmount(current, id),
                   weighted + OpenWeighted(current, id), commit + OpenCommit(current, id),
                   moves + CurrentMoves(previous, current, id))
  {
    TotalOneMore(current, visited, amount, weighted, commit, id);
    ListOneMore(previous, current, visited, moves, id);
  }

  /** One round of the loop over the current snapshot. */
  method WalkDeal(previous: Snapshot, current: Snapshot, id: Id, amount: int, weighted: int, commit: int,
                  moves: seq<Movement>)
    returns (amount': int, weighted': int, commit': int, moves': seq<Movement>)
    requires id in current
    ensures amount' == amount + OpenAmount(current, id) && weighted' == weighted + OpenWeighted(current, id)
    ensures commit' == commit + OpenCommit(current, id)
    ensures moves' == moves + CurrentMoves(previous, current, id)
  {
    amount', weighted', commit', moves' := amount, weighted, commit, moves;
    var item := current[id];
    if item.status == Open {
      amount' := amount' + item.amount;
      weighted' := weighted' + item.weighted;
      if item.commit {
        commit' := commit' + item.amount;
      }
    }
    if id !in previous {
      if item.status == Open {
        moves' := moves' + [Movement(NewPipeline, item.amount, id)];
      }
      return;
    }
    var before := previous[id];
    if before.status == Open && item.status == Lost {
      moves' := moves' + [Movement(LostDeal, -before.amount, id)];
      return;
    }
    if before.status == Open && item.status == Won {
      moves' := moves' + [Movement(WonDeal, -before.amount, id)];
      return;
    }
    if item.amount > before.amount {
      moves' := moves' + [Movement(AmountIncrease, item.amount - before.amount, id)];
    } else if item.amount < before.amount {
      moves' := moves' + [Movement(AmountDecrease, item.amount - before.amount, id)];
    }
    if before.closeDate.Some? && item.closeDate.Some? && item.closeDate.value > before.closeDate.value {
      moves' := moves' + [Movement(Slippage, -item.amount, id)];
    }
  }

  method WalkCurrent(previous: Snapshot, current: Snapshot)
    returns (amount: int, weighted: int, commit: int, moves: seq<Movement>)
    ensures Walked(previous, current, current.Keys, amount, weighted, commit, moves)
  {
    amount, weighted, commit, moves := 0, 0, 0, [];
    var todo := current.Keys;
    NothingWalked(previous, current);
    assert current.Keys - todo == {};
    while todo != {}
      invariant todo <= current.Keys
      invariant Walked(previous, current, current.Keys - todo, amount, weighted, commit, moves)
      decreases todo
    {
      var id :| id in todo;
      VisitOneMore(current.Keys, todo, id);
      WalkOneMore(previous, current, current.Keys - todo, amount, weighted, commit, moves, id);
      amount, weighted, commit, moves := WalkDeal(previous, current, id, amount, weighted, commit, moves);
      todo := todo - {id};
    }
    assert current.Keys - todo == current.Keys;
  }

  method AddRemoved(previous: Snapshot, current: Snapshot, moves: seq<Movement>) returns (all: seq<Movement>)
    requires Listed(previous, current, current.Keys, moves)
    ensures Listed(previous, current, previous.Keys + current.Keys, all)
  {
    all := moves;
    ghost var deals := previous.Keys + current.Keys;
    var todo := previous.Keys - current.Keys;
    assert deals - todo == current.Keys;
    while todo != {}
      invariant todo <= previous.Keys - current.Keys
      invariant Listed(previous, current, deals - todo, all)
      decreases todo
    {
      var id :| id in todo;
      VisitOneMore(deals, todo, id);
      ListOneMore(previous, current, deals - todo, all, id);
      if previous[id].status == Open {
        all := all + [Movement(Removed, -previous[id].amount, id)];
      } else {
        assert all + [] == all;
      }
      todo := todo - {id};
    }
    assert deals - todo == deals;
  }

  /** What the waterfall misses on one deal. */
  function Missed(previous: Snapshot, current: Snapshot, id: Id): int {
    if id !in previous || id !in current then 0
    else
      var before, item := previous[id], current[id];
      if before.status != Open && item.status == Open then before.amount
      else if before.status != Open then before.amount - item.amount
      else if item.status.Other? then -item.amount
      else 0
  }

  lemma DealReconciles(previous: Snapshot, current: Snapshot, id: Id)
    ensures OpenAmount(current, id) - OpenAmount(previous, id) - Net(MovesOf(previous, current, id))
         == Missed(previous, current, id)
  {
    if id in previous && id in current {
      var before, item := previous[id], current[id];
      AmountMoveNets(before, item, id);
      NetOfOne(Movement(LostDeal, -before.amount, id));
      NetOfOne(Movement(WonDeal, -before.amount, id));
    } else if id in current {
      NetOfOne(Movement(NewPipeline, current[id].amount, id));
    } else if id in previous {
      NetOfOne(Movement(Removed, -previous[id].amount, id));
    }
  }

  lemma AmountMoveNets(before: Item, item: Item, id: Id)
    ensures Net(AmountMove(before, item, id) + SlipMove(before, item, id)) == item.amount - before.amount
  {
    NetAppend(AmountMove(before, item, id), SlipMove(before, item, id));
    NetOfOne(Movement(AmountIncrease, item.amount - before.amount, id));
    NetOfOne(Movement(AmountDecrease, item.amount - before.amount, id));
    NetOfOne(Movement(Slippage, -item.amount, id));
  }

  lemma ColumnMinus(f: Measure, g: Measure, h: Measure, ids: set<Id>)
    requires forall id | id in ids :: Value(h, id) == Value(f, id) - Value(g, id)
    ensures Total(Column(h, ids)) == Total(Column(f, ids)) - Total(Column(g, ids))
  {
    TotalMinus(Column(f, ids), Column(g, ids), Column(h, ids));
  }

  lemma DealsReconcile(previous: Snapshot, current: Snapshot, ids: set<Id>)
    ensures Total(Column(MissedOf(previous, current), ids))
         == Total(Column(ChangeOf(previous, current), ids)) - Total(Column(NetOf(previous, current), ids))
  {
    forall id | id in ids
      ensures Value(MissedOf(previous, current), id)
           == Value(ChangeOf(previous, current), id) - Value(NetOf(previous, current), id)
    {
      DealReconciles(previous, current, id);
    }
    ColumnMinus(ChangeOf(previous, current), NetOf(previous, current), MissedOf(previous, current), ids);
  }

  lemma ChangeReconciles(previous: Snapshot, current: Snapshot)
    ensures var all := previous.Keys + current.Keys;
            Total(Column(OpenAt(current), current.Keys)) - Total(Column(OpenAt(previous), previous.Keys))
            - Total(Column(NetOf(previous, current), all)) == Total(Column(MissedOf(previous, current), all))
  {
    var all := previous.Keys + current.Keys;
    ColumnOver(OpenAt(previous), previous.Keys, all);
    ColumnOver(OpenAt(current), current.Keys, all);
    ColumnMinus(OpenAt(current), OpenAt(previous), ChangeOf(previous, current), all);
    DealsReconcile(previous, current, all);
  }

  lemma NetOfOne(m: Movement)
    ensures Net([m]) == if m.kind == Slippage then 0 else m.amount
  {
  }

  /** The movements miss the change by exactly this: the earlier amounts of deals
      that came back to OPEN, the amount changes of deals open in neither snapshot,
      and the amounts of deals that left OPEN for anything but WON or LOST. */
  lemma WaterfallResidual(previous: Snapshot, current: Snapshot, out: Report)
    requires Reports(previous, current, out)
    ensures out.changeAmount - Net(out.movements)
         == Total(Column(MissedOf(previous, current), previous.Keys + current.Keys))
  {
    ChangeReconciles(previous, current);
  }

  /** So the waterfall balances exactly when these add up to nothing over all deals. */
  lemma WaterfallBalancesIff(previous: Snapshot, current: Snapshot, out: Report)
    requires Reports(previous, current, out)
    ensures out.changeAmount == Net(out.movements)
       <==> Total(Column(MissedOf(previous, current), previous.Keys + current.Keys)) == 0
  {
    WaterfallResidual(previous, current, out);
  }

  /** In particular with statuses OPEN, WON and LOST and no deal re-entering or staying
      outside OPEN with a new amount. */
  lemma WaterfallBalances(previous: Snapshot, current: Snapshot, out: Report)
    requires Reports(previous, current, out)
    requires forall id | id in previous && id in current ::
               if previous[id].status == Open then !current[id].status.Other? || current[id].amount == 0
               else if current[id].status == Open then previous[id].amount == 0
               else previous[id].amount == current[id].amount
    ensures out.changeAmount == Net(out.movements)
  {
    WaterfallResidual(previous, current, out);
    ColumnOfZeros(MissedOf(previous, current), previous.Keys + current.Keys);
  }

  // ----- What the report lists, movement by movement -----

  /** A deal of both snapshots that was not won or lost in between. */
  predicate GoesOn(before: Item, item: Item) {
    before.status != Open || (item.status != Won && item.status != Lost)
  }

  /** What each kind of movement says about its deal. */
  predicate Describes(previous: Snapshot, current: Snapshot, m: Movement) {
    var id := m.deal;
    match m.kind
    case NewPipeline =>
      id !in previous && id in current && current[id].status == Open && m.amount == current[id].amount
    case Removed =>
      id in previous && id !in current && previous[id].status == Open && m.amount == -previous[id].amount
    case LostDeal =>
      id in previous && id in current && previous[id].status == Open && current[id].status == Lost && m.amount == -previous[id].amount
    case WonDeal =>
      id in previous && id in current && previous[id].status == Open && current[id].status == Won && m.amount == -previous[id].amount
    case AmountIncrease =>
      && id in previous && id in current && GoesOn(previous[id], current[id])
      && m.amount == current[id].amount - previous[id].amount > 0
    case AmountDecrease =>
      && id in previous && id in current && GoesOn(previous[id], current[id])
      && m.amount == current[id].amount - previous[id].amount < 0
    case Slippage =>
      && id in previous && id in current && GoesOn(previous[id], current[id])
      && previous[id].closeDate.Some? && current[id].closeDate.Some?
      && current[id].closeDate.value > previous[id].closeDate.value
      && m.amount == -current[id].amount
  }

  lemma OneMove(x: Movement, m: Movement)
    ensures m in [x] <==> m == x
    ensures multiset([x])[m] == if m == x then 1 else 0
  {
  }

  lemma AmountMoveIff(before: Item, item: Item, id: Id, m: Movement)
    ensures m in AmountMove(before, item, id)
       <==> && m.deal == id && m.amount == item.amount - before.amount
            && ((m.kind == AmountIncrease && m.amount > 0) || (m.kind == AmountDecrease && m.amount < 0))
    ensures multiset(AmountMove(before, item, id))[m] <= 1
  {
    if item.amount != before.amount {
      OneMove(AmountMove(before, item, id)[0], m);
    }
  }

  lemma SlipMoveIff(before: Item, item: Item, id: Id, m: Movement)
    ensures m in SlipMove(before, item, id)
       <==> && before.closeDate.Some? && item.closeDate.Some? && item.closeDate.value > before.closeDate.value
            && m == Movement(Slippage, -item.amount, id)
    ensures multiset(SlipMove(before, item, id))[m] <= 1
  {
    OneMove(Movement(Slippage, -item.amount, id), m);
  }

  lemma InBoth(p: seq<Movement>, q: seq<Movement>, m: Movement)
    ensures m in p + q <==> m in p || m in q
    ensures multiset(p + q)[m] == multiset(p)[m] + multiset(q)[m]
  {
  }

  lemma GoingOnIsExact(previous: Snapshot, current: Snapshot, id: Id, m: Movement)
    requires id in previous && id in current && GoesOn(previous[id], current[id])
    ensures m in MovesOf(previous, current, id) <==> m.deal == id && Describes(previous, current, m)
    ensures multiset(MovesOf(previous, current, id))[m] <= 1
  {
    var before, item := previous[id], current[id];
    AmountMoveIff(before, item, id, m);
    SlipMoveIff(before, item, id, m);
    InBoth(AmountMove(before, item, id), SlipMove(before, item, id), m);
    assert multiset(AmountMove(before, item, id))[m] > 0 <==> m in AmountMove(before, item, id);
    assert multiset(SlipMove(before, item, id))[m] > 0 <==> m in SlipMove(before, item, id);
  }

  lemma ClosingIsExact(previous: Snapshot, current: Snapshot, id: Id, m: Movement)
    requires id in previous && id in current && !GoesOn(previous[id], current[id])
    ensures m in MovesOf(previous, current, id) <==> m.deal == id && Describes(previous, current, m)
    ensures multiset(MovesOf(previous, current, id))[m] <= 1
  {
    OneMove(Movement(if current[id].status == Lost then LostDeal else WonDeal, -previous[id].amount, id), m);
  }

  lemma ComingOrGoingIsExact(previous: Snapshot, current: Snapshot, id: Id, m: Movement)
    requires !(id in previous && id in current)
    ensures m in MovesOf(previous, current, id) <==> m.deal == id && Describes(previous, current, m)
    ensures multiset(MovesOf(previous, current, id))[m] <= 1
  {
    if id in current {
      OneMove(Movement(NewPipeline, current[id].amount, id), m);
    } else if id in previous {
      OneMove(Movement(Removed, -previous[id].amount, id), m);
    }
  }

  lemma MovesAreExact(previous: Snapshot, current: Snapshot, id: Id, m: Movement)
    ensures m in MovesOf(previous, current, id) <==> m.deal == id && Describes(previous, current, m)
    ensures multiset(MovesOf(previous, current, id))[m] <= 1
  {
    if !(id in previous && id in current) {
      ComingOrGoingIsExact(previous, current, id, m);
    } else if GoesOn(previous[id], current[id]) {
      GoingOnIsExact(previous, current, id, m);
    } else {
      ClosingIsExact(previous, current, id, m);
    }
  }

  lemma {:induction false} CountedOnDeal(moves: seq<Movement>, m: Movement)
    ensures multiset(OnDeal(moves, m.deal))[m] == multiset(moves)[m]
  {
    if moves != [] {
      var n := |moves| - 1;
      CountedOnDeal(moves[..n], m);
      assert moves == moves[..n] + [moves[n]];
    }
  }

  /** The report lists each movement that happened, once, and nothing else. */
  lemma ReportIsExact(previous: Snapshot, current: Snapshot, out: Report, m: Movement)
    requires Reports(previous, current, out)
    ensures multiset(out.movements)[m] == if Describes(previous, current, m) then 1 else 0
  {
    CountedOnDeal(out.movements, m);
    MovesAreExact(previous, current, m.deal, m);
    var some := MovesOf(previous, current, m.deal);
    assert OnDeal(out.movements, m.deal) == if m.deal in previous.Keys + current.Keys then some else [];
    assert m in some <==> multiset(some)[m] > 0;
  }

  // ----- What the report adds up -----

  ghost function OpenIds(s: Snapshot): set<Id> {
    set id | id in s && s[id].status == Open
  }

  lemma {:induction false} OpenColumn(f: Measure, s: Snapshot, values: map<Id, int>, ids: set<Id>)
    requires ids <= s.Keys && values.Keys == ids && forall id | id in ids :: Value(f, id) == values[id]
    requires forall id | id in s.Keys - ids :: Value(f, id) == 0
    ensures Total(Column(f, s.Keys)) == Total(values)
  {
    ColumnOver(f, ids, s.Keys);
    assert Column(f, ids) == values;
  }

  lemma OpenAmounts(s: Snapshot)
    ensures Total(Column(OpenAt(s), s.Keys)) == Total(map id | id in OpenIds(s) :: s[id].amount)
  {
    OpenColumn(OpenAt(s), s, map id | id in OpenIds(s) :: s[id].amount, OpenIds(s));
  }

  lemma OpenWeights(s: Snapshot)
    ensures Total(Column(Weighted(s), s.Keys)) == Total(map id | id in OpenIds(s) :: s[id].weighted)
  {
    OpenColumn(Weighted(s), s, map id | id in OpenIds(s) :: s[id].weighted, OpenIds(s));
  }

  lemma OpenCommits(s: Snapshot)
    ensures Total(Column(Commit(s), s.Keys)) == Total(map id | id in OpenIds(s) && s[id].commit :: s[id].amount)
  {
    OpenColumn(Commit(s), s, map id | id in OpenIds(s) && s[id].commit :: s[id].amount,
               set id | id in OpenIds(s) && s[id].commit);
  }

  /** The amounts are totals over the deals that are OPEN, and the commitment over those
      of them in the commit category. */
  lemma ReportAddsOpenDeals(previous: Snapshot, current: Snapshot, out: Report)
    requires Reports(previous, current, out)
    ensures out.previousAmount == Total(map id | id in OpenIds(previous) :: previous[id].amount)
    ensures out.currentAmount == Total(map id | id in OpenIds(current) :: current[id].amount)
    ensures out.weighted == Total(map id | id in OpenIds(current) :: current[id].weighted)
    ensures out.repCommit == Total(map id | id in OpenIds(current) && current[id].commit :: current[id].amount)
    ensures out.changeAmount == out.currentAmount - out.previousAmount
  {
    OpenAmounts(previous);
    OpenAmounts(current);
    OpenWeights(current);
    OpenCommits(current);
  }
}
