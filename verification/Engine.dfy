/** The engine over its tables, and the people acting between its passes. */
module Engine {
  import opened Wrappers
  import opened Ordering
  import opened SignalRules
  import opened RiskScoring
  import opened Recommendations
  import opened PassOrder
  import opened EngineSpec
  import Rec = Reconciliation

  type Lists = map<Id, seq<Signal>>

  function ListIn(lists: Lists, account: Id): seq<Signal> {
    if account in lists then lists[account] else []
  }

  /** No list is empty, and live holds the keys of exactly what the lists hold. */
  ghost predicate Indexed(lists: Lists, live: set<SignalKey>) {
    && (forall a | a in lists :: lists[a] != [])
    && (forall a, s | a in lists && s in lists[a] :: s.Key() in live)
    && (forall k | k in live :: KeyListed(lists, k))
  }

  ghost predicate KeyListed(lists: Lists, k: SignalKey) {
    exists a, s :: a in lists && s in lists[a] && s.Key() == k
  }

  /** out is lists with these signals appended, each to its account. */
  ghost predicate Emitted(lists: Lists, out: Lists, signals: seq<Signal>) {
    forall a :: ListIn(out, a) == ListIn(lists, a) + For(signals, a)
  }

  lemma IndexOneMore(lists: Lists, live: set<SignalKey>, s: Signal)
    requires Indexed(lists, live)
    ensures Indexed(lists[s.account := ListIn(lists, s.account) + [s]], live + {s.Key()})
  {
    var next := lists[s.account := ListIn(lists, s.account) + [s]];
    assert next[s.account][|next[s.account]| - 1] == s;
    forall k | k in live + {s.Key()}
      ensures KeyListed(next, k)
    {
      if k == s.Key() {
        assert s in next[s.account];
      } else {
        var a, t :| a in lists && t in lists[a] && t.Key() == k;
        assert t in next[a];
      }
    }
  }

  lemma EmitOneMore(lists: Lists, now: Lists, signals: seq<Signal>, i: nat)
    requires i < |signals| && Emitted(lists, now, signals[..i])
    ensures Emitted(lists, now[signals[i].account := ListIn(now, signals[i].account) + [signals[i]]], signals[..i + 1])
  {
    var s := signals[i];
    var next := now[s.account := ListIn(now, s.account) + [s]];
    forall a
      ensures ListIn(next, a) == ListIn(lists, a) + For(signals[..i + 1], a)
    {
      var more := if s.account == a then [s] else [];
      assert ListIn(now, a) == ListIn(lists, a) + For(signals[..i], a);
      ForGrows(signals, i, a);
      assert ListIn(next, a) == ListIn(now, a) + more;
      assert ListIn(lists, a) + For(signals[..i], a) + more == ListIn(lists, a) + (For(signals[..i], a) + more);
    }
  }

  lemma {:induction false} ForGrows(signals: seq<Signal>, i: nat, a: Id)
    requires i < |signals|
    ensures For(signals[..i + 1], a) == For(signals[..i], a) + if signals[i].account == a then [signals[i]] else []
  {
    assert signals[..i + 1][..i] == signals[..i];
  }

  /** emit, for each of these signals. */
  method Emit(lists: Lists, live: set<SignalKey>, signals: seq<Signal>) returns (out: Lists, keys: set<SignalKey>)
    requires Indexed(lists, live)
    ensures Indexed(out, keys) && Emitted(lists, out, signals)
  {
    out, keys := lists, live;
    for i := 0 to |signals|
      invariant Indexed(out, keys) && Emitted(lists, out, signals[..i])
    {
      var s := signals[i];
      IndexOneMore(out, keys, s);
      EmitOneMore(lists, out, signals, i);
      keys := keys + {s.Key()};
      out := out[s.account := ListIn(out, s.account) + [s]];
    }
    assert signals[..|signals|] == signals;
  }

  ghost predicate AccountsEmitted(f: Facts, lists: Lists, todo: set<Id>) {
    forall a :: ListIn(lists, a) == if a in todo then [] else AccountSignalsIn(f, a)
  }

  /** Emitting these signals turns the lists of column x into those of column y. */
  ghost predicate Extends(x: Id -> seq<Signal>, emitted: seq<Signal>, y: Id -> seq<Signal>) {
    forall a :: y(a) == x(a) + For(emitted, a)
  }

  lemma EmitExtends(base: Lists, now: Lists, out: Lists, x: Id -> seq<Signal>, emitted: seq<Signal>,
        y: Id -> seq<Signal>)
    requires forall a :: ListIn(now, a) == ListIn(base, a) + x(a)
    requires Emitted(now, out, emitted) && Extends(x, emitted, y)
    ensures forall a :: ListIn(out, a) == ListIn(base, a) + y(a)
  {
  }

  lemma {:induction false} OneAccount(f: Facts, id: Id, a: Id)
    requires id in f.accounts
    ensures For(AccountSignals(id, f.accounts[id], f.now), a) == if a == id then AccountSignalsIn(f, a) else []
  {
    var emitted := AccountSignals(id, f.accounts[id], f.now);
    forall s | s in emitted { KindsOfAccount(id, f.accounts[id], f.now, s); }
    AllForOne(emitted, id, a);
  }

  lemma AccountStep(f: Facts, lists: Lists, out: Lists, todo: set<Id>, id: Id)
    requires AccountsEmitted(f, lists, todo) && id in todo && id in f.accounts
    requires Emitted(lists, out, AccountSignals(id, f.accounts[id], f.now))
    ensures AccountsEmitted(f, out, todo - {id})
  {
    forall a
      ensures ListIn(out, a) == if a in todo - {id} then [] else AccountSignalsIn(f, a)
    {
      assert ListIn(lists, a) == if a in todo then [] else AccountSignalsIn(f, a);
      assert ListIn(out, a) == ListIn(lists, a) + For(AccountSignals(id, f.accounts[id], f.now), a);
      OneAccount(f, id, a);
      NoneAdds(AccountSignalsIn(f, a));
    }
  }

  method EmitAccounts(f: Facts) returns (lists: Lists, live: set<SignalKey>)
    ensures Indexed(lists, live) && AccountsEmitted(f, lists, {})
  {
    lists, live := map[], {};
    var todo := f.accounts.Keys;
    while todo != {}
      invariant todo <= f.accounts.Keys
      invariant Indexed(lists, live) && AccountsEmitted(f, lists, todo)
      decreases todo
    {
      var id :| id in todo;
      ghost var before := lists;
      lists, live := Emit(lists, live, AccountSignals(id, f.accounts[id], f.now));
      AccountStep(f, before, lists, todo, id);
      todo := todo - {id};
    }
  }

  ghost predicate DealsEmitted(f: Facts, lists: Lists, out: Lists, order: seq<Id>) {
    forall a :: ListIn(out, a) == ListIn(lists, a) + DealSignalsIn(f, order, a)
  }

  lemma {:induction false} NextDeal(f: Facts, order: seq<Id>, id: Id, a: Id)
    requires id in f.deals
    ensures DealSignalsIn(f, order + [id], a)
         == DealSignalsIn(f, order, a) + For(DealSignals(id, f.deals[id], f.now, f.today), a)
  {
    var emitted := DealSignals(id, f.deals[id], f.now, f.today);
    forall s | s in emitted { KindsOfDeal(id, f.deals[id], f.now, f.today, s); }
    AllForOne(emitted, f.deals[id].account, a);
    assert (order + [id])[..|order|] == order;
  }

  lemma DealStep(f: Facts, lists: Lists, now: Lists, out: Lists, order: seq<Id>, id: Id)
    requires DealsEmitted(f, lists, now, order) && id in f.deals
    requires Emitted(now, out, DealSignals(id, f.deals[id], f.now, f.today))
    ensures DealsEmitted(f, lists, out, order + [id])
  {
    var x, y := (a: Id) => DealSignalsIn(f, order, a), (a: Id) => DealSignalsIn(f, order + [id], a);
    var emitted := DealSignals(id, f.deals[id], f.now, f.today);
    forall a
      ensures y(a) == x(a) + For(emitted, a)
    {
      NextDeal(f, order, id, a);
    }
    EmitExtends(lists, now, out, x, emitted, y);
    forall a
      ensures ListIn(out, a) == ListIn(lists, a) + DealSignalsIn(f, order + [id], a)
    {
      assert ListIn(out, a) == ListIn(lists, a) + y(a);
    }
  }

  method EmitDeals(f: Facts, lists: Lists, live: set<SignalKey>)
        returns (out: Lists, keys: set<SignalKey>, ghost order: seq<Id>)
    requires Indexed(lists, live)
    ensures Indexed(out, keys) && Enumerates(order, f.deals.Keys) && DealsEmitted(f, lists, out, order)
  {
    out, keys, order := lists, live, [];
    var todo := f.deals.Keys;
    while todo != {}
      invariant todo <= f.deals.Keys && Enumerates(order, f.deals.Keys - todo)
      invariant Indexed(out, keys) && DealsEmitted(f, lists, out, order)
      decreases todo
    {
      var id :| id in todo;
      ghost var before := out;
      out, keys := Emit(out, keys, DealSignals(id, f.deals[id], f.now, f.today));
      DealStep(f, lists, before, out, order, id);
      order := order + [id];
      todo := todo - {id};
    }
    assert f.deals.Keys - todo == f.deals.Keys;
  }

  ghost predicate ContractsEmitted(f: Facts, lists: Lists, out: Lists, n: nat)
    requires n <= |f.contracts|
  {
    forall a :: ListIn(out, a) == ListIn(lists, a) + ContractSignalsIn(f, f.contracts[..n], a)
  }

  lemma ContractStep(f: Facts, lists: Lists, now: Lists, out: Lists, i: nat)
    requires i < |f.contracts| && ContractsEmitted(f, lists, now, i)
    requires Emitted(now, out, ContractSignals(f.contracts[i], f.today))
    ensures ContractsEmitted(f, lists, out, i + 1)
  {
    var x, y := (a: Id) => ContractSignalsIn(f, f.contracts[..i], a), (a: Id) => ContractSignalsIn(f, f.contracts[..i + 1], a);
    var emitted := ContractSignals(f.contracts[i], f.today);
    forall a
      ensures y(a) == x(a) + For(emitted, a)
    {
      NextContract(f, i, a);
    }
    EmitExtends(lists, now, out, x, emitted, y);
    forall a
      ensures ListIn(out, a) == ListIn(lists, a) + ContractSignalsIn(f, f.contracts[..i + 1], a)
    {
      assert ListIn(out, a) == ListIn(lists, a) + y(a);
    }
  }

  lemma {:induction false} NextContract(f: Facts, i: nat, a: Id)
    requires i < |f.contracts|
    ensures ContractSignalsIn(f, f.contracts[..i + 1], a)
         == ContractSignalsIn(f, f.contracts[..i], a) + For(ContractSignals(f.contracts[i], f.today), a)
  {
    assert f.contracts[..i + 1][..i] == f.contracts[..i];
    AllForOne(ContractSignals(f.contracts[i], f.today), f.contracts[i].account, a);
  }

  method EmitContracts(f: Facts, lists: Lists, live: set<SignalKey>) returns (out: Lists, keys: set<SignalKey>)
    requires Indexed(lists, live)
    ensures Indexed(out, keys) && ContractsEmitted(f, lists, out, |f.contracts|)
  {
    out, keys := lists, live;
    for i := 0 to |f.contracts|
      invariant Indexed(out, keys) && ContractsEmitted(f, lists, out, i)
    {
      ghost var before := out;
      out, keys := Emit(out, keys, ContractSignals(f.contracts[i], f.today));
      ContractStep(f, lists, before, out, i);
    }
  }

  /** byAccount for one order of ranging the deals. */
  ghost predicate Collected(f: Facts, lists: Lists, order: seq<Id>) {
    && Enumerates(order, f.deals.Keys)
    && (forall a | a in lists :: lists[a] != [])
    && forall a :: ListIn(lists, a) == SignalsOf(f, order, a)
  }

  method CollectSignals(f: Facts) returns (lists: Lists, live: set<SignalKey>, ghost order: seq<Id>)
    ensures Collected(f, lists, order)
    ensures live == Rec.KeysOf(SignalItems(f))
  {
    lists, live := EmitAccounts(f);
    ghost var first := lists;
    lists, live, order := EmitDeals(f, lists, live);
    ghost var second := lists;
    lists, live := EmitContracts(f, lists, live);
    AllEmitted(f, first, second, lists, order);
    LiveKeysAreComplete(f, lists, live, order);
  }

  lemma AllEmitted(f: Facts, first: Lists, second: Lists, lists: Lists, order: seq<Id>)
    requires AccountsEmitted(f, first, {}) && DealsEmitted(f, first, second, order)
    requires ContractsEmitted(f, second, lists, |f.contracts|)
    ensures forall a :: ListIn(lists, a) == SignalsOf(f, order, a)
  {
    assert f.contracts[..|f.contracts|] == f.contracts;
    forall a
      ensures ListIn(lists, a) == SignalsOf(f, order, a)
    {
      assert ListIn(first, a) == AccountSignalsIn(f, a);
      assert ListIn(second, a) == ListIn(first, a) + DealSignalsIn(f, order, a);
      assert ListIn(lists, a) == ListIn(second, a) + ContractSignalsIn(f, f.contracts[..|f.contracts|], a);
    }
  }

  lemma CollectedMember(f: Facts, lists: Lists, order: seq<Id>, a: Id, s: Signal)
    requires Collected(f, lists, order)
    ensures a in lists && s in lists[a] <==> s in LiveSignals(f) && s.account == a
  {
    ListsAreComplete(f, order, a, s);
    LiveSignalsHold(f, s);
    assert ListIn(lists, a) == SignalsOf(f, order, a);
  }

  lemma LiveKeysAreComplete(f: Facts, lists: Lists, live: set<SignalKey>, order: seq<Id>)
    requires Collected(f, lists, order) && Indexed(lists, live)
    ensures live == Rec.KeysOf(SignalItems(f))
  {
    forall k
      ensures k in live <==> k in Rec.KeysOf(SignalItems(f))
    {
      if k in live {
        var a, s :| a in lists && s in lists[a] && s.Key() == k;
        CollectedMember(f, lists, order, a, s);
        assert ItemOfSignal(s) in SignalItems(f);
      }
      if k in Rec.KeysOf(SignalItems(f)) {
        var i :| i in SignalItems(f) && i.key == k;
        var s :| s in LiveSignals(f) && ItemOfSignal(s) == i;
        CollectedMember(f, lists, order, s.account, s);
      }
    }
  }

  lemma TouchedAreTheLists(f: Facts, lists: Lists, order: seq<Id>)
    requires Collected(f, lists, order)
    ensures lists.Keys == Touched(f)
  {
    forall a
      ensures a in lists <==> a in Touched(f)
    {
      if a in lists {
        CollectedMember(f, lists, order, a, lists[a][0]);
      }
      if a in Touched(f) {
        var s :| s in LiveSignals(f) && s.account == a;
        CollectedMember(f, lists, order, a, s);
      }
    }
  }
}
