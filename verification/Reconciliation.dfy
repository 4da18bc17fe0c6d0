/** Signals and risks are kept by one rule: a row per dedupe key, refreshed while
    the condition holds, resolved once it stops, and left alone after a person has
    decided about it. Live stands for ACTIVE and OPEN, Decided for IGNORED and
    ACCEPTED. Row ids and timestamps are dropped. */
module Reconciliation {

  type Id = string

  datatype Status = Live | Resolved | Decided

  /** What one pass produced for a key. */
  datatype Item<+K, +V> = Item(key: K, account: Id, value: V)

  /** The conflict clause of the upsert does not write account_id. */
  datatype Row<+V> = Row(account: Id, value: V, status: Status)

  type Rows<K, V> = map<K, Row<V>>

  ghost function KeysOf<K(!new), V(!new)>(items: set<Item<K, V>>): set<K> {
    set i | i in items :: i.key
  }

  ghost predicate OnePerKey<K(!new), V(!new)>(items: set<Item<K, V>>) {
    forall i, j | i in items && j in items && i.key == j.key :: i == j
  }

  function Refreshed<K(==), V>(rows: Rows<K, V>, item: Item<K, V>): Row<V> {
    if item.key in rows then
      Row(rows[item.key].account, item.value, if rows[item.key].status == Decided then Decided else Live)
    else
      Row(item.account, item.value, Live)
  }

  /** after is before with these items upserted, in whatever order. */
  ghost predicate Upserted<K(!new), V(!new)>(before: Rows<K, V>, after: Rows<K, V>, items: set<Item<K, V>>) {
    && after.Keys == before.Keys + KeysOf(items)
    && (forall i | i in items :: i.key in after && after[i.key] == Refreshed(before, i))
    && (forall k | k in before && k !in KeysOf(items) :: k in after && after[k] == before[k])
  }

  function Settled<K(==), V>(rows: Rows<K, V>, live: set<K>): (out: Rows<K, V>)
    ensures out.Keys == rows.Keys
  {
    map k | k in rows :: if rows[k].status == Live && k !in live then rows[k].(status := Resolved) else rows[k]
  }

  /** after is before reconciled with the items of one pass. */
  ghost predicate Reconciled<K(!new), V(!new)>(before: Rows<K, V>, after: Rows<K, V>, items: set<Item<K, V>>) {
    exists mid: Rows<K, V> :: Upserted(before, mid, items) && after == Settled(mid, KeysOf(items))
  }

  lemma UpsertIsDetermined<K(!new), V(!new)>(before: Rows<K, V>, a: Rows<K, V>, b: Rows<K, V>, items: set<Item<K, V>>)
    requires Upserted(before, a, items) && Upserted(before, b, items)
    ensures a == b
  {
  }

  /** The outcome of a pass depends on what it found, never on the order. */
  lemma OutcomeIsDetermined<K(!new), V(!new)>(before: Rows<K, V>, a: Rows<K, V>, b: Rows<K, V>, items: set<Item<K, V>>)
    requires Reconciled(before, a, items) && Reconciled(before, b, items)
    ensures a == b
  {
    var m: Rows<K, V> :| Upserted(before, m, items) && a == Settled(m, KeysOf(items));
    var n: Rows<K, V> :| Upserted(before, n, items) && b == Settled(n, KeysOf(items));
    UpsertIsDetermined(before, m, n, items);
  }

  lemma ReconciledRow<K(!new), V(!new)>(before: Rows<K, V>, after: Rows<K, V>, items: set<Item<K, V>>, k: K)
    requires Reconciled(before, after, items)
    ensures k in after <==> k in before || k in KeysOf(items)
    ensures forall i | i in items && i.key == k :: k in after && after[k] == Refreshed(before, i)
    ensures k in before && k !in KeysOf(items) ==>
              after[k] == if before[k].status == Live then before[k].(status := Resolved) else before[k]
  {
  }

  /** Exact reconciliation: the live rows are precisely the keys found by the pass
      that nobody has decided about. */
  lemma LiveRowsAreExact<K(!new), V(!new)>(before: Rows<K, V>, after: Rows<K, V>, items: set<Item<K, V>>, k: K)
    requires Reconciled(before, after, items)
    ensures (k in after && after[k].status == Live)
       <==> k in KeysOf(items) && !(k in before && before[k].status == Decided)
  {
    ReconciledRow(before, after, items, k);
    if k in KeysOf(items) {
      var i :| i in items && i.key == k;
    }
  }

  /** A decision survives every pass. */
  lemma DecisionSurvives<K(!new), V(!new)>(before: Rows<K, V>, after: Rows<K, V>, items: set<Item<K, V>>, k: K)
    requires Reconciled(before, after, items) && k in before
    ensures k in after && (after[k].status == Decided <==> before[k].status == Decided)
  {
    ReconciledRow(before, after, items, k);
    if k in KeysOf(items) {
      var i :| i in items && i.key == k;
    }
  }

  /** A second pass over the same facts opens nothing, resolves nothing and leaves
      every row as it was. */
  lemma SecondPassChangesNothing<K(!new), V(!new)>(before: Rows<K, V>, after: Rows<K, V>, again: Rows<K, V>,
        items: set<Item<K, V>>)
    requires Reconciled(before, after, items) && Reconciled(after, again, items)
    ensures again == after
  {
    forall k
      ensures k in again <==> k in after
      ensures k in after ==> k in again && again[k] == after[k]
    {
      ReconciledRow(before, after, items, k);
      ReconciledRow(after, again, items, k);
      if k in KeysOf(items) {
        var i :| i in items && i.key == k;
      }
    }
  }

  /** Whatever a pass found is written to its row, known key or new, and a row that
      it found nothing for keeps its value. */
  lemma ValuesAreCurrent<K(!new), V(!new)>(before: Rows<K, V>, after: Rows<K, V>, items: set<Item<K, V>>)
    requires Reconciled(before, after, items)
    ensures forall i | i in items :: i.key in after && after[i.key].value == i.value
    ensures forall k | k in before && (forall i | i in items :: i.key != k) ::
              k in after && after[k].value == before[k].value && after[k].account == before[k].account
    ensures forall k | k in after && k !in before :: exists i :: i in items && i.key == k
  {
    forall i | i in items
      ensures i.key in after && after[i.key].value == i.value
    {
      ReconciledRow(before, after, items, i.key);
    }
    forall k
      ensures k in after ==> k in before || k in KeysOf(items)
      ensures k in before && k !in KeysOf(items) ==>
                k in after && after[k].value == before[k].value && after[k].account == before[k].account
    {
      ReconciledRow(before, after, items, k);
    }
  }

  /** The account a row is filed under is the one of its first detection: it is the
      current account if and only if the key is new or has not moved. */
  lemma AccountIsKept<K(!new), V(!new)>(before: Rows<K, V>, after: Rows<K, V>, items: set<Item<K, V>>, i: Item<K, V>)
    requires Reconciled(before, after, items) && i in items
    ensures i.key in after
    ensures after[i.key].account == i.account <==> i.key !in before || before[i.key].account == i.account
  {
    ReconciledRow(before, after, items, i.key);
  }

  /** The keys a pass turned from live to resolved. */
  ghost function NewlyResolved<K(!new), V(!new)>(before: Rows<K, V>, after: Rows<K, V>): set<K> {
    set k | k in before && k in after && before[k].status == Live && after[k].status == Resolved
  }

  /** What resolveStale closes after the upserts is what the pass closed overall. */
  lemma ResolvedAreTheStale<K(!new), V(!new)>(before: Rows<K, V>, mid: Rows<K, V>, items: set<Item<K, V>>)
    requires Upserted(before, mid, items)
    ensures NewlyResolved(before, Settled(mid, KeysOf(items)))
         == set k | k in mid && mid[k].status == Live && k !in KeysOf(items)
  {
    var after := Settled(mid, KeysOf(items));
    forall k
      ensures k in NewlyResolved(before, after) <==> k in mid && mid[k].status == Live && k !in KeysOf(items)
    {
      if k in KeysOf(items) {
        var i :| i in items && i.key == k;
      }
    }
  }

  class Table<K(!new, ==), V(!new, ==)> {
    var rows: Rows<K, V>

    constructor ()
      ensures rows == map[]
    {
      rows := map[];
    }

    method Upsert(item: Item<K, V>) returns (inserted: bool)
      modifies this
      ensures rows == old(rows)[item.key := Refreshed(old(rows), item)]
      ensures inserted <==> item.key !in old(rows)
    {
      inserted := item.key !in rows;
      rows := rows[item.key := Refreshed(rows, item)];
    }

    /** persistSignals and persistRisks: every list of every account, ranged in any
        order, counting the rows that were inserted. */
    method PersistAll(byAccount: map<Id, seq<Item<K, V>>>) returns (inserts: nat)
      requires OnePerKey(AllItems(byAccount))
      modifies this
      ensures Upserted(old(rows), rows, AllItems(byAccount))
      ensures inserts == |rows.Keys| - |old(rows).Keys|
    {
      inserts := 0;
      ghost var before := rows;
      var todo := byAccount.Keys;
      ghost var visited: set<Id> := {};
      NothingUpserted(rows, byAccount);
      while todo != {}
        invariant visited + todo == byAccount.Keys
        invariant Upserted(before, rows, ItemsOf(byAccount, visited))
        invariant inserts == |rows.Keys| - |before.Keys|
        decreases todo
      {
        var account :| account in todo;
        var added := PersistAccount(before, visited, byAccount, account);
        inserts := inserts + added;
        visited := visited + {account};
        todo := todo - {account};
      }
      assert visited == byAccount.Keys;
    }

    method PersistAccount(ghost before: Rows<K, V>, ghost visited: set<Id>, byAccount: map<Id, seq<Item<K, V>>>,
          account: Id)
      returns (inserts: nat)
      requires OnePerKey(AllItems(byAccount)) && visited <= byAccount.Keys && account in byAccount
      requires Upserted(before, rows, ItemsOf(byAccount, visited))
      modifies this
      ensures Upserted(before, rows, ItemsOf(byAccount, visited + {account}))
      ensures inserts == |rows.Keys| - |old(rows).Keys|
    {
      OneMoreAccount(byAccount, visited, account);
      inserts := PersistList(before, ItemsOf(byAccount, visited), byAccount[account], AllItems(byAccount));
    }

    method PersistList(ghost before: Rows<K, V>, ghost done: set<Item<K, V>>, items: seq<Item<K, V>>,
          ghost all: set<Item<K, V>>)
      returns (inserts: nat)
      requires OnePerKey(all) && done <= all && (forall i | i in items :: i in all)
      requires Upserted(before, rows, done)
      modifies this
      ensures Upserted(before, rows, done + Members(items))
      ensures inserts == |rows.Keys| - |old(rows).Keys|
    {
      inserts := 0;
      assert done + Members([]) == done;
      for n := 0 to |items|
        invariant Upserted(before, rows, done + Members(items[..n]))
        invariant inserts == |rows.Keys| - |old(rows).Keys|
      {
        OneMoreMember(items, n);
        assert done + Members(items[..n + 1]) == done + Members(items[..n]) + {items[n]};
        UpsertOneMore(before, rows, done + Members(items[..n]), items[n], all);
        UpsertCounts(rows, items[n]);
        var inserted := Upsert(items[n]);
        if inserted {
          inserts := inserts + 1;
        }
      }
      assert items[..|items|] == items;
    }

    /** resolveStaleSignals and resolveStaleRisks. */
    method ResolveStale(live: set<K>) returns (resolved: nat)
      modifies this
      ensures rows == Settled(old(rows), live)
      ensures resolved == |set k | k in old(rows) && old(rows)[k].status == Live && k !in live|
    {
      var stale := set k | k in rows && rows[k].status == Live && k !in live;
      rows := Settled(rows, live);
      resolved := |stale|;
    }

    /** IgnoreSignal and AcceptRisk: no guard on the current status. */
    method Decide(key: K) returns (found: bool)
      modifies this
      ensures found <==> key in old(rows)
      ensures rows == if found then old(rows)[key := old(rows)[key].(status := Decided)] else old(rows)
    {
      found := key in rows;
      if found {
        rows := rows[key := rows[key].(status := Decided)];
      }
    }
  }

  ghost function ItemsOf<K(!new), V(!new)>(byAccount: map<Id, seq<Item<K, V>>>, accounts: set<Id>): set<Item<K, V>> {
    set a, i | a in accounts && a in byAccount && i in byAccount[a] :: i
  }

  ghost function AllItems<K(!new), V(!new)>(byAccount: map<Id, seq<Item<K, V>>>): set<Item<K, V>> {
    ItemsOf(byAccount, byAccount.Keys)
  }

  lemma NothingUpserted<K(!new), V(!new)>(rows: Rows<K, V>, byAccount: map<Id, seq<Item<K, V>>>)
    ensures Upserted(rows, rows, ItemsOf(byAccount, {}))
  {
  }

  /** Every item's row carries the item's value. */
  ghost predicate Written<K(!new), V(!new)>(byAccount: map<Id, seq<Item<K, V>>>, rows: Rows<K, V>) {
    forall a, i | a in byAccount && i in byAccount[a] :: i.key in rows && rows[i.key].value == i.value
  }

  /** What PersistAll leaves holds everything it was given. */
  lemma UpsertedValues<K(!new), V(!new)>(before: Rows<K, V>, after: Rows<K, V>, byAccount: map<Id, seq<Item<K, V>>>)
    requires Upserted(before, after, AllItems(byAccount))
    ensures Written(byAccount, after)
  {
    forall a, i | a in byAccount && i in byAccount[a]
      ensures i.key in after && after[i.key].value == i.value
    {
      assert i in AllItems(byAccount);
    }
  }

  ghost function Members<T(!new)>(s: seq<T>): set<T> {
    set x | x in s
  }

  lemma OneMoreMember<T(!new)>(s: seq<T>, n: nat)
    requires n < |s|
    ensures Members(s[..n + 1]) == Members(s[..n]) + {s[n]}
  {
  }

  lemma OneMoreAccount<K(!new), V(!new)>(byAccount: map<Id, seq<Item<K, V>>>, accounts: set<Id>, account: Id)
    requires account in byAccount && accounts <= byAccount.Keys
    ensures ItemsOf(byAccount, accounts + {account}) == ItemsOf(byAccount, accounts) + Members(byAccount[account])
    ensures ItemsOf(byAccount, accounts) <= AllItems(byAccount)
    ensures forall i | i in byAccount[account] :: i in AllItems(byAccount)
  {
  }

  /** One upsert more; upserting an item a second time changes nothing. */
  lemma UpsertOneMore<K(!new), V(!new)>(before: Rows<K, V>, now: Rows<K, V>, done: set<Item<K, V>>, item: Item<K, V>,
        all: set<Item<K, V>>)
    requires Upserted(before, now, done) && OnePerKey(all) && done <= all && item in all
    ensures Upserted(before, now[item.key := Refreshed(now, item)], done + {item})
  {
    var next := now[item.key := Refreshed(now, item)];
    assert KeysOf(done + {item}) == KeysOf(done) + {item.key};
    assert next.Keys == now.Keys + {item.key};
    if item.key in KeysOf(done) {
      var i :| i in done && i.key == item.key;
      assert i == item;
      assert next == now;
    } else {
      assert Refreshed(now, item) == Refreshed(before, item);
      assert forall i | i in done :: next[i.key] == now[i.key];
    }
  }

  lemma UpsertCounts<K(!new), V(!new)>(now: Rows<K, V>, item: Item<K, V>)
    ensures |now[item.key := Refreshed(now, item)].Keys| == |now.Keys| + if item.key in now then 0 else 1
  {
  }
}
