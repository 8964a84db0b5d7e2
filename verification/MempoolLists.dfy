/** The per-script transaction lists: sorting, de-duplicating, filtering, and keeping them complete. */
module MempoolLists {
  import opened Ids
  import opened MempoolMeaning
  import opened MempoolSpec

  type TxMap = map<TxHash, Tx>
  type Lists = map<HashX, seq<TxHash>>

  ghost predicate WeaklySorted(txs: TxMap, list: seq<TxHash>) {
    forall i, j :: 0 <= i < j < |list| ==> !Before(txs, list[j], list[i])
  }

  ghost predicate NoDuplicates(list: seq<TxHash>) {
    forall i, j :: 0 <= i < j < |list| ==> list[i] != list[j]
  }

  lemma {:induction false} InsertedSorted(txs: TxMap, list: seq<TxHash>, k: nat, t: TxHash)
    requires WeaklySorted(txs, list) && k <= |list|
    requires forall i :: 0 <= i < k ==> !Before(txs, t, list[i])
    requires k < |list| ==> Before(txs, t, list[k])
    ensures WeaklySorted(txs, list[..k] + [t] + list[k..])
  {
    forall j | k <= j < |list|
      ensures Before(txs, t, list[j])
    {
      assert j == k || !Before(txs, list[j], list[k]);
    }
  }

  /** Position-by-position insertion: the place of t in a sorted list. */
  method InsertSorted(txs: TxMap, list: seq<TxHash>, t: TxHash) returns (r: seq<TxHash>)
    requires WeaklySorted(txs, list)
    ensures WeaklySorted(txs, r)
    ensures multiset(r) == multiset(list) + multiset{t}
  {
    var k := 0;
    while k < |list| && !Before(txs, t, list[k])
      invariant 0 <= k <= |list|
      invariant forall i :: 0 <= i < k ==> !Before(txs, t, list[i])
    {
      k := k + 1;
    }
    r := list[..k] + [t] + list[k..];
    assert list == list[..k] + list[k..];
    InsertedSorted(txs, list, k, t);
  }

  /** std::sort with TxRefOrdering. */
  method Sort(txs: TxMap, list: seq<TxHash>) returns (r: seq<TxHash>)
    ensures WeaklySorted(txs, r)
    ensures multiset(r) == multiset(list)
  {
    r := [];
    for i := 0 to |list|
      invariant WeaklySorted(txs, r)
      invariant multiset(r) == multiset(list[..i])
    {
      assert list[..i + 1] == list[..i] + [list[i]];
      r := InsertSorted(txs, r, list[i]);
    }
    assert list[..|list|] == list;
  }

  /** std::unique and erase: drop adjacent repetitions. */
  method Uniqueify(txs: TxMap, list: seq<TxHash>) returns (r: seq<TxHash>)
    requires WeaklySorted(txs, list)
    ensures StrictlySorted(txs, r)
    ensures forall t :: t in r <==> t in list
  {
    r := [];
    for i := 0 to |list|
      invariant StrictlySorted(txs, r)
      invariant forall t :: t in r <==> t in list[..i]
      invariant i > 0 ==> r != [] && r[|r| - 1] == list[i - 1]
      invariant i == 0 ==> r == []
    {
      ghost var before := r;
      assert list[..i + 1] == list[..i] + [list[i]];
      if i == 0 || list[i] != list[i - 1] {
        if i > 0 {
          assert !Before(txs, list[i], list[i - 1]);
          forall k | 0 <= k < |r|
            ensures Before(txs, r[k], list[i])
          {
            assert k == |r| - 1 || Before(txs, r[k], r[|r| - 1]);
          }
        }
        r := r + [list[i]];
      }
    }
    assert list[..|list|] == list;
  }

  method SortAndUniqueify(txs: TxMap, list: seq<TxHash>) returns (r: seq<TxHash>)
    ensures StrictlySorted(txs, r) && ParentlessFirst(txs, r)
    ensures forall t :: t in r <==> t in list
  {
    var s := Sort(txs, list);
    r := Uniqueify(txs, s);
    SortedMeans(txs, r);
    forall t
      ensures t in s <==> t in list
    {
      assert t in multiset(s) <==> t in multiset(list);
    }
  }

  lemma {:induction false} SortedHasNoDuplicates(txs: TxMap, list: seq<TxHash>)
    requires StrictlySorted(txs, list)
    ensures NoDuplicates(list)
  {
    forall i, j | 0 <= i < j < |list|
      ensures list[i] != list[j]
    {
      assert Before(txs, list[i], list[j]);
    }
  }

  /** Sorting a list without repetitions sorts it strictly. */
  lemma {:induction false} SortedStrictly(txs: TxMap, list: seq<TxHash>, r: seq<TxHash>)
    requires NoDuplicates(list) && WeaklySorted(txs, r) && multiset(r) == multiset(list)
    ensures StrictlySorted(txs, r)
    ensures forall t :: t in r <==> t in list
  {
    forall t
      ensures t in r <==> t in list
    {
      assert t in multiset(r) <==> t in multiset(list);
    }
    OnceEach(list);
    forall i, j | 0 <= i < j < |r|
      ensures Before(txs, r[i], r[j])
    {
      assert !Before(txs, r[j], r[i]);
      if r[i] == r[j] {
        TwiceIn(r, i, j);
        assert false;
      }
    }
  }

  lemma {:induction false} OnceEach(list: seq<TxHash>)
    requires NoDuplicates(list)
    ensures forall t :: multiset(list)[t] <= 1
    decreases |list|
  {
    if list != [] {
      var n := |list| - 1;
      assert list == list[..n] + [list[n]];
      OnceEach(list[..n]);
      assert list[n] !in list[..n];
      assert list[n] !in multiset(list[..n]);
    }
  }

  lemma {:induction false} TwiceIn(list: seq<TxHash>, i: nat, j: nat)
    requires i < j < |list| && list[i] == list[j]
    ensures multiset(list)[list[i]] >= 2
  {
    var a, b := list[..j], list[j..];
    assert list == a + b;
    assert list[i] in multiset(a) by { assert a[i] in a; }
    assert list[i] in multiset(b) by { assert b[0] in b; }
  }

  // ----- adding a transaction to the list of a script

  function ListFor(lists: Lists, sh: HashX): seq<TxHash> {
    if sh in lists then lists[sh] else []
  }

  lemma {:induction false} ListsMatchInsert(txs: TxMap, lists: Lists, t: TxHash, e: Tx)
    requires ListsMatch(txs, lists)
    requires e.hashXs.Keys == if t in txs then txs[t].hashXs.Keys else {}
    ensures ListsMatch(txs[t := e], lists)
  {
    var txs' := txs[t := e];
    forall x, sh | x in txs' && sh in txs'[x].hashXs
      ensures sh in lists && x in lists[sh]
    {
      assert x in txs && sh in txs[x].hashXs;
    }
    forall sh, x | sh in lists && x in lists[sh]
      ensures x in txs' && sh in txs'[x].hashXs
    {
      assert x in txs && sh in txs[x].hashXs;
    }
  }

  lemma {:induction false} ListsMatchAppend(txs: TxMap, lists: Lists, t: TxHash, e: Tx, sh: HashX)
    requires ListsMatch(txs, lists) && t in txs
    requires e.hashXs.Keys == txs[t].hashXs.Keys + {sh}
    ensures ListsMatch(txs[t := e], lists[sh := ListFor(lists, sh) + [t]])
  {
    var txs', lists' := txs[t := e], lists[sh := ListFor(lists, sh) + [t]];
    forall x, s | x in txs' && s in txs'[x].hashXs
      ensures s in lists' && x in lists'[s]
    {
      if !(x == t && s == sh) {
        assert x in txs && s in txs[x].hashXs;
        assert s in lists && x in lists[s];
      }
    }
    forall s, x | s in lists' && x in lists'[s]
      ensures x in txs' && s in txs'[x].hashXs
    {
      if s in lists && x in lists[s] {
        assert x in txs && s in txs[x].hashXs;
      }
    }
  }

  // ----- removing transactions from the lists

  /** The list without the transactions in ids. */
  function Filter(list: seq<TxHash>, ids: set<TxHash>): (r: seq<TxHash>)
    ensures forall t :: t in r <==> t in list && t !in ids
  {
    if list == [] then []
    else
      var n := |list| - 1;
      assert list == list[..n] + [list[n]];
      Filter(list[..n], ids) + if list[n] in ids then [] else [list[n]]
  }

  lemma {:induction false} FilterSorted(txs: TxMap, list: seq<TxHash>, ids: set<TxHash>)
    requires StrictlySorted(txs, list)
    ensures StrictlySorted(txs, Filter(list, ids))
    decreases |list|
  {
    if list != [] {
      var n := |list| - 1;
      FilterSorted(txs, list[..n], ids);
      var f := Filter(list[..n], ids);
      forall i | 0 <= i < |f|
        ensures Before(txs, f[i], list[n])
      {
        assert f[i] in f;
        var j :| 0 <= j < n && list[j] == f[i];
      }
    }
  }

  /** What becomes of one list: an affected one loses the ids, vanishes when nothing is left, and is
      sorted again if needed. */
  ghost predicate RemovedAt(txs: TxMap, lists: Lists, lists': Lists, ids: set<TxHash>, affected: set<HashX>, needSort: set<HashX>, sh: HashX) {
    if sh !in affected || sh !in lists then (sh in lists <==> sh in lists') && (sh in lists ==> lists'[sh] == lists[sh])
    else
      && (sh in lists' <==> Filter(lists[sh], ids) != [])
      && (sh in lists' ==> ListAfter(txs, lists[sh], lists'[sh], ids, sh in needSort))
  }

  ghost predicate ListAfter(txs: TxMap, list: seq<TxHash>, list': seq<TxHash>, ids: set<TxHash>, sort: bool) {
    if sort then StrictlySorted(txs, list') && list' != [] && forall t :: t in list' <==> t in Filter(list, ids)
    else list' == Filter(list, ids)
  }

  ghost predicate Removed(txs: TxMap, lists: Lists, lists': Lists, ids: set<TxHash>, affected: set<HashX>, needSort: set<HashX>) {
    forall sh :: RemovedAt(txs, lists, lists', ids, affected, needSort, sh)
  }

  /** Mempool::rmTxsInHashXTxs_impl */
  method RemoveFromLists(txs: TxMap, lists: Lists, ids: set<TxHash>, affected: set<HashX>, needSort: set<HashX>, ghost txs0: TxMap)
    returns (lists': Lists)
    requires ListsSorted(txs0, lists)
    ensures Removed(txs, lists, lists', ids, affected, needSort)
  {
    hide StrictlySorted, ListAfter, Filter;
    lists' := lists;
    var todo := affected;
    ghost var done: set<HashX> := {};
    while todo != {}
      invariant done !! todo && done + todo == affected
      invariant Removed(txs, lists, lists', ids, done, needSort)
    {
      var sh :| sh in todo;
      assert RemovedAt(txs, lists, lists', ids, done, needSort, sh);
      todo := todo - {sh};
      ghost var before := lists';
      if sh in lists' {
        var newvec := RemoveAndSort(txs, lists'[sh], ids, sh in needSort, txs0);
        if newvec == [] {
          lists' := lists' - {sh};
        } else {
          lists' := lists'[sh := newvec];
        }
      }
      RemovedNext(txs, lists, before, lists', ids, done, needSort, sh);
      done := done + {sh};
    }
    assert done == affected;
  }

  lemma {:induction false} RemovedNext(txs: TxMap, lists: Lists, before: Lists, after: Lists, ids: set<TxHash>,
                                       done: set<HashX>, needSort: set<HashX>, sh: HashX)
    requires Removed(txs, lists, before, ids, done, needSort) && sh !in done
    requires before - {sh} == after - {sh}
    requires sh in before ==>
               if sh in after then Filter(before[sh], ids) != [] && ListAfter(txs, before[sh], after[sh], ids, sh in needSort)
               else Filter(before[sh], ids) == []
    requires sh !in before ==> sh !in after
    ensures Removed(txs, lists, after, ids, done + {sh}, needSort)
  {
    hide ListAfter, Filter;
    assert RemovedAt(txs, lists, before, ids, done, needSort, sh);
    forall s
      ensures RemovedAt(txs, lists, after, ids, done + {sh}, needSort, s)
    {
      assert RemovedAt(txs, lists, before, ids, done, needSort, s);
      if s != sh {
        assert s in before <==> s in before - {sh};
        assert s in after <==> s in after - {sh};
        assert s in before ==> (before - {sh})[s] == (after - {sh})[s];
      }
    }
  }

  /** One list: filter, and sort if something is left and it is needed. */
  method RemoveAndSort(txs: TxMap, list: seq<TxHash>, ids: set<TxHash>, sort: bool, ghost txs0: TxMap) returns (newvec: seq<TxHash>)
    requires StrictlySorted(txs0, list)
    ensures newvec == [] <==> Filter(list, ids) == []
    ensures newvec != [] ==> ListAfter(txs, list, newvec, ids, sort)
  {
    hide StrictlySorted, NoDuplicates, WeaklySorted;
    newvec := RemoveFrom(list, ids);
    if newvec != [] && sort {
      FilterSorted(txs0, list, ids);
      SortedHasNoDuplicates(txs0, newvec);
      var sorted := Sort(txs, newvec);
      SortedStrictly(txs, newvec, sorted);
      assert newvec[0] in sorted;
      newvec := sorted;
    }
  }

  method RemoveFrom(list: seq<TxHash>, ids: set<TxHash>) returns (newvec: seq<TxHash>)
    ensures newvec == Filter(list, ids)
  {
    newvec := [];
    for i := 0 to |list|
      invariant newvec == Filter(list[..i], ids)
    {
      assert list[..i + 1][..i] == list[..i];
      if list[i] !in ids {
        newvec := newvec + [list[i]];
      }
    }
    assert list[..|list|] == list;
  }

  /** The ids leave the entries, the others keep their scripts, and where nothing is sorted again the
      others keep their place in the order. */
  ghost predicate RemovalFits(txs: TxMap, txs': TxMap, ids: set<TxHash>, affected: set<HashX>, needSort: set<HashX>) {
    && txs'.Keys == txs.Keys - ids && needSort <= affected
    && (forall t :: t in txs' ==> txs'[t].hashXs.Keys == txs[t].hashXs.Keys)
    && (forall t :: t in txs && t in ids ==> txs[t].hashXs.Keys <= affected)
    && (forall t, sh :: t in txs' && sh in txs'[t].hashXs && sh !in needSort ==> (txs'[t].parents != {} <==> txs[t].parents != {}))
  }

  /** Lists stay complete and sorted when the ids are removed from the scripts they touch, provided
      every list whose order may have changed is sorted again. */
  lemma {:induction false} ListsAfterRemoval(txs: TxMap, txs': TxMap, lists: Lists, lists': Lists, ids: set<TxHash>,
                                             affected: set<HashX>, needSort: set<HashX>)
    requires ListsMatch(txs, lists) && ListsSorted(txs, lists)
    requires Removed(txs', lists, lists', ids, affected, needSort) && RemovalFits(txs, txs', ids, affected, needSort)
    ensures ListsMatch(txs', lists') && ListsSorted(txs', lists')
  {
    forall sh | sh in lists'
      ensures sh in lists && lists'[sh] != []
      ensures forall t :: t in lists'[sh] <==> t in lists[sh] && t !in ids
      ensures StrictlySorted(txs', lists'[sh])
    {
      hide ListsMatch, ListsSorted, Removed, RemovalFits, StrictlySorted;
      ListAfterRemoval(txs, txs', lists, lists', ids, affected, needSort, sh);
    }
    hide StrictlySorted, Filter, ListAfter;
    forall t, sh | t in txs' && sh in txs'[t].hashXs
      ensures sh in lists' && t in lists'[sh]
    {
      assert sh in txs[t].hashXs;
      assert t in lists[sh];
      ListStays(txs', lists, lists', ids, affected, needSort, sh, t);
    }
    forall sh, t | sh in lists' && t in lists'[sh]
      ensures t in txs' && sh in txs'[t].hashXs
    {
      assert t in lists[sh];
    }
  }

  lemma {:induction false} ListStays(txs: TxMap, lists: Lists, lists': Lists, ids: set<TxHash>, affected: set<HashX>,
                                     needSort: set<HashX>, sh: HashX, t: TxHash)
    requires Removed(txs, lists, lists', ids, affected, needSort) && sh in lists && t in lists[sh] && t !in ids
    ensures sh in lists'
  {
    assert RemovedAt(txs, lists, lists', ids, affected, needSort, sh);
    assert t in Filter(lists[sh], ids);
  }

  lemma {:induction false} ListAfterRemoval(txs: TxMap, txs': TxMap, lists: Lists, lists': Lists, ids: set<TxHash>,
                                            affected: set<HashX>, needSort: set<HashX>, sh: HashX)
    requires ListsMatch(txs, lists) && ListsSorted(txs, lists)
    requires Removed(txs', lists, lists', ids, affected, needSort) && RemovalFits(txs, txs', ids, affected, needSort)
    requires sh in lists'
    ensures sh in lists && lists'[sh] != []
    ensures forall t :: t in lists'[sh] <==> t in lists[sh] && t !in ids
    ensures StrictlySorted(txs', lists'[sh])
  {
    hide StrictlySorted;
    assert RemovedAt(txs', lists, lists', ids, affected, needSort, sh);
    forall t | t in lists[sh]
      ensures t in txs && sh in txs[t].hashXs
      ensures t in ids ==> sh in affected
    {
    }
    if sh in affected {
      FilterSorted(txs, lists[sh], ids);
    }
    if sh !in needSort {
      hide Removed, ListsMatch;
      SortedTransfers(txs, txs', lists'[sh]);
    }
  }

  lemma {:induction false} SortedTransfers(txs: TxMap, txs': TxMap, list: seq<TxHash>)
    requires StrictlySorted(txs, list)
    requires forall t :: t in list ==> t in txs && t in txs' && (txs[t].parents != {} <==> txs'[t].parents != {})
    ensures StrictlySorted(txs', list)
  {
    forall i, j | 0 <= i < j < |list|
      ensures Before(txs', list[i], list[j])
    {
      assert Before(txs, list[i], list[j]);
      assert list[i] in list && list[j] in list;
    }
  }
}
