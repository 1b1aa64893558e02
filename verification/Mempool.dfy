/**
 TxMempool of mempool/v1/mempool.go: admission with eviction, removal, expiry, block updates,
 recheck results, flushing and reaping, as the locked methods run them. The list is the sequence
 that a CList of its own represents; its element pointers are the identities of Pool.
 */
module Mempool {
  import opened Pool
  import Cache = TxCache
  import Messages

  /** The application's answer to CheckTx, after the post-check hook. */
  datatype CheckTx = CheckTx(ok: bool, gasWanted: int, priority: int, sender: string)

  /** How CheckTx goes before the application is asked. */
  datatype Entry = TooLarge | PreCheckFailed | ConnectionError | InCache | Forwarded(height: int)

  datatype Admission = Rejected | SenderTaken | PoolFull | Added(evicted: seq<Elt>)

  ghost predicate StrictOrder(before: (Elt, Elt) -> bool) {
    (forall a :: !before(a, a)) && forall a, b, c :: before(a, b) && before(b, c) ==> before(a, c)
  }

  /** sort.Slice; nothing is promised about elements that neither precede nor follow each other. */
  method SortBy(es: seq<Elt>, before: (Elt, Elt) -> bool) returns (order: seq<Elt>)
    requires NoDup(es) && StrictOrder(before)
    ensures Arranged(order, es, before)
  {
    order := [];
    for n := 0 to |es|
      invariant Arranged(order, es[..n], before)
    {
      var x := es[n];
      assert x !in es[..n];
      var at := 0;
      while at < |order| && !before(x, order[at])
        invariant at <= |order| && forall i | 0 <= i < at :: !before(x, order[i])
      {
        at := at + 1;
      }
      InsertArranged(order, es[..n], before, x, at);
      order := order[..at] + [x] + order[at..];
      assert es[..n] + [x] == es[..n + 1];
    }
    assert es[..|es|] == es;
  }

  lemma InsertArranged(order: seq<Elt>, es: seq<Elt>, before: (Elt, Elt) -> bool, x: Elt, at: nat)
    requires StrictOrder(before) && Arranged(order, es, before) && x !in es && at <= |order|
    requires forall i | 0 <= i < at :: !before(x, order[i])
    requires at < |order| ==> before(x, order[at])
    ensures Arranged(order[..at] + [x] + order[at..], es + [x], before)
  {
    var r := order[..at] + [x] + order[at..];
    forall i, j | 0 <= i < j < |r|
      ensures r[i] != r[j] && !before(r[j], r[i])
    {
      if i == at && at < |order| {
        assert before(x, order[at]) && r[j] == order[j - 1];
        assert j - 1 > at ==> !before(order[j - 1], order[at]);
      }
    }
    assert forall y :: y in r <==> y in order || y == x;
  }

  lemma EvictionOrder()
    ensures StrictOrder(EvictBefore) && StrictOrder(ReapBefore)
  {
  }

  /** Following a pointer into the list. */
  function Deref(txs: seq<Elt>, id: nat): (e: Elt)
    requires Live(txs, id)
    ensures e in txs && e.id == id
  {
    if txs[0].id == id then txs[0] else Deref(txs[1..], id)
  }

  class TxMempool {
    const cfg: Config
    const key: Tx -> Key
    const cache: Cache.LRUTxCache
    var txs: seq<Elt>
    var txByKey: map<Key, nat>
    var txBySender: map<string, nat>
    var txsBytes: int
    var nextId: nat
    var height: int
    var txRecheck: int

    ghost function View(): Pool
      reads this
    {
      Pool(txs, txByKey, txBySender, txsBytes, nextId)
    }

    ghost predicate Valid()
      reads this, cache
    {
      Inv(key, View()) && Fits(cfg, View()) && cache.Valid()
    }

    constructor (cfg: Config, key: Tx -> Key, cacheSize: int, height: int)
      requires 0 <= cfg.size && 0 <= cfg.maxTxsBytes
      ensures Valid() && View() == EMPTY && fresh(cache) && this.cfg == cfg && this.key == key
      ensures cache.Keys() == [] && cache.size == cacheSize && this.height == height && txRecheck == 0
    {
      this.cfg, this.key, this.height, this.txRecheck := cfg, key, height, 0;
      this.cache := new Cache.LRUTxCache(cacheSize);
      txs, txByKey, txBySender, txsBytes, nextId := [], map[], map[], 0, 0;
    }

    /** The cache's answer to a push; a cache size of zero or less is no cache. */
    method PushKey(k: Key) returns (added: bool)
      requires cache.Valid()
      modifies cache
      ensures cache.Valid() && cache.Keys() == PushedKey(old(cache.Keys()), cache.size, k)
      ensures added <==> cache.size <= 0 || k !in old(cache.Keys())
    {
      added := true;
      if cache.size > 0 {
        added := cache.Push(k);
      }
    }

    /** CheckTx up to the call of the application. */
    method CheckTx(tx: Tx, preCheckOk: bool, connectionOk: bool) returns (r: Entry)
      requires Valid()
      modifies cache
      ensures Valid()
      ensures r.TooLarge? <==> |tx| > cfg.maxTxBytes
      ensures r.PreCheckFailed? <==> |tx| <= cfg.maxTxBytes && !preCheckOk
      ensures r.ConnectionError? <==> |tx| <= cfg.maxTxBytes && preCheckOk && !connectionOk
      ensures r.Forwarded? ==> r.height == height
      ensures r.InCache? || r.Forwarded? ==>
                && (r.InCache? <==> cache.size > 0 && key(tx) in old(cache.Keys()))
                && cache.Keys() == PushedKey(old(cache.Keys()), cache.size, key(tx))
      ensures !(r.InCache? || r.Forwarded?) ==> cache.Keys() == old(cache.Keys())
    {
      hide Inv, Cache.Agree, Cache.Pushed, PushedKey;
      if |tx| > cfg.maxTxBytes {
        return TooLarge;
      }
      if !preCheckOk {
        return PreCheckFailed;
      }
      if !connectionOk {
        return ConnectionError;
      }
      var added := PushKey(key(tx));
      r := if added then Forwarded(height) else InCache;
    }

    /** CheckTx with an application that answers at once. A pool whose elements were all indexed under
        their keys has one that is not, afterwards, if and only if the transaction was not in the cache,
        was admitted, and another copy of its key was in the pool and stays. */
    method Submit(tx: Tx, preCheckOk: bool, connectionOk: bool, timestamp: int, res: CheckTx)
      returns (entry: Entry, r: Admission)
      requires Valid()
      modifies this, cache
      ensures Valid()
      ensures !entry.Forwarded? ==> View() == old(View()) && r.Rejected?
      ensures entry.Forwarded? <==>
                && |tx| <= cfg.maxTxBytes && preCheckOk && connectionOk
                && !(cache.size > 0 && key(tx) in old(cache.Keys()))
      ensures old(KeysIndexed(key, View())) ==>
                (!KeysIndexed(key, View()) <==>
                   && entry.Forwarded? && r.Added?
                   && exists e :: e in old(txs) && e !in r.evicted && key(e.w.tx) == key(tx))
      ensures entry.Forwarded? && res.ok && old(CanAddTx(|tx|) && SenderFree(res.sender)) ==>
                && r == Added([])
                && View() == Insert(key, old(View()), WrappedTx(tx, old(height), timestamp, res.gasWanted, res.priority,
                                                                res.sender))
                && cache.Keys() == PushedKey(old(cache.Keys()), cache.size, key(tx))
      ensures (height, txRecheck) == old((height, txRecheck))
    {
      hide Inv, Sum, Victims, RemoveAll, Insert, Shortest, Arranged, KeysIndexed, Cache.Agree, Cache.Without, PushedKey;
      entry := CheckTx(tx, preCheckOk, connectionOk);
      r := Rejected;
      if entry.Forwarded? {
        ForgetNone(key, cache.Keys());
        ghost var order;
        r, order := InitialTxCallback(tx, entry.height, timestamp, res);
      }
    }

    method RemoveTxByElement(e: Elt)
      requires Inv(key, View()) && e in txs
      modifies this
      ensures View() == Remove(key, old(View()), e) && Inv(key, View())
      ensures (height, txRecheck) == old((height, txRecheck))
      ensures old(Fits(cfg, View())) ==> Fits(cfg, View())
    {
      hide Inv;
      RemoveKeeps(key, View(), e);
      txByKey := txByKey - {key(e.w.tx)};
      txBySender := txBySender - {e.w.sender};
      txs := Without(txs, e);
      txsBytes := txsBytes - |e.w.tx|;
    }

    /** removeTxByKey: reports whether there was such a transaction. */
    method RemoveTxByKey(k: Key) returns (found: bool)
      requires Inv(key, View())
      modifies this
      ensures found <==> k in old(txByKey)
      ensures Inv(key, View()) && (height, txRecheck) == old((height, txRecheck))
      ensures if found then Live(old(txs), old(txByKey)[k]) &&
                            View() == Remove(key, old(View()), Deref(old(txs), old(txByKey)[k]))
              else View() == old(View())
      ensures old(Fits(cfg, View())) ==> Fits(cfg, View())
    {
      found := k in txByKey;
      if found {
        IndexedIsLive(key, View(), k);
        var e := Deref(txs, txByKey[k]);
        RemoveTxByElement(e);
      }
    }

    predicate CanAddTx(size: nat)
      reads this
    {
      |txs| < cfg.size && size + txsBytes <= cfg.maxTxsBytes
    }

    predicate SenderFree(sender: string)
      reads this
    {
      sender == "" || sender !in txBySender
    }

    method InsertTx(w: WrappedTx)
      requires Inv(key, View()) && (w.sender != "" ==> w.sender !in txBySender)
      modifies this
      ensures View() == Insert(key, old(View()), w) && Inv(key, View())
      ensures (height, txRecheck) == old((height, txRecheck))
    {
      hide Inv;
      InsertKeeps(key, View(), w);
      txs := txs + [Elt(nextId, w)];
      txByKey := txByKey[key(w.tx) := nextId];
      if w.sender != "" {
        txBySender := txBySender[w.sender := nextId];
      }
      txsBytes := txsBytes + |w.tx|;
      nextId := nextId + 1;
    }

    /** The lower-priority transactions, front to back, and their total size. */
    method CollectVictims(priority: int) returns (victims: seq<Elt>, bytes: nat)
      ensures victims == Victims(txs, priority) && bytes == Sum(victims)
    {
      hide Sum, Victims;
      victims, bytes := [], 0;
      SumEmpty([]);
      NoVictims(priority);
      for i := 0 to |txs|
        invariant victims == Victims(txs[..i], priority) && bytes == Sum(victims)
      {
        VictimsNext(txs, priority, i);
        if txs[i].w.priority < priority {
          SumSnoc(victims, txs[i]);
          victims := victims + [txs[i]];
          bytes := bytes + |txs[i].w.tx|;
        }
      }
      assert txs[..|txs|] == txs;
    }

    /** initialTxCallback: rejects, or makes room if there is none, and inserts. When the pool is full,
        the evicted transactions are the shortest non-empty prefix, lowest priority first and newest
        first within a priority, of those with strictly lower priority that frees enough bytes. */
    method InitialTxCallback(tx: Tx, checkedAt: int, timestamp: int, res: CheckTx)
      returns (r: Admission, ghost order: seq<Elt>)
      requires Valid()
      modifies this, cache
      ensures Valid() && (!r.Added? ==> View() == old(View())) && (height, txRecheck) == old((height, txRecheck))
      ensures r.Rejected? <==> !res.ok
      ensures r.SenderTaken? <==> res.ok && res.sender != "" && res.sender in old(txBySender)
      ensures r.PoolFull? <==> res.ok && !(res.sender != "" && res.sender in old(txBySender)) && !old(CanAddTx(|tx|)) &&
                               var victims := Victims(old(txs), res.priority);
                               (victims == [] || Sum(victims) < |tx|)
      ensures r.Added? ==>
                var w := WrappedTx(tx, checkedAt, timestamp, res.gasWanted, res.priority, res.sender);
                if old(CanAddTx(|tx|)) then r.evicted == [] && View() == Insert(key, old(View()), w)
                else
                  && Arranged(order, Victims(old(txs), res.priority), EvictBefore)
                  && |r.evicted| <= |order| && r.evicted == order[..|r.evicted|]
                  && Shortest(order, |r.evicted|, |tx|)
                  && View() == Insert(key, RemoveAll(key, old(View()), r.evicted), w)
      ensures r.Added? ==>
                && txs != [] && |txs| <= cfg.size && txsBytes <= cfg.maxTxsBytes
                && txs[|txs| - 1] == Elt(old(nextId), WrappedTx(tx, checkedAt, timestamp, res.gasWanted, res.priority,
                                                                res.sender))
                && (forall x :: x in txs[..|txs| - 1] <==> x in old(txs) && x !in r.evicted)
                && (forall e | e in r.evicted :: e in old(txs) && e.w.priority < res.priority)
                && forall e, f | e in r.evicted && f in old(txs) && f !in r.evicted && f.w.priority < res.priority ::
                     e.w.priority < f.w.priority || (e.w.priority == f.w.priority && e.w.timestamp >= f.w.timestamp)
      ensures r.PoolFull? || (r.Added? && r.evicted != []) ==>
                old(|txs|) >= cfg.size || |tx| + old(txsBytes) > cfg.maxTxsBytes
      ensures old(KeysIndexed(key, View())) && r.Added? ==>
                (KeysIndexed(key, View()) <==> !exists e :: e in old(txs) && e !in r.evicted && key(e.w.tx) == key(tx))
      ensures old(KeysIndexed(key, View())) && key(tx) !in old(txByKey) ==> KeysIndexed(key, View())
      ensures cache.Keys() == if r.Added? then Forget(key, old(cache.Keys()), r.evicted)
                              else if r.PoolFull? || (r.Rejected? && !cfg.keepInvalid)
                              then Cache.Without(old(cache.Keys()), key(tx)) else old(cache.Keys())
    {
      hide Inv, Sum, Victims, RemoveAll, Insert, Shortest, Arranged, Cache.Without, Cache.Agree, StrictOrder, Forget,
           KeysIndexed;
      order := [];
      ForgetNone(key, cache.Keys());
      if !res.ok {
        if !cfg.keepInvalid {
          cache.Remove(key(tx));
        }
        return Rejected, order;
      }
      if res.sender != "" && res.sender in txBySender {
        return SenderTaken, order;
      }
      var w := WrappedTx(tx, checkedAt, timestamp, res.gasWanted, res.priority, res.sender);
      if CanAddTx(|tx|) {
        InsertTx(w);
        FitsAfterInsert(cfg, key, old(View()), w);
        IndexedAfter(key, old(View()), [], w);
        AdmittedLast(key, old(View()), [], w);
        return Added([]), order;
      }
      var victims, bytes := CollectVictims(res.priority);
      if |victims| == 0 || bytes < |tx| {
        cache.Remove(key(tx));
        return PoolFull, order;
      }
      VictimsSortable(key, View(), res.priority);
      EvictionOrder();
      var sorted := SortBy(victims, EvictBefore);
      order := sorted;
      ArrangedVictims(key, View(), order, res.priority);
      NotEmpty(order, victims);
      EvictionKeeps(cfg, key, View(), order, w);
      var k := Evict(sorted, |tx|);
      InsertTx(w);
      r := Added(sorted[..k]);
      TakenFromOrder(order, k);
      IndexedAfter(key, old(View()), r.evicted, w);
      AdmittedLast(key, old(View()), r.evicted, w);
      EvictedFirst(order, k, Victims(old(txs), res.priority));
      NotEmptyPrefix(order, k, |tx|);
    }

    /** purgeExpiredTxs. The walk takes the successor before it removes an element, so it visits every
        element the list had. */
    method PurgeExpiredTxs(blockHeight: int, now: int)
      requires Valid()
      modifies this, cache
      ensures Valid() && (height, txRecheck) == old((height, txRecheck))
      ensures forall e :: e in txs <==> e in old(txs) && !Expired(cfg, blockHeight, now, e)
      ensures forall e | e in old(txs) ::
                e in txs <==> && (cfg.ttlNumBlocks > 0 ==> blockHeight - e.w.height <= cfg.ttlNumBlocks)
                              && (cfg.ttlDuration > 0 ==> now - e.w.timestamp <= cfg.ttlDuration)
      ensures old(KeysIndexed(key, View())) ==> KeysIndexed(key, View())
      ensures cache.Keys() == Forget(key, old(cache.Keys()), ExpiredOf(cfg, blockHeight, now, old(txs)))
    {
      hide Inv, Remove, KeysIndexed, Cache.Agree, Cache.Without, Forget, ExpiredOf;
      ForgetNone(key, cache.Keys());
      if cfg.ttlNumBlocks == 0 && cfg.ttlDuration == 0 {
        NeverExpired(cfg, blockHeight, now, txs);
        return;
      }
      var all := txs;
      NoneExpired(cfg, blockHeight, now, all);
      ghost var indexed := KeysIndexed(key, View());
      for i := 0 to |all|
        invariant Valid() && (height, txRecheck) == old((height, txRecheck))
        invariant forall e :: e in txs <==> e in all && (e in all[..i] ==> !Expired(cfg, blockHeight, now, e))
        invariant indexed ==> KeysIndexed(key, View())
        invariant cache.Keys() == Forget(key, old(cache.Keys()), ExpiredOf(cfg, blockHeight, now, all[..i]))
      {
        var e := all[i];
        ExpiredNext(cfg, key, blockHeight, now, all, i, old(cache.Keys()));
        NextInWalk(key, old(View()), i);
        assert all[..i + 1] == all[..i] + [e];
        if Expired(cfg, blockHeight, now, e) {
          ghost var p := View();
          RemoveTxByElement(e);
          RemovedOne(key, p, e);
          cache.Remove(key(e.w.tx));
        }
      }
      assert all[..|all|] == all;
    }

    /** Update after a block: the block's transactions leave the pool whether they succeeded or not,
        then expired ones do. If every element was indexed under its key, exactly the others stay. */
    method Update(blockHeight: int, block: seq<Tx>, succeeded: seq<bool>, now: int)
      requires Valid() && |succeeded| == |block|
      modifies this, cache
      ensures Valid() && height == blockHeight
      ensures txRecheck == if txs != [] && cfg.recheck then |txs| else old(txRecheck)
      ensures forall e :: e in txs <==>
                          e in RemoveKeys(key, old(View()), block).txs && !Expired(cfg, blockHeight, now, e)
      ensures forall e | e in txs :: e in old(txs) && !Expired(cfg, blockHeight, now, e)
      ensures old(KeysIndexed(key, View())) ==>
                && KeysIndexed(key, View())
                && forall e :: e in txs <==> e in old(txs) && key(e.w.tx) !in Keys(key, block)
                                             && !Expired(cfg, blockHeight, now, e)
      ensures var left := RemoveKeys(key, old(View()), block).txs;
              cache.Keys() == Forget(key, CacheAfter(key, cfg, cache.size, old(cache.Keys()), block, succeeded),
                                     ExpiredOf(cfg, blockHeight, now, left))
    {
      hide Inv, Remove, KeysIndexed, Cache.Agree, Cache.Without, Cache.Pushed, Expired, CacheAfter, RemoveKeys,
           PushedKey;
      height := blockHeight;
      NothingDone(key, cfg, cache.size, cache.Keys(), View());
      ghost var indexed := KeysIndexed(key, View());
      for i := 0 to |block|
        invariant Valid() && height == blockHeight && txRecheck == old(txRecheck)
        invariant forall e | e in txs :: e in old(txs)
        invariant indexed ==> KeysIndexed(key, View())
        invariant indexed ==> forall e :: e in txs <==> e in old(txs) && key(e.w.tx) !in Keys(key, block[..i])
        invariant cache.Keys() == CacheAfter(key, cfg, cache.size, old(cache.Keys()), block[..i], succeeded[..i])
        invariant View() == RemoveKeys(key, old(View()), block[..i])
      {
        CacheNext(key, cfg, cache.size, old(cache.Keys()), block, succeeded, i);
        KeyRemoved(key, old(View()), block, i);
        if succeeded[i] {
          var _ := PushKey(key(block[i]));
        } else if !cfg.keepInvalid {
          cache.Remove(key(block[i]));
        }
        ghost var p := View();
        KeysNext(key, block, i);
        var found := RemoveTxByKey(key(block[i]));
        RemovedByKey(key, p, key(block[i]));
      }
      assert block[..|block|] == block && succeeded[..|block|] == succeeded;
      PurgeExpiredTxs(blockHeight, now);
      if |txs| > 0 && cfg.recheck {
        txRecheck := |txs|;
      }
    }

    /** recheckTxCallback: an answer that is not expected any more is ignored; otherwise the transaction
        gets its new priority, or leaves the pool. */
    method RecheckTxCallback(tx: Tx, ok: bool, priority: int)
      requires Valid()
      modifies this, cache
      ensures Valid() && height == old(height) && txRecheck == old(txRecheck) - 1
      ensures old(KeysIndexed(key, View())) ==> KeysIndexed(key, View())
      ensures old(txRecheck) <= 0 || key(tx) !in old(txByKey) ==> View() == old(View())
      ensures old(txRecheck) > 0 && key(tx) in old(txByKey) ==>
                && Live(old(txs), old(txByKey)[key(tx)])
                && var e := Deref(old(txs), old(txByKey)[key(tx)]);
                   View() == if ok then Reprioritized(old(View()), e, priority) else Remove(key, old(View()), e)
      ensures old(txRecheck) > 0 && key(tx) in old(txByKey) && ok ==>
                && |txs| == |old(txs)|
                && (txByKey, txBySender, txsBytes, nextId) == old((txByKey, txBySender, txsBytes, nextId))
                && forall i | 0 <= i < |txs| ::
                     var Elt(id, w) := old(txs)[i];
                     txs[i] == if id != old(txByKey)[key(tx)] then Elt(id, w)
                               else Elt(id, WrappedTx(w.tx, w.height, w.timestamp, w.gasWanted, priority, w.sender))
      ensures old(txRecheck) > 0 && key(tx) in old(txByKey) && !ok ==>
                forall x :: x in txs <==> x in old(txs) && x.id != old(txByKey)[key(tx)]
      ensures cache.Keys() == if old(txRecheck) > 0 && key(tx) in old(txByKey) && !ok && !cfg.keepInvalid
                              then Cache.Without(old(cache.Keys()), key(tx)) else old(cache.Keys())
    {
      hide Inv, Remove, KeysIndexed, Cache.Agree, Cache.Without;
      txRecheck := txRecheck - 1;
      if txRecheck < 0 {
        return;
      }
      if key(tx) !in txByKey {
        return;
      }
      IndexedIsLive(key, View(), key(tx));
      var e := Deref(txs, txByKey[key(tx)]);
      ghost var p := View();
      OnlyThisId(key, p, e);
      if ok {
        ReprioritizedKeeps(key, View(), e, priority);
        txs := Replace(txs, e, Elt(e.id, e.w.(priority := priority)));
        return;
      }
      RemoveTxByElement(e);
      RemovedOne(key, p, e);
      if !cfg.keepInvalid {
        cache.Remove(key(e.w.tx));
      }
    }

    /** Flush */
    method Flush()
      requires Valid()
      modifies this, cache
      ensures Valid() && View() == Pool([], map[], map[], 0, old(nextId)) && cache.Keys() == []
      ensures height == old(height) && txRecheck == 0
    {
      hide Inv, Remove, Cache.Agree;
      var all := txs;
      for i := 0 to |all|
        invariant Valid() && (height, txRecheck) == old((height, txRecheck)) && nextId == old(nextId)
        invariant forall e :: e in txs <==> e in all[i..]
      {
        ghost var p := View();
        NextInWalk(key, old(View()), i);
        assert all[i..] == [all[i]] + all[i + 1..];
        RemoveTxByElement(all[i]);
        RemovedOne(key, p, all[i]);
      }
      NothingStays(key, View());
      cache.Reset();
      txRecheck := 0;
    }

    /** allEntriesSorted, which finds the transactions through the key index, in any order. */
    method AllEntriesSorted() returns (all: seq<Elt>)
      requires Valid()
      ensures ReapOrder(key, View(), all)
    {
      hide Inv, Arranged, StrictOrder;
      all := [];
      var keys := txByKey.Keys;
      while keys != {}
        invariant keys <= txByKey.Keys && NoDup(all)
        invariant forall e :: e in all <==> Indexed(key, View(), e) && key(e.w.tx) !in keys
      {
        var k :| k in keys;
        IndexedIsLive(key, View(), k);
        var e := Deref(txs, txByKey[k]);
        OnlyIndexed(key, View(), e);
        all := all + [e];
        keys := keys - {k};
      }
      EvictionOrder();
      var entries := all;
      all := SortBy(entries, ReapBefore);
      ArrangedForReaping(key, View(), entries, all);
    }

    /** ReapMaxBytesMaxGas: stops at the first transaction that takes a total over its limit. */
    method ReapMaxBytesMaxGas(maxBytes: int, maxGas: int) returns (keep: seq<Tx>, ghost order: seq<Elt>)
      requires Valid()
      ensures ReapOrder(key, View(), order) && LongestWithin(order, |keep|, maxBytes, maxGas)
      ensures forall e :: e in order <==> e in txs && key(e.w.tx) in txByKey && txByKey[key(e.w.tx)] == e.id
      ensures forall i, j | 0 <= i < j < |order| ::
                || order[i].w.priority > order[j].w.priority
                || (order[i].w.priority == order[j].w.priority && order[i].w.timestamp <= order[j].w.timestamp)
      ensures |keep| <= |order| && forall k | 1 <= k <= |keep| ::
                (maxGas < 0 || Gas(order[..k]) <= maxGas) && (maxBytes < 0 || ProtoSize(order[..k]) <= maxBytes)
      ensures |keep| < |order| ==>
                || (maxGas >= 0 && Gas(order[..|keep| + 1]) > maxGas)
                || (maxBytes >= 0 && ProtoSize(order[..|keep| + 1]) > maxBytes)
      ensures forall i | 0 <= i < |keep| :: keep[i] == order[i].w.tx
      ensures KeysIndexed(key, View()) && maxBytes < 0 && maxGas < 0 ==> forall e | e in txs :: e.w.tx in keep
    {
      hide Inv, Gas, ProtoSize, ReapOrder, Messages.PayloadSize;
      var all := AllEntriesSorted();
      order := all;
      ReapOrderMeans(key, View(), order);
      keep := [];
      var totalGas, totalBytes := 0, 0;
      NoTotals(order);
      for i := 0 to |all|
        invariant |keep| == i && (forall k | 0 <= k < i :: keep[k] == order[k].w.tx)
        invariant totalGas == Gas(order[..i]) && totalBytes == ProtoSize(order[..i])
        invariant forall k | 1 <= k <= i :: Within(order[..k], maxBytes, maxGas)
      {
        PrefixTotals(order, i);
        totalGas := totalGas + all[i].w.gasWanted;
        totalBytes := totalBytes + Messages.PayloadSize(|all[i].w.tx|);
        if (maxGas >= 0 && totalGas > maxGas) || (maxBytes >= 0 && totalBytes > maxBytes) {
          return;
        }
        keep := keep + [all[i].w.tx];
      }
      EverythingReaped(key, View(), order, keep);
    }

    /** The eviction loop: removes victims in order until they have freed enough. */
    method Evict(order: seq<Elt>, need: nat) returns (k: nat)
      requires Inv(key, View()) && cache.Valid() && NoDup(order) && (forall e | e in order :: e in txs)
      requires order != [] && need <= Sum(order)
      modifies this, cache
      ensures 1 <= k <= |order| && Shortest(order, k, need)
      ensures View() == RemoveAll(key, old(View()), order[..k])
      ensures cache.Valid() && cache.Keys() == Forget(key, old(cache.Keys()), order[..k])
      ensures (height, txRecheck) == old((height, txRecheck))
    {
      hide Inv, Sum, RemoveAll, Remove, NoDup, Cache.Without, Cache.Agree, Forget;
      ghost var p := View();
      ForgetNone(key, cache.Keys());
      k := 0;
      var evicted := 0;
      SumEmpty(order);
      RemoveNone(key, p);
      while k < |order| && (k == 0 || evicted < need)
        invariant 0 <= k <= |order| && evicted == Sum(order[..k]) && (k > 1 ==> Sum(order[..k - 1]) < need)
        invariant View() == RemoveAll(key, p, order[..k]) && cache.Valid()
        invariant cache.Keys() == Forget(key, old(cache.Keys()), order[..k])
        invariant (height, txRecheck) == old((height, txRecheck))
      {
        NextVictim(key, p, order, k);
        ForgetNext(key, old(cache.Keys()), order, k);
        var e := order[k];
        RemoveTxByElement(e);
        cache.Remove(key(e.w.tx));
        evicted := evicted + |e.w.tx|;
        k := k + 1;
        assert order[..k] == order[..k - 1] + [e];
      }
      assert k == |order| ==> order[..k] == order;
    }
  }

  lemma VictimsNext(txs: seq<Elt>, priority: int, i: nat)
    requires i < |txs|
    ensures Victims(txs[..i + 1], priority) ==
            Victims(txs[..i], priority) + if txs[i].w.priority < priority then [txs[i]] else []
  {
    assert txs[..i + 1][..i] == txs[..i];
  }

  /** What an arrangement of the victims gives the eviction loop. */
  lemma ArrangedVictims(key: Tx -> Key, p: Pool, order: seq<Elt>, priority: int)
    requires Inv(key, p) && Arranged(order, Victims(p.txs, priority), EvictBefore)
    ensures NoDup(order) && (forall e | e in order :: e in p.txs)
    ensures Sum(order) == Sum(Victims(p.txs, priority))
  {
    VictimsNoDup(p.txs, p.nextId, priority);
    SumOfSame(order, Victims(p.txs, priority));
  }

  lemma RemoveNone(key: Tx -> Key, p: Pool)
    ensures RemoveAll(key, p, []) == p
  {
  }

  /** Elements of an ordered list are not met twice on a walk. */
  lemma NextInWalk(key: Tx -> Key, p: Pool, i: nat)
    requires Inv(key, p) && i < |p.txs|
    ensures p.txs[i] !in p.txs[..i] && p.txs[i] !in p.txs[i + 1..]
  {
  }

  lemma RemovedOne(key: Tx -> Key, p: Pool, e: Elt)
    requires Inv(key, p) && e in p.txs
    ensures forall x :: x in Remove(key, p, e).txs <==> x in p.txs && x != e
    ensures KeysIndexed(key, p) ==> KeysIndexed(key, Remove(key, p, e))
    ensures Remove(key, p, e).nextId == p.nextId
  {
    RemoveKeeps(key, p, e);
  }

  /** With every element indexed, removing by key removes every element with that key. */
  lemma RemovedByKey(key: Tx -> Key, p: Pool, k: Key)
    requires Inv(key, p)
    ensures k in p.byKey ==>
              && Live(p.txs, p.byKey[k])
              && var q := Remove(key, p, Deref(p.txs, p.byKey[k]));
                 && (forall x | x in q.txs :: x in p.txs)
                 && (KeysIndexed(key, p) ==> KeysIndexed(key, q))
                 && (KeysIndexed(key, p) ==> forall x :: x in q.txs <==> x in p.txs && key(x.w.tx) != k)
    ensures k !in p.byKey && KeysIndexed(key, p) ==> forall x | x in p.txs :: key(x.w.tx) != k
  {
    if k in p.byKey {
      IndexedIsLive(key, p, k);
      var e := Deref(p.txs, p.byKey[k]);
      RemoveKeeps(key, p, e);
      OneOfAnId(p.txs, p.nextId);
      hide Inv, Remove;
    }
  }

  lemma KeysNext(key: Tx -> Key, block: seq<Tx>, i: nat)
    requires i < |block|
    ensures Keys(key, block[..i + 1]) == Keys(key, block[..i]) + {key(block[i])}
  {
    assert block[..i + 1] == block[..i] + [block[i]];
  }

  function Replace(txs: seq<Elt>, e: Elt, e': Elt): (r: seq<Elt>)
    ensures |r| == |txs| && forall i | 0 <= i < |txs| :: r[i] == if txs[i] == e then e' else txs[i]
  {
    seq(|txs|, i requires 0 <= i < |txs| => if txs[i] == e then e' else txs[i])
  }

  /** SetPriority through the element's pointer. */
  function Reprioritized(p: Pool, e: Elt, priority: int): Pool {
    p.(txs := Replace(p.txs, e, Elt(e.id, e.w.(priority := priority))))
  }

  lemma ReprioritizedKeeps(key: Tx -> Key, p: Pool, e: Elt, priority: int)
    requires Inv(key, p) && e in p.txs
    ensures Inv(key, Reprioritized(p, e, priority))
    ensures KeysIndexed(key, p) ==> KeysIndexed(key, Reprioritized(p, e, priority))
  {
    hide Sum, IndexSound, Replace;
    var e' := Elt(e.id, e.w.(priority := priority));
    SumReplaced(p.txs, e, e');
    ReplacedIndexes(key, p, e, e');
  }

  lemma OnlyThisId(key: Tx -> Key, p: Pool, e: Elt)
    requires Inv(key, p) && e in p.txs
    ensures forall x | x in p.txs && x.id == e.id :: x == e
  {
    OneOfAnId(p.txs, p.nextId);
  }

  lemma ReplacedIndexes(key: Tx -> Key, p: Pool, e: Elt, e': Elt)
    requires IndexSound(key, p) && e'.id == e.id && e'.w.tx == e.w.tx && e'.w.sender == e.w.sender
    ensures IndexSound(key, p.(txs := Replace(p.txs, e, e')))
  {
    hide Replace;
    var txs := Replace(p.txs, e, e');
    forall x | x in p.txs
      ensures (if x == e then e' else x) in txs
    {
      var i :| 0 <= i < |p.txs| && p.txs[i] == x;
      assert txs[i] in txs;
    }
    forall k | k in p.byKey
      ensures KeyFound(key, txs, p.byKey[k], k)
    {
      assert KeyFound(key, p.txs, p.byKey[k], k);
    }
    forall s | s in p.bySender
      ensures SenderFound(txs, p.bySender[s], s)
    {
      assert SenderFound(p.txs, p.bySender[s], s);
    }
  }

  lemma {:induction false} SumReplaced(txs: seq<Elt>, e: Elt, e': Elt)
    requires Size(e) == Size(e')
    ensures Sum(Replace(txs, e, e')) == Sum(txs)
  {
    if txs != [] {
      var n := |txs| - 1;
      assert Replace(txs, e, e')[..n] == Replace(txs[..n], e, e');
      SumReplaced(txs[..n], e, e');
    }
  }

  /** Indexes of an empty pool are empty. */
  lemma NothingStays(key: Tx -> Key, p: Pool)
    requires Inv(key, p) && forall e :: e !in p.txs
    ensures p == Pool([], map[], map[], 0, p.nextId)
  {
    NoMembers(p.txs);
    hide KeyFound, SenderFound;
    NoneFound(key, p);
    assert p.byKey == map[] && p.bySender == map[];
  }

  lemma NoneFound(key: Tx -> Key, p: Pool)
    requires p.txs == []
    ensures forall k, id :: !KeyFound(key, p.txs, id, k)
    ensures forall s, id :: !SenderFound(p.txs, id, s)
  {
  }

  /** Two indexed elements with one key are the same. */
  lemma OnlyIndexed(key: Tx -> Key, p: Pool, e: Elt)
    requires Inv(key, p) && Indexed(key, p, e)
    ensures forall x | Indexed(key, p, x) && key(x.w.tx) == key(e.w.tx) :: x == e
  {
    OneOfAnId(p.txs, p.nextId);
  }

  lemma ArrangedForReaping(key: Tx -> Key, p: Pool, entries: seq<Elt>, order: seq<Elt>)
    requires (forall e :: e in entries <==> Indexed(key, p, e)) && Arranged(order, entries, ReapBefore)
    ensures ReapOrder(key, p, order)
  {
  }

  lemma ReapOrderMeans(key: Tx -> Key, p: Pool, order: seq<Elt>)
    requires ReapOrder(key, p, order)
    ensures forall e :: e in order <==> e in p.txs && key(e.w.tx) in p.byKey && p.byKey[key(e.w.tx)] == e.id
    ensures forall i, j | 0 <= i < j < |order| ::
              || order[i].w.priority > order[j].w.priority
              || (order[i].w.priority == order[j].w.priority && order[i].w.timestamp <= order[j].w.timestamp)
  {
    assert forall i, j | 0 <= i < j < |order| :: !ReapBefore(order[j], order[i]);
  }

  lemma NoTotals(order: seq<Elt>)
    ensures Gas(order[..0]) == 0 && ProtoSize(order[..0]) == 0
  {
  }

  lemma EverythingReaped(key: Tx -> Key, p: Pool, order: seq<Elt>, keep: seq<Tx>)
    requires ReapOrder(key, p, order) && |keep| == |order|
    requires forall i | 0 <= i < |keep| :: keep[i] == order[i].w.tx
    ensures KeysIndexed(key, p) ==> forall e | e in p.txs :: e.w.tx in keep
  {
    forall e | e in p.txs && Indexed(key, p, e)
      ensures e.w.tx in keep
    {
      assert e in order;
    }
  }

  /** A second copy of a transaction in the pool outlives the removal of its key, which is how a block
      takes it out. */
  lemma SecondCopyStays(key: Tx -> Key, p: Pool, w: WrappedTx)
    requires Inv(key, p) && key(w.tx) in p.byKey && (w.sender != "" ==> w.sender !in p.bySender)
    ensures var q := Insert(key, p, w);
            && key(w.tx) in q.byKey && Live(q.txs, q.byKey[key(w.tx)])
            && var after := Remove(key, q, Deref(q.txs, q.byKey[key(w.tx)]));
               && key(w.tx) !in after.byKey
               && exists e :: e in after.txs && key(e.w.tx) == key(w.tx)
  {
    var q := Insert(key, p, w);
    InsertKeeps(key, p, w);
    IndexedIsLive(key, p, key(w.tx));
    IndexedIsLive(key, q, key(w.tx));
    var first := Deref(p.txs, p.byKey[key(w.tx)]);
    assert first in q.txs && first.id < p.nextId;
    RemovedOne(key, q, Deref(q.txs, q.byKey[key(w.tx)]));
  }

  /** The cache without the keys of some transactions. */
  function Forget(key: Tx -> Key, keys: seq<Key>, es: seq<Elt>): seq<Key> {
    if es == [] then keys else Cache.Without(Forget(key, keys, es[..|es| - 1]), key(es[|es| - 1].w.tx))
  }

  /** What stays is what none of the transactions has for its key. */
  lemma {:induction false} ForgetMeans(key: Tx -> Key, keys: seq<Key>, es: seq<Elt>, k: Key)
    ensures k in Forget(key, keys, es) <==> k in keys && forall e | e in es :: key(e.w.tx) != k
  {
    if es != [] {
      var n := |es| - 1;
      ForgetMeans(key, keys, es[..n], k);
      assert forall e :: e in es <==> e in es[..n] || e == es[n];
    }
  }

  lemma {:induction false} ExpiredOfMeans(cfg: Config, blockHeight: int, now: int, es: seq<Elt>, e: Elt)
    ensures e in ExpiredOf(cfg, blockHeight, now, es) <==> e in es && Expired(cfg, blockHeight, now, e)
  {
    hide Expired;
    if es != [] {
      var n := |es| - 1;
      ExpiredOfMeans(cfg, blockHeight, now, es[..n], e);
      assert forall x :: x in es <==> x in es[..n] || x == es[n];
    }
  }

  /** What a block does to the cache: a key that failed last is out, unless invalid ones are kept; the key
      that succeeded last of all is in; no key comes in that did not succeed; and invalid ones that are
      kept change nothing. */
  lemma {:induction false} CacheAfterMeans(key: Tx -> Key, cfg: Config, size: int, keys: seq<Key>, block: seq<Tx>,
                                           succeeded: seq<bool>, i: nat, k: Key)
    requires |block| == |succeeded| && i < |block| && forall j | i < j < |block| :: key(block[j]) != key(block[i])
    ensures var after := CacheAfter(key, cfg, size, keys, block, succeeded);
            && (!succeeded[i] && !cfg.keepInvalid ==> key(block[i]) !in after)
            && (i == |block| - 1 && succeeded[i] && size > 0 ==> key(block[i]) in after)
            && (k in after ==> k in keys || exists j :: 0 <= j < |block| && succeeded[j] && key(block[j]) == k)
            && (cfg.keepInvalid && (forall j | 0 <= j < |block| :: !succeeded[j]) ==> after == keys)
    decreases |block|
  {
    var n := |block| - 1;
    if n > 0 {
      CacheAfterMeans(key, cfg, size, keys, block[..n], succeeded[..n], n - 1, k);
      if i < n {
        CacheAfterMeans(key, cfg, size, keys, block[..n], succeeded[..n], i, k);
      }
    }
  }

  lemma ForgetNone(key: Tx -> Key, keys: seq<Key>)
    ensures Forget(key, keys, []) == keys
  {
  }

  lemma ForgetNext(key: Tx -> Key, keys: seq<Key>, es: seq<Elt>, k: nat)
    requires k < |es|
    ensures Forget(key, keys, es[..k + 1]) == Cache.Without(Forget(key, keys, es[..k]), key(es[k].w.tx))
  {
    assert es[..k + 1][..k] == es[..k];
  }

  /** The expired transactions, front to back. */
  function ExpiredOf(cfg: Config, blockHeight: int, now: int, es: seq<Elt>): seq<Elt> {
    if es == [] then []
    else
      var e := es[|es| - 1];
      ExpiredOf(cfg, blockHeight, now, es[..|es| - 1]) + if Expired(cfg, blockHeight, now, e) then [e] else []
  }

  lemma NoneExpired(cfg: Config, blockHeight: int, now: int, es: seq<Elt>)
    ensures ExpiredOf(cfg, blockHeight, now, es[..0]) == []
  {
  }

  lemma {:induction false} NeverExpired(cfg: Config, blockHeight: int, now: int, es: seq<Elt>)
    requires cfg.ttlNumBlocks == 0 && cfg.ttlDuration == 0
    ensures ExpiredOf(cfg, blockHeight, now, es) == []
  {
    if es != [] {
      NeverExpired(cfg, blockHeight, now, es[..|es| - 1]);
    }
  }

  lemma ExpiredNext(cfg: Config, key: Tx -> Key, blockHeight: int, now: int, es: seq<Elt>, i: nat, keys: seq<Key>)
    requires i < |es|
    ensures var before := Forget(key, keys, ExpiredOf(cfg, blockHeight, now, es[..i]));
            Forget(key, keys, ExpiredOf(cfg, blockHeight, now, es[..i + 1])) ==
            if Expired(cfg, blockHeight, now, es[i]) then Cache.Without(before, key(es[i].w.tx)) else before
  {
    assert es[..i + 1][..i] == es[..i];
    var before := ExpiredOf(cfg, blockHeight, now, es[..i]);
    if Expired(cfg, blockHeight, now, es[i]) {
      assert (before + [es[i]])[..|before|] == before;
    } else {
      assert before + [] == before;
    }
  }

  /** A push into the cache, if there is one. */
  function PushedKey(keys: seq<Key>, size: int, k: Key): seq<Key> {
    if size > 0 then Cache.Pushed(keys, size, k) else keys
  }

  /** removeTxByKey */
  function RemoveKey(key: Tx -> Key, p: Pool, k: Key): Pool {
    if k in p.byKey && Live(p.txs, p.byKey[k]) then Remove(key, p, Deref(p.txs, p.byKey[k])) else p
  }

  /** What a block's transactions leave in the pool. */
  function RemoveKeys(key: Tx -> Key, p: Pool, block: seq<Tx>): Pool {
    if block == [] then p
    else RemoveKey(key, RemoveKeys(key, p, block[..|block| - 1]), key(block[|block| - 1]))
  }

  lemma KeyRemoved(key: Tx -> Key, p: Pool, block: seq<Tx>, i: nat)
    requires i < |block|
    ensures RemoveKeys(key, p, block[..i + 1]) == RemoveKey(key, RemoveKeys(key, p, block[..i]), key(block[i]))
  {
    assert block[..i + 1][..i] == block[..i];
  }

  lemma NothingDone(key: Tx -> Key, cfg: Config, size: int, keys: seq<Key>, p: Pool)
    ensures CacheAfter(key, cfg, size, keys, [], []) == keys && RemoveKeys(key, p, []) == p
  {
  }

  /** What a block's transactions leave in the cache. */
  function CacheAfter(key: Tx -> Key, cfg: Config, size: int, keys: seq<Key>,
                      block: seq<Tx>, succeeded: seq<bool>): seq<Key>
    requires |block| == |succeeded|
  {
    if block == [] then keys
    else
      var n := |block| - 1;
      var before := CacheAfter(key, cfg, size, keys, block[..n], succeeded[..n]);
      if succeeded[n] then PushedKey(before, size, key(block[n]))
      else if cfg.keepInvalid then before else Cache.Without(before, key(block[n]))
  }

  lemma CacheNext(key: Tx -> Key, cfg: Config, size: int, keys: seq<Key>, block: seq<Tx>, succeeded: seq<bool>, i: nat)
    requires |block| == |succeeded| && i < |block|
    ensures var before := CacheAfter(key, cfg, size, keys, block[..i], succeeded[..i]);
            CacheAfter(key, cfg, size, keys, block[..i + 1], succeeded[..i + 1]) ==
            if succeeded[i] then PushedKey(before, size, key(block[i]))
            else if cfg.keepInvalid then before else Cache.Without(before, key(block[i]))
  {
    assert block[..i + 1][..i] == block[..i] && succeeded[..i + 1][..i] == succeeded[..i];
  }

  lemma NoVictims(priority: int)
    ensures Victims([], priority) == []
  {
  }

  lemma VictimsSortable(key: Tx -> Key, p: Pool, priority: int)
    requires Inv(key, p)
    ensures NoDup(Victims(p.txs, priority))
  {
    VictimsNoDup(p.txs, p.nextId, priority);
  }

  lemma NotEmpty(order: seq<Elt>, es: seq<Elt>)
    requires es != [] && Arranged(order, es, EvictBefore)
    ensures order != []
  {
  }

  lemma FitsAfterInsert(cfg: Config, key: Tx -> Key, p: Pool, w: WrappedTx)
    requires |p.txs| < cfg.size && |w.tx| + p.bytes <= cfg.maxTxsBytes
    ensures Fits(cfg, Insert(key, p, w))
  {
  }

  /** An admission leaves what was not evicted, and the new element behind it. */
  lemma AdmittedLast(key: Tx -> Key, p: Pool, evicted: seq<Elt>, w: WrappedTx)
    requires Inv(key, p) && NoDup(evicted) && forall e | e in evicted :: e in p.txs
    ensures var q := Insert(key, RemoveAll(key, p, evicted), w).txs;
            && q != [] && q[|q| - 1] == Elt(p.nextId, w)
            && forall x :: x in q[..|q| - 1] <==> x in p.txs && x !in evicted
  {
    hide Inv, RemoveAll;
    RemoveAllKeeps(key, p, evicted);
    var rest := RemoveAll(key, p, evicted).txs;
    assert (rest + [Elt(p.nextId, w)])[..|rest|] == rest;
  }

  /** Of the victims, those evicted have lower priorities than the others, or the same and are not older. */
  lemma EvictedFirst(order: seq<Elt>, k: nat, victims: seq<Elt>)
    requires Arranged(order, victims, EvictBefore) && k <= |order|
    ensures forall e, f | e in order[..k] && f in victims && f !in order[..k] ::
              e.w.priority < f.w.priority || (e.w.priority == f.w.priority && e.w.timestamp >= f.w.timestamp)
  {
    forall e, f | e in order[..k] && f in victims && f !in order[..k]
      ensures e.w.priority < f.w.priority || (e.w.priority == f.w.priority && e.w.timestamp >= f.w.timestamp)
    {
      var i :| 0 <= i < k && order[i] == e;
      assert f in order;
      var j :| 0 <= j < |order| && order[j] == f;
      assert j >= k && !EvictBefore(order[j], order[i]);
    }
  }

  lemma NotEmptyPrefix(order: seq<Elt>, k: nat, need: nat)
    requires k <= |order| && Shortest(order, k, need)
    ensures order[..k] != []
  {
  }

  lemma TakenFromOrder(order: seq<Elt>, k: nat)
    requires NoDup(order) && k <= |order|
    ensures NoDup(order[..k]) && forall e | e in order[..k] :: e in order
  {
  }

  lemma IndexedAfter(key: Tx -> Key, p: Pool, evicted: seq<Elt>, w: WrappedTx)
    requires Inv(key, p) && NoDup(evicted) && forall e | e in evicted :: e in p.txs
    ensures KeysIndexed(key, p) ==>
              (KeysIndexed(key, Insert(key, RemoveAll(key, p, evicted), w)) <==>
               !exists e :: e in p.txs && e !in evicted && key(e.w.tx) == key(w.tx))
    ensures KeysIndexed(key, p) && key(w.tx) !in p.byKey ==>
              KeysIndexed(key, Insert(key, RemoveAll(key, p, evicted), w))
    ensures RemoveAll(key, p, []) == p
  {
    if KeysIndexed(key, p) {
      AdmittedIndexed(key, p, evicted, w);
    }
  }

  /** Whatever shortest prefix the loop stops at, what it leaves is in order and has room. */
  lemma EvictionKeeps(cfg: Config, key: Tx -> Key, p: Pool, order: seq<Elt>, w: WrappedTx)
    requires Inv(key, p) && Fits(cfg, p) && (w.sender != "" ==> w.sender !in p.bySender)
    requires NoDup(order) && (forall x | x in order :: x in p.txs)
    ensures forall k: nat | k <= |order| && Shortest(order, k, |w.tx|) ::
              var q := RemoveAll(key, p, order[..k]);
              && Inv(key, q) && (w.sender != "" ==> w.sender !in q.bySender)
              && Fits(cfg, Insert(key, q, w))
  {
    hide Inv, Fits, Insert, RemoveAll;
    forall k: nat | k <= |order| && Shortest(order, k, |w.tx|)
      ensures var q := RemoveAll(key, p, order[..k]);
              && Inv(key, q) && (w.sender != "" ==> w.sender !in q.bySender)
              && Fits(cfg, Insert(key, q, w))
    {
      RemoveAllKeeps(key, p, order[..k]);
      EvictionFits(cfg, key, p, order, k, w);
    }
  }

  lemma SumEmpty(order: seq<Elt>)
    ensures Sum(order[..0]) == 0
  {
  }

  lemma NextVictim(key: Tx -> Key, p: Pool, order: seq<Elt>, k: nat)
    requires Inv(key, p) && NoDup(order) && (forall e | e in order :: e in p.txs) && k < |order|
    ensures var q := RemoveAll(key, p, order[..k]);
            && Inv(key, q) && order[k] in q.txs
            && Remove(key, q, order[k]) == RemoveAll(key, p, order[..k + 1])
            && Sum(order[..k + 1]) == Sum(order[..k]) + Size(order[k])
  {
    hide Inv;
    RemoveAllKeeps(key, p, order[..k]);
    assert order[..k + 1][..k] == order[..k];
  }

  lemma IndexedIsLive(key: Tx -> Key, p: Pool, k: Key)
    requires Inv(key, p) && k in p.byKey
    ensures Live(p.txs, p.byKey[k]) && key(Deref(p.txs, p.byKey[k]).w.tx) == k
  {
    assert KeyFound(key, p.txs, p.byKey[k], k);
    OneOfAnId(p.txs, p.nextId);
  }
}
