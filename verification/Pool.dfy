/**
 The contents of the priority mempool (mempool/v1/mempool.go) as values: the list of transactions
 in order of arrival, the two indexes into it and the byte counter. A list element is known by the
 identity it got when it was pushed; the indexes hold identities.
 */
module Pool {
  import Messages
  import Varint
  import TxCache

  type Key = TxCache.Key
  type Tx = seq<nat>

  datatype WrappedTx = WrappedTx(tx: Tx, height: int, timestamp: int, gasWanted: int, priority: int, sender: string)

  datatype Elt = Elt(id: nat, w: WrappedTx)

  datatype Pool = Pool(txs: seq<Elt>, byKey: map<Key, nat>, bySender: map<string, nat>, bytes: int, nextId: nat)

  datatype Config = Config(size: int, maxTxBytes: int, maxTxsBytes: int, ttlNumBlocks: int, ttlDuration: int,
                           keepInvalid: bool, recheck: bool)

  function Size(e: Elt): nat {
    |e.w.tx|
  }

  function Sum(es: seq<Elt>): nat {
    if es == [] then 0 else Sum(es[..|es| - 1]) + Size(es[|es| - 1])
  }

  /** Identities grow from front to back. */
  predicate Ordered(txs: seq<Elt>, nextId: nat) {
    && (forall i, j | 0 <= i < j < |txs| :: txs[i].id < txs[j].id)
    && forall e | e in txs :: e.id < nextId
  }

  predicate Live(txs: seq<Elt>, id: nat) {
    exists e | e in txs :: e.id == id
  }

  /** Every index entry points to a live element with that key or sender. */
  predicate IndexSound(key: Tx -> Key, p: Pool) {
    && (forall k | k in p.byKey :: KeyFound(key, p.txs, p.byKey[k], k))
    && (forall s | s in p.bySender :: s != "" && SenderFound(p.txs, p.bySender[s], s))
  }

  predicate KeyFound(key: Tx -> Key, txs: seq<Elt>, id: nat, k: Key) {
    exists e | e in txs :: e.id == id && key(e.w.tx) == k
  }

  predicate SenderFound(txs: seq<Elt>, id: nat, s: string) {
    exists e | e in txs :: e.id == id && e.w.sender == s
  }

  /** Every named sender is indexed, at the one element it has. */
  predicate SendersIndexed(p: Pool) {
    forall e | e in p.txs && e.w.sender != "" :: e.w.sender in p.bySender && p.bySender[e.w.sender] == e.id
  }

  /** Every element is indexed under its key. */
  predicate KeysIndexed(key: Tx -> Key, p: Pool) {
    forall e | e in p.txs :: key(e.w.tx) in p.byKey && p.byKey[key(e.w.tx)] == e.id
  }

  predicate Inv(key: Tx -> Key, p: Pool) {
    Ordered(p.txs, p.nextId) && p.bytes == Sum(p.txs) && IndexSound(key, p) && SendersIndexed(p)
  }

  predicate Fits(cfg: Config, p: Pool) {
    |p.txs| <= cfg.size && p.bytes <= cfg.maxTxsBytes
  }

  const EMPTY := Pool([], map[], map[], 0, 0)

  function Without(txs: seq<Elt>, e: Elt): (r: seq<Elt>)
    ensures forall x :: x in r <==> x in txs && x != e
  {
    if txs == [] then []
    else if txs[0] == e then Without(txs[1..], e)
    else [txs[0]] + Without(txs[1..], e)
  }

  /** removeTxByElement; also removeTxByKey, whose element has the key it was found by. */
  function Remove(key: Tx -> Key, p: Pool, e: Elt): Pool {
    Pool(Without(p.txs, e), p.byKey - {key(e.w.tx)}, p.bySender - {e.w.sender}, p.bytes - Size(e), p.nextId)
  }

  /** insertTx */
  function Insert(key: Tx -> Key, p: Pool, w: WrappedTx): Pool {
    Pool(p.txs + [Elt(p.nextId, w)], p.byKey[key(w.tx) := p.nextId],
         if w.sender == "" then p.bySender else p.bySender[w.sender := p.nextId],
         p.bytes + |w.tx|, p.nextId + 1)
  }

  lemma {:induction false} SumSnoc(xs: seq<Elt>, e: Elt)
    ensures Sum(xs + [e]) == Sum(xs) + Size(e)
  {
    assert (xs + [e])[..|xs|] == xs;
  }

  lemma {:induction false} SumAppend(xs: seq<Elt>, ys: seq<Elt>)
    ensures Sum(xs + ys) == Sum(xs) + Sum(ys)
  {
    if ys == [] {
      assert xs + ys == xs;
    } else {
      var n := |ys| - 1;
      SumAppend(xs, ys[..n]);
      assert (xs + ys)[..|xs + ys| - 1] == xs + ys[..n];
    }
  }

  /** In an ordered list an element is found once. */
  lemma {:induction false} WithoutAt(txs: seq<Elt>, i: nat)
    requires i < |txs| && forall j, k | 0 <= j < k < |txs| :: txs[j].id < txs[k].id
    ensures Without(txs, txs[i]) == txs[..i] + txs[i + 1..]
  {
    if i == 0 {
      WithoutNone(txs[1..], txs[0]);
    } else {
      WithoutAt(txs[1..], i - 1);
      assert txs[1..][..i - 1] == txs[1..i] && txs[1..][i..] == txs[i + 1..];
    }
  }

  lemma {:induction false} WithoutNone(txs: seq<Elt>, e: Elt)
    requires e !in txs
    ensures Without(txs, e) == txs
  {
    if txs != [] {
      WithoutNone(txs[1..], e);
    }
  }

  lemma WithoutOrdered(txs: seq<Elt>, nextId: nat, e: Elt)
    requires Ordered(txs, nextId)
    ensures Ordered(Without(txs, e), nextId)
  {
    if e in txs {
      var i :| 0 <= i < |txs| && txs[i] == e;
      WithoutAt(txs, i);
    } else {
      WithoutNone(txs, e);
    }
  }

  lemma WithoutSum(txs: seq<Elt>, nextId: nat, e: Elt)
    requires Ordered(txs, nextId) && e in txs
    ensures |Without(txs, e)| == |txs| - 1 && Sum(Without(txs, e)) == Sum(txs) - Size(e)
  {
    hide Sum, Without;
    var i :| 0 <= i < |txs| && txs[i] == e;
    WithoutAt(txs, i);
    SumSplit(txs, i);
  }

  lemma SumSplit(es: seq<Elt>, i: nat)
    requires i < |es|
    ensures Sum(es) == Sum(es[..i] + es[i + 1..]) + Size(es[i])
  {
    hide Sum, Size;
    assert es == (es[..i] + [es[i]]) + es[i + 1..];
    SumAppend(es[..i] + [es[i]], es[i + 1..]);
    SumSnoc(es[..i], es[i]);
    SumAppend(es[..i], es[i + 1..]);
  }

  lemma OneOfAnId(txs: seq<Elt>, nextId: nat)
    requires Ordered(txs, nextId)
    ensures forall a, b | a in txs && b in txs && a.id == b.id :: a == b
  {
  }

  /** No index entry is left behind that points to a removed element, even when another element has
      the same key. */
  lemma RemoveIndexes(key: Tx -> Key, p: Pool, e: Elt)
    requires IndexSound(key, p) && e in p.txs
    ensures IndexSound(key, Remove(key, p, e))
  {
    hide Without;
    var q := Remove(key, p, e);
    forall k | k in q.byKey
      ensures KeyFound(key, q.txs, q.byKey[k], k)
    {
      assert KeyFound(key, p.txs, p.byKey[k], k);
      var x :| x in p.txs && x.id == p.byKey[k] && key(x.w.tx) == k;
      assert x in q.txs;
    }
    forall s | s in q.bySender
      ensures SenderFound(q.txs, q.bySender[s], s)
    {
      assert SenderFound(p.txs, p.bySender[s], s);
      var x :| x in p.txs && x.id == p.bySender[s] && x.w.sender == s;
      assert x in q.txs;
    }
  }

  lemma RemoveKeeps(key: Tx -> Key, p: Pool, e: Elt)
    requires Inv(key, p) && e in p.txs
    ensures Inv(key, Remove(key, p, e))
    ensures |Remove(key, p, e).txs| == |p.txs| - 1
    ensures KeysIndexed(key, p) ==> KeysIndexed(key, Remove(key, p, e))
  {
    hide Without, Sum, IndexSound;
    OneOfAnId(p.txs, p.nextId);
    WithoutOrdered(p.txs, p.nextId, e);
    WithoutSum(p.txs, p.nextId, e);
    RemoveIndexes(key, p, e);
  }

  lemma InsertIndexes(key: Tx -> Key, p: Pool, w: WrappedTx)
    requires IndexSound(key, p)
    ensures IndexSound(key, Insert(key, p, w))
  {
    var q := Insert(key, p, w);
    var e := Elt(p.nextId, w);
    assert e in q.txs;
    assert forall x | x in p.txs :: x in q.txs;
    forall k | k in q.byKey
      ensures KeyFound(key, q.txs, q.byKey[k], k)
    {
      if k != key(w.tx) {
        assert KeyFound(key, p.txs, p.byKey[k], k);
      }
    }
    forall s | s in q.bySender
      ensures s != "" && SenderFound(q.txs, q.bySender[s], s)
    {
      if s != w.sender {
        assert SenderFound(p.txs, p.bySender[s], s);
      }
    }
  }

  /** An insertion leaves every element indexed under its key iff they all were and none has the new
      key: a second copy of a transaction takes the first one's index entry. */
  lemma InsertKeysIndexed(key: Tx -> Key, p: Pool, w: WrappedTx)
    requires Inv(key, p)
    ensures KeysIndexed(key, Insert(key, p, w)) <==> KeysIndexed(key, p) && key(w.tx) !in p.byKey
  {
    hide Sum, SendersIndexed;
    var q := Insert(key, p, w);
    assert forall e | e in p.txs :: e in q.txs && e.id < p.nextId;
    if key(w.tx) in p.byKey {
      assert KeyFound(key, p.txs, p.byKey[key(w.tx)], key(w.tx));
      var first :| first in p.txs && key(first.w.tx) == key(w.tx);
      assert q.byKey[key(first.w.tx)] != first.id;
    } else if KeysIndexed(key, p) {
      assert forall e | e in q.txs :: e in p.txs || e == Elt(p.nextId, w);
    } else {
      var e :| e in p.txs && !(key(e.w.tx) in p.byKey && p.byKey[key(e.w.tx)] == e.id);
      assert e in q.txs;
    }
  }

  lemma InsertKeeps(key: Tx -> Key, p: Pool, w: WrappedTx)
    requires Inv(key, p) && (w.sender != "" ==> w.sender !in p.bySender)
    ensures Inv(key, Insert(key, p, w))
  {
    hide Sum, IndexSound;
    SumSnoc(p.txs, Elt(p.nextId, w));
    InsertIndexes(key, p, w);
  }

  // Eviction and reaping

  predicate NoDup(es: seq<Elt>) {
    forall i, j | 0 <= i < j < |es| :: es[i] != es[j]
  }

  /** Lowest priority first, and within a priority the newest first. */
  predicate EvictBefore(a: Elt, b: Elt) {
    a.w.priority < b.w.priority || (a.w.priority == b.w.priority && a.w.timestamp > b.w.timestamp)
  }

  /** Highest priority first, and within a priority the oldest first. */
  predicate ReapBefore(a: Elt, b: Elt) {
    a.w.priority > b.w.priority || (a.w.priority == b.w.priority && a.w.timestamp < b.w.timestamp)
  }

  /** An order that sort.Slice may leave: each element once, none before one that has to precede it. */
  ghost predicate Arranged(order: seq<Elt>, es: seq<Elt>, before: (Elt, Elt) -> bool) {
    && NoDup(order) && |order| == |es| && (forall x :: x in order <==> x in es)
    && forall i, j | 0 <= i < j < |order| :: !before(order[j], order[i])
  }

  /** The transactions of strictly lower priority, in list order. */
  function Victims(txs: seq<Elt>, priority: int): (vs: seq<Elt>)
    ensures forall x :: x in vs <==> x in txs && x.w.priority < priority
  {
    if txs == [] then []
    else
      var rest := Victims(txs[..|txs| - 1], priority);
      var last := txs[|txs| - 1];
      if last.w.priority < priority then rest + [last] else rest
  }

  /** The shortest non-empty prefix that frees at least `need` bytes. */
  predicate Shortest(order: seq<Elt>, k: nat, need: nat) {
    1 <= k <= |order| && Sum(order[..k]) >= need && (k > 1 ==> Sum(order[..k - 1]) < need)
  }

  function RemoveAll(key: Tx -> Key, p: Pool, es: seq<Elt>): Pool {
    if es == [] then p else Remove(key, RemoveAll(key, p, es[..|es| - 1]), es[|es| - 1])
  }

  lemma {:induction false} VictimsNoDup(txs: seq<Elt>, nextId: nat, priority: int)
    requires Ordered(txs, nextId)
    ensures NoDup(Victims(txs, priority))
  {
    hide NoDup;
    if txs == [] {
      NoDupSmall(Victims(txs, priority));
    } else {
      var n := |txs| - 1;
      VictimsNoDup(txs[..n], nextId, priority);
      assert txs[n] !in txs[..n];
      NoDupSnoc(Victims(txs[..n], priority), txs[n]);
    }
  }

  lemma NoDupSmall(es: seq<Elt>)
    requires |es| <= 1
    ensures NoDup(es)
  {
  }

  lemma NoDupSnoc(es: seq<Elt>, e: Elt)
    requires NoDup(es) && e !in es
    ensures NoDup(es + [e])
  {
  }

  lemma {:induction false} RemoveAllKeeps(key: Tx -> Key, p: Pool, es: seq<Elt>)
    requires Inv(key, p) && NoDup(es) && forall e | e in es :: e in p.txs
    ensures var q := RemoveAll(key, p, es);
            && Inv(key, q) && q.nextId == p.nextId
            && |q.txs| == |p.txs| - |es| && q.bytes == p.bytes - Sum(es)
            && (forall x :: x in q.txs <==> x in p.txs && x !in es)
            && q.bySender.Keys <= p.bySender.Keys
            && (KeysIndexed(key, p) ==> KeysIndexed(key, q))
  {
    hide Inv, KeysIndexed, Size;
    if es != [] {
      var n := |es| - 1;
      RemoveAllKeeps(key, p, es[..n]);
      assert es[n] !in es[..n];
      assert forall x :: x in es <==> x in es[..n] || x == es[n];
      RemoveKeeps(key, RemoveAll(key, p, es[..n]), es[n]);
    }
  }

  /** What admission with eviction leaves: the pool stays in order and within its limits. */
  lemma EvictionFits(cfg: Config, key: Tx -> Key, p: Pool, order: seq<Elt>, k: nat, w: WrappedTx)
    requires Inv(key, p) && Fits(cfg, p) && (w.sender != "" ==> w.sender !in p.bySender)
    requires NoDup(order) && (forall x | x in order :: x in p.txs) && Shortest(order, k, |w.tx|)
    ensures var q := Insert(key, RemoveAll(key, p, order[..k]), w);
            Inv(key, q) && Fits(cfg, q) && (forall x | x in p.txs && x !in order[..k] :: x in q.txs)
  {
    hide Inv;
    RemoveAllKeeps(key, p, order[..k]);
    InsertKeeps(key, RemoveAll(key, p, order[..k]), w);
  }

  lemma TakeOut(ys: seq<Elt>, i: nat)
    requires NoDup(ys) && i < |ys|
    ensures var rest := ys[..i] + ys[i + 1..];
            && NoDup(rest) && (forall e :: e in rest <==> e in ys && e != ys[i])
            && Sum(ys) == Sum(rest) + Size(ys[i])
  {
    hide Sum;
    SumSplit(ys, i);
  }

  lemma NoMembers(ys: seq<Elt>)
    ensures ys == [] || exists y :: y in ys
  {
    if ys != [] {
      assert ys[0] in ys;
    }
  }

  /** The same elements, each once, add up to the same. */
  lemma {:induction false} SumOfSame(xs: seq<Elt>, ys: seq<Elt>)
    requires NoDup(xs) && NoDup(ys) && forall x :: x in xs <==> x in ys
    ensures Sum(xs) == Sum(ys)
    decreases |xs|
  {
    hide NoDup;
    if xs == [] {
      NoMembers(ys);
    } else {
      var x := xs[0];
      assert x in xs;
      var i :| 0 <= i < |ys| && ys[i] == x;
      TakeOut(xs, 0);
      TakeOut(ys, i);
      SumOfSame(xs[..0] + xs[0 + 1..], ys[..i] + ys[i + 1..]);
    }
  }

  /** After an admission every element is indexed under its key iff none is left that has the new key. */
  lemma AdmittedIndexed(key: Tx -> Key, p: Pool, evicted: seq<Elt>, w: WrappedTx)
    requires Inv(key, p) && KeysIndexed(key, p) && NoDup(evicted) && forall e | e in evicted :: e in p.txs
    ensures KeysIndexed(key, Insert(key, RemoveAll(key, p, evicted), w)) <==>
            forall e | e in p.txs && e !in evicted :: key(e.w.tx) != key(w.tx)
  {
    hide Inv, Insert, RemoveAll;
    RemoveAllKeeps(key, p, evicted);
    var q := RemoveAll(key, p, evicted);
    InsertKeysIndexed(key, q, w);
    if key(w.tx) in q.byKey {
      IndexedHasKey(key, q, key(w.tx));
    }
  }

  lemma IndexedHasKey(key: Tx -> Key, p: Pool, k: Key)
    requires Inv(key, p) && k in p.byKey
    ensures exists e :: e in p.txs && key(e.w.tx) == k
  {
    assert KeyFound(key, p.txs, p.byKey[k], k);
  }

  // Expiry and block updates

  predicate Expired(cfg: Config, blockHeight: int, now: int, e: Elt) {
    || (cfg.ttlNumBlocks > 0 && blockHeight - e.w.height > cfg.ttlNumBlocks)
    || (cfg.ttlDuration > 0 && now - e.w.timestamp > cfg.ttlDuration)
  }

  function Keys(key: Tx -> Key, block: seq<Tx>): set<Key> {
    set tx | tx in block :: key(tx)
  }

  // Reaping

  /** The transactions that the key index leads to. */
  predicate Indexed(key: Tx -> Key, p: Pool, e: Elt) {
    e in p.txs && key(e.w.tx) in p.byKey && p.byKey[key(e.w.tx)] == e.id
  }

  /** Every indexed transaction once, by falling priority and, within a priority, by rising time. */
  ghost predicate ReapOrder(key: Tx -> Key, p: Pool, order: seq<Elt>) {
    && NoDup(order) && (forall e :: e in order <==> Indexed(key, p, e))
    && forall i, j | 0 <= i < j < |order| :: !ReapBefore(order[j], order[i])
  }

  function Gas(es: seq<Elt>): int {
    if es == [] then 0 else Gas(es[..|es| - 1]) + es[|es| - 1].w.gasWanted
  }

  /** The size of the transactions as repeated fields of the Data message. */
  function ProtoSize(es: seq<Elt>): nat {
    if es == [] then 0 else ProtoSize(es[..|es| - 1]) + Messages.PayloadSize(Size(es[|es| - 1]))
  }

  /** A negative limit is none. */
  predicate Within(es: seq<Elt>, maxBytes: int, maxGas: int) {
    (maxGas >= 0 ==> Gas(es) <= maxGas) && (maxBytes >= 0 ==> ProtoSize(es) <= maxBytes)
  }

  /** The prefix of length n is the longest one within the limits whose own prefixes are too. */
  predicate LongestWithin(order: seq<Elt>, n: nat, maxBytes: int, maxGas: int) {
    && n <= |order| && (forall k | 1 <= k <= n :: Within(order[..k], maxBytes, maxGas))
    && (n < |order| ==> !Within(order[..n + 1], maxBytes, maxGas))
  }

  /** Totals are sums: of sizes, of the gas wanted, and of tag, length and bytes as the Data message has
      them. */
  lemma {:induction false} TotalsAdd(a: seq<Elt>, b: seq<Elt>)
    ensures Sum(a + b) == Sum(a) + Sum(b)
    ensures Gas(a + b) == Gas(a) + Gas(b) && ProtoSize(a + b) == ProtoSize(a) + ProtoSize(b)
  {
    SumAppend(a, b);
    if b == [] {
      assert a + b == a;
    } else {
      var n := |b| - 1;
      TotalsAdd(a, b[..n]);
      assert (a + b)[..|a + b| - 1] == a + b[..n];
    }
  }

  lemma TotalsOfOne(e: Elt)
    ensures Sum([e]) == |e.w.tx| && Gas([e]) == e.w.gasWanted
    ensures ProtoSize([e]) == 1 + |Varint.Encoded(|e.w.tx|)| + |e.w.tx|
  {
    Varint.SovIsLength(|e.w.tx|);
    assert [e][..0] == [];
  }

  lemma PrefixTotals(order: seq<Elt>, n: nat)
    requires n < |order|
    ensures Gas(order[..n + 1]) == Gas(order[..n]) + order[n].w.gasWanted
    ensures ProtoSize(order[..n + 1]) == ProtoSize(order[..n]) + Messages.PayloadSize(Size(order[n]))
  {
    assert order[..n + 1][..n] == order[..n];
  }
}
