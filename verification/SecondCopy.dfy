/**
 How a second copy of a transaction gets into the mempool past the cache, and what a block then leaves.
 */
module SecondCopy {
  import opened Pool
  import opened Mempool

  /** The answer of an application that takes the transaction and names no sender. */
  const TAKEN := CheckTx(true, 0, 0, "")

  function Wrapped(tx: Tx, timestamp: int): WrappedTx {
    WrappedTx(tx, 0, timestamp, 0, 0, "")
  }

  /** The pool after admitting some transactions one after the other. */
  function Admitted(key: Tx -> Key, txs: seq<Tx>): Pool {
    if txs == [] then EMPTY
    else Insert(key, Admitted(key, txs[..|txs| - 1]), Wrapped(txs[|txs| - 1], |txs| - 1))
  }

  lemma AdmittedThree(key: Tx -> Key, a: Tx, b: Tx)
    requires key(a) != key(b)
    ensures Admitted(key, [a]) == Insert(key, EMPTY, Wrapped(a, 0))
    ensures Admitted(key, [a, b]) == Insert(key, Admitted(key, [a]), Wrapped(b, 1))
    ensures Admitted(key, [a, b, a]) == Insert(key, Admitted(key, [a, b]), Wrapped(a, 2))
    ensures Admitted(key, [a]).bytes == |a| && Admitted(key, [a, b]).bytes == |a| + |b|
    ensures Admitted(key, [a]).txs == [Elt(0, Wrapped(a, 0))] && Admitted(key, [a]).bySender == map[]
    ensures Admitted(key, [a, b]).txs == [Elt(0, Wrapped(a, 0)), Elt(1, Wrapped(b, 1))]
    ensures Admitted(key, [a, b]).bySender == map[]
    ensures Admitted(key, [a, b, a]).txs == [Elt(0, Wrapped(a, 0)), Elt(1, Wrapped(b, 1)), Elt(2, Wrapped(a, 2))]
    ensures key(a) in Admitted(key, [a, b, a]).byKey && Admitted(key, [a, b, a]).byKey[key(a)] == 2
  {
    assert [a][..0] == [] && [a, b][..1] == [a] && [a, b, a][..2] == [a, b];
  }

  /** The cache of one key has forgotten the first key when the second was pushed. */
  lemma Forgotten(k: Key, l: Key)
    requires k != l
    ensures PushedKey([], 1, k) == [k] && PushedKey([k], 1, l) == [l] && PushedKey([l], 1, k) == [k]
  {
  }

  /** Removing the key takes out the copy that came last. */
  lemma FirstStays(key: Tx -> Key, a: Tx, b: Tx)
    requires key(a) != key(b)
    ensures Elt(0, Wrapped(a, 0)) in RemoveKeys(key, Admitted(key, [a, b, a]), [a]).txs
  {
    AdmittedThree(key, a, b);
    var p := Admitted(key, [a, b, a]);
    assert [a][..0] == [];
    assert RemoveKeys(key, p, [a]) == RemoveKey(key, p, key(a));
    hide RemoveKeys, Admitted;
    assert p.txs[0] in p.txs && p.txs[2] in p.txs;
    assert p.txs[2].id == 2;
    assert Live(p.txs, p.byKey[key(a)]);
  }

  /** Any two transactions with different keys, a cache of one key, and room for three transactions: the
      first, the second and the first again are all admitted, and once a block with the first has been
      executed, a copy of it is still in the pool. */
  method AdmitTwice(cfg: Config, key: Tx -> Key, a: Tx, b: Tx) returns (m: TxMempool, ghost full: Pool)
    requires key(a) != key(b) && |a| <= cfg.maxTxBytes && |b| <= cfg.maxTxBytes
    requires 3 <= cfg.size && 2 * |a| + |b| <= cfg.maxTxsBytes && cfg.ttlNumBlocks == 0 && cfg.ttlDuration == 0
    ensures fresh(m) && m.Valid()
    ensures full == Admitted(key, [a, b, a]) && !KeysIndexed(key, full)
    ensures exists e :: e in m.txs && e.w.tx == a
  {
    hide Inv, Admitted, Insert, RemoveKeys, PushedKey;
    m := new TxMempool(cfg, key, 1, 0);
    AdmittedThree(key, a, b);
    Forgotten(key(a), key(b));
    var entry, r := m.Submit(a, true, true, 0, TAKEN);
    entry, r := m.Submit(b, true, true, 1, TAKEN);
    entry, r := m.Submit(a, true, true, 2, TAKEN);
    full := m.View();
    var first := Elt(0, Wrapped(a, 0));
    assert first in full.txs && first.w.tx == a;
    m.Update(1, [a], [true], 3);
    FirstStays(key, a, b);
    assert first in m.txs;
  }
}
