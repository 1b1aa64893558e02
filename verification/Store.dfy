/**
 DefaultStore of store/store.go and store/pruning.go: the key-value contents plus the two
 height fields, updated in place.
 */
module Store {
  import opened Wrappers
  import opened Chain
  import opened Kv

  const FLUSH_EVERY := 1000

  predicate FlushDue(pruned: nat) {
    pruned % FLUSH_EVERY == 0 && pruned > 0
  }

  lemma ValidatorsKept(d: Disk, base: nat, cuts: seq<Cut>, target: nat)
    requires Forward(base, cuts, target)
    ensures forall h: nat | h < base || target <= h ::
              LoadValidators(AfterCuts(d, base, cuts), h) == LoadValidators(d, h)
  {
    forall h: nat | h < base || target <= h
      ensures LoadValidators(AfterCuts(d, base, cuts), h) == LoadValidators(d, h)
    {
      CutsKeepValidators(d, base, cuts, target, h);
    }
  }

  datatype PruneResult = Pruned(count: nat) | PruneFailed

  class DefaultStore {
    var db: Disk
    var height: nat
    var base: nat

    /** store.New */
    constructor (disk: Disk)
      ensures db == disk && height == 0 && base == 0
    {
      db, height, base := disk, 0, 0;
    }

    method SetHeight(h: nat)
      modifies this`height
      ensures height == Max(old(height), h)
    {
      if h > height {
        height := h;
      }
    }

    method SetBase(h: nat)
      modifies this`base
      ensures base == Max(old(base), h)
    {
      if h > base {
        base := h;
      }
    }

    /** Where the given cuts lead to from an earlier disk and base. */
    ghost predicate Cutting(d: Disk, first: nat, cuts: seq<Cut>, target: nat)
      reads this
    {
      Forward(first, cuts, target) && db == AfterCuts(d, first, cuts) && base == LastBase(first, cuts)
    }

    /** The flush closure: commits a batch of deletes and moves the base. */
    method FlushBatch(pending: set<nat>, newBase: nat, fails: bool,
                      ghost d: Disk, ghost first: nat, ghost cuts: seq<Cut>, ghost upTo: nat, ghost target: nat)
      returns (ok: bool, ghost cuts': seq<Cut>)
      requires pending <= db.index.Keys && Delete(db, pending) == Prune(db, base, upTo)
      requires Cutting(d, first, cuts, target) && base <= newBase <= upTo <= target
      modifies this`db, this`base
      ensures ok == !fails && Cutting(d, first, cuts', target) && |cuts'| == |cuts| + if ok then 1 else 0
      ensures if ok then db == Delete(old(db), pending) && base == newBase
              else db == old(db) && base == old(base)
    {
      if fails {
        return false, cuts;
      }
      hide Prune, Delete;
      cuts' := cuts + [Cut(upTo, newBase)];
      assert cuts'[..|cuts|] == cuts;
      db := Delete(db, pending);
      SetBase(newBase);
      ok := true;
    }

    /** PruneBlocks: one deletion batch per thousand blocks. `failAt` is the flush whose commit fails,
        if any. The ghost result lists the flushes, between which a crash may strike. */
    method PruneBlocks(heightInt: int, failAt: Option<nat>) returns (r: PruneResult, ghost cuts: seq<Cut>)
      modifies this`db, this`base
      ensures !(0 < heightInt <= height && old(base) <= heightInt) ==>
                r == PruneFailed && db == old(db) && base == old(base) && cuts == []
      ensures 0 < heightInt <= height && old(base) <= heightInt ==>
                Cutting(old(db), old(base), cuts, heightInt)
      ensures r.Pruned? ==>
                && 0 < heightInt <= height && old(base) <= heightInt
                && db == Prune(old(db), old(base), heightInt) && base == heightInt
                && r.count == |Indexed(old(db), old(base), heightInt)|
      ensures failAt == None && 0 < heightInt <= height && old(base) <= heightInt ==> r.Pruned?
      ensures r.Pruned? ==> |cuts| == r.count / 1000 + 1
      ensures forall h: nat | h < old(base) || heightInt <= h || height < h ::
                LoadValidators(db, h) == LoadValidators(old(db), h)
    {
      hide Prune, Delete, Indexed, LoadValidators;
      cuts := [];
      if heightInt <= 0 || heightInt > height || heightInt < base {
        return PruneFailed, cuts;
      }
      var target := heightInt as nat;
      var first := base;
      ghost var d0 := db;
      assert Cutting(d0, first, cuts, target);
      ghost var flushed := first;
      var pending: set<nat> := {};
      var pruned := 0;
      var flushes := 0;
      var h := first;
      var ok;
      PruneNothing(d0, first);
      while h < target
        invariant first <= flushed <= h <= target
        invariant db == Prune(d0, first, flushed) && first <= base <= flushed
        invariant pending == Indexed(d0, flushed, h)
        invariant pruned == |Indexed(d0, first, h)|
        invariant Cutting(d0, first, cuts, target) && |cuts| == flushes == pruned / FLUSH_EVERY
      {
        IndexedNext(d0, first, flushed, h);
        if h in db.index {
          pending := pending + {h};
          pruned := pruned + 1;
          if FlushDue(pruned) {
            PruneOn(d0, first, flushed, h + 1, base);
            ok, cuts := FlushBatch(pending, h, failAt == Some(flushes), d0, first, cuts, h + 1, target);
            if !ok {
              ValidatorsKept(d0, first, cuts, target);
              return PruneFailed, cuts;
            }
            PruneNothing(d0, h + 1);
            pending := {};
            flushes := flushes + 1;
            flushed := h + 1;
          }
        }
        h := h + 1;
      }
      PruneOn(d0, first, flushed, target, base);
      ok, cuts := FlushBatch(pending, target, failAt == Some(flushes), d0, first, cuts, target, target);
      ValidatorsKept(d0, first, cuts, target);
      r := if ok then Pruned(pruned) else PruneFailed;
    }
  }
}
