/**
 The concurrent list of mempool/clist/clist.go: pointers in both directions and, per direction, a
 wait group and a channel that wake up waiters. The methods run under the list's lock, one at a
 time.
 */
module CList {

  /** A wait group's counter and whether the channel next to it is closed. */
  datatype Gate = Gate(waiters: int, closed: bool)

  /** waitGroup1() and a new channel. */
  const WAITING := Gate(1, false)
  const RELEASED := Gate(0, true)

  /** Done() and close(): both panic when done once too often. */
  function Release(g: Gate): Gate
    requires g.waiters > 0 && !g.closed
  {
    Gate(g.waiters - 1, true)
  }

  class CElement<V> {
    var prev: CElement?<V>
    var prevGate: Gate
    var next: CElement?<V>
    var nextGate: Gate
    var removed: bool
    const value: V

    constructor (v: V)
      ensures prev == null && next == null && !removed && value == v
      ensures prevGate == WAITING && nextGate == WAITING
    {
      prev, next, removed, value := null, null, false, v;
      prevGate, nextGate := WAITING, WAITING;
    }

    method SetNext(newNext: CElement?<V>)
      requires next == null && newNext != null ==> nextGate.waiters > 0 && !nextGate.closed
      modifies this`next, this`nextGate
      ensures next == newNext
      ensures nextGate == if old(next) != null && newNext == null then WAITING
                          else if old(next) == null && newNext != null then Release(old(nextGate))
                          else old(nextGate)
    {
      var oldNext := next;
      next := newNext;
      if oldNext != null && newNext == null {
        nextGate := WAITING;
      }
      if oldNext == null && newNext != null {
        nextGate := Release(nextGate);
      }
    }

    method SetPrev(newPrev: CElement?<V>)
      requires prev == null && newPrev != null ==> prevGate.waiters > 0 && !prevGate.closed
      modifies this`prev, this`prevGate
      ensures prev == newPrev
      ensures prevGate == if old(prev) != null && newPrev == null then WAITING
                          else if old(prev) == null && newPrev != null then Release(old(prevGate))
                          else old(prevGate)
    {
      var oldPrev := prev;
      prev := newPrev;
      if oldPrev != null && newPrev == null {
        prevGate := WAITING;
      }
      if oldPrev == null && newPrev != null {
        prevGate := Release(prevGate);
      }
    }

    method SetRemoved()
      requires prev == null ==> prevGate.waiters > 0 && !prevGate.closed
      requires next == null ==> nextGate.waiters > 0 && !nextGate.closed
      modifies this`removed, this`prevGate, this`nextGate
      ensures removed
      ensures prevGate == if prev == null then Release(old(prevGate)) else old(prevGate)
      ensures nextGate == if next == null then Release(old(nextGate)) else old(nextGate)
    {
      removed := true;
      if prev == null {
        prevGate := Release(prevGate);
      }
      if next == null {
        nextGate := Release(nextGate);
      }
    }

    method DetachPrev()
      requires removed
      modifies this`prev
      ensures prev == null
    {
      prev := null;
    }

    method DetachNext()
      requires removed
      modifies this`next
      ensures next == null
    {
      next := null;
    }
  }

  /** Element i points to its neighbours, and its gate is open towards a side exactly when there is a
      neighbour on it. */
  ghost predicate Linked<V>(elems: seq<CElement<V>>, i: nat)
    requires i < |elems|
    reads elems[i]
  {
    var e := elems[i];
    && !e.removed
    && e.prev == (if i == 0 then null else elems[i - 1])
    && e.next == (if i == |elems| - 1 then null else elems[i + 1])
    && e.prevGate == (if i == 0 then WAITING else RELEASED)
    && e.nextGate == (if i == |elems| - 1 then WAITING else RELEASED)
  }

  /** Nobody waits at a removed element. */
  ghost predicate Left<V>(e: CElement<V>)
    reads e
  {
    e.removed && e.prevGate == RELEASED && e.nextGate == RELEASED
  }

  ghost predicate Distinct<V>(elems: seq<CElement<V>>) {
    forall i, j | 0 <= i < j < |elems| :: elems[i] != elems[j]
  }

  lemma Skipping<V>(elems: seq<CElement<V>>, k: nat)
    requires Distinct(elems) && k < |elems|
    ensures var rest := elems[..k] + elems[k + 1..];
            && Distinct(rest)
            && (forall x | x in rest :: x in elems && x != elems[k])
  {
  }

  class CList<V> {
    var gate: Gate
    var head: CElement?<V>
    var tail: CElement?<V>
    var len: nat
    const maxLen: nat
    ghost var elems: seq<CElement<V>>
    ghost var gone: set<CElement<V>>

    /** Head, tail, length and pointers represent `elems`; the list's own gate is open exactly when it
        is not empty; everything ever removed has left for good. */
    ghost predicate Valid()
      reads this, elems, gone
    {
      && len == |elems|
      && head == (if elems == [] then null else elems[0])
      && tail == (if elems == [] then null else elems[|elems| - 1])
      && gate == (if elems == [] then WAITING else RELEASED)
      && Distinct(elems)
      && (forall i | 0 <= i < |elems| :: Linked(elems, i))
      && (forall e | e in gone :: Left(e))
    }

    constructor (maxLength: nat)
      ensures Valid() && elems == [] && gone == {} && maxLen == maxLength
    {
      maxLen := maxLength;
      gate, head, tail, len := WAITING, null, null, 0;
      elems, gone := [], {};
    }

    /** PushBack: null stands for the panic at the maximal length. */
    method PushBack(v: V) returns (e: CElement?<V>)
      requires Valid()
      modifies this, elems
      ensures e == null <==> old(len) >= maxLen
      ensures e != null ==>
                && Valid() && fresh(e) && e.value == v
                && elems == old(elems) + [e] && gone == old(gone)
    {
      e := new CElement(v);
      if len == 0 {
        gate := Release(gate);
      }
      if len >= maxLen {
        return null;
      }
      len := len + 1;
      if tail == null {
        head := e;
        tail := e;
      } else {
        assert Linked(elems, |elems| - 1);
        e.SetPrev(tail);
        tail.SetNext(e);
        tail := e;
      }
      elems := elems + [e];
      forall i | 0 <= i < |elems|
        ensures Linked(elems, i)
      {
        if i < |elems| - 1 {
          assert old(Linked(elems, i));
        }
      }
    }

    /** Takes element k out: its neighbours point to each other, the rest is a list again. */
    method Bypass(e: CElement<V>, ghost k: nat)
      requires Valid() && k < |elems| && elems[k] == e
      modifies this, elems
      ensures Valid() && e !in elems && gone == old(gone)
      ensures elems == old(elems)[..k] + old(elems)[k + 1..]
      ensures unchanged(e)
      ensures e.prevGate == (if e.prev == null then WAITING else RELEASED)
      ensures e.nextGate == (if e.next == null then WAITING else RELEASED)
    {
      Skipping(elems, k);
      assert Linked(elems, k);
      var prev := e.prev;
      var next := e.next;
      if len == 1 {
        gate := WAITING;
      }
      len := len - 1;
      if prev == null {
        head := next;
      } else {
        assert Linked(elems, k - 1);
        prev.SetNext(next);
      }
      if next == null {
        tail := prev;
      } else {
        assert old(Linked(elems, k + 1));
        next.SetPrev(prev);
      }
      ghost var was := elems;
      elems := was[..k] + was[k + 1..];
      forall i | 0 <= i < |elems|
        ensures Linked(elems, i)
      {
        var j := if i < k then i else i + 1;
        assert elems[i] == was[j] && old(Linked(elems, j));
      }
      forall g | g in gone
        ensures Left(g)
      {
        assert old(Left(g)) && (k > 0 ==> old(Linked(elems, k - 1))) && (k < |was| - 1 ==> old(Linked(elems, k + 1)));
      }
    }

    /** Remove, of an element that is in the list. */
    method Remove(e: CElement<V>) returns (v: V, ghost k: nat)
      requires Valid() && e in elems
      modifies this, elems
      ensures Valid() && v == e.value && gone == old(gone) + {e}
      ensures k < |old(elems)| && old(elems)[k] == e && elems == old(elems)[..k] + old(elems)[k + 1..]
    {
      hide Distinct;
      k :| 0 <= k < |elems| && elems[k] == e;
      Bypass(e, k);
      e.SetRemoved();
      gone := gone + {e};
      v := e.value;
    }
  }
}
