/**
 LRUTxCache of mempool/cache.go: a map and a doubly linked list that must represent one sequence
 of keys, least recently used first, and what that guarantees over a whole history.
 */
module TxCache {

  type Key(==, 0, !new)

  datatype Op = Push(key: Key) | Remove(key: Key) | Reset

  function Without(keys: seq<Key>, k: Key): (r: seq<Key>)
    ensures k !in r && |r| <= |keys|
    ensures forall x :: x in r <==> x in keys && x != k
    ensures k !in keys ==> r == keys
  {
    if keys == [] then []
    else if keys[0] == k then Without(keys[1..], k)
    else [keys[0]] + Without(keys[1..], k)
  }

  predicate Distinct(keys: seq<Key>) {
    forall i, j | 0 <= i < j < |keys| :: keys[i] != keys[j]
  }

  /** A key already there becomes the most recent one; a new key evicts the oldest when full. */
  function Pushed(keys: seq<Key>, size: int, k: Key): seq<Key> {
    if k in keys then Without(keys, k) + [k]
    else (if |keys| >= size && keys != [] then keys[1..] else keys) + [k]
  }

  function Step(keys: seq<Key>, size: int, op: Op): seq<Key> {
    match op
    case Push(k) => Pushed(keys, size, k)
    case Remove(k) => Without(keys, k)
    case Reset => []
  }

  function Run(ops: seq<Op>, size: int): seq<Key> {
    if ops == [] then [] else Step(Run(ops[..|ops| - 1], size), size, ops[|ops| - 1])
  }

  /** The key was pushed, and neither removed nor wiped out since. */
  predicate Kept(ops: seq<Op>, k: Key) {
    ops != [] &&
    var last := ops[|ops| - 1];
    if last == Push(k) then true
    else if last == Remove(k) || last == Reset then false
    else Kept(ops[..|ops| - 1], k)
  }

  /** The other keys pushed since the key's last push. */
  function Since(ops: seq<Op>, k: Key): set<Key> {
    if ops == [] then {}
    else
      var last := ops[|ops| - 1];
      var before := ops[..|ops| - 1];
      if last == Push(k) then {} else if last.Push? then Since(before, k) + {last.key} else Since(before, k)
  }

  /** The keys behind k in the recency order. */
  function After(keys: seq<Key>, k: Key): set<Key> {
    if keys == [] then {} else if keys[0] == k then set x | x in keys[1..] else After(keys[1..], k)
  }

  /** At most `size` distinct keys, in every history. */
  lemma {:induction false} Bounded(ops: seq<Op>, size: int)
    requires size >= 1
    ensures |Run(ops, size)| <= size && Distinct(Run(ops, size))
  {
    if ops != [] {
      Bounded(ops[..|ops| - 1], size);
      var keys := Run(ops[..|ops| - 1], size);
      var op := ops[|ops| - 1];
      if !op.Reset? {
        WithoutDistinct(keys, op.key);
        if op.key in keys {
          ShorterWithout(keys, op.key);
        }
      }
    }
  }

  lemma {:induction false} ShorterWithout(keys: seq<Key>, k: Key)
    requires k in keys
    ensures |Without(keys, k)| < |keys|
  {
    if keys[0] != k {
      ShorterWithout(keys[1..], k);
    }
  }

  /** Only keys that were pushed and not taken out since are there. */
  lemma {:induction false} PresentIsKept(ops: seq<Op>, size: int, k: Key)
    requires k in Run(ops, size)
    ensures Kept(ops, k)
  {
    var before := ops[..|ops| - 1];
    if k in Run(before, size) {
      PresentIsKept(before, size, k);
    }
  }

  lemma {:induction false} WithoutDistinct(keys: seq<Key>, k: Key)
    requires Distinct(keys)
    ensures Distinct(Without(keys, k))
  {
    if keys != [] {
      WithoutDistinct(keys[1..], k);
      var rest := Without(keys[1..], k);
      assert keys[0] !in rest by {
        assert keys[0] !in keys[1..];
      }
    }
  }

  function Elements(keys: seq<Key>): (s: set<Key>)
    ensures |s| <= |keys|
  {
    if keys == [] then {} else {keys[0]} + Elements(keys[1..])
  }

  lemma {:induction false} ElementsAre(keys: seq<Key>)
    ensures Elements(keys) == (set x | x in keys)
    ensures Distinct(keys) ==> |Elements(keys)| == |keys|
  {
    if keys != [] {
      ElementsAre(keys[1..]);
      if Distinct(keys) {
        assert keys[0] !in keys[1..];
      }
    }
  }

  /** Whatever is behind k, k itself is not counted. */
  lemma {:induction false} AfterSmall(keys: seq<Key>, k: Key)
    requires k in keys
    ensures |After(keys, k)| < |keys|
    ensures Distinct(keys) && keys[0] == k ==> |After(keys, k)| == |keys| - 1
  {
    if keys[0] == k {
      ElementsAre(keys[1..]);
    } else {
      AfterSmall(keys[1..], k);
    }
  }

  lemma {:induction false} AfterSnoc(keys: seq<Key>, k: Key, x: Key)
    requires k in keys
    ensures After(keys + [x], k) == After(keys, k) + {x}
  {
    assert (keys + [x])[1..] == keys[1..] + [x];
    if keys[0] != k {
      AfterSnoc(keys[1..], k, x);
    }
  }

  lemma {:induction false} AfterLast(keys: seq<Key>, k: Key)
    requires k !in keys
    ensures After(keys + [k], k) == {}
  {
    if keys != [] {
      assert (keys + [k])[1..] == keys[1..] + [k];
      AfterLast(keys[1..], k);
    }
  }

  lemma {:induction false} AfterWithout(keys: seq<Key>, k: Key, x: Key)
    requires k in keys && x != k
    ensures After(Without(keys, x), k) == After(keys, k) - {x}
  {
    if keys[0] == k {
      assert Without(keys, x) == [k] + Without(keys[1..], x);
    } else {
      AfterWithout(keys[1..], k, x);
      if keys[0] != x {
        assert Without(keys, x)[1..] == Without(keys[1..], x);
      }
    }
  }

  lemma SmallerSet(a: set<Key>, b: set<Key>)
    requires a <= b
    ensures |a| <= |b|
  {
    assert b == a + (b - a);
  }

  /** A key with fewer than `size` others pushed since is not the oldest of a full cache. */
  lemma NotOldest(keys: seq<Key>, size: int, k: Key, x: Key, since: set<Key>)
    requires size >= 1 && Distinct(keys) && k in keys && x !in keys && |keys| >= size
    requires After(keys, k) <= since && |since + {x}| < size
    ensures keys[0] != k
  {
    AfterSmall(keys, k);
    assert x !in After(keys, k) by {
      AfterInKeys(keys, k);
    }
    SmallerSet(After(keys, k) + {x}, since + {x});
  }

  lemma {:induction false} AfterInKeys(keys: seq<Key>, k: Key)
    ensures forall x | x in After(keys, k) :: x in keys
  {
    if keys != [] && keys[0] != k {
      AfterInKeys(keys[1..], k);
    }
  }

  /** LRU guarantee, over any history of pushes, removals and resets: a pushed key is there until it is
      removed, the cache is reset, or `size` other distinct keys have been pushed since its last push. */
  lemma {:induction false} RecentIsPresent(ops: seq<Op>, size: int, k: Key)
    requires size >= 1 && Kept(ops, k) && |Since(ops, k)| < size
    ensures k in Run(ops, size) && After(Run(ops, size), k) <= Since(ops, k)
  {
    var before := ops[..|ops| - 1];
    var keys := Run(before, size);
    var op := ops[|ops| - 1];
    if op == Push(k) {
      AfterLast(if k in keys then Without(keys, k) else if |keys| >= size && keys != [] then keys[1..] else keys, k);
    } else {
      SmallerSet(Since(before, k), Since(ops, k));
      RecentIsPresent(before, size, k);
      if op.Remove? {
        AfterWithout(keys, k, op.key);
      } else {
        Bounded(before, size);
        PushKeeps(keys, size, k, op.key, Since(before, k));
      }
    }
  }

  lemma PushKeeps(keys: seq<Key>, size: int, k: Key, x: Key, since: set<Key>)
    requires size >= 1 && Distinct(keys) && k in keys && x != k
    requires After(keys, k) <= since && |since + {x}| < size
    ensures k in Pushed(keys, size, x) && After(Pushed(keys, size, x), k) <= since + {x}
  {
    if x in keys {
      AfterWithout(keys, k, x);
      AfterSnoc(Without(keys, x), k, x);
    } else if |keys| >= size {
      NotOldest(keys, size, k, x, since);
      AfterSnoc(keys[1..], k, x);
    } else {
      AfterSnoc(keys, k, x);
    }
  }

  predicate PushesOnly(ops: seq<Op>) {
    forall op | op in ops :: op.Push?
  }

  /** Without removals, what is behind a present key is exactly what was pushed since. */
  lemma {:induction false} AfterIsSince(ops: seq<Op>, size: int, k: Key)
    requires size >= 1 && PushesOnly(ops) && k in Run(ops, size)
    ensures After(Run(ops, size), k) == Since(ops, k)
  {
    var before := ops[..|ops| - 1];
    var keys := Run(before, size);
    var x := ops[|ops| - 1].key;
    if x == k {
      AfterLast(if k in keys then Without(keys, k) else if |keys| >= size && keys != [] then keys[1..] else keys, k);
    } else {
      AfterIsSince(before, size, k);
      if x in keys {
        AfterWithout(keys, k, x);
        AfterSnoc(Without(keys, x), k, x);
      } else if |keys| >= size && keys != [] {
        Bounded(before, size);
        assert k in keys[1..];
        AfterSnoc(keys[1..], k, x);
      } else {
        AfterSnoc(keys, k, x);
      }
    }
  }

  /** For pushes alone the guarantee is exact. */
  lemma PresentExactly(ops: seq<Op>, size: int, k: Key)
    requires size >= 1 && PushesOnly(ops)
    ensures k in Run(ops, size) <==> Kept(ops, k) && |Since(ops, k)| < size
  {
    if k in Run(ops, size) {
      PresentIsKept(ops, size, k);
      AfterIsSince(ops, size, k);
      AfterSmall(Run(ops, size), k);
      Bounded(ops, size);
    } else if Kept(ops, k) && |Since(ops, k)| < size {
      RecentIsPresent(ops, size, k);
    }
  }

  lemma {:induction false} WithoutAt(keys: seq<Key>, i: nat)
    requires Distinct(keys) && i < |keys|
    ensures Without(keys, keys[i]) == keys[..i] + keys[i + 1..]
  {
    if i == 0 {
      assert keys[0] !in keys[1..];
    } else {
      WithoutAt(keys[1..], i - 1);
      assert keys[1..][..i - 1] == keys[1..i] && keys[1..][i..] == keys[i + 1..];
    }
  }

  /** A list element: container/list hands out pointers, here identities. */
  datatype Element = Element(id: nat, key: Key)

  function KeysOf(list: seq<Element>): (keys: seq<Key>)
    ensures |keys| == |list| && forall i | 0 <= i < |list| :: keys[i] == list[i].key
  {
    seq(|list|, i requires 0 <= i < |list| => list[i].key)
  }

  /** list.Remove: unlinks the element with the given identity. */
  function Unlink(list: seq<Element>, id: nat): seq<Element> {
    if list == [] then [] else if list[0].id == id then list[1..] else [list[0]] + Unlink(list[1..], id)
  }

  /** Every element of the list is the one the map points to, and no two keys share a pointer. */
  predicate Pointed(m: map<Key, nat>, list: seq<Element>) {
    && (forall e | e in list :: e.key in m && m[e.key] == e.id)
    && (forall a, b | a in m && b in m && m[a] == m[b] :: a == b)
  }

  /** Map and list name the same elements, one per key. */
  predicate Agree(m: map<Key, nat>, list: seq<Element>) {
    Distinct(KeysOf(list)) && Pointed(m, list) && forall k | k in m :: k in KeysOf(list)
  }

  /** Following the map's pointer removes exactly the key's element. */
  lemma {:induction false} UnlinkIsWithout(m: map<Key, nat>, list: seq<Element>, k: Key)
    requires Distinct(KeysOf(list)) && Pointed(m, list) && k in m
    ensures KeysOf(Unlink(list, m[k])) == Without(KeysOf(list), k)
    ensures forall e :: e in Unlink(list, m[k]) <==> e in list && e.key != k
  {
    hide Distinct;
    if list != [] {
      KeysOfTail(list);
      UnlinkIsWithout(m, list[1..], k);
      KeysOfTail([list[0]] + Unlink(list[1..], m[k]));
    }
  }

  lemma KeysOfTail(list: seq<Element>)
    requires list != []
    ensures KeysOf(list) == [list[0].key] + KeysOf(list[1..])
    ensures Distinct(KeysOf(list)) ==>
              Distinct(KeysOf(list[1..])) && forall e | e in list[1..] :: e.key != list[0].key
    ensures forall e | e in list[1..] :: e.key in KeysOf(list[1..])
  {
    var rest := list[1..];
    assert KeysOf(rest) == KeysOf(list)[1..];
    assert forall i | 0 <= i < |rest| :: KeysOf(rest)[i] in KeysOf(rest);
  }

  lemma RemoveAgrees(m: map<Key, nat>, list: seq<Element>, k: Key)
    requires Agree(m, list) && k in m
    ensures Agree(m - {k}, Unlink(list, m[k])) && KeysOf(Unlink(list, m[k])) == Without(KeysOf(list), k)
    ensures forall e | e in Unlink(list, m[k]) :: e in list && e.id != m[k]
  {
    hide Unlink, Distinct;
    UnlinkIsWithout(m, list, k);
    WithoutDistinct(KeysOf(list), k);
  }

  lemma AppendAgrees(m: map<Key, nat>, list: seq<Element>, e: Element)
    requires Agree(m, list) && e.key !in KeysOf(list) && e.id !in m.Values
    ensures Agree(m[e.key := e.id], list + [e]) && KeysOf(list + [e]) == KeysOf(list) + [e.key]
  {
    assert KeysOf(list + [e]) == KeysOf(list) + [e.key];
    assert forall i | 0 <= i < |list| :: list[i] in list && KeysOf(list)[i] in KeysOf(list);
    assert forall x | x in list :: x.key in m;
  }

  class LRUTxCache {
    const size: int
    var cacheMap: map<Key, nat>
    var list: seq<Element>
    var nextId: nat

    ghost predicate Valid()
      reads this
    {
      Agree(cacheMap, list) && forall k | k in cacheMap :: cacheMap[k] < nextId
    }

    /** The keys, least recently used first. */
    ghost function Keys(): seq<Key>
      reads this
    {
      KeysOf(list)
    }

    constructor (cacheSize: int)
      ensures Valid() && Keys() == [] && size == cacheSize
    {
      size, cacheMap, list, nextId := cacheSize, map[], [], 0;
    }

    method Reset()
      requires Valid()
      modifies this
      ensures Valid() && Keys() == []
    {
      cacheMap := map[];
      list := [];
    }

    method Has(k: Key) returns (present: bool)
      requires Valid()
      ensures present <==> k in Keys()
    {
      present := k in cacheMap;
      assert present || k !in Keys() by {
        assert forall i | 0 <= i < |list| :: list[i] in list;
      }
    }

    method Remove(k: Key)
      requires Valid()
      modifies this
      ensures Valid() && Keys() == Without(old(Keys()), k)
    {
      hide Unlink, Agree;
      var present := Has(k);
      if present {
        InMap(cacheMap, list, k);
        RemoveAgrees(cacheMap, list, k);
        list := Unlink(list, cacheMap[k]);
        cacheMap := cacheMap - {k};
      }
    }

    method Push(k: Key) returns (added: bool)
      requires Valid()
      modifies this
      ensures Valid() && Keys() == Pushed(old(Keys()), size, k)
      ensures added <==> k !in old(Keys())
    {
      hide Unlink, Agree;
      InMap(cacheMap, list, k);
      if k in cacheMap {
        // MoveToBack keeps the element
        var moved := Element(cacheMap[k], k);
        RemoveAgrees(cacheMap, list, k);
        MovedAgrees(cacheMap, list, k);
        list := Unlink(list, cacheMap[k]) + [moved];
        return false;
      }
      if |list| >= size && list != [] {
        var front := list[0];
        FrontPointed(cacheMap, list);
        RemoveAgrees(cacheMap, list, front.key);
        cacheMap := cacheMap - {front.key};
        list := Unlink(list, front.id);
      }
      AppendAgrees(cacheMap, list, Element(nextId, k));
      list := list + [Element(nextId, k)];
      cacheMap := cacheMap[k := nextId];
      nextId := nextId + 1;
      return true;
    }
  }

  lemma InMap(m: map<Key, nat>, list: seq<Element>, k: Key)
    requires Agree(m, list)
    ensures k in m <==> k in KeysOf(list)
  {
    assert forall i | 0 <= i < |list| :: list[i] in list;
  }

  lemma FrontPointed(m: map<Key, nat>, list: seq<Element>)
    requires Agree(m, list) && list != []
    ensures list[0].key in m && m[list[0].key] == list[0].id
    ensures Without(KeysOf(list), list[0].key) == KeysOf(list)[1..]
  {
    assert list[0] in list;
    WithoutAt(KeysOf(list), 0);
  }

  lemma OwnPointer(m: map<Key, nat>, list: seq<Element>, k: Key)
    requires Agree(m, list) && k in m
    ensures m[k] !in (m - {k}).Values
  {
  }

  lemma MovedAgrees(m: map<Key, nat>, list: seq<Element>, k: Key)
    requires Agree(m, list) && k in m
    ensures var moved := Unlink(list, m[k]) + [Element(m[k], k)];
            Agree(m, moved) && KeysOf(moved) == Without(KeysOf(list), k) + [k]
  {
    hide Unlink, Agree;
    OwnPointer(m, list, k);
    RemoveAgrees(m, list, k);
    AppendAgrees(m - {k}, Unlink(list, m[k]), Element(m[k], k));
    assert (m - {k})[k := m[k]] == m;
  }
}
