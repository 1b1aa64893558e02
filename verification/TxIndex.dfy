/**
 The transaction indexer of state/txindex/kv/kv.go: indexing in one batch, and searching by prefix
 scans whose results are intersected, in whatever order the maps and the store are walked.
 */
module TxIndex {
  import opened Wrappers
  import opened TxKeys
  import opened TxSearch
  import opened TxFilter

  datatype Outcome = Found(results: seq<TxResult>) | BadHash | EmptyHash | Crash

  /** lookForHash: the operand of the first hash condition, if it is text. */
  datatype HashAsked = NoHash | ByText(text: string) | NotText

  function LookForHash(cs: seq<Condition>): HashAsked {
    if cs == [] then NoHash
    else if cs[0].key == TX_HASH then
      match cs[0]
      case Equal(_, Text(s)) => ByText(s)
      case Contains(_, s) => ByText(s)
      case _ => NotText
    else LookForHash(cs[1..])
  }

  /** The first condition on the hash decides, and no other. */
  lemma {:induction false} FirstHashDecides(cs: seq<Condition>, i: nat)
    requires i < |cs| && cs[i].key == "tx.hash" && forall j | 0 <= j < i :: cs[j].key != "tx.hash"
    ensures match cs[i]
            case Equal(_, Text(s)) => LookForHash(cs) == ByText(s)
            case Contains(_, s) => LookForHash(cs) == ByText(s)
            case _ => LookForHash(cs) == NotText
  {
    if i > 0 {
      FirstHashDecides(cs[1..], i - 1);
    }
  }

  lemma {:induction false} NoHashAsked(cs: seq<Condition>)
    ensures LookForHash(cs).NoHash? <==> forall c | c in cs :: c.key != "tx.hash"
  {
    if cs != [] {
      NoHashAsked(cs[1..]);
      assert forall c :: c in cs <==> c == cs[0] || c in cs[1..];
    }
  }

  /** The first equality on the height decides, and no other. */
  lemma {:induction false} FirstHeightDecides(cs: seq<Condition>, i: nat)
    requires i < |cs| && cs[i].Equal? && cs[i].key == "tx.height"
    requires forall j | 0 <= j < i :: !(cs[j].Equal? && cs[j].key == "tx.height")
    ensures HeightOperand(cs) == Some(cs[i].operand)
    ensures Height(cs) == if cs[i].operand.Int? then cs[i].operand.n else 0
  {
    if i > 0 {
      FirstHeightDecides(cs[1..], i - 1);
    }
  }

  lemma {:induction false} NoHeightAsked(cs: seq<Condition>)
    ensures HeightOperand(cs) == None <==> forall c | c in cs :: !(c.Equal? && c.key == "tx.height")
  {
    if cs != [] {
      NoHeightAsked(cs[1..]);
      assert forall c :: c in cs <==> c == cs[0] || c in cs[1..];
    }
  }

  /** LookForRanges: the range of every bounded key, and the indexes of the conditions it has used. */
  method LookForRanges(cs: seq<Condition>) returns (ranges: map<string, QueryRange>, indexes: set<nat>)
    ensures ranges == Ranges(cs) && indexes == set i: nat | i < |cs| && cs[i].Range?
  {
    hide Bounded;
    ranges, indexes := map[], {};
    for i := 0 to |cs|
      invariant ranges == Ranges(cs[..i]) && indexes == set j: nat | j < i && cs[j].Range?
    {
      assert cs[..i + 1][..i] == cs[..i];
      if cs[i].Range? {
        ranges := Bounded(ranges, cs[i]);
        indexes := indexes + {i};
      }
    }
    assert cs[..|cs|] == cs;
  }

  /** The final loop of both matches: keeps what was found this time as well. */
  method Intersect(filtered: set<Hash>, found: set<Hash>) returns (r: set<Hash>)
    ensures r == filtered * found
  {
    r := filtered;
    var todo := filtered;
    while todo != {}
      invariant todo <= filtered && r == filtered * (found + todo)
    {
      var h :| h in todo;
      todo := todo - {h};
      if h !in found {
        r := r - {h};
      }
    }
  }

  predicate InAllRanges(tags: map<string, Hash>, ranges: map<string, QueryRange>, keys: set<string>, h: Hash)
    requires keys <= ranges.Keys
  {
    forall k | k in keys :: h in RangeHits(tags, ranges[k])
  }

  /** Among the values of a bounded key is a numeral that meets the bound. */
  ghost predicate HasNumber(x: TxResult, c: Condition)
    requires c.Range?
  {
    exists t, v :: t in Tags(x) && t.key == c.key && IsInt64(v) && Numeral(t.value, v) && Compares(c.cmp, v, c.bound)
  }

  lemma MatchedHaveNumbers(cs: seq<Condition>)
    ensures forall x: TxResult, c | Matches(x, cs) && c in cs && c.Range? :: HasNumber(x, c)
  {
    forall x: TxResult, c | Matches(x, cs) && c in cs && c.Range?
      ensures HasNumber(x, c)
    {
      MatchedIsNumeral(x, cs, c);
    }
  }

  lemma RangeHitsAreNumbers(tags: map<string, Hash>, qr: QueryRange)
    ensures forall h | h in RangeHits(tags, qr) :: exists k, v :: k in tags && tags[k] == h && NumberInRange(qr, k, v)
  {
    hide Join, InRange, ParseInt, IsTagKey, ValueOf, NumberInRange;
    forall h | h in RangeHits(tags, qr)
      ensures exists k, v :: k in tags && tags[k] == h && NumberInRange(qr, k, v)
    {
      var k :| k in tags && RangeHit(qr, k) && tags[k] == h;
      RangeHitMeans(qr, k);
    }
  }

  /** The stored result of a selected hash. */
  predicate Returned(hash: string -> Hash, ix: Index, cs: seq<Condition>, x: TxResult) {
    hash(x.tx) in ix.results && ix.results[hash(x.tx)] == x && Selected(ix.tags, cs, hash(x.tx))
  }

  class TxIndex {
    const hash: string -> Hash
    const decodeHex: string -> Option<Hash>
    var tags: map<string, Hash>
    var results: map<Hash, TxResult>

    ghost function View(): Index
      reads this
    {
      Index(tags, results)
    }

    /** A result is stored under its own hash. */
    ghost predicate Valid()
      reads this
    {
      forall h | h in results :: hash(results[h].tx) == h
    }

    constructor (hash: string -> Hash, decodeHex: string -> Option<Hash>)
      ensures Valid() && View() == Index(map[], map[]) && Exactly(hash, View(), {})
      ensures this.hash == hash && this.decodeHex == decodeHex
    {
      this.hash, this.decodeHex := hash, decodeHex;
      tags, results := map[], map[];
    }

    /** indexEvents, into the batch. */
    method IndexEvents(r: TxResult, h: Hash, batch: map<string, Hash>) returns (out: map<string, Hash>)
      ensures out == Put(batch, r, h, EventTags(r.events))
    {
      hide Put, TagKey, EventTags, AttributeTags;
      out := batch;
      NoTags(batch, r, h);
      for i := 0 to |r.events|
        invariant out == Put(batch, r, h, EventTags(r.events[..i]))
      {
        var e := r.events[i];
        PutEvent(batch, r, h, i);
        if e.kind == "" {
          continue;
        }
        ghost var before := EventTags(r.events[..i]);
        for j := 0 to |e.attributes|
          invariant out == Put(batch, r, h, before + AttributeTags(e.kind, e.attributes[..j]))
        {
          var a := e.attributes[j];
          PutAttribute(batch, r, h, before, e, j);
          if a.key == "" {
            continue;
          }
          if a.index {
            out := out[TagKey(Tag(e.kind + "." + a.key, a.value), r) := h];
          }
        }
        assert e.attributes[..|e.attributes|] == e.attributes;
      }
      assert r.events[..|r.events|] == r.events;
    }

    /** AddBatch: all of the batch is committed at once. If the transactions are distinct and slash-free,
        the index then holds exactly the old ones and the new ones. */
    method AddBatch(ops: seq<TxResult>)
      requires Valid()
      modifies this
      ensures Valid() && View() == AddAll(hash, old(View()), ops)
      ensures forall S: set<TxResult> | old(Exactly(hash, View(), S)) && Indexable(hash, S + Members(ops)) ::
                Exactly(hash, View(), S + Members(ops))
    {
      hide Put, Exactly, Indexable, Members, AddAll, TagKey, EventTags, Decimal;
      var newTags, newResults := tags, results;
      ghost var ix := View();
      AddNothing(hash, ix);
      for i := 0 to |ops|
        invariant Index(newTags, newResults) == AddAll(hash, ix, ops[..i])
        invariant forall h | h in newResults :: hash(newResults[h].tx) == h
      {
        var r := ops[i];
        var h := hash(r.tx);
        AddNext(hash, ix, ops, i);
        newTags := IndexEvents(r, h, newTags);
        newTags := newTags[TagKey(Tag(TX_HEIGHT, Decimal(r.height)), r) := h];
        newResults := newResults[h := r];
      }
      assert ops[..|ops|] == ops;
      AddAllKeepsAny(hash, ix, ops);
      tags, results := newTags, newResults;
    }

    /** PrefixIterator; the order of the walk does not matter here. */
    function Scan(prefix: string): set<string>
      reads this
    {
      set k | k in tags && prefix <= k
    }

    /** match: a scan of the keys with the condition's prefix. */
    method Match(c: Condition, height: int, filtered: set<Hash>, firstRun: bool) returns (r: set<Hash>)
      requires !c.Range?
      ensures r == if firstRun then Hits(tags, c, height) else filtered * Hits(tags, c, height)
    {
      hide Prefix, HasPart, IsTagKey, ValueOf;
      if !firstRun && filtered == {} {
        return filtered;
      }
      var found: set<Hash> := {};
      var keys := Scan(Prefix(c, height));
      var todo := keys;
      while todo != {}
        invariant todo <= keys
        invariant found == set k | k in keys - todo && Hit(c, height, k) :: tags[k]
      {
        var k :| k in todo;
        todo := todo - {k};
        if c.Contains? {
          if IsTagKey(k) && HasPart(ValueOf(k), c.part) {
            found := found + {tags[k]};
          }
        } else {
          found := found + {tags[k]};
        }
      }
      assert found == Hits(tags, c, height);
      if found == {} || firstRun {
        return found;
      }
      r := Intersect(filtered, found);
    }

    /** matchRange: a scan of the keys with the range's prefix, reading integers from them. */
    method MatchRange(qr: QueryRange, filtered: set<Hash>, firstRun: bool) returns (r: set<Hash>)
      ensures r == if firstRun then RangeHits(tags, qr) else filtered * RangeHits(tags, qr)
      ensures forall h | h in r :: exists k, v :: k in tags && tags[k] == h && NumberInRange(qr, k, v)
    {
      hide Join, InRange, ParseInt, IsTagKey, ValueOf, NumberInRange;
      RangeHitsAreNumbers(tags, qr);
      if !firstRun && filtered == {} {
        return filtered;
      }
      var found: set<Hash> := {};
      var keys := Scan(Join(qr.key, ""));
      var todo := keys;
      while todo != {}
        invariant todo <= keys
        invariant found == set k | k in keys - todo && RangeHit(qr, k) :: tags[k]
      {
        var k :| k in todo;
        todo := todo - {k};
        if !IsTagKey(k) || ParseInt(ValueOf(k)).None? {
          continue;
        }
        if InRange(qr, ParseInt(ValueOf(k)).value) {
          found := found + {tags[k]};
        }
      }
      assert found == RangeHits(tags, qr);
      if found == {} || firstRun {
        return found;
      }
      r := Intersect(filtered, found);
    }

    /** The ranges, in any order. */
    method MatchRanges(ranges: map<string, QueryRange>) returns (filtered: set<Hash>, initialized: bool)
      ensures initialized <==> ranges != map[]
      ensures forall h :: h in filtered <==> initialized && InAllRanges(tags, ranges, ranges.Keys, h)
    {
      hide RangeHits;
      filtered, initialized := {}, false;
      var todo := ranges.Keys;
      while todo != {}
        invariant todo <= ranges.Keys && (initialized <==> todo != ranges.Keys)
        invariant forall h :: h in filtered <==> initialized && InAllRanges(tags, ranges, ranges.Keys - todo, h)
      {
        var k :| k in todo;
        todo := todo - {k};
        if !initialized {
          filtered := MatchRange(ranges[k], filtered, true);
          initialized := true;
          if filtered == {} {
            break;
          }
        } else {
          filtered := MatchRange(ranges[k], filtered, false);
        }
      }
    }

    /** The other conditions, in order. */
    method MatchConditions(cs: seq<Condition>, skip: set<nat>, height: int, before: set<Hash>, initialized: bool)
      returns (filtered: set<Hash>)
      requires skip == (set i: nat | i < |cs| && cs[i].Range?) && (!initialized ==> before == {})
      ensures forall h :: h in filtered <==>
                          && (initialized ==> h in before) && (!initialized ==> exists c :: c in cs && !c.Range?)
                          && forall c | c in cs && !c.Range? :: h in Hits(tags, c, height)
    {
      hide Hits;
      filtered := before;
      var init := initialized;
      for i := 0 to |cs|
        invariant init <==> initialized || exists c :: c in cs[..i] && !c.Range?
        invariant !init ==> filtered == {}
        invariant init ==> forall h :: h in filtered <==>
                             && (initialized ==> h in before)
                             && forall c | c in cs[..i] && !c.Range? :: h in Hits(tags, c, height)
      {
        var c := cs[i];
        assert cs[..i + 1] == cs[..i] + [c];
        if i in skip {
          continue;
        }
        if !init {
          filtered := Match(c, height, filtered, true);
          init := true;
          if filtered == {} {
            assert forall h :: h !in Hits(tags, c, height);
            break;
          }
        } else {
          filtered := Match(c, height, filtered, false);
        }
      }
      assert cs[..|cs|] == cs;
    }

    /** Get */
    method Get(h: Hash) returns (r: Option<TxResult>)
      ensures r == if h in results then Some(results[h]) else None
    {
      r := if h in results then Some(results[h]) else None;
    }

    /** Search, with a context that stays live. Without a hash condition it returns the results of the
        selected hashes, each once; if the index holds exactly some transactions and query and tags are
        free of slashes, these are the transactions that the query matches. */
    method Search(cs: seq<Condition>) returns (r: Outcome)
      requires Valid()
      ensures LookForHash(cs).NotText? ==> r == Crash
      ensures LookForHash(cs).ByText? ==>
                r == match decodeHex(LookForHash(cs).text)
                     case None => BadHash
                     case Some(h) =>
                       if h == "" then EmptyHash
                       else Found(if h in results then [results[h]] else [])
      ensures LookForHash(cs).NoHash? ==>
                (r == Crash <==> HeightOperand(cs).Some? && HeightOperand(cs).value.Text?)
      ensures LookForHash(cs).NoHash? && r != Crash ==>
                && r.Found?
                && (forall i, j | 0 <= i < j < |r.results| :: r.results[i] != r.results[j])
                && forall x :: x in r.results <==> Returned(hash, View(), cs, x)
      ensures forall S: set<TxResult> | Exactly(hash, View(), S) && Indexable(hash, S) && WellFormed(cs) ::
                r.Found? && forall x :: x in r.results <==> x in S && Matches(x, cs)
      ensures forall S: set<TxResult> | Exactly(hash, View(), S) && Indexable(hash, S) && WellFormed(cs) ::
                forall x, c | x in r.results && c in cs && c.Range? :: HasNumber(x, c)
    {
      hide Selected, WellFormed, Exactly, Matches, Indexable, Ranges, Hits, RangeHits, HasNumber;
      SelectedIsMatched(hash, View(), cs);
      MatchedHaveNumbers(cs);
      match LookForHash(cs) {
        case NotText =>
          r := Crash;
        case ByText(text) =>
          match decodeHex(text) {
            case None => r := BadHash;
            case Some(h) =>
              if h == "" {
                r := EmptyHash;
              } else {
                var res := Get(h);
                r := Found(if res.Some? then [res.value] else []);
              }
          }
        case NoHash =>
          var ranges, skip := LookForRanges(cs);
          var filtered, initialized := MatchRanges(ranges);
          if HeightOperand(cs).Some? && HeightOperand(cs).value.Text? {
            r := Crash;
          } else {
            SelectedByScans(tags, cs, filtered);
            filtered := MatchConditions(cs, skip, Height(cs), filtered, initialized);
            var rs := Collect(filtered);
            r := Found(rs);
          }
      }
    }

    /** The stored results of some hashes, in any order. */
    method Collect(hashes: set<Hash>) returns (rs: seq<TxResult>)
      requires Valid()
      ensures forall i, j | 0 <= i < j < |rs| :: rs[i] != rs[j]
      ensures forall x :: x in rs <==> hash(x.tx) in hashes && hash(x.tx) in results && results[hash(x.tx)] == x
    {
      rs := [];
      var todo := hashes;
      while todo != {}
        invariant todo <= hashes
        invariant forall i, j | 0 <= i < j < |rs| :: rs[i] != rs[j]
        invariant forall x :: x in rs <==>
                              hash(x.tx) in hashes - todo && hash(x.tx) in results && results[hash(x.tx)] == x
      {
        var h :| h in todo;
        todo := todo - {h};
        var res := Get(h);
        if res.Some? {
          rs := rs + [res.value];
        }
      }
    }
  }

  /** The intersection of the scans, from the hashes that the ranges left. */
  lemma SelectedByScans(tags: map<string, Hash>, cs: seq<Condition>, before: set<Hash>)
    requires forall h :: h in before <==> Ranges(cs) != map[] && InAllRanges(tags, Ranges(cs), Ranges(cs).Keys, h)
    ensures forall h :: Selected(tags, cs, h) <==>
                        && (Ranges(cs) != map[] ==> h in before)
                        && (Ranges(cs) == map[] ==> exists c :: c in cs && !c.Range?)
                        && forall c | c in cs && !c.Range? :: h in Hits(tags, c, Height(cs))
  {
    hide RangeHits, Hits, Height;
    if Ranges(cs) == map[] && cs != [] {
      hide Ranges;
      RangeShape(cs, cs[0].key);
      assert !cs[0].Range?;
    }
  }

  lemma {:induction false} NoSpecial(cs: seq<Condition>)
    requires WellFormed(cs)
    ensures LookForHash(cs).NoHash? && (HeightOperand(cs).Some? ==> HeightOperand(cs).value.Int?)
  {
    if cs != [] {
      assert cs[0] in cs && forall c | c in cs[1..] :: c in cs;
      NoSpecial(cs[1..]);
    }
  }

  /** Of an index that holds exactly S, the selected results are the matching members of S. */
  lemma SelectedIsMatched(hash: string -> Hash, ix: Index, cs: seq<Condition>)
    ensures forall S: set<TxResult> | Exactly(hash, ix, S) && Indexable(hash, S) && WellFormed(cs) ::
              && LookForHash(cs).NoHash? && (HeightOperand(cs).Some? ==> HeightOperand(cs).value.Int?)
              && forall x :: Returned(hash, ix, cs, x) <==> x in S && Matches(x, cs)
  {
    hide Selected, WellFormed, Matches, SlashFree, LookForHash, HeightOperand, Tagged, Source;
    forall S: set<TxResult> | Exactly(hash, ix, S) && Indexable(hash, S) && WellFormed(cs)
      ensures LookForHash(cs).NoHash? && (HeightOperand(cs).Some? ==> HeightOperand(cs).value.Int?)
      ensures forall x :: Returned(hash, ix, cs, x) <==> x in S && Matches(x, cs)
    {
      NoSpecial(cs);
      forall x | x in S
        ensures Selected(ix.tags, cs, hash(x.tx)) <==> Matches(x, cs)
      {
        SearchIsFilter(hash, ix, S, x, cs);
      }
    }
  }

  lemma NoTags(tags: map<string, Hash>, r: TxResult, h: Hash)
    ensures Put(tags, r, h, EventTags(r.events[..0])) == tags
  {
  }

  lemma PutNext(tags: map<string, Hash>, r: TxResult, h: Hash, ts: seq<Tag>, t: Tag)
    ensures Put(tags, r, h, ts + [t]) == Put(tags, r, h, ts)[TagKey(t, r) := h]
  {
    assert (ts + [t])[..|ts|] == ts;
  }

  lemma PutAttribute(tags: map<string, Hash>, r: TxResult, h: Hash, before: seq<Tag>, e: Event, j: nat)
    requires j < |e.attributes|
    ensures var a := e.attributes[j];
            var done := Put(tags, r, h, before + AttributeTags(e.kind, e.attributes[..j]));
            Put(tags, r, h, before + AttributeTags(e.kind, e.attributes[..j + 1])) ==
            if a.key != "" && a.index then done[TagKey(Tag(e.kind + "." + a.key, a.value), r) := h] else done
  {
    hide Put, TagKey;
    var a := e.attributes[j];
    var done := AttributeTags(e.kind, e.attributes[..j]);
    assert e.attributes[..j + 1][..j] == e.attributes[..j];
    if a.key != "" && a.index {
      var t := Tag(e.kind + "." + a.key, a.value);
      assert before + (done + [t]) == (before + done) + [t];
      PutNext(tags, r, h, before + done, t);
    } else {
      assert done + [] == done;
    }
  }

  lemma PutEvent(tags: map<string, Hash>, r: TxResult, h: Hash, i: nat)
    requires i < |r.events|
    ensures var e := r.events[i];
            var before := EventTags(r.events[..i]);
            && (e.kind == "" ==> EventTags(r.events[..i + 1]) == before)
            && (e.kind != "" ==> EventTags(r.events[..i + 1]) == before + AttributeTags(e.kind, e.attributes))
            && before + AttributeTags(e.kind, e.attributes[..0]) == before
  {
    assert r.events[..i + 1][..i] == r.events[..i];
  }

  lemma AddNothing(hash: string -> Hash, ix: Index)
    ensures AddAll(hash, ix, []) == ix
  {
  }

  lemma AddNext(hash: string -> Hash, ix: Index, rs: seq<TxResult>, i: nat)
    requires i < |rs|
    ensures var before := AddAll(hash, ix, rs[..i]);
            var h := hash(rs[i].tx);
            AddAll(hash, ix, rs[..i + 1]) ==
            Index(Put(before.tags, rs[i], h, EventTags(rs[i].events))
                  [TagKey(Tag(TX_HEIGHT, Decimal(rs[i].height)), rs[i]) := h],
                  before.results[h := rs[i]])
  {
    assert rs[..i + 1][..i] == rs[..i];
    var before := AddAll(hash, ix, rs[..i]);
    PutNext(before.tags, rs[i], hash(rs[i].tx), EventTags(rs[i].events), Tag(TX_HEIGHT, Decimal(rs[i].height)));
  }

  lemma AddAllKeepsAny(hash: string -> Hash, ix: Index, rs: seq<TxResult>)
    ensures forall S: set<TxResult> | Exactly(hash, ix, S) && Indexable(hash, S + Members(rs)) ::
              Exactly(hash, AddAll(hash, ix, rs), S + Members(rs))
  {
    forall S: set<TxResult> | Exactly(hash, ix, S) && Indexable(hash, S + Members(rs))
      ensures Exactly(hash, AddAll(hash, ix, rs), S + Members(rs))
    {
      AddAllKeeps(hash, ix, S, rs);
    }
  }
}
