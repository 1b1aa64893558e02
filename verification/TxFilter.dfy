/**
 Searching the transaction index is filtering the indexed transactions: each scan picks the keys of
 the transactions that satisfy its condition, and the intersection is the filter.
 */
module TxFilter {
  import opened Wrappers
  import opened TxKeys
  import opened TxSearch

  // One scan

  /** What a stored key tells the scans. */
  lemma KeyShape(t: Tag, r: TxResult, key: string)
    requires NoSlash(t.key) && NoSlash(t.value) && NoSlash(key)
    ensures Join(key, "") <= TagKey(t, r) <==> key == t.key
    ensures IsTagKey(TagKey(t, r)) && ValueOf(TagKey(t, r)) == t.value
  {
    hide Join, Decimal, Head, Rest, Slashes, NoSlash;
    var place := Join(Decimal(r.height), Decimal(r.index));
    JoinPrefix(key, "", t.key, Join(t.value, place));
    JoinSplit(t.key, Join(t.value, place));
    JoinSplit(t.value, place);
    DecimalNoSlash(r.height);
    DecimalNoSlash(r.index);
    JoinSplit(Decimal(r.height), Decimal(r.index));
    SlashesNone(Decimal(r.index));
  }

  lemma StartKeyExact(c: Condition, height: int, t: Tag, r: TxResult)
    requires c.Equal? && NoSlash(c.key) && NoSlash(Shown(c.operand)) && IsInt64(height)
    requires NoSlash(t.key) && NoSlash(t.value)
    ensures StartKey(c, height) <= TagKey(t, r) <==>
            t.key == c.key && Fits(c, t.value) && (height > 0 ==> r.height == height)
  {
    hide Join, Decimal, Shown, NoSlash;
    var place := Join(Decimal(r.height), Decimal(r.index));
    var end := if height > 0 then Join(Decimal(height), "") else "";
    JoinPrefix(c.key, Join(Shown(c.operand), end), t.key, Join(t.value, place));
    JoinPrefix(Shown(c.operand), end, t.value, place);
    if height > 0 {
      DecimalNoSlash(height);
      DecimalNoSlash(r.height);
      JoinPrefix(Decimal(height), "", Decimal(r.height), Decimal(r.index));
      if Decimal(height) == Decimal(r.height) {
        DecimalInjective(height, r.height);
      }
    }
  }

  lemma HitExact(c: Condition, height: int, t: Tag, r: TxResult)
    requires !c.Range? && NoSlash(c.key) && (c.Equal? ==> NoSlash(Shown(c.operand))) && IsInt64(height)
    requires NoSlash(t.key) && NoSlash(t.value)
    ensures Hit(c, height, TagKey(t, r)) <==>
            t.key == c.key && Fits(c, t.value) && (c.Equal? && height > 0 ==> r.height == height)
  {
    hide Join, TagKey, NoSlash, HasPart, StartKey, IsTagKey, ValueOf;
    KeyShape(t, r, c.key);
    if c.Equal? {
      StartKeyExact(c, height, t, r);
    }
  }

  /** A scan over the index finds a transaction iff it picks one of the transaction's own keys. */
  lemma ScanFinds(hash: string -> Hash, ix: Index, S: set<TxResult>, r: TxResult, pick: string -> bool)
    requires Exactly(hash, ix, S) && Distinct(hash, S) && r in S
    ensures (exists k :: k in ix.tags && pick(k) && ix.tags[k] == hash(r.tx)) <==>
            (exists t :: t in Tags(r) && pick(TagKey(t, r)))
  {
    hide TagKey, Tags;
    if t :| t in Tags(r) && pick(TagKey(t, r)) {
      assert Tagged(hash, ix, r);
      assert TagKey(t, r) in ix.tags;
    }
    if k :| k in ix.tags && pick(k) && ix.tags[k] == hash(r.tx) {
      assert Source(hash, S, k, ix.tags[k]);
      var s, t :| s in S && t in Tags(s) && k == TagKey(t, s) && ix.tags[k] == hash(s.tx);
      assert s == r;
    }
  }

  lemma HitsExact(hash: string -> Hash, ix: Index, S: set<TxResult>, r: TxResult, c: Condition, height: int)
    requires Exactly(hash, ix, S) && Distinct(hash, S) && r in S && SlashFree(r)
    requires !c.Range? && NoSlash(c.key) && (c.Equal? ==> NoSlash(Shown(c.operand))) && IsInt64(height)
    ensures hash(r.tx) in Hits(ix.tags, c, height) <==>
            Satisfies(r, c) && (c.Equal? && height > 0 ==> r.height == height)
  {
    hide Exactly, Distinct, Hit, Tags, TagKey, Fits, NoSlash;
    ScanFinds(hash, ix, S, r, k => Hit(c, height, k));
    forall t | t in Tags(r)
      ensures Hit(c, height, TagKey(t, r)) <==>
              t.key == c.key && Fits(c, t.value) && (c.Equal? && height > 0 ==> r.height == height)
    {
      HitExact(c, height, t, r);
    }
  }

  lemma RangeHitsExact(hash: string -> Hash, ix: Index, S: set<TxResult>, r: TxResult, qr: QueryRange)
    requires Exactly(hash, ix, S) && Distinct(hash, S) && r in S && SlashFree(r) && NoSlash(qr.key)
    ensures hash(r.tx) in RangeHits(ix.tags, qr) <==>
            exists t :: t in Tags(r) && t.key == qr.key && ParseInt(t.value).Some?
                        && InRange(qr, ParseInt(t.value).value)
  {
    hide Exactly, Distinct, Tags, TagKey, NoSlash, InRange, ParseInt, IsTagKey, ValueOf, Join;
    ScanFinds(hash, ix, S, r, k => RangeHit(qr, k));
    forall t | t in Tags(r)
      ensures RangeHit(qr, TagKey(t, r)) <==>
              t.key == qr.key && ParseInt(t.value).Some? && InRange(qr, ParseInt(t.value).value)
    {
      KeyShape(t, r, qr.key);
    }
  }

  // What is indexed

  /** The tag of an attribute. */
  ghost predicate FromAttribute(t: Tag, kind: string, attributes: seq<Attribute>) {
    exists a :: a in attributes && a.key != "" && a.index && t == Tag(kind + "." + a.key, a.value)
  }

  lemma {:induction false} AttributeTagsMean(kind: string, attributes: seq<Attribute>, t: Tag)
    ensures t in AttributeTags(kind, attributes) <==> FromAttribute(t, kind, attributes)
  {
    if attributes != [] {
      var n := |attributes| - 1;
      AttributeTagsMean(kind, attributes[..n], t);
      assert forall a :: a in attributes <==> a in attributes[..n] || a == attributes[n];
    }
  }

  /** A transaction is indexed under its height, and under exactly the attributes of its events that have a
      key, are marked for indexing and belong to an event with a type. */
  lemma TagsMean(r: TxResult, t: Tag)
    ensures t in Tags(r) <==>
            || t == Tag("tx.height", Decimal(r.height))
            || exists e :: e in r.events && e.kind != "" && FromAttribute(t, e.kind, e.attributes)
  {
    hide Decimal, FromAttribute;
    EventTagsMean(r.events, t);
  }

  lemma {:induction false} EventTagsMean(events: seq<Event>, t: Tag)
    ensures t in EventTags(events) <==>
            exists e :: e in events && e.kind != "" && FromAttribute(t, e.kind, e.attributes)
  {
    hide FromAttribute, AttributeTags;
    if events != [] {
      var n := |events| - 1;
      EventTagsMean(events[..n], t);
      AttributeTagsMean(events[n].kind, events[n].attributes, t);
      assert forall e :: e in events <==> e in events[..n] || e == events[n];
    }
  }

  // Numbers

  /** A key's value is a numeral within the range. */
  ghost predicate NumberInRange(qr: QueryRange, k: string, v: int) {
    IsInt64(v) && Numeral(ValueOf(k), v) && InRange(qr, v)
  }

  /** A range's scan picks exactly the keys whose value is a numeral of a 64-bit number in the range; it
      passes over every other value. */
  lemma RangeHitMeans(qr: QueryRange, k: string)
    ensures RangeHit(qr, k) <==> Join(qr.key, "") <= k && IsTagKey(k) && exists v :: NumberInRange(qr, k, v)
  {
    hide Join, InRange, IsTagKey, ValueOf, Numeral, ParseInt;
    if RangeHit(qr, k) {
      ParseExactly(ValueOf(k), ParseInt(ValueOf(k)).value);
      assert NumberInRange(qr, k, ParseInt(ValueOf(k)).value);
    }
    if v :| NumberInRange(qr, k, v) {
      ParseExactly(ValueOf(k), v);
    }
  }

  /** Containing a text is having something, perhaps nothing, before and after it. */
  lemma PartMeans(s: string, part: string)
    ensures HasPart(s, part) <==> exists before, after :: s == before + part + after
  {
    if HasPart(s, part) {
      var i :| 0 <= i <= |s| && part <= s[i..];
      assert s == s[..i] + part + s[i + |part|..];
    }
    if before, after :| s == before + part + after {
      assert s[|before|..] == part + after;
    }
  }

  /** A transaction that a query for a text in a value matches has a value with the text in it. */
  lemma MatchedHasPart(r: TxResult, cs: seq<Condition>, c: Condition)
    requires Matches(r, cs) && c in cs && c.Contains?
    ensures exists t, before, after :: t in Tags(r) && t.key == c.key && t.value == before + c.part + after
  {
    hide Tags, HasPart;
    var t :| t in Tags(r) && t.key == c.key && HasPart(t.value, c.part);
    PartMeans(t.value, c.part);
    var before, after :| t.value == before + c.part + after;
    assert t in Tags(r) && t.key == c.key && t.value == before + c.part + after;
  }

  /** A transaction that a query with a bound on a key matches has a numeral among its values for the key
      that meets the bound. */
  lemma MatchedIsNumeral(r: TxResult, cs: seq<Condition>, c: Condition)
    requires Matches(r, cs) && c in cs && c.Range?
    ensures exists t, v :: t in Tags(r) && t.key == c.key && IsInt64(v) && Numeral(t.value, v) &&
                           Compares(c.cmp, v, c.bound)
  {
    hide Tags, Numeral, ParseInt;
    assert WithinBounds(r, cs, c.key);
    var t :| t in Tags(r) && t.key == c.key && AllBounds(cs, c.key, t.value);
    var v := ParseInt(t.value).value;
    ParseExactly(t.value, v);
    assert Compares(c.cmp, v, c.bound);
  }

  // Ranges

  /** The exclusive lower bound is exact on 64-bit values iff its increment does not wrap. */
  lemma LowerExact(key: string, bound: Int64)
    ensures (forall v: Int64 :: InRange(QueryRange(key, Some(bound), None, false, false), v) <==> v > bound)
            <==> bound < MAX_INT64
  {
    var qr := QueryRange(key, Some(bound), None, false, false);
    if bound == MAX_INT64 {
      var v: Int64 := MIN_INT64;
      assert InRange(qr, v) && !(v > bound);
    }
  }

  lemma UpperExact(key: string, bound: Int64)
    ensures (forall v: Int64 :: InRange(QueryRange(key, None, Some(bound), false, false), v) <==> v < bound)
            <==> bound > MIN_INT64
  {
    var qr := QueryRange(key, None, Some(bound), false, false);
    if bound == MIN_INT64 {
      var v: Int64 := MAX_INT64;
      assert InRange(qr, v) && !(v < bound);
    }
  }

  predicate KeyBounded(cs: seq<Condition>, key: string) {
    exists c | c in cs :: c.Range? && c.key == key
  }

  /** Which bounds the range collected for a key has. */
  lemma {:induction false} RangeShape(cs: seq<Condition>, key: string)
    ensures key in Ranges(cs) <==> KeyBounded(cs, key)
    ensures key in Ranges(cs) ==>
              var qr := Ranges(cs)[key];
              && qr.key == key
              && (qr.lower.Some? <==> exists c | c in cs :: Lower(c) && c.key == key)
              && (qr.upper.Some? <==> exists c | c in cs :: Upper(c) && c.key == key)
              && (qr.includeLower ==> qr.lower.Some?) && (qr.includeUpper ==> qr.upper.Some?)
  {
    if cs != [] {
      var n := |cs| - 1;
      RangeShape(cs[..n], key);
      assert forall c :: c in cs <==> c in cs[..n] || c == cs[n];
    }
  }

  function RangeFor(ranges: map<string, QueryRange>, key: string): QueryRange {
    if key in ranges then ranges[key] else QueryRange(key, None, None, false, false)
  }

  /** A first lower or upper bound narrows the range by what its condition says. */
  lemma BoundNarrows(ranges: map<string, QueryRange>, c: Condition, v: Int64)
    requires c.Range? && NoWrap(c)
    requires var qr := RangeFor(ranges, c.key);
             && (Lower(c) ==> qr.lower.None? && !qr.includeLower) && (Upper(c) ==> qr.upper.None? && !qr.includeUpper)
    ensures InRange(RangeFor(Bounded(ranges, c), c.key), v) <==>
            InRange(RangeFor(ranges, c.key), v) && Compares(c.cmp, v, c.bound)
  {
  }

  /** With at most one bound on a side, the last condition's side of its key is still open. */
  lemma SideOpen(cs: seq<Condition>)
    requires cs != [] && OneBound(cs) && cs[|cs| - 1].Range?
    ensures var c := cs[|cs| - 1];
            var qr := RangeFor(Ranges(cs[..|cs| - 1]), c.key);
            && (Lower(c) ==> qr.lower.None? && !qr.includeLower) && (Upper(c) ==> qr.upper.None? && !qr.includeUpper)
  {
    hide Ranges;
    RangeShape(cs[..|cs| - 1], cs[|cs| - 1].key);
  }

  /** The range collected for a key says what all the conditions on the key say. */
  lemma {:induction false} RangeMeans(cs: seq<Condition>, key: string, v: Int64)
    requires OneBound(cs) && forall c | c in cs :: NoWrap(c)
    ensures InRange(RangeFor(Ranges(cs), key), v) <==> BoundsHold(cs, key, v)
  {
    hide InRange, Compares, NoWrap, Lower;
    if cs == [] {
      NoRange(key, v);
    } else {
      var n := |cs| - 1;
      RangeMeans(cs[..n], key, v);
      assert forall c :: c in cs <==> c in cs[..n] || c == cs[n];
      if cs[n].Range? {
        SideOpen(cs);
        BoundNarrows(Ranges(cs[..n]), cs[n], v);
      }
    }
  }

  lemma NoRange(key: string, v: int)
    ensures InRange(QueryRange(key, None, None, false, false), v)
  {
  }

  // The whole query

  lemma {:induction false} HeightAsked(cs: seq<Condition>)
    requires WellFormed(cs)
    ensures IsInt64(Height(cs))
    ensures Height(cs) > 0 ==> Equal(TX_HEIGHT, Int(Height(cs))) in cs
  {
    if cs != [] && !(cs[0].Equal? && cs[0].key == TX_HEIGHT) {
      assert forall c | c in cs[1..] :: c in cs;
      HeightAsked(cs[1..]);
    }
  }

  lemma RangesSelect(hash: string -> Hash, ix: Index, S: set<TxResult>, r: TxResult, cs: seq<Condition>, key: string)
    requires Exactly(hash, ix, S) && Distinct(hash, S) && r in S && SlashFree(r) && WellFormed(cs)
    requires key in Ranges(cs)
    ensures KeyBounded(cs, key)
    ensures hash(r.tx) in RangeHits(ix.tags, Ranges(cs)[key]) <==> WithinBounds(r, cs, key)
  {
    hide Exactly, Distinct, Tags, SlashFree, Ranges, InRange, BoundsHold, NoWrap, OneBound, ParseInt, NoSlash;
    RangeShape(cs, key);
    RangeHitsExact(hash, ix, S, r, Ranges(cs)[key]);
    forall t | t in Tags(r) && ParseInt(t.value).Some?
      ensures InRange(Ranges(cs)[key], ParseInt(t.value).value) <==> BoundsHold(cs, key, ParseInt(t.value).value)
    {
      ParsedIsInt64(t.value);
      RangeMeans(cs, key, ParseInt(t.value).value);
    }
  }

  lemma ParsedIsInt64(s: string)
    ensures ParseInt(s).Some? ==> IsInt64(ParseInt(s).value)
  {
  }

  /** A transaction is in the intersection of all the scans iff it passes the filter. */
  lemma SearchIsFilter(hash: string -> Hash, ix: Index, S: set<TxResult>, r: TxResult, cs: seq<Condition>)
    requires Exactly(hash, ix, S) && Distinct(hash, S) && r in S && SlashFree(r) && WellFormed(cs)
    ensures Selected(ix.tags, cs, hash(r.tx)) <==> Matches(r, cs)
  {
    hide Exactly, Distinct, SlashFree, RangeHits, Hits, Satisfies, WithinBounds, Ranges, Height;
    HeightAsked(cs);
    forall k | k in Ranges(cs)
      ensures KeyBounded(cs, k)
      ensures hash(r.tx) in RangeHits(ix.tags, Ranges(cs)[k]) <==> WithinBounds(r, cs, k)
    {
      RangesSelect(hash, ix, S, r, cs, k);
    }
    forall c | c in cs
      ensures c.Range? ==> c.key in Ranges(cs)
      ensures !c.Range? ==> (hash(r.tx) in Hits(ix.tags, c, Height(cs)) <==>
                             Satisfies(r, c) && (c.Equal? && Height(cs) > 0 ==> r.height == Height(cs)))
    {
      if c.Range? {
        RangeShape(cs, c.key);
      } else {
        HitsExact(hash, ix, S, r, c, Height(cs));
      }
    }
  }

  // The filter and the naive one

  /** A key has one integer value at most; for the height key, that is the transaction's height. */
  predicate Plain(r: TxResult) {
    forall s, t | s in Tags(r) && t in Tags(r) && s.key == t.key && s.key != TX_HASH
                  && ParseInt(s.value).Some? && ParseInt(t.value).Some? ::
      ParseInt(s.value) == ParseInt(t.value)
  }

  lemma WithinIsSatisfied(r: TxResult, cs: seq<Condition>, c: Condition)
    requires c in cs && c.Range? && WithinBounds(r, cs, c.key)
    ensures Satisfies(r, c)
  {
    hide ParseInt, Tags;
    var t :| t in Tags(r) && t.key == c.key && AllBounds(cs, c.key, t.value);
    assert Fits(c, t.value);
  }

  lemma MatchesIsNaive(r: TxResult, cs: seq<Condition>)
    requires Matches(r, cs)
    ensures Naive(r, cs)
  {
    hide WithinBounds, Satisfies;
    forall c | c in cs
      ensures Satisfies(r, c)
    {
      if c.Range? {
        WithinIsSatisfied(r, cs, c);
      }
    }
  }

  lemma NaiveWithin(r: TxResult, cs: seq<Condition>, c: Condition)
    requires Plain(r) && WellFormed(cs) && Naive(r, cs) && c in cs && c.Range?
    ensures WithinBounds(r, cs, c.key)
  {
    hide ParseInt, Tags, Decimal, OneBound, NoWrap, NoSlash;
    assert Satisfies(r, c);
    var t :| t in Tags(r) && t.key == c.key && Fits(c, t.value);
    forall d | d in cs && d.Range? && d.key == c.key
      ensures Compares(d.cmp, ParseInt(t.value).value, d.bound)
    {
      assert Satisfies(r, d);
      var u :| u in Tags(r) && u.key == d.key && Fits(d, u.value);
    }
    assert AllBounds(cs, c.key, t.value);
  }

  lemma NaiveHeight(r: TxResult, cs: seq<Condition>)
    requires Plain(r) && WellFormed(cs) && Naive(r, cs) && Height(cs) > 0
    ensures r.height == Height(cs)
  {
    hide ParseInt, EventTags, Decimal, OneBound, NoWrap, NoSlash, Height;
    HeightAsked(cs);
    var c := Equal(TX_HEIGHT, Int(Height(cs)));
    assert Satisfies(r, c);
    var t :| t in Tags(r) && t.key == c.key && Fits(c, t.value);
    assert Tag(TX_HEIGHT, Decimal(r.height)) in Tags(r);
    ParseDecimal(Height(cs));
    ParseDecimal(r.height);
  }

  /** On a plain transaction a search filters naively. */
  lemma PlainIsNaive(r: TxResult, cs: seq<Condition>)
    requires Plain(r) && WellFormed(cs)
    ensures Matches(r, cs) <==> Naive(r, cs)
  {
    hide Plain, WellFormed, WithinBounds, Satisfies, Height;
    if Matches(r, cs) {
      MatchesIsNaive(r, cs);
    }
    if Naive(r, cs) {
      if Height(cs) > 0 {
        NaiveHeight(r, cs);
      }
      forall c | c in cs && c.Range?
        ensures WithinBounds(r, cs, c.key)
      {
        NaiveWithin(r, cs, c);
      }
    }
  }

  function Crossed(key: string, low: Int64, high: Int64): seq<Condition> {
    [Range(key, GreaterEqual, high), Range(key, LessEqual, low)]
  }

  /** No one value is within bounds that cross. */
  lemma CrossedMatchesNone(r: TxResult, key: string, low: Int64, high: Int64)
    requires low < high && NoSlash(key) && key != TX_HASH
    ensures WellFormed(Crossed(key, low, high)) && !Matches(r, Crossed(key, low, high))
  {
    hide ParseInt, Tags, NoSlash, Height;
    var cs := Crossed(key, low, high);
    assert cs[0] in cs && cs[1] in cs;
    assert forall v :: !BoundsHold(cs, key, v);
  }

  /** Two integer values of a key meet crossed bounds between them. */
  lemma TwoValuesDiffer(r: TxResult, s: Tag, t: Tag)
    requires s in Tags(r) && t in Tags(r) && s.key == t.key && s.key != TX_HASH && NoSlash(s.key)
    requires ParseInt(s.value).Some? && ParseInt(t.value).Some? && ParseInt(s.value).value < ParseInt(t.value).value
    ensures exists cs :: WellFormed(cs) && Naive(r, cs) && !Matches(r, cs)
  {
    hide ParseInt, Tags, NoSlash, Matches, WellFormed;
    ParsedIsInt64(s.value);
    ParsedIsInt64(t.value);
    var cs := Crossed(s.key, ParseInt(s.value).value, ParseInt(t.value).value);
    CrossedMatchesNone(r, s.key, ParseInt(s.value).value, ParseInt(t.value).value);
    assert Fits(cs[0], t.value) && Fits(cs[1], s.value);
    assert Satisfies(r, cs[0]) && Satisfies(r, cs[1]);
    assert Naive(r, cs);
  }

  /** For which transactions a search filters naively, whatever the query. */
  lemma NaiveExactly(r: TxResult)
    requires SlashFree(r)
    ensures (forall cs | WellFormed(cs) :: Matches(r, cs) <==> Naive(r, cs)) <==> Plain(r)
  {
    hide WellFormed, Naive, Matches, ParseInt, Tags, NoSlash, Decimal;
    if Plain(r) {
      forall cs | WellFormed(cs)
        ensures Matches(r, cs) <==> Naive(r, cs)
      {
        PlainIsNaive(r, cs);
      }
    } else {
      var s, t :| s in Tags(r) && t in Tags(r) && s.key == t.key && s.key != TX_HASH
                  && ParseInt(s.value).Some? && ParseInt(t.value).Some? && ParseInt(s.value) != ParseInt(t.value);
      if ParseInt(s.value).value < ParseInt(t.value).value {
        TwoValuesDiffer(r, s, t);
      } else {
        TwoValuesDiffer(r, t, s);
      }
    }
  }
}
