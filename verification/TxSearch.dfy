/**
 What the transaction index holds and what a search over it selects (state/txindex/kv/kv.go,
 state/indexer/query_range.go), and what that means for the transactions that were indexed.
 */
module TxSearch {
  import opened Wrappers
  import opened TxKeys

  type Hash = string
  type Int64 = n: int | MIN_INT64 <= n <= MAX_INT64
  type Uint32 = n: int | 0 <= n < 0x1_0000_0000

  datatype Attribute = Attribute(key: string, value: string, index: bool)

  datatype Event = Event(kind: string, attributes: seq<Attribute>)

  datatype TxResult = TxResult(tx: string, height: Int64, index: Uint32, events: seq<Event>)

  datatype Tag = Tag(key: string, value: string)

  /** The stored tag keys, each with a transaction hash, and the results by hash. */
  datatype Index = Index(tags: map<string, Hash>, results: map<Hash, TxResult>)

  const TX_HASH := "tx.hash"
  const TX_HEIGHT := "tx.height"

  // Indexing

  function AttributeTags(kind: string, attributes: seq<Attribute>): seq<Tag> {
    if attributes == [] then []
    else
      var a := attributes[|attributes| - 1];
      AttributeTags(kind, attributes[..|attributes| - 1])
      + if a.key != "" && a.index then [Tag(kind + "." + a.key, a.value)] else []
  }

  function EventTags(events: seq<Event>): seq<Tag> {
    if events == [] then []
    else
      var e := events[|events| - 1];
      EventTags(events[..|events| - 1]) + if e.kind == "" then [] else AttributeTags(e.kind, e.attributes)
  }

  /** Under which keys and values a transaction is found: its indexed attributes and its height. */
  function Tags(r: TxResult): seq<Tag> {
    EventTags(r.events) + [Tag(TX_HEIGHT, Decimal(r.height))]
  }

  /** keyForEvent and keyForHeight */
  function TagKey(t: Tag, r: TxResult): string {
    Join(t.key, Join(t.value, Join(Decimal(r.height), Decimal(r.index))))
  }

  function Put(tags: map<string, Hash>, r: TxResult, h: Hash, ts: seq<Tag>): map<string, Hash> {
    if ts == [] then tags else Put(tags, r, h, ts[..|ts| - 1])[TagKey(ts[|ts| - 1], r) := h]
  }

  function Add(hash: string -> Hash, ix: Index, r: TxResult): Index {
    Index(Put(ix.tags, r, hash(r.tx), Tags(r)), ix.results[hash(r.tx) := r])
  }

  function AddAll(hash: string -> Hash, ix: Index, rs: seq<TxResult>): Index {
    if rs == [] then ix else Add(hash, AddAll(hash, ix, rs[..|rs| - 1]), rs[|rs| - 1])
  }

  /** k is a tag of some transaction of S that has hash h. */
  ghost predicate Source(hash: string -> Hash, S: set<TxResult>, k: string, h: Hash) {
    exists r, t :: r in S && t in Tags(r) && k == TagKey(t, r) && h == hash(r.tx)
  }

  predicate Tagged(hash: string -> Hash, ix: Index, r: TxResult) {
    forall t | t in Tags(r) :: TagKey(t, r) in ix.tags && ix.tags[TagKey(t, r)] == hash(r.tx)
  }

  /** The index holds the transactions of S and nothing else. */
  ghost predicate Exactly(hash: string -> Hash, ix: Index, S: set<TxResult>) {
    && (forall r | r in S :: Tagged(hash, ix, r))
    && (forall k | k in ix.tags :: Source(hash, S, k, ix.tags[k]))
    && (forall r | r in S :: hash(r.tx) in ix.results && ix.results[hash(r.tx)] == r)
    && (forall h | h in ix.results :: ix.results[h] in S && hash(ix.results[h].tx) == h)
  }

  /** Transactions differ in hash and in their place on the chain. */
  predicate Distinct(hash: string -> Hash, S: set<TxResult>) {
    forall a, b | a in S && b in S && (hash(a.tx) == hash(b.tx) || (a.height == b.height && a.index == b.index)) ::
      a == b
  }

  predicate SlashFree(r: TxResult) {
    forall t | t in Tags(r) :: NoSlash(t.key) && NoSlash(t.value)
  }

  /** What can be indexed together. */
  predicate Indexable(hash: string -> Hash, S: set<TxResult>) {
    Distinct(hash, S) && forall r | r in S :: SlashFree(r)
  }

  function Members(rs: seq<TxResult>): set<TxResult> {
    set r | r in rs
  }

  lemma {:induction false} PutMeans(tags: map<string, Hash>, r: TxResult, h: Hash, ts: seq<Tag>, k: string)
    ensures k in Put(tags, r, h, ts) <==> k in tags || exists t :: t in ts && k == TagKey(t, r)
    ensures k in Put(tags, r, h, ts) ==>
              Put(tags, r, h, ts)[k] == if exists t :: t in ts && k == TagKey(t, r) then h else tags[k]
  {
    hide TagKey;
    if ts != [] {
      var n := |ts| - 1;
      PutMeans(tags, r, h, ts[..n], k);
      assert forall t :: t in ts <==> t in ts[..n] || t == ts[n];
    }
  }

  /** A key tells where on the chain the transaction is. */
  lemma TagKeyPlace(t: Tag, r: TxResult, t': Tag, r': TxResult)
    requires NoSlash(t.key) && NoSlash(t.value) && NoSlash(t'.key) && NoSlash(t'.value)
    requires TagKey(t, r) == TagKey(t', r')
    ensures t == t' && r.height == r'.height && r.index == r'.index
  {
    hide Join, Decimal;
    var place, place' := Join(Decimal(r.height), Decimal(r.index)), Join(Decimal(r'.height), Decimal(r'.index));
    JoinEqual(t.key, Join(t.value, place), t'.key, Join(t'.value, place'));
    JoinEqual(t.value, place, t'.value, place');
    DecimalNoSlash(r.height);
    DecimalNoSlash(r'.height);
    JoinEqual(Decimal(r.height), Decimal(r.index), Decimal(r'.height), Decimal(r'.index));
    DecimalInjective(r.height, r'.height);
    DecimalInjective(r.index, r'.index);
  }

  lemma AddTagged(hash: string -> Hash, ix: Index, S: set<TxResult>, r: TxResult, s: TxResult)
    requires Tagged(hash, ix, s) || s == r
    requires Distinct(hash, S) && r in S && s in S && SlashFree(r) && SlashFree(s)
    ensures Tagged(hash, Add(hash, ix, r), s)
  {
    hide Put, Tags, TagKey, NoSlash;
    forall t | t in Tags(s)
      ensures TagKey(t, s) in Add(hash, ix, r).tags && Add(hash, ix, r).tags[TagKey(t, s)] == hash(s.tx)
    {
      PutMeans(ix.tags, r, hash(r.tx), Tags(r), TagKey(t, s));
      if exists t' :: t' in Tags(r) && TagKey(t, s) == TagKey(t', r) {
        var t' :| t' in Tags(r) && TagKey(t, s) == TagKey(t', r);
        TagKeyPlace(t, s, t', r);
      }
    }
  }

  lemma AddSource(hash: string -> Hash, ix: Index, S: set<TxResult>, r: TxResult, k: string)
    requires k in Add(hash, ix, r).tags && (k in ix.tags ==> Source(hash, S, k, ix.tags[k]))
    ensures Source(hash, S + {r}, k, Add(hash, ix, r).tags[k])
  {
    hide Put, Tags, TagKey;
    PutMeans(ix.tags, r, hash(r.tx), Tags(r), k);
  }

  lemma OtherHashes(hash: string -> Hash, S: set<TxResult>, r: TxResult)
    requires Distinct(hash, S + {r})
    ensures forall s | s in S && hash(s.tx) == hash(r.tx) :: s == r
  {
    assert forall s | s in S :: s in S + {r};
  }

  /** Indexing one more transaction, or one again, indexes exactly it besides. */
  lemma AddKeeps(hash: string -> Hash, ix: Index, S: set<TxResult>, r: TxResult)
    requires Exactly(hash, ix, S) && Indexable(hash, S + {r})
    ensures Exactly(hash, Add(hash, ix, r), S + {r})
  {
    hide Put, Tags, TagKey, Tagged, SlashFree, Source, Distinct;
    var iy := Add(hash, ix, r);
    forall s | s in S + {r}
      ensures Tagged(hash, iy, s)
    {
      AddTagged(hash, ix, S + {r}, r, s);
    }
    OtherHashes(hash, S, r);
    forall k | k in iy.tags
      ensures Source(hash, S + {r}, k, iy.tags[k])
    {
      AddSource(hash, ix, S, r, k);
    }
  }

  lemma {:induction false} AddAllKeeps(hash: string -> Hash, ix: Index, S: set<TxResult>, rs: seq<TxResult>)
    requires Exactly(hash, ix, S) && Indexable(hash, S + Members(rs))
    ensures Exactly(hash, AddAll(hash, ix, rs), S + Members(rs))
  {
    hide Exactly, Add, SlashFree;
    if rs == [] {
      assert S + Members(rs) == S;
    } else {
      var n := |rs| - 1;
      AddAllKeeps(hash, ix, S, rs[..n]);
      assert S + Members(rs) == S + Members(rs[..n]) + {rs[n]};
      AddKeeps(hash, AddAll(hash, ix, rs[..n]), S + Members(rs[..n]), rs[n]);
    }
  }

  // Queries

  datatype Compare = Greater | GreaterEqual | Less | LessEqual

  datatype Operand = Text(text: string) | Int(n: Int64)

  datatype Condition =
    | Range(key: string, cmp: Compare, bound: Int64)
    | Equal(key: string, operand: Operand)
    | Contains(key: string, part: string)
    | Exists(key: string)

  datatype QueryRange =
    QueryRange(key: string, lower: Option<Int64>, upper: Option<Int64>, includeLower: bool, includeUpper: bool)

  function Shown(operand: Operand): string {
    match operand
    case Text(s) => s
    case Int(n) => Decimal(n)
  }

  /** LowerBoundValue, when there is one; the increment wraps. */
  function LowerBoundValue(qr: QueryRange): int
    requires qr.lower.Some?
  {
    if qr.includeLower then qr.lower.value else Wrap64(qr.lower.value + 1)
  }

  function UpperBoundValue(qr: QueryRange): int
    requires qr.upper.Some?
  {
    if qr.includeUpper then qr.upper.value else Wrap64(qr.upper.value - 1)
  }

  predicate InRange(qr: QueryRange, v: int) {
    && (qr.lower.Some? ==> v >= LowerBoundValue(qr))
    && (qr.upper.Some? ==> v <= UpperBoundValue(qr))
  }

  /** One step of LookForRanges. */
  function Bounded(ranges: map<string, QueryRange>, c: Condition): map<string, QueryRange>
    requires c.Range?
  {
    var r := if c.key in ranges then ranges[c.key] else QueryRange(c.key, None, None, false, false);
    var r := match c.cmp
      case Greater => r.(lower := Some(c.bound))
      case GreaterEqual => r.(lower := Some(c.bound), includeLower := true)
      case Less => r.(upper := Some(c.bound))
      case LessEqual => r.(upper := Some(c.bound), includeUpper := true);
    ranges[c.key := r]
  }

  function Ranges(cs: seq<Condition>): map<string, QueryRange> {
    if cs == [] then map[]
    else
      var before := Ranges(cs[..|cs| - 1]);
      if cs[|cs| - 1].Range? then Bounded(before, cs[|cs| - 1]) else before
  }

  /** The operand of the first height condition. */
  function HeightOperand(cs: seq<Condition>): Option<Operand> {
    if cs == [] then None
    else if cs[0].Equal? && cs[0].key == TX_HEIGHT then Some(cs[0].operand)
    else HeightOperand(cs[1..])
  }

  /** lookForHeight; a textual operand stops the search before this is used. */
  function Height(cs: seq<Condition>): int {
    match HeightOperand(cs)
    case Some(Int(n)) => n
    case _ => 0
  }

  /** startKeyForCondition */
  function StartKey(c: Condition, height: int): string
    requires c.Equal?
  {
    Join(c.key, Join(Shown(c.operand), if height > 0 then Join(Decimal(height), "") else ""))
  }

  predicate HasPart(s: string, part: string) {
    exists i | 0 <= i <= |s| :: part <= s[i..]
  }

  /** The prefix a condition's scan walks. */
  function Prefix(c: Condition, height: int): string {
    if c.Equal? then StartKey(c, height) else Join(c.key, "")
  }

  /** The keys a condition's scan picks. */
  predicate Hit(c: Condition, height: int, k: string)
    requires !c.Range?
  {
    Prefix(c, height) <= k && (c.Contains? ==> IsTagKey(k) && HasPart(ValueOf(k), c.part))
  }

  predicate RangeHit(qr: QueryRange, k: string) {
    && Join(qr.key, "") <= k && IsTagKey(k)
    && ParseInt(ValueOf(k)).Some? && InRange(qr, ParseInt(ValueOf(k)).value)
  }

  function Hits(tags: map<string, Hash>, c: Condition, height: int): set<Hash>
    requires !c.Range?
  {
    set k | k in tags && Hit(c, height, k) :: tags[k]
  }

  function RangeHits(tags: map<string, Hash>, qr: QueryRange): set<Hash> {
    set k | k in tags && RangeHit(qr, k) :: tags[k]
  }

  /** The hashes in the intersection of the scans of all ranges and all other conditions. */
  predicate Selected(tags: map<string, Hash>, cs: seq<Condition>, h: Hash) {
    && cs != []
    && (forall k | k in Ranges(cs) :: h in RangeHits(tags, Ranges(cs)[k]))
    && (forall c | c in cs && !c.Range? :: h in Hits(tags, c, Height(cs)))
  }

  // What a query means for a transaction

  predicate Compares(cmp: Compare, v: int, bound: int) {
    match cmp
    case Greater => v > bound
    case GreaterEqual => v >= bound
    case Less => v < bound
    case LessEqual => v <= bound
  }

  /** A value satisfies a condition. */
  predicate Fits(c: Condition, v: string) {
    match c
    case Range(_, cmp, bound) => ParseInt(v).Some? && Compares(cmp, ParseInt(v).value, bound)
    case Equal(_, operand) => v == Shown(operand)
    case Contains(_, part) => HasPart(v, part)
    case Exists(_) => true
  }

  /** One value of the condition's key satisfies the condition. */
  predicate Satisfies(r: TxResult, c: Condition) {
    exists t | t in Tags(r) :: t.key == c.key && Fits(c, t.value)
  }

  /** One value of the key is within all bounds that the query sets on the key. */
  predicate WithinBounds(r: TxResult, cs: seq<Condition>, key: string) {
    exists t | t in Tags(r) :: t.key == key && AllBounds(cs, key, t.value)
  }

  predicate AllBounds(cs: seq<Condition>, key: string, v: string) {
    ParseInt(v).Some? && BoundsHold(cs, key, ParseInt(v).value)
  }

  predicate BoundsHold(cs: seq<Condition>, key: string, v: int) {
    forall c | c in cs && c.Range? && c.key == key :: Compares(c.cmp, v, c.bound)
  }

  /** The naive filter. */
  predicate Naive(r: TxResult, cs: seq<Condition>) {
    cs != [] && forall c | c in cs :: Satisfies(r, c)
  }

  /** The filter that a search computes: the bounds on a key apply to one value, and a positive height
      that the query asks for is the transaction's own. */
  predicate Matches(r: TxResult, cs: seq<Condition>) {
    && cs != []
    && (forall c | c in cs && !c.Range? :: Satisfies(r, c))
    && (forall c | c in cs && c.Range? :: WithinBounds(r, cs, c.key))
    && (Height(cs) > 0 ==> r.height == Height(cs))
  }

  predicate Lower(c: Condition) {
    c.Range? && (c.cmp.Greater? || c.cmp.GreaterEqual?)
  }

  predicate Upper(c: Condition) {
    c.Range? && (c.cmp.Less? || c.cmp.LessEqual?)
  }

  /** At most one lower and one upper bound for a key. */
  predicate OneBound(cs: seq<Condition>) {
    forall i, j | 0 <= i < j < |cs| && cs[i].Range? && cs[j].Range? && cs[i].key == cs[j].key ::
      Lower(cs[i]) != Lower(cs[j])
  }

  /** Exclusive bounds do not wrap. */
  predicate NoWrap(c: Condition) {
    c.Range? ==> !(c.cmp.Greater? && c.bound == MAX_INT64) && !(c.cmp.Less? && c.bound == MIN_INT64)
  }

  predicate WellFormed(cs: seq<Condition>) {
    && OneBound(cs)
    && (forall c | c in cs :: NoWrap(c) && NoSlash(c.key) && c.key != TX_HASH)
    && (forall c | c in cs && c.Equal? :: NoSlash(Shown(c.operand)) && (c.key == TX_HEIGHT ==> c.operand.Int?))
  }
}
