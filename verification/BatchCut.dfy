/**
 createNextDABatch of block/submit.go: how many stored blocks go into the next batch.
 */
module BatchCut {
  import opened Varint
  import opened Messages

  /** What LoadBlock and LoadCommit find, by height. */
  datatype Stored = Stored(blocks: map<nat, Block>, commits: map<nat, Commit>)

  predicate Loads(st: Stored, height: nat) {
    height in st.blocks && height in st.commits
  }

  function BlockAt(st: Stored, height: nat): Block
    requires Loads(st, height)
  {
    st.blocks[height]
  }

  function CommitAt(st: Stored, height: nat): Commit
    requires Loads(st, height)
  {
    st.commits[height]
  }

  /** The i-th height from `start` on, in 64 bits. */
  function Nth(start: uint64, i: nat): uint64 {
    (start + i) % TWO_64
  }

  predicate AllLoad(st: Stored, start: uint64, count: nat) {
    forall i | 0 <= i < count :: Loads(st, Nth(start, i))
  }

  /** The loop does not end before `count` blocks because of the end height; it never does because of the
      largest one. */
  predicate Wanted(start: uint64, end: uint64, count: nat) {
    end == TWO_64 - 1 || start + count <= end + 1
  }

  /** The first `count` blocks and commits from `start` on, under the given end height. */
  function Prefix(st: Stored, start: uint64, end: uint64, count: nat): (b: Batch)
    requires AllLoad(st, start, count)
    ensures |b.blocks| == |b.commits| == count && b.startHeight == start && b.endHeight == end
    ensures forall i | 0 <= i < count ::
              b.blocks[i] == BlockAt(st, Nth(start, i)) && b.commits[i] == CommitAt(st, Nth(start, i))
  {
    Batch(start, end, seq(count, i requires 0 <= i < count => BlockAt(st, Nth(start, i))),
          seq(count, i requires 0 <= i < count => CommitAt(st, Nth(start, i))))
  }

  /** The height before the next one to load, in 64 bits. */
  function LastHeight(start: uint64, count: nat): uint64 {
    (start + count + TWO_64 - 1) % TWO_64
  }

  /** How many blocks the code makes room for, in 64 bits. */
  function Capacity(start: uint64, end: uint64): uint64 {
    (end + 1 + TWO_64 - start) % TWO_64
  }

  /** The number of heights asked for, when there are any; a wrapped number when the range is more than empty. */
  lemma CapacityCounts(start: uint64, end: uint64)
    ensures start <= end && end - start < TWO_64 - 1 ==> Capacity(start, end) == end - start + 1
    ensures start == end + 1 || end - start == TWO_64 - 1 ==> Capacity(start, end) == 0
    ensures end + 1 < start ==> Capacity(start, end) == TWO_64 - (start - end - 1)
  {
  }

  /** CannotLoad tells how many blocks did load before. */
  datatype Outcome = Created(batch: Batch) | CannotLoad(after: nat) | Panicked

  lemma {:induction false} BlocksGrow(xs: seq<Block>, ys: seq<Block>)
    ensures BlocksSize(xs) <= BlocksSize(xs + ys)
  {
    hide PayloadSize, BlockSize;
    if xs != [] {
      assert (xs + ys)[0] == xs[0] && (xs + ys)[1..] == xs[1..] + ys;
      BlocksGrow(xs[1..], ys);
    }
  }

  lemma {:induction false} CommitsGrow(xs: seq<Commit>, ys: seq<Commit>)
    ensures CommitsSize(xs) <= CommitsSize(xs + ys)
  {
    hide PayloadSize, CommitSize;
    if xs != [] {
      assert (xs + ys)[0] == xs[0] && (xs + ys)[1..] == xs[1..] + ys;
      CommitsGrow(xs[1..], ys);
    }
  }

  /** Every wanted prefix of more than n blocks is over the limit. */
  ghost predicate LongerExceed(st: Stored, start: uint64, end: uint64, n: nat, limit: nat) {
    forall k | n < k && Wanted(start, end, k) && AllLoad(st, start, k) :: limit < BatchSize(Prefix(st, start, end, k))
  }

  lemma NextExceeds(st: Stored, start: uint64, end: uint64, n: nat, limit: nat)
    requires AllLoad(st, start, n + 1) && limit < BatchSize(Prefix(st, start, end, n + 1))
    ensures LongerExceed(st, start, end, n, limit)
  {
    hide BatchSize;
    forall k | n < k && Wanted(start, end, k) && AllLoad(st, start, k)
      ensures limit < BatchSize(Prefix(st, start, end, k))
    {
      PrefixGrows(st, start, end, n + 1, k);
    }
  }

  lemma PrefixNext(st: Stored, start: uint64, end: uint64, n: nat)
    requires AllLoad(st, start, n) && Loads(st, Nth(start, n))
    ensures AllLoad(st, start, n + 1)
    ensures var b := Prefix(st, start, end, n);
            Prefix(st, start, end, n + 1) ==
            Batch(start, end, b.blocks + [BlockAt(st, Nth(start, n))], b.commits + [CommitAt(st, Nth(start, n))])
  {
  }

  /** Longer prefixes are never smaller. */
  lemma PrefixGrows(st: Stored, start: uint64, end: uint64, m: nat, n: nat)
    requires m <= n && AllLoad(st, start, n)
    ensures AllLoad(st, start, m)
    ensures BatchSize(Prefix(st, start, end, m)) <= BatchSize(Prefix(st, start, end, n))
  {
    hide UintSize, BlocksSize, CommitsSize;
    var short, long := Prefix(st, start, end, m), Prefix(st, start, end, n);
    assert long.blocks == short.blocks + long.blocks[m..];
    assert long.commits == short.commits + long.commits[m..];
    BlocksGrow(short.blocks, long.blocks[m..]);
    CommitsGrow(short.commits, long.commits[m..]);
  }

  /** Lowering the end height never makes a batch larger. */
  lemma LowerEndFits(b: Batch, end: uint64)
    requires end <= b.endHeight
    ensures BatchSize(b.(endHeight := end)) <= BatchSize(b)
  {
    SovIsLength(end);
    SovIsLength(b.endHeight);
    LengthMonotone(end, b.endHeight);
    hide Sov, BlocksSize, CommitsSize, Encoded;
  }

  /** Every block takes space. */
  lemma {:induction false} BlocksTakeSpace(blocks: seq<Block>)
    ensures |blocks| <= BlocksSize(blocks)
  {
    if blocks != [] {
      BlocksTakeSpace(blocks[1..]);
    }
  }

  /** How the loop's 64-bit height relates to its position. */
  lemma Position(start: uint64, end: uint64, n: nat)
    requires n == 0 || Wanted(start, end, n)
    ensures Nth(start, n) <= end <==> Wanted(start, end, n + 1)
    ensures n > 0 && end < TWO_64 - 1 ==> LastHeight(start, n) == start + n - 1
    ensures n > 0 ==> LastHeight(start, n) <= end
    ensures LastHeight(start, n) == (Nth(start, n) + TWO_64 - 1) % TWO_64
    ensures Nth(start, n + 1) == (Nth(start, n) + 1) % TWO_64
  {
  }

  /** The result holds the stored blocks and commits from `start` on in order, within the limit even
      under its final end height, and stops short only where every longer prefix, sized under the
      requested end height, is over the limit. It fails to load exactly where a height is missing that
      the limit would have let in, and panics exactly when there is no room for the capacity. */
  method CreateNextDABatch(st: Stored, start: uint64, end: uint64, limit: nat, room: nat) returns (r: Outcome)
    ensures start <= end && end - start < TWO_64 - 1 ==> (r.Panicked? <==> room < end - start + 1)
    ensures start == end + 1 || end - start == TWO_64 - 1 ==> !r.Panicked?
    ensures end + 1 < start ==> (r.Panicked? <==> room < TWO_64 - (start - end - 1))
    ensures r.Created? ==>
              && var n := |r.batch.blocks|;
              && (n > 0 ==> Wanted(start, end, n)) && AllLoad(st, start, n)
              && r.batch == Prefix(st, start, LastHeight(start, n), n)
              && (n > 0 && end < TWO_64 - 1 ==> r.batch.endHeight == start + n - 1)
              && (n > 0 ==> BatchSize(r.batch) <= limit)
              && LongerExceed(st, start, end, n, limit)
              && (Wanted(start, end, n + 1) ==> Loads(st, Nth(start, n)))
    ensures r.CannotLoad? ==>
              && Wanted(start, end, r.after + 1) && !Loads(st, Nth(start, r.after)) && AllLoad(st, start, r.after)
              && (r.after > 0 ==> BatchSize(Prefix(st, start, end, r.after)) <= limit)
  {
    hide BatchSize, LongerExceed, Prefix, Nth, Wanted, LastHeight, Capacity, Loads;
    CapacityCounts(start, end);
    if Capacity(start, end) > room {
      return Panicked;
    }
    var blocks: seq<Block> := [];
    var commits: seq<Commit> := [];
    var height := start;
    NothingYet(st, start, end);
    while height <= end
      invariant height == Nth(start, |blocks|) && AllLoad(st, start, |blocks|)
      invariant |blocks| > 0 ==> Wanted(start, end, |blocks|)
      invariant Batch(start, end, blocks, commits) == Prefix(st, start, end, |blocks|)
      invariant |blocks| > 0 ==> |blocks| <= BatchSize(Batch(start, end, blocks, commits)) <= limit
      decreases limit + 1 - |blocks|
    {
      Position(start, end, |blocks|);
      if height !in st.blocks || height !in st.commits {
        Missing(st, height);
        return CannotLoad(|blocks|);
      }
      Present(st, height);
      PrefixNext(st, start, end, |blocks|);
      var blocks' := blocks + [st.blocks[height]];
      var commits' := commits + [st.commits[height]];
      if BatchSize(Batch(start, end, blocks', commits')) > limit {
        NextExceeds(st, start, end, |blocks|, limit);
        break;
      }
      TakesSpace(Batch(start, end, blocks', commits'));
      blocks, commits := blocks', commits';
      height := (height + 1) % TWO_64;
    }
    Position(start, end, |blocks|);
    var last := (height + TWO_64 - 1) % TWO_64;
    if blocks != [] {
      LowerEndFits(Batch(start, end, blocks, commits), last);
    }
    Renamed(st, start, end, last, |blocks|);
    if height > end {
      NothingLonger(st, start, end, |blocks|, limit);
    }
    return Created(Batch(start, last, blocks, commits));
  }

  lemma NothingYet(st: Stored, start: uint64, end: uint64)
    ensures start == Nth(start, 0) && Batch(start, end, [], []) == Prefix(st, start, end, 0)
  {
  }

  lemma Missing(st: Stored, height: nat)
    requires height !in st.blocks || height !in st.commits
    ensures !Loads(st, height)
  {
  }

  lemma Present(st: Stored, height: nat)
    requires height in st.blocks && height in st.commits
    ensures Loads(st, height)
  {
  }

  lemma TakesSpace(b: Batch)
    ensures |b.blocks| <= BatchSize(b)
  {
    BlocksTakeSpace(b.blocks);
  }

  lemma Renamed(st: Stored, start: uint64, end: uint64, end': uint64, n: nat)
    requires AllLoad(st, start, n)
    ensures Prefix(st, start, end', n) == Prefix(st, start, end, n).(endHeight := end')
  {
  }

  lemma NothingLonger(st: Stored, start: uint64, end: uint64, n: nat, limit: nat)
    requires !Wanted(start, end, n + 1)
    ensures LongerExceed(st, start, end, n, limit)
  {
  }
}
