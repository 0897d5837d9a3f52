/**
 * calculate_overlap_region_by_chaining: split the candidate anchors of one
 * query read into buckets (maximal runs with the same target read and
 * strand), chain every bucket of another read with chain_DP and file the
 * resulting region into the overlap list.
 */
module ByChaining {
  import opened FakeCigars
  import opened Regions
  import opened Chaining
  import opened ChainDp
  import opened OverlapList
  import opened OverlapAlloc

  /** The max_skip every bucket is chained with. */
  const MAX_SKIP: int := 25

  /** Two anchors belong to the same bucket. */
  predicate SameBucket(h: Anchor, k: Anchor) {
    h.readID == k.readID && h.strand == k.strand
  }

  /** Within a bucket, neighbouring anchors are ordered by target offset (the
      order the candidate collection leaves them in). */
  predicate BucketsSorted(c: seq<Anchor>) {
    forall j :: 0 <= j < |c| - 1 && SameBucket(c[j], c[j + 1]) ==> c[j].offset <= c[j + 1].offset
  }

  /** Anchors of the query read readID on known target reads, inside both reads. */
  predicate CandidatesOk(c: seq<Anchor>, readID: int, readLengths: seq<int>) {
    ReadLengthsOk(readLengths) && 0 <= readID < |readLengths|
    && forall j :: 0 <= j < |c| ==>
         AnchorOk(c[j]) && 0 <= c[j].readID < |readLengths|
         && c[j].self_offset < readLengths[readID] && c[j].offset < readLengths[c[j].readID]
  }

  /** The end of the bucket of c[i], looking from j on: the first position
      whose anchor lies in another bucket, or |c|. */
  function BucketEnd(c: seq<Anchor>, i: nat, j: nat): (e: nat)
    requires i < j <= |c|
    ensures j <= e <= |c|
    ensures forall k :: j <= k < e ==> SameBucket(c[i], c[k])
    ensures e < |c| ==> !SameBucket(c[i], c[e])
    decreases |c| - j
  {
    if j < |c| && SameBucket(c[i], c[j]) then BucketEnd(c, i, j + 1) else j
  }

  /** The buckets chained from position i on, as (begin, end) pairs in order:
      the maximal runs of one target and strand, except those of the query
      read itself. */
  /** Position i of c starts a bucket, or is the end of c. */
  predicate Boundary(c: seq<Anchor>, i: int) {
    i == 0 || i == |c| || (0 < i < |c| && !SameBucket(c[i - 1], c[i]))
  }

  /** The end of a bucket is a boundary. */
  lemma BucketEndBoundary(c: seq<Anchor>, i: nat)
    requires i < |c|
    ensures Boundary(c, BucketEnd(c, i, i + 1))
  {
    var e := BucketEnd(c, i, i + 1);
    if e < |c| && e - 1 > i {
      assert SameBucket(c[i], c[e - 1]);
    }
  }

  /** [b, e) is a maximal run of one target and strand in c. */
  predicate MaximalRun(c: seq<Anchor>, b: int, e: int) {
    0 <= b < e <= |c| && e == BucketEnd(c, b, b + 1) && (b == 0 || !SameBucket(c[b - 1], c[b]))
  }

  /** The buckets chained from position i on, a bucket boundary, as (begin,
      end) pairs in order: the maximal runs of one target and strand, except
      those of the query read itself. */
  function ChainedBuckets(c: seq<Anchor>, readID: int, i: nat): (bs: seq<(nat, nat)>)
    requires i <= |c|
    decreases |c| - i
  {
    if i == |c| then []
    else
      var e := BucketEnd(c, i, i + 1);
      if c[i].readID == readID then ChainedBuckets(c, readID, e)
      else [(i, e)] + ChainedBuckets(c, readID, e)
  }

  /** Each chained bucket is a maximal run on another read than the query,
      and the buckets follow each other without overlap. */
  lemma {:induction false} ChainedBucketsMaximal(c: seq<Anchor>, readID: int, i: nat, bs: seq<(nat, nat)>)
    requires i <= |c| && Boundary(c, i) && bs == ChainedBuckets(c, readID, i)
    ensures forall k :: 0 <= k < |bs| ==>
              i <= bs[k].0 && MaximalRun(c, bs[k].0, bs[k].1) && c[bs[k].0].readID != readID
    ensures forall k :: 0 <= k < |bs| - 1 ==> bs[k].1 <= bs[k + 1].0
    decreases |c| - i
  {
    if i < |c| {
      var e := BucketEnd(c, i, i + 1);
      BucketEndBoundary(c, i);
      var rest := ChainedBuckets(c, readID, e);
      ChainedBucketsMaximal(c, readID, e, rest);
      if c[i].readID != readID {
        assert bs == [(i, e)] + rest;
        assert MaximalRun(c, i, e);
        assert forall k :: 1 <= k < |bs| ==> bs[k] == rest[k - 1];
      } else {
        assert bs == rest;
      }
    }
  }

  /** Every anchor on another read than the query lies in one of the chained
      buckets. */
  lemma {:induction false} ChainedBucketsCover(c: seq<Anchor>, readID: int, i: nat, j: nat, bs: seq<(nat, nat)>)
    requires i <= j < |c| && c[j].readID != readID
    requires Boundary(c, i) && bs == ChainedBuckets(c, readID, i)
    ensures exists k :: 0 <= k < |bs| && bs[k].0 <= j < bs[k].1
    decreases |c| - i
  {
    var e := BucketEnd(c, i, i + 1);
    BucketEndBoundary(c, i);
    var rest := ChainedBuckets(c, readID, e);
    if j < e {
      assert SameBucket(c[i], c[j]);
      assert bs == [(i, e)] + rest;
      assert bs[0].0 <= j < bs[0].1;
    } else {
      ChainedBucketsCover(c, readID, e, j, rest);
      var k :| 0 <= k < |rest| && rest[k].0 <= j < rest[k].1;
      if c[i].readID != readID {
        assert bs == [(i, e)] + rest;
        assert bs[k + 1] == rest[k];
      } else {
        assert bs == rest;
      }
    }
  }

  /** The inner loop: the bucket starting at i ends just before e. */
  method NextRun(c: seq<Anchor>, i: nat) returns (e: nat)
    requires i < |c|
    ensures e == BucketEnd(c, i, i + 1)
  {
    e := i + 1;
    while e < |c| && c[i].readID == c[e].readID && c[i].strand == c[e].strand
      invariant i < e <= |c|
      invariant BucketEnd(c, i, e) == BucketEnd(c, i, i + 1)
    {
      e := e + 1;
    }
  }

  /** Neighbourwise order inside a bucket is order. */
  lemma {:induction false} BucketOrdered(c: seq<Anchor>, i: nat, e: nat, p: nat, q: nat)
    requires BucketsSorted(c) && i <= p <= q < e <= |c|
    requires forall k :: i <= k < e ==> SameBucket(c[i], c[k])
    ensures c[p].offset <= c[q].offset
    decreases q - p
  {
    if p < q {
      BucketOrdered(c, i, e, p, q - 1);
      assert SameBucket(c[q - 1], c[q]) by {
        assert SameBucket(c[i], c[q - 1]) && SameBucket(c[i], c[q]);
      }
    }
  }

  lemma BucketSorted(c: seq<Anchor>, i: nat, e: nat)
    requires BucketsSorted(c) && i < e <= |c|
    requires forall k :: i <= k < e ==> SameBucket(c[i], c[k])
    ensures SortedByOffset(c[i..e])
  {
    forall p, q | 0 <= p < q < e - i ensures c[i..e][p].offset <= c[i..e][q].offset {
      BucketOrdered(c, i, e, i + p, i + q);
    }
  }

  /** Recording an anchor keeps a trace on the query read. */
  lemma RecordBounds(t: seq<(int, int)>, site: int, g: int, reverse: bool, xLen: int)
    requires |t| >= 1 && TraceOk(t, xLen) && 0 <= site < xLen && -2 * MAX_COORD < g < 2 * MAX_COORD
    ensures TraceOk(Record(t, site, g, reverse), xLen)
  {
  }

  /** Every trace chain_DP records lies on the query read, with shifts less
      than two coordinate ranges. */
  lemma {:induction false} WalkTraceBounds(a: seq<Anchor>, m: int, c: seq<int>, reverse: bool, xLen: int)
    requires 0 <= m < |a| && InRange(c, |a|) && AnchorsOk(a)
    requires forall k :: 0 <= k < |a| ==> a[k].self_offset < xLen
    ensures TraceOk(WalkTrace(a, m, c, reverse), xLen)
    decreases |c|
  {
    if |c| > 0 {
      var c' := c[..|c| - 1];
      var k := c[|c| - 1];
      assert InRange(c', |a|) by {
        forall j | 0 <= j < |c'| ensures 0 <= c'[j] < |a| {
          assert c'[j] == c[j];
        }
      }
      WalkTraceBounds(a, m, c', reverse, xLen);
      assert AnchorOk(a[k]) && AnchorOk(a[m]);
      RecordBounds(WalkTrace(a, m, c', reverse), a[k].self_offset, Gap(a, m, k), reverse, xLen);
    }
  }

  /** The DP state and the region that chaining one bucket leaves behind. */
  datatype Chained = Chained(score: seq<int>, pre: seq<int>, indels: seq<int>, selfLength: seq<int>,
                             los: seq<int>, m: int, region: OverlapRegion)

  /** What chain_DP on the bucket c[i..e], with tmp as the region buffer,
      leaves: the chain arrays are consistent and filled for the bucket (by
      the fast path when it applies, by the DP otherwise), m is the best chain
      end, and the region runs from the start of m's chain to m, between the
      query and the bucket's target on the bucket's strand, with m's score,
      m's extended span as overlapLen and the trace of m's chain. */
  ghost predicate BucketChained(c: seq<Anchor>, i: nat, e: nat, tmp: OverlapRegion, readID: int,
                                readLengths: seq<int>, bw: Band, minSc: int, maxSize: int,
                                penalty: Penalty, ch: Chained)
  {
    i < e <= |c| && 0 <= readID < |readLengths| && 0 <= c[i].readID < |readLengths|
    && var a := c[i..e];
       var xLen, yLen := readLengths[readID], readLengths[c[i].readID];
       ChainConsistent(a, ch.pre, ch.indels, ch.selfLength, bw, |a|)
       && (FastPathOk(a, bw, maxSize) ==>
             FastFilled(a, ch.score, ch.pre, ch.indels, ch.selfLength, |a|, minSc, penalty))
       && (!FastPathOk(a, bw, maxSize) ==>
             DPFilled(a, ch.score, ch.pre, ch.indels, ch.selfLength, ch.los, |a|, minSc, bw, MAX_SKIP, penalty))
       && |a| <= |ch.score| && IsBestEnd(a, ch.score, ch.m, xLen, yLen)
       && var s := ChainStart(ch.pre, ch.m);
          var result := tmp.(x_id := readID, x_pos_strand := c[i].strand, y_id := c[i].readID, y_pos_strand := 0);
          ch.region == result.(x_pos_s := a[s].self_offset, y_pos_s := a[s].offset,
                               x_pos_e := a[ch.m].self_offset, y_pos_e := a[ch.m].offset,
                               shared_seed := ch.score[ch.m], overlapLen := AnchorSpan(a[ch.m], xLen, yLen),
                               f_cigar := ch.region.f_cigar)
          && RegionOk(ch.region, readLengths)
          && InRange(Chain(ch.pre, ch.m), |a|)
          && Trace(ch.region.f_cigar) == WalkTrace(a, ch.m, Chain(ch.pre, ch.m), c[i].strand == 1)
  }

  /** chain_DP on the bucket c[i..e], giving the region the append takes. */
  method ChainBucket(c: seq<Anchor>, i: nat, e: nat, dp: ChainData, tmp: OverlapRegion, readID: int,
                     readLengths: seq<int>, bw: Band, minSc: int, maxSize: int, penalty: Penalty)
    returns (r: OverlapRegion, m: int, ghost los: seq<int>)
    requires CandidatesOk(c, readID, readLengths) && BucketsSorted(c) && i < e <= |c|
    requires forall k :: i <= k < e ==> SameBucket(c[i], c[k])
    requires dp.Valid() && tmp.Valid() && bw.Valid() && minSc >= 0
    modifies dp
    ensures dp.Valid() && dp.size >= e - i + 1
    ensures BucketChained(c, i, e, tmp, readID, readLengths, bw, minSc, maxSize, penalty,
                          Chained(dp.score, dp.pre, dp.indels, dp.selfLength, los, m, r))
  {
    var a := c[i..e];
    var xLen, yLen := readLengths[readID], readLengths[c[i].readID];
    BucketSorted(c, i, e);
    BucketAnchors(c, i, e, readID, readLengths);
    var result := tmp.(x_id := readID, x_pos_strand := c[i].strand, y_id := c[i].readID, y_pos_strand := 0);
    r, m, los := ChainDP(a, dp, result, bw, MAX_SKIP, xLen, yLen, minSc, maxSize, penalty);
    ghost var ch := Chain(dp.pre, m);
    ghost var s := ChainStart(dp.pre, m);
    assert InRange(ch, |a|);
    WalkTraceBounds(a, m, ch, result.x_pos_strand == 1, xLen);
    assert AnchorOk(a[s]) && a[s].self_offset < xLen && a[s].offset < yLen;
    assert AnchorOk(a[m]) && a[m].self_offset < xLen && a[m].offset < yLen;
    assert RegionOk(r, readLengths);
  }

  /** The anchors of a bucket: well formed, in the bucket of h, and inside the
      query (length xLen) and the target (length yLen). */
  predicate BucketOk(a: seq<Anchor>, h: Anchor, xLen: int, yLen: int) {
    AnchorsOk(a)
    && forall k :: 0 <= k < |a| ==> SameBucket(h, a[k]) && a[k].self_offset < xLen && a[k].offset < yLen
  }

  lemma BucketAnchors(c: seq<Anchor>, i: nat, e: nat, readID: int, readLengths: seq<int>)
    requires CandidatesOk(c, readID, readLengths) && i < e <= |c|
    requires forall k :: i <= k < e ==> SameBucket(c[i], c[k])
    ensures BucketOk(c[i..e], c[i], readLengths[readID], readLengths[c[i].readID])
  {
    forall k | 0 <= k < e - i
      ensures AnchorOk(c[i..e][k]) && SameBucket(c[i], c[i..e][k])
              && c[i..e][k].self_offset < readLengths[readID] && c[i..e][k].offset < readLengths[c[i].readID]
    {
      assert c[i..e][k] == c[i + k];
    }
  }

  /** The relation the append's contract sets up between the list (l1, n1)
      before, the region r, and the buffer tmpE and list (l, n) after: a
      region that loses against the last entry leaves everything as it was;
      otherwise r, extended to the read ends, is stored at the slot the
      dedup picks and the list ends just after it. */
  ghost predicate Filed(l1: seq<OverlapRegion>, n1: nat, r: OverlapRegion, readLengths: seq<int>,
                        addBegEnd: int, tmpE: OverlapRegion, l: seq<OverlapRegion>, n: nat)
  {
    n1 <= |l1| && RegionOk(r, readLengths)
    && match DedupSlot(l1[..n1], r)
       case None => tmpE == r && n == n1 && l == Grown(l1, n1)
       case Some(p) =>
         tmpE == ExtendTmp(r, readLengths) && n == p + 1
         && StoredAt(l, Grown(l1, n1), p, r, tmpE, readLengths, addBegEnd)
  }

  /** One bucket's pass: what chaining left, and the region buffer and the
      list after the append. */
  datatype Filing = Filing(chained: Chained, tmp: OverlapRegion, list: seq<OverlapRegion>, length: nat)

  /** The buffer and the list after the passes fs, starting from (l0, n0, tmp0). */
  function After(l0: seq<OverlapRegion>, n0: nat, tmp0: OverlapRegion, fs: seq<Filing>)
    : (st: (seq<OverlapRegion>, nat, OverlapRegion))
    ensures |fs| == 0 ==> st == (l0, n0, tmp0)
    ensures |fs| > 0 ==> st == (fs[|fs| - 1].list, fs[|fs| - 1].length, fs[|fs| - 1].tmp)
  {
    if |fs| == 0 then (l0, n0, tmp0) else (fs[|fs| - 1].list, fs[|fs| - 1].length, fs[|fs| - 1].tmp)
  }

  /** The buffer and the list the k-th of the passes fs starts from. */
  function Before(l0: seq<OverlapRegion>, n0: nat, tmp0: OverlapRegion, fs: seq<Filing>, k: nat)
    : (st: (seq<OverlapRegion>, nat, OverlapRegion))
    requires k <= |fs|
    ensures st == After(l0, n0, tmp0, fs[..k])
  {
    if k == 0 then (l0, n0, tmp0) else (fs[k - 1].list, fs[k - 1].length, fs[k - 1].tmp)
  }

  /** The pass f over the bucket b, started from the state st: the bucket is
      chained with st's buffer, and the region is filed into st's list. */
  ghost predicate PassOk(c: seq<Anchor>, readID: int, readLengths: seq<int>, bw: Band, minSc: int,
                         maxSize: int, penalty: Penalty, addBegEnd: int,
                         b: (nat, nat), st: (seq<OverlapRegion>, nat, OverlapRegion), f: Filing)
  {
    BucketChained(c, b.0, b.1, st.2, readID, readLengths, bw, minSc, maxSize, penalty, f.chained)
    && Filed(st.0, st.1, f.chained.region, readLengths, addBegEnd, f.tmp, f.list, f.length)
  }

  /** fs are the passes over the buckets bs, in order, each starting from the
      state the previous one left. */
  ghost predicate Filings(c: seq<Anchor>, readID: int, readLengths: seq<int>, bw: Band, minSc: int,
                          maxSize: int, penalty: Penalty, addBegEnd: int,
                          l0: seq<OverlapRegion>, n0: nat, tmp0: OverlapRegion,
                          bs: seq<(nat, nat)>, fs: seq<Filing>)
  {
    |fs| == |bs|
    && forall k {:trigger PassOk(c, readID, readLengths, bw, minSc, maxSize, penalty, addBegEnd,
                                 bs[k], Before(l0, n0, tmp0, fs, k), fs[k])} :: 0 <= k < |fs| ==>
         PassOk(c, readID, readLengths, bw, minSc, maxSize, penalty, addBegEnd,
                bs[k], Before(l0, n0, tmp0, fs, k), fs[k])
  }

  /** A region filed for the query read readID from the candidates c. */
  predicate FromCandidates(r: OverlapRegion, c: seq<Anchor>, readID: int, readLengths: seq<int>) {
    r.x_id == readID && r.y_id != readID && 0 <= readID < |readLengths| && 0 <= r.y_id < |readLengths|
    && (exists j :: 0 <= j < |c| && c[j].readID == r.y_id)
    && 0 <= r.x_pos_s && r.x_pos_e < readLengths[readID] && 0 <= r.y_pos_s && r.y_pos_e < readLengths[r.y_id]
  }

  /** Regions in use are the ones in use before, or ones filed from c. */
  ghost predicate OldOrFiled(l: seq<OverlapRegion>, n: nat, l0: seq<OverlapRegion>, n0: nat,
                             c: seq<Anchor>, readID: int, readLengths: seq<int>)
    requires n <= |l|
  {
    forall k :: 0 <= k < n ==>
      (k < n0 && k < |l0| && l[k] == l0[k]) || FromCandidates(l[k], c, readID, readLengths)
  }

  /** The region buffer before the first bucket. */
  const InitialTmp: OverlapRegion := ZeroRegion.(f_cigar := InitFakeCigar())

  /** calculate_overlap_region_by_chaining for the query read readID: the
      passes fs are one per chained bucket, in order, and leave the list as
      it is now. */
  method CalculateOverlapRegionByChaining(c: seq<Anchor>, dp: ChainData, ol: OverlapRegionAlloc,
                                          readID: int, readLengths: seq<int>, bw: Band, addBegEnd: int,
                                          minSc: int, maxSize: int, penalty: Penalty)
    returns (ghost fs: seq<Filing>)
    requires CandidatesOk(c, readID, readLengths) && BucketsSorted(c)
    requires dp.Valid() && ol.Valid() && bw.Valid() && minSc >= 0
    modifies dp, ol`list, ol`length, ol`size
    ensures dp.Valid() && ol.Valid()
    ensures Filings(c, readID, readLengths, bw, minSc, maxSize, penalty, addBegEnd,
                    old(ol.list), old(ol.length), InitialTmp, ChainedBuckets(c, readID, 0), fs)
    ensures After(old(ol.list), old(ol.length), InitialTmp, fs).0 == ol.list
    ensures After(old(ol.list), old(ol.length), InitialTmp, fs).1 == ol.length
    ensures AdjacentDistinct(old(ol.Used())) ==> AdjacentDistinct(ol.Used())
    ensures OldOrFiled(ol.list, ol.length, old(ol.list), old(ol.length), c, readID, readLengths)
  {
    fs := [];
    if |c| == 0 {
      ProgressDone(c, readID, readLengths, bw, minSc, maxSize, penalty, addBegEnd, ol.list, ol.length,
                   ChainedBuckets(c, readID, 0), [], [], ol.list, ol.length, InitialTmp);
      return;
    }
    ghost var l0, n0 := ol.list, ol.length;
    ghost var distinct0 := AdjacentDistinct(ol.Used());
    var tmp := InitialTmp;
    ZeroRegionValid();
    ghost var bs: seq<(nat, nat)> := [];
    var i: nat := 0;
    while i < |c|
      invariant dp.Valid() && ol.Valid() && tmp.Valid()
      invariant distinct0 ==> AdjacentDistinct(ol.Used())
      invariant OldOrFiled(ol.list, ol.length, l0, n0, c, readID, readLengths)
      invariant Progress(c, readID, readLengths, bw, minSc, maxSize, penalty, addBegEnd, l0, n0,
                         ChainedBuckets(c, readID, 0), i, bs, fs, ol.list, ol.length, tmp)
      decreases |c| - i
    {
      i, tmp, bs, fs := Pass(c, i, dp, ol, tmp, readID, readLengths, bw, addBegEnd, minSc, maxSize, penalty,
                             l0, n0, ChainedBuckets(c, readID, 0), bs, fs);
    }
    ProgressDone(c, readID, readLengths, bw, minSc, maxSize, penalty, addBegEnd, l0, n0,
                 ChainedBuckets(c, readID, 0), bs, fs, ol.list, ol.length, tmp);
  }

  /** At the end of the candidates, the passes are the ones over all chained
      buckets. */
  lemma ProgressDone(c: seq<Anchor>, readID: int, readLengths: seq<int>, bw: Band, minSc: int,
                     maxSize: int, penalty: Penalty, addBegEnd: int,
                     l0: seq<OverlapRegion>, n0: nat, all: seq<(nat, nat)>, bs: seq<(nat, nat)>,
                     fs: seq<Filing>, l: seq<OverlapRegion>, n: nat, tmp: OverlapRegion)
    requires Progress(c, readID, readLengths, bw, minSc, maxSize, penalty, addBegEnd, l0, n0,
                      all, |c|, bs, fs, l, n, tmp)
    ensures Filings(c, readID, readLengths, bw, minSc, maxSize, penalty, addBegEnd,
                    l0, n0, InitialTmp, all, fs)
    ensures After(l0, n0, InitialTmp, fs).0 == l && After(l0, n0, InitialTmp, fs).1 == n
  {
    assert ChainedBuckets(c, readID, |c|) == [];
    assert bs == bs + ChainedBuckets(c, readID, |c|);
  }

  /** The state between two passes of the outer loop at position i: the
      buckets bs before i and the ones from i on make up all, and the passes
      fs so far are the ones over bs and left the list (l, n) and the buffer
      tmp. */
  ghost predicate Progress(c: seq<Anchor>, readID: int, readLengths: seq<int>, bw: Band, minSc: int,
                           maxSize: int, penalty: Penalty, addBegEnd: int,
                           l0: seq<OverlapRegion>, n0: nat, all: seq<(nat, nat)>, i: nat, bs: seq<(nat, nat)>,
                           fs: seq<Filing>, l: seq<OverlapRegion>, n: nat, tmp: OverlapRegion)
  {
    i <= |c| && bs + ChainedBuckets(c, readID, i) == all
    && Filings(c, readID, readLengths, bw, minSc, maxSize, penalty, addBegEnd, l0, n0, InitialTmp, bs, fs)
    && After(l0, n0, InitialTmp, fs) == (l, n, tmp)
  }

  /** One pass of the outer loop: find the bucket at i, and chain and file it
      when its target is not the query. */
  method Pass(c: seq<Anchor>, i: nat, dp: ChainData, ol: OverlapRegionAlloc, tmp: OverlapRegion,
              readID: int, readLengths: seq<int>, bw: Band, addBegEnd: int,
              minSc: int, maxSize: int, penalty: Penalty,
              ghost l0: seq<OverlapRegion>, ghost n0: nat, ghost all: seq<(nat, nat)>,
              ghost bs: seq<(nat, nat)>, ghost fs: seq<Filing>)
    returns (i': nat, tmp': OverlapRegion, ghost bs': seq<(nat, nat)>, ghost fs': seq<Filing>)
    requires CandidatesOk(c, readID, readLengths) && BucketsSorted(c) && i < |c|
    requires dp.Valid() && ol.Valid() && tmp.Valid() && bw.Valid() && minSc >= 0
    requires Progress(c, readID, readLengths, bw, minSc, maxSize, penalty, addBegEnd, l0, n0,
                      all, i, bs, fs, ol.list, ol.length, tmp)
    requires OldOrFiled(ol.list, ol.length, l0, n0, c, readID, readLengths)
    modifies dp, ol`list, ol`length, ol`size
    ensures i < i' && dp.Valid() && ol.Valid() && tmp'.Valid()
    ensures AdjacentDistinct(old(ol.Used())) ==> AdjacentDistinct(ol.Used())
    ensures OldOrFiled(ol.list, ol.length, l0, n0, c, readID, readLengths)
    ensures Progress(c, readID, readLengths, bw, minSc, maxSize, penalty, addBegEnd, l0, n0,
                     all, i', bs', fs', ol.list, ol.length, tmp')
  {
    i' := NextRun(c, i);
    BucketsStep(c, readID, bs, i, i', all);
    if readID == c[i].readID {
      tmp', bs', fs' := tmp, bs, fs;
      return;
    }
    ghost var f;
    tmp', f := FileBucket(c, i, i', dp, ol, tmp, readID, readLengths, bw, addBegEnd, minSc, maxSize, penalty,
                          l0, n0, bs, fs);
    bs', fs' := bs + [(i, i')], fs + [f];
  }

  /** One pass of the outer loop over a bucket of another read: chain it with
      the buffer tmp and file the region, extending the passes fs by one. */
  method FileBucket(c: seq<Anchor>, beg: nat, e: nat, dp: ChainData, ol: OverlapRegionAlloc, tmp: OverlapRegion,
                    readID: int, readLengths: seq<int>, bw: Band, addBegEnd: int,
                    minSc: int, maxSize: int, penalty: Penalty,
                    ghost l0: seq<OverlapRegion>, ghost n0: nat, ghost bs: seq<(nat, nat)>, ghost fs: seq<Filing>)
    returns (tmp': OverlapRegion, ghost f: Filing)
    requires CandidatesOk(c, readID, readLengths) && BucketsSorted(c) && beg < e <= |c|
    requires forall k :: beg <= k < e ==> SameBucket(c[beg], c[k])
    requires c[beg].readID != readID
    requires dp.Valid() && ol.Valid() && tmp.Valid() && bw.Valid() && minSc >= 0
    requires Filings(c, readID, readLengths, bw, minSc, maxSize, penalty, addBegEnd, l0, n0, InitialTmp, bs, fs)
    requires After(l0, n0, InitialTmp, fs) == (ol.list, ol.length, tmp)
    requires OldOrFiled(ol.list, ol.length, l0, n0, c, readID, readLengths)
    modifies dp, ol`list, ol`length, ol`size
    ensures dp.Valid() && ol.Valid() && tmp'.Valid()
    ensures AdjacentDistinct(old(ol.Used())) ==> AdjacentDistinct(ol.Used())
    ensures OldOrFiled(ol.list, ol.length, l0, n0, c, readID, readLengths)
    ensures Filings(c, readID, readLengths, bw, minSc, maxSize, penalty, addBegEnd, l0, n0, InitialTmp,
                    bs + [(beg, e)], fs + [f])
    ensures After(l0, n0, InitialTmp, fs + [f]) == (ol.list, ol.length, tmp')
  {
    var r, m;
    ghost var los;
    r, m, los := ChainBucket(c, beg, e, dp, tmp, readID, readLengths, bw, minSc, maxSize, penalty);
    ghost var ch := Chained(dp.score, dp.pre, dp.indels, dp.selfLength, los, m, r);
    ghost var l1, n1 := ol.list, ol.length;
    var ret;
    ret, tmp' := ol.Append(r, readLengths, addBegEnd);
    FiledStep(l1, n1, ol.list, ol.length, r, tmp', readLengths, addBegEnd, ret, l0, n0, c, readID, beg);
    f := Filing(ch, tmp', ol.list, ol.length);
    assert PassOk(c, readID, readLengths, bw, minSc, maxSize, penalty, addBegEnd,
                  (beg, e), After(l0, n0, InitialTmp, fs), f);
    FilingsSnoc(c, readID, readLengths, bw, minSc, maxSize, penalty, addBegEnd, l0, n0, InitialTmp,
                bs, fs, (beg, e), f);
  }

  /** Taking the bucket [i, e) off the buckets still to come. */
  lemma BucketsStep(c: seq<Anchor>, readID: int, bs: seq<(nat, nat)>, i: nat, e: nat, all: seq<(nat, nat)>)
    requires i < |c| && e == BucketEnd(c, i, i + 1)
    requires bs + ChainedBuckets(c, readID, i) == all
    ensures c[i].readID == readID ==> bs + ChainedBuckets(c, readID, e) == all
    ensures c[i].readID != readID ==> (bs + [(i, e)]) + ChainedBuckets(c, readID, e) == all
  {
    var rest := ChainedBuckets(c, readID, e);
    if c[i].readID != readID {
      assert ChainedBuckets(c, readID, i) == [(i, e)] + rest;
      assert (bs + [(i, e)]) + rest == bs + ([(i, e)] + rest);
    } else {
      assert ChainedBuckets(c, readID, i) == rest;
    }
  }

  /** One more pass, started from the state the passes fs left, extends them. */
  lemma FilingsSnoc(c: seq<Anchor>, readID: int, readLengths: seq<int>, bw: Band, minSc: int,
                    maxSize: int, penalty: Penalty, addBegEnd: int,
                    l0: seq<OverlapRegion>, n0: nat, tmp0: OverlapRegion,
                    bs: seq<(nat, nat)>, fs: seq<Filing>, b: (nat, nat), f: Filing)
    requires Filings(c, readID, readLengths, bw, minSc, maxSize, penalty, addBegEnd, l0, n0, tmp0, bs, fs)
    requires PassOk(c, readID, readLengths, bw, minSc, maxSize, penalty, addBegEnd,
                    b, After(l0, n0, tmp0, fs), f)
    ensures Filings(c, readID, readLengths, bw, minSc, maxSize, penalty, addBegEnd, l0, n0, tmp0,
                    bs + [b], fs + [f])
    ensures After(l0, n0, tmp0, fs + [f]) == (f.list, f.length, f.tmp)
  {
    var bs', fs' := bs + [b], fs + [f];
    forall k | 0 <= k < |fs|
      ensures PassOk(c, readID, readLengths, bw, minSc, maxSize, penalty, addBegEnd,
                     bs'[k], Before(l0, n0, tmp0, fs', k), fs'[k])
    {
      assert bs'[k] == bs[k] && fs'[k] == fs[k];
      assert Before(l0, n0, tmp0, fs', k) == Before(l0, n0, tmp0, fs, k);
    }
    assert Before(l0, n0, tmp0, fs', |fs|) == After(l0, n0, tmp0, fs) by {
      assert fs'[..|fs|] == fs;
    }
  }

  /** One append keeps OldOrFiled, and is a filing. */
  lemma FiledStep(l1: seq<OverlapRegion>, n1: nat, l: seq<OverlapRegion>, n: nat, r: OverlapRegion,
                  tmpE: OverlapRegion, readLengths: seq<int>, addBegEnd: int, ret: int,
                  l0: seq<OverlapRegion>, n0: nat, c: seq<Anchor>, readID: int, j: int)
    requires n1 <= |l1| && n <= |l| && RegionOk(r, readLengths)
    requires 0 <= j < |c| && r.x_id == readID && r.y_id == c[j].readID != readID
    requires OldOrFiled(l1, n1, l0, n0, c, readID, readLengths)
    requires ret == 0 <==> DedupSlot(l1[..n1], r).None?
    requires ret == 0 ==> tmpE == r && n == n1 && l == Grown(l1, n1)
    requires ret != 0 ==>
               var p := DedupSlot(l1[..n1], r).value;
               ret == 1 && tmpE == ExtendTmp(r, readLengths) && n == p + 1
               && StoredAt(l, Grown(l1, n1), p, r, tmpE, readLengths, addBegEnd)
    ensures OldOrFiled(l, n, l0, n0, c, readID, readLengths)
    ensures Filed(l1, n1, r, readLengths, addBegEnd, tmpE, l, n)
  {
    var g := Grown(l1, n1);
    if ret != 0 {
      var p := DedupSlot(l1[..n1], r).value;
      assert FromCandidates(l[p], c, readID, readLengths);
      forall k | 0 <= k < p ensures l[k] == l1[k] {
        assert l[k] == g[k];
      }
    }
  }
}
