/**
 * Banded chaining of the anchors shared by one query read ("self", x) and one
 * target read (y) on one strand.  Anchors arrive sorted by their target
 * offset; every anchor picks at most one predecessor (pre), and the chain that
 * ends in the best-scoring anchor is walked back into an overlap region and
 * its breakpoint trace.
 *
 * Floating point is not modelled: the band test "indels > bw * length" is a
 * rational threshold num/den, and the gap-rate penalty subtracted from each
 * step's score is a function parameter.
 */
module Chaining {
  import opened FakeCigars
  import opened Regions

  /** Coordinates and read lengths stay below this bound, so that every
      int32/uint32 conversion of the source is exact. */
  const MAX_COORD: int := 0x1000_0000

  /** A seed hit between the self read and a candidate read (k_mer_hit). */
  datatype Anchor = Anchor(readID: int, strand: int, offset: int, self_offset: int, good: bool)

  predicate AnchorOk(h: Anchor) {
    0 <= h.offset < MAX_COORD && 0 <= h.self_offset < MAX_COORD
  }

  predicate AnchorsOk(a: seq<Anchor>) {
    forall i :: 0 <= i < |a| ==> AnchorOk(a[i])
  }

  /** The anchors of one bucket are ordered by target offset. */
  predicate SortedByOffset(a: seq<Anchor>) {
    forall i, j :: 0 <= i < j < |a| ==> a[i].offset <= a[j].offset
  }

  /** The band-width threshold as the fraction num/den. */
  datatype Band = Band(num: nat, den: nat) {
    predicate Valid() { den > 0 }
  }

  /** indels <= bw * length, the negation of the source's rejection test. */
  predicate WithinBand(bw: Band, indels: int, length: int) {
    indels * bw.den <= length * bw.num
  }

  /** (long long)(gap_rate * score * bw_penalty) for a step of the given score
      whose chain has the given totals of indels and self length. */
  type Penalty = (int, int, int) -> int

  function Abs(x: int): int { if x < 0 then -x else x }
  function Min(x: int, y: int): int { if x < y then x else y }

  /** Self and target distance from anchor j to anchor i, and their difference. */
  function DSelf(a: seq<Anchor>, j: int, i: int): int
    requires 0 <= j < |a| && 0 <= i < |a|
  {
    a[i].self_offset - a[j].self_offset
  }

  function DPos(a: seq<Anchor>, j: int, i: int): int
    requires 0 <= j < |a| && 0 <= i < |a|
  {
    a[i].offset - a[j].offset
  }

  function GapLen(a: seq<Anchor>, j: int, i: int): int
    requires 0 <= j < |a| && 0 <= i < |a|
  {
    Abs(DPos(a, j, i) - DSelf(a, j, i))
  }

  /** Anchor j may precede anchor i: it lies before i on both reads
      (strictly on the self read, weakly on the target read). */
  predicate Linked(a: seq<Anchor>, j: int, i: int)
    requires 0 <= j < |a| && 0 <= i < |a|
  {
    j < i && a[j].self_offset < a[i].self_offset && a[j].offset <= a[i].offset
  }

  /** The per-anchor chain state is consistent for the first n anchors: each
      anchor starts a chain (pre = -1, no indels, no length) or extends the
      chain of an earlier linked anchor by one step, and every chain stays in
      the band. */
  ghost predicate ChainConsistent(a: seq<Anchor>, pre: seq<int>, indels: seq<int>,
                                  selfLength: seq<int>, bw: Band, n: int)
  {
    0 <= n <= |a| && n <= |pre| && n <= |indels| && n <= |selfLength|
    && (forall i :: 0 <= i < n ==> -1 <= pre[i] < i)
    && (forall i :: 0 <= i < n && pre[i] == -1 ==> indels[i] == 0 && selfLength[i] == 0)
    && (forall i :: 0 <= i < n && pre[i] != -1 ==>
          Linked(a, pre[i], i)
          && indels[i] == indels[pre[i]] + GapLen(a, pre[i], i)
          && selfLength[i] == selfLength[pre[i]] + DSelf(a, pre[i], i))
    && (forall i :: 0 <= i < n ==> WithinBand(bw, indels[i], selfLength[i]))
  }

  /** Sum of the indels along the pre chain ending at i (what debug_chain recomputes). */
  ghost function ChainIndels(a: seq<Anchor>, pre: seq<int>, i: int): int
    requires 0 <= i < |a| && i < |pre|
    requires forall k :: 0 <= k <= i ==> -1 <= pre[k] < k
    decreases i
  {
    if pre[i] < 0 then 0 else ChainIndels(a, pre, pre[i]) + GapLen(a, pre[i], i)
  }

  /** Sum of the self distances along the pre chain ending at i. */
  ghost function ChainSelfLength(a: seq<Anchor>, pre: seq<int>, i: int): int
    requires 0 <= i < |a| && i < |pre|
    requires forall k :: 0 <= k <= i ==> -1 <= pre[k] < k
    decreases i
  {
    if pre[i] < 0 then 0 else ChainSelfLength(a, pre, pre[i]) + DSelf(a, pre[i], i)
  }

  /** The property debug_chain checks: the stored totals are the sums along the
      pre chain, hence every chain, measured end to end, lies in the band. */
  lemma {:induction false} ChainTotals(a: seq<Anchor>, pre: seq<int>, indels: seq<int>,
                                       selfLength: seq<int>, bw: Band, n: int, i: int)
    requires ChainConsistent(a, pre, indels, selfLength, bw, n)
    requires 0 <= i < n
    ensures indels[i] == ChainIndels(a, pre, i)
    ensures selfLength[i] == ChainSelfLength(a, pre, i)
    ensures WithinBand(bw, ChainIndels(a, pre, i), ChainSelfLength(a, pre, i))
    decreases i
  {
    if pre[i] != -1 {
      ChainTotals(a, pre, indels, selfLength, bw, n, pre[i]);
    }
  }

  /** The chain of anchor indices from i back to its first anchor. */
  ghost function Chain(pre: seq<int>, i: int): (c: seq<int>)
    requires 0 <= i < |pre|
    requires forall k :: 0 <= k <= i ==> -1 <= pre[k] < k
    ensures |c| >= 1 && c[0] == i
    ensures forall k :: 0 <= k < |c| ==> 0 <= c[k] <= i
    decreases i
  {
    if pre[i] < 0 then [i] else [i] + Chain(pre, pre[i])
  }

  /** The first anchor of the chain ending at i. */
  ghost function ChainStart(pre: seq<int>, i: int): (s: int)
    requires 0 <= i < |pre|
    requires forall k :: 0 <= k <= i ==> -1 <= pre[k] < k
    ensures 0 <= s <= i && pre[s] == -1
    decreases i
  {
    if pre[i] < 0 then i else ChainStart(pre, pre[i])
  }

  /** The chain from i lists anchors no later than i, each followed by its
      predecessor, and ends at an anchor without one. */
  lemma {:induction false} ChainFacts(pre: seq<int>, i: int)
    requires 0 <= i < |pre|
    requires forall k :: 0 <= k <= i ==> -1 <= pre[k] < k
    ensures var c := Chain(pre, i);
            (forall k :: 0 <= k < |c| - 1 ==> c[k + 1] == pre[c[k]])
            && c[|c| - 1] == ChainStart(pre, i)
    decreases i
  {
    if pre[i] >= 0 {
      ChainFacts(pre, pre[i]);
    }
  }

  /** Anchor indices c (all below |a|) walk backwards: each next anchor comes
      earlier in the array, strictly earlier on the query and not later on the
      target. */
  predicate Descending(a: seq<Anchor>, c: seq<int>) {
    (forall k :: 0 <= k < |c| ==> 0 <= c[k] < |a|)
    && forall k :: 0 <= k < |c| - 1 ==>
         c[k + 1] < c[k]
         && a[c[k + 1]].self_offset < a[c[k]].self_offset && a[c[k + 1]].offset <= a[c[k]].offset
  }

  /** Along a consistent chain the self offsets strictly decrease and the
      target offsets do not increase. */
  lemma {:induction false} ChainMonotone(a: seq<Anchor>, pre: seq<int>, indels: seq<int>,
                                         selfLength: seq<int>, bw: Band, n: int, i: int)
    requires ChainConsistent(a, pre, indels, selfLength, bw, n)
    requires 0 <= i < n
    ensures Descending(a, Chain(pre, i))
  {
    var c := Chain(pre, i);
    ChainFacts(pre, i);
    forall k | 0 <= k < |c| - 1
      ensures a[c[k + 1]].self_offset < a[c[k]].self_offset && a[c[k + 1]].offset <= a[c[k]].offset
    {
      assert c[k + 1] == pre[c[k]] && c[k] < n;
    }
  }

  /*************************** scratch state ***************************/

  predicate IsPow2(p: nat)
    decreases p
  {
    p == 1 || (p >= 2 && p % 2 == 0 && IsPow2(p / 2))
  }

  /** kroundup64: the least power of two not below n. */
  function RoundUpPow2(n: nat): (p: nat)
    requires n >= 1
    ensures IsPow2(p) && n <= p && p / 2 < n
    decreases n
  {
    if n == 1 then 1
    else
      var h := RoundUpPow2((n + 1) / 2);
      assert h % 2 == 1 ==> h == 1;
      2 * h
  }

  function IntZeros(n: nat): (z: seq<int>)
    ensures |z| == n && forall i :: 0 <= i < n ==> z[i] == 0
  {
    seq(n, _ => 0)
  }

  /** Chain_Data: the per-anchor score, predecessor, indel total, self-length
      total and skip marker, reused from batch to batch and never shrunk. */
  class ChainData {
    var score: seq<int>
    var pre: seq<int>
    var indels: seq<int>
    var selfLength: seq<int>
    var tmp: seq<int>
    var size: nat
    var length: nat

    ghost predicate Valid()
      reads this
    {
      |score| == size && |pre| == size && |indels| == size
      && |selfLength| == size && |tmp| == size
    }

    /** init_Chain_Data: zeroed, nothing allocated. */
    constructor ()
      ensures Valid() && size == 0 && length == 0
    {
      score, pre, indels, selfLength, tmp := [], [], [], [], [];
      size, length := 0, 0;
    }

    /** clear_Chain_Data */
    method Clear()
      requires Valid()
      modifies this`length
      ensures Valid() && length == 0
    {
      length := 0;
    }

    /** resize_Chain_Data: make room for n + 1 anchors, rounding the capacity up
      to a power of two; stored values are kept (new slots are unspecified,
      modelled as 0). */
    method Resize(n: nat)
      requires Valid()
      modifies this
      ensures Valid() && length == old(length)
      ensures old(size) >= n + 1 ==> size == old(size)
      ensures old(size) < n + 1 ==> size == RoundUpPow2(n + 1)
      ensures size >= n + 1 && size >= old(size)
      ensures score[..old(size)] == old(score) && pre[..old(size)] == old(pre)
      ensures indels[..old(size)] == old(indels) && selfLength[..old(size)] == old(selfLength)
      ensures tmp[..old(size)] == old(tmp)
    {
      if n + 1 > size {
        var cap := RoundUpPow2(n + 1);
        var extra := IntZeros(cap - size);
        score, pre, indels := score + extra, pre + extra, indels + extra;
        selfLength, tmp := selfLength + extra, tmp + extra;
        assert score[..size] == old(score);
        size := cap;
      }
    }
  }

  /*************************** extension ***************************/

  /** The coordinates of a region after symmetric end extension. */
  datatype Extended = Extended(xs: int, xe: int, ys: int, ye: int)

  /** Symmetric end extension (get_chainLen and append_inexact_overlap_region_alloc):
      both starts move left by the same amount until one of them reaches 0,
      both ends move right by the same amount until one of them reaches the
      last base of its read. */
  function ExtendRegion(xs: int, xe: int, xLen: int, ys: int, ye: int, yLen: int): (e: Extended)
    ensures e.xs == 0 || e.ys == 0
    ensures e.xe == xLen - 1 || e.ye == yLen - 1
    ensures e.ys - e.xs == ys - xs && e.ye - e.xe == ye - xe
    ensures xs >= 0 && ys >= 0 ==> 0 <= e.xs <= xs && 0 <= e.ys <= ys
    ensures xe < xLen && ye < yLen ==> xe <= e.xe < xLen && ye <= e.ye < yLen
  {
    var (xs', ys') := if xs <= ys then (0, ys - xs) else (xs - ys, 0);
    var xRight := xLen - xe - 1;
    var yRight := yLen - ye - 1;
    var (xe', ye') := if xRight <= yRight then (xLen - 1, ye + xRight) else (xe + yRight, yLen - 1);
    Extended(xs', xe', ys', ye')
  }

  /** get_chainLen: the self-read span of the extended region. */
  function GetChainLen(xBeg: int, xEnd: int, xLen: int, yBeg: int, yEnd: int, yLen: int): (len: int)
    ensures var e := ExtendRegion(xBeg, xEnd, xLen, yBeg, yEnd, yLen);
            len == e.xe - e.xs + 1
              && (e.xs == 0 || e.ys == 0) && (e.xe == xLen - 1 || e.ye == yLen - 1)
  {
    var e := ExtendRegion(xBeg, xEnd, xLen, yBeg, yEnd, yLen);
    e.xe - e.xs + 1
  }

  /** The extended self span of a single anchor. */
  function AnchorSpan(h: Anchor, xLen: int, yLen: int): int {
    GetChainLen(h.self_offset, h.self_offset, xLen, h.offset, h.offset, yLen)
  }

  /*************************** linear fast path ***************************/

  /** Self offsets strictly increase along the bucket. */
  predicate SelfIncreasing(a: seq<Anchor>) {
    forall i :: 1 <= i < |a| ==> a[i - 1].self_offset < a[i].self_offset
  }

  /** tot_indel of the linear pass after anchor i. */
  function TotIndel(a: seq<Anchor>, i: int): int
    requires 0 <= i < |a|
  {
    if i == 0 then 0 else TotIndel(a, i - 1) + GapLen(a, i - 1, i)
  }

  /** tot_len of the linear pass after anchor i. */
  function TotLen(a: seq<Anchor>, i: int): int
    requires 0 <= i < |a|
  {
    if i == 0 then 0 else TotLen(a, i - 1) + DSelf(a, i - 1, i)
  }

  /** Step i of the linear pass is accepted: the running totals stay in the
      band and the step is not an over-long gap (more than maxSize indels and
      more than bw times the shorter distance). */
  predicate FastStepOk(a: seq<Anchor>, i: int, bw: Band, maxSize: int)
    requires 1 <= i < |a|
  {
    WithinBand(bw, TotIndel(a, i), TotLen(a, i))
    && !OverLongGap(bw, GapLen(a, i - 1, i), Min(DPos(a, i - 1, i), DSelf(a, i - 1, i)), maxSize)
  }

  /** A step with dd indels whose shorter distance is dg is an over-long gap:
      more than maxSize indels and more than bw * dg. */
  predicate OverLongGap(bw: Band, dd: int, dg: int, maxSize: int) {
    dd > maxSize && dd * bw.den > dg * bw.num
  }

  /** The linear pass succeeds on the whole bucket. */
  predicate FastPathOk(a: seq<Anchor>, bw: Band, maxSize: int) {
    |a| > 0 && SelfIncreasing(a) && forall i :: 1 <= i < |a| ==> FastStepOk(a, i, bw, maxSize)
  }

  /** Score of a start anchor: min_sc, halved for a low-confidence anchor. */
  function StartScore(h: Anchor, minSc: int): int {
    if h.good then minSc else minSc / 2
  }

  /** Score gained by a step of target distance dx and self distance dy into
      an anchor of the given confidence, before the band penalty. */
  function StepScore(dx: int, dy: int, minSc: int, good: bool): int {
    var s := Min(Min(dx, dy), minSc);
    if good then s else s / 2
  }

  /** Score gained by step i of the linear pass, after the band penalty. */
  function FastGain(a: seq<Anchor>, i: int, minSc: int, penalty: Penalty): int
    requires 1 <= i < |a|
  {
    var s := StepScore(DPos(a, i - 1, i), DSelf(a, i - 1, i), minSc, a[i].good);
    s - penalty(s, TotIndel(a, i), TotLen(a, i))
  }

  /** The first i slots hold the linear chain 0 -> 1 -> ... -> i-1: each
      predecessor is the previous anchor, the totals are the running sums and
      each score adds the step's gain to the previous one. */
  ghost predicate FastFilled(a: seq<Anchor>, sc: seq<int>, pr: seq<int>, ind: seq<int>, sl: seq<int>,
                             i: int, minSc: int, penalty: Penalty)
  {
    1 <= i <= |a| && i <= |sc| && i <= |pr| && i <= |ind| && i <= |sl|
    && sc[0] == StartScore(a[0], minSc) && pr[0] == -1 && ind[0] == 0 && sl[0] == 0
    && (forall k :: 1 <= k < i ==> pr[k] == k - 1)
    && (forall k :: 1 <= k < i ==> ind[k] == TotIndel(a, k))
    && (forall k :: 1 <= k < i ==> sl[k] == TotLen(a, k))
    && (forall k :: 1 <= k < i ==> sc[k] == sc[k - 1] + FastGain(a, k, minSc, penalty))
  }

  lemma FastFilledStep(a: seq<Anchor>, sc: seq<int>, pr: seq<int>, ind: seq<int>, sl: seq<int>,
                       i: int, minSc: int, penalty: Penalty)
    requires FastFilled(a, sc, pr, ind, sl, i, minSc, penalty)
    requires i < |a| && i < |sc| && i < |pr| && i < |ind| && i < |sl|
    ensures FastFilled(a, sc[i := sc[i - 1] + FastGain(a, i, minSc, penalty)], pr[i := i - 1],
                       ind[i := TotIndel(a, i)], sl[i := TotLen(a, i)], i + 1, minSc, penalty)
  {
  }

  /** One step of the linear pass: update the running totals with step i,
      test them, and compute the step's score. */
  method FastStep(a: seq<Anchor>, i: int, totIndel0: int, totLen0: int,
                  minSc: int, bw: Band, maxSize: int, penalty: Penalty)
    returns (ok: bool, totIndel: int, totLen: int, score: int)
    requires 1 <= i < |a| && bw.Valid()
    requires totIndel0 == TotIndel(a, i - 1) && totLen0 == TotLen(a, i - 1)
    ensures totIndel == TotIndel(a, i) && totLen == TotLen(a, i)
    ensures ok == FastStepOk(a, i, bw, maxSize)
    ensures ok ==> score == FastGain(a, i, minSc, penalty)
  {
    var dx := a[i].offset - a[i - 1].offset;
    var dy := a[i].self_offset - a[i - 1].self_offset;
    var dd := if dx > dy then dx - dy else dy - dx;
    totIndel := totIndel0 + dd;
    totLen := totLen0 + dy;
    score := 0;
    if !WithinBand(bw, totIndel, totLen) {
      return false, totIndel, totLen, score;
    }
    var dg := if dx < dy then dx else dy;
    if OverLongGap(bw, dd, dg, maxSize) {
      return false, totIndel, totLen, score;
    }
    score := if dg < minSc then dg else minSc;
    if !a[i].good {
      score := score / 2;
    }
    score := score - penalty(score, totIndel, totLen);
    ok := true;
  }

  /** The linear pass of ha_chain_check over the four chain arrays: walk the
      chain 0 -> 1 -> ... while every step passes the band tests, writing each
      slot on the way.  Stops at the first failing step i and returns it (n when
      none fails); slots from i on are untouched. */
  method FastPass(a: seq<Anchor>, sc0: seq<int>, pr0: seq<int>, ind0: seq<int>, sl0: seq<int>,
                  minSc: int, bw: Band, maxSize: int, penalty: Penalty)
    returns (sc: seq<int>, pr: seq<int>, ind: seq<int>, sl: seq<int>, i: int)
    requires 1 <= |a| <= |sc0| && |sc0| == |pr0| == |ind0| == |sl0| && bw.Valid()
    ensures |sc| == |pr| == |ind| == |sl| == |sc0|
    ensures 1 <= i <= |a|
    ensures FastFilled(a, sc, pr, ind, sl, i, minSc, penalty)
    ensures sc[i..] == sc0[i..] && pr[i..] == pr0[i..] && ind[i..] == ind0[i..] && sl[i..] == sl0[i..]
    ensures forall k :: 1 <= k < i ==> FastStepOk(a, k, bw, maxSize)
    ensures i < |a| ==> !FastStepOk(a, i, bw, maxSize)
  {
    var n := |a|;
    sc, pr, ind, sl := sc0[0 := StartScore(a[0], minSc)], pr0[0 := -1], ind0[0 := 0], sl0[0 := 0];
    var totIndel, totLen := 0, 0;
    i := 1;
    while i < n
      invariant 1 <= i <= n && totIndel == TotIndel(a, i - 1) && totLen == TotLen(a, i - 1)
      invariant FastPassInv(a, sc0, pr0, ind0, sl0, sc, pr, ind, sl, i, minSc, bw, maxSize, penalty)
    {
      var ok, score;
      ok, totIndel, totLen, score := FastStep(a, i, totIndel, totLen, minSc, bw, maxSize, penalty);
      if !ok {
        break;
      }
      FastPassNext(a, sc0, pr0, ind0, sl0, sc, pr, ind, sl, i, minSc, bw, maxSize, penalty);
      sc := sc[i := sc[i - 1] + score];
      pr := pr[i := i - 1];
      ind := ind[i := totIndel];
      sl := sl[i := totLen];
      i := i + 1;
    }
  }

  /** What the linear pass keeps after filling the first i slots. */
  ghost predicate FastPassInv(a: seq<Anchor>, sc0: seq<int>, pr0: seq<int>, ind0: seq<int>, sl0: seq<int>,
                              sc: seq<int>, pr: seq<int>, ind: seq<int>, sl: seq<int>, i: int,
                              minSc: int, bw: Band, maxSize: int, penalty: Penalty)
  {
    1 <= i <= |a| <= |sc| && |sc| == |pr| == |ind| == |sl| == |sc0| == |pr0| == |ind0| == |sl0|
    && FastFilled(a, sc, pr, ind, sl, i, minSc, penalty)
    && sc[i..] == sc0[i..] && pr[i..] == pr0[i..] && ind[i..] == ind0[i..] && sl[i..] == sl0[i..]
    && (forall k :: 1 <= k < i ==> FastStepOk(a, k, bw, maxSize))
  }

  lemma FastPassNext(a: seq<Anchor>, sc0: seq<int>, pr0: seq<int>, ind0: seq<int>, sl0: seq<int>,
                     sc: seq<int>, pr: seq<int>, ind: seq<int>, sl: seq<int>, i: int,
                     minSc: int, bw: Band, maxSize: int, penalty: Penalty)
    requires FastPassInv(a, sc0, pr0, ind0, sl0, sc, pr, ind, sl, i, minSc, bw, maxSize, penalty)
    requires i < |a| && FastStepOk(a, i, bw, maxSize)
    ensures FastPassInv(a, sc0, pr0, ind0, sl0, sc[i := sc[i - 1] + FastGain(a, i, minSc, penalty)],
                        pr[i := i - 1], ind[i := TotIndel(a, i)], sl[i := TotLen(a, i)], i + 1,
                        minSc, bw, maxSize, penalty)
  {
    FastFilledStep(a, sc, pr, ind, sl, i, minSc, penalty);
    var sc', pr' := sc[i := sc[i - 1] + FastGain(a, i, minSc, penalty)], pr[i := i - 1];
    var ind', sl' := ind[i := TotIndel(a, i)], sl[i := TotLen(a, i)];
    assert sc'[i + 1..] == sc[i + 1..] && pr'[i + 1..] == pr[i + 1..];
    assert ind'[i + 1..] == ind[i + 1..] && sl'[i + 1..] == sl[i + 1..];
  }

  /** ha_chain_check: when the self offsets strictly increase and every step of
      the linear chain 0 -> 1 -> ... -> n-1 passes the band tests, fill the
      chain state along it and return n; otherwise return -1.  `written` tells
      how many leading slots were filled before the pass gave up; the others
      keep their old values. */
  method HaChainCheck(a: seq<Anchor>, dp: ChainData, minSc: int, bw: Band,
                      maxSize: int, penalty: Penalty)
    returns (ret: int, ghost written: nat)
    requires dp.Valid() && |a| <= dp.size && bw.Valid()
    modifies dp`score, dp`pre, dp`indels, dp`selfLength
    ensures dp.Valid()
    ensures ret == (if FastPathOk(a, bw, maxSize) then |a| else -1)
    ensures written <= |a| && (ret == |a| ==> written == |a|)
    ensures written >= 1 ==> FastFilled(a, dp.score, dp.pre, dp.indels, dp.selfLength, written, minSc, penalty)
    ensures dp.score[written..] == old(dp.score)[written..] && dp.pre[written..] == old(dp.pre)[written..]
    ensures dp.indels[written..] == old(dp.indels)[written..]
    ensures dp.selfLength[written..] == old(dp.selfLength)[written..]
    ensures ret == |a| && SortedByOffset(a) ==>
              ChainConsistent(a, dp.pre, dp.indels, dp.selfLength, bw, |a|)
  {
    var n := |a|;
    if n == 0 {
      return -1, 0;
    }
    var i := 1;
    while i < n
      invariant 1 <= i <= n
      invariant forall k :: 1 <= k < i ==> a[k - 1].self_offset < a[k].self_offset
    {
      if a[i - 1].self_offset >= a[i].self_offset {
        break;
      }
      i := i + 1;
    }
    if i < n {
      return -1, 0;
    }
    assert SelfIncreasing(a);
    var sc, pr, ind, sl;
    sc, pr, ind, sl, i := FastPass(a, dp.score, dp.pre, dp.indels, dp.selfLength, minSc, bw, maxSize, penalty);
    dp.score, dp.pre, dp.indels, dp.selfLength := sc, pr, ind, sl;
    written := i;
    if i < n {
      return -1, written;
    }
    ret := n;
    if SortedByOffset(a) {
      FastChainConsistent(a, dp.pre, dp.indels, dp.selfLength, bw, maxSize);
    }
  }

  /** The chain state the linear pass writes is a consistent chain. */
  lemma FastChainConsistent(a: seq<Anchor>, pre: seq<int>, indels: seq<int>,
                            selfLength: seq<int>, bw: Band, maxSize: int)
    requires FastPathOk(a, bw, maxSize) && SortedByOffset(a)
    requires |a| <= |pre| && |a| <= |indels| && |a| <= |selfLength|
    requires |a| > 0 && pre[0] == -1 && indels[0] == 0 && selfLength[0] == 0
    requires forall k :: 1 <= k < |a| ==> pre[k] == k - 1
    requires forall k :: 1 <= k < |a| ==> indels[k] == TotIndel(a, k)
    requires forall k :: 1 <= k < |a| ==> selfLength[k] == TotLen(a, k)
    ensures ChainConsistent(a, pre, indels, selfLength, bw, |a|)
  {
    forall i | 1 <= i < |a|
      ensures WithinBand(bw, indels[i], selfLength[i])
      ensures Linked(a, pre[i], i)
      ensures indels[i] == indels[pre[i]] + GapLen(a, pre[i], i)
      ensures selfLength[i] == selfLength[pre[i]] + DSelf(a, pre[i], i)
    {
      FastLinkAt(a, pre, indels, selfLength, bw, maxSize, i);
    }
    assert WithinBand(bw, indels[0], selfLength[0]);
  }

  /** Slot i of the linear pass links to slot i-1 by one in-band step. */
  lemma FastLinkAt(a: seq<Anchor>, pre: seq<int>, indels: seq<int>,
                   selfLength: seq<int>, bw: Band, maxSize: int, i: int)
    requires 1 <= i < |a| && FastStepOk(a, i, bw, maxSize)
    requires a[i - 1].self_offset < a[i].self_offset && a[i - 1].offset <= a[i].offset
    requires |a| <= |pre| && |a| <= |indels| && |a| <= |selfLength|
    requires indels[0] == 0 && selfLength[0] == 0 && pre[i] == i - 1
    requires indels[i] == TotIndel(a, i) && selfLength[i] == TotLen(a, i)
    requires i - 1 >= 1 ==> indels[i - 1] == TotIndel(a, i - 1) && selfLength[i - 1] == TotLen(a, i - 1)
    ensures WithinBand(bw, indels[i], selfLength[i])
    ensures Linked(a, pre[i], i)
    ensures indels[i] == indels[pre[i]] + GapLen(a, pre[i], i)
    ensures selfLength[i] == selfLength[pre[i]] + DSelf(a, pre[i], i)
  {
  }
}
