/**
 * The quadratic dynamic program of chain_DP, used when the linear fast path
 * fails: every anchor i scans its predecessors j = i-1, i-2, ... and keeps the
 * best-scoring one whose extended chain stays in the band, giving up after
 * more than max_skip predecessors in a row fail to improve the best score.
 */
module ChainDp {
  import opened FakeCigars
  import opened Regions
  import opened Chaining

  /** Anchor j is a usable predecessor of anchor i: it lies strictly before i on
      both reads and the chain through it stays in the band. */
  predicate CandOk(a: seq<Anchor>, ind: seq<int>, sl: seq<int>, j: int, i: int, bw: Band)
    requires 0 <= j < |a| && 0 <= i < |a| && j < |ind| && j < |sl|
  {
    DPos(a, j, i) != 0 && DSelf(a, j, i) > 0
    && WithinBand(bw, ind[j] + GapLen(a, j, i), sl[j] + DSelf(a, j, i))
  }

  /** The score anchor i gets through predecessor j: j's score plus the step's
      score (halved when j is a low-confidence anchor) minus the band penalty. */
  function CandScore(a: seq<Anchor>, sc: seq<int>, ind: seq<int>, sl: seq<int>,
                     j: int, i: int, minSc: int, penalty: Penalty): int
    requires 0 <= j < |a| && 0 <= i < |a| && j < |sc| && j < |ind| && j < |sl|
  {
    var s := StepScore(DPos(a, j, i), DSelf(a, j, i), minSc, a[j].good);
    sc[j] + (s - penalty(s, ind[j] + GapLen(a, j, i), sl[j] + DSelf(a, j, i)))
  }

  /** After scanning the predecessors lo..i-1 of anchor i, (bestJ, best, bestInd,
      bestSl) is the best choice so far: no predecessor (best is the start
      score) or a usable one whose score beats the start score; no scanned
      predecessor scores higher, and none nearer to i scores as high. */
  ghost predicate ScanInv(a: seq<Anchor>, sc: seq<int>, ind: seq<int>, sl: seq<int>,
                          i: int, lo: int, bestJ: int, best: int, bestInd: int, bestSl: int,
                          minSc: int, bw: Band, penalty: Penalty)
  {
    0 <= lo <= i < |a| && i <= |sc| && i <= |ind| && i <= |sl|
    && (bestJ == -1 ==> best == StartScore(a[i], minSc) && bestInd == 0 && bestSl == 0)
    && (bestJ != -1 ==>
          lo <= bestJ < i && CandOk(a, ind, sl, bestJ, i, bw)
          && best == CandScore(a, sc, ind, sl, bestJ, i, minSc, penalty)
          && bestInd == ind[bestJ] + GapLen(a, bestJ, i)
          && bestSl == sl[bestJ] + DSelf(a, bestJ, i)
          && best > StartScore(a[i], minSc))
    && (forall k :: lo <= k < i && CandOk(a, ind, sl, k, i, bw) ==>
          CandScore(a, sc, ind, sl, k, i, minSc, penalty) <= best)
    && (bestJ != -1 ==> forall k :: bestJ < k < i && CandOk(a, ind, sl, k, i, bw) ==>
          CandScore(a, sc, ind, sl, k, i, minSc, penalty) < best)
  }

  /** ScanInv reads only the entries before i. */
  lemma ScanInvFrame(a: seq<Anchor>, sc: seq<int>, ind: seq<int>, sl: seq<int>,
                     sc': seq<int>, ind': seq<int>, sl': seq<int>,
                     i: int, lo: int, bestJ: int, best: int, bestInd: int, bestSl: int,
                     minSc: int, bw: Band, penalty: Penalty)
    requires ScanInv(a, sc, ind, sl, i, lo, bestJ, best, bestInd, bestSl, minSc, bw, penalty)
    requires i <= |sc'| && i <= |ind'| && i <= |sl'|
    requires sc[..i] == sc'[..i] && ind[..i] == ind'[..i] && sl[..i] == sl'[..i]
    ensures ScanInv(a, sc', ind', sl', i, lo, bestJ, best, bestInd, bestSl, minSc, bw, penalty)
  {
    forall k | 0 <= k < i
      ensures sc[k] == sc'[k] && ind[k] == ind'[k] && sl[k] == sl'[k]
    {
      assert sc[..i][k] == sc'[..i][k] && ind[..i][k] == ind'[..i][k] && sl[..i][k] == sl'[..i][k];
    }
    forall k | 0 <= k < i
      ensures CandOk(a, ind, sl, k, i, bw) == CandOk(a, ind', sl', k, i, bw)
      ensures CandScore(a, sc, ind, sl, k, i, minSc, penalty) == CandScore(a, sc', ind', sl', k, i, minSc, penalty)
    {
    }
  }

  /** One step of the scan keeps ScanInv: predecessor j replaces the best
      exactly when it is usable and scores strictly higher. */
  lemma ScanStep(a: seq<Anchor>, sc: seq<int>, ind: seq<int>, sl: seq<int>,
                 i: int, j: int, bestJ: int, best: int, bestInd: int, bestSl: int,
                 ok: bool, score: int, totInd: int, totSl: int,
                 minSc: int, bw: Band, penalty: Penalty)
    requires 0 <= j < i
    requires ScanInv(a, sc, ind, sl, i, j + 1, bestJ, best, bestInd, bestSl, minSc, bw, penalty)
    requires ok == CandOk(a, ind, sl, j, i, bw)
    requires ok ==> score == CandScore(a, sc, ind, sl, j, i, minSc, penalty)
                    && totInd == ind[j] + GapLen(a, j, i) && totSl == sl[j] + DSelf(a, j, i)
    ensures ok && score > best ==>
              ScanInv(a, sc, ind, sl, i, j, j, score, totInd, totSl, minSc, bw, penalty)
    ensures !(ok && score > best) ==>
              ScanInv(a, sc, ind, sl, i, j, bestJ, best, bestInd, bestSl, minSc, bw, penalty)
  {
  }

  /** The stored entry of anchor i is what the scan of lo..i-1 chose, and the
      scan covered every predecessor or more than maxSkip of them. */
  ghost predicate DPEntry(a: seq<Anchor>, sc: seq<int>, pr: seq<int>, ind: seq<int>, sl: seq<int>,
                          i: int, lo: int, minSc: int, bw: Band, maxSkip: int, penalty: Penalty)
  {
    0 <= i < |a| && i < |sc| && i < |pr| && i < |ind| && i < |sl|
    && -1 <= pr[i] < i
    && ScanInv(a, sc, ind, sl, i, lo, pr[i], sc[i], ind[i], sl[i], minSc, bw, penalty)
    && (lo == 0 || i - lo > maxSkip)
  }

  /** The first n anchors hold DP entries, anchor k having scanned los[k].. */
  ghost predicate DPFilled(a: seq<Anchor>, sc: seq<int>, pr: seq<int>, ind: seq<int>, sl: seq<int>,
                           los: seq<int>, n: int, minSc: int, bw: Band, maxSkip: int, penalty: Penalty)
  {
    0 <= n <= |a| && n <= |sc| && n <= |pr| && n <= |ind| && n <= |sl| && |los| == n
    && forall k :: 0 <= k < n ==> DPEntry(a, sc, pr, ind, sl, k, los[k], minSc, bw, maxSkip, penalty)
  }

  lemma DPFilledStep(a: seq<Anchor>, sc: seq<int>, pr: seq<int>, ind: seq<int>, sl: seq<int>,
                     los: seq<int>, n: int, lo: int, bestJ: int, best: int, bestInd: int, bestSl: int,
                     minSc: int, bw: Band, maxSkip: int, penalty: Penalty)
    requires DPFilled(a, sc, pr, ind, sl, los, n, minSc, bw, maxSkip, penalty)
    requires n < |a| && n < |sc| && n < |pr| && n < |ind| && n < |sl|
    requires -1 <= bestJ < n
    requires ScanInv(a, sc, ind, sl, n, lo, bestJ, best, bestInd, bestSl, minSc, bw, penalty)
    requires lo == 0 || n - lo > maxSkip
    ensures DPFilled(a, sc[n := best], pr[n := bestJ], ind[n := bestInd], sl[n := bestSl],
                     los + [lo], n + 1, minSc, bw, maxSkip, penalty)
  {
    var sc', pr', ind', sl' := sc[n := best], pr[n := bestJ], ind[n := bestInd], sl[n := bestSl];
    forall k | 0 <= k <= n
      ensures DPEntry(a, sc', pr', ind', sl', k, (los + [lo])[k], minSc, bw, maxSkip, penalty)
    {
      var l := (los + [lo])[k];
      if k < n {
        assert DPEntry(a, sc, pr, ind, sl, k, los[k], minSc, bw, maxSkip, penalty);
        assert sc[..k] == sc'[..k] && ind[..k] == ind'[..k] && sl[..k] == sl'[..k];
        ScanInvFrame(a, sc, ind, sl, sc', ind', sl', k, l, pr[k], sc[k], ind[k], sl[k],
                     minSc, bw, penalty);
      } else {
        assert sc[..n] == sc'[..n] && ind[..n] == ind'[..n] && sl[..n] == sl'[..n];
        ScanInvFrame(a, sc, ind, sl, sc', ind', sl', n, lo, bestJ, best, bestInd, bestSl,
                     minSc, bw, penalty);
      }
    }
  }

  /** One predecessor test of the scan: is j usable for i, and at what score
      and totals. */
  method Candidate(a: seq<Anchor>, sc: seq<int>, ind: seq<int>, sl: seq<int>,
                   j: int, i: int, minSc: int, bw: Band, penalty: Penalty)
    returns (ok: bool, score: int, totInd: int, totSl: int)
    requires 0 <= j < i < |a| && j < |sc| && j < |ind| && j < |sl|
    ensures ok == CandOk(a, ind, sl, j, i, bw)
    ensures ok ==> score == CandScore(a, sc, ind, sl, j, i, minSc, penalty)
                   && totInd == ind[j] + GapLen(a, j, i) && totSl == sl[j] + DSelf(a, j, i)
  {
    var dPos := a[i].offset - a[j].offset;
    var dSelf := a[i].self_offset - a[j].self_offset;
    score, totInd, totSl := 0, 0, 0;
    if dPos == 0 || dSelf <= 0 {
      return false, score, totInd, totSl;
    }
    var dGap := if dPos > dSelf then dPos - dSelf else dSelf - dPos;
    totInd := ind[j] + dGap;
    totSl := sl[j] + dSelf;
    if !WithinBand(bw, totInd, totSl) {
      return false, score, totInd, totSl;
    }
    var dMin := if dPos < dSelf then dPos else dSelf;
    score := if dMin < minSc then dMin else minSc;
    if !a[j].good {
      score := score / 2;
    }
    score := score - penalty(score, totInd, totSl);
    score := score + sc[j];
    ok := true;
  }

  /** The number of usable predecessors of anchor i among lo..i-1. */
  function Usable(a: seq<Anchor>, ind: seq<int>, sl: seq<int>, i: int, lo: int, bw: Band): (n: nat)
    requires 0 <= lo <= i < |a| && i <= |ind| && i <= |sl|
    ensures n <= i - lo
    decreases i - lo
  {
    if lo == i then 0
    else (if CandOk(a, ind, sl, lo, i, bw) then 1 else 0) + Usable(a, ind, sl, i, lo + 1, bw)
  }

  /** The inner loop of chain_DP for anchor i: scan j = i-1 down to 0, keep the
      best predecessor, and stop after more than maxSkip consecutive
      non-improving predecessors, or more than maxSkip of them that the skip
      marks tmp show to lie on an already-examined chain. */
  method ScanPredecessors(a: seq<Anchor>, sc: seq<int>, pr: seq<int>, ind: seq<int>, sl: seq<int>,
                          tmp0: seq<int>, i: int, minSc: int, bw: Band, maxSkip: int, penalty: Penalty)
    returns (tmp: seq<int>, bestJ: int, best: int, bestInd: int, bestSl: int, ghost lo: int)
    requires 0 <= i < |a| && i <= |sc| && i <= |ind| && i <= |sl| && i <= |pr| && i <= |tmp0|
    requires forall k :: 0 <= k < i ==> -1 <= pr[k] < k
    ensures |tmp| == |tmp0| && -1 <= bestJ < i
    ensures ScanInv(a, sc, ind, sl, i, lo, bestJ, best, bestInd, bestSl, minSc, bw, penalty)
    ensures lo == 0 || i - lo > maxSkip
    ensures lo == 0 || Usable(a, ind, sl, i, lo, bw) - (if bestJ == -1 then 0 else 1) > maxSkip
  {
    tmp := tmp0;
    bestJ, best, bestInd, bestSl := -1, StartScore(a[i], minSc), 0, 0;
    var nChnSkip, nMaxSkip := 0, 0;
    var j := i - 1;
    lo := 0;
    while j >= 0
      invariant -1 <= j < i
      invariant |tmp| == |tmp0|
      invariant 0 <= nMaxSkip <= i - 1 - j && 0 <= nChnSkip <= i - 1 - j
      invariant -1 <= bestJ < i
      invariant nMaxSkip <= Usable(a, ind, sl, i, j + 1, bw) - (if bestJ == -1 then 0 else 1)
      invariant nChnSkip <= Usable(a, ind, sl, i, j + 1, bw) - (if bestJ == -1 then 0 else 1)
      invariant ScanInv(a, sc, ind, sl, i, j + 1, bestJ, best, bestInd, bestSl, minSc, bw, penalty)
    {
      var ok, score, totInd, totSl := Candidate(a, sc, ind, sl, j, i, minSc, bw, penalty);
      ScanStep(a, sc, ind, sl, i, j, bestJ, best, bestInd, bestSl, ok, score, totInd, totSl,
               minSc, bw, penalty);
      if !ok {
        j := j - 1;
        continue;
      }
      if score > best {
        bestJ, best, bestInd, bestSl := j, score, totInd, totSl;
        nMaxSkip := 0;
        if nChnSkip > 0 {
          nChnSkip := nChnSkip - 1;
        }
      } else {
        nMaxSkip := nMaxSkip + 1;
        if nMaxSkip > maxSkip {
          lo := j;
          break;
        }
        if tmp[j] == i {
          nChnSkip := nChnSkip + 1;
          if nChnSkip > maxSkip {
            lo := j;
            break;
          }
        }
      }
      if pr[j] >= 0 {
        tmp := tmp[pr[j] := i];
      }
      j := j - 1;
    }
  }

  /** The DP of chain_DP over the chain arrays: reset the skip marks of the n
      anchors, then fill the entry of every anchor in order. */
  method DPFill(a: seq<Anchor>, sc0: seq<int>, pr0: seq<int>, ind0: seq<int>, sl0: seq<int>,
                tmp0: seq<int>, minSc: int, bw: Band, maxSkip: int, penalty: Penalty)
    returns (sc: seq<int>, pr: seq<int>, ind: seq<int>, sl: seq<int>, tmp: seq<int>, ghost los: seq<int>)
    requires |a| <= |sc0| && |sc0| == |pr0| == |ind0| == |sl0| == |tmp0|
    ensures |sc| == |pr| == |ind| == |sl| == |tmp| == |sc0|
    ensures DPFilled(a, sc, pr, ind, sl, los, |a|, minSc, bw, maxSkip, penalty)
    ensures sc[|a|..] == sc0[|a|..] && pr[|a|..] == pr0[|a|..]
    ensures ind[|a|..] == ind0[|a|..] && sl[|a|..] == sl0[|a|..]
  {
    var n := |a|;
    tmp := tmp0;
    var i := 0;
    while i < n
      invariant 0 <= i <= n && |tmp| == |tmp0|
    {
      tmp := tmp[i := -1];
      i := i + 1;
    }
    sc, pr, ind, sl := sc0, pr0, ind0, sl0;
    los := [];
    i := 0;
    while i < n
      invariant 0 <= i <= n
      invariant |sc| == |pr| == |ind| == |sl| == |tmp| == |sc0|
      invariant DPFilled(a, sc, pr, ind, sl, los, i, minSc, bw, maxSkip, penalty)
      invariant sc[i..] == sc0[i..] && pr[i..] == pr0[i..]
      invariant ind[i..] == ind0[i..] && sl[i..] == sl0[i..]
    {
      assert forall k :: 0 <= k < i ==> -1 <= pr[k] < k by {
        forall k | 0 <= k < i ensures -1 <= pr[k] < k {
          assert DPEntry(a, sc, pr, ind, sl, k, los[k], minSc, bw, maxSkip, penalty);
        }
      }
      var bestJ, best, bestInd, bestSl;
      ghost var lo;
      tmp, bestJ, best, bestInd, bestSl, lo :=
        ScanPredecessors(a, sc, pr, ind, sl, tmp, i, minSc, bw, maxSkip, penalty);
      DPFilledStep(a, sc, pr, ind, sl, los, i, lo, bestJ, best, bestInd, bestSl,
                   minSc, bw, maxSkip, penalty);
      sc, pr, ind, sl := sc[i := best], pr[i := bestJ], ind[i := bestInd], sl[i := bestSl];
      los := los + [lo];
      i := i + 1;
    }
  }

  /** The DP entries form consistent chains: every chosen predecessor is linked
      and every chain's totals are the running sums and stay in the band. */
  lemma DPConsistent(a: seq<Anchor>, sc: seq<int>, pr: seq<int>, ind: seq<int>, sl: seq<int>,
                     los: seq<int>, n: int, minSc: int, bw: Band, maxSkip: int, penalty: Penalty)
    requires DPFilled(a, sc, pr, ind, sl, los, n, minSc, bw, maxSkip, penalty)
    requires SortedByOffset(a)
    ensures ChainConsistent(a, pr, ind, sl, bw, n)
  {
    forall i | 0 <= i < n
      ensures -1 <= pr[i] < i
      ensures pr[i] == -1 ==> ind[i] == 0 && sl[i] == 0
      ensures pr[i] != -1 ==> Linked(a, pr[i], i) && ind[i] == ind[pr[i]] + GapLen(a, pr[i], i)
                              && sl[i] == sl[pr[i]] + DSelf(a, pr[i], i)
      ensures WithinBand(bw, ind[i], sl[i])
    {
      assert DPEntry(a, sc, pr, ind, sl, i, los[i], minSc, bw, maxSkip, penalty);
    }
  }

  /*************************** best chain end ***************************/

  /** m ends the chain chain_DP reports: its score is the highest; among the
      highest-scoring anchors its extended span is the shortest; and it is the
      first anchor with that score and span. */
  predicate IsBestEnd(a: seq<Anchor>, sc: seq<int>, m: int, xLen: int, yLen: int)
    requires |a| <= |sc|
  {
    0 <= m < |a|
    && (forall i :: 0 <= i < |a| ==> sc[i] <= sc[m])
    && (forall i :: 0 <= i < |a| && sc[i] == sc[m] ==>
          AnchorSpan(a[m], xLen, yLen) <= AnchorSpan(a[i], xLen, yLen))
    && (forall i :: 0 <= i < m && sc[i] == sc[m] ==>
          AnchorSpan(a[m], xLen, yLen) < AnchorSpan(a[i], xLen, yLen))
  }

  /** The rule picks exactly one anchor. */
  lemma BestEndUnique(a: seq<Anchor>, sc: seq<int>, m1: int, m2: int, xLen: int, yLen: int)
    requires |a| <= |sc|
    requires IsBestEnd(a, sc, m1, xLen, yLen) && IsBestEnd(a, sc, m2, xLen, yLen)
    ensures m1 == m2
  {
    assert sc[m1] == sc[m2];
    assert AnchorSpan(a[m1], xLen, yLen) == AnchorSpan(a[m2], xLen, yLen);
  }

  /** The selection loop of chain_DP: a strictly higher score always wins, an
      equal score wins only with a strictly shorter extended span. */
  method BestEnd(a: seq<Anchor>, sc: seq<int>, xLen: int, yLen: int)
    returns (m: int, best: int, span: int)
    requires 1 <= |a| <= |sc| && sc[0] > -1
    ensures IsBestEnd(a, sc, m, xLen, yLen)
    ensures best == sc[m] && span == AnchorSpan(a[m], xLen, yLen)
  {
    best, m, span := -1, -1, xLen * 2 + 2;
    var i := 0;
    while i < |a|
      invariant 0 <= i <= |a|
      invariant i == 0 ==> best == -1 && m == -1
      invariant i > 0 ==> 0 <= m < i && best == sc[m] && span == AnchorSpan(a[m], xLen, yLen)
      invariant forall k :: 0 <= k < i ==> sc[k] <= best
      invariant forall k :: 0 <= k < i && sc[k] == best ==> span <= AnchorSpan(a[k], xLen, yLen)
      invariant forall k :: 0 <= k < m && sc[k] == best ==> span < AnchorSpan(a[k], xLen, yLen)
    {
      if sc[i] > best {
        best, m := sc[i], i;
        span := GetChainLen(a[i].self_offset, a[i].self_offset, xLen, a[i].offset, a[i].offset, yLen);
      } else if sc[i] == best {
        var cand := GetChainLen(a[i].self_offset, a[i].self_offset, xLen, a[i].offset, a[i].offset, yLen);
        if cand < span {
          best, m, span := sc[i], i, cand;
        }
      }
      i := i + 1;
    }
  }

  /*************************** backtrace ***************************/

  /** distance_pos - distance_self_pos of anchor k, measured from the chain end m. */
  function Gap(a: seq<Anchor>, m: int, k: int): int
    requires 0 <= m < |a| && 0 <= k < |a|
  {
    (a[m].offset - a[k].offset) - (a[m].self_offset - a[k].self_offset)
  }

  predicate InRange(c: seq<int>, n: int) {
    forall k :: 0 <= k < |c| ==> 0 <= c[k] < n
  }

  /** The breakpoint trace chain_DP records while walking the chain c back from
      its end m.  It starts with (x_pos_e, 0); a run of anchors with the same
      gap gives one entry.  On the reverse strand the entry is made at the run's
      first anchor (the one nearest m); on the forward strand it is moved along
      to the run's last anchor. */
  function WalkTrace(a: seq<Anchor>, m: int, c: seq<int>, reverse: bool): (t: seq<(int, int)>)
    requires 0 <= m < |a| && InRange(c, |a|)
    ensures |t| >= 1 && t[0].1 == 0
    decreases |c|
  {
    if |c| == 0 then [(a[m].self_offset, 0)]
    else
      var k := c[|c| - 1];
      Record(WalkTrace(a, m, c[..|c| - 1], reverse), a[k].self_offset, Gap(a, m, k), reverse)
  }

  /** How one anchor at `site` with gap g changes the trace t. */
  function Record(t: seq<(int, int)>, site: int, g: int, reverse: bool): (t': seq<(int, int)>)
    requires |t| >= 1
    ensures |t'| >= 1 && t'[0].1 == t[0].1
  {
    if g != t[|t| - 1].1 then t + [(site, g)]
    else if reverse then t
    else t[..|t| - 1] + [(site, g)]
  }

  lemma WalkTraceSnoc(a: seq<Anchor>, m: int, c: seq<int>, i: int, reverse: bool)
    requires 0 <= m < |a| && 0 <= i < |a| && InRange(c, |a|)
    ensures InRange(c + [i], |a|)
    ensures WalkTrace(a, m, c + [i], reverse) ==
            Record(WalkTrace(a, m, c, reverse), a[i].self_offset, Gap(a, m, i), reverse)
  {
    assert (c + [i])[..|c|] == c;
  }

  /** Dropping the last word of a fake cigar drops the last pair of its trace. */
  lemma TraceDropLast(x: FakeCigar)
    requires x.Valid() && x.length >= 1
    ensures x.(length := x.length - 1).Valid()
    ensures Trace(x.(length := x.length - 1)) == Trace(x)[..x.length - 1]
  {
    var y := x.(length := x.length - 1);
    assert y.Entries() == x.Entries()[..x.length - 1];
  }

  /** The trace the backtrace ends with when it continues from anchor i (or
      has finished, i < 0) holding trace t. */
  ghost function WalkFrom(a: seq<Anchor>, pr: seq<int>, m: int, i: int, t: seq<(int, int)>,
                          reverse: bool): (r: seq<(int, int)>)
    requires 0 <= m < |a| <= |pr| && -1 <= i <= m && |t| >= 1
    requires forall k :: 0 <= k <= m ==> -1 <= pr[k] < k
    ensures |r| >= 1
    decreases i + 1
  {
    if i < 0 then t
    else WalkFrom(a, pr, m, pr[i], Record(t, a[i].self_offset, Gap(a, m, i), reverse), reverse)
  }

  /** One step of WalkFrom is one more anchor of WalkTrace. */
  lemma WalkFromStep(a: seq<Anchor>, pr: seq<int>, m: int, i: int, c: seq<int>, reverse: bool)
    requires 0 <= m < |a| <= |pr| && 0 <= i <= m && InRange(c, |a|)
    requires forall k :: 0 <= k <= m ==> -1 <= pr[k] < k
    ensures InRange(c + [i], |a|)
    ensures WalkFrom(a, pr, m, i, WalkTrace(a, m, c, reverse), reverse) ==
            WalkFrom(a, pr, m, pr[i], WalkTrace(a, m, c + [i], reverse), reverse)
  {
    WalkTraceSnoc(a, m, c, i, reverse);
  }

  /** Chain unfolded once. */
  lemma ChainCons(pr: seq<int>, i: int)
    requires 0 <= i < |pr| && forall k :: 0 <= k <= i ==> -1 <= pr[k] < k
    ensures Chain(pr, i) == if pr[i] < 0 then [i] else [i] + Chain(pr, pr[i])
  {
  }

  lemma SeqAssoc(c: seq<int>, i: int, d: seq<int>)
    ensures c + [i] + d == c + ([i] + d)
  {
  }

  /** Walking on from i appends i's chain to the walk so far. */
  lemma {:induction false} WalkFromChain(a: seq<Anchor>, pr: seq<int>, m: int, i: int,
                                         c: seq<int>, reverse: bool)
    requires 0 <= m < |a| <= |pr| && 0 <= i <= m && InRange(c, |a|)
    requires forall k :: 0 <= k <= m ==> -1 <= pr[k] < k
    ensures InRange(c + Chain(pr, i), |a|)
    ensures WalkFrom(a, pr, m, i, WalkTrace(a, m, c, reverse), reverse) ==
            WalkTrace(a, m, c + Chain(pr, i), reverse)
    decreases i
  {
    WalkFromStep(a, pr, m, i, c, reverse);
    ChainCons(pr, i);
    if pr[i] >= 0 {
      WalkFromChain(a, pr, m, pr[i], c + [i], reverse);
      SeqAssoc(c, i, Chain(pr, pr[i]));
    }
  }

  /** One anchor of the backtrace: record anchor i in the fake cigar. */
  method TraceStep(a: seq<Anchor>, m: int, i: int, reverse: bool, f0: FakeCigar, preGap0: int)
    returns (f: FakeCigar, preGap: int)
    requires AnchorsOk(a) && 0 <= m < |a| && 0 <= i < |a| && f0.Valid() && |Trace(f0)| >= 1
    requires preGap0 == Trace(f0)[|Trace(f0)| - 1].1
    ensures f.Valid() && Trace(f) == Record(Trace(f0), a[i].self_offset, Gap(a, m, i), reverse)
    ensures preGap == Trace(f)[|Trace(f)| - 1].1
  {
    var g := (a[m].offset - a[i].offset) - (a[m].self_offset - a[i].self_offset);
    assert g == Gap(a, m, i);
    f, preGap := f0, preGap0;
    if g != preGap {
      preGap := g;
      AddFakeCigarTrace(f, a[i].self_offset, preGap);
      f := AddFakeCigar(f, a[i].self_offset, preGap);
    } else if !reverse {
      TraceDropLast(f);
      AddFakeCigarTrace(f.(length := f.length - 1), a[i].self_offset, preGap);
      f := AddFakeCigar(f.(length := f.length - 1), a[i].self_offset, preGap);
    }
  }

  /** The walk of the backtrace: follow pre from m to the chain's first
      anchor, extending the trace at every anchor; returns the first anchor's
      coordinates. */
  method WalkBack(a: seq<Anchor>, pr: seq<int>, m: int, reverse: bool, f0: FakeCigar)
    returns (f: FakeCigar, xs: int, ys: int)
    requires AnchorsOk(a) && 0 <= m < |a| <= |pr| && f0.Valid()
    requires forall k :: 0 <= k <= m ==> -1 <= pr[k] < k
    requires Trace(f0) == [(a[m].self_offset, 0)]
    ensures f.Valid() && Trace(f) == WalkFrom(a, pr, m, m, Trace(f0), reverse)
    ensures xs == a[ChainStart(pr, m)].self_offset && ys == a[ChainStart(pr, m)].offset
  {
    f := f0;
    var preGap := 0;
    xs, ys := a[m].self_offset, a[m].offset;
    var i := m;
    while i >= 0
      invariant -1 <= i <= m && f.Valid() && |Trace(f)| >= 1
      invariant WalkFrom(a, pr, m, i, Trace(f), reverse) == WalkFrom(a, pr, m, m, Trace(f0), reverse)
      invariant preGap == Trace(f)[|Trace(f)| - 1].1
      invariant i >= 0 ==> ChainStart(pr, i) == ChainStart(pr, m)
      invariant i < 0 ==> xs == a[ChainStart(pr, m)].self_offset && ys == a[ChainStart(pr, m)].offset
      decreases i + 1
    {
      f, preGap := TraceStep(a, m, i, reverse, f, preGap);
      xs, ys := a[i].self_offset, a[i].offset;
      i := pr[i];
    }
  }

  /** The backtrace of chain_DP: the region ends at anchor m and starts at the
      first anchor of m's chain; it takes the best score and span, and its fake
      cigar is the chain's breakpoint trace. */
  method Backtrace(a: seq<Anchor>, pr: seq<int>, m: int, best: int, span: int,
                   result: OverlapRegion)
    returns (r: OverlapRegion)
    requires AnchorsOk(a) && 0 <= m < |a| <= |pr| && result.Valid()
    requires forall k :: 0 <= k <= m ==> -1 <= pr[k] < k
    ensures r.Valid()
    ensures r == result.(x_pos_s := a[ChainStart(pr, m)].self_offset, y_pos_s := a[ChainStart(pr, m)].offset,
                         x_pos_e := a[m].self_offset, y_pos_e := a[m].offset,
                         shared_seed := best, overlapLen := span, f_cigar := r.f_cigar)
    ensures Trace(r.f_cigar) == WalkTrace(a, m, Chain(pr, m), result.x_pos_strand == 1)
  {
    var f := ClearFakeCigar(result.f_cigar);
    AddFakeCigarTrace(f, a[m].self_offset, 0);
    f := AddFakeCigar(f, a[m].self_offset, 0);
    var xs, ys;
    f, xs, ys := WalkBack(a, pr, m, result.x_pos_strand == 1, f);
    WalkFromChain(a, pr, m, m, [], result.x_pos_strand == 1);
    assert [] + Chain(pr, m) == Chain(pr, m);
    r := result.(x_pos_s := xs, y_pos_s := ys, x_pos_e := a[m].self_offset, y_pos_e := a[m].offset,
                 shared_seed := best, overlapLen := span, f_cigar := f);
  }

  /** Adjacent entries of a trace differ in shift and strictly decrease in position. */
  predicate TraceShaped(t: seq<(int, int)>) {
    forall k :: 0 <= k < |t| - 1 ==> t[k].1 != t[k + 1].1 && t[k].0 > t[k + 1].0
  }

  /** Recording an anchor that lies before the trace's last entry (or at it,
      with the same shift) keeps the trace shaped. */
  lemma RecordShaped(t: seq<(int, int)>, site: int, g: int, reverse: bool)
    requires |t| >= 1 && TraceShaped(t)
    requires site <= t[|t| - 1].0 && (site == t[|t| - 1].0 ==> g == t[|t| - 1].1)
    ensures var t' := Record(t, site, g, reverse);
            TraceShaped(t') && t'[|t'| - 1].0 >= site
            && (!reverse ==> t'[|t'| - 1].0 == site)
            && (reverse ==> t'[0] == t[0])
  {
    var t' := Record(t, site, g, reverse);
    if g != t[|t| - 1].1 {
      assert t' == t + [(site, g)];
    } else if !reverse {
      assert t' == t[..|t| - 1] + [(site, g)];
      forall k | 0 <= k < |t'| - 1 ensures t'[k].1 != t'[k + 1].1 && t'[k].0 > t'[k + 1].0 {
        if k + 1 < |t| - 1 {
          assert t'[k] == t[k] && t'[k + 1] == t[k + 1];
        } else {
          assert t'[k] == t[k] && t[k].0 > t[k + 1].0;
        }
      }
    }
  }

  /** Shape of the recorded trace when the walk starts at m and the self
      offsets strictly decrease along it: adjacent entries have different
      shifts and strictly decreasing positions; the first entry has shift 0 on
      both strands, and on the reverse strand it is (x_pos_e, 0); on the forward strand the last entry sits at the
      walk's last anchor, and on either strand no entry lies before it. */
  lemma {:induction false} WalkTraceShape(a: seq<Anchor>, m: int, c: seq<int>, reverse: bool)
    requires 0 <= m < |a| && InRange(c, |a|)
    requires |c| >= 1 ==> c[0] == m
    requires forall k :: 0 <= k < |c| - 1 ==> a[c[k + 1]].self_offset < a[c[k]].self_offset
    ensures var t := WalkTrace(a, m, c, reverse);
            TraceShaped(t) && t[0].1 == 0
            && (reverse ==> t[0] == (a[m].self_offset, 0))
            && (|c| >= 1 ==> t[|t| - 1].0 >= a[c[|c| - 1]].self_offset)
            && (|c| >= 1 && !reverse ==> t[|t| - 1].0 == a[c[|c| - 1]].self_offset)
            && (|c| == 0 ==> t == [(a[m].self_offset, 0)])
    decreases |c|
  {
    if |c| > 0 {
      var c' := c[..|c| - 1];
      WalkTraceShape(a, m, c', reverse);
      var t' := WalkTrace(a, m, c', reverse);
      var k := c[|c| - 1];
      if |c| >= 2 {
        assert c'[|c'| - 1] == c[|c| - 2];
        assert a[k].self_offset < a[c'[|c'| - 1]].self_offset;
      } else {
        assert k == m && Gap(a, m, k) == 0;
      }
      RecordShaped(t', a[k].self_offset, Gap(a, m, k), reverse);
    }
  }

  /*************************** chain_DP ***************************/

  /** The scoring half of chain_DP: size the chain arrays, try the fast path,
      and run the DP when it fails. */
  method ChainScores(a: seq<Anchor>, dp: ChainData, bw: Band, maxSkip: int,
                     minSc: int, maxSize: int, penalty: Penalty)
    returns (ghost los: seq<int>)
    requires 1 <= |a| && SortedByOffset(a) && bw.Valid() && dp.Valid()
    modifies dp
    ensures dp.Valid() && dp.size >= |a| + 1
    ensures ChainConsistent(a, dp.pre, dp.indels, dp.selfLength, bw, |a|)
    ensures dp.score[0] == StartScore(a[0], minSc)
    ensures FastPathOk(a, bw, maxSize) ==>
              FastFilled(a, dp.score, dp.pre, dp.indels, dp.selfLength, |a|, minSc, penalty)
    ensures !FastPathOk(a, bw, maxSize) ==>
              DPFilled(a, dp.score, dp.pre, dp.indels, dp.selfLength, los, |a|, minSc, bw, maxSkip, penalty)
  {
    dp.Resize(|a|);
    var ret;
    ghost var written;
    ret, written := HaChainCheck(a, dp, minSc, bw, maxSize, penalty);
    los := [];
    if ret <= 0 {
      var sc, pr, ind, sl, tmp;
      sc, pr, ind, sl, tmp, los :=
        DPFill(a, dp.score, dp.pre, dp.indels, dp.selfLength, dp.tmp, minSc, bw, maxSkip, penalty);
      dp.score, dp.pre, dp.indels, dp.selfLength, dp.tmp := sc, pr, ind, sl, tmp;
      DPConsistent(a, dp.score, dp.pre, dp.indels, dp.selfLength, los, |a|, minSc, bw, maxSkip, penalty);
      assert DPEntry(a, dp.score, dp.pre, dp.indels, dp.selfLength, 0, los[0], minSc, bw, maxSkip, penalty);
    }
  }

  /** chain_DP: chain the bucket a (fast path when it succeeds, DP otherwise),
      pick the best chain end m and walk its chain back into the region. */
  method ChainDP(a: seq<Anchor>, dp: ChainData, result: OverlapRegion, bw: Band, maxSkip: int,
                 xLen: int, yLen: int, minSc: int, maxSize: int, penalty: Penalty)
    returns (r: OverlapRegion, m: int, ghost los: seq<int>)
    requires 1 <= |a| && AnchorsOk(a) && SortedByOffset(a) && bw.Valid()
    requires dp.Valid() && result.Valid() && minSc >= 0
    modifies dp
    ensures dp.Valid() && dp.size >= |a| + 1
    ensures ChainConsistent(a, dp.pre, dp.indels, dp.selfLength, bw, |a|)
    ensures FastPathOk(a, bw, maxSize) ==>
              FastFilled(a, dp.score, dp.pre, dp.indels, dp.selfLength, |a|, minSc, penalty)
    ensures !FastPathOk(a, bw, maxSize) ==>
              DPFilled(a, dp.score, dp.pre, dp.indels, dp.selfLength, los, |a|, minSc, bw, maxSkip, penalty)
    ensures IsBestEnd(a, dp.score, m, xLen, yLen)
    ensures r.Valid()
    ensures r == result.(x_pos_s := a[ChainStart(dp.pre, m)].self_offset,
                         y_pos_s := a[ChainStart(dp.pre, m)].offset,
                         x_pos_e := a[m].self_offset, y_pos_e := a[m].offset,
                         shared_seed := dp.score[m], overlapLen := AnchorSpan(a[m], xLen, yLen),
                         f_cigar := r.f_cigar)
    ensures Trace(r.f_cigar) == WalkTrace(a, m, Chain(dp.pre, m), result.x_pos_strand == 1)
  {
    los := ChainScores(a, dp, bw, maxSkip, minSc, maxSize, penalty);
    var best, span;
    m, best, span := BestEnd(a, dp.score, xLen, yLen);
    r := Backtrace(a, dp.pre, m, best, span, result);
  }

  /** The trace chain_DP reports has the shape WalkTraceShape describes. */
  lemma ChainTraceShape(a: seq<Anchor>, pre: seq<int>, indels: seq<int>, selfLength: seq<int>,
                        bw: Band, n: int, m: int, reverse: bool)
    requires ChainConsistent(a, pre, indels, selfLength, bw, n) && 0 <= m < n
    ensures var t := WalkTrace(a, m, Chain(pre, m), reverse);
            TraceShaped(t) && t[0].1 == 0
            && (reverse ==> t[0] == (a[m].self_offset, 0))
            && t[|t| - 1].0 >= a[ChainStart(pre, m)].self_offset
            && (!reverse ==> t[|t| - 1].0 == a[ChainStart(pre, m)].self_offset)
  {
    ChainMonotone(a, pre, indels, selfLength, bw, n, m);
    var c := Chain(pre, m);
    ChainFacts(pre, m);
    assert InRange(c, |a|);
    WalkTraceShape(a, m, c, reverse);
  }
}
