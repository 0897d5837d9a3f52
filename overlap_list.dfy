/**
 * The overlap list of one query read (overlap_region_alloc) and the append
 * that files a chained region into it: a region for the same target read as
 * the last one either replaces it or is dropped; the region is extended to
 * the read ends, stored on the forward strand of the query read, and its
 * breakpoint trace is copied with runs of equal shift collapsed.
 */
module OverlapList {
  import opened FakeCigars
  import opened Regions
  import opened Chaining
  import opened ChainDp

  datatype Option<T> = None | Some(value: T)

  /** Capacity init_overlap_region_alloc gives a new list. */
  const INIT_SIZE: nat := 1000

  /** The "no previous shift" marker of the trace copy; no decoded shift equals it. */
  const NO_SHIFT: int := 0xfff_ffff_ffff_ffff

  /*************************** duplicates ***************************/

  /** tmp is a better hit of the same target read than r: a higher score, or
      the same score over a shorter extended span. */
  predicate Better(tmp: OverlapRegion, r: OverlapRegion) {
    tmp.shared_seed > r.shared_seed
    || (tmp.shared_seed == r.shared_seed && tmp.overlapLen < r.overlapLen)
  }

  /** Where tmp goes in the list whose used part is `used`: nowhere when the
      last region has the same target and is at least as good, over the last
      region when it has the same target and is worse, otherwise after it. */
  function DedupSlot(used: seq<OverlapRegion>, tmp: OverlapRegion): (r: Option<nat>)
    ensures r.None? <==>
              |used| > 0 && used[|used| - 1].y_id == tmp.y_id && !Better(tmp, used[|used| - 1])
    ensures r == Some(|used|) <==> |used| == 0 || used[|used| - 1].y_id != tmp.y_id
    ensures |used| > 0 ==>
              (r == Some(|used| - 1) <==>
                 used[|used| - 1].y_id == tmp.y_id && Better(tmp, used[|used| - 1]))
  {
    if |used| != 0 && used[|used| - 1].y_id == tmp.y_id then
      var last := used[|used| - 1];
      if last.shared_seed > tmp.shared_seed
         || (last.shared_seed == tmp.shared_seed && last.overlapLen <= tmp.overlapLen)
      then None
      else Some(|used| - 1)
    else Some(|used|)
  }

  /** No two neighbouring regions of the list are for the same target read. */
  predicate AdjacentDistinct(used: seq<OverlapRegion>) {
    forall i :: 1 <= i < |used| ==> used[i - 1].y_id != used[i].y_id
  }

  /** Storing tmp where DedupSlot says keeps neighbouring targets distinct. */
  lemma DedupKeepsDistinct(used: seq<OverlapRegion>, tmp: OverlapRegion, slot: OverlapRegion, p: nat)
    requires AdjacentDistinct(used) && DedupSlot(used, tmp) == Some(p) && slot.y_id == tmp.y_id
    ensures AdjacentDistinct(used[..p] + [slot])
  {
    var u := used[..p] + [slot];
    forall i | 1 <= i < |u| ensures u[i - 1].y_id != u[i].y_id {
      if i < p {
        assert u[i - 1] == used[i - 1] && u[i] == used[i];
      } else {
        assert u[i - 1] == used[p - 1] && u[i] == slot;
      }
    }
  }

  /*************************** stored coordinates ***************************/

  /** Read lengths (Get_READ_LENGTH), indexed by read id. */
  predicate ReadLengthsOk(readLengths: seq<int>) {
    forall i :: 0 <= i < |readLengths| ==> 1 <= readLengths[i] <= MAX_COORD
  }

  /** A trace whose positions lie on a read of length xLen and whose shifts are
      at most two coordinate ranges apart. */
  predicate TraceOk(t: seq<(int, int)>, xLen: int) {
    forall k :: 0 <= k < |t| ==> 0 <= t[k].0 < xLen && -2 * MAX_COORD < t[k].1 < 2 * MAX_COORD
  }

  /** A region chain_DP hands to the append: ids of known reads, coordinates on
      them, a decodable trace. */
  predicate RegionOk(tmp: OverlapRegion, readLengths: seq<int>) {
    tmp.Valid() && ReadLengthsOk(readLengths)
    && 0 <= tmp.x_id < |readLengths| && 0 <= tmp.y_id < |readLengths|
    && 0 <= tmp.x_pos_s < readLengths[tmp.x_id] && 0 <= tmp.x_pos_e < readLengths[tmp.x_id]
    && 0 <= tmp.y_pos_s < readLengths[tmp.y_id] && 0 <= tmp.y_pos_e < readLengths[tmp.y_id]
    && TraceOk(Trace(tmp.f_cigar), readLengths[tmp.x_id])
  }

  /** tmp after the append has extended it to the read ends. */
  function ExtendTmp(tmp: OverlapRegion, readLengths: seq<int>): (t: OverlapRegion)
    requires RegionOk(tmp, readLengths)
    ensures RegionOk(t, readLengths)
    ensures t == tmp.(x_pos_s := t.x_pos_s, x_pos_e := t.x_pos_e, y_pos_s := t.y_pos_s, y_pos_e := t.y_pos_e)
    ensures t.x_pos_s == 0 || t.y_pos_s == 0
    ensures t.x_pos_e == readLengths[tmp.x_id] - 1 || t.y_pos_e == readLengths[tmp.y_id] - 1
    ensures t.y_pos_s - t.x_pos_s == tmp.y_pos_s - tmp.x_pos_s && t.y_pos_e - t.x_pos_e == tmp.y_pos_e - tmp.x_pos_e
  {
    var e := ExtendRegion(tmp.x_pos_s, tmp.x_pos_e, readLengths[tmp.x_id],
                          tmp.y_pos_s, tmp.y_pos_e, readLengths[tmp.y_id]);
    tmp.(x_pos_s := e.xs, x_pos_e := e.xe, y_pos_s := e.ys, y_pos_e := e.ye)
  }

  /** The fields the append writes into the slot from the extended region t:
      on the reverse strand both intervals are reflected (c -> len - c - 1) so
      that the query read is on its forward strand and the target on its
      reverse strand; the alignment results are reset.  Everything else,
      overlapLen included, keeps the slot's value. */
  function StoredCoords(slot: OverlapRegion, t: OverlapRegion, xLen: int, yLen: int): (r: OverlapRegion)
    ensures r == slot.(x_id := t.x_id, y_id := t.y_id,
                       x_pos_s := r.x_pos_s, x_pos_e := r.x_pos_e, x_pos_strand := r.x_pos_strand,
                       y_pos_s := r.y_pos_s, y_pos_e := r.y_pos_e, y_pos_strand := r.y_pos_strand,
                       shared_seed := t.shared_seed, align_length := 0, is_match := 0,
                       non_homopolymer_errors := 0, strong := 0)
    ensures r.x_pos_e - r.x_pos_s == t.x_pos_e - t.x_pos_s && r.y_pos_e - r.y_pos_s == t.y_pos_e - t.y_pos_s
    ensures 0 <= t.x_pos_s && t.x_pos_e < xLen && 0 <= t.y_pos_s && t.y_pos_e < yLen ==>
              0 <= r.x_pos_s && r.x_pos_e < xLen && 0 <= r.y_pos_s && r.y_pos_e < yLen
    ensures (t.x_pos_s == 0 || t.y_pos_s == 0) && (t.x_pos_e == xLen - 1 || t.y_pos_e == yLen - 1) ==>
              (r.x_pos_s == 0 || r.y_pos_s == 0) && (r.x_pos_e == xLen - 1 || r.y_pos_e == yLen - 1)
    ensures t.x_pos_strand == 1 ==> r.x_pos_strand == 0 && r.y_pos_strand == 1
    ensures t.x_pos_strand != 1 ==> r.x_pos_strand == t.x_pos_strand && r.y_pos_strand == t.y_pos_strand
    // reflecting the stored intervals once more gives back the region's own
    ensures t.x_pos_strand == 1 ==>
              xLen - r.x_pos_e - 1 == t.x_pos_s && xLen - r.x_pos_s - 1 == t.x_pos_e
              && yLen - r.y_pos_e - 1 == t.y_pos_s && yLen - r.y_pos_s - 1 == t.y_pos_e
    // on the forward strand the intervals are copied as they are
    ensures t.x_pos_strand != 1 ==>
              r.x_pos_s == t.x_pos_s && r.x_pos_e == t.x_pos_e
              && r.y_pos_s == t.y_pos_s && r.y_pos_e == t.y_pos_e
  {
    var r := slot.(x_id := t.x_id, y_id := t.y_id, shared_seed := t.shared_seed,
                   align_length := 0, is_match := 0, non_homopolymer_errors := 0, strong := 0);
    if t.x_pos_strand == 1 then
      r.(x_pos_e := xLen - t.x_pos_s - 1, x_pos_s := xLen - t.x_pos_e - 1, x_pos_strand := 0,
         y_pos_e := yLen - t.y_pos_s - 1, y_pos_s := yLen - t.y_pos_e - 1, y_pos_strand := 1)
    else
      r.(x_pos_e := t.x_pos_e, x_pos_s := t.x_pos_s, x_pos_strand := t.x_pos_strand,
         y_pos_e := t.y_pos_e, y_pos_s := t.y_pos_s, y_pos_strand := t.y_pos_strand)
  }

  /*************************** trace copy ***************************/

  /** The reverse-strand copy of the first n pairs of src: each run of equal
      shifts gives one entry at its first pair, its position reflected onto the
      forward strand of the query read. */
  function FwdTrace(src: seq<(int, int)>, xLen: int, n: nat): (t: seq<(int, int)>)
    requires n <= |src|
    ensures |t| <= n
    decreases n
  {
    if n == 0 then []
    else
      var t := FwdTrace(src, xLen, n - 1);
      if n == 1 || src[n - 1].1 != src[n - 2].1 then t + [(xLen - src[n - 1].0 - 1, src[n - 1].1)]
      else t
  }

  /** The forward-strand copy of the last n pairs of src, walked from the end:
      each run of equal shifts gives one entry at its last pair, its shift
      measured from the start of the region (init - shift). */
  function BwdTrace(src: seq<(int, int)>, init: int, n: nat): (t: seq<(int, int)>)
    requires n <= |src|
    ensures |t| <= n
    decreases n
  {
    if n == 0 then []
    else
      var t := BwdTrace(src, init, n - 1);
      var i := |src| - n;
      if n == 1 || src[i].1 != src[i + 1].1 then t + [(src[i].0, init - src[i].1)]
      else t
  }

  /** BwdTrace taking in the pair at index i. */
  lemma BwdTraceNext(src: seq<(int, int)>, init: int, i: int)
    requires 0 <= i < |src|
    ensures BwdTrace(src, init, |src| - i) ==
            if i == |src| - 1 || src[i].1 != src[i + 1].1
            then BwdTrace(src, init, |src| - 1 - i) + [(src[i].0, init - src[i].1)]
            else BwdTrace(src, init, |src| - 1 - i)
  {
  }

  /** When neighbouring shifts of src already differ (as in every trace
      chain_DP records), nothing is collapsed: the reverse-strand copy is src
      with reflected positions. */
  lemma {:induction false} FwdExact(src: seq<(int, int)>, xLen: int, n: nat)
    requires n <= |src| && forall k :: 0 <= k < |src| - 1 ==> src[k].1 != src[k + 1].1
    ensures var t := FwdTrace(src, xLen, n);
            |t| == n && forall k :: 0 <= k < n ==> t[k] == (xLen - src[k].0 - 1, src[k].1)
    decreases n
  {
    if n > 0 {
      FwdExact(src, xLen, n - 1);
      if n >= 2 {
        assert src[n - 2].1 != src[n - 1].1;
      }
    }
  }

  /** Likewise the forward-strand copy is src reversed, with shifts taken from init. */
  lemma {:induction false} BwdExact(src: seq<(int, int)>, init: int, n: nat)
    requires n <= |src| && forall k :: 0 <= k < |src| - 1 ==> src[k].1 != src[k + 1].1
    ensures var t := BwdTrace(src, init, n);
            |t| == n && forall k :: 0 <= k < n ==> t[k] == (src[|src| - 1 - k].0, init - src[|src| - 1 - k].1)
    decreases n
  {
    if n > 0 {
      BwdExact(src, init, n - 1);
      if n >= 2 {
        assert src[|src| - n].1 != src[|src| - n + 1].1;
      }
    }
  }

  /** Strictly increasing positions. */
  predicate Ascending(t: seq<(int, int)>) {
    forall k :: 0 <= k < |t| - 1 ==> t[k].0 < t[k + 1].0
  }

  /** A trace with strictly decreasing positions and differing neighbouring
      shifts (what chain_DP records) is copied into strictly increasing
      positions on either strand. */
  lemma CopyAscending(src: seq<(int, int)>, xLen: int, init: int)
    requires TraceShaped(src)
    ensures Ascending(FwdTrace(src, xLen, |src|)) && Ascending(BwdTrace(src, init, |src|))
    ensures |FwdTrace(src, xLen, |src|)| == |src| == |BwdTrace(src, init, |src|)|
  {
    FwdExact(src, xLen, |src|);
    BwdExact(src, init, |src|);
  }

  /** One pair of a trace copy: when its shift g differs from the previous
      pair's, add (site, shift) to f; g becomes the previous shift. The cigar
      holds t0 followed by the copy so far, done, and afterwards t0 followed
      by done', the copy with this pair taken in. */
  method AddIfNewShift(f0: FakeCigar, site: int, shift: int, g: int, pre0: int,
                       ghost t0: seq<(int, int)>, ghost done: seq<(int, int)>, ghost done': seq<(int, int)>)
    returns (f: FakeCigar, pre: int)
    requires f0.Valid() && SiteOk(site) && ShiftOk(shift)
    requires Trace(f0) == t0 + done && done' == if g != pre0 then done + [(site, shift)] else done
    ensures f.Valid() && pre == g
    ensures Trace(f) == t0 + done'
  {
    f, pre := f0, g;
    if g != pre0 {
      AddFakeCigarTrace(f0, site, shift);
      f := AddFakeCigar(f0, site, shift);
      assert t0 + (done + [(site, shift)]) == (t0 + done) + [(site, shift)];
    }
  }

  /** Pair i of a trace that TraceOk bounds, as the getters decode it. */
  lemma PairAt(src: FakeCigar, xLen: int, i: int)
    requires src.Valid() && TraceOk(Trace(src), xLen) && 0 <= i < src.length
    ensures Trace(src)[i] == (GetFakeGapPos(src, i), GetFakeGapShift(src, i))
    ensures 0 <= GetFakeGapPos(src, i) < xLen
    ensures -2 * MAX_COORD < GetFakeGapShift(src, i) < 2 * MAX_COORD
  {
    assert src.Entries()[i] == src.buffer[i];
  }

  /** FwdTrace taking in the pair at index i. */
  lemma FwdTraceNext(src: seq<(int, int)>, xLen: int, i: int)
    requires 0 <= i < |src|
    ensures FwdTrace(src, xLen, i + 1) ==
            if i == 0 || src[i].1 != src[i - 1].1
            then FwdTrace(src, xLen, i) + [(xLen - src[i].0 - 1, src[i].1)]
            else FwdTrace(src, xLen, i)
  {
  }

  /** The reverse-strand copy takes in pair i exactly when its shift differs
      from the previous one, pre. */
  lemma ReflectNext(src: FakeCigar, xLen: int, i: int, pre: int)
    requires src.Valid() && xLen <= MAX_COORD && TraceOk(Trace(src), xLen) && 0 <= i < src.length
    requires pre == if i == 0 then NO_SHIFT else Trace(src)[i - 1].1
    ensures SiteOk(xLen - GetFakeGapPos(src, i) - 1) && ShiftOk(GetFakeGapShift(src, i))
    ensures FwdTrace(Trace(src), xLen, i + 1) ==
            if GetFakeGapShift(src, i) != pre
            then FwdTrace(Trace(src), xLen, i) + [(xLen - GetFakeGapPos(src, i) - 1, GetFakeGapShift(src, i))]
            else FwdTrace(Trace(src), xLen, i)
    ensures GetFakeGapShift(src, i) == Trace(src)[i].1
  {
    PairAt(src, xLen, i);
    if i > 0 {
      PairAt(src, xLen, i - 1);
    }
    FwdTraceNext(Trace(src), xLen, i);
  }

  /** The forward-strand copy takes in pair i exactly when its shift differs
      from the next one, pre. */
  lemma ShiftNext(src: FakeCigar, xLen: int, init: int, i: int, pre: int)
    requires src.Valid() && TraceOk(Trace(src), xLen) && 0 <= i < src.length
    requires -2 * MAX_COORD < init < 2 * MAX_COORD
    requires pre == if i == src.length - 1 then NO_SHIFT else Trace(src)[i + 1].1
    ensures SiteOk(GetFakeGapPos(src, i)) && ShiftOk(init - GetFakeGapShift(src, i))
    ensures BwdTrace(Trace(src), init, src.length - 1 - (i - 1)) ==
            if GetFakeGapShift(src, i) != pre
            then BwdTrace(Trace(src), init, src.length - 1 - i) + [(GetFakeGapPos(src, i), init - GetFakeGapShift(src, i))]
            else BwdTrace(Trace(src), init, src.length - 1 - i)
    ensures GetFakeGapShift(src, i) == Trace(src)[i].1
  {
    PairAt(src, xLen, i);
    if i < src.length - 1 {
      PairAt(src, xLen, i + 1);
    }
    BwdTraceNext(Trace(src), init, i);
  }

  /** The reverse-strand copy after the first i pairs of st, the trace of src. */
  ghost predicate ReflectInv(f0: FakeCigar, src: FakeCigar, xLen: int, i: int, f: FakeCigar, pre: int)
    requires src.Valid()
  {
    0 <= i <= src.length && f0.Valid() && f.Valid()
    && Trace(f) == Trace(f0) + FwdTrace(Trace(src), xLen, i)
    && pre == if i == 0 then NO_SHIFT else Trace(src)[i - 1].1
  }

  /** One pair of the reverse-strand copy loop. */
  method ReflectStep(f0: FakeCigar, src: FakeCigar, xLen: int, i: int, f: FakeCigar, pre: int)
    returns (f': FakeCigar, pre': int)
    requires src.Valid() && xLen <= MAX_COORD && TraceOk(Trace(src), xLen)
    requires ReflectInv(f0, src, xLen, i, f, pre) && i < src.length
    ensures ReflectInv(f0, src, xLen, i + 1, f', pre')
  {
    ReflectNext(src, xLen, i, pre);
    var g := GetFakeGapShift(src, i);
    f', pre' := AddIfNewShift(f, xLen - GetFakeGapPos(src, i) - 1, g, g, pre,
                              Trace(f0), FwdTrace(Trace(src), xLen, i), FwdTrace(Trace(src), xLen, i + 1));
  }

  /** The reverse-strand copy loop. */
  method CopyReflected(f0: FakeCigar, src: FakeCigar, xLen: int) returns (f: FakeCigar)
    requires f0.Valid() && src.Valid() && xLen <= MAX_COORD && TraceOk(Trace(src), xLen)
    ensures f.Valid() && Trace(f) == Trace(f0) + FwdTrace(Trace(src), xLen, src.length)
  {
    f := f0;
    var pre := NO_SHIFT;
    var i := 0;
    while i < src.length
      invariant ReflectInv(f0, src, xLen, i, f, pre)
    {
      f, pre := ReflectStep(f0, src, xLen, i, f, pre);
      i := i + 1;
    }
  }

  /** The forward-strand copy after the pairs of st, the trace of src, from
      the last down to index i + 1. */
  ghost predicate ShiftInv(f0: FakeCigar, src: FakeCigar, init: int, i: int, f: FakeCigar, pre: int)
    requires src.Valid()
  {
    -1 <= i < src.length && f0.Valid() && f.Valid()
    && Trace(f) == Trace(f0) + BwdTrace(Trace(src), init, src.length - 1 - i)
    && pre == if i == src.length - 1 then NO_SHIFT else Trace(src)[i + 1].1
  }

  /** One pair of the forward-strand copy loop. */
  method ShiftStep(f0: FakeCigar, src: FakeCigar, xLen: int, init: int, i: int, f: FakeCigar, pre: int)
    returns (f': FakeCigar, pre': int)
    requires src.Valid() && xLen <= MAX_COORD && TraceOk(Trace(src), xLen)
    requires -2 * MAX_COORD < init < 2 * MAX_COORD
    requires ShiftInv(f0, src, init, i, f, pre) && i >= 0
    ensures ShiftInv(f0, src, init, i - 1, f', pre')
  {
    ShiftNext(src, xLen, init, i, pre);
    var g := GetFakeGapShift(src, i);
    f', pre' := AddIfNewShift(f, GetFakeGapPos(src, i), init - g, g, pre,
                              Trace(f0), BwdTrace(Trace(src), init, src.length - 1 - i),
                              BwdTrace(Trace(src), init, src.length - 1 - (i - 1)));
  }

  /** The forward-strand copy loop, from the last pair to the first. */
  method CopyShifted(f0: FakeCigar, src: FakeCigar, xLen: int, init: int) returns (f: FakeCigar)
    requires f0.Valid() && src.Valid() && xLen <= MAX_COORD && TraceOk(Trace(src), xLen)
    requires -2 * MAX_COORD < init < 2 * MAX_COORD
    ensures f.Valid() && Trace(f) == Trace(f0) + BwdTrace(Trace(src), init, src.length)
  {
    f := f0;
    var pre := NO_SHIFT;
    var i := src.length - 1;
    while i >= 0
      invariant ShiftInv(f0, src, init, i, f, pre)
    {
      f, pre := ShiftStep(f0, src, xLen, init, i, f, pre);
      i := i - 1;
    }
  }

  /** init_distance_gap of the forward-strand copy: the region's target span
      minus its query span. */
  function InitGap(t: OverlapRegion): int {
    (t.y_pos_e - t.y_pos_s) - (t.x_pos_e - t.x_pos_s)
  }

  /** The trace the append stores in the slot, whose query interval is
      xs..xe, for a region whose own trace is src: the copy of src for its
      strand and, with add_beg_end, a (xs, 0) entry first and, unless the copy
      already ends at xe, an end entry at xe repeating the last shift. */
  function SlotTrace(src: seq<(int, int)>, reverse: bool, xs: int, xe: int, init: int,
                     xLen: int, addBegEnd: int): (u: seq<(int, int)>)
    ensures addBegEnd == 1 ==> |u| >= 1 && u[0] == (xs, 0) && u[|u| - 1].0 == xe
    ensures addBegEnd != 1 ==>
              u == if reverse then FwdTrace(src, xLen, |src|) else BwdTrace(src, init, |src|)
  {
    var body := if reverse then FwdTrace(src, xLen, |src|) else BwdTrace(src, init, |src|);
    if addBegEnd != 1 then body
    else
      var u := [(xs, 0)] + body;
      if u[|u| - 1].0 != xe then u + [(xe, u[|u| - 1].1)] else u
  }

  /** The cigar part of the append: after the resize, the optional start
      entry, the strand's copy loop, the optional end entry. */
  method SlotCigar(f0: FakeCigar, src: FakeCigar, reverse: bool, xs: int, xe: int, init: int,
                   xLen: int, addBegEnd: int) returns (f: FakeCigar)
    requires f0.Valid() && Trace(f0) == [] && src.Valid() && xLen <= MAX_COORD
    requires TraceOk(Trace(src), xLen) && 0 <= xs < xLen && 0 <= xe < xLen
    requires -2 * MAX_COORD < init < 2 * MAX_COORD
    ensures f.Valid() && Trace(f) == SlotTrace(Trace(src), reverse, xs, xe, init, xLen, addBegEnd)
  {
    f := f0;
    if addBegEnd == 1 {
      AddFakeCigarTrace(f, xs, 0);
      f := AddFakeCigar(f, xs, 0);
    }
    ghost var beg := Trace(f);
    assert beg == if addBegEnd == 1 then [(xs, 0)] else [];
    if reverse {
      f := CopyReflected(f, src, xLen);
    } else {
      f := CopyShifted(f, src, xLen, init);
    }
    if addBegEnd == 1 && GetFakeGapPos(f, f.length - 1) != xe {
      assert Trace(f)[f.length - 1] == (GetFakeGapPos(f, f.length - 1), GetFakeGapShift(f, f.length - 1));
      var sh := GetFakeGapShift(f, f.length - 1);
      AddFakeCigarTrace(f, xe, sh);
      f := AddFakeCigar(f, xe, sh);
    }
  }

  /** Fill the slot from the extended region t (the body of the append after
      the duplicate test): the stored coordinates, and the trace copied into
      the slot's own cigar buffer, resized to at least t's length + 2 words. */
  method FillSlot(slot0: OverlapRegion, t: OverlapRegion, xLen: int, yLen: int, addBegEnd: int)
    returns (slot: OverlapRegion)
    requires slot0.Valid() && t.Valid() && 1 <= xLen <= MAX_COORD && 1 <= yLen <= MAX_COORD
    requires 0 <= t.x_pos_s < xLen && 0 <= t.x_pos_e < xLen && 0 <= t.y_pos_s < yLen && 0 <= t.y_pos_e < yLen
    requires TraceOk(Trace(t.f_cigar), xLen)
    ensures slot.Valid()
    ensures slot == StoredCoords(slot0, t, xLen, yLen).(f_cigar := slot.f_cigar)
    ensures Trace(slot.f_cigar) ==
            SlotTrace(Trace(t.f_cigar), t.x_pos_strand == 1, slot.x_pos_s, slot.x_pos_e, InitGap(t),
                      xLen, addBegEnd)
  {
    var s := StoredCoords(slot0, t, xLen, yLen);
    var f := ResizeFakeCigar(slot0.f_cigar, t.f_cigar.length + 2);
    f := SlotCigar(f, t.f_cigar, t.x_pos_strand == 1, s.x_pos_s, s.x_pos_e, InitGap(t), xLen, addBegEnd);
    slot := s.(f_cigar := f);
  }
}

module OverlapAlloc {
  import opened FakeCigars
  import opened Regions
  import opened Chaining
  import opened ChainDp
  import opened OverlapList

  /** A slot after clear_overlap_region_alloc: no windows, an empty cigar, no
      boundary cigars; buffers and every other field are kept. */
  function ClearSlot(r: OverlapRegion): (c: OverlapRegion)
    requires r.Valid()
    ensures c.Valid() && c.w_list_length == 0 && Trace(c.f_cigar) == [] && c.boundary_cigars.length == 0
    ensures c == r.(w_list_length := 0, f_cigar := c.f_cigar, boundary_cigars := c.boundary_cigars)
    ensures c.f_cigar.buffer == r.f_cigar.buffer && c.boundary_cigars.buffer == r.boundary_cigars.buffer
  {
    r.(w_list_length := 0, f_cigar := ClearFakeCigar(r.f_cigar),
       boundary_cigars := ClearWindowListAlloc(r.boundary_cigars))
  }

  /** The slots after the append's growth test: doubled, the new half zeroed,
      when the list is full. */
  function Grown(l: seq<OverlapRegion>, length: nat): (g: seq<OverlapRegion>)
    ensures |g| == if length + 1 > |l| then 2 * |l| else |l|
    ensures g[..|l|] == l && forall i :: 0 <= i < |l| ==> g[i] == l[i]
    ensures forall i :: |l| <= i < |g| ==> g[i] == ZeroRegion
  {
    if length + 1 > |l| then l + seq(|l|, _ => ZeroRegion) else l
  }

  /** Slots whose buffers are consistent. */
  ghost predicate SlotsValid(l: seq<OverlapRegion>) {
    forall i :: 0 <= i < |l| ==> l[i].Valid()
  }

  /** Where the append leaves slot p of the grown list g: tmp's extended copy
      stored over it. */
  ghost predicate StoredAt(l: seq<OverlapRegion>, g: seq<OverlapRegion>, p: nat, tmp: OverlapRegion,
                           tmpE: OverlapRegion, readLengths: seq<int>, addBegEnd: int)
    requires RegionOk(tmp, readLengths)
  {
    p < |g| && |l| == |g| && l == g[p := l[p]]
    && l[p] == StoredCoords(g[p], tmpE, readLengths[tmp.x_id], readLengths[tmp.y_id]).(f_cigar := l[p].f_cigar)
    && l[p].Valid()
    && Trace(l[p].f_cigar) ==
       SlotTrace(Trace(tmp.f_cigar), tmp.x_pos_strand == 1, l[p].x_pos_s, l[p].x_pos_e,
                 InitGap(tmpE), readLengths[tmp.x_id], addBegEnd)
  }

  /** The append on the slots themselves (see OverlapRegionAlloc.Append). */
  method AppendSlots(l0: seq<OverlapRegion>, length0: nat, tmp: OverlapRegion, readLengths: seq<int>,
                     addBegEnd: int)
    returns (l: seq<OverlapRegion>, length: nat, ret: int, tmpE: OverlapRegion)
    requires SlotsValid(l0) && length0 <= |l0| && |l0| >= 1 && RegionOk(tmp, readLengths)
    ensures SlotsValid(l) && length <= |l| == |Grown(l0, length0)|
    ensures ret == 0 <==> DedupSlot(l0[..length0], tmp).None?
    ensures ret == 0 ==> tmpE == tmp && length == length0 && l == Grown(l0, length0)
    ensures ret != 0 ==>
              var p := DedupSlot(l0[..length0], tmp).value;
              ret == 1 && tmpE == ExtendTmp(tmp, readLengths) && length == p + 1
              && StoredAt(l, Grown(l0, length0), p, tmp, tmpE, readLengths, addBegEnd)
    ensures AdjacentDistinct(l0[..length0]) ==> AdjacentDistinct(l[..length])
  {
    ghost var used := l0[..length0];
    l := Grown(l0, length0);
    GrownValid(l0, length0);
    assert l[..length0] == used by {
      assert l[..length0] == l[..|l0|][..length0];
    }
    var d := DedupSlot(l[..length0], tmp);
    if d.None? {
      length, ret, tmpE := length0, 0, tmp;
      return;
    }
    var p := d.value;
    tmpE := ExtendTmp(tmp, readLengths);
    var slot := FillSlot(l[p], tmpE, readLengths[tmp.x_id], readLengths[tmp.y_id], addBegEnd);
    ghost var g := l;
    l := l[p := slot];
    length := p + 1;
    ret := 1;
    assert l[..length] == used[..p] + [slot];
    if AdjacentDistinct(used) {
      DedupKeepsDistinct(used, tmp, slot, p);
    }
  }

  lemma GrownValid(l: seq<OverlapRegion>, length: nat)
    requires SlotsValid(l)
    ensures SlotsValid(Grown(l, length))
  {
    var g := Grown(l, length);
    ZeroRegionValid();
    forall i | 0 <= i < |g| ensures g[i].Valid() {
      if i < |l| {
        assert g[i] == g[..|l|][i];
      }
    }
  }

  /** overlap_region_alloc: the overlap regions found for one query read. */
  class OverlapRegionAlloc {
    var list: seq<OverlapRegion>
    var length: nat
    var size: nat
    var mappedOverlapsLength: nat

    ghost predicate Valid()
      reads this
    {
      |list| == size && length <= size && size >= 1
      && forall i :: 0 <= i < size ==> list[i].Valid()
    }

    /** The regions in use. */
    ghost function Used(): seq<OverlapRegion>
      reads this
      requires Valid()
    {
      list[..length]
    }

    /** init_overlap_region_alloc: INIT_SIZE zeroed slots, none in use. It
        never writes mapped_overlaps_length, so that field keeps the value
        mapped it held before. */
    constructor (mapped: nat)
      ensures Valid() && size == INIT_SIZE && length == 0 && mappedOverlapsLength == mapped
      ensures list == seq(INIT_SIZE, _ => ZeroRegion)
    {
      ZeroRegionValid();
      list := seq(INIT_SIZE, _ => ZeroRegion);
      length, size, mappedOverlapsLength := 0, INIT_SIZE, mapped;
    }

    /** clear_overlap_region_alloc: no region in use, every slot cleared. */
    method Clear()
      requires Valid()
      modifies this`list, this`length, this`mappedOverlapsLength
      ensures Valid() && length == 0 && mappedOverlapsLength == 0 && size == old(size)
      ensures forall i :: 0 <= i < size ==> list[i] == ClearSlot(old(list[i]))
    {
      length := 0;
      mappedOverlapsLength := 0;
      var l := list;
      var i := 0;
      while i < size
        invariant 0 <= i <= size == |l| == |list|
        invariant forall k :: 0 <= k < i ==> l[k] == ClearSlot(list[k])
        invariant forall k :: i <= k < size ==> l[k] == list[k]
      {
        l := l[i := ClearSlot(l[i])];
        i := i + 1;
      }
      list := l;
    }

    /** append_inexact_overlap_region_alloc: file tmp (one chained region of
        the query read, ids x_id/y_id) into the list.  Returns 0 when the last
        region in use is for the same target and at least as good; otherwise
        tmp, extended to the read ends, is stored over that region or after the
        last one, and 1 is returned.  tmp itself is extended in place, which
        the second result models. */
    method Append(tmp: OverlapRegion, readLengths: seq<int>, addBegEnd: int)
      returns (ret: int, tmpE: OverlapRegion)
      requires Valid() && RegionOk(tmp, readLengths)
      modifies this`list, this`length, this`size
      ensures Valid() && size == |Grown(old(list), old(length))|
      ensures ret == 0 <==> DedupSlot(old(Used()), tmp).None?
      ensures ret == 0 ==> tmpE == tmp && length == old(length) && list == Grown(old(list), old(length))
      ensures ret != 0 ==>
                var p := DedupSlot(old(Used()), tmp).value;
                ret == 1 && tmpE == ExtendTmp(tmp, readLengths) && length == p + 1
                && StoredAt(list, Grown(old(list), old(length)), p, tmp, tmpE, readLengths, addBegEnd)
      ensures AdjacentDistinct(old(Used())) ==> AdjacentDistinct(Used())
    {
      var l, n;
      l, n, ret, tmpE := AppendSlots(list, length, tmp, readLengths, addBegEnd);
      list, length, size := l, n, |l|;
    }
  }
}
