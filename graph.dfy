/**
 * The assembly graph of paf2gfa (gfa_t as the overlap-graph builder uses it):
 * segments, one per read, and arcs between oriented vertices.  Vertex v is
 * read v / 2 on strand v % 2; v ^ 1 is the other end of the same read.
 */
module Graph {

  /** The other end of vertex v (v ^ 1). */
  function Flip(v: nat): (u: nat)
    ensures u / 2 == v / 2 && u % 2 != v % 2
    ensures u == if v % 2 == 0 then v + 1 else v - 1
  {
    if v % 2 == 0 then v + 1 else v - 1
  }

  lemma FlipFlip(v: nat)
    ensures Flip(Flip(v)) == v
  {
  }

  /** gfa_seg_t, reduced to the fields the builder sets. */
  datatype Seg = Seg(len: int, del: bool, rank: int, snid: int)

  /** gfa_arc_t: an arc v -> w whose v_lv packs v with the arc length len
      (its low 32 bits, gfa_arc_len). */
  datatype Arc = Arc(v: nat, w: nat, len: int, ov: int, ow: int, strong: int,
                     del: bool, linkId: int, comp: int)

  /** Slots realloc adds to the arc buffer; their contents are unspecified. */
  const BlankArc: Arc := Arc(0, 0, 0, 0, 0, 0, false, 0, 0)

  /** The capacity gfa_arc_pushp moves to when the arc buffer is full. */
  function GrownCapacity(m: nat): (m': nat)
    ensures m' > m && (m == 0 ==> m' == 16) && (m > 0 ==> m' == 2 * m)
  {
    if m == 0 then 16 else 2 * m
  }

  class Gfa {
    var seg: seq<Seg>
    var arc: seq<Arc>
    var nArc: nat
    var mArc: nat

    ghost predicate Valid()
      reads this
    {
      |arc| == mArc && nArc <= mArc
    }

    /** The arcs in use. */
    ghost function Arcs(): seq<Arc>
      reads this
      requires Valid()
    {
      arc[..nArc]
    }

    /** gfa_init (as seen by this builder): no segments, no arcs. */
    constructor ()
      ensures Valid() && seg == [] && arc == [] && nArc == 0 && mArc == 0
    {
      seg, arc, nArc, mArc := [], [], 0, 0;
    }

    /** gfa_arc_pushp followed by the caller's store of t into the slot it
        returns: the arc buffer grows to 16 slots, or doubles, when full; t
        goes into slot nArc, which is then counted. */
    method PushArc(t: Arc)
      requires Valid()
      modifies this`arc, this`nArc, this`mArc
      ensures Valid() && nArc == old(nArc) + 1
      ensures mArc == if old(nArc) == old(mArc) then GrownCapacity(old(mArc)) else old(mArc)
      ensures Arcs() == old(Arcs()) + [t]
    {
      if nArc == mArc {
        mArc := GrownCapacity(mArc);
        arc := arc + seq(mArc - |arc|, _ => BlankArc);
      }
      assert arc[..nArc] == old(arc[..nArc]);
      arc := arc[nArc := t];
      nArc := nArc + 1;
      assert arc[..nArc] == old(arc[..nArc]) + [t];
    }
  }
}

/**
 * ma_sg_gen: the string graph of the reads, from the trimmed overlaps.
 */
module StringGraph {
  import opened Graph

  datatype Option<T> = None | Some(value: T)

  /** A read of the sequence dictionary: its length and whether it was dropped. */
  datatype SeqInfo = SeqInfo(len: int, del: bool)

  /** ma_sub_t: the kept interval s..e of a read. */
  datatype Sub = Sub(s: int, e: int, del: bool)

  /** ma_hit_t: query qn on qs..qe, target tn on ts..te, rev for opposite strands. */
  datatype Hit = Hit(qn: nat, qs: int, qe: int, tn: nat, ts: int, te: int, rev: bool)

  /** ma_hit2arc with max_hang, int_frac and min_ovlp fixed: given a hit and the
      query and target lengths, a result code (non-negative when the hit gives
      an arc) and the arc. */
  type HitToArc = (Hit, int, int) -> (int, Arc)

  predicate InputOk(d: seq<SeqInfo>, sub: Option<seq<Sub>>, hits: seq<Hit>) {
    (sub.Some? ==> |sub.value| == |d|)
    && forall i :: 0 <= i < |hits| ==> hits[i].qn < |d| && hits[i].tn < |d|
  }

  /** The segment of read i: its trimmed length and deletion mark when there is
      a trimming, otherwise the dictionary's. */
  function SegOf(d: seq<SeqInfo>, sub: Option<seq<Sub>>, i: nat): (s: Seg)
    requires i < |d| && (sub.Some? ==> |sub.value| == |d|)
    ensures sub.None? ==> s.len == d[i].len && s.del == d[i].del
    ensures sub.Some? ==> s.len == sub.value[i].e - sub.value[i].s && s.del == (sub.value[i].del || d[i].del)
  {
    if sub.Some? then Seg(sub.value[i].e - sub.value[i].s, sub.value[i].del || d[i].del, 0, 0)
    else Seg(d[i].len, d[i].del, 0, 0)
  }

  /** Length of read n as the hit loop sees it. */
  function ReadLen(d: seq<SeqInfo>, sub: Option<seq<Sub>>, n: nat): int
    requires n < |d| && (sub.Some? ==> |sub.value| == |d|)
  {
    SegOf(d, sub, n).len
  }

  /** ma_hit2arc's verdict on hit h. */
  function Outcome(d: seq<SeqInfo>, sub: Option<seq<Sub>>, h: Hit, hit2arc: HitToArc): (int, Arc)
    requires h.qn < |d| && h.tn < |d| && (sub.Some? ==> |sub.value| == |d|)
  {
    hit2arc(h, ReadLen(d, sub, h.qn), ReadLen(d, sub, h.tn))
  }

  /** Hit h adds an arc: it is accepted and not a self match. */
  predicate AddsArc(d: seq<SeqInfo>, sub: Option<seq<Sub>>, h: Hit, hit2arc: HitToArc)
    requires h.qn < |d| && h.tn < |d| && (sub.Some? ==> |sub.value| == |d|)
  {
    Outcome(d, sub, h, hit2arc).0 >= 0 && h.qn != h.tn
  }

  /** Hit h deletes its query read: an accepted self match of the read onto its
      own reverse strand at the same interval, or a query containment. */
  predicate DeletesQuery(d: seq<SeqInfo>, sub: Option<seq<Sub>>, h: Hit, hit2arc: HitToArc, qcont: int)
    requires h.qn < |d| && h.tn < |d| && (sub.Some? ==> |sub.value| == |d|)
  {
    var r := Outcome(d, sub, h, hit2arc).0;
    (r >= 0 && h.qn == h.tn && h.qs == h.ts && h.qe == h.te && h.rev)
    || (r < 0 && r == qcont)
  }

  /** The arcs the hit loop pushes, in hit order. */
  function HitArcs(d: seq<SeqInfo>, sub: Option<seq<Sub>>, hits: seq<Hit>, hit2arc: HitToArc): (arcs: seq<Arc>)
    requires InputOk(d, sub, hits)
    ensures |arcs| <= |hits|
  {
    if |hits| == 0 then []
    else
      var h := hits[|hits| - 1];
      HitArcs(d, sub, hits[..|hits| - 1], hit2arc)
      + (if AddsArc(d, sub, h, hit2arc) then [Outcome(d, sub, h, hit2arc).1] else [])
  }

  /** Every arc pushed is the arc ma_hit2arc gave for some accepted non-self hit. */
  lemma {:induction false} HitArcsFrom(d: seq<SeqInfo>, sub: Option<seq<Sub>>, hits: seq<Hit>,
                                       hit2arc: HitToArc, k: nat)
    requires InputOk(d, sub, hits) && k < |HitArcs(d, sub, hits, hit2arc)|
    ensures exists i :: 0 <= i < |hits| && AddsArc(d, sub, hits[i], hit2arc)
                        && HitArcs(d, sub, hits, hit2arc)[k] == Outcome(d, sub, hits[i], hit2arc).1
    decreases |hits|
  {
    var n := |hits|;
    var pre := hits[..n - 1];
    assert InputOk(d, sub, pre);
    var tail := if AddsArc(d, sub, hits[n - 1], hit2arc) then [Outcome(d, sub, hits[n - 1], hit2arc).1] else [];
    assert HitArcs(d, sub, hits, hit2arc) == HitArcs(d, sub, pre, hit2arc) + tail;
    if k < |HitArcs(d, sub, pre, hit2arc)| {
      HitArcsFrom(d, sub, pre, hit2arc, k);
      var i :| 0 <= i < |pre| && AddsArc(d, sub, pre[i], hit2arc)
               && HitArcs(d, sub, pre, hit2arc)[k] == Outcome(d, sub, pre[i], hit2arc).1;
      assert pre[i] == hits[i];
      assert HitArcs(d, sub, hits, hit2arc)[k] == HitArcs(d, sub, pre, hit2arc)[k];
    } else {
      assert AddsArc(d, sub, hits[n - 1], hit2arc);
      assert HitArcs(d, sub, hits, hit2arc)[k] == Outcome(d, sub, hits[n - 1], hit2arc).1;
    }
  }

  /** The segment table after the hit loop: read i is deleted when its own
      mark says so or some hit deletes it. */
  predicate SegTable(seg: seq<Seg>, d: seq<SeqInfo>, sub: Option<seq<Sub>>, hits: seq<Hit>, n: nat,
                     hit2arc: HitToArc, qcont: int)
    requires InputOk(d, sub, hits) && n <= |hits|
  {
    |seg| == |d|
    && forall k :: 0 <= k < |d| ==>
         seg[k].len == SegOf(d, sub, k).len
         && (seg[k].del <==> SegOf(d, sub, k).del
                             || exists j :: 0 <= j < n && hits[j].qn == k
                                            && DeletesQuery(d, sub, hits[j], hit2arc, qcont))
  }

  /** HitArcs taking in hit i. */
  lemma HitArcsNext(d: seq<SeqInfo>, sub: Option<seq<Sub>>, hits: seq<Hit>, hit2arc: HitToArc, i: nat)
    requires InputOk(d, sub, hits) && i < |hits|
    ensures InputOk(d, sub, hits[..i]) && InputOk(d, sub, hits[..i + 1])
    ensures HitArcs(d, sub, hits[..i + 1], hit2arc) == HitArcs(d, sub, hits[..i], hit2arc)
            + (if AddsArc(d, sub, hits[i], hit2arc) then [Outcome(d, sub, hits[i], hit2arc).1] else [])
  {
    assert hits[..i + 1][..i] == hits[..i];
  }

  /** One hit of the loop: a self match of a read onto its own reverse strand
      at the same interval, or a query containment, deletes the query read; any
      other accepted hit pushes its arc. */
  method VisitHit(g: Gfa, d: seq<SeqInfo>, sub: Option<seq<Sub>>, hits: seq<Hit>,
                  hit2arc: HitToArc, qcont: int, i: nat)
    requires InputOk(d, sub, hits) && i < |hits| && g.Valid()
    requires SegTable(g.seg, d, sub, hits, i, hit2arc, qcont)
    requires g.Arcs() == HitArcs(d, sub, hits[..i], hit2arc)
    modifies g
    ensures g.Valid() && SegTable(g.seg, d, sub, hits, i + 1, hit2arc, qcont)
    ensures g.Arcs() == HitArcs(d, sub, hits[..i + 1], hit2arc)
  {
    HitArcsNext(d, sub, hits, hit2arc, i);
    var h := hits[i];
    var rt := hit2arc(h, ReadLen(d, sub, h.qn), ReadLen(d, sub, h.tn));
    var r, t := rt.0, rt.1;
    ghost var seg0 := g.seg;
    if r >= 0 {
      if h.qn == h.tn {
        if h.qs == h.ts && h.qe == h.te && h.rev {
          g.seg := g.seg[h.qn := g.seg[h.qn].(del := true)];
        }
      } else {
        g.PushArc(t);
      }
    } else if r == qcont {
      g.seg := g.seg[h.qn := g.seg[h.qn].(del := true)];
    }
    SegTableStep(seg0, g.seg, d, sub, hits, i, hit2arc, qcont);
  }

  /** The hit loop on values: the segments' deletion marks and the arcs pushed. */
  method HitLoop(g: Gfa, d: seq<SeqInfo>, sub: Option<seq<Sub>>, hits: seq<Hit>,
                 hit2arc: HitToArc, qcont: int)
    requires InputOk(d, sub, hits) && g.Valid() && g.Arcs() == []
    requires SegTable(g.seg, d, sub, hits, 0, hit2arc, qcont)
    modifies g
    ensures g.Valid() && SegTable(g.seg, d, sub, hits, |hits|, hit2arc, qcont)
    ensures g.Arcs() == HitArcs(d, sub, hits, hit2arc)
  {
    var i := 0;
    while i < |hits|
      invariant 0 <= i <= |hits| && g.Valid()
      invariant SegTable(g.seg, d, sub, hits, i, hit2arc, qcont)
      invariant g.Arcs() == HitArcs(d, sub, hits[..i], hit2arc)
    {
      VisitHit(g, d, sub, hits, hit2arc, qcont, i);
      i := i + 1;
    }
    assert hits[..|hits|] == hits;
  }

  /** One hit keeps the segment table. */
  lemma SegTableStep(seg0: seq<Seg>, seg: seq<Seg>, d: seq<SeqInfo>, sub: Option<seq<Sub>>,
                     hits: seq<Hit>, i: nat, hit2arc: HitToArc, qcont: int)
    requires InputOk(d, sub, hits) && i < |hits| && SegTable(seg0, d, sub, hits, i, hit2arc, qcont)
    requires var h := hits[i];
             if DeletesQuery(d, sub, h, hit2arc, qcont) then seg == seg0[h.qn := seg0[h.qn].(del := true)]
             else seg == seg0
    ensures SegTable(seg, d, sub, hits, i + 1, hit2arc, qcont)
  {
    var h := hits[i];
    forall k | 0 <= k < |d|
      ensures seg[k].del <==> SegOf(d, sub, k).del
                              || exists j :: 0 <= j < i + 1 && hits[j].qn == k
                                             && DeletesQuery(d, sub, hits[j], hit2arc, qcont)
    {
      if h.qn == k && DeletesQuery(d, sub, h, hit2arc, qcont) {
        assert seg[k].del;
      }
    }
  }

  /** ma_sg_gen up to the clean-up passes: one segment per read, an arc for
      every accepted non-self hit, deletion marks from self matches and query
      containments, and every arc's link_id set to the number of arcs. */
  method MaSgGen(d: seq<SeqInfo>, sub: Option<seq<Sub>>, hits: seq<Hit>, hit2arc: HitToArc, qcont: int)
    returns (g: Gfa)
    requires InputOk(d, sub, hits)
    ensures fresh(g) && g.Valid()
    ensures SegTable(g.seg, d, sub, hits, |hits|, hit2arc, qcont)
    ensures |g.Arcs()| == |HitArcs(d, sub, hits, hit2arc)|
    ensures forall k :: 0 <= k < g.nArc ==>
              g.arc[k] == HitArcs(d, sub, hits, hit2arc)[k].(linkId := g.nArc)
  {
    g := new Gfa();
    var seg := [];
    var i := 0;
    while i < |d|
      invariant 0 <= i <= |d| && |seg| == i
      invariant forall k :: 0 <= k < i ==> seg[k] == SegOf(d, sub, k)
    {
      seg := seg + [SegOf(d, sub, i)];
      i := i + 1;
    }
    g.seg := seg;
    HitLoop(g, d, sub, hits, hit2arc, qcont);
    ghost var arcs := g.Arcs();
    var arc := g.arc;
    var k := 0;
    while k < g.nArc
      invariant 0 <= k <= g.nArc <= |arc| == |g.arc|
      invariant forall j :: 0 <= j < k ==> arc[j] == arcs[j].(linkId := g.nArc)
      invariant forall j :: k <= j < g.nArc ==> arc[j] == arcs[j]
    {
      arc := arc[k := arc[k].(linkId := g.nArc)];
      k := k + 1;
    }
    g.arc := arc;
  }
}
