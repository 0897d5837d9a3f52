/**
 * The arc stage of ma_ug_gen: the unitig graph.  Unitig i has the two
 * vertices 2i (read from start to end) and 2i+1 (the reverse).  Each live
 * arc v -> w of the read graph whose ends are unitig ends gives an arc
 * between the unitigs they end.
 */
module UnitigGraph {
  import opened Graph
  import opened Unitigs

  /** The end vertices of the linear unitigs are vertices below n. */
  predicate EndsIn(us: seq<Utg>, n: nat) {
    forall i :: 0 <= i < |us| && !us[i].circ ==> 0 <= us[i].start < n && 0 <= us[i].end < n
  }

  /** The read-graph vertex that unitig vertex r names: the start of unitig
      r / 2 when r is even, its end when r is odd. */
  function EndVertex(us: seq<Utg>, r: nat): int
    requires r / 2 < |us|
  {
    if r % 2 == 0 then us[r / 2].start else us[r / 2].end
  }

  /** The marks of the arc stage: -1 everywhere, then for each linear unitig
      i in turn 2i at its start vertex and 2i+1 at its end vertex, a later
      unitig overwriting an earlier one. */
  function Registered(us: seq<Utg>, n: nat): (r: seq<int>)
    requires EndsIn(us, n)
    ensures |r| == n
    decreases |us|
  {
    if |us| == 0 then seq(n, _ => -1)
    else
      var r0 := Registered(us[..|us| - 1], n);
      var i := |us| - 1;
      if us[i].circ then r0 else r0[us[i].start := 2 * i][us[i].end := 2 * i + 1]
  }

  /** A registered vertex is the start or end of the linear unitig its mark
      names. */
  lemma {:induction false} RegisteredSound(us: seq<Utg>, n: nat, x: nat)
    requires EndsIn(us, n) && x < n && Registered(us, n)[x] >= 0
    ensures var r := Registered(us, n)[x];
            r < 2 * |us| && !us[r / 2].circ && EndVertex(us, r) == x
    decreases |us|
  {
    var i := |us| - 1;
    var pre := us[..i];
    assert forall k :: 0 <= k < i ==> pre[k] == us[k];
    if us[i].circ || (x != us[i].start && x != us[i].end) {
      RegisteredSound(pre, n, x);
    }
  }

  /** Both ends of every linear unitig are registered. */
  lemma {:induction false} RegisteredComplete(us: seq<Utg>, n: nat, i: nat)
    requires EndsIn(us, n) && i < |us| && !us[i].circ
    ensures Registered(us, n)[us[i].start] >= 0 && Registered(us, n)[us[i].end] >= 0
    decreases |us|
  {
    var j := |us| - 1;
    var pre := us[..j];
    assert forall k :: 0 <= k < j ==> pre[k] == us[k];
    if i < j {
      RegisteredComplete(pre, n, i);
    }
  }

  /** The register loops of ma_ug_gen: reset every mark to -1, then mark
      the ends of each linear unitig. */
  method RegisterEnds(us: seq<Utg>, mark0: seq<int>) returns (mark: seq<int>)
    requires EndsIn(us, |mark0|)
    ensures mark == Registered(us, |mark0|)
  {
    mark := mark0;
    for v := 0 to |mark|
      invariant |mark| == |mark0| && forall u :: 0 <= u < v ==> mark[u] == -1
    {
      mark := mark[v := -1];
    }
    assert mark == Registered(us[..0], |mark0|);
    for i := 0 to |us|
      invariant mark == Registered(us[..i], |mark0|)
    {
      assert us[..i + 1][..i] == us[..i];
      if us[i].circ {
        continue;
      }
      mark := mark[us[i].start := 2 * i][us[i].end := 2 * i + 1];
    }
    assert us[..|us|] == us;
  }

  /** Marks that name unitig vertices, or nothing. */
  predicate MarksIn(reg: seq<int>, m: nat) {
    forall x :: 0 <= x < |reg| ==> -1 <= reg[x] < 2 * m
  }

  /** The arcs' ends, and the other ends of their sources, are vertices. */
  predicate ArcsIn(arcs: seq<Arc>, n: nat) {
    forall k :: 0 <= k < |arcs| ==> arcs[k].v < n && Flip(arcs[k].v) < n && arcs[k].w < n
  }

  /** Arc p gives a unitig arc: it is live and both the other end of its
      source and its target are registered. */
  predicate Induces(p: Arc, reg: seq<int>)
    requires Flip(p.v) < |reg| && p.w < |reg|
  {
    !p.del && reg[Flip(p.v)] >= 0 && reg[p.w] >= 0
  }

  /** The unitig arc p gives: from the unitig vertex whose end p leaves (the
      other orientation of the one registered at p's source's other end) to
      the one registered at p's target; its length is the source unitig's
      length less the overlap, or 1 when that is negative. */
  function InducedArc(p: Arc, us: seq<Utg>, reg: seq<int>): (a: Arc)
    requires Flip(p.v) < |reg| && p.w < |reg| && MarksIn(reg, |us|) && Induces(p, reg)
    ensures a.v / 2 < |us| && a.w / 2 < |us| && a.v == Flip(reg[Flip(p.v)]) && a.w == reg[p.w]
    ensures a.len == if us[a.v / 2].len - p.ov < 0 then 1 else us[a.v / 2].len - p.ov
    ensures a.ov == p.ov && a.ow == p.ow && a.strong == p.strong && !a.del
    ensures a.linkId == |us| && a.comp == 0
  {
    var u := Flip(reg[Flip(p.v)]);
    var l := us[u / 2].len - p.ov;
    Arc(u, reg[p.w], if l < 0 then 1 else l, p.ov, p.ow, p.strong, false, |us|, 0)
  }

  /** The unitig arcs the arcs give, in order. */
  function InducedArcs(arcs: seq<Arc>, us: seq<Utg>, reg: seq<int>): seq<Arc>
    requires ArcsIn(arcs, |reg|) && MarksIn(reg, |us|)
    decreases |arcs|
  {
    if |arcs| == 0 then []
    else
      var p := arcs[|arcs| - 1];
      InducedArcs(arcs[..|arcs| - 1], us, reg) + (if Induces(p, reg) then [InducedArc(p, us, reg)] else [])
  }

  /** Every unitig arc comes from an input arc that induces it. */
  lemma {:induction false} InducedSound(arcs: seq<Arc>, us: seq<Utg>, reg: seq<int>, a: Arc)
    requires ArcsIn(arcs, |reg|) && MarksIn(reg, |us|) && a in InducedArcs(arcs, us, reg)
    ensures exists k :: 0 <= k < |arcs| && Induces(arcs[k], reg) && a == InducedArc(arcs[k], us, reg)
    decreases |arcs|
  {
    var j := |arcs| - 1;
    var pre := arcs[..j];
    if a in InducedArcs(pre, us, reg) {
      InducedSound(pre, us, reg, a);
      var k :| 0 <= k < |pre| && Induces(pre[k], reg) && a == InducedArc(pre[k], us, reg);
      assert arcs[k] == pre[k];
    } else {
      assert Induces(arcs[j], reg) && a == InducedArc(arcs[j], us, reg);
    }
  }

  /** Every input arc that induces a unitig arc has it among the unitig arcs. */
  lemma {:induction false} InducedComplete(arcs: seq<Arc>, us: seq<Utg>, reg: seq<int>, k: nat)
    requires ArcsIn(arcs, |reg|) && MarksIn(reg, |us|) && k < |arcs| && Induces(arcs[k], reg)
    ensures InducedArc(arcs[k], us, reg) in InducedArcs(arcs, us, reg)
    decreases |arcs|
  {
    var j := |arcs| - 1;
    var pre := arcs[..j];
    if k < j {
      assert pre[k] == arcs[k];
      InducedComplete(pre, us, reg, k);
    }
  }

  /** The arc loop of ma_ug_gen: push the unitig arc of each arc that gives one. */
  method InduceArcs(arcs: seq<Arc>, us: seq<Utg>, reg: seq<int>, g: Gfa)
    requires g.Valid() && ArcsIn(arcs, |reg|) && MarksIn(reg, |us|)
    modifies g`arc, g`nArc, g`mArc
    ensures g.Valid() && g.Arcs() == old(g.Arcs()) + InducedArcs(arcs, us, reg)
  {
    for i := 0 to |arcs|
      invariant g.Valid() && g.Arcs() == old(g.Arcs()) + InducedArcs(arcs[..i], us, reg)
    {
      assert arcs[..i + 1][..i] == arcs[..i];
      var p := arcs[i];
      if p.del {
        continue;
      }
      if reg[Flip(p.v)] >= 0 && reg[p.w] >= 0 {
        var u := Flip(reg[Flip(p.v)]);
        var l := us[u / 2].len - p.ov;
        if l < 0 {
          l := 1;
        }
        g.PushArc(Arc(u, reg[p.w], l, p.ov, p.ow, p.strong, false, |us|, 0));
      }
    }
    assert arcs[..|arcs|] == arcs;
  }

  lemma {:induction false} RegisteredRange(us: seq<Utg>, n: nat)
    requires EndsIn(us, n)
    ensures MarksIn(Registered(us, n), |us|)
    decreases |us|
  {
    if |us| > 0 {
      var pre := us[..|us| - 1];
      assert forall k :: 0 <= k < |pre| ==> pre[k] == us[k];
      RegisteredRange(pre, n);
    }
  }

  /** Every unitig arc joins two linear unitigs where a live input arc
      joins their ends: it leaves orientation a.v of its source unitig at the
      input arc's source, and enters orientation a.w of its target unitig at
      the input arc's target. */
  lemma InducedJoins(arcs: seq<Arc>, us: seq<Utg>, n: nat, a: Arc)
    requires EndsIn(us, n) && ArcsIn(arcs, n)
    requires MarksIn(Registered(us, n), |us|) && a in InducedArcs(arcs, us, Registered(us, n))
    ensures a.v / 2 < |us| && a.w / 2 < |us| && !us[a.v / 2].circ && !us[a.w / 2].circ
    ensures exists k :: 0 <= k < |arcs| && Induces(arcs[k], Registered(us, n))
              && EndVertex(us, Flip(a.v)) == Flip(arcs[k].v) && EndVertex(us, a.w) == arcs[k].w
              && a == InducedArc(arcs[k], us, Registered(us, n))
  {
    var reg := Registered(us, n);
    InducedSound(arcs, us, reg, a);
    var k :| 0 <= k < |arcs| && Induces(arcs[k], reg) && a == InducedArc(arcs[k], us, reg);
    var p := arcs[k];
    RegisteredSound(us, n, Flip(p.v));
    RegisteredSound(us, n, p.w);
    FlipFlip(reg[Flip(p.v)]);
  }

  /** Every live input arc from the other end of a linear unitig's end to a
      linear unitig's end gives a unitig arc. */
  lemma InducedFromEnds(arcs: seq<Arc>, us: seq<Utg>, n: nat, k: nat, i: nat, j: nat)
    requires EndsIn(us, n) && ArcsIn(arcs, n) && MarksIn(Registered(us, n), |us|)
    requires k < |arcs| && !arcs[k].del
    requires i < |us| && !us[i].circ && (Flip(arcs[k].v) == us[i].start || Flip(arcs[k].v) == us[i].end)
    requires j < |us| && !us[j].circ && (arcs[k].w == us[j].start || arcs[k].w == us[j].end)
    ensures Induces(arcs[k], Registered(us, n))
    ensures InducedArc(arcs[k], us, Registered(us, n)) in InducedArcs(arcs, us, Registered(us, n))
  {
    RegisteredComplete(us, n, i);
    RegisteredComplete(us, n, j);
    InducedComplete(arcs, us, Registered(us, n), k);
  }

  /** The segment of unitig u in the unitig graph. */
  function UnitigSeg(u: Utg): Seg {
    Seg(u.len, false, -1, -1)
  }

  /** The segment stage of ma_ug_gen: one zeroed segment per unitig, then its
      length and rank = snid = -1. */
  method SetSegments(g: Gfa, us: seq<Utg>)
    modifies g`seg
    ensures |g.seg| == |us| && forall i :: 0 <= i < |us| ==> g.seg[i] == UnitigSeg(us[i])
  {
    g.seg := seq(|us|, _ => Seg(0, false, 0, 0));
    for i := 0 to |us|
      invariant |g.seg| == |us| && forall k :: 0 <= k < i ==> g.seg[k] == UnitigSeg(us[k])
    {
      g.seg := g.seg[i := Seg(us[i].len, false, -1, -1)];
    }
  }

  /** ma_ug_t: the unitigs and the unitig graph. */
  class MaUg {
    var u: seq<Utg>
    var g: Gfa

    constructor ()
      ensures u == [] && fresh(g) && g.Valid() && g.seg == [] && g.Arcs() == []
    {
      u := [];
      g := new Gfa();
    }
  }

  /** Linear unitigs end at vertices. */
  lemma SeededEnds(G: View, us: seq<Utg>, seeds: seq<nat>, walks: seq<seq<nat>>)
    requires G.Valid() && Seeded(G, us, seeds, walks)
    ensures EndsIn(us, |G.idx|)
  {
    forall i | 0 <= i < |us| && !us[i].circ ensures 0 <= us[i].start < |G.idx| && 0 <= us[i].end < |G.idx| {
      assert Built(G, seeds[i], us[i], walks[i]);
      FlipIn(G, walks[i][|walks[i]| - 1]);
    }
  }

  /** ma_ug_gen up to its final gfa_cleanup: the unitigs of G, the arcs
      between their ends, and one segment per unitig. */
  method MaUgGen(G: View) returns (ug: MaUg, ghost seeds: seq<nat>, ghost walks: seq<seq<nat>>)
    requires G.Valid() && G.Symmetric() && |G.idx| < UINT32_MAX
    requires forall k :: 0 <= k < |G.arcs| ==> G.arcs[k].v < |G.idx| && G.arcs[k].w < |G.idx|
    ensures fresh(ug) && fresh(ug.g) && ug.g.Valid()
    ensures Seeded(G, ug.u, seeds, walks)
    ensures forall x :: 0 <= x < |G.idx| && Seed(G, x) ==> Covered(walks, x)
    ensures forall x :: 0 <= x < |G.idx| && Seed(G, x) ==> SeedOrPassed(seeds, walks, x)
    ensures EndsIn(ug.u, |G.idx|) && ArcsIn(G.arcs, |G.idx|) && MarksIn(Registered(ug.u, |G.idx|), |ug.u|)
    ensures ug.g.Arcs() == InducedArcs(G.arcs, ug.u, Registered(ug.u, |G.idx|))
    ensures |ug.g.seg| == |ug.u| && forall i :: 0 <= i < |ug.u| ==> ug.g.seg[i] == UnitigSeg(ug.u[i])
  {
    ug := new MaUg();
    var us, mark;
    us, mark, seeds, walks := BuildUnitigs(G);
    ug.u := us;
    SeededEnds(G, us, seeds, walks);
    RegisteredRange(us, |G.idx|);
    forall k | 0 <= k < |G.arcs| ensures Flip(G.arcs[k].v) < |G.idx| {
      FlipIn(G, G.arcs[k].v);
    }
    var reg := RegisterEnds(us, mark);
    InduceArcs(G.arcs, us, reg, ug.g);
    SetSegments(ug.g, us);
  }
}
