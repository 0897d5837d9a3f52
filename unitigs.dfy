/**
 * ma_ug_gen: contract the string graph into unitigs.  From every unused
 * vertex the walk follows the vertex's only arc forward while the next
 * vertex has exactly one incoming arc, and backward likewise; a walk that
 * comes back to its first vertex gives a circular unitig.  The arcs between
 * unitig ends then give the unitig graph.
 *
 * The arc index idx (filled by gfa_cleanup) lists, for each vertex v, the
 * arcs idx[v].0 .. idx[v].0 + idx[v].1 - 1 leaving v: arc_first and arc_cnt.
 */
module Unitigs {
  import opened Graph

  const UINT32_MAX: int := 0xffff_ffff

  /** The part of the graph the walks read. */
  datatype View = View(seg: seq<Seg>, arcs: seq<Arc>, idx: seq<(nat, nat)>) {
    /** Two vertices per segment; the arcs listed for v leave v and end at a vertex. */
    predicate Valid() {
      |idx| == 2 * |seg|
      && forall v :: 0 <= v < |idx| ==>
           idx[v].0 + idx[v].1 <= |arcs|
           && forall k :: idx[v].0 <= k < idx[v].0 + idx[v].1 ==> arcs[k].v == v && arcs[k].w < |idx|
    }

    /** arc k is listed for vertex v. */
    predicate Listed(v: nat, k: int)
      requires v < |idx|
    {
      idx[v].0 <= k < idx[v].0 + idx[v].1
    }

    /** arc k is listed for vertex u and ends at t. */
    predicate ListedTo(u: nat, k: int, t: nat)
      requires Valid() && u < |idx|
    {
      idx[u].0 <= k < idx[u].0 + idx[u].1 && arcs[k].w == t
    }

    /** Every listed arc v -> w has its complement w^1 -> v^1 listed. */
    ghost predicate Symmetric()
      requires Valid()
    {
      forall v, k {:trigger Listed(v, k)} :: 0 <= v < |idx| && Listed(v, k) ==>
        exists k' :: ListedTo(Flip(arcs[k].w), k', Flip(v))
    }

    /** arc_cnt */
    function Cnt(v: nat): nat
      requires Valid() && v < |idx|
    {
      idx[v].1
    }

    /** The head of arc_first(v). */
    function Succ(v: nat): (x: nat)
      requires Valid() && v < |idx| && Cnt(v) >= 1
      ensures x < |idx| && Flip(x) < |idx|
    {
      arcs[idx[v].0].w
    }

    /** gfa_arc_len(arc_first(v)) */
    function ArcLen(v: nat): int
      requires Valid() && v < |idx| && Cnt(v) >= 1
    {
      arcs[idx[v].0].len
    }

    /** The forward walk may step from v: v has one arc and its head one
        incoming arc (its other end one outgoing arc). */
    predicate Step(v: nat)
      requires Valid() && v < |idx|
    {
      Cnt(v) == 1 && Cnt(Flip(Succ(v))) == 1
    }
  }

  /** A unitig member: a vertex and the length it contributes. */
  type Member = (nat, int)

  function SumLens(q: seq<Member>): int
    decreases |q|
  {
    if |q| == 0 then 0 else SumLens(q[..|q| - 1]) + q[|q| - 1].1
  }

  lemma {:induction false} SumLensCons(m: Member, q: seq<Member>)
    ensures SumLens([m] + q) == m.1 + SumLens(q)
    decreases |q|
  {
    if |q| > 0 {
      assert ([m] + q)[..|q|] == [m] + q[..|q| - 1];
      SumLensCons(m, q[..|q| - 1]);
    } else {
      assert [m] + q == [m];
    }
  }

  lemma SumLensSnoc(q: seq<Member>, m: Member)
    ensures SumLens(q + [m]) == SumLens(q) + m.1
  {
    assert (q + [m])[..|q|] == q;
  }

  predicate Distinct(p: seq<nat>) {
    forall i, j :: 0 <= i < j < |p| ==> p[i] != p[j]
  }

  /** No more distinct vertices than there are vertices. */
  lemma {:induction false} DistinctBound(p: seq<nat>, n: nat)
    requires Distinct(p) && forall j :: 0 <= j < |p| ==> p[j] < n
    ensures |p| <= n
    decreases n
  {
    if |p| > 0 {
      assert p[0] < n;
      if i :| 0 <= i < |p| && p[i] == n - 1 {
        var p' := p[..i] + p[i + 1..];
        assert forall j :: 0 <= j < |p'| ==> p'[j] == if j < i then p[j] else p[j + 1];
        DistinctBound(p', n - 1);
      } else {
        DistinctBound(p, n - 1);
      }
    }
  }

  /** p is a walk: each vertex but the last can step, to the next. */
  predicate Walk(G: View, p: seq<nat>)
    requires G.Valid()
  {
    |p| >= 1
    && (forall j :: 0 <= j < |p| ==> p[j] < |G.idx|)
    && forall j :: 0 <= j < |p| - 1 ==> G.Step(p[j]) && G.Succ(p[j]) == p[j + 1]
  }

  /** p is a forward walk from v. */
  predicate FwdPath(G: View, p: seq<nat>, v: nat)
    requires G.Valid()
  {
    Walk(G, p) && p[0] == v
  }

  /** p is a walk that ends at v (the backward walk, read forward). */
  predicate BwdPath(G: View, p: seq<nat>, v: nat)
    requires G.Valid()
  {
    Walk(G, p) && p[|p| - 1] == v
  }

  /** p is a forward walk from v back to v. */
  predicate StepCycle(G: View, p: seq<nat>, v: nat)
    requires G.Valid()
  {
    FwdPath(G, p, v) && |p| >= 2 && p[|p| - 1] == v
  }

  /** The complement of listed arc k of v. */
  lemma Mirror(G: View, v: nat, k: int) returns (k': int)
    requires G.Valid() && G.Symmetric() && v < |G.idx| && G.Listed(v, k)
    ensures G.arcs[k].w < |G.idx| && Flip(G.arcs[k].w) < |G.idx|
    ensures G.Listed(Flip(G.arcs[k].w), k') && G.arcs[k'].w == Flip(v)
  {
    k' :| G.ListedTo(Flip(G.arcs[k].w), k', Flip(v));
  }

  /** In a symmetric graph a vertex with one incoming arc has one predecessor. */
  lemma InUnique(G: View, a: nat, b: nat)
    requires G.Valid() && G.Symmetric() && a < |G.idx| && b < |G.idx|
    requires G.Cnt(a) >= 1 && G.Cnt(b) >= 1 && G.Succ(a) == G.Succ(b) && G.Cnt(Flip(G.Succ(a))) == 1
    ensures a == b
  {
    var ka := Mirror(G, a, G.idx[a].0);
    var kb := Mirror(G, b, G.idx[b].0);
    assert ka == kb;
    FlipFlip(a);
    FlipFlip(b);
  }

  /** The backward step lands on a vertex the forward walk steps from, to x. */
  lemma BackSucc(G: View, x: nat)
    requires G.Valid() && G.Symmetric() && x < |G.idx| && Flip(x) < |G.idx| && G.Cnt(Flip(x)) == 1
    requires G.Cnt(Flip(G.Succ(Flip(x)))) == 1
    ensures var w := Flip(G.Succ(Flip(x))); G.Succ(w) == x && G.Step(w)
  {
    var y := G.Succ(Flip(x));
    var w := Flip(y);
    var k := Mirror(G, Flip(x), G.idx[Flip(x)].0);
    assert G.arcs[G.idx[Flip(x)].0].w == y;
    FlipFlip(x);
    assert G.Listed(w, k) && G.arcs[k].w == x;
    assert k == G.idx[w].0;
  }

  /** A step forward from the walk's last vertex reaches a new vertex or v. */
  lemma ForwardFresh(G: View, path: seq<nat>, v: nat)
    requires G.Valid() && G.Symmetric() && FwdPath(G, path, v) && Distinct(path)
    requires G.Step(path[|path| - 1]) && G.Succ(path[|path| - 1]) != v
    ensures forall i :: 0 <= i < |path| ==> path[i] != G.Succ(path[|path| - 1])
  {
    var w := path[|path| - 1];
    forall i | 0 <= i < |path| ensures path[i] != G.Succ(w) {
      if i > 0 && path[i] == G.Succ(w) {
        InUnique(G, path[i - 1], w);
      }
    }
  }

  /** Two forward walks from v agree on their common length. */
  lemma {:induction false} PathsAgree(G: View, p: seq<nat>, r: seq<nat>, v: nat, j: nat)
    requires G.Valid() && FwdPath(G, p, v) && FwdPath(G, r, v) && j < |p| && j < |r|
    ensures p[j] == r[j]
  {
    if j > 0 {
      PathsAgree(G, p, r, v, j - 1);
    }
  }

  /** A forward walk that stops without returning means there is no cycle through v. */
  lemma NoCycle(G: View, path: seq<nat>, v: nat)
    requires G.Valid() && FwdPath(G, path, v) && Distinct(path) && !G.Step(path[|path| - 1])
    ensures forall p :: !StepCycle(G, p, v)
  {
    forall p | StepCycle(G, p, v) ensures false {
      if |p| <= |path| {
        PathsAgree(G, p, path, v, |p| - 1);
      } else {
        PathsAgree(G, p, path, v, |path| - 1);
      }
    }
  }

  /** Marks only ever become 1. */
  predicate MarksGrow(mark0: seq<int>, mark: seq<int>) {
    |mark| == |mark0| && forall u :: 0 <= u < |mark| ==> mark[u] == 1 || mark[u] == mark0[u]
  }

  /** u is a vertex of W or the other end of one. */
  ghost predicate OnWalk(W: seq<nat>, u: nat) {
    exists j :: 0 <= j < |W| && (W[j] == u || Flip(W[j]) == u)
  }

  /** Every mark that changed is on W. */
  ghost predicate MarksOn(mark0: seq<int>, mark: seq<int>, W: seq<nat>) {
    |mark| == |mark0| && forall u :: 0 <= u < |mark| && mark[u] != mark0[u] ==> OnWalk(W, u)
  }

  lemma MarksOnSnoc(mark0: seq<int>, mark: seq<int>, path: seq<nat>, x: nat)
    requires MarksOn(mark0, mark, path) && |path| >= 1 && x < |mark| && Flip(path[|path| - 1]) < |mark|
    ensures MarksOn(mark0, mark[x := 1][Flip(path[|path| - 1]) := 1], path + [x])
  {
    var mark', path' := mark[x := 1][Flip(path[|path| - 1]) := 1], path + [x];
    forall u | 0 <= u < |mark'| && mark'[u] != mark0[u] ensures OnWalk(path', u) {
      if u == x {
        assert path'[|path|] == u;
      } else if u == Flip(path[|path| - 1]) {
        assert path'[|path| - 1] == path[|path| - 1];
      } else {
        var j :| 0 <= j < |path| && (path[j] == u || Flip(path[j]) == u);
        assert path'[j] == path[j];
      }
    }
  }

  lemma MarksOnCons(mark0: seq<int>, mark: seq<int>, bp: seq<nat>, w: nat)
    requires MarksOn(mark0, mark, bp) && |bp| >= 1 && bp[0] < |mark| && Flip(w) < |mark|
    ensures MarksOn(mark0, mark[bp[0] := 1][Flip(w) := 1], [w] + bp)
  {
    var mark', bp' := mark[bp[0] := 1][Flip(w) := 1], [w] + bp;
    forall u | 0 <= u < |mark'| && mark'[u] != mark0[u] ensures OnWalk(bp', u) {
      if u == Flip(w) {
        assert bp'[0] == w;
      } else if u == bp[0] {
        assert bp'[1] == u;
      } else {
        var j :| 0 <= j < |bp| && (bp[j] == u || Flip(bp[j]) == u);
        assert bp'[j + 1] == bp[j];
      }
    }
  }

  /** The marks the forward walk along path sets: each vertex it steps to,
      and the other end of each vertex it steps from. */
  predicate WalkMarked(mark: seq<int>, path: seq<nat>) {
    (forall j :: 1 <= j < |path| ==> path[j] < |mark| && mark[path[j]] == 1)
    && forall j :: 0 <= j < |path| - 1 ==> Flip(path[j]) < |mark| && mark[Flip(path[j])] == 1
  }

  /** What the forward loop keeps: path is a walk from v ending at w, q
      holds its steps, end is w's other end, len their lengths' sum, and the
      marks are set along the path. */
  ghost predicate FwdInv(G: View, v: nat, mark0: seq<int>, q: seq<Member>, end: nat, len: int,
                         mark: seq<int>, path: seq<nat>, w: nat)
    requires G.Valid()
  {
    FwdPath(G, path, v) && path[|path| - 1] == w && end == Flip(w)
    && StepsOf(G, q, path) && len == SumLens(q)
    && |mark0| == |G.idx| && MarksGrow(mark0, mark) && WalkMarked(mark, path)
    && MarksOn(mark0, mark, path)
  }

  /** q holds one member (vertex, arc length) per step of the walk path. */
  ghost predicate StepsOf(G: View, q: seq<Member>, path: seq<nat>)
    requires G.Valid()
  {
    |path| >= 1 && |q| == |path| - 1
    && (forall j :: 0 <= j < |path| ==> path[j] < |G.idx|)
    && forall j :: 0 <= j < |q| ==> G.Cnt(path[j]) >= 1 && q[j] == (path[j], G.ArcLen(path[j]))
  }

  lemma PathStep(G: View, path: seq<nat>, v: nat)
    requires G.Valid() && FwdPath(G, path, v) && G.Step(path[|path| - 1])
    ensures FwdPath(G, path + [G.Succ(path[|path| - 1])], v)
  {
    var path' := path + [G.Succ(path[|path| - 1])];
    assert forall j :: 0 <= j < |path| ==> path'[j] == path[j];
  }

  lemma StepsStep(G: View, q: seq<Member>, path: seq<nat>)
    requires G.Valid() && StepsOf(G, q, path) && G.Cnt(path[|path| - 1]) >= 1
    ensures var w := path[|path| - 1];
            StepsOf(G, q + [(w, G.ArcLen(w))], path + [G.Succ(w)])
            && SumLens(q + [(w, G.ArcLen(w))]) == SumLens(q) + G.ArcLen(w)
  {
    var w := path[|path| - 1];
    var path' := path + [G.Succ(w)];
    var q' := q + [(w, G.ArcLen(w))];
    SumLensSnoc(q, (w, G.ArcLen(w)));
    assert forall j :: 0 <= j < |path| ==> path'[j] == path[j];
    assert forall j :: 0 <= j < |q| ==> q'[j] == q[j];
  }

  lemma MarkStep(mark0: seq<int>, mark: seq<int>, path: seq<nat>, x: nat)
    requires MarksGrow(mark0, mark) && WalkMarked(mark, path) && |path| >= 1
    requires x < |mark| && Flip(path[|path| - 1]) < |mark|
    ensures var mark' := mark[x := 1][Flip(path[|path| - 1]) := 1];
            MarksGrow(mark0, mark') && WalkMarked(mark', path + [x])
  {
    var path' := path + [x];
    assert forall j :: 0 <= j < |path| ==> path'[j] == path[j];
  }

  lemma FwdStep(G: View, v: nat, mark0: seq<int>, q: seq<Member>, end: nat, len: int,
                mark: seq<int>, path: seq<nat>, w: nat)
    requires G.Valid() && FwdInv(G, v, mark0, q, end, len, mark, path, w) && G.Step(w)
    ensures var x := G.Succ(w);
            FwdInv(G, v, mark0, q + [(w, G.ArcLen(w))], Flip(x), len + G.ArcLen(w),
                   mark[x := 1][Flip(w) := 1], path + [x], x)
  {
    PathStep(G, path, v);
    StepsStep(G, q, path);
    MarkStep(mark0, mark, path, G.Succ(w));
    MarksOnSnoc(mark0, mark, path, G.Succ(w));
  }

  /** Extending a walk with a new vertex keeps it free of repeats and
      within the vertex count. */
  lemma FreshStep(G: View, path: seq<nat>, v: nat)
    requires G.Valid() && G.Symmetric() && FwdPath(G, path, v) && Distinct(path)
    requires G.Step(path[|path| - 1]) && G.Succ(path[|path| - 1]) != v
    ensures Distinct(path + [G.Succ(path[|path| - 1])])
    ensures |path| + 1 <= |G.idx|
  {
    var path' := path + [G.Succ(path[|path| - 1])];
    ForwardFresh(G, path, v);
    assert forall j :: 0 <= j < |path| ==> path'[j] == path[j];
    PathStep(G, path, v);
    DistinctBound(path', |G.idx|);
  }

  /** The forward loop's invariant: FwdInv on a walk without repeats. */
  ghost predicate FwdLoopInv(G: View, v: nat, mark0: seq<int>, q: seq<Member>, end: nat, len: int,
                             mark: seq<int>, path: seq<nat>, w: nat)
    requires G.Valid()
  {
    FwdInv(G, v, mark0, q, end, len, mark, path, w) && Distinct(path) && |path| <= |G.idx|
  }

  /** How the forward walk may end: back at v, or stuck at a vertex that
      cannot step, never repeating a vertex otherwise. */
  ghost predicate FwdEnds(G: View, v: nat, path: seq<nat>)
    requires G.Valid() && |path| >= 1
  {
    (|path| >= 2 && path[|path| - 1] == v && Distinct(path[..|path| - 1]))
    || (Distinct(path) && path[|path| - 1] < |G.idx| && !G.Step(path[|path| - 1]))
  }

  /** What the forward loop leaves: FwdInv at the walk's last vertex, and
      one of the two ways the walk ends. */
  ghost predicate FwdDone(G: View, v: nat, mark0: seq<int>, q: seq<Member>, end: nat, len: int,
                          mark: seq<int>, path: seq<nat>)
    requires G.Valid()
  {
    |path| >= 1 && FwdInv(G, v, mark0, q, end, len, mark, path, path[|path| - 1])
    && FwdEnds(G, v, path)
  }

  /** One step of the forward loop: to a new vertex, or back to v. */
  lemma FwdLoopStep(G: View, v: nat, mark0: seq<int>, q: seq<Member>, end: nat, len: int,
                    mark: seq<int>, path: seq<nat>, w: nat)
    requires G.Valid() && G.Symmetric() && FwdLoopInv(G, v, mark0, q, end, len, mark, path, w)
    requires G.Step(w)
    ensures var x := G.Succ(w);
            var q', len', mark', path' := q + [(w, G.ArcLen(w))], len + G.ArcLen(w),
                                          mark[x := 1][Flip(w) := 1], path + [x];
            (x == v ==> FwdDone(G, v, mark0, q', Flip(x), len', mark', path'))
            && (x != v ==> FwdLoopInv(G, v, mark0, q', Flip(x), len', mark', path', x))
  {
    var x := G.Succ(w);
    FwdStep(G, v, mark0, q, end, len, mark, path, w);
    if x == v {
      assert (path + [x])[..|path|] == path;
    } else {
      FreshStep(G, path, v);
    }
  }

  /** The forward loop stops at a vertex that cannot step. */
  lemma FwdStuck(G: View, v: nat, mark0: seq<int>, q: seq<Member>, end: nat, len: int,
                 mark: seq<int>, path: seq<nat>, w: nat)
    requires G.Valid() && FwdLoopInv(G, v, mark0, q, end, len, mark, path, w)
    requires w < |G.idx| && !G.Step(w)
    ensures FwdDone(G, v, mark0, q, end, len, mark, path)
  {
  }

  /** The forward loop of ma_ug_gen from v.  It either comes back to v
      (path ends with v, which it does not repeat before) or stops at a vertex
      that cannot step, having visited no vertex twice.  Each step pushes the
      member (w, arc length) and marks the vertex stepped to and the other
      end of the vertex stepped from. */
  method ForwardWalk(G: View, v: nat, mark0: seq<int>)
    returns (q: seq<Member>, end: nat, len: int, mark: seq<int>, ghost path: seq<nat>)
    requires G.Valid() && G.Symmetric() && v < |G.idx| && |mark0| == |G.idx|
    ensures FwdDone(G, v, mark0, q, end, len, mark, path)
  {
    var w := v;
    q, end, len, mark := [], Flip(v), 0, mark0;
    path := [v];
    while true
      invariant FwdLoopInv(G, v, mark0, q, end, len, mark, path, w)
      decreases |G.idx| - |path|
    {
      if G.Cnt(w) != 1 {
        FwdStuck(G, v, mark0, q, end, len, mark, path, w);
        break;
      }
      var x := G.Succ(w);
      if G.Cnt(Flip(x)) != 1 {
        FwdStuck(G, v, mark0, q, end, len, mark, path, w);
        break;
      }
      var back;
      q, end, len, mark, path, back := FwdAdvance(G, v, mark0, q, end, len, mark, path, w);
      w := x;
      if back {
        break;
      }
    }
  }

  /** The body of the forward loop once w may step to x = Succ(w): mark x and
      the other end of w, push (w, arc length) and move on; `back` tells
      whether x is v. */
  method FwdAdvance(G: View, v: nat, mark0: seq<int>, q0: seq<Member>, end0: nat, len0: int,
                    markIn: seq<int>, ghost path0: seq<nat>, w: nat)
    returns (q: seq<Member>, end: nat, len: int, mark: seq<int>, ghost path: seq<nat>, back: bool)
    requires G.Valid() && G.Symmetric() && FwdLoopInv(G, v, mark0, q0, end0, len0, markIn, path0, w)
    requires G.Step(w)
    ensures path == path0 + [G.Succ(w)] && back == (G.Succ(w) == v)
    ensures back ==> FwdDone(G, v, mark0, q, end, len, mark, path)
    ensures !back ==> FwdLoopInv(G, v, mark0, q, end, len, mark, path, G.Succ(w))
  {
    var x := G.Succ(w);
    FwdLoopStep(G, v, mark0, q0, end0, len0, markIn, path0, w);
    mark := markIn[x := 1][Flip(w) := 1];
    var l := G.ArcLen(w);
    q := q0 + [(w, l)];
    end, len := Flip(x), len0 + l;
    path := path0 + [x];
    back := x == v;
  }

  /** The other end of a vertex is a vertex. */
  lemma FlipIn(G: View, x: nat)
    requires G.Valid() && x < |G.idx|
    ensures Flip(x) < |G.idx|
  {
  }

  /** The backward walk may step from x: x's other end has one arc, and the
      vertex w it reaches the other way round has one arc too. */
  predicate BackStep(G: View, x: nat)
    requires G.Valid() && x < |G.idx| && Flip(x) < |G.idx|
  {
    G.Cnt(Flip(x)) == 1 && G.Cnt(Flip(G.Succ(Flip(x)))) == 1
  }

  /** The vertex the backward walk steps to from x. */
  function Pred(G: View, x: nat): (w: nat)
    requires G.Valid() && x < |G.idx| && Flip(x) < |G.idx| && G.Cnt(Flip(x)) >= 1
    ensures w < |G.idx|
  {
    Flip(G.Succ(Flip(x)))
  }

  /** A step from v to the start of a walk ending at v closes a cycle. */
  lemma CloseCycle(G: View, bp: seq<nat>, v: nat)
    requires G.Valid() && BwdPath(G, bp, v) && v < |G.idx| && G.Step(v) && G.Succ(v) == bp[0]
    ensures StepCycle(G, [v] + bp, v)
  {
    var c := [v] + bp;
    assert forall j :: 0 <= j < |bp| ==> c[j + 1] == bp[j];
  }

  /** A backward step from a walk ending at v reaches a vertex not on it:
      one already on it would close a cycle through v. */
  lemma BackFresh(G: View, bp: seq<nat>, v: nat)
    requires G.Valid() && G.Symmetric() && BwdPath(G, bp, v) && Distinct(bp)
    requires Flip(bp[0]) < |G.idx| && BackStep(G, bp[0])
    requires forall p :: !StepCycle(G, p, v)
    ensures G.Step(Pred(G, bp[0])) && G.Succ(Pred(G, bp[0])) == bp[0]
    ensures Distinct([Pred(G, bp[0])] + bp) && |bp| + 1 <= |G.idx|
  {
    var x := bp[0];
    var w := Pred(G, x);
    BackSucc(G, x);
    var bp' := [w] + bp;
    forall i | 0 <= i < |bp| ensures bp[i] != w {
      if i < |bp| - 1 {
        assert G.Succ(bp[i]) == bp[i + 1] != bp[0];
      } else if bp[i] == w {
        CloseCycle(G, bp, v);
      }
    }
    forall j | 0 <= j < |bp'| ensures bp'[j] < |G.idx| {
      if j > 0 {
        assert bp'[j] == bp[j - 1];
      }
    }
    DistinctBound(bp', |G.idx|);
  }

  /** The backward loop keeps: bp is a walk from start to v free of repeats,
      q is the members of bp's steps before the members q0 it started from,
      len grows by their lengths, and the marks are set along bp. */
  ghost predicate BwdInv(G: View, v: nat, q0: seq<Member>, len0: int, mark0: seq<int>,
                         q: seq<Member>, start: nat, len: int, mark: seq<int>,
                         bp: seq<nat>, pre: seq<Member>)
    requires G.Valid()
  {
    BwdWalkPart(G, v, start, bp) && BwdStepsPart(G, q0, len0, q, len, bp, pre)
    && BwdMarkPart(G, mark0, mark, bp)
  }

  /** The backward path so far: a repeat-free walk to v that starts at start. */
  ghost predicate BwdWalkPart(G: View, v: nat, start: nat, bp: seq<nat>)
    requires G.Valid()
  {
    BwdPath(G, bp, v) && Distinct(bp) && |bp| <= |G.idx| && start == bp[0]
    && Flip(start) < |G.idx|
  }

  /** The members prepended so far, pre, are the steps of the backward path. */
  ghost predicate BwdStepsPart(G: View, q0: seq<Member>, len0: int, q: seq<Member>, len: int,
                         bp: seq<nat>, pre: seq<Member>)
    requires G.Valid()
  {
    q == pre + q0 && StepsOf(G, pre, bp) && len == len0 + SumLens(pre)
  }

  /** The marks set so far lie along the backward path. */
  ghost predicate BwdMarkPart(G: View, mark0: seq<int>, mark: seq<int>, bp: seq<nat>)
    requires G.Valid()
  {
    |mark0| == |G.idx| && MarksGrow(mark0, mark) && WalkMarked(mark, bp)
    && MarksOn(mark0, mark, bp)
  }

  lemma StepsCons(G: View, pre: seq<Member>, bp: seq<nat>, w: nat)
    requires G.Valid() && StepsOf(G, pre, bp) && w < |G.idx| && G.Cnt(w) >= 1
    ensures StepsOf(G, [(w, G.ArcLen(w))] + pre, [w] + bp)
    ensures SumLens([(w, G.ArcLen(w))] + pre) == G.ArcLen(w) + SumLens(pre)
  {
    var bp' := [w] + bp;
    var pre' := [(w, G.ArcLen(w))] + pre;
    SumLensCons((w, G.ArcLen(w)), pre);
    forall j | 0 <= j < |bp'| ensures bp'[j] < |G.idx| {
      if j > 0 {
        assert bp'[j] == bp[j - 1];
      }
    }
    forall j | 0 <= j < |pre'|
      ensures G.Cnt(bp'[j]) >= 1 && pre'[j] == (bp'[j], G.ArcLen(bp'[j]))
    {
      if j > 0 {
        assert bp'[j] == bp[j - 1] && pre'[j] == pre[j - 1];
      }
    }
  }

  lemma MarkCons(mark0: seq<int>, mark: seq<int>, bp: seq<nat>, w: nat)
    requires MarksGrow(mark0, mark) && WalkMarked(mark, bp) && |bp| >= 1
    requires bp[0] < |mark| && Flip(w) < |mark|
    ensures var mark' := mark[bp[0] := 1][Flip(w) := 1];
            MarksGrow(mark0, mark') && WalkMarked(mark', [w] + bp)
  {
    var mark', bp' := mark[bp[0] := 1][Flip(w) := 1], [w] + bp;
    forall u | 0 <= u < |mark'| ensures mark'[u] == 1 || mark'[u] == mark0[u] {
      if u != bp[0] && u != Flip(w) {
        assert mark'[u] == mark[u];
      }
    }
    forall j | 1 <= j < |bp'| ensures bp'[j] < |mark'| && mark'[bp'[j]] == 1 {
      assert bp'[j] == bp[j - 1];
      if j >= 2 {
        assert bp[j - 1] < |mark| && mark[bp[j - 1]] == 1;
      }
    }
    forall j | 0 <= j < |bp'| - 1 ensures Flip(bp'[j]) < |mark'| && mark'[Flip(bp'[j])] == 1 {
      if j >= 1 {
        assert bp'[j] == bp[j - 1];
        assert Flip(bp[j - 1]) < |mark| && mark[Flip(bp[j - 1])] == 1;
      }
    }
  }

  lemma BwdPathCons(G: View, bp: seq<nat>, v: nat, w: nat)
    requires G.Valid() && BwdPath(G, bp, v) && w < |G.idx| && G.Step(w) && G.Succ(w) == bp[0]
    ensures BwdPath(G, [w] + bp, v)
  {
    var bp' := [w] + bp;
    assert forall j :: 0 <= j < |bp| ==> bp'[j + 1] == bp[j];
  }

  lemma BwdWalkNext(G: View, v: nat, start: nat, bp: seq<nat>)
    requires G.Valid() && G.Symmetric() && forall p :: !StepCycle(G, p, v)
    requires BwdWalkPart(G, v, start, bp) && BackStep(G, start)
    ensures G.Cnt(Pred(G, start)) >= 1 && Flip(Pred(G, start)) < |G.idx|
    ensures BwdWalkPart(G, v, Pred(G, start), [Pred(G, start)] + bp)
  {
    var w := Pred(G, start);
    BackFresh(G, bp, v);
    BwdPathCons(G, bp, v, w);
    FlipIn(G, w);
  }

  lemma BwdStepsNext(G: View, q0: seq<Member>, len0: int, q: seq<Member>, len: int,
                     bp: seq<nat>, pre: seq<Member>, w: nat)
    requires G.Valid() && BwdStepsPart(G, q0, len0, q, len, bp, pre) && w < |G.idx| && G.Cnt(w) >= 1
    ensures var m := (w, G.ArcLen(w));
            BwdStepsPart(G, q0, len0, [m] + q, len + G.ArcLen(w), [w] + bp, [m] + pre)
  {
    StepsCons(G, pre, bp, w);
    var m := (w, G.ArcLen(w));
    assert [m] + q == [m] + pre + q0;
  }

  lemma BwdMarkNext(G: View, mark0: seq<int>, mark: seq<int>, bp: seq<nat>, w: nat)
    requires G.Valid() && BwdMarkPart(G, mark0, mark, bp) && |bp| >= 1
    requires bp[0] < |G.idx| && Flip(w) < |G.idx|
    ensures BwdMarkPart(G, mark0, mark[bp[0] := 1][Flip(w) := 1], [w] + bp)
  {
    MarkCons(mark0, mark, bp, w);
    MarksOnCons(mark0, mark, bp, w);
  }

  /** One step of the backward loop. */
  lemma BwdLoopStep(G: View, v: nat, q0: seq<Member>, len0: int, mark0: seq<int>,
                    q: seq<Member>, start: nat, len: int, mark: seq<int>,
                    bp: seq<nat>, pre: seq<Member>)
    requires G.Valid() && G.Symmetric() && forall p :: !StepCycle(G, p, v)
    requires BwdInv(G, v, q0, len0, mark0, q, start, len, mark, bp, pre)
    requires BackStep(G, start)
    ensures var w := Pred(G, start);
            var m := (w, G.ArcLen(w));
            BwdInv(G, v, q0, len0, mark0, [m] + q, w, len + G.ArcLen(w),
                   mark[start := 1][Flip(w) := 1], [w] + bp, [m] + pre)
  {
    var w := Pred(G, start);
    BwdWalkNext(G, v, start, bp);
    BwdStepsNext(G, q0, len0, q, len, bp, pre, w);
    BwdMarkNext(G, mark0, mark, bp, w);
  }

  /** The backward loop of ma_ug_gen from v, run when no forward walk from v
      comes back to v.  It prepends (w, arc length) for each vertex w it steps
      back to and stops at a vertex the backward walk cannot leave. */
  method BackwardWalk(G: View, v: nat, q0: seq<Member>, len0: int, mark0: seq<int>)
    returns (q: seq<Member>, start: nat, len: int, mark: seq<int>,
             ghost bp: seq<nat>, ghost pre: seq<Member>)
    requires G.Valid() && G.Symmetric() && v < |G.idx| && |mark0| == |G.idx|
    requires forall p :: !StepCycle(G, p, v)
    ensures BwdInv(G, v, q0, len0, mark0, q, start, len, mark, bp, pre)
    ensures !BackStep(G, start)
  {
    var x := v;
    FlipIn(G, v);
    q, start, len, mark := q0, v, len0, mark0;
    bp, pre := [v], [];
    assert [] + q0 == q0;
    while true
      invariant BwdInv(G, v, q0, len0, mark0, q, start, len, mark, bp, pre) && x == start
      decreases |G.idx| - |bp|
    {
      if G.Cnt(Flip(x)) != 1 {
        break;
      }
      var w := Flip(G.Succ(Flip(x)));
      if G.Cnt(w) != 1 {
        break;
      }
      BwdLoopStep(G, v, q0, len0, mark0, q, start, len, mark, bp, pre);
      mark := mark[x := 1][Flip(w) := 1];
      var l := G.ArcLen(w);
      q := [(w, l)] + q;
      pre := [(w, l)] + pre;
      start, len := w, len + l;
      bp := [w] + bp;
      x := w;
    }
  }

  /** Two walks that meet at a vertex agree from there on. */
  lemma {:induction false} WalksAgree(G: View, p: seq<nat>, i: nat, r: seq<nat>, j: nat, k: nat)
    requires G.Valid() && Walk(G, p) && Walk(G, r) && i + k < |p| && j + k < |r| && p[i] == r[j]
    ensures p[i + k] == r[j + k]
  {
    if k > 0 {
      WalksAgree(G, p, i, r, j, k - 1);
    }
  }

  /** Once the forward walk from v is stuck, the backward walk to v and the
      forward walk share only v. */
  lemma Disjoint(G: View, bp: seq<nat>, f: seq<nat>, v: nat)
    requires G.Valid() && BwdPath(G, bp, v) && FwdPath(G, f, v) && Distinct(bp) && Distinct(f)
    requires !G.Step(f[|f| - 1])
    ensures forall i, j :: 0 <= i < |bp| - 1 && 1 <= j < |f| ==> bp[i] != f[j]
  {
    forall i, j | 0 <= i < |bp| - 1 && 1 <= j < |f| ensures bp[i] != f[j] {
      if bp[i] == f[j] {
        var n1, n2 := |bp| - 1 - i, |f| - 1 - j;
        if n1 <= n2 {
          WalksAgree(G, bp, i, f, j, n1);
        } else {
          WalksAgree(G, bp, i, f, j, n2);
        }
      }
    }
  }

  /** A walk to v followed by a walk from v is a walk. */
  lemma WalkJoin(G: View, bp: seq<nat>, f: seq<nat>, v: nat)
    requires G.Valid() && BwdPath(G, bp, v) && FwdPath(G, f, v)
    ensures Walk(G, bp + f[1..])
  {
    var w := bp + f[1..];
    assert forall j :: 0 <= j < |bp| ==> w[j] == bp[j];
    assert forall j :: 1 <= j < |f| ==> w[|bp| - 1 + j] == f[j];
    forall j | 0 <= j < |w| - 1 ensures G.Step(w[j]) && G.Succ(w[j]) == w[j + 1] {
      if j >= |bp| - 1 {
        assert w[j] == f[j - |bp| + 1];
      }
    }
  }

  lemma DistinctJoin(G: View, bp: seq<nat>, f: seq<nat>, v: nat)
    requires G.Valid() && BwdPath(G, bp, v) && FwdPath(G, f, v) && Distinct(bp) && Distinct(f)
    requires !G.Step(f[|f| - 1])
    ensures Distinct(bp + f[1..])
  {
    Disjoint(G, bp, f, v);
    var w := bp + f[1..];
    forall a, b | 0 <= a < b < |w| ensures w[a] != w[b] {
      if b >= |bp| {
        assert w[b] == f[b - |bp| + 1];
        if a >= |bp| {
          assert w[a] == f[a - |bp| + 1];
        } else if a == |bp| - 1 {
          assert w[a] == f[0];
        }
      }
    }
  }

  lemma StepsJoin(G: View, pre: seq<Member>, bp: seq<nat>, qf: seq<Member>, f: seq<nat>)
    requires G.Valid() && StepsOf(G, pre, bp) && StepsOf(G, qf, f) && bp[|bp| - 1] == f[0]
    ensures StepsOf(G, pre + qf, bp + f[1..])
  {
    var w, q := bp + f[1..], pre + qf;
    forall j | 0 <= j < |w| ensures w[j] < |G.idx| {
      if j >= |bp| {
        assert w[j] == f[j - |bp| + 1];
      }
    }
    forall j | 0 <= j < |q| ensures G.Cnt(w[j]) >= 1 && q[j] == (w[j], G.ArcLen(w[j])) {
      if j >= |pre| {
        assert q[j] == qf[j - |pre|] && w[j] == f[j - |pre|];
      }
    }
  }

  lemma SumLensAppend(a: seq<Member>, b: seq<Member>)
    ensures SumLens(a + b) == SumLens(a) + SumLens(b)
    decreases |b|
  {
    if |b| > 0 {
      assert a + b == (a + b[..|b| - 1]) + [b[|b| - 1]];
      SumLensSnoc(a + b[..|b| - 1], b[|b| - 1]);
      SumLensAppend(a, b[..|b| - 1]);
      SumLensSnoc(b[..|b| - 1], b[|b| - 1]);
      assert b[..|b| - 1] + [b[|b| - 1]] == b;
    } else {
      assert a + b == a;
    }
  }

  /** ma_utg_t: a unitig's length, whether it is circular, its end vertices
      (UINT32_MAX for a circle), its member count and members, and its
      sequence, which ma_ug_seq fills in later. */
  datatype Utg = Utg(len: int, circ: bool, start: int, end: int, n: nat,
                     a: seq<Member>, s: seq<byte>)

  /** A character of a sequence buffer, as an unsigned byte. */
  type byte = b: int | 0 <= b < 256

  /** u is the unitig through v along walk W: a circle or a linear unitig,
      as its flag says, whose length is the sum of its members' lengths. */
  ghost predicate IsUnitig(G: View, v: nat, u: Utg, W: seq<nat>)
    requires G.Valid()
  {
    Walk(G, W) && u.n == |u.a| && u.len == SumLens(u.a) && u.s == []
    && (exists j :: 0 <= j < |W| && W[j] == v)
    && if u.circ then CircularUnitig(G, v, u, W) else LinearUnitig(G, u, W)
  }

  /** A circular unitig is a forward cycle from v whose members are the
      cycle's steps; it has no end vertices. */
  ghost predicate CircularUnitig(G: View, v: nat, u: Utg, W: seq<nat>)
    requires G.Valid()
  {
    u.start == UINT32_MAX && u.end == UINT32_MAX && StepCycle(G, W, v)
    && Distinct(W[..|W| - 1]) && StepsOf(G, u.a, W)
  }

  /** A linear unitig is a walk without repeats from start to the other end
      of end that neither direction can extend; each member but the last
      carries the length of the arc it leaves by, the last its segment's
      length. */
  ghost predicate LinearUnitig(G: View, u: Utg, W: seq<nat>)
    requires G.Valid() && Walk(G, W)
  {
    Distinct(W) && u.start == W[0] && u.end == Flip(W[|W| - 1])
    && |u.a| == |W| && StepsOf(G, u.a[..|W| - 1], W)
    && W[|W| - 1] / 2 < |G.seg|
    && u.a[|W| - 1] == (W[|W| - 1], G.seg[W[|W| - 1] / 2].len)
    && !G.Step(W[|W| - 1]) && Flip(W[0]) < |G.idx| && !BackStep(G, W[0])
  }

  /** Every vertex of W and its other end are marked. */
  predicate AllMarked(mark: seq<int>, W: seq<nat>) {
    forall j :: 0 <= j < |W| ==> W[j] < |mark| && Flip(W[j]) < |mark| && mark[W[j]] == 1 && mark[Flip(W[j])] == 1
  }

  /** The members of a linear unitig: the backward steps, the forward steps,
      then the last vertex with its segment's length. */
  lemma LinearMembers(G: View, path: seq<nat>, qf: seq<Member>, bp: seq<nat>,
                      pre: seq<Member>, l: int, a: seq<Member>)
    requires G.Valid() && StepsOf(G, qf, path) && StepsOf(G, pre, bp) && bp[|bp| - 1] == path[0]
    requires a == pre + (qf + [(path[|path| - 1], l)])
    ensures |a| == |bp + path[1..]| && StepsOf(G, a[..|a| - 1], bp + path[1..])
    ensures a[|a| - 1] == (path[|path| - 1], l)
    ensures SumLens(a) == SumLens(pre) + SumLens(qf) + l
  {
    var m := (path[|path| - 1], l);
    StepsJoin(G, pre, bp, qf, path);
    assert a == (pre + qf) + [m];
    assert a[..|a| - 1] == pre + qf;
    SumLensSnoc(pre + qf, m);
    SumLensAppend(pre, qf);
  }

  lemma LinearShape(G: View, v: nat, path: seq<nat>, qf: seq<Member>, bp: seq<nat>,
                    pre: seq<Member>, l: int, len: int, u: Utg)
    requires G.Valid() && FwdPath(G, path, v) && StepsOf(G, qf, path) && Distinct(path)
    requires !G.Step(path[|path| - 1]) && path[|path| - 1] / 2 < |G.seg|
    requires l == G.seg[path[|path| - 1] / 2].len
    requires BwdPath(G, bp, v) && Distinct(bp) && StepsOf(G, pre, bp)
    requires Flip(bp[0]) < |G.idx| && !BackStep(G, bp[0])
    requires len == SumLens(qf) + l + SumLens(pre)
    requires u == Utg(len, false, bp[0], Flip(path[|path| - 1]), |pre + (qf + [(path[|path| - 1], l)])|,
                      pre + (qf + [(path[|path| - 1], l)]), [])
    ensures IsUnitig(G, v, u, bp + path[1..])
  {
    var W := bp + path[1..];
    LinearPart(G, v, path, qf, bp, pre, l, len, u);
    assert W[|bp| - 1] == v;
  }

  lemma LinearPart(G: View, v: nat, path: seq<nat>, qf: seq<Member>, bp: seq<nat>,
                   pre: seq<Member>, l: int, len: int, u: Utg)
    requires G.Valid() && FwdPath(G, path, v) && StepsOf(G, qf, path) && Distinct(path)
    requires !G.Step(path[|path| - 1]) && path[|path| - 1] / 2 < |G.seg|
    requires l == G.seg[path[|path| - 1] / 2].len
    requires BwdPath(G, bp, v) && Distinct(bp) && StepsOf(G, pre, bp)
    requires Flip(bp[0]) < |G.idx| && !BackStep(G, bp[0])
    requires len == SumLens(qf) + l + SumLens(pre)
    requires u == Utg(len, false, bp[0], Flip(path[|path| - 1]), |pre + (qf + [(path[|path| - 1], l)])|,
                      pre + (qf + [(path[|path| - 1], l)]), [])
    ensures Walk(G, bp + path[1..]) && LinearUnitig(G, u, bp + path[1..])
    ensures u.n == |u.a| && u.len == SumLens(u.a) && u.s == [] && !u.circ
  {
    var W := bp + path[1..];
    WalkJoin(G, bp, path, v);
    DistinctJoin(G, bp, path, v);
    LinearMembers(G, path, qf, bp, pre, l, u.a);
    assert W[|W| - 1] == path[|path| - 1];
  }

  /** The marks a linear unitig leaves: everything on the joined walk. */
  lemma LinearMarks(mark0: seq<int>, markF: seq<int>, markB: seq<int>, path: seq<nat>,
                    bp: seq<nat>, v: nat)
    requires |path| >= 1 && path[0] == v && |bp| >= 1 && bp[|bp| - 1] == v && v < |mark0|
    requires MarksGrow(mark0[v := 1], markF) && WalkMarked(markF, path)
    requires MarksGrow(markF, markB) && WalkMarked(markB, bp)
    requires bp[0] < |markB| && Flip(path[|path| - 1]) < |markB|
    ensures var mark := markB[bp[0] := 1][Flip(path[|path| - 1]) := 1];
            MarksGrow(mark0, mark) && AllMarked(mark, bp + path[1..])
  {
    var mark := markB[bp[0] := 1][Flip(path[|path| - 1]) := 1];
    var W := bp + path[1..];
    assert markF[v] == 1;
    forall j | 0 <= j < |W| ensures W[j] < |mark| && Flip(W[j]) < |mark| && mark[W[j]] == 1 && mark[Flip(W[j])] == 1 {
      if j >= |bp| {
        assert W[j] == path[j - |bp| + 1];
      } else if j == |bp| - 1 && |path| >= 2 {
        assert W[j] == path[0];
      }
    }
  }

  /** The marks a circular unitig leaves. */
  lemma CircularMarks(mark0: seq<int>, markF: seq<int>, path: seq<nat>, v: nat)
    requires |path| >= 2 && path[0] == v && path[|path| - 1] == v && v < |mark0|
    requires MarksGrow(mark0[v := 1], markF) && WalkMarked(markF, path)
    ensures MarksGrow(mark0, markF) && AllMarked(markF, path)
  {
    assert markF[v] == 1;
    forall j | 0 <= j < |path|
      ensures path[j] < |markF| && Flip(path[j]) < |markF| && markF[path[j]] == 1 && markF[Flip(path[j])] == 1
    {
      if j == |path| - 1 {
        assert Flip(path[j]) == Flip(path[0]);
      }
    }
  }

  /** Only vertices of the joined walk and their other ends change marks. */
  lemma LinearMarksOn(mark0: seq<int>, markF: seq<int>, markB: seq<int>, path: seq<nat>,
                      bp: seq<nat>, v: nat)
    requires |path| >= 1 && path[0] == v && |bp| >= 1 && bp[|bp| - 1] == v && v < |mark0|
    requires MarksOn(mark0[v := 1], markF, path) && MarksOn(markF, markB, bp)
    requires bp[0] < |markB| && Flip(path[|path| - 1]) < |markB|
    ensures MarksOn(mark0, markB[bp[0] := 1][Flip(path[|path| - 1]) := 1], bp + path[1..])
  {
    var mark := markB[bp[0] := 1][Flip(path[|path| - 1]) := 1];
    var W := bp + path[1..];
    forall u | 0 <= u < |mark| && mark[u] != mark0[u] ensures OnWalk(W, u) {
      if u == bp[0] || u == v {
        assert W[0] == bp[0] && W[|bp| - 1] == v;
      } else if u == Flip(path[|path| - 1]) {
        assert W[|W| - 1] == path[|path| - 1];
      } else if markB[u] != markF[u] {
        var j :| 0 <= j < |bp| && (bp[j] == u || Flip(bp[j]) == u);
        assert W[j] == bp[j];
      } else {
        var j :| 0 <= j < |path| && (path[j] == u || Flip(path[j]) == u);
        assert W[|bp| - 1 + j] == path[j];
      }
    }
  }

  lemma CircularMarksOn(mark0: seq<int>, markF: seq<int>, path: seq<nat>, v: nat)
    requires |path| >= 1 && path[0] == v && v < |mark0| && MarksOn(mark0[v := 1], markF, path)
    ensures MarksOn(mark0, markF, path)
  {
    forall u | 0 <= u < |markF| && markF[u] != mark0[u] ensures OnWalk(path, u) {
      if u == v {
        assert path[0] == u;
      }
    }
  }

  /** One unitig of ma_ug_gen, grown from seed v: walk forward; if the walk
      came back to v the unitig is that circle, otherwise append the last
      vertex with its segment's length, walk backward, and mark both ends. */
  method BuildUnitig(G: View, v: nat, mark0: seq<int>) returns (u: Utg, mark: seq<int>, ghost W: seq<nat>)
    requires G.Valid() && G.Symmetric() && v < |G.idx| && |mark0| == |G.idx| && |G.idx| < UINT32_MAX
    requires Seed(G, v)
    ensures Built(G, v, u, W)
    ensures MarksGrow(mark0, mark) && AllMarked(mark, W) && MarksOn(mark0, mark, W)
  {
    var m0 := mark0[v := 1];
    var start: int := v;
    var qf, end, lenf, markF, path := ForwardWalk(G, v, m0);
    ghost var last := path[|path| - 1];
    FlipFlip(last);
    if start != Flip(end) || |qf| == 0 {
      // linear: the forward walk is stuck at last, so no cycle goes through v
      NoCycle(G, path, v);
      var l := G.seg[end / 2].len;
      var q1 := qf + [(Flip(end), l)];
      var q, start2, len, markB, bp, pre := BackwardWalk(G, v, q1, lenf + l, markF);
      start := start2;
      mark := markB;
      u := Utg(len, false, start, end, |q|, q, []);
      W := bp + path[1..];
      LinearShape(G, v, path, qf, bp, pre, l, len, u);
      LinearMarks(mark0, markF, markB, path, bp, v);
      LinearMarksOn(mark0, markF, markB, path, bp, v);
    } else {
      // circular: the forward walk came back to v
      assert StepCycle(G, path, v);
      mark := markF;
      u := Utg(lenf, true, UINT32_MAX, UINT32_MAX, |qf|, qf, []);
      W := path;
      CircularMarks(mark0, markF, path, v);
      CircularMarksOn(mark0, markF, path, v);
    }
    if u.start != UINT32_MAX {
      mark := mark[u.start := 1][u.end := 1];
    }
  }

  /** A vertex ma_ug_gen may grow a unitig from: its segment is live and it
      has arcs. */
  predicate Seed(G: View, v: nat)
    requires G.Valid() && v < |G.idx|
  {
    !G.seg[v / 2].del && G.Cnt(v) != 0
  }

  /** u, along walk W, is the unitig ma_ug_gen grows from seed v. */
  ghost predicate Built(G: View, v: nat, u: Utg, W: seq<nat>)
    requires G.Valid()
  {
    v < |G.idx| && Seed(G, v) && IsUnitig(G, v, u, W)
    && (u.circ <==> exists p :: StepCycle(G, p, v))
  }

  /** No seed lies on the walk of an earlier unitig, in either orientation. */
  ghost predicate Separate(seeds: seq<nat>, walks: seq<seq<nat>>)
    requires |walks| == |seeds|
  {
    forall i, j, k :: 0 <= i < j < |seeds| && 0 <= k < |walks[i]| ==>
      walks[i][k] != seeds[j] && Flip(walks[i][k]) != seeds[j]
  }

  /** us are unitigs ma_ug_gen grows from the increasing seeds along walks,
      none seeded on an earlier one. */
  ghost predicate Seeded(G: View, us: seq<Utg>, seeds: seq<nat>, walks: seq<seq<nat>>)
    requires G.Valid()
  {
    |us| == |seeds| == |walks|
    && (forall k :: 0 <= k < |us| ==> Built(G, seeds[k], us[k], walks[k]))
    && (forall k1, k2 :: 0 <= k1 < k2 < |seeds| ==> seeds[k1] < seeds[k2])
    && Separate(seeds, walks)
  }

  /** The seed loop of ma_ug_gen after vertices 0 .. v - 1: the unitigs so far
      come from seeds below v and their walks are marked. */
  ghost predicate SeedInv(G: View, v: nat, mark: seq<int>, us: seq<Utg>,
                          seeds: seq<nat>, walks: seq<seq<nat>>)
    requires G.Valid()
  {
    v <= |G.idx| && |mark| == |G.idx| && Seeded(G, us, seeds, walks)
    && (forall k :: 0 <= k < |seeds| ==> seeds[k] < v)
    && (forall k :: 0 <= k < |walks| ==> AllMarked(mark, walks[k]))
    && MarksCovered(G, v, mark, walks)
    && SeedsChosen(G, v, seeds, walks)
  }

  /** u is one of the seeds, or lies on the walk of a unitig seeded before u. */
  ghost predicate SeedOrPassed(seeds: seq<nat>, walks: seq<seq<nat>>, u: nat) {
    (exists k :: 0 <= k < |seeds| && seeds[k] == u)
    || exists k :: 0 <= k < |seeds| && k < |walks| && seeds[k] < u && OnWalk(walks[k], u)
  }

  /** Every seed candidate below v was grown from, or was marked by an
      earlier unitig when the loop reached it. */
  ghost predicate SeedsChosen(G: View, v: nat, seeds: seq<nat>, walks: seq<seq<nat>>)
    requires G.Valid()
  {
    forall u :: 0 <= u < v && u < |G.idx| && Seed(G, u) ==> SeedOrPassed(seeds, walks, u)
  }

  /** u lies on one of the walks, in one orientation or the other. */
  ghost predicate Covered(walks: seq<seq<nat>>, u: nat) {
    exists k :: 0 <= k < |walks| && OnWalk(walks[k], u)
  }

  /** Every seed below v is marked, and every marked vertex is covered. */
  ghost predicate MarksCovered(G: View, v: nat, mark: seq<int>, walks: seq<seq<nat>>)
    requires G.Valid() && |mark| == |G.idx|
  {
    (forall u :: 0 <= u < v && u < |G.idx| && Seed(G, u) ==> mark[u] != 0)
    && forall u :: 0 <= u < |mark| && mark[u] != 0 ==> Covered(walks, u)
  }

  lemma CoverStep(G: View, v: nat, mark: seq<int>, walks: seq<seq<nat>>, mark': seq<int>, W: seq<nat>)
    requires G.Valid() && |mark| == |G.idx| && v < |G.idx| && MarksCovered(G, v, mark, walks)
    requires MarksGrow(mark, mark') && MarksOn(mark, mark', W) && AllMarked(mark', W)
    requires exists j :: 0 <= j < |W| && W[j] == v
    ensures MarksCovered(G, v + 1, mark', walks + [W])
  {
    var walks' := walks + [W];
    var j :| 0 <= j < |W| && W[j] == v;
    assert mark'[v] == 1;
    forall u | 0 <= u < |mark'| && mark'[u] != 0 ensures Covered(walks', u) {
      if mark'[u] != mark[u] {
        assert walks'[|walks|] == W;
      } else {
        var k :| 0 <= k < |walks| && OnWalk(walks[k], u);
        assert walks'[k] == walks[k];
      }
    }
  }

  lemma AllMarkedGrow(mark: seq<int>, mark': seq<int>, W: seq<nat>)
    requires AllMarked(mark, W) && MarksGrow(mark, mark')
    ensures AllMarked(mark', W)
  {
  }

  lemma BuiltSnoc(G: View, us: seq<Utg>, seeds: seq<nat>, walks: seq<seq<nat>>,
                  u: Utg, v: nat, W: seq<nat>)
    requires G.Valid() && |us| == |seeds| == |walks|
    requires forall k :: 0 <= k < |us| ==> Built(G, seeds[k], us[k], walks[k])
    requires Built(G, v, u, W)
    ensures forall k :: 0 <= k < |us| + 1 ==> Built(G, (seeds + [v])[k], (us + [u])[k], (walks + [W])[k])
  {
    forall k | 0 <= k < |us| + 1 ensures Built(G, (seeds + [v])[k], (us + [u])[k], (walks + [W])[k]) {
      if k < |us| {
        assert (seeds + [v])[k] == seeds[k] && (us + [u])[k] == us[k] && (walks + [W])[k] == walks[k];
      }
    }
  }

  lemma SeparateSnoc(mark: seq<int>, seeds: seq<nat>, walks: seq<seq<nat>>, v: nat, W: seq<nat>)
    requires |walks| == |seeds| && Separate(seeds, walks) && v < |mark| && mark[v] == 0
    requires forall k :: 0 <= k < |walks| ==> AllMarked(mark, walks[k])
    ensures Separate(seeds + [v], walks + [W])
  {
    var seeds', walks' := seeds + [v], walks + [W];
    forall i, j, k | 0 <= i < j < |seeds'| && 0 <= k < |walks'[i]|
      ensures walks'[i][k] != seeds'[j] && Flip(walks'[i][k]) != seeds'[j]
    {
      assert walks'[i] == walks[i];
      if j == |seeds| {
        assert AllMarked(mark, walks[i]);
      } else {
        assert seeds'[j] == seeds[j];
      }
    }
  }

  lemma MarkedSnoc(mark: seq<int>, mark': seq<int>, walks: seq<seq<nat>>, W: seq<nat>)
    requires MarksGrow(mark, mark') && AllMarked(mark', W)
    requires forall k :: 0 <= k < |walks| ==> AllMarked(mark, walks[k])
    ensures forall k :: 0 <= k < |walks| + 1 ==> AllMarked(mark', (walks + [W])[k])
  {
    forall k | 0 <= k < |walks| + 1 ensures AllMarked(mark', (walks + [W])[k]) {
      if k < |walks| {
        assert (walks + [W])[k] == walks[k];
        AllMarkedGrow(mark, mark', walks[k]);
      }
    }
  }

  lemma CoverSkip(G: View, v: nat, mark: seq<int>, walks: seq<seq<nat>>)
    requires G.Valid() && |mark| == |G.idx| && v < |G.idx| && MarksCovered(G, v, mark, walks)
    requires !Seed(G, v) || mark[v] != 0
    ensures MarksCovered(G, v + 1, mark, walks)
  {
  }

  /** Passing over a vertex that is no seed, or is marked, keeps the seed
      loop's invariant. */
  lemma SeedSkip(G: View, v: nat, mark: seq<int>, us: seq<Utg>, seeds: seq<nat>, walks: seq<seq<nat>>)
    requires G.Valid() && SeedInv(G, v, mark, us, seeds, walks) && v < |G.idx|
    requires !Seed(G, v) || mark[v] != 0
    ensures SeedInv(G, v + 1, mark, us, seeds, walks)
  {
    CoverSkip(G, v, mark, walks);
    if Seed(G, v) {
      var k :| 0 <= k < |walks| && OnWalk(walks[k], v);
      assert seeds[k] < v;
    }
  }

  /** After the last vertex every seed is covered. */
  lemma SeedDone(G: View, mark: seq<int>, us: seq<Utg>, seeds: seq<nat>, walks: seq<seq<nat>>)
    requires G.Valid() && SeedInv(G, |G.idx|, mark, us, seeds, walks)
    ensures Seeded(G, us, seeds, walks)
    ensures forall u :: 0 <= u < |G.idx| && Seed(G, u) ==> Covered(walks, u)
    ensures forall u :: 0 <= u < |G.idx| && Seed(G, u) ==> SeedOrPassed(seeds, walks, u)
  {
  }

  lemma SeededSnoc(G: View, mark: seq<int>, us: seq<Utg>, seeds: seq<nat>, walks: seq<seq<nat>>,
                   u: Utg, v: nat, W: seq<nat>)
    requires G.Valid() && Seeded(G, us, seeds, walks) && Built(G, v, u, W)
    requires forall k :: 0 <= k < |seeds| ==> seeds[k] < v
    requires v < |mark| && mark[v] == 0 && forall k :: 0 <= k < |walks| ==> AllMarked(mark, walks[k])
    ensures Seeded(G, us + [u], seeds + [v], walks + [W])
    ensures forall k :: 0 <= k < |seeds| + 1 ==> (seeds + [v])[k] < v + 1
  {
    BuiltSnoc(G, us, seeds, walks, u, v, W);
    SeparateSnoc(mark, seeds, walks, v, W);
  }

  /** A new unitig from an unmarked seed keeps the seed loop's invariant. */
  lemma SeedStep(G: View, v: nat, mark: seq<int>, us: seq<Utg>, seeds: seq<nat>,
                 walks: seq<seq<nat>>, u: Utg, mark': seq<int>, W: seq<nat>)
    requires G.Valid() && SeedInv(G, v, mark, us, seeds, walks) && v < |G.idx| && mark[v] == 0
    requires Built(G, v, u, W) && MarksGrow(mark, mark') && AllMarked(mark', W)
    requires MarksOn(mark, mark', W)
    ensures SeedInv(G, v + 1, mark', us + [u], seeds + [v], walks + [W])
  {
    SeededSnoc(G, mark, us, seeds, walks, u, v, W);
    CoverStep(G, v, mark, walks, mark', W);
    MarkedSnoc(mark, mark', walks, W);
    ChosenSnoc(G, v, seeds, walks, W);
  }

  lemma ChosenSnoc(G: View, v: nat, seeds: seq<nat>, walks: seq<seq<nat>>, W: seq<nat>)
    requires G.Valid() && |seeds| == |walks| && SeedsChosen(G, v, seeds, walks)
    ensures SeedsChosen(G, v + 1, seeds + [v], walks + [W])
  {
    var seeds', walks' := seeds + [v], walks + [W];
    forall u | 0 <= u < v + 1 && u < |G.idx| && Seed(G, u) ensures SeedOrPassed(seeds', walks', u) {
      if u == v {
        assert seeds'[|seeds|] == v;
      } else if k :| 0 <= k < |seeds| && seeds[k] == u {
        assert seeds'[k] == u;
      } else {
        var k :| 0 <= k < |seeds| && k < |walks| && seeds[k] < u && OnWalk(walks[k], u);
        assert seeds'[k] == seeds[k] && walks'[k] == walks[k];
      }
    }
  }

  /** One vertex of the seed loop: pass over it when its segment is
      deleted, it has no arcs or it is marked; otherwise grow a unitig from it. */
  method VisitSeed(G: View, v: nat, mark: seq<int>, us: seq<Utg>,
                   ghost seeds: seq<nat>, ghost walks: seq<seq<nat>>)
    returns (mark': seq<int>, us': seq<Utg>, ghost seeds': seq<nat>, ghost walks': seq<seq<nat>>)
    requires G.Valid() && G.Symmetric() && |G.idx| < UINT32_MAX && v < |G.idx|
    requires SeedInv(G, v, mark, us, seeds, walks)
    ensures SeedInv(G, v + 1, mark', us', seeds', walks')
  {
    if G.seg[v / 2].del || G.Cnt(v) == 0 || mark[v] != 0 {
      SeedSkip(G, v, mark, us, seeds, walks);
      return mark, us, seeds, walks;
    }
    var u, m, W := BuildUnitig(G, v, mark);
    SeedStep(G, v, mark, us, seeds, walks, u, m, W);
    mark', us', seeds', walks' := m, us + [u], seeds + [v], walks + [W];
  }

  /** The first stage of ma_ug_gen: one unitig from each vertex, in order,
      that is live, has arcs and is not yet marked. */
  method BuildUnitigs(G: View)
    returns (us: seq<Utg>, mark: seq<int>, ghost seeds: seq<nat>, ghost walks: seq<seq<nat>>)
    requires G.Valid() && G.Symmetric() && |G.idx| < UINT32_MAX
    ensures |mark| == |G.idx|
    ensures Seeded(G, us, seeds, walks)
    ensures forall u :: 0 <= u < |G.idx| && Seed(G, u) ==> Covered(walks, u)
    ensures forall u :: 0 <= u < |G.idx| && Seed(G, u) ==> SeedOrPassed(seeds, walks, u)
  {
    mark := seq(|G.idx|, _ => 0);
    us, seeds, walks := [], [], [];
    for v := 0 to |G.idx|
      invariant SeedInv(G, v, mark, us, seeds, walks)
    {
      mark, us, seeds, walks := VisitSeed(G, v, mark, us, seeds, walks);
    }
    SeedDone(G, mark, us, seeds, walks);
  }
}
