/** Control-flow graphs over numbered blocks: walks, reachability and quotients. */
module Graphs {

  type Block = nat
  type Succ = map<Block, set<Block>>

  lemma SubsetSize(a: set<Block>, b: set<Block>)
    requires a <= b
    ensures |a| <= |b|
  {
    assert b == a + (b - a);
  }

  ghost predicate Closed(g: Succ) {
    forall v, w :: v in g && w in g[v] ==> w in g
  }

  ghost predicate Walk(g: Succ, p: seq<Block>) {
    && |p| > 0
    && (forall i :: 0 <= i < |p| ==> p[i] in g)
    && (forall i :: 0 < i < |p| ==> p[i] in g[p[i - 1]])
  }

  ghost predicate WalkFromTo(g: Succ, p: seq<Block>, a: Block, b: Block) {
    Walk(g, p) && p[0] == a && p[|p| - 1] == b
  }

  /** There is a walk, possibly of no edges, from `a` to `b`. */
  ghost predicate Reach(g: Succ, a: Block, b: Block) {
    exists p :: WalkFromTo(g, p, a, b)
  }

  lemma ReachSelf(g: Succ, a: Block)
    requires a in g
    ensures Reach(g, a, a)
  {
    assert WalkFromTo(g, [a], a, a);
  }

  lemma ReachEdge(g: Succ, a: Block, b: Block)
    requires a in g && b in g && b in g[a]
    ensures Reach(g, a, b)
  {
    assert WalkFromTo(g, [a, b], a, b);
  }

  lemma ReachTrans(g: Succ, a: Block, b: Block, c: Block)
    requires Reach(g, a, b) && Reach(g, b, c)
    ensures Reach(g, a, c)
  {
    var p :| WalkFromTo(g, p, a, b);
    var q :| WalkFromTo(g, q, b, c);
    assert WalkFromTo(g, p + q[1..], a, c);
  }

  /** A set closed under edges holds everything reachable from a member. */
  lemma {:induction false} ReachStays(g: Succ, s: set<Block>, a: Block, b: Block)
    requires a in s && Reach(g, a, b)
    requires forall v, w :: v in s && v in g && w in g[v] ==> w in s
    ensures b in s
  {
    var p :| WalkFromTo(g, p, a, b);
    var i := 0;
    while i < |p| - 1
      invariant 0 <= i < |p| && p[i] in s
    {
      assert p[i + 1] in g[p[i]];
      i := i + 1;
    }
  }

  /** The first edge of a walk between two different blocks. */
  lemma ReachFirstEdge(g: Succ, a: Block, b: Block) returns (c: Block)
    requires Reach(g, a, b) && a != b
    ensures a in g && c in g[a] && Reach(g, c, b)
  {
    var p :| WalkFromTo(g, p, a, b);
    c := p[1];
    assert WalkFromTo(g, p[1..], c, b);
  }

  /** The last edge of a walk between two different blocks. */
  lemma ReachLastEdge(g: Succ, a: Block, b: Block) returns (c: Block)
    requires Reach(g, a, b) && a != b
    ensures c in g && b in g[c] && Reach(g, a, c)
  {
    var p :| WalkFromTo(g, p, a, b);
    c := p[|p| - 2];
    assert WalkFromTo(g, p[..|p| - 1], a, c);
  }

  /** Each block reaches the other: both lie in one strongly connected component. */
  ghost predicate SameComponent(g: Succ, a: Block, b: Block) {
    Reach(g, a, b) && Reach(g, b, a)
  }

  // ---------------------------------------------------------------------------
  // Quotients: `rep` sends every block to the block that represents its class.

  type Rep = map<Block, Block>

  ghost predicate IsRep(g: Succ, rep: Rep) {
    && rep.Keys == g.Keys
    && forall x :: x in rep ==> rep[x] in rep && rep[rep[x]] == rep[x]
  }

  ghost function Live(rep: Rep): set<Block> {
    set x | x in rep && rep[x] == x
  }

  /** The classes of a set of blocks. */
  ghost function Image(rep: Rep, s: set<Block>): set<Block> {
    set x | x in s && x in rep :: rep[x]
  }

  /** Some edge leads from the class of `x` to the class of `y`. */
  ghost predicate QEdge(g: Succ, rep: Rep, x: Block, y: Block) {
    exists v, w :: EdgeBetween(g, rep, x, y, v, w)
  }

  ghost predicate EdgeBetween(g: Succ, rep: Rep, x: Block, y: Block, v: Block, w: Block) {
    v in g && w in g[v] && v in rep && w in rep && rep[v] == x && rep[w] == y
  }

  lemma QEdgeIntro(g: Succ, rep: Rep, v: Block, w: Block)
    requires v in g && w in g[v] && v in rep && w in rep
    ensures QEdge(g, rep, rep[v], rep[w])
  {
    assert EdgeBetween(g, rep, rep[v], rep[w], v, w);
  }

  /** Every class is strongly connected. */
  ghost predicate Connected(g: Succ, rep: Rep) {
    forall x :: x in rep ==> SameComponent(g, x, rep[x])
  }

  /** The quotient in which the class of `m` has joined the class of `t`. */
  ghost function Merged(rep: Rep, m: Block, t: Block): Rep {
    map x | x in rep :: if rep[x] == m then t else rep[x]
  }

  lemma MergedLive(g: Succ, rep: Rep, m: Block, t: Block, x: Block)
    requires IsRep(g, rep) && m in Live(rep) && t in Live(rep) && m != t
    ensures x in Live(Merged(rep, m, t)) <==> x in Live(rep) && x != m
  {
  }

  lemma MergedIsRep(g: Succ, rep: Rep, m: Block, t: Block)
    requires IsRep(g, rep) && m in Live(rep) && t in Live(rep) && m != t
    ensures IsRep(g, Merged(rep, m, t))
    ensures Live(Merged(rep, m, t)) == Live(rep) - {m}
  {
    var rep' := Merged(rep, m, t);
    assert rep[t] == t;
    hide Live;
    forall x
      ensures x in Live(rep') <==> x in Live(rep) - {m}
    {
      MergedLive(g, rep, m, t, x);
    }
  }

  lemma MergedCount(g: Succ, rep: Rep, m: Block, t: Block)
    requires IsRep(g, rep) && m in Live(rep) && t in Live(rep) && m != t
    ensures |Live(Merged(rep, m, t))| == |Live(rep)| - 1
  {
    MergedIsRep(g, rep, m, t);
  }

  /** An edge of the merged quotient comes from an edge of the old one. */
  lemma QEdgeMerged(g: Succ, rep: Rep, m: Block, t: Block, x: Block, y: Block) returns (x0: Block, y0: Block)
    requires QEdge(g, Merged(rep, m, t), x, y)
    ensures QEdge(g, rep, x0, y0)
    ensures x == if x0 == m then t else x0
    ensures y == if y0 == m then t else y0
  {
    var rep' := Merged(rep, m, t);
    var v, w :| EdgeBetween(g, rep', x, y, v, w);
    QEdgeIntro(g, rep, v, w);
    x0, y0 := rep[v], rep[w];
  }

  lemma QEdgeMergedBack(g: Succ, rep: Rep, m: Block, t: Block, x: Block, y: Block)
    requires QEdge(g, rep, x, y)
    ensures QEdge(g, Merged(rep, m, t), if x == m then t else x, if y == m then t else y)
  {
    var rep' := Merged(rep, m, t);
    var v, w :| EdgeBetween(g, rep, x, y, v, w);
    QEdgeIntro(g, rep', v, w);
  }

  lemma MergedConnected(g: Succ, rep: Rep, m: Block, t: Block)
    requires IsRep(g, rep) && m in Live(rep) && t in Live(rep)
    requires Connected(g, rep) && SameComponent(g, m, t)
    ensures Connected(g, Merged(rep, m, t))
  {
    var rep' := Merged(rep, m, t);
    forall x | x in rep'
      ensures SameComponent(g, x, rep'[x])
    {
      if rep[x] == m {
        assert SameComponent(g, x, m);
        ReachTrans(g, x, m, t);
        ReachTrans(g, t, m, x);
      }
    }
  }

  /** An edge of the quotient is a walk between the representatives. */
  lemma QEdgeReach(g: Succ, rep: Rep, x: Block, y: Block)
    requires Closed(g) && IsRep(g, rep) && Connected(g, rep) && QEdge(g, rep, x, y)
    ensures Reach(g, x, y)
  {
    var v, w :| EdgeBetween(g, rep, x, y, v, w);
    assert SameComponent(g, v, x) && SameComponent(g, w, y);
    ReachEdge(g, v, w);
    ReachTrans(g, x, v, w);
    ReachTrans(g, x, w, y);
  }
}
