/** The search behind `RemoveLoop`, on block numbers: what is still to be explored, which classes are known
    to lie on no loop, and why the search ends. */
module LoopSearch {
  import opened Graphs

  // ---------------------------------------------------------------------------
  // Classes known to lie on no loop

  /** `order` lists classes in such a way that every edge leaving a listed class leads to an earlier one. */
  ghost predicate TopoOrder(g: Succ, rep: Rep, order: seq<Block>) {
    && (forall i :: 0 <= i < |order| ==> order[i] in Live(rep))
    && (forall i, j :: 0 <= i < j < |order| ==> order[i] != order[j])
    && (forall i, y :: 0 <= i < |order| && QEdge(g, rep, order[i], y) && y != order[i] ==> y in order[..i])
  }

  /** Everything reachable from a listed class lies in a class listed no later. */
  lemma TopoReach(g: Succ, rep: Rep, order: seq<Block>, i: nat, b: Block)
    requires Closed(g) && IsRep(g, rep) && TopoOrder(g, rep, order)
    requires i < |order| && Reach(g, order[i], b)
    ensures b in rep && rep[b] in order[..i + 1]
  {
    var s := set x | x in rep && rep[x] in order[..i + 1];
    forall v, w | v in s && v in g && w in g[v]
      ensures w in s
    {
      var k :| 0 <= k < i + 1 && order[k] == rep[v];
      QEdgeIntro(g, rep, v, w);
      assert rep[w] == order[k] || rep[w] in order[..k];
    }
    assert order[i] in Live(rep);
    ReachStays(g, s, order[i], b);
  }

  /** Two different classes in one strongly connected component are not listed. */
  lemma TopoSeparates(g: Succ, rep: Rep, order: seq<Block>, a: Block, b: Block)
    requires Closed(g) && IsRep(g, rep) && TopoOrder(g, rep, order)
    requires a in Live(rep) && b in Live(rep) && a != b && SameComponent(g, a, b)
    ensures a !in order
  {
    if a in order {
      var i :| 0 <= i < |order| && order[i] == a;
      TopoReach(g, rep, order, i, b);
      var j :| 0 <= j < i + 1 && order[j] == b;
      TopoReach(g, rep, order, j, a);
    }
  }

  /** A class that is listed is exactly a strongly connected component. */
  lemma TopoComponents(g: Succ, rep: Rep, order: seq<Block>, a: Block, b: Block)
    requires Closed(g) && IsRep(g, rep) && Connected(g, rep) && TopoOrder(g, rep, order)
    requires a in g && b in g && rep[a] in order
    ensures rep[a] == rep[b] <==> SameComponent(g, a, b)
  {
    assert SameComponent(g, a, rep[a]) && SameComponent(g, b, rep[b]);
    if rep[a] == rep[b] {
      ReachTrans(g, a, rep[a], b);
      ReachTrans(g, b, rep[b], a);
    }
    if SameComponent(g, a, b) && rep[a] != rep[b] {
      ReachTrans(g, rep[a], a, b);
      ReachTrans(g, rep[a], b, rep[b]);
      ReachTrans(g, rep[b], b, a);
      ReachTrans(g, rep[b], a, rep[a]);
      TopoSeparates(g, rep, order, rep[a], rep[b]);
      assert false;
    }
  }

  // ---------------------------------------------------------------------------
  // Work still to be done

  /** An entry of the search stack, or the point of the stack at which a block's children have been explored. */
  datatype Mark = Explore(id: Block) | Finish(id: Block)

  /** The class `c` is listed, or work above position `i` will list it. */
  ghost predicate Covered(rep: Rep, pend: seq<Mark>, order: seq<Block>, i: int, c: Block) {
    c in order || exists j :: i < j < |pend| && 0 <= j && pend[j].id in rep && rep[pend[j].id] == c
  }

  ghost predicate ChildrenCovered(g: Succ, rep: Rep, pend: seq<Mark>, order: seq<Block>, i: int, t: Block) {
    forall c :: QEdge(g, rep, t, c) && c != t ==> Covered(rep, pend, order, i, c)
  }

  /** Where a `Finish` mark is reached, the class it names can be listed; and the root will be listed. */
  ghost predicate Pending(g: Succ, rep: Rep, pend: seq<Mark>, order: seq<Block>, root: Block) {
    && root in rep
    && (forall i :: 0 <= i < |pend| ==> pend[i].id in rep)
    && Covered(rep, pend, order, -1, rep[root])
    && (forall i :: 0 <= i < |pend| && pend[i].Finish? ==>
          || Covered(rep, pend, order, i, rep[pend[i].id])
          || ChildrenCovered(g, rep, pend, order, i, rep[pend[i].id]))
  }

  lemma CoveredBelow(rep: Rep, pend: seq<Mark>, pend': seq<Mark>, order: seq<Block>, order': seq<Block>, i: int,
                     c: Block)
    requires Covered(rep, pend, order, i, c)
    requires forall x :: x in order ==> x in order'
    requires forall j :: i < j < |pend| && 0 <= j && pend[j].id in rep ==>
               Covered(rep, pend', order', i, rep[pend[j].id])
    ensures Covered(rep, pend', order', i, c)
  {
  }

  /** Replacing the top of the work list by work that covers it keeps every promise made below. */
  lemma PendingReplace(g: Succ, rep: Rep, base: seq<Mark>, top: Mark, new_: seq<Mark>, order: seq<Block>,
                       order': seq<Block>, root: Block)
    requires Pending(g, rep, base + [top], order, root)
    requires forall x :: x in order ==> x in order'
    requires top.id in rep
    requires Covered(rep, base + new_, order', |base| - 1, rep[top.id])
    requires forall i :: |base| <= i < |base + new_| ==> (base + new_)[i].id in rep
    requires forall i :: |base| <= i < |base + new_| && (base + new_)[i].Finish? ==>
               ChildrenCovered(g, rep, base + new_, order', i, rep[(base + new_)[i].id])
    ensures Pending(g, rep, base + new_, order', root)
  {
    var pend, pend' := base + [top], base + new_;
    forall i, c | -1 <= i < |base| && Covered(rep, pend, order, i, c)
      ensures Covered(rep, pend', order', i, c)
    {
      forall j | i < j < |pend| && 0 <= j && pend[j].id in rep
        ensures Covered(rep, pend', order', i, rep[pend[j].id])
      {
        if j < |base| {
          assert pend'[j] == pend[j];
        }
      }
      CoveredBelow(rep, pend, pend', order, order', i, c);
    }
    forall i | 0 <= i < |pend'|
      ensures pend'[i].id in rep
    {
      if i < |base| {
        assert pend'[i] == pend[i];
      }
    }
    forall i | 0 <= i < |pend'| && pend'[i].Finish?
      ensures || Covered(rep, pend', order', i, rep[pend'[i].id])
              || ChildrenCovered(g, rep, pend', order', i, rep[pend'[i].id])
    {
      if i < |base| {
        assert pend'[i] == pend[i];
      }
    }
  }

  /** An entry whose class is already listed is dropped. */
  lemma PendingDrop(g: Succ, rep: Rep, base: seq<Mark>, top: Mark, order: seq<Block>, root: Block)
    requires Pending(g, rep, base + [top], order, root)
    requires top.id in rep && rep[top.id] in order
    ensures Pending(g, rep, base, order, root)
  {
    assert base + [] == base;
    PendingReplace(g, rep, base, top, [], order, order, root);
  }

  ghost function Listed(rep: Rep, order: seq<Block>, t: Block): seq<Block> {
    if t in order then order else order + [t]
  }

  lemma ListedTopo(g: Succ, rep: Rep, order: seq<Block>, t: Block)
    requires TopoOrder(g, rep, order) && t in Live(rep)
    requires t in order || forall c :: QEdge(g, rep, t, c) && c != t ==> c in order
    ensures TopoOrder(g, rep, Listed(rep, order, t))
  {
    var order' := Listed(rep, order, t);
    if t !in order {
      forall i, y | 0 <= i < |order'| && QEdge(g, rep, order'[i], y) && y != order'[i]
        ensures y in order'[..i]
      {
        assert order'[..|order|] == order;
        if i < |order| {
          assert order'[..i] == order[..i];
        }
      }
    }
  }

  /** A `Finish` mark on top: its class has no unlisted child left, so it can be listed. */
  lemma PendingFinish(g: Succ, rep: Rep, base: seq<Mark>, x: Block, order: seq<Block>, root: Block)
    requires IsRep(g, rep) && TopoOrder(g, rep, order)
    requires Pending(g, rep, base + [Finish(x)], order, root)
    ensures x in rep && TopoOrder(g, rep, Listed(rep, order, rep[x]))
    ensures Pending(g, rep, base, Listed(rep, order, rep[x]), root)
  {
    var pend := base + [Finish(x)];
    assert pend[|base|] == Finish(x);
    assert forall c :: Covered(rep, pend, order, |base|, c) ==> c in order;
    ListedTopo(g, rep, order, rep[x]);
    assert base + [] == base;
    PendingReplace(g, rep, base, Finish(x), [], order, Listed(rep, order, rep[x]), root);
  }

  /** A class is explored: its unlisted children go on top of a `Finish` mark. */
  lemma PendingExpand(g: Succ, rep: Rep, base: seq<Mark>, x: Block, t: Block, kids: seq<Mark>, order: seq<Block>,
                      root: Block)
    requires IsRep(g, rep)
    requires Pending(g, rep, base + [Explore(x)], order, root)
    requires x in rep && rep[x] == t
    requires forall k :: 0 <= k < |kids| ==> kids[k].Explore? && kids[k].id in rep
    requires forall c :: QEdge(g, rep, t, c) && c != t ==>
               c in order || exists k :: 0 <= k < |kids| && rep[kids[k].id] == c
    ensures Pending(g, rep, base + [Finish(t)] + kids, order, root)
  {
    var new_ := [Finish(t)] + kids;
    var pend := base + new_;
    assert pend == base + [Finish(t)] + kids;
    assert pend[|base|] == Finish(t);
    forall k | 0 <= k < |kids|
      ensures pend[|base| + 1 + k] == kids[k]
    {
    }
    forall c | QEdge(g, rep, t, c) && c != t
      ensures Covered(rep, pend, order, |base|, c)
    {
      if c !in order {
        var k :| 0 <= k < |kids| && rep[kids[k].id] == c;
        assert pend[|base| + 1 + k] == kids[k];
      }
    }
    PendingReplace(g, rep, base, Explore(x), new_, order, order, root);
  }

  lemma CoveredMerged(g: Succ, rep: Rep, pend: seq<Mark>, t: Block, m: Block, order: seq<Block>, i: int, c: Block)
    requires IsRep(g, rep) && m !in order && Covered(rep, pend, order, i, c)
    ensures Covered(Merged(rep, m, t), pend, order, i, if c == m then t else c)
  {
    if c !in order {
      var j :| i < j < |pend| && 0 <= j && pend[j].id in rep && rep[pend[j].id] == c;
      assert Merged(rep, m, t)[pend[j].id] == if c == m then t else c;
    }
  }

  /** Merging an unlisted class into the class on top of the work list keeps every promise. */
  lemma PendingMerge(g: Succ, rep: Rep, base: seq<Mark>, t: Block, m: Block, order: seq<Block>, root: Block)
    requires Closed(g) && IsRep(g, rep) && TopoOrder(g, rep, order)
    requires Pending(g, rep, base + [Explore(t)], order, root)
    requires t in Live(rep) && m in Live(rep) && t != m && SameComponent(g, t, m)
    ensures TopoOrder(g, Merged(rep, m, t), order)
    ensures Pending(g, Merged(rep, m, t), base + [Explore(t)], order, root)
  {
    TopoSeparates(g, rep, order, t, m);
    TopoSeparates(g, rep, order, m, t);
    MergedTopo(g, rep, t, m, order);
    var rep' := Merged(rep, m, t);
    var pend := base + [Explore(t)];
    assert pend[|base|].id == t && rep'[t] == t;
    assert rep'.Keys == rep.Keys;
    CoveredMerged(g, rep, pend, t, m, order, -1, rep[root]);
    forall i | 0 <= i < |pend| && pend[i].Finish?
      ensures || Covered(rep', pend, order, i, rep'[pend[i].id])
              || ChildrenCovered(g, rep', pend, order, i, rep'[pend[i].id])
    {
      var x := pend[i].id;
      if Covered(rep, pend, order, i, rep[x]) {
        CoveredMerged(g, rep, pend, t, m, order, i, rep[x]);
      } else if rep'[x] == t {
        assert i < |base| < |pend|;
      }
      if rep'[x] != t && !Covered(rep, pend, order, i, rep[x]) {
        forall c | QEdge(g, rep', rep'[x], c) && c != rep'[x]
          ensures Covered(rep', pend, order, i, c)
        {
          var x0, c0 := QEdgeMerged(g, rep, m, t, rep'[x], c);
          assert c0 != rep[x];
          assert Covered(rep, pend, order, i, c0);
          CoveredMerged(g, rep, pend, t, m, order, i, c0);
        }
      }
    }
  }

  lemma MergedTopo(g: Succ, rep: Rep, t: Block, m: Block, order: seq<Block>)
    requires IsRep(g, rep) && TopoOrder(g, rep, order)
    requires t in Live(rep) && m in Live(rep) && t != m && t !in order && m !in order
    ensures TopoOrder(g, Merged(rep, m, t), order)
  {
    var rep' := Merged(rep, m, t);
    forall i | 0 <= i < |order|
      ensures order[i] in Live(rep')
    {
      assert order[i] in Live(rep) && order[i] != m;
    }
    forall i, y | 0 <= i < |order| && QEdge(g, rep', order[i], y) && y != order[i]
      ensures y in order[..i]
    {
      var x0, y0 := QEdgeMerged(g, rep, m, t, order[i], y);
      assert order[i] in order;
      assert y0 != order[i];
      assert y0 in order[..i];
      assert y0 in order;
    }
  }

  /** With no work left the class of the root is listed. */
  lemma PendingDone(g: Succ, rep: Rep, order: seq<Block>, root: Block)
    requires Pending(g, rep, [], order, root)
    ensures root in rep && rep[root] in order
  {
  }

  /** With the root, every class that it reaches is listed. */
  lemma TopoReached(g: Succ, rep: Rep, order: seq<Block>, root: Block, x: Block)
    requires Closed(g) && IsRep(g, rep) && Connected(g, rep) && TopoOrder(g, rep, order)
    requires root in rep && rep[root] in order && Reach(g, root, x)
    ensures x in rep && rep[x] in order
  {
    var i :| 0 <= i < |order| && order[i] == rep[root];
    assert SameComponent(g, root, rep[root]);
    ReachTrans(g, rep[root], root, x);
    TopoReach(g, rep, order, i, x);
  }

  // ---------------------------------------------------------------------------
  // Termination

  /** An entry of the search stack: the bag to search, the path to it, and the bags visited on that path. */
  datatype Entry = Entry(bag: Block, path: seq<Block>, visited: set<Block>)

  ghost predicate EntryIn(g: Succ, e: Entry) {
    e.bag in g && e.visited <= g.Keys && forall i :: 0 <= i < |e.path| ==> e.path[i] in g
  }

  /** The live classes an entry may still add to its path. */
  ghost function Unvisited(rep: Rep, t: Block, visited: set<Block>): set<Block> {
    Live(rep) - visited - {t}
  }

  /** How much exploring an entry can cause while no classes merge. An entry that will merge weighs nothing. */
  ghost function Weight(g: Succ, rep: Rep, e: Entry): nat
    requires IsRep(g, rep) && EntryIn(g, e)
  {
    var t := rep[e.bag];
    var visited := Image(rep, e.visited);
    var u := |Unvisited(rep, t, visited)|;
    if t !in visited then 2 * u + 1
    else if |e.path| > 0 && rep[e.path[|e.path| - 1]] == t then 2 * u + 2
    else 0
  }

  ghost function Pow(k: nat, n: nat): (p: nat)
    ensures k > 0 ==> p > 0
  {
    if n == 0 then 1 else k * Pow(k, n - 1)
  }

  lemma {:induction false} PowMonotone(k: nat, m: nat, n: nat)
    requires k > 0 && m <= n
    ensures Pow(k, m) <= Pow(k, n)
    decreases n
  {
    if m < n {
      PowMonotone(k, m, n - 1);
      assert Pow(k, n - 1) <= k * Pow(k, n - 1);
    }
  }

  /** Fewer than `k` powers below the `n`th add up to less than the `n`th. */
  lemma PowSum(k: nat, n: nat, count: nat)
    requires k > 0 && n > 0 && count < k
    ensures count * Pow(k, n - 1) < Pow(k, n)
  {
    var q := Pow(k, n - 1);
    assert count * q <= (k - 1) * q;
    assert (k - 1) * q == k * q - q;
  }

  ghost function Energy(g: Succ, rep: Rep, es: seq<Entry>): nat
    requires IsRep(g, rep) && forall i :: 0 <= i < |es| ==> EntryIn(g, es[i])
  {
    if es == [] then 0
    else Energy(g, rep, es[..|es| - 1]) + Pow(|g| + 1, Weight(g, rep, es[|es| - 1]))
  }

  lemma EnergyPush(g: Succ, rep: Rep, es: seq<Entry>, e: Entry)
    requires IsRep(g, rep) && EntryIn(g, e) && forall i :: 0 <= i < |es| ==> EntryIn(g, es[i])
    ensures Energy(g, rep, es + [e]) == Energy(g, rep, es) + Pow(|g| + 1, Weight(g, rep, e))
  {
    assert (es + [e])[..|es|] == es;
  }

  /** A child pushed by an entry that merges nothing weighs less than the entry. */
  lemma WeightChild(g: Succ, rep: Rep, e: Entry, c: Entry)
    requires IsRep(g, rep) && EntryIn(g, e) && EntryIn(g, c)
    requires rep[e.bag] !in Image(rep, e.visited)
    requires c.bag in Live(rep) && c.bag != rep[e.bag]
    requires c.visited == Image(rep, e.visited) + {rep[e.bag]}
    requires c.path == e.path + [rep[e.bag]]
    ensures Weight(g, rep, c) < Weight(g, rep, e)
  {
    var t := rep[e.bag];
    var vis := Image(rep, e.visited);
    assert Image(rep, c.visited) == vis + {t} by {
      forall x
        ensures x in Image(rep, c.visited) <==> x in vis + {t}
      {
        if x in vis + {t} {
          assert rep[x] == x;
        }
      }
    }
    if c.bag !in vis + {t} {
      assert Unvisited(rep, c.bag, vis + {t}) == Unvisited(rep, t, vis) - {c.bag};
      assert c.bag in Unvisited(rep, t, vis);
    }
  }

  /** Searching a class again after a loop without merging lowers the weight of its entry. */
  lemma WeightRetry(g: Succ, rep: Rep, e: Entry, e': Entry)
    requires IsRep(g, rep) && EntryIn(g, e) && EntryIn(g, e')
    requires rep[e.bag] in Image(rep, e.visited)
    requires |e.path| > 0 && rep[e.path[|e.path| - 1]] == rep[e.bag]
    requires e'.bag == rep[e.bag] && e'.visited == Image(rep, e.visited) - {rep[e.bag]}
    ensures Weight(g, rep, e') < Weight(g, rep, e)
  {
    var t := rep[e.bag];
    var vis := Image(rep, e.visited);
    assert Image(rep, vis - {t}) == vis - {t} by {
      forall x
        ensures x in Image(rep, vis - {t}) <==> x in vis - {t}
      {
        if x in vis - {t} {
          assert rep[x] == x;
        }
      }
    }
    assert Unvisited(rep, t, vis - {t}) == Unvisited(rep, t, vis);
  }

  // ---------------------------------------------------------------------------
  // What every stack entry keeps

  /** Each visited bag shares its class with a bag on the path. */
  ghost predicate VisitedOnPath(rep: Rep, path: seq<Block>, visited: set<Block>) {
    forall v :: v in visited ==> v in rep && OnPath(rep, path, rep[v])
  }

  ghost predicate OnPath(rep: Rep, path: seq<Block>, t: Block) {
    exists i :: 0 <= i < |path| && path[i] in rep && rep[path[i]] == t
  }

  /** Each block of the path reaches all later ones, and `b`. */
  ghost predicate PathTo(g: Succ, path: seq<Block>, b: Block) {
    && (forall i :: 0 <= i < |path| ==> path[i] in g && Reach(g, path[i], b))
    && (forall i, j :: 0 <= i < j < |path| ==> Reach(g, path[i], path[j]))
  }

  ghost predicate EntryOk(g: Succ, rep: Rep, e: Entry) {
    EntryIn(g, e) && VisitedOnPath(rep, e.path, e.visited) && PathTo(g, e.path, e.bag)
  }

  /** `rep'` only joins classes of `rep`. */
  ghost predicate Coarser(rep: Rep, rep': Rep) {
    rep.Keys == rep'.Keys && forall x, y :: x in rep && y in rep && rep[x] == rep[y] ==> rep'[x] == rep'[y]
  }

  lemma EntryOkCoarser(g: Succ, rep: Rep, rep': Rep, e: Entry)
    requires Coarser(rep, rep') && EntryOk(g, rep, e)
    ensures EntryOk(g, rep', e)
  {
    forall v | v in e.visited
      ensures OnPath(rep', e.path, rep'[v])
    {
      var i :| 0 <= i < |e.path| && e.path[i] in rep && rep[e.path[i]] == rep[v];
      assert rep'[e.path[i]] == rep'[v];
    }
  }

  /** The entry pushed for a child of `t`. */
  lemma EntryOkChild(g: Succ, rep: Rep, e: Entry, y: Block)
    requires Closed(g) && IsRep(g, rep) && Connected(g, rep) && EntryOk(g, rep, e)
    requires QEdge(g, rep, rep[e.bag], y)
    ensures EntryOk(g, rep, Entry(y, e.path + [rep[e.bag]], Image(rep, e.visited) + {rep[e.bag]}))
  {
    var t := rep[e.bag];
    var path := e.path + [t];
    QEdgeReach(g, rep, t, y);
    assert SameComponent(g, e.bag, t);
    forall i | 0 <= i < |e.path|
      ensures path[i] == e.path[i] && Reach(g, e.path[i], t) && Reach(g, e.path[i], y)
    {
      ReachTrans(g, e.path[i], e.bag, t);
      ReachTrans(g, e.path[i], t, y);
    }
    forall v | v in Image(rep, e.visited) + {t}
      ensures v in rep && OnPath(rep, path, rep[v])
    {
      if v in Image(rep, e.visited) {
        var u :| u in e.visited && rep[u] == v;
        var i :| 0 <= i < |e.path| && e.path[i] in rep && rep[e.path[i]] == rep[u];
        assert rep[path[i]] == rep[v];
      } else {
        assert path[|e.path|] == t;
      }
    }
    assert y in g;
  }

  /** The end of a path that runs through the class `t` to `t` lies on a loop through `t`. */
  lemma PathLoop(g: Succ, rep: Rep, path: seq<Block>, t: Block)
    requires IsRep(g, rep) && Connected(g, rep) && PathTo(g, path, t) && t in Live(rep)
    requires OnPath(rep, path, t)
    ensures |path| > 0 && path[|path| - 1] in rep && SameComponent(g, rep[path[|path| - 1]], t)
  {
    var last := path[|path| - 1];
    var i :| 0 <= i < |path| && path[i] in rep && rep[path[i]] == t;
    assert SameComponent(g, path[i], t) && SameComponent(g, last, rep[last]);
    if i == |path| - 1 {
      ReachSelf(g, t);
    } else {
      assert Reach(g, path[i], last) && Reach(g, last, t);
      ReachTrans(g, rep[last], last, t);
      ReachTrans(g, t, path[i], last);
      ReachTrans(g, t, last, rep[last]);
    }
  }

  /** Every bag of `visited` other than `t` is the live bag of some block on the path. */
  ghost predicate LiveOnPath(rep: Rep, path: seq<Block>, visited: set<Block>, t: Block) {
    forall v :: v in visited && v != t ==> v in Live(rep) && OnPath(rep, path, v)
  }

  /** Taking the end of the path, of class `m`, and merging `m` into `t` keeps the other visited bags on the path. */
  lemma LiveOnPathPop(rep: Rep, rep': Rep, path: seq<Block>, visited: set<Block>, t: Block)
    requires |path| > 0 && path[|path| - 1] in rep && LiveOnPath(rep, path, visited, t)
    requires var m := rep[path[|path| - 1]]; rep' == (if m == t then rep else Merged(rep, m, t))
    ensures LiveOnPath(rep', path[..|path| - 1], visited - {rep[path[|path| - 1]]}, t)
  {
    var m := rep[path[|path| - 1]];
    forall v | v in visited - {m} && v != t
      ensures v in Live(rep') && OnPath(rep', path[..|path| - 1], v)
    {
      var i :| 0 <= i < |path| && path[i] in rep && rep[path[i]] == v;
      assert path[..|path| - 1][i] == path[i] && rep'[path[i]] == v;
      assert v in rep && rep[v] == v;
    }
  }

  lemma PathToPop(g: Succ, path: seq<Block>, t: Block)
    requires |path| > 0 && PathTo(g, path, t)
    ensures PathTo(g, path[..|path| - 1], t)
  {
  }

  lemma OnPathPop(rep: Rep, path: seq<Block>, t: Block, m: Block)
    requires |path| > 0 && path[|path| - 1] in rep && m == rep[path[|path| - 1]] && m != t && OnPath(rep, path, t)
    ensures OnPath(Merged(rep, m, t), path[..|path| - 1], t)
  {
    var i :| 0 <= i < |path| && path[i] in rep && rep[path[i]] == t;
    assert path[..|path| - 1][i] == path[i] && Merged(rep, m, t)[path[i]] == t;
  }

  lemma CoarserMerged(rep0: Rep, rep: Rep, m: Block, t: Block)
    requires Coarser(rep0, rep)
    ensures Coarser(rep0, Merged(rep, m, t))
  {
  }

  // ---------------------------------------------------------------------------
  // The work list and the stack

  /** The entries of a work list that are still to be explored. */
  ghost function Unexplored(pend: seq<Mark>): seq<Block> {
    if pend == [] then []
    else
      var rest := Unexplored(pend[..|pend| - 1]);
      if pend[|pend| - 1].Explore? then rest + [pend[|pend| - 1].id] else rest
  }

  lemma UnexploredPush(pend: seq<Mark>, top: Mark)
    ensures Unexplored(pend + [top]) == Unexplored(pend) + if top.Explore? then [top.id] else []
  {
    assert (pend + [top])[..|pend|] == pend;
  }

  /** Work was taken from the top of the list, and all its classes are listed now. */
  ghost predicate Relisted(rep: Rep, pend: seq<Mark>, order: seq<Block>, pend': seq<Mark>, order': seq<Block>) {
    && pend' <= pend
    && forall i, c {:trigger Covered(rep, pend', order', i, c)} :: i < |pend'| && Covered(rep, pend, order, i, c) ==>
         Covered(rep, pend', order', i, c)
  }

  lemma RelistedPop(rep: Rep, base: seq<Mark>, top: Mark, order: seq<Block>, order': seq<Block>)
    requires top.id in rep && rep[top.id] in order' && forall x :: x in order ==> x in order'
    ensures Relisted(rep, base + [top], order, base, order')
  {
    forall i, c {:trigger Covered(rep, base, order', i, c)} | i < |base| && Covered(rep, base + [top], order, i, c)
      ensures Covered(rep, base, order', i, c)
    {
      if c !in order' {
        var j :| i < j < |base + [top]| && 0 <= j && (base + [top])[j].id in rep && rep[(base + [top])[j].id] == c;
        assert (base + [top])[j] == base[j];
      }
    }
  }

  /** Finishes every class whose children have all been explored. */
  lemma {:induction false} FinishTop(g: Succ, rep: Rep, pend: seq<Mark>, order: seq<Block>, root: Block)
    returns (pend': seq<Mark>, order': seq<Block>)
    requires IsRep(g, rep) && TopoOrder(g, rep, order) && Pending(g, rep, pend, order, root)
    ensures Relisted(rep, pend, order, pend', order')
    ensures TopoOrder(g, rep, order') && Pending(g, rep, pend', order', root)
    ensures Unexplored(pend') == Unexplored(pend)
    ensures forall x :: x in order ==> x in order'
    ensures pend' == [] || pend'[|pend'| - 1].Explore?
    decreases |pend|
  {
    if pend == [] || pend[|pend| - 1].Explore? {
      pend', order' := pend, order;
    } else {
      var base, x := pend[..|pend| - 1], pend[|pend| - 1].id;
      assert pend == base + [Finish(x)];
      PendingFinish(g, rep, base, x, order, root);
      RelistedPop(rep, base, Finish(x), order, Listed(rep, order, rep[x]));
      pend', order' := FinishTop(g, rep, base, Listed(rep, order, rep[x]), root);
    }
  }

  // ---------------------------------------------------------------------------
  // The state of the search between two turns of its loop

  ghost function BagsOf(stack: seq<Entry>): seq<Block> {
    seq(|stack|, i requires 0 <= i < |stack| => stack[i].bag)
  }

  /** An entry whose bag shares the class of the end of its path was pushed for a bag that has since been merged. */
  ghost predicate Fresh(rep: Rep, e: Entry) {
    |e.path| > 0 && e.path[|e.path| - 1] == e.bag && e.bag in rep ==> rep[e.bag] !in Image(rep, e.visited)
  }

  ghost predicate EntriesOk(g: Succ, rep: Rep, stack: seq<Entry>) {
    && (forall i :: 0 <= i < |stack| ==> EntryOk(g, rep, stack[i]))
    && (forall i :: 0 <= i < |stack| - 1 && |stack[i].path| > 0 ==> stack[i].path[|stack[i].path| - 1] != stack[i].bag)
    && (|stack| > 0 ==> Fresh(rep, stack[|stack| - 1]))
  }

  ghost predicate AllListed(finished: set<Block>, order: seq<Block>) {
    forall x :: x in finished ==> x in order
  }

  ghost predicate Searching(g: Succ, rep: Rep, stack: seq<Entry>, finished: set<Block>, pend: seq<Mark>,
                            order: seq<Block>, root: Block)
  {
    && TopoOrder(g, rep, order) && Pending(g, rep, pend, order, root)
    && Unexplored(pend) == BagsOf(stack)
    && EntriesOk(g, rep, stack)
    && AllListed(finished, order)
  }

  /** The entry on top of the stack is the next one to be explored. */
  lemma SearchTop(g: Succ, rep: Rep, stack: seq<Entry>, finished: set<Block>, pend: seq<Mark>, order: seq<Block>,
                  root: Block)
    returns (base: seq<Mark>, order': seq<Block>)
    requires IsRep(g, rep) && Searching(g, rep, stack, finished, pend, order, root) && |stack| > 0
    ensures var e := stack[|stack| - 1];
            && TopoOrder(g, rep, order') && Pending(g, rep, base + [Explore(e.bag)], order', root)
            && Unexplored(base) == BagsOf(stack[..|stack| - 1])
            && AllListed(finished, order') && Relisted(rep, pend, order, base + [Explore(e.bag)], order')
  {
    var pend';
    pend', order' := FinishTop(g, rep, pend, order, root);
    assert pend' != [];
    base := pend'[..|pend'| - 1];
    var top := pend'[|pend'| - 1];
    assert pend' == base + [top];
    UnexploredPush(base, top);
    assert Unexplored(base) + [top.id] == BagsOf(stack);
    assert BagsOf(stack) == BagsOf(stack[..|stack| - 1]) + [stack[|stack| - 1].bag];
    var u := Unexplored(base);
    assert top.id == (u + [top.id])[|u|] && u == (u + [top.id])[..|u|];
  }

  lemma EntriesPop(g: Succ, rep: Rep, stack: seq<Entry>)
    requires EntriesOk(g, rep, stack) && |stack| > 0
    ensures EntriesOk(g, rep, stack[..|stack| - 1])
  {
    var rest := stack[..|stack| - 1];
    forall i | 0 <= i < |rest|
      ensures EntryOk(g, rep, rest[i]) && (|rest[i].path| > 0 ==> rest[i].path[|rest[i].path| - 1] != rest[i].bag)
    {
      assert rest[i] == stack[i];
    }
  }

  /** The class on top is finished, and its entry is dropped. */
  lemma SearchDrop(g: Succ, rep: Rep, stack: seq<Entry>, finished: set<Block>, base: seq<Mark>, order: seq<Block>,
                   root: Block)
    requires IsRep(g, rep) && EntriesOk(g, rep, stack) && |stack| > 0
    requires TopoOrder(g, rep, order) && Pending(g, rep, base + [Explore(stack[|stack| - 1].bag)], order, root)
    requires Unexplored(base) == BagsOf(stack[..|stack| - 1])
    requires AllListed(finished, order)
    requires stack[|stack| - 1].bag in rep && rep[stack[|stack| - 1].bag] in order
    ensures Searching(g, rep, stack[..|stack| - 1], finished, base, order, root)
  {
    EntriesPop(g, rep, stack);
    PendingDrop(g, rep, base, Explore(stack[|stack| - 1].bag), order, root);
  }

  /** The class on top has no child left to search: it is finished, and its entry is dropped. */
  lemma SearchFinish(g: Succ, rep: Rep, stack: seq<Entry>, finished: set<Block>, base: seq<Mark>, order: seq<Block>,
                     root: Block)
    returns (order': seq<Block>)
    requires IsRep(g, rep) && EntriesOk(g, rep, stack) && |stack| > 0
    requires TopoOrder(g, rep, order) && Pending(g, rep, base + [Explore(stack[|stack| - 1].bag)], order, root)
    requires Unexplored(base) == BagsOf(stack[..|stack| - 1])
    requires AllListed(finished, order)
    requires stack[|stack| - 1].bag in rep
    requires var t := rep[stack[|stack| - 1].bag]; forall c :: QEdge(g, rep, t, c) && c != t ==> c in finished
    ensures Searching(g, rep, stack[..|stack| - 1], finished + {rep[stack[|stack| - 1].bag]}, base, order', root)
    ensures (forall y :: y in order ==> y in order') && rep[stack[|stack| - 1].bag] in order'
  {
    var x := stack[|stack| - 1].bag;
    var t := rep[x];
    order' := Listed(rep, order, t);
    ListedTopo(g, rep, order, t);
    assert base + [] == base;
    PendingReplace(g, rep, base, Explore(x), [], order, order', root);
    EntriesPop(g, rep, stack);
  }

  ghost function Marks(es: seq<Entry>): seq<Mark> {
    seq(|es|, i requires 0 <= i < |es| => Explore(es[i].bag))
  }

  lemma {:induction false} UnexploredMarks(base: seq<Mark>, es: seq<Entry>)
    ensures Unexplored(base + Marks(es)) == Unexplored(base) + BagsOf(es)
  {
    if es == [] {
      assert base + Marks(es) == base;
    } else {
      var rest := es[..|es| - 1];
      UnexploredMarks(base, rest);
      var top := Explore(es[|es| - 1].bag);
      assert Marks(es) == Marks(rest) + [top];
      assert base + Marks(es) == (base + Marks(rest)) + [top];
      UnexploredPush(base + Marks(rest), top);
      assert BagsOf(es) == BagsOf(rest) + [es[|es| - 1].bag];
    }
  }

  /** The entries pushed when the class `t` of `e` is expanded: one for each unfinished child. */
  ghost predicate ChildEntries(g: Succ, rep: Rep, e: Entry, finished: set<Block>, kids: seq<Entry>) {
    && e.bag in rep
    && (forall k :: 0 <= k < |kids| ==>
          && kids[k].bag in Live(rep) && kids[k].bag != rep[e.bag] && QEdge(g, rep, rep[e.bag], kids[k].bag)
          && kids[k].path == e.path + [rep[e.bag]]
          && kids[k].visited == Image(rep, e.visited) + {rep[e.bag]})
    && (forall c :: QEdge(g, rep, rep[e.bag], c) && c != rep[e.bag] ==> c in finished || Pushed(kids, c))
  }

  ghost predicate Pushed(kids: seq<Entry>, c: Block) {
    exists k :: 0 <= k < |kids| && kids[k].bag == c
  }

  lemma PushedAdd(kids: seq<Entry>, e: Entry)
    ensures Pushed(kids + [e], e.bag)
    ensures forall c :: Pushed(kids, c) ==> Pushed(kids + [e], c)
  {
    assert (kids + [e])[|kids|] == e;
    forall c | Pushed(kids, c)
      ensures Pushed(kids + [e], c)
    {
      var k :| 0 <= k < |kids| && kids[k].bag == c;
      assert (kids + [e])[k].bag == c;
    }
  }

  /** The class on top is expanded. */
  lemma SearchExpand(g: Succ, rep: Rep, stack: seq<Entry>, finished: set<Block>, base: seq<Mark>, order: seq<Block>,
                     root: Block, kids: seq<Entry>)
    returns (pend: seq<Mark>)
    requires Closed(g) && IsRep(g, rep) && Connected(g, rep) && EntriesOk(g, rep, stack) && |stack| > 0
    requires TopoOrder(g, rep, order) && Pending(g, rep, base + [Explore(stack[|stack| - 1].bag)], order, root)
    requires Unexplored(base) == BagsOf(stack[..|stack| - 1])
    requires AllListed(finished, order)
    requires ChildEntries(g, rep, stack[|stack| - 1], finished, kids) && |kids| > 0
    ensures Searching(g, rep, stack[..|stack| - 1] + kids, finished, pend, order, root)
    ensures pend == base + [Finish(rep[stack[|stack| - 1].bag])] + Marks(kids)
  {
    hide Connected, Closed, TopoOrder, Pending, QEdge, EntriesOk;
    var e := stack[|stack| - 1];
    var t := rep[e.bag];
    var rest := stack[..|stack| - 1];
    forall c | QEdge(g, rep, t, c) && c != t
      ensures c in order || exists k :: 0 <= k < |Marks(kids)| && rep[Marks(kids)[k].id] == c
    {
      if c !in order {
        var k :| 0 <= k < |kids| && kids[k].bag == c;
        assert Marks(kids)[k].id == c;
      }
    }
    PendingExpand(g, rep, base, e.bag, t, Marks(kids), order, root);
    pend := base + [Finish(t)] + Marks(kids);
    UnexploredMarks(base + [Finish(t)], kids);
    UnexploredPush(base, Finish(t));
    assert BagsOf(rest + kids) == BagsOf(rest) + BagsOf(kids);
    ExpandEntries(g, rep, stack, finished, kids);
  }

  lemma ExpandEntries(g: Succ, rep: Rep, stack: seq<Entry>, finished: set<Block>, kids: seq<Entry>)
    requires Closed(g) && IsRep(g, rep) && Connected(g, rep) && EntriesOk(g, rep, stack) && |stack| > 0
    requires ChildEntries(g, rep, stack[|stack| - 1], finished, kids) && |kids| > 0
    ensures EntriesOk(g, rep, stack[..|stack| - 1] + kids)
  {
    var e := stack[|stack| - 1];
    var rest := stack[..|stack| - 1];
    var all := rest + kids;
    forall i | 0 <= i < |all|
      ensures EntryOk(g, rep, all[i]) && (|all[i].path| > 0 ==> all[i].path[|all[i].path| - 1] != all[i].bag)
    {
      if i < |rest| {
        assert all[i] == stack[i];
      } else {
        var kid := kids[i - |rest|];
        assert all[i] == kid;
        EntryOkChild(g, rep, e, kid.bag);
        assert kid == Entry(kid.bag, e.path + [rep[e.bag]], Image(rep, e.visited) + {rep[e.bag]});
      }
    }
  }

  lemma Successor(n: nat, p: nat)
    ensures (n + 1) * p == n * p + p
  {
  }

  lemma {:induction false} EnergyKids(g: Succ, rep: Rep, rest: seq<Entry>, kids: seq<Entry>, w: nat)
    requires IsRep(g, rep) && w > 0
    requires forall i :: 0 <= i < |rest| ==> EntryIn(g, rest[i])
    requires forall i :: 0 <= i < |kids| ==> EntryIn(g, kids[i]) && Weight(g, rep, kids[i]) < w
    ensures Energy(g, rep, rest + kids) <= Energy(g, rep, rest) + |kids| * Pow(|g| + 1, w - 1)
  {
    hide Energy, Weight, Pow;
    if kids == [] {
      assert rest + kids == rest;
    } else {
      var n := |kids| - 1;
      EnergyKids(g, rep, rest, kids[..n], w);
      assert rest + kids == (rest + kids[..n]) + [kids[n]];
      EnergyPush(g, rep, rest + kids[..n], kids[n]);
      PowMonotone(|g| + 1, Weight(g, rep, kids[n]), w - 1);
      Successor(n, Pow(|g| + 1, w - 1));
    }
  }

  lemma WeightUnlooped(g: Succ, rep: Rep, e: Entry)
    requires IsRep(g, rep) && EntryIn(g, e) && rep[e.bag] !in Image(rep, e.visited)
    ensures Weight(g, rep, e) > 0
  {
  }

  lemma ChildEntryAt(g: Succ, rep: Rep, e: Entry, finished: set<Block>, kids: seq<Entry>, k: nat)
    requires ChildEntries(g, rep, e, finished, kids) && k < |kids|
    ensures kids[k].bag in Live(rep) && kids[k].bag != rep[e.bag]
    ensures kids[k].path == e.path + [rep[e.bag]] && kids[k].visited == Image(rep, e.visited) + {rep[e.bag]}
  {
  }

  /** Expanding a class whose entry found no loop lowers the energy of the stack. */
  lemma ExpandEnergy(g: Succ, rep: Rep, rest: seq<Entry>, e: Entry, finished: set<Block>, kids: seq<Entry>)
    requires IsRep(g, rep) && EntryIn(g, e) && forall i :: 0 <= i < |rest| ==> EntryIn(g, rest[i])
    requires rep[e.bag] !in Image(rep, e.visited)
    requires ChildEntries(g, rep, e, finished, kids) && |kids| <= |g|
    requires forall i :: 0 <= i < |kids| ==> EntryIn(g, kids[i])
    ensures Energy(g, rep, rest + kids) < Energy(g, rep, rest + [e])
  {
    hide Energy, Weight, Pow, QEdge;
    WeightUnlooped(g, rep, e);
    var w := Weight(g, rep, e);
    forall i | 0 <= i < |kids|
      ensures Weight(g, rep, kids[i]) < w
    {
      ChildEntryAt(g, rep, e, finished, kids, i);
      WeightChild(g, rep, e, kids[i]);
    }
    EnergyKids(g, rep, rest, kids, w);
    PowSum(|g| + 1, w, |kids|);
    EnergyPush(g, rep, rest, e);
  }

  ghost predicate EntriesIn(g: Succ, stack: seq<Entry>) {
    forall i :: 0 <= i < |stack| ==> EntryIn(g, stack[i])
  }

  lemma RetryEnergy(g: Succ, rep: Rep, rest: seq<Entry>, e: Entry, e': Entry)
    requires IsRep(g, rep) && EntryIn(g, e) && EntryIn(g, e') && forall i :: 0 <= i < |rest| ==> EntryIn(g, rest[i])
    requires Weight(g, rep, e') < Weight(g, rep, e)
    ensures Energy(g, rep, rest + [e']) < Energy(g, rep, rest + [e])
  {
    hide Energy, Weight, Pow;
    EnergyPush(g, rep, rest, e);
    EnergyPush(g, rep, rest, e');
    var k, w := |g| + 1, Weight(g, rep, e);
    PowMonotone(k, Weight(g, rep, e'), w - 1);
    PowSum(k, w, 1);
  }
}
