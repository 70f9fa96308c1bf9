/** What the two passes over the loop-free graph of bags collect, stated on the blocks of the original graph. */
module Dataflow {
  import opened Registers
  import opened Graphs
  import opened LoopSearch
  import opened Families
  import opened LoopState

  // ---------------------------------------------------------------------------
  // Reachability between bags

  /** A walk that leaves the class it started in enters each later class through an edge from another class. */
  lemma {:induction false} EnterClass(g: Succ, rep: Rep, v: Block, x: Block) returns (p: Block)
    requires Closed(g) && IsRep(g, rep) && Connected(g, rep)
    requires v in g && x in rep && Reach(g, v, x) && rep[v] != rep[x]
    ensures p != rep[x] && p in Live(rep) && QEdge(g, rep, p, rep[x]) && Reach(g, v, p)
  {
    hide Connected;
    var walk :| WalkFromTo(g, walk, v, x);
    var i := |walk| - 1;
    while rep[walk[i - 1]] == rep[x]
      invariant 0 < i < |walk| && walk[i] in g && rep[walk[i]] == rep[x]
      invariant walk[i - 1] in g && walk[i] in g[walk[i - 1]]
      decreases i
    {
      if i == 1 {
        assert false;
      }
      i := i - 1;
    }
    p := rep[walk[i - 1]];
    QEdgeIntro(g, rep, walk[i - 1], walk[i]);
    assert WalkFromTo(g, walk[..i], v, walk[i - 1]);
    ConnectedAt(g, rep, walk[i - 1]);
    ReachTrans(g, v, walk[i - 1], p);
  }

  lemma ConnectedAt(g: Succ, rep: Rep, x: Block)
    requires Connected(g, rep) && x in rep
    ensures SameComponent(g, x, rep[x])
  {
  }

  /** A walk out of a class leaves it through an edge to another class. */
  lemma {:induction false} LeaveClass(g: Succ, rep: Rep, x: Block, v: Block) returns (c: Block)
    requires Closed(g) && IsRep(g, rep) && Connected(g, rep)
    requires v in g && x in rep && Reach(g, x, v) && rep[v] != rep[x]
    ensures c != rep[x] && c in Live(rep) && QEdge(g, rep, rep[x], c) && Reach(g, c, v)
  {
    hide Connected;
    var walk :| WalkFromTo(g, walk, x, v);
    var i := 0;
    while rep[walk[i + 1]] == rep[x]
      invariant 0 <= i < |walk| - 1 && walk[i] in g && rep[walk[i]] == rep[x]
      invariant walk[i + 1] in g && walk[i + 1] in g[walk[i]]
      decreases |walk| - i
    {
      if i == |walk| - 2 {
        assert false;
      }
      i := i + 1;
    }
    c := rep[walk[i + 1]];
    QEdgeIntro(g, rep, walk[i], walk[i + 1]);
    assert WalkFromTo(g, walk[i + 1..], walk[i + 1], v);
    ConnectedAt(g, rep, walk[i + 1]);
    ReachTrans(g, c, walk[i + 1], v);
  }

  // ---------------------------------------------------------------------------
  // The forward pass

  /** The blocks that lie strictly before the bag `x`: they reach it and are not on a loop with it. */
  ghost function Before(g: Succ, rep: Rep, x: Block): set<Block> {
    set v | v in g && v in rep && Reach(g, v, x) && rep[v] != x
  }

  /** The blocks from which some bag of `s` can be reached. */
  ghost function Reaching(g: Succ, s: set<Block>): set<Block> {
    set v | v in g && exists p :: p in s && Reach(g, v, p)
  }

  lemma ReachingAdd(g: Succ, rep: Rep, s: set<Block>, p: Block)
    requires Closed(g) && IsRep(g, rep) && Connected(g, rep) && p in Live(rep)
    ensures Reaching(g, s + {p}) == Reaching(g, s) + (Before(g, rep, p) + Class(rep, p))
  {
    forall v | v in Class(rep, p)
      ensures v in g && Reach(g, v, p)
    {
      ConnectedAt(g, rep, v);
    }
    forall v
      ensures v in Reaching(g, s + {p}) <==> v in Reaching(g, s) + (Before(g, rep, p) + Class(rep, p))
    {
      if v in Reaching(g, s) {
        var q :| q in s && Reach(g, v, q);
        assert q in s + {p};
      }
      if v in g && Reach(g, v, p) {
        assert p in s + {p};
        assert v in rep && (rep[v] == p || v in Before(g, rep, p));
      }
    }
  }

  /** The blocks before a bag are those that reach one of its parents. */
  lemma BeforeParents(g: Succ, rep: Rep, children: Succ, parents: Succ, order: seq<Block>, x: Block)
    requires Closed(g) && LoopFree(g, rep, children, parents, order) && x in Live(rep) && x in parents
    ensures Before(g, rep, x) == Reaching(g, parents[x])
  {
    hide LoopFree, IsRep, Connected, Settled, TopoOrder, Reach;
    LoopFreeParts(g, rep, children, parents, order);
    forall v | v in Before(g, rep, x)
      ensures v in Reaching(g, parents[x])
    {
      var p := EnterClass(g, rep, v, x);
      SettledParent(g, rep, children, parents, p, x);
    }
    forall v | v in Reaching(g, parents[x])
      ensures v in Before(g, rep, x)
    {
      var p :| p in parents[x] && Reach(g, v, p);
      SettledParent(g, rep, children, parents, p, x);
      QEdgeReach(g, rep, p, x);
      ReachTrans(g, v, p, x);
      QEdgeLive(g, rep, p, x);
      if rep[v] == x {
        ConnectedAt(g, rep, v);
        ReachTrans(g, x, v, p);
        LoopFreeSame(g, rep, children, parents, order, p, x);
        assert false;
      }
    }
  }

  lemma LoopFreeParts(g: Succ, rep: Rep, children: Succ, parents: Succ, order: seq<Block>)
    requires LoopFree(g, rep, children, parents, order)
    ensures IsRep(g, rep) && Connected(g, rep) && Settled(g, rep, children, parents) && TopoOrder(g, rep, order)
    ensures rep.Keys == g.Keys
  {
  }

  lemma LoopFreeSame(g: Succ, rep: Rep, children: Succ, parents: Succ, order: seq<Block>, a: Block, b: Block)
    requires LoopFree(g, rep, children, parents, order) && a in g && b in g
    ensures rep[a] == rep[b] <==> SameComponent(g, a, b)
  {
  }

  lemma SettledParent(g: Succ, rep: Rep, children: Succ, parents: Succ, p: Block, x: Block)
    requires Settled(g, rep, children, parents) && x in Live(rep) && x in parents
    ensures p in parents[x] <==> p != x && QEdge(g, rep, p, x)
  {
    assert Has(parents, x, p) <==> p != x && QEdge(g, rep, p, x);
  }

  lemma SettledChild(g: Succ, rep: Rep, children: Succ, parents: Succ, x: Block, c: Block)
    requires Settled(g, rep, children, parents) && x in Live(rep) && x in children
    ensures c in children[x] <==> c != x && QEdge(g, rep, x, c)
  {
    assert Has(children, x, c) <==> c != x && QEdge(g, rep, x, c);
  }

  lemma QEdgeLive(g: Succ, rep: Rep, x: Block, y: Block)
    requires IsRep(g, rep) && QEdge(g, rep, x, y)
    ensures x in Live(rep) && y in Live(rep) && x in g && y in g && x in rep && y in rep && rep[x] == x && rep[y] == y
  {
  }

  /** The graph of the live bags. */
  ghost function BagSucc(rep: Rep, children: Succ): Succ {
    map x | x in Live(rep) && x in children :: children[x]
  }

  lemma BagEdge(g: Succ, rep: Rep, children: Succ, parents: Succ, x: Block, y: Block)
    requires Settled(g, rep, children, parents) && x in Live(rep)
    ensures x in BagSucc(rep, children) && (y in BagSucc(rep, children)[x] <==> x != y && QEdge(g, rep, x, y))
  {
    assert x in children;
    SettledChild(g, rep, children, parents, x, y);
  }

  lemma {:induction false} BagReachOfWalk(g: Succ, rep: Rep, children: Succ, parents: Succ, p: seq<Block>)
    requires IsRep(g, rep) && Settled(g, rep, children, parents) && Walk(g, p)
    ensures p[0] in rep && p[|p| - 1] in rep && Reach(BagSucc(rep, children), rep[p[0]], rep[p[|p| - 1]])
  {
    hide Settled;
    var s := BagSucc(rep, children);
    var b := p[|p| - 1];
    var y := rep[b];
    assert y in Live(rep);
    BagEdge(g, rep, children, parents, y, y);
    if |p| == 1 {
      ReachSelf(s, y);
    } else {
      var rest := p[..|p| - 1];
      BagReachOfWalk(g, rep, children, parents, rest);
      var c := rest[|rest| - 1];
      var x := rep[c];
      assert b in g[c] && x in Live(rep);
      QEdgeIntro(g, rep, c, b);
      BagEdge(g, rep, children, parents, x, y);
      if x != y {
        ReachEdge(s, x, y);
        ReachTrans(s, rep[p[0]], x, y);
      }
    }
  }

  lemma {:induction false} WalkOfBagReach(g: Succ, rep: Rep, children: Succ, parents: Succ, p: seq<Block>)
    requires Closed(g) && IsRep(g, rep) && Connected(g, rep) && Settled(g, rep, children, parents)
    requires Walk(BagSucc(rep, children), p)
    ensures Reach(g, p[0], p[|p| - 1])
  {
    hide Settled, Connected, Reach;
    var b := p[|p| - 1];
    if |p| == 1 {
      ReachSelf(g, b);
    } else {
      var rest := p[..|p| - 1];
      WalkOfBagReach(g, rep, children, parents, rest);
      var c := rest[|rest| - 1];
      BagEdge(g, rep, children, parents, c, b);
      QEdgeReach(g, rep, c, b);
      ReachTrans(g, p[0], c, b);
    }
  }

  /** Between live bags, reachability along their children is reachability of the blocks they were made for; two bags
      that reach each other are the same. */
  lemma BagsReachAsBlocks(g: Succ, rep: Rep, children: Succ, parents: Succ, order: seq<Block>, x: Block, y: Block)
    requires Closed(g) && LoopFree(g, rep, children, parents, order) && x in Live(rep) && y in Live(rep)
    ensures Reach(BagSucc(rep, children), x, y) <==> Reach(g, x, y)
    ensures Reach(BagSucc(rep, children), x, y) && Reach(BagSucc(rep, children), y, x) ==> x == y
  {
    hide Settled, Connected, TopoOrder, Closed;
    if Reach(g, x, y) {
      var p :| WalkFromTo(g, p, x, y);
      BagReachOfWalk(g, rep, children, parents, p);
    }
    if Reach(BagSucc(rep, children), x, y) {
      var p :| WalkFromTo(BagSucc(rep, children), p, x, y);
      WalkOfBagReach(g, rep, children, parents, p);
      if Reach(BagSucc(rep, children), y, x) {
        var q :| WalkFromTo(BagSucc(rep, children), q, y, x);
        WalkOfBagReach(g, rep, children, parents, q);
        LoopFreeSame(g, rep, children, parents, order, x, y);
      }
    }
  }

  /** The map of `x` joins the maps of all blocks before `x`. */
  ghost predicate JoinsBefore(g: Succ, rep: Rep, maps: RegMaps, pres: RegMaps, x: Block) {
    x in pres && Joins(pres[x], maps, Before(g, rep, x))
  }

  /** Finished bags join what lies before them; the others have collected nothing yet. */
  ghost predicate ForwardAt(g: Succ, rep: Rep, maps: RegMaps, pres: RegMaps, fins: set<Block>, x: Block) {
    if x in fins then JoinsBefore(g, rep, maps, pres, x) else x in pres && pres[x] == map[]
  }

  ghost predicate Forward(g: Succ, rep: Rep, maps: RegMaps, pres: RegMaps, fins: set<Block>) {
    forall x {:trigger ForwardAt(g, rep, maps, pres, fins, x)} :: x in Live(rep) ==>
      ForwardAt(g, rep, maps, pres, fins, x)
  }

  lemma ForwardStep(g: Succ, rep: Rep, maps: RegMaps, pres: RegMaps, fins: set<Block>, t: Block, m: RegMap)
    requires Forward(g, rep, maps, pres, fins) && Joins(m, maps, Before(g, rep, t))
    ensures Forward(g, rep, maps, pres[t := m], fins + {t})
  {
    hide Joins, Before;
    forall x | x in Live(rep)
      ensures ForwardAt(g, rep, maps, pres[t := m], fins + {t}, x)
    {
      assert ForwardAt(g, rep, maps, pres, fins, x);
    }
  }

  /** Widening by what a parent has collected and by what it owns adds everything up to that parent. */
  lemma ForwardParent(g: Succ, rep: Rep, maps: RegMaps, pres: RegMaps, own: RegMaps, fins: set<Block>, s: set<Block>,
                      p: Block, m: RegMap)
    requires Closed(g) && IsRep(g, rep) && Connected(g, rep) && p in Live(rep) && p in fins
    requires Forward(g, rep, maps, pres, fins) && OwnsClasses(rep, own, maps)
    requires Joins(m, maps, Reaching(g, s))
    ensures p in pres && p in own
    ensures Joins(Widened(Widened(m, pres[p]), own[p]), maps, Reaching(g, s + {p}))
  {
    hide Joins, Widened, IsRep, Connected, Closed, Reaching, Before, Class;
    assert ForwardAt(g, rep, maps, pres, fins, p) && OwnsClass(rep, own, maps, p);
    JoinsWidened(m, pres[p], maps, Reaching(g, s), Before(g, rep, p));
    JoinsWidened(Widened(m, pres[p]), own[p], maps, Reaching(g, s) + Before(g, rep, p), Class(rep, p));
    ReachingAdd(g, rep, s, p);
    assert Reaching(g, s) + Before(g, rep, p) + Class(rep, p) == Reaching(g, s) + (Before(g, rep, p) + Class(rep, p));
  }

  lemma ForwardStart(g: Succ, rep: Rep, maps: RegMaps, pres: RegMaps, fins: set<Block>, t: Block)
    requires Forward(g, rep, maps, pres, fins) && t in Live(rep) && t !in fins
    ensures t in pres && pres[t] == map[] && pres == pres[t := pres[t]] && Joins(pres[t], maps, Reaching(g, {}))
  {
    assert ForwardAt(g, rep, maps, pres, fins, t);
    JoinsNothing(g, maps);
  }

  lemma JoinsNothing(g: Succ, maps: RegMaps)
    ensures Joins(map[], maps, Reaching(g, {}))
  {
  }

  // ---------------------------------------------------------------------------
  // Counting finished neighbours

  function Count(num: map<Block, nat>, x: Block): nat {
    if x in num then num[x] else 0
  }

  /** `num` counts, for each live bag, the members of its family that are finished. */
  ghost predicate CountsAt(family: Succ, num: map<Block, nat>, fins: set<Block>, x: Block) {
    x in family && Count(num, x) == |family[x] * fins|
  }

  ghost predicate Counts(rep: Rep, family: Succ, num: map<Block, nat>, fins: set<Block>) {
    forall x {:trigger CountsAt(family, num, fins, x)} :: x in Live(rep) ==> CountsAt(family, num, fins, x)
  }

  /** A bag whose count has reached the size of its family has a finished family. */
  lemma CountFull(rep: Rep, family: Succ, num: map<Block, nat>, fins: set<Block>, x: Block)
    requires Counts(rep, family, num, fins) && x in Live(rep)
    ensures x in family && (Count(num, x) == |family[x]| <==> family[x] <= fins)
  {
    assert CountsAt(family, num, fins, x);
    SizeFull(family[x], fins);
  }

  lemma SizeFull(a: set<Block>, b: set<Block>)
    ensures |a * b| == |a| <==> a <= b
  {
    assert |a| == |a * b| + |a - b| by {
      assert a == a * b + (a - b);
    }
    if a <= b {
      assert a * b == a;
    }
    if |a * b| == |a| {
      assert a - b == {};
      forall x | x in a
        ensures x in b
      {
        assert x !in a - b;
      }
    }
  }

  /** Finishing `t` adds one to the count of each bag that has `t` in its family. */
  lemma CountStep(rep: Rep, family: Succ, num: map<Block, nat>, num': map<Block, nat>, fins: set<Block>, t: Block)
    requires Counts(rep, family, num, fins) && t !in fins
    requires forall x :: x in Live(rep) ==> Count(num', x) == Count(num, x) + if Has(family, x, t) then 1 else 0
    ensures Counts(rep, family, num', fins + {t})
  {
    forall x | x in Live(rep)
      ensures CountsAt(family, num', fins + {t}, x)
    {
      assert CountsAt(family, num, fins, x);
      if t in family[x] {
        assert family[x] * (fins + {t}) == family[x] * fins + {t};
      } else {
        assert family[x] * (fins + {t}) == family[x] * fins;
      }
    }
  }

  lemma CountsNothing(rep: Rep, family: Succ)
    requires forall x :: x in Live(rep) ==> x in family
    ensures Counts(rep, family, map[], {})
  {
    forall x | x in Live(rep)
      ensures CountsAt(family, map[], {}, x)
    {
      assert family[x] * {} == {};
    }
  }

  lemma CountsSame(rep: Rep, family: Succ, num: map<Block, nat>, t: Block, fins: set<Block>)
    requires Counts(rep, family, num, fins)
    ensures Counts(rep, family, if t in num then num else num[t := 0], fins)
  {
    var num' := if t in num then num else num[t := 0];
    forall x | x in Live(rep)
      ensures CountsAt(family, num', fins, x)
    {
      assert CountsAt(family, num, fins, x);
    }
  }

  lemma SettledKeys(g: Succ, rep: Rep, children: Succ, parents: Succ)
    requires Settled(g, rep, children, parents)
    ensures forall x :: x in Live(rep) ==> x in children && x in parents
  {
  }

  /** `t` is in the parents of exactly the bags that are in its children. */
  lemma SettledBoth(g: Succ, rep: Rep, children: Succ, parents: Succ, t: Block)
    requires Settled(g, rep, children, parents) && t in Live(rep)
    ensures forall x :: x in Live(rep) ==> (Has(parents, x, t) <==> Has(children, t, x))
    ensures forall x :: x in Live(rep) ==> (Has(children, x, t) <==> Has(parents, t, x))
  {
    forall x | x in Live(rep)
      ensures Has(parents, x, t) <==> Has(children, t, x)
      ensures Has(children, x, t) <==> Has(parents, t, x)
    {
      assert Has(parents, x, t) <==> t != x && QEdge(g, rep, t, x);
      assert Has(children, x, t) <==> x != t && QEdge(g, rep, x, t);
    }
  }

  lemma LiveLess(rep: Rep, fins: set<Block>, t: Block)
    requires t in Live(rep) && t !in fins
    ensures |Live(rep) - (fins + {t})| < |Live(rep) - fins|
  {
    assert Live(rep) - fins == (Live(rep) - (fins + {t})) + {t};
  }

  // ---------------------------------------------------------------------------
  // The queue of the forward pass

  /** A bag with a finished family waits in the queue. */
  ghost predicate Queued(rep: Rep, parents: Succ, queue: seq<Block>, fins: set<Block>) {
    && (forall i :: 0 <= i < |queue| ==> queue[i] in Live(rep))
    && (forall x :: x in Live(rep) && x in parents && parents[x] <= fins && x !in fins ==> x in queue)
  }

  lemma QueuedHead(g: Succ, rep: Rep, children: Succ, parents: Succ, queue: seq<Block>, fins: set<Block>)
    requires Queued(rep, parents, queue, fins) && |queue| > 0 && Settled(g, rep, children, parents)
    ensures queue[0] in Live(rep) && queue[0] in parents && queue[0] in children
  {
  }

  /** At the start only the root has no parents, and it is in the queue. */
  lemma QueuedStart(g: Succ, rep: Rep, children: Succ, parents: Succ, order: seq<Block>, root: Block)
    requires Closed(g) && LoopFree(g, rep, children, parents, order) && root in g && ReachesAll(g, root)
    ensures root in rep && Queued(rep, parents, [rep[root]], {})
  {
    hide IsRep, Connected, Settled, TopoOrder, Reach, LoopFree;
    LoopFreeParts(g, rep, children, parents, order);
    RepLive(g, rep, root);
    forall x | x in Live(rep) && x in parents && parents[x] <= {}
      ensures x == rep[root]
    {
      assert Reach(g, root, x);
      if x != rep[root] {
        var p := EnterClass(g, rep, root, x);
        SettledParent(g, rep, children, parents, p, x);
      }
    }
  }

  lemma RepLive(g: Succ, rep: Rep, x: Block)
    requires IsRep(g, rep) && x in g
    ensures x in rep && rep[x] in Live(rep)
  {
  }

  lemma TopoLive(g: Succ, rep: Rep, order: seq<Block>)
    requires TopoOrder(g, rep, order)
    ensures forall i :: 0 <= i < |order| ==> order[i] in Live(rep)
  {
  }

  lemma TopoChild(g: Succ, rep: Rep, order: seq<Block>, k: nat, y: Block)
    requires TopoOrder(g, rep, order) && k < |order| && QEdge(g, rep, order[k], y) && y != order[k]
    ensures forall i :: 0 <= i < |order| && order[i] == y ==> i < k
  {
    assert y in order[..k];
  }

  /** With an empty queue every bag is finished. */
  lemma QueuedDone(g: Succ, rep: Rep, children: Succ, parents: Succ, order: seq<Block>, fins: set<Block>)
    requires LoopFree(g, rep, children, parents, order) && Queued(rep, parents, [], fins)
    requires forall x :: x in Live(rep) ==> x in parents
    ensures forall x :: x in Live(rep) ==> x in fins
  {
    TopoLive(g, rep, order);
    hide IsRep, Connected, Settled, TopoOrder;
    var i := |order|;
    while i > 0
      invariant 0 <= i <= |order|
      invariant forall j :: i <= j < |order| ==> order[j] in fins
    {
      i := i - 1;
      var x := order[i];
      forall p | p in parents[x]
        ensures p in fins
      {
        SettledParent(g, rep, children, parents, p, x);
        QEdgeLive(g, rep, p, x);
        var k :| 0 <= k < |order| && order[k] == p;
        TopoChild(g, rep, order, k, x);
      }
    }
  }

  /** Popping a bag that cannot be finished, or is finished already, loses nothing. */
  lemma QueuedPop(rep: Rep, parents: Succ, queue: seq<Block>, fins: set<Block>)
    requires Queued(rep, parents, queue, fins) && |queue| > 0
    requires queue[0] in fins || (queue[0] in parents && !(parents[queue[0]] <= fins))
    ensures Queued(rep, parents, queue[1..], fins)
  {
    forall x | x in Live(rep) && x in parents && parents[x] <= fins && x !in fins
      ensures x in queue[1..]
    {
      var i :| 0 <= i < |queue| && queue[i] == x;
      assert queue[1..][i - 1] == x;
    }
  }

  /** After `t` is finished and its unfinished children are queued, every bag that has become ready is queued. */
  lemma QueuedFinish(g: Succ, rep: Rep, children: Succ, parents: Succ, order: seq<Block>, queue: seq<Block>,
                     queue': seq<Block>, fins: set<Block>)
    requires LoopFree(g, rep, children, parents, order) && Queued(rep, parents, queue, fins) && |queue| > 0
    requires queue[0] in children && queue[1..] <= queue'
    requires forall i :: |queue| - 1 <= i < |queue'| ==> queue'[i] in children[queue[0]]
    requires forall c :: c in children[queue[0]] && c !in fins && c != queue[0] ==> c in queue'
    ensures Queued(rep, parents, queue', fins + {queue[0]})
  {
    hide IsRep, Connected, Settled, TopoOrder;
    var t := queue[0];
    LoopFreeParts(g, rep, children, parents, order);
    forall i | 0 <= i < |queue'|
      ensures queue'[i] in Live(rep)
    {
      if i < |queue| - 1 {
        assert queue'[i] == queue[1..][i] == queue[i + 1];
      } else {
        SettledChild(g, rep, children, parents, t, queue'[i]);
        QEdgeLive(g, rep, t, queue'[i]);
      }
    }
    forall x | x in Live(rep) && x in parents && parents[x] <= fins + {t} && x !in fins + {t}
      ensures x in queue'
    {
      if parents[x] <= fins {
        var i :| 0 <= i < |queue| && queue[i] == x;
        assert queue'[i - 1] == queue[1..][i - 1] == x;
      } else {
        assert t in parents[x];
        SettledParent(g, rep, children, parents, t, x);
        SettledChild(g, rep, children, parents, t, x);
      }
    }
  }

  // ---------------------------------------------------------------------------
  // The backward pass

  ghost predicate HasExit(g: Succ, rep: Rep, x: Block) {
    exists y :: y != x && QEdge(g, rep, x, y)
  }

  /** The reads of `v` are seen from its bag: it is the block the bag was made for, or the bag has a child. A bag
      without children keeps the reads it started with, and never takes in those of the bags merged into it. */
  ghost predicate Contributes(g: Succ, rep: Rep, v: Block)
    requires v in rep
  {
    rep[v] == v || HasExit(g, rep, rep[v])
  }

  /** The blocks, reachable from the bag `x`, whose reads are seen. */
  ghost function After(g: Succ, rep: Rep, x: Block): set<Block> {
    set v | v in g && v in rep && Reach(g, x, v) && Contributes(g, rep, v)
  }

  ghost function Reached(g: Succ, rep: Rep, s: set<Block>): set<Block> {
    set v | v in g && v in rep && Contributes(g, rep, v) && exists c :: c in s && Reach(g, c, v)
  }

  /** What `x` has joined once the children in `s` have been merged into it. */
  ghost function SoFar(g: Succ, rep: Rep, x: Block, s: set<Block>): set<Block> {
    {x} + Reached(g, rep, s) + if s == {} then {} else Class(rep, x)
  }

  lemma SoFarAdd(g: Succ, rep: Rep, x: Block, s: set<Block>, c: Block)
    ensures SoFar(g, rep, x, s + {c}) == SoFar(g, rep, x, s) + After(g, rep, c) + Class(rep, x)
  {
    forall v
      ensures v in Reached(g, rep, s + {c}) <==> v in Reached(g, rep, s) || v in After(g, rep, c)
    {
      if v in Reached(g, rep, s) {
        var d :| d in s && Reach(g, d, v);
        assert d in s + {c};
      }
      if v in After(g, rep, c) {
        assert c in s + {c};
      }
    }
    assert s + {c} != {};
  }

  /** With all children merged in, a bag has joined every block after it. */
  lemma SoFarDone(g: Succ, rep: Rep, children: Succ, parents: Succ, order: seq<Block>, x: Block)
    requires Closed(g) && LoopFree(g, rep, children, parents, order) && x in Live(rep) && x in children
    ensures SoFar(g, rep, x, children[x]) == After(g, rep, x)
  {
    hide LoopFree, IsRep, Connected, Settled, TopoOrder, Reach, Closed;
    LoopFreeParts(g, rep, children, parents, order);
    ReachSelf(g, x);
    forall v | v in After(g, rep, x)
      ensures v in SoFar(g, rep, x, children[x])
    {
      if rep[v] != x {
        var c := LeaveClass(g, rep, x, v);
        SettledChild(g, rep, children, parents, x, c);
        assert v in Reached(g, rep, children[x]);
      } else if v != x {
        var y :| y != x && QEdge(g, rep, x, y);
        SettledChild(g, rep, children, parents, x, y);
        assert y in children[x];
      }
    }
    forall v | v in SoFar(g, rep, x, children[x])
      ensures v in After(g, rep, x)
    {
      if v in Reached(g, rep, children[x]) {
        var c :| c in children[x] && Reach(g, c, v);
        SettledChild(g, rep, children, parents, x, c);
        QEdgeReach(g, rep, x, c);
        ReachTrans(g, x, c, v);
      } else if v != x {
        assert v in Class(rep, x) && children[x] != {};
        var c :| c in children[x];
        SettledChild(g, rep, children, parents, x, c);
        assert HasExit(g, rep, x);
        ConnectedAt(g, rep, v);
      }
    }
  }

  ghost predicate JoinsAfter(g: Succ, rep: Rep, maps: RegMaps, sucs: RegMaps, x: Block) {
    x in sucs && Joins(sucs[x], maps, After(g, rep, x))
  }

  /** Finished bags join what lies after them; the others hold what they started with. */
  ghost predicate BackwardAt(g: Succ, rep: Rep, maps: RegMaps, sucs: RegMaps, fins: set<Block>, x: Block) {
    if x in fins then JoinsAfter(g, rep, maps, sucs, x) else x in sucs && x in maps && sucs[x] == maps[x]
  }

  ghost predicate Backward(g: Succ, rep: Rep, maps: RegMaps, sucs: RegMaps, fins: set<Block>) {
    forall x {:trigger BackwardAt(g, rep, maps, sucs, fins, x)} :: x in Live(rep) ==>
      BackwardAt(g, rep, maps, sucs, fins, x)
  }

  lemma BackwardStart(g: Succ, rep: Rep, maps: RegMaps, sucs: RegMaps, fins: set<Block>, t: Block)
    requires Backward(g, rep, maps, sucs, fins) && t in Live(rep) && t !in fins
    ensures t in sucs && sucs == sucs[t := sucs[t]] && Joins(sucs[t], maps, SoFar(g, rep, t, {}))
  {
    assert BackwardAt(g, rep, maps, sucs, fins, t);
    JoinsSelf(maps, t);
    assert SoFar(g, rep, t, {}) == {t};
  }

  lemma BackwardChild(g: Succ, rep: Rep, maps: RegMaps, sucs: RegMaps, own: RegMaps, fins: set<Block>, t: Block,
                      s: set<Block>, c: Block, m: RegMap)
    requires t in Live(rep) && c in Live(rep) && c in fins
    requires Backward(g, rep, maps, sucs, fins) && OwnsClasses(rep, own, maps)
    requires Joins(m, maps, SoFar(g, rep, t, s))
    ensures c in sucs && t in own
    ensures Joins(Widened(Widened(m, sucs[c]), own[t]), maps, SoFar(g, rep, t, s + {c}))
  {
    hide Joins, Widened, SoFar, After, Class;
    assert BackwardAt(g, rep, maps, sucs, fins, c) && OwnsClass(rep, own, maps, t);
    JoinsWidened(m, sucs[c], maps, SoFar(g, rep, t, s), After(g, rep, c));
    JoinsWidened(Widened(m, sucs[c]), own[t], maps, SoFar(g, rep, t, s) + After(g, rep, c), Class(rep, t));
    SoFarAdd(g, rep, t, s, c);
  }

  lemma BackwardStep(g: Succ, rep: Rep, maps: RegMaps, sucs: RegMaps, fins: set<Block>, t: Block, m: RegMap)
    requires Backward(g, rep, maps, sucs, fins) && Joins(m, maps, After(g, rep, t))
    ensures Backward(g, rep, maps, sucs[t := m], fins + {t})
  {
    hide Joins, After;
    forall x | x in Live(rep)
      ensures BackwardAt(g, rep, maps, sucs[t := m], fins + {t}, x)
    {
      assert BackwardAt(g, rep, maps, sucs, fins, x);
    }
  }

  // ---------------------------------------------------------------------------
  // The stack of the backward pass

  ghost function IndexIn(order: seq<Block>, x: Block): nat {
    if order == [] || order[0] == x then 0 else 1 + IndexIn(order[1..], x)
  }

  lemma {:induction false} IndexInAt(order: seq<Block>, i: nat)
    requires i < |order| && forall k :: 0 <= k < i ==> order[k] != order[i]
    ensures IndexIn(order, order[i]) == i
  {
    if i > 0 {
      assert order[1..][i - 1] == order[i];
      IndexInAt(order[1..], i - 1);
    }
  }

  /** The place in `order` of the topmost stack entry that is not finished. */
  ghost function TopIndex(order: seq<Block>, stack: seq<Block>, fins: set<Block>): nat {
    if stack == [] then 0
    else if stack[|stack| - 1] in fins then TopIndex(order, stack[..|stack| - 1], fins)
    else IndexIn(order, stack[|stack| - 1])
  }

  /** A child stands before its parent in `order`. */
  lemma ChildIndex(g: Succ, rep: Rep, order: seq<Block>, x: Block, c: Block)
    requires TopoOrder(g, rep, order) && QEdge(g, rep, x, c) && c != x && x in order && c in order
    ensures IndexIn(order, c) < IndexIn(order, x)
  {
    var i :| 0 <= i < |order| && order[i] == x;
    assert c in order[..i];
    var k :| 0 <= k < i && order[k] == c;
    IndexInAt(order, i);
    IndexInAt(order, k);
  }

  ghost predicate Stacked(rep: Rep, stack: seq<Block>, fins: set<Block>, num: map<Block, nat>, root: Block) {
    && (forall i :: 0 <= i < |stack| ==> stack[i] in Live(rep))
    && (root in fins || root in stack)
    && (forall x :: x in fins ==> x in Live(rep) && x in num)
    && (forall x :: x in num ==> x in Live(rep))
  }

  lemma StackedRoot(rep: Rep, root: Block)
    requires root in Live(rep)
    ensures Stacked(rep, [root], {}, map[], root)
  {
  }

  lemma StackedPop(rep: Rep, below: seq<Block>, t: Block, fins: set<Block>, num: map<Block, nat>, root: Block)
    requires Stacked(rep, below + [t], fins, num, root)
    ensures t in Live(rep)
    ensures t in fins ==> Stacked(rep, below, fins, num, root)
  {
    assert (below + [t])[|below|] == t;
    forall i | 0 <= i < |below|
      ensures below[i] in Live(rep)
    {
      assert below[i] == (below + [t])[i];
    }
  }

  lemma StackedFinish(rep: Rep, below: seq<Block>, t: Block, fins: set<Block>, num: map<Block, nat>,
                      num': map<Block, nat>, s: set<Block>, root: Block)
    requires Stacked(rep, below + [t], fins, num, root)
    requires forall x :: x in num' <==> x in num || x == t || x in s
    requires forall x :: x in s ==> x in Live(rep)
    ensures Stacked(rep, below, fins + {t}, num', root)
  {
    StackedPop(rep, below, t, fins, num, root);
    forall i | 0 <= i < |below|
      ensures below[i] in Live(rep)
    {
      assert below[i] == (below + [t])[i];
    }
  }

  lemma StackedPush(rep: Rep, below: seq<Block>, t: Block, pushed: seq<Block>, fins: set<Block>, num: map<Block, nat>,
                    num': map<Block, nat>, root: Block)
    requires Stacked(rep, below + [t], fins, num, root)
    requires forall x :: x in num' <==> x in num || x == t
    requires forall i :: 0 <= i < |pushed| ==> pushed[i] in Live(rep)
    ensures Stacked(rep, below + [t] + pushed, fins, num', root)
  {
    StackedPop(rep, below, t, fins, num, root);
    var all := below + [t] + pushed;
    forall i | 0 <= i < |all|
      ensures all[i] in Live(rep)
    {
      assert all[i] == if i <= |below| then (below + [t])[i] else pushed[i - |below| - 1];
    }
  }

  /** Finished bags are closed under children. */
  ghost predicate FinsClosed(children: Succ, fins: set<Block>) {
    forall x :: x in fins ==> x in children && children[x] <= fins
  }

  /** With an empty stack every bag is finished. */
  lemma StackedDone(g: Succ, rep: Rep, children: Succ, parents: Succ, order: seq<Block>, stack: seq<Block>,
                    fins: set<Block>, num: map<Block, nat>, root: Block)
    requires Closed(g) && LoopFree(g, rep, children, parents, order) && root in g && ReachesAll(g, root) && root in rep
    requires stack == [] && Stacked(rep, stack, fins, num, rep[root]) && FinsClosed(children, fins)
    ensures fins == Live(rep) == num.Keys
  {
    hide LoopFree, IsRep, Connected, Settled, TopoOrder, Reach;
    LoopFreeParts(g, rep, children, parents, order);
    var s := set v | v in g && v in rep && rep[v] in fins;
    forall v, w | v in s && v in g && w in g[v]
      ensures w in s
    {
      QEdgeIntro(g, rep, v, w);
      QEdgeLive(g, rep, rep[v], rep[w]);
      SettledChild(g, rep, children, parents, rep[v], rep[w]);
    }
    forall x | x in Live(rep)
      ensures x in fins
    {
      assert Reach(g, root, x);
      ReachStays(g, s, root, x);
    }
  }

  lemma FinsClosedNone(children: Succ)
    ensures FinsClosed(children, {})
  {
  }

  lemma FinsClosedStep(children: Succ, fins: set<Block>, t: Block)
    requires FinsClosed(children, fins) && t in children && children[t] <= fins
    ensures FinsClosed(children, fins + {t})
  {
    forall x | x in fins + {t}
      ensures x in children && children[x] <= fins + {t}
    {
      assert x in fins ==> children[x] <= fins;
    }
  }

  /** The children pushed above `t` are unfinished, and stand before it in `order`. */
  lemma PushedIndex(g: Succ, rep: Rep, children: Succ, parents: Succ, order: seq<Block>, below: seq<Block>, t: Block,
                    pushed: seq<Block>, fins: set<Block>)
    requires LoopFree(g, rep, children, parents, order) && t in Live(rep) && t in children && t !in fins && |pushed| > 0
    requires forall i :: 0 <= i < |pushed| ==> pushed[i] in children[t] && pushed[i] !in fins
    ensures TopIndex(order, below + [t] + pushed, fins) < TopIndex(order, below + [t], fins)
  {
    var c := pushed[|pushed| - 1];
    TopOf(order, below + [t] + pushed, fins, c);
    TopOf(order, below + [t], fins, t);
    ChildBefore(g, rep, children, parents, order, t, c);
  }

  lemma TopOf(order: seq<Block>, stack: seq<Block>, fins: set<Block>, x: Block)
    requires |stack| > 0 && stack[|stack| - 1] == x && x !in fins
    ensures TopIndex(order, stack, fins) == IndexIn(order, x)
  {
  }

  lemma ChildBefore(g: Succ, rep: Rep, children: Succ, parents: Succ, order: seq<Block>, t: Block, c: Block)
    requires LoopFree(g, rep, children, parents, order) && t in Live(rep) && t in children && c in children[t]
    ensures IndexIn(order, c) < IndexIn(order, t)
  {
    hide IsRep, Connected, Settled, TopoOrder;
    LoopFreeParts(g, rep, children, parents, order);
    SettledChild(g, rep, children, parents, t, c);
    QEdgeLive(g, rep, t, c);
    ChildIndex(g, rep, order, t, c);
  }

  lemma PopIndex(order: seq<Block>, below: seq<Block>, t: Block, fins: set<Block>)
    requires t in fins
    ensures TopIndex(order, below + [t], fins) == TopIndex(order, below, fins)
  {
    assert (below + [t])[..|below|] == below;
  }

  lemma ChildrenLive(g: Succ, rep: Rep, children: Succ, parents: Succ, order: seq<Block>, t: Block)
    requires LoopFree(g, rep, children, parents, order) && t in Live(rep)
    ensures t in children && t in parents
    ensures forall c :: c in children[t] ==> c in Live(rep) && c != t
    ensures forall p :: p in parents[t] ==> p in Live(rep) && p != t
  {
    hide IsRep, Connected, Settled, TopoOrder, Live;
    LoopFreeParts(g, rep, children, parents, order);
    SettledKeys(g, rep, children, parents);
    forall c | c in children[t]
      ensures c in Live(rep) && c != t
    {
      SettledChild(g, rep, children, parents, t, c);
      QEdgeLive(g, rep, t, c);
    }
    forall p | p in parents[t]
      ensures p in Live(rep) && p != t
    {
      SettledParent(g, rep, children, parents, p, t);
      QEdgeLive(g, rep, p, t);
    }
  }

  lemma SetSizes(a: set<Block>, num: map<Block, nat>, n: int)
    requires a == num.Keys && n == |a|
    ensures |a| == |num| == n
  {
    assert |num| == |num.Keys|;
  }
}
