/** Which block names a bag: one at which the component is entered. The search comes to such a block first, and a bag is
    merged only into one that comes before it on the path. */
module LoopHeads {
  import opened Graphs
  import opened LoopSearch
  import opened Families
  import opened LoopState

  /** `h` is the root, or follows a block outside its component that the root reaches. */
  ghost predicate Entered(g: Succ, root: Block, h: Block) {
    h in g && Reach(g, root, h) && (h == root || exists v :: EnteredFrom(g, root, v, h))
  }

  ghost predicate EnteredFrom(g: Succ, root: Block, v: Block, h: Block) {
    v in g && h in g[v] && Reach(g, root, v) && !SameComponent(g, v, h)
  }

  /** `h` is a live bag that was made for a block at which the component of `x` is entered. */
  ghost predicate NamesEntry(g: Succ, rep: Rep, root: Block, x: Block, h: Block) {
    SameComponent(g, x, h) && Entered(g, root, h) && h in rep && rep[h] == h
  }

  /** Every component that the root reaches has such a bag. */
  ghost predicate EntriesLive(g: Succ, rep: Rep, root: Block) {
    forall x {:trigger HasEntry(g, rep, root, x)} :: x in g && Reach(g, root, x) ==> HasEntry(g, rep, root, x)
  }

  ghost predicate HasEntry(g: Succ, rep: Rep, root: Block, x: Block) {
    exists h :: NamesEntry(g, rep, root, x, h)
  }

  // ---------------------------------------------------------------------------
  // Entries whose path no merge has touched

  /** Among the first `n` of the path is a bag that was made for an entry of the component of `x`. */
  ghost predicate Led(g: Succ, rep: Rep, root: Block, path: seq<Block>, n: int, x: Block) {
    exists j :: 0 <= j < n && j < |path| && path[j] in rep && NamesEntry(g, rep, root, x, rep[path[j]])
  }

  /** Wherever the path, or the bag at its end, is in the component of `x`, the path has come through an entry of it. */
  ghost predicate Through(g: Succ, rep: Rep, root: Block, path: seq<Block>, bag: Block, x: Block) {
    && (forall i :: 0 <= i < |path| && SameComponent(g, path[i], x) ==> Led(g, rep, root, path, i + 1, x))
    && (SameComponent(g, bag, x) ==>
         (bag in rep && NamesEntry(g, rep, root, x, rep[bag])) || Led(g, rep, root, path, |path|, x))
  }

  /** The classes along the path are different, follow each other along edges, and are visited. */
  ghost predicate Distinct(g: Succ, rep: Rep, e: Entry) {
    && e.bag in rep && (forall i :: 0 <= i < |e.path| ==> e.path[i] in rep && rep[e.path[i]] in Image(rep, e.visited))
    && (forall i, j :: 0 <= i < j < |e.path| ==> rep[e.path[i]] != rep[e.path[j]])
    && (forall i :: 0 < i < |e.path| ==> QEdge(g, rep, rep[e.path[i - 1]], rep[e.path[i]]))
    && (|e.path| > 0 ==> QEdge(g, rep, rep[e.path[|e.path| - 1]], rep[e.bag]))
  }

  ghost predicate Clean(g: Succ, rep: Rep, root: Block, e: Entry) {
    && Distinct(g, rep, e) && Reach(g, root, e.bag)
    && forall x {:trigger Through(g, rep, root, e.path, e.bag, x)} :: x in g ==> Through(g, rep, root, e.path, e.bag, x)
  }

  /** Up to classes, the path of `low` goes no other way than that of `high`, and at most to its bag. */
  ghost predicate Below(rep: Rep, low: Entry, high: Entry) {
    && |low.path| <= |high.path| + 1
    && forall i :: 0 <= i < |low.path| ==>
         && low.path[i] in rep && (i < |high.path| ==> high.path[i] in rep && rep[low.path[i]] == rep[high.path[i]])
         && (i == |high.path| ==> high.bag in rep && rep[low.path[i]] == rep[high.bag])
  }

  // ---------------------------------------------------------------------------
  // Entries that will find nothing to do

  /** When the work above position `i` is done, the class of `b` is listed: it is part of this work, or a child of such
      a class. */
  ghost predicate Doomed(g: Succ, rep: Rep, pend: seq<Mark>, order: seq<Block>, i: int, b: Block) {
    b in rep && exists p :: Covered(rep, pend, order, i, p) && (p == rep[b] || QEdge(g, rep, p, rep[b]))
  }

  /** The path or its bag comes to the component of `x`. */
  ghost predicate Met(g: Succ, path: seq<Block>, bag: Block, x: Block) {
    SameComponent(g, bag, x) || exists i :: 0 <= i < |path| && SameComponent(g, path[i], x)
  }

  /** A component in which bags were merged is met by the entry, or the work above position `i` will list a bag of
      it. */
  ghost predicate Noted(g: Succ, rep: Rep, pend: seq<Mark>, order: seq<Block>, i: int, e: Entry) {
    forall x {:trigger NotedAt(g, rep, pend, order, i, e, x)} :: x in rep && rep[x] != x ==>
      NotedAt(g, rep, pend, order, i, e, x)
  }

  ghost predicate NotedAt(g: Succ, rep: Rep, pend: seq<Mark>, order: seq<Block>, i: int, e: Entry, x: Block) {
    Met(g, e.path, e.bag, x) || exists c :: SameComponent(g, c, x) && Covered(rep, pend, order, i, c)
  }

  ghost predicate EntryPlaced(g: Succ, rep: Rep, pend: seq<Mark>, order: seq<Block>, i: int, e: Entry, clean: bool) {
    if clean then Noted(g, rep, pend, order, i, e) else Doomed(g, rep, pend, order, i, e.bag)
  }

  ghost predicate Placed(g: Succ, rep: Rep, stack: seq<Entry>, pend: seq<Mark>, order: seq<Block>, kept: seq<bool>,
                         i: int)
    requires 0 <= i <= |pend|
  {
    var k := |Unexplored(pend[..i])|;
    k < |stack| && k < |kept| && EntryPlaced(g, rep, pend, order, i, stack[k], kept[k])
  }

  /** Every entry of the stack is clean, and then below the clean ones above it, or will find its bag listed. */
  ghost predicate Nested(g: Succ, rep: Rep, stack: seq<Entry>, pend: seq<Mark>, order: seq<Block>, root: Block,
                         kept: seq<bool>) {
    && |kept| == |stack|
    && (forall k :: 0 <= k < |stack| && kept[k] ==> Clean(g, rep, root, stack[k]))
    && (forall k, l :: 0 <= k < l < |stack| && kept[k] && kept[l] ==> Below(rep, stack[k], stack[l]))
    && (forall i {:trigger pend[i]} :: 0 <= i < |pend| && pend[i].Explore? ==>
         Placed(g, rep, stack, pend, order, kept, i))
  }

  ghost predicate Headed(g: Succ, rep: Rep, stack: seq<Entry>, pend: seq<Mark>, order: seq<Block>, root: Block) {
    EntriesLive(g, rep, root) && exists kept :: Nested(g, rep, stack, pend, order, root, kept)
  }

  lemma NestedAt(g: Succ, rep: Rep, stack: seq<Entry>, pend: seq<Mark>, order: seq<Block>, root: Block, kept: seq<bool>,
                 i: int)
    requires Nested(g, rep, stack, pend, order, root, kept) && 0 <= i < |pend| && pend[i].Explore?
    ensures |kept| == |stack| && Placed(g, rep, stack, pend, order, kept, i)
    ensures forall k :: 0 <= k < |stack| && kept[k] ==> Clean(g, rep, root, stack[k])
    ensures forall k :: 0 <= k < |stack| - 1 && kept[k] && kept[|stack| - 1] ==>
              Below(rep, stack[k], stack[|stack| - 1])
  {
    hide Clean, Below, Placed;
  }

  lemma PlacedIntro(g: Succ, rep: Rep, stack: seq<Entry>, pend: seq<Mark>, order: seq<Block>, kept: seq<bool>, i: int,
                    below: seq<Mark>)
    requires 0 <= i <= |pend| && pend[..i] == below && |Unexplored(below)| < |stack| && |Unexplored(below)| < |kept|
    requires EntryPlaced(g, rep, pend, order, i, stack[|Unexplored(below)|], kept[|Unexplored(below)|])
    ensures Placed(g, rep, stack, pend, order, kept, i)
  {
  }

  lemma PlacedParts(g: Succ, rep: Rep, stack: seq<Entry>, pend: seq<Mark>, order: seq<Block>, kept: seq<bool>, i: int,
                    below: seq<Mark>)
    requires 0 <= i <= |pend| && pend[..i] == below && Placed(g, rep, stack, pend, order, kept, i)
    ensures |Unexplored(below)| < |stack| && |Unexplored(below)| < |kept|
    ensures EntryPlaced(g, rep, pend, order, i, stack[|Unexplored(below)|], kept[|Unexplored(below)|])
  {
  }

  // ---------------------------------------------------------------------------
  // Turns that merge nothing

  /** Every component that the root reaches is entered somewhere. */
  lemma EntryExists(g: Succ, root: Block, x: Block) returns (h: Block)
    requires Closed(g) && x in g && Reach(g, root, x)
    ensures SameComponent(g, x, h) && Entered(g, root, h)
  {
    var p :| WalkFromTo(g, p, root, x);
    ReachSelf(g, x);
    var i := |p| - 1;
    while i > 0 && SameComponent(g, p[i - 1], x)
      invariant 0 <= i < |p| && SameComponent(g, p[i], x)
    {
      i := i - 1;
    }
    h := p[i];
    assert WalkFromTo(g, p[..i + 1], root, h);
    if i > 0 {
      var v := p[i - 1];
      assert WalkFromTo(g, p[..i], root, v);
      if SameComponent(g, v, h) {
        SameTrans(g, v, h, x);
      }
      assert EnteredFrom(g, root, v, h);
    }
  }

  lemma HeadedStart(g: Succ, root: Block)
    requires Closed(g) && root in g
    ensures Headed(g, Identity(g), [Entry(root, [], {})], [Explore(root)], [], root)
  {
    var rep := Identity(g);
    hide Reach;
    forall x {:trigger HasEntry(g, rep, root, x)} | x in g && Reach(g, root, x)
      ensures HasEntry(g, rep, root, x)
    {
      var h := EntryExists(g, root, x);
      assert NamesEntry(g, rep, root, x, h);
    }
    ReachSelf(g, root);
    assert [Explore(root)][..0] == [];
    assert Unexplored([]) == [];
    forall x | x in g
      ensures Through(g, rep, root, [], root, x)
    {
      if SameComponent(g, root, x) {
        SameSym(g, root, x);
        assert NamesEntry(g, rep, root, x, rep[root]);
      }
    }
    assert Nested(g, rep, [Entry(root, [], {})], [Explore(root)], [], root, [true]);
  }

  /** Work that covers at least as much keeps every entry in its place. */
  lemma EntryPlacedGrows(g: Succ, rep: Rep, pend: seq<Mark>, order: seq<Block>, pend': seq<Mark>, order': seq<Block>,
                         i: int, e: Entry, clean: bool)
    requires EntryPlaced(g, rep, pend, order, i, e, clean)
    requires forall c {:trigger Covered(rep, pend', order', i, c)} :: Covered(rep, pend, order, i, c) ==>
               Covered(rep, pend', order', i, c)
    ensures EntryPlaced(g, rep, pend', order', i, e, clean)
  {
    hide Covered, QEdge, Met, SameComponent;
    if clean {
      forall x {:trigger NotedAt(g, rep, pend', order', i, e, x)} | x in rep && rep[x] != x
        ensures NotedAt(g, rep, pend', order', i, e, x)
      {
        assert NotedAt(g, rep, pend, order, i, e, x);
        if !Met(g, e.path, e.bag, x) {
          var c :| SameComponent(g, c, x) && Covered(rep, pend, order, i, c);
          assert Covered(rep, pend', order', i, c);
        }
      }
    } else {
      var p :| Covered(rep, pend, order, i, p) && (p == rep[e.bag] || QEdge(g, rep, p, rep[e.bag]));
      assert Covered(rep, pend', order', i, p);
    }
  }

  /** Work that was popped because its classes are listed. */
  lemma HeadedTop(g: Succ, rep: Rep, stack: seq<Entry>, pend: seq<Mark>, order: seq<Block>, pend': seq<Mark>,
                  order': seq<Block>, root: Block)
    requires Headed(g, rep, stack, pend, order, root) && Relisted(rep, pend, order, pend', order')
    ensures Headed(g, rep, stack, pend', order', root)
  {
    hide Clean, Below, Placed, EntriesLive, EntryPlaced;
    var kept :| Nested(g, rep, stack, pend, order, root, kept);
    forall i {:trigger pend'[i]} | 0 <= i < |pend'| && pend'[i].Explore?
      ensures Placed(g, rep, stack, pend', order', kept, i)
    {
      assert pend'[i] == pend[i] && pend'[..i] == pend[..i];
      PlacedParts(g, rep, stack, pend, order, kept, i, pend[..i]);
      var k := |Unexplored(pend[..i])|;
      EntryPlacedGrows(g, rep, pend, order, pend', order', i, stack[k], kept[k]);
      PlacedIntro(g, rep, stack, pend', order', kept, i, pend[..i]);
    }
    assert Nested(g, rep, stack, pend', order', root, kept);
  }

  /** Some bag of the component of `x` is listed. */
  ghost predicate Known(g: Succ, order: seq<Block>, x: Block) {
    exists c :: c in order && SameComponent(g, c, x)
  }

  /** Either the entry on top is clean, and meets every component in which bags were merged and none is listed, or its
      class is listed. */
  lemma TopPlaced(g: Succ, rep: Rep, stack: seq<Entry>, base: seq<Mark>, order: seq<Block>, root: Block,
                  kept: seq<bool>)
    requires IsRep(g, rep) && TopoOrder(g, rep, order) && |stack| > 0
    requires Nested(g, rep, stack, base + [Explore(stack[|stack| - 1].bag)], order, root, kept)
    requires Unexplored(base) == BagsOf(stack[..|stack| - 1])
    ensures |kept| == |stack|
    ensures !kept[|stack| - 1] ==> stack[|stack| - 1].bag in rep && rep[stack[|stack| - 1].bag] in order
    ensures kept[|stack| - 1] ==> TopNoted(g, rep, order, stack[|stack| - 1])
  {
    hide Nested, Placed;
    var e := stack[|stack| - 1];
    var pend := base + [Explore(e.bag)];
    assert pend[|base|] == Explore(e.bag) && pend[..|base|] == base;
    assert |BagsOf(stack[..|stack| - 1])| == |stack| - 1;
    NestedAt(g, rep, stack, pend, order, root, kept, |base|);
    PlacedParts(g, rep, stack, pend, order, kept, |base|, base);
    EntryTop(g, rep, pend, order, e, kept[|stack| - 1]);
  }

  ghost predicate TopNoted(g: Succ, rep: Rep, order: seq<Block>, e: Entry) {
    forall x {:trigger Known(g, order, x)} :: x in rep && rep[x] != x ==> Met(g, e.path, e.bag, x) || Known(g, order, x)
  }

  lemma EntryTop(g: Succ, rep: Rep, pend: seq<Mark>, order: seq<Block>, e: Entry, clean: bool)
    requires TopoOrder(g, rep, order) && |pend| > 0 && EntryPlaced(g, rep, pend, order, |pend| - 1, e, clean)
    ensures !clean ==> e.bag in rep && rep[e.bag] in order
    ensures clean ==> TopNoted(g, rep, order, e)
  {
    hide TopoOrder, QEdge, Met, SameComponent;
    if clean {
      forall x {:trigger Known(g, order, x)} | x in rep && rep[x] != x
        ensures Met(g, e.path, e.bag, x) || Known(g, order, x)
      {
        assert NotedAt(g, rep, pend, order, |pend| - 1, e, x);
      }
    } else {
      DoomedTop(g, rep, pend, order, |pend| - 1, e.bag);
    }
  }

  lemma DoomedTop(g: Succ, rep: Rep, pend: seq<Mark>, order: seq<Block>, i: int, b: Block)
    requires TopoOrder(g, rep, order) && |pend| > 0 && i == |pend| - 1 && Doomed(g, rep, pend, order, i, b)
    ensures b in rep && rep[b] in order
  {
    hide TopoOrder, QEdge;
    var p :| Covered(rep, pend, order, i, p) && (p == rep[b] || QEdge(g, rep, p, rep[b]));
    ListedChild(g, rep, order, p, rep[b]);
  }

  lemma ListedChild(g: Succ, rep: Rep, order: seq<Block>, p: Block, c: Block)
    requires TopoOrder(g, rep, order) && p in order && (p == c || QEdge(g, rep, p, c))
    ensures c in order
  {
    var i :| 0 <= i < |order| && order[i] == p;
    if p != c {
      assert c in order[..i];
    }
  }

  /** The positions below the top, when the top is replaced by work that covers it. */
  lemma PlacedBelow(g: Succ, rep: Rep, stack: seq<Entry>, base: seq<Mark>, new_: seq<Mark>, order: seq<Block>,
                    order': seq<Block>, root: Block, kept: seq<bool>, stack': seq<Entry>, kept': seq<bool>, i: int)
    requires |stack| > 0 && |kept| == |stack|
    requires Nested(g, rep, stack, base + [Explore(stack[|stack| - 1].bag)], order, root, kept)
    requires Unexplored(base) == BagsOf(stack[..|stack| - 1]) && stack[|stack| - 1].bag in rep
    requires forall x :: x in order ==> x in order'
    requires Covered(rep, base + new_, order', |base| - 1, rep[stack[|stack| - 1].bag])
    requires |stack'| >= |stack| - 1 && forall k :: 0 <= k < |stack| - 1 ==> stack'[k] == stack[k]
    requires |kept'| >= |stack| - 1 && forall k :: 0 <= k < |stack| - 1 ==> kept'[k] == kept[k]
    requires 0 <= i < |base| && base[i].Explore?
    ensures Placed(g, rep, stack', base + new_, order', kept', i)
  {
    hide Nested, Covered, EntryPlaced, Unexplored, Placed;
    var top := Explore(stack[|stack| - 1].bag);
    var pend, pend' := base + [top], base + new_;
    assert pend[i] == base[i] && pend[..i] == base[..i] && pend'[..i] == base[..i];
    NestedAt(g, rep, stack, pend, order, root, kept, i);
    PlacedParts(g, rep, stack, pend, order, kept, i, base[..i]);
    var k := |Unexplored(base[..i])|;
    UnexploredAt(base, i);
    assert |BagsOf(stack[..|stack| - 1])| == |stack| - 1;
    forall c {:trigger Covered(rep, pend', order', i, c)} | Covered(rep, pend, order, i, c)
      ensures Covered(rep, pend', order', i, c)
    {
      CoveredReplace(rep, base, top, new_, order, order', i, c);
    }
    EntryPlacedGrows(g, rep, pend, order, pend', order', i, stack[k], kept[k]);
    PlacedIntro(g, rep, stack', pend', order', kept', i, base[..i]);
  }

  lemma CoveredReplace(rep: Rep, base: seq<Mark>, top: Mark, new_: seq<Mark>, order: seq<Block>, order': seq<Block>,
                       i: int, c: Block)
    requires Covered(rep, base + [top], order, i, c) && i < |base| && top.id in rep
    requires forall x :: x in order ==> x in order'
    requires Covered(rep, base + new_, order', |base| - 1, rep[top.id])
    ensures Covered(rep, base + new_, order', i, c)
  {
    var pend, pend' := base + [top], base + new_;
    forall j | i < j < |pend| && 0 <= j && pend[j].id in rep
      ensures Covered(rep, pend', order', i, rep[pend[j].id])
    {
      if j < |base| {
        assert pend'[j] == pend[j];
      }
    }
    CoveredBelow(rep, pend, pend', order, order', i, c);
  }

  lemma {:induction false} UnexploredAt(pend: seq<Mark>, i: nat)
    requires i < |pend| && pend[i].Explore?
    ensures |Unexplored(pend[..i])| < |Unexplored(pend)|
  {
    var n := |pend| - 1;
    if i < n {
      UnexploredAt(pend[..n], i);
      assert pend[..n][..i] == pend[..i];
    }
  }

  /** The entry on top is dropped, its class being listed. */
  lemma HeadedDrop(g: Succ, rep: Rep, stack: seq<Entry>, base: seq<Mark>, order: seq<Block>, order': seq<Block>,
                   root: Block)
    requires |stack| > 0 && Headed(g, rep, stack, base + [Explore(stack[|stack| - 1].bag)], order, root)
    requires Unexplored(base) == BagsOf(stack[..|stack| - 1]) && stack[|stack| - 1].bag in rep
    requires (forall x :: x in order ==> x in order') && rep[stack[|stack| - 1].bag] in order'
    ensures Headed(g, rep, stack[..|stack| - 1], base, order', root)
  {
    hide Clean, Below, Placed, Covered, EntriesLive;
    var kept :| Nested(g, rep, stack, base + [Explore(stack[|stack| - 1].bag)], order, root, kept);
    var n := |stack| - 1;
    assert base + [] == base;
    ListedCovered(rep, base, order', |base| - 1, rep[stack[n].bag]);
    forall i {:trigger base[i]} | 0 <= i < |base| && base[i].Explore?
      ensures Placed(g, rep, stack[..n], base, order', kept[..n], i)
    {
      PlacedBelow(g, rep, stack, base, [], order, order', root, kept, stack[..n], kept[..n], i);
    }
    assert Nested(g, rep, stack[..n], base, order', root, kept[..n]);
  }

  lemma ListedCovered(rep: Rep, pend: seq<Mark>, order: seq<Block>, i: int, c: Block)
    requires c in order
    ensures Covered(rep, pend, order, i, c)
  {
  }

  lemma SameTrans(g: Succ, a: Block, b: Block, c: Block)
    requires SameComponent(g, a, b) && SameComponent(g, b, c)
    ensures SameComponent(g, a, c) && SameComponent(g, c, a)
  {
    ReachTrans(g, a, b, c);
    ReachTrans(g, c, b, a);
  }

  lemma SameSym(g: Succ, a: Block, b: Block)
    requires SameComponent(g, a, b)
    ensures SameComponent(g, b, a)
  {
  }

  lemma ClassOf(g: Succ, rep: Rep, x: Block)
    requires Connected(g, rep) && x in rep
    ensures SameComponent(g, x, rep[x]) && SameComponent(g, rep[x], x)
  {
  }

  /** A child of a clean entry is clean, unless its class is listed. */
  lemma CleanChild(g: Succ, rep: Rep, root: Block, order: seq<Block>, e: Entry, kid: Entry)
    requires Closed(g) && IsRep(g, rep) && Connected(g, rep) && TopoOrder(g, rep, order)
    requires Clean(g, rep, root, e) && TopNoted(g, rep, order, e) && kid.bag !in order
    requires rep[e.bag] !in Image(rep, e.visited) && kid.bag in Live(rep) && QEdge(g, rep, rep[e.bag], kid.bag)
    requires kid.path == e.path + [rep[e.bag]] && kid.visited == Image(rep, e.visited) + {rep[e.bag]}
    ensures Clean(g, rep, root, kid)
  {
    hide Reach, SameComponent, Connected, Through, TopNoted, Distinct, IsRep, TopoOrder, QEdge;
    CleanIn(g, rep, root, e);
    KidReached(g, rep, root, e, kid);
    DistinctChild(g, rep, e, kid);
    forall x | x in g
      ensures Through(g, rep, root, kid.path, kid.bag, x)
    {
      ThroughChild(g, rep, root, order, e, kid, x);
    }
  }

  lemma KidReached(g: Succ, rep: Rep, root: Block, e: Entry, kid: Entry)
    requires Closed(g) && IsRep(g, rep) && Connected(g, rep) && e.bag in rep && Reach(g, root, e.bag)
    requires QEdge(g, rep, rep[e.bag], kid.bag)
    ensures Reach(g, root, rep[e.bag]) && Reach(g, root, kid.bag)
  {
    hide Reach;
    var t := rep[e.bag];
    assert SameComponent(g, e.bag, t);
    QEdgeReach(g, rep, t, kid.bag);
    ReachTrans(g, root, e.bag, t);
    ReachTrans(g, root, t, kid.bag);
  }

  lemma DistinctChild(g: Succ, rep: Rep, e: Entry, kid: Entry)
    requires IsRep(g, rep) && Distinct(g, rep, e)
    requires rep[e.bag] !in Image(rep, e.visited) && kid.bag in Live(rep) && QEdge(g, rep, rep[e.bag], kid.bag)
    requires kid.path == e.path + [rep[e.bag]] && kid.visited == Image(rep, e.visited) + {rep[e.bag]}
    ensures Distinct(g, rep, kid)
  {
    hide QEdge;
    var t := rep[e.bag];
    var n := |e.path|;
    assert kid.path[n] == t && rep[t] == t;
    forall i | 0 <= i < |kid.path|
      ensures kid.path[i] in rep && rep[kid.path[i]] in Image(rep, kid.visited)
    {
      var c := rep[kid.path[i]];
      assert c in kid.visited && rep[c] == c;
    }
    forall i | 0 < i < |kid.path|
      ensures QEdge(g, rep, rep[kid.path[i - 1]], rep[kid.path[i]])
    {
      if i < n {
        assert kid.path[i] == e.path[i];
      }
    }
  }

  lemma ThroughChild(g: Succ, rep: Rep, root: Block, order: seq<Block>, e: Entry, kid: Entry, x: Block)
    requires Closed(g) && IsRep(g, rep) && Connected(g, rep) && TopoOrder(g, rep, order) && x in g
    requires e.bag in rep && Reach(g, root, e.bag) && (forall y :: y in g ==> Through(g, rep, root, e.path, e.bag, y))
    requires TopNoted(g, rep, order, e) && kid.bag !in order
    requires kid.bag in Live(rep) && QEdge(g, rep, rep[e.bag], kid.bag) && kid.path == e.path + [rep[e.bag]]
    ensures Through(g, rep, root, kid.path, kid.bag, x)
  {
    hide Reach, SameComponent, QEdge, TopoOrder, TopNoted, Led, NamesEntry, Connected, Closed;
    var t := rep[e.bag];
    var n := |e.path|;
    assert kid.path[n] == t && rep[t] == t;
    assert Through(g, rep, root, e.path, e.bag, x);
    ClassOf(g, rep, e.bag);
    forall i | 0 <= i < |kid.path| && SameComponent(g, kid.path[i], x)
      ensures Led(g, rep, root, kid.path, i + 1, x)
    {
      if i < n {
        assert kid.path[i] == e.path[i];
        LedLonger(g, rep, root, e.path, kid.path, i + 1, i + 1, x);
      } else {
        LedToBag(g, rep, root, e, t, kid.path, x);
      }
    }
    if SameComponent(g, kid.bag, x) {
      if SameComponent(g, t, x) {
        LedToBag(g, rep, root, e, t, kid.path, x);
      } else {
        KidReached(g, rep, root, e, kid);
        EntersKid(g, rep, root, order, e, kid, x);
      }
    }
  }

  /** An edge into a component from outside leads to the bag of an entry, unless bags of the component were merged. Then
      the path has met the component, or it is listed. */
  lemma EntersKid(g: Succ, rep: Rep, root: Block, order: seq<Block>, e: Entry, kid: Entry, x: Block)
    requires Closed(g) && IsRep(g, rep) && Connected(g, rep) && TopoOrder(g, rep, order)
    requires e.bag in rep && Reach(g, root, rep[e.bag]) && Through(g, rep, root, e.path, e.bag, x)
    requires TopNoted(g, rep, order, e) && kid.bag !in order && kid.path == e.path + [rep[e.bag]]
    requires kid.bag in Live(rep) && QEdge(g, rep, rep[e.bag], kid.bag)
    requires SameComponent(g, kid.bag, x) && !SameComponent(g, rep[e.bag], x)
    ensures NamesEntry(g, rep, root, x, kid.bag) || Led(g, rep, root, kid.path, |kid.path|, x)
  {
    hide Reach, SameComponent, TopoOrder, Led, Connected, Closed, NamesEntry, TopNoted;
    var t, y := rep[e.bag], kid.bag;
    var v, w :| EdgeBetween(g, rep, t, y, v, w);
    ClassOf(g, rep, v);
    ClassOf(g, rep, w);
    ClassOf(g, rep, e.bag);
    SameTrans(g, w, y, x);
    if w == y {
      EnteredBy(g, rep, root, t, v, y, x);
    } else if Met(g, e.path, e.bag, w) {
      if SameComponent(g, e.bag, w) {
        SameTrans(g, e.bag, w, x);
        SameTrans(g, t, e.bag, x);
      }
      var i :| 0 <= i < |e.path| && SameComponent(g, e.path[i], w);
      SameTrans(g, e.path[i], w, x);
      LedLonger(g, rep, root, e.path, kid.path, i + 1, |kid.path|, x);
    } else {
      NotKnown(g, rep, order, e, w, y);
    }
  }

  lemma NotKnown(g: Succ, rep: Rep, order: seq<Block>, e: Entry, w: Block, y: Block)
    requires Closed(g) && IsRep(g, rep) && TopoOrder(g, rep, order) && TopNoted(g, rep, order, e)
    requires w in rep && rep[w] != w && !Met(g, e.path, e.bag, w) && SameComponent(g, w, y) && y in Live(rep)
    ensures y in order
  {
    hide Reach, SameComponent, Met;
    assert Known(g, order, w);
    var c :| c in order && SameComponent(g, c, w);
    SameTrans(g, c, w, y);
    var i :| 0 <= i < |order| && order[i] == c;
    if c != y {
      TopoSeparates(g, rep, order, c, y);
    }
  }

  lemma EnteredBy(g: Succ, rep: Rep, root: Block, t: Block, v: Block, y: Block, x: Block)
    requires Closed(g) && v in g && y in g[v] && y in rep && rep[y] == y && Reach(g, root, t)
    requires SameComponent(g, v, t) && SameComponent(g, t, v) && SameComponent(g, y, x) && !SameComponent(g, t, x)
    ensures NamesEntry(g, rep, root, x, y)
  {
    hide Reach;
    ReachTrans(g, root, t, v);
    ReachEdge(g, v, y);
    ReachTrans(g, root, v, y);
    if SameComponent(g, v, y) {
      SameTrans(g, t, v, y);
      SameTrans(g, t, y, x);
    }
    assert EnteredFrom(g, root, v, y);
  }

  lemma LedLonger(g: Succ, rep: Rep, root: Block, path: seq<Block>, longer: seq<Block>, n: int, m: int, x: Block)
    requires path <= longer && n <= m && Led(g, rep, root, path, n, x)
    ensures Led(g, rep, root, longer, m, x)
  {
    hide NamesEntry;
    var j :| 0 <= j < n && j < |path| && path[j] in rep && NamesEntry(g, rep, root, x, rep[path[j]]);
    assert longer[j] == path[j];
  }

  lemma LedToBag(g: Succ, rep: Rep, root: Block, e: Entry, t: Block, longer: seq<Block>, x: Block)
    requires e.bag in rep && t == rep[e.bag] && t in rep && rep[t] == t && longer == e.path + [t]
    requires Through(g, rep, root, e.path, e.bag, x) && SameComponent(g, e.bag, t) && SameComponent(g, t, x)
    ensures Led(g, rep, root, longer, |longer|, x)
  {
    hide NamesEntry, SameComponent;
    SameTrans(g, e.bag, t, x);
    if NamesEntry(g, rep, root, x, rep[e.bag]) {
      assert longer[|e.path|] == t;
    } else {
      LedLonger(g, rep, root, e.path, longer, |e.path|, |longer|, x);
    }
  }

  lemma CleanIn(g: Succ, rep: Rep, root: Block, e: Entry)
    requires Clean(g, rep, root, e)
    ensures e.bag in rep && Reach(g, root, e.bag) && Distinct(g, rep, e)
    ensures forall i :: 0 <= i < |e.path| ==> e.path[i] in rep
  {
  }

  lemma CleanThrough(g: Succ, rep: Rep, root: Block, e: Entry, x: Block)
    requires Clean(g, rep, root, e) && x in g
    ensures Through(g, rep, root, e.path, e.bag, x)
  {
  }

  /** The entry on top is expanded. */
  lemma HeadedExpand(g: Succ, rep: Rep, stack: seq<Entry>, finished: set<Block>, base: seq<Mark>, order: seq<Block>,
                     root: Block, kids: seq<Entry>)
    requires Closed(g) && IsRep(g, rep) && Connected(g, rep) && TopoOrder(g, rep, order) && |stack| > 0
    requires Headed(g, rep, stack, base + [Explore(stack[|stack| - 1].bag)], order, root)
    requires Unexplored(base) == BagsOf(stack[..|stack| - 1])
    requires ChildEntries(g, rep, stack[|stack| - 1], finished, kids)
    requires rep[stack[|stack| - 1].bag] !in Image(rep, stack[|stack| - 1].visited)
    ensures Headed(g, rep, stack[..|stack| - 1] + kids, base + [Finish(rep[stack[|stack| - 1].bag])] + Marks(kids),
              order, root)
  {
    hide Clean, Below, Placed, Covered, Connected, Closed, TopoOrder, QEdge, EntriesLive, TopNoted;
    var n := |stack| - 1;
    var e := stack[n];
    var t := rep[e.bag];
    var kept :| Nested(g, rep, stack, base + [Explore(e.bag)], order, root, kept);
    TopPlaced(g, rep, stack, base, order, root, kept);
    var new_ := [Finish(t)] + Marks(kids);
    assert base + [Finish(t)] + Marks(kids) == base + new_;
    var stack', kept' := stack[..n] + kids, kept[..n] + KidsClean(kids, order, kept[n]);
    TopCovered(rep, base, Marks(kids), order, t);
    forall k | 0 <= k < |stack'| && kept'[k]
      ensures Clean(g, rep, root, stack'[k])
    {
      if k >= n {
        CleanChild(g, rep, root, order, e, kids[k - n]);
      }
    }
    forall k, l | 0 <= k < l < |stack'| && kept'[k] && kept'[l]
      ensures Below(rep, stack'[k], stack'[l])
    {
      if l >= n {
        CleanIn(g, rep, root, e);
        BelowChild(rep, if k < n then stack[k] else kids[k - n], e, kids[l - n], k >= n);
      }
    }
    forall i {:trigger (base + new_)[i]} | 0 <= i < |base + new_| && (base + new_)[i].Explore?
      ensures Placed(g, rep, stack', base + new_, order, kept', i)
    {
      if i < |base| {
        assert (base + new_)[i] == base[i];
        PlacedBelow(g, rep, stack, base, new_, order, order, root, kept, stack', kept', i);
      } else {
        PlacedChild(g, rep, stack, finished, base, order, kids, kept[n], stack', kept', i);
      }
    }
    assert Nested(g, rep, stack', base + new_, order, root, kept');
  }

  ghost function KidsClean(kids: seq<Entry>, order: seq<Block>, clean: bool): seq<bool> {
    seq(|kids|, k requires 0 <= k < |kids| => clean && kids[k].bag !in order)
  }

  lemma TopCovered(rep: Rep, base: seq<Mark>, above: seq<Mark>, order: seq<Block>, t: Block)
    requires t in rep && rep[t] == t
    ensures Covered(rep, base + ([Finish(t)] + above), order, |base| - 1, t)
  {
    assert (base + ([Finish(t)] + above))[|base|] == Finish(t);
  }

  lemma BelowChild(rep: Rep, low: Entry, e: Entry, kid: Entry, sibling: bool)
    requires e.bag in rep && rep[e.bag] in rep && rep[rep[e.bag]] == rep[e.bag]
    requires forall i :: 0 <= i < |e.path| ==> e.path[i] in rep
    requires kid.path == e.path + [rep[e.bag]] && if sibling then low.path == kid.path else Below(rep, low, e)
    ensures Below(rep, low, kid)
  {
    assert kid.path[|e.path|] == rep[e.bag];
  }

  lemma PlacedChild(g: Succ, rep: Rep, stack: seq<Entry>, finished: set<Block>, base: seq<Mark>, order: seq<Block>,
                    kids: seq<Entry>, clean: bool, stack': seq<Entry>, kept': seq<bool>, i: int)
    requires IsRep(g, rep) && Connected(g, rep) && TopoOrder(g, rep, order) && |stack| > 0
    requires Unexplored(base) == BagsOf(stack[..|stack| - 1])
    requires ChildEntries(g, rep, stack[|stack| - 1], finished, kids)
    requires if clean then TopNoted(g, rep, order, stack[|stack| - 1]) else rep[stack[|stack| - 1].bag] in order
    requires stack' == stack[..|stack| - 1] + kids && |kept'| == |stack'|
    requires forall k :: 0 <= k < |kids| ==> kept'[|stack| - 1 + k] == (clean && kids[k].bag !in order)
    requires var new_ := [Finish(rep[stack[|stack| - 1].bag])] + Marks(kids);
             |base| <= i < |base + new_| && (base + new_)[i].Explore?
    ensures var new_ := [Finish(rep[stack[|stack| - 1].bag])] + Marks(kids);
            Placed(g, rep, stack', base + new_, order, kept', i)
  {
    hide TopoOrder, Connected, TopNoted, EntryPlaced, Placed, QEdge;
    var e := stack[|stack| - 1];
    var new_ := [Finish(rep[e.bag])] + Marks(kids);
    var pend := base + new_;
    var j := i - |base| - 1;
    assert pend[|base|] == Finish(rep[e.bag]);
    assert 0 <= j < |kids|;
    var below := (base + [Finish(rep[e.bag])]) + Marks(kids[..j]);
    assert pend[..i] == below;
    UnexploredMarks(base + [Finish(rep[e.bag])], kids[..j]);
    UnexploredPush(base, Finish(rep[e.bag]));
    assert |Unexplored(below)| == |stack| - 1 + j;
    assert stack'[|stack| - 1 + j] == kids[j];
    KidPlaced(g, rep, pend, order, i, e, kids[j], clean);
    PlacedIntro(g, rep, stack', pend, order, kept', i, below);
  }

  lemma KidPlaced(g: Succ, rep: Rep, pend: seq<Mark>, order: seq<Block>, i: int, e: Entry, kid: Entry, clean: bool)
    requires IsRep(g, rep) && Connected(g, rep) && TopoOrder(g, rep, order) && e.bag in rep && kid.bag in Live(rep)
    requires if clean then TopNoted(g, rep, order, e) else rep[e.bag] in order
    requires QEdge(g, rep, rep[e.bag], kid.bag) && kid.path == e.path + [rep[e.bag]]
    ensures EntryPlaced(g, rep, pend, order, i, kid, clean && kid.bag !in order)
  {
    hide TopoOrder, Connected, QEdge, SameComponent;
    if clean && kid.bag !in order {
      forall x {:trigger NotedAt(g, rep, pend, order, i, kid, x)} | x in rep && rep[x] != x
        ensures NotedAt(g, rep, pend, order, i, kid, x)
      {
        if Met(g, e.path, e.bag, x) {
          MetChild(g, rep, e, kid, x);
        } else {
          assert Known(g, order, x);
          var c :| c in order && SameComponent(g, c, x);
          ListedCovered(rep, pend, order, i, c);
        }
      }
    } else {
      ListedKid(g, rep, order, e, kid, clean);
      ListedCovered(rep, pend, order, i, kid.bag);
    }
  }

  lemma ListedKid(g: Succ, rep: Rep, order: seq<Block>, e: Entry, kid: Entry, clean: bool)
    requires TopoOrder(g, rep, order) && e.bag in rep && QEdge(g, rep, rep[e.bag], kid.bag)
    requires kid.bag in order || rep[e.bag] in order
    ensures kid.bag in order
  {
    if kid.bag !in order {
      ListedChild(g, rep, order, rep[e.bag], kid.bag);
    }
  }

  lemma MetChild(g: Succ, rep: Rep, e: Entry, kid: Entry, x: Block)
    requires Connected(g, rep) && e.bag in rep && Met(g, e.path, e.bag, x) && kid.path == e.path + [rep[e.bag]]
    ensures Met(g, kid.path, kid.bag, x)
  {
    hide Reach, SameComponent, Connected;
    ClassOf(g, rep, e.bag);
    if SameComponent(g, e.bag, x) {
      SameTrans(g, rep[e.bag], e.bag, x);
      assert kid.path[|e.path|] == rep[e.bag];
    } else {
      var i :| 0 <= i < |e.path| && SameComponent(g, e.path[i], x);
      assert kid.path[i] == e.path[i];
    }
  }

  // ---------------------------------------------------------------------------
  // A turn that collapses a loop

  /** The class `c` is among those of the path behind position `n`. */
  ghost predicate FromEnd(rep: Rep, path: seq<Block>, n: int, c: Block) {
    exists k :: n < k < |path| && 0 <= k && path[k] in rep && rep[path[k]] == c
  }

  /** The classes of the path behind position `n`, none of which was `t`, have been merged into `t`, and no others. */
  ghost predicate Pulled(rep0: Rep, rep: Rep, path: seq<Block>, n: int, t: Block) {
    && (forall k :: n < k < |path| && 0 <= k ==> path[k] in rep && rep[path[k]] == t)
    && (forall i :: 0 <= i < |path| && path[i] in rep0 && rep0[path[i]] == t ==> i <= n)
    && (forall x :: x in rep0 ==> x in rep && (rep[x] == rep0[x] || (rep[x] == t && FromEnd(rep0, path, n, rep0[x]))))
  }

  /** Of the visited classes only `t` and those that were merged into it are gone. */
  ghost predicate StillVisited(rep0: Rep, path: seq<Block>, n: int, visited: set<Block>, rest: set<Block>, t: Block) {
    forall v :: v in visited && v !in rest ==> v == t || FromEnd(rep0, path, n, v)
  }

  lemma PulledNothing(rep: Rep, path: seq<Block>, visited: set<Block>, t: Block)
    ensures Pulled(rep, rep, path, |path| - 1, t) && StillVisited(rep, path, |path| - 1, visited, visited, t)
  {
  }

  lemma PulledStep(rep0: Rep, rep: Rep, path: seq<Block>, n: nat, visited: set<Block>, rest: set<Block>, t: Block)
    requires Pulled(rep0, rep, path, n, t) && StillVisited(rep0, path, n, visited, rest, t)
    requires n < |path| && path[n] in rep && rep[path[n]] != t && Coarser(rep0, rep)
    ensures Pulled(rep0, Merged(rep, rep[path[n]], t), path, n - 1, t)
    ensures StillVisited(rep0, path, n - 1, visited, rest - {rep[path[n]]}, t)
  {
    var m := rep[path[n]];
    assert m == rep0[path[n]];
    FromEndNext(rep0, path, n);
    hide FromEnd;
    var rep' := Merged(rep, m, t);
    forall x | x in rep0
      ensures x in rep' && (rep'[x] == rep0[x] || (rep'[x] == t && FromEnd(rep0, path, n - 1, rep0[x])))
    {
      assert rep[x] == m ==> rep0[x] == m;
    }
  }

  lemma FromEndNext(rep: Rep, path: seq<Block>, n: nat)
    requires n < |path| && path[n] in rep
    ensures FromEnd(rep, path, n - 1, rep[path[n]])
    ensures forall c :: FromEnd(rep, path, n, c) ==> FromEnd(rep, path, n - 1, c)
  {
  }

  /** A class that has been listed is not merged. */
  lemma ListedStays(g: Succ, rep0: Rep, rep: Rep, path: seq<Block>, n: int, t: Block, order: seq<Block>, x: Block)
    requires Closed(g) && IsRep(g, rep0) && Connected(g, rep0) && IsRep(g, rep) && Connected(g, rep)
    requires TopoOrder(g, rep0, order)
    requires Pulled(rep0, rep, path, n, t) && t in Live(rep0) && x in rep0 && (t in order || rep0[x] in order)
    ensures x in rep && rep[x] == rep0[x]
  {
    hide Reach, TopoOrder, FromEnd, Closed;
    var c := rep0[x];
    if rep[x] != c {
      assert SameComponent(g, x, t) && SameComponent(g, x, c);
      ReachTrans(g, t, x, c);
      ReachTrans(g, c, x, t);
      TopoSeparates(g, rep0, order, t, c);
      TopoSeparates(g, rep0, order, c, t);
    }
  }

  /** On a clean path the loop that was found ends at the place of `t`, and the classes before it are as they were. */
  lemma PulledToPlace(g: Succ, rep0: Rep, rep: Rep, e: Entry, n: nat, t: Block)
    requires Distinct(g, rep0, e) && OnPath(rep0, e.path, t) && n < |e.path|
    requires Pulled(rep0, rep, e.path, n, t) && e.path[n] in rep && rep[e.path[n]] == t
    ensures rep0[e.path[n]] == t && forall i :: 0 <= i <= n ==> e.path[i] in rep && rep[e.path[i]] == rep0[e.path[i]]
    ensures forall i :: 0 <= i <= n ==> !FromEnd(rep0, e.path, n, rep0[e.path[i]])
  {
    var q :| 0 <= q < |e.path| && e.path[q] in rep0 && rep0[e.path[q]] == t;
    forall i | 0 <= i <= n
      ensures !FromEnd(rep0, e.path, n, rep0[e.path[i]])
    {
    }
  }

  lemma QEdgeCoarser(g: Succ, rep0: Rep, rep: Rep, x: Block, y: Block)
    requires Coarser(rep0, rep) && x in rep0 && y in rep0 && rep0[x] == x && rep0[y] == y && QEdge(g, rep0, x, y)
    ensures QEdge(g, rep, rep[x], rep[y])
  {
    var v, w :| EdgeBetween(g, rep0, x, y, v, w);
    assert EdgeBetween(g, rep, rep[x], rep[y], v, w);
  }

  /** What is known where a loop was collapsed at the class `t`, up to position `n` of the path of `e`. */
  ghost predicate Collapsing(g: Succ, rep0: Rep, rep: Rep, e: Entry, n: int, t: Block) {
    && 0 <= n < |e.path| && e.bag in rep0 && t == rep0[e.bag] && e.path[n] in rep && rep[e.path[n]] == t
    && t in Image(rep0, e.visited) && t in Live(rep)
    && Closed(g) && IsRep(g, rep0) && Connected(g, rep0) && IsRep(g, rep) && Connected(g, rep) && Coarser(rep0, rep)
    && EntryOk(g, rep0, e) && Pulled(rep0, rep, e.path, n, t)
  }

  /** From where the loop was found, the path stays in the component of `t`. */
  lemma LoopSame(g: Succ, rep0: Rep, rep: Rep, e: Entry, n: int, t: Block, k: int)
    requires Collapsing(g, rep0, rep, e, n, t) && n <= k < |e.path|
    ensures SameComponent(g, e.path[k], t)
  {
    hide Reach, SameComponent, EntryOk, Image, Coarser, Closed, IsRep, Live, FromEnd;
    assert rep[e.path[k]] == t;
  }

  lemma CollapsedAt(g: Succ, rep0: Rep, rep: Rep, root: Block, e: Entry, n: int, t: Block)
    requires Collapsing(g, rep0, rep, e, n, t) && Clean(g, rep0, root, e)
    ensures rep0[e.path[n]] == t && forall i :: 0 <= i <= n ==> e.path[i] in rep && rep[e.path[i]] == rep0[e.path[i]]
    ensures forall i :: 0 <= i <= n ==> !FromEnd(rep0, e.path, n, rep0[e.path[i]])
  {
    hide Pulled, FromEnd, Distinct, QEdge;
    var u :| u in e.visited && u in rep0 && rep0[u] == t;
    assert OnPath(rep0, e.path, rep0[u]);
    PulledToPlace(g, rep0, rep, e, n, t);
  }

  lemma PulledFrom(g: Succ, rep0: Rep, rep: Rep, e: Entry, n: int, t: Block, x: Block)
    requires Collapsing(g, rep0, rep, e, n, t) && x in rep0
    ensures x in rep && (rep[x] != rep0[x] ==> FromEnd(rep0, e.path, n, rep0[x]))
  {
    hide EntryOk, Connected, Closed, FromEnd, Image, Coarser;
  }

  lemma ClassSame(g: Succ, rep0: Rep, rep: Rep, e: Entry, n: int, t: Block, x: Block)
    requires Collapsing(g, rep0, rep, e, n, t) && x in rep0
    ensures SameComponent(g, x, rep0[x]) && SameComponent(g, rep0[x], x)
  {
    hide EntryOk, Pulled, Reach, Image, Coarser;
  }

  lemma CollapsingReps(g: Succ, rep0: Rep, rep: Rep, e: Entry, n: int, t: Block)
    requires Collapsing(g, rep0, rep, e, n, t)
    ensures IsRep(g, rep0) && IsRep(g, rep) && Coarser(rep0, rep) && rep0.Keys == rep.Keys && t in rep && rep[t] == t
    ensures 0 <= n < |e.path| && e.bag in rep0 && t == rep0[e.bag]
  {
    hide EntryOk, Pulled, Connected, Closed;
  }

  lemma RetryPlace(g: Succ, rep0: Rep, rep: Rep, e: Entry, n: int, t: Block)
    requires Collapsing(g, rep0, rep, e, n, t)
    ensures e.path[n] in rep && rep[e.path[n]] == t
  {
  }

  lemma CollapsingParts(g: Succ, rep0: Rep, rep: Rep, e: Entry, n: int, t: Block)
    requires Collapsing(g, rep0, rep, e, n, t)
    ensures Closed(g) && Connected(g, rep0) && Connected(g, rep)
  {
  }

  /** A bag of an entry stays one while it is not merged. */
  lemma NamesStays(g: Succ, rep0: Rep, rep: Rep, root: Block, x: Block, h: Block)
    requires NamesEntry(g, rep0, root, x, h) && h in rep && rep[h] == h
    ensures NamesEntry(g, rep, root, x, h)
  {
  }

  lemma LedStays(g: Succ, rep0: Rep, rep: Rep, root: Block, path: seq<Block>, n: int, x: Block)
    requires IsRep(g, rep) && Led(g, rep0, root, path, n, x)
    requires forall j :: 0 <= j < n && j < |path| ==> path[j] in rep && path[j] in rep0 && rep[path[j]] == rep0[path[j]]
    ensures Led(g, rep, root, path, n, x)
  {
    hide NamesEntry;
    var j :| 0 <= j < n && j < |path| && path[j] in rep0 && NamesEntry(g, rep0, root, x, rep0[path[j]]);
    NamesStays(g, rep0, rep, root, x, rep0[path[j]]);
  }

  lemma ThroughStays(g: Succ, rep0: Rep, rep: Rep, root: Block, path: seq<Block>, bag: Block, x: Block)
    requires IsRep(g, rep) && Through(g, rep0, root, path, bag, x)
    requires forall j :: 0 <= j < |path| ==> path[j] in rep && path[j] in rep0 && rep[path[j]] == rep0[path[j]]
    requires bag in rep && bag in rep0 && rep[bag] == rep0[bag]
    ensures Through(g, rep, root, path, bag, x)
  {
    hide NamesEntry, Led, SameComponent;
    forall i | 0 <= i < |path| && SameComponent(g, path[i], x)
      ensures Led(g, rep, root, path, i + 1, x)
    {
      LedStays(g, rep0, rep, root, path, i + 1, x);
    }
    if SameComponent(g, bag, x) {
      if NamesEntry(g, rep0, root, x, rep0[bag]) {
        NamesStays(g, rep0, rep, root, x, rep0[bag]);
      } else {
        LedStays(g, rep0, rep, root, path, |path|, x);
      }
    }
  }

  /** When a loop is collapsed, its component keeps the bag of an entry: the one that the path has come through. */
  lemma EntryStays(g: Succ, rep0: Rep, rep: Rep, root: Block, e: Entry, n: int, t: Block, x: Block)
    requires Collapsing(g, rep0, rep, e, n, t) && Clean(g, rep0, root, e) && x in g && HasEntry(g, rep0, root, x)
    ensures HasEntry(g, rep, root, x)
  {
    hide Collapsing, Clean, NamesEntry, SameComponent, Led, FromEnd;
    CollapsingReps(g, rep0, rep, e, n, t);
    var h :| NamesEntry(g, rep0, root, x, h);
    NamesIn(g, rep0, root, x, h);
    PulledFrom(g, rep0, rep, e, n, t, h);
    if rep[h] == h {
      NamesStays(g, rep0, rep, root, x, h);
    } else {
      EntryBefore(g, rep0, rep, root, e, n, t, h, x);
      CollapsedAt(g, rep0, rep, root, e, n, t);
      CleanIn(g, rep0, root, e);
      LedStays(g, rep0, rep, root, e.path, n + 1, x);
      LedHas(g, rep, root, e.path, n + 1, x);
    }
  }

  lemma NamesIn(g: Succ, rep: Rep, root: Block, x: Block, h: Block)
    requires NamesEntry(g, rep, root, x, h)
    ensures h in g && h in rep && rep[h] == h && SameComponent(g, x, h)
  {
  }

  lemma LedHas(g: Succ, rep: Rep, root: Block, path: seq<Block>, n: int, x: Block)
    requires Led(g, rep, root, path, n, x)
    ensures HasEntry(g, rep, root, x)
  {
    hide NamesEntry;
    var j :| 0 <= j < n && j < |path| && path[j] in rep && NamesEntry(g, rep, root, x, rep[path[j]]);
  }

  /** An entry of the component lies on the path before the place where the loop was found. */
  lemma EntryBefore(g: Succ, rep0: Rep, rep: Rep, root: Block, e: Entry, n: int, t: Block, h: Block, x: Block)
    requires Collapsing(g, rep0, rep, e, n, t) && Clean(g, rep0, root, e) && x in g
    requires h in rep0 && rep0[h] == h && FromEnd(rep0, e.path, n, h) && SameComponent(g, x, h)
    ensures Led(g, rep0, root, e.path, n + 1, x)
  {
    hide Collapsing, SameComponent, Clean, Led;
    CollapsingReps(g, rep0, rep, e, n, t);
    var k :| n < k < |e.path| && 0 <= k && e.path[k] in rep0 && rep0[e.path[k]] == h;
    CleanThrough(g, rep0, root, e, x);
    LoopSame(g, rep0, rep, e, n, t, n);
    LoopSame(g, rep0, rep, e, n, t, k);
    ClassSame(g, rep0, rep, e, n, t, e.path[k]);
    SameSym(g, e.path[k], t);
    SameTrans(g, e.path[n], t, e.path[k]);
    SameTrans(g, e.path[n], e.path[k], h);
    SameSym(g, x, h);
    SameTrans(g, e.path[n], h, x);
  }

  lemma EntriesStay(g: Succ, rep0: Rep, rep: Rep, root: Block, e: Entry, n: int, t: Block, order: seq<Block>,
                    clean: bool)
    requires Collapsing(g, rep0, rep, e, n, t) && EntriesLive(g, rep0, root) && TopoOrder(g, rep0, order)
    requires if clean then Clean(g, rep0, root, e) else t in order
    ensures EntriesLive(g, rep, root)
  {
    hide Collapsing, Reach, SameComponent, Clean, NamesEntry, TopoOrder;
    CollapsingReps(g, rep0, rep, e, n, t);
    forall x {:trigger HasEntry(g, rep, root, x)} | x in g && Reach(g, root, x)
      ensures HasEntry(g, rep, root, x)
    {
      assert HasEntry(g, rep0, root, x);
      if clean {
        EntryStays(g, rep0, rep, root, e, n, t, x);
      } else {
        var h :| NamesEntry(g, rep0, root, x, h);
        NamesIn(g, rep0, root, x, h);
        ListedSame(g, rep0, rep, e, n, t, order, h);
        NamesStays(g, rep0, rep, root, x, h);
      }
    }
  }

  /** If the bag on top is listed, nothing is merged. */
  lemma ListedSame(g: Succ, rep0: Rep, rep: Rep, e: Entry, n: int, t: Block, order: seq<Block>, x: Block)
    requires Collapsing(g, rep0, rep, e, n, t) && TopoOrder(g, rep0, order) && t in order && x in rep0
    ensures x in rep && rep[x] == rep0[x]
  {
    hide EntryOk, Pulled, Closed, Connected, TopoOrder, Coarser, Image;
    ListedStays(g, rep0, rep, e.path, n, t, order, x);
  }

  lemma ImageCoarser(rep0: Rep, rep: Rep, s: set<Block>, x: Block)
    requires Coarser(rep0, rep) && x in rep0 && rep0[x] in Image(rep0, s)
    ensures rep[x] in Image(rep, s)
  {
    var u :| u in s && u in rep0 && rep0[u] == rep0[x];
    assert rep[u] == rep[x];
  }

  /** Entries whose classes stay what they were stay clean. */
  lemma CleanStays(g: Succ, rep0: Rep, rep: Rep, root: Block, e: Entry)
    requires IsRep(g, rep0) && IsRep(g, rep) && Coarser(rep0, rep) && Clean(g, rep0, root, e)
    requires forall i :: 0 <= i < |e.path| ==> e.path[i] in rep && rep[e.path[i]] == rep0[e.path[i]]
    requires e.bag in rep && rep[e.bag] == rep0[e.bag]
    ensures Clean(g, rep, root, e)
  {
    CleanIn(g, rep0, root, e);
    DistinctStays(g, rep0, rep, e);
    hide QEdge, Reach, Through, Distinct, IsRep, Coarser;
    forall x | x in g
      ensures Through(g, rep, root, e.path, e.bag, x)
    {
      ThroughStays(g, rep0, rep, root, e.path, e.bag, x);
    }
  }

  lemma DistinctStays(g: Succ, rep0: Rep, rep: Rep, e: Entry)
    requires IsRep(g, rep0) && Coarser(rep0, rep) && Distinct(g, rep0, e)
    requires forall i :: 0 <= i < |e.path| ==> e.path[i] in rep && rep[e.path[i]] == rep0[e.path[i]]
    ensures Distinct(g, rep, e)
  {
    hide QEdge, IsRep, Image;
    forall i | 0 <= i < |e.path|
      ensures rep[e.path[i]] in Image(rep, e.visited)
    {
      ImageCoarser(rep0, rep, e.visited, e.path[i]);
    }
    forall i | 0 < i < |e.path|
      ensures QEdge(g, rep, rep[e.path[i - 1]], rep[e.path[i]])
    {
      EdgeStays(g, rep0, rep, e.path[i - 1], e.path[i]);
    }
    if |e.path| > 0 {
      EdgeStays(g, rep0, rep, e.path[|e.path| - 1], e.bag);
    }
  }

  lemma EdgeStays(g: Succ, rep0: Rep, rep: Rep, x: Block, y: Block)
    requires IsRep(g, rep0) && Coarser(rep0, rep) && x in rep0 && y in rep0 && QEdge(g, rep0, rep0[x], rep0[y])
    ensures QEdge(g, rep, rep[x], rep[y])
  {
    QEdgeCoarser(g, rep0, rep, rep0[x], rep0[y]);
    assert rep0[rep0[x]] == rep0[x] && rep0[rep0[y]] == rep0[y];
  }

  /** A clean entry below stays clean if its bag was not merged and its path ends where the loop was found, or
      before. */
  lemma LowStays(g: Succ, rep0: Rep, rep: Rep, root: Block, low: Entry, e: Entry, n: int, t: Block)
    requires Collapsing(g, rep0, rep, e, n, t) && Clean(g, rep0, root, e) && Clean(g, rep0, root, low)
    requires Below(rep0, low, e)
    requires |low.path| <= n + 1 && low.bag in rep0 && low.bag in rep && rep[low.bag] == rep0[low.bag]
    ensures Clean(g, rep, root, low)
  {
    hide QEdge, Reach, Clean, Distinct, Collapsing, IsRep, Coarser;
    CollapsingReps(g, rep0, rep, e, n, t);
    CollapsedAt(g, rep0, rep, root, e, n, t);
    CleanIn(g, rep0, root, low);
    CleanIn(g, rep0, root, e);
    LowClasses(g, rep0, rep, low, e, n);
    CleanStays(g, rep0, rep, root, low);
  }

  lemma LowClasses(g: Succ, rep0: Rep, rep: Rep, low: Entry, e: Entry, n: int)
    requires Coarser(rep0, rep) && Below(rep0, low, e) && |low.path| <= n + 1 && 0 <= n < |e.path|
    requires forall i :: 0 <= i <= n ==> e.path[i] in rep && rep[e.path[i]] == rep0[e.path[i]]
    ensures forall i :: 0 <= i < |low.path| ==> low.path[i] in rep && rep[low.path[i]] == rep0[low.path[i]]
  {
    forall i | 0 <= i < |low.path|
      ensures low.path[i] in rep && rep[low.path[i]] == rep0[low.path[i]]
    {
      assert rep0[low.path[i]] == rep0[e.path[i]];
    }
  }

  /** One whose path goes further is doomed: its bag follows a class that was merged into the one that is searched
      next. */
  lemma LowDoomed(g: Succ, rep0: Rep, rep: Rep, root: Block, low: Entry, e: Entry, n: int, t: Block, base: seq<Mark>,
                  order: seq<Block>, i: int)
    requires Collapsing(g, rep0, rep, e, n, t) && Clean(g, rep0, root, low) && Below(rep0, low, e)
    requires |low.path| > n + 1 && i < |base|
    ensures Doomed(g, rep, base + [Explore(t)], order, i, low.bag)
  {
    CleanIn(g, rep0, root, low);
    hide QEdge, Reach, Clean, EntryOk;
    var last := |low.path| - 1;
    var p := low.path[last];
    assert rep[p] == t by {
      if last < |e.path| {
        assert rep[e.path[last]] == t;
      } else {
        assert rep0[p] == t && rep0[t] == t;
      }
    }
    EdgeStays(g, rep0, rep, p, low.bag);
    assert (base + [Explore(t)])[|base|] == Explore(t);
    assert Covered(rep, base + [Explore(t)], order, i, t);
  }

  /** So is one whose bag was merged. */
  lemma MergedDoomed(g: Succ, rep0: Rep, rep: Rep, low: Entry, e: Entry, n: int, t: Block, base: seq<Mark>,
                     order: seq<Block>, i: int)
    requires Collapsing(g, rep0, rep, e, n, t) && low.bag in rep0 && low.bag in rep && rep[low.bag] != rep0[low.bag]
    requires i < |base|
    ensures Doomed(g, rep, base + [Explore(t)], order, i, low.bag)
  {
    hide QEdge, Reach, EntryOk, Connected;
    TopIsCovered(rep, base, t, order, i);
    assert rep[low.bag] == t;
  }

  lemma TopIsCovered(rep: Rep, base: seq<Mark>, t: Block, order: seq<Block>, i: int)
    requires t in rep && rep[t] == t && i < |base|
    ensures Covered(rep, base + [Explore(t)], order, i, t)
  {
    assert (base + [Explore(t)])[|base|] == Explore(t);
  }

  lemma DoomedStays(g: Succ, rep0: Rep, rep: Rep, e: Entry, n: int, t: Block, base: seq<Mark>, order: seq<Block>,
                    i: int, b: Block)
    requires Collapsing(g, rep0, rep, e, n, t) && TopoOrder(g, rep0, order) && i < |base|
    requires Doomed(g, rep0, base + [Explore(e.bag)], order, i, b)
    requires forall j :: 0 <= j < |base| ==> base[j].id in rep0
    ensures Doomed(g, rep, base + [Explore(t)], order, i, b)
  {
    hide QEdge, Reach, EntryOk;
    var pend, pend' := base + [Explore(e.bag)], base + [Explore(t)];
    var p :| Covered(rep0, pend, order, i, p) && (p == rep0[b] || QEdge(g, rep0, p, rep0[b]));
    CoveredStays(g, rep0, rep, e, n, t, base, order, i, p);
    if p != rep0[b] {
      assert rep0[rep0[b]] == rep0[b];
      QEdgeCoarser(g, rep0, rep, p, rep0[b]);
      assert rep[rep0[b]] == rep[b];
    } else {
      assert rep0[p] == p && rep[p] == rep[b];
    }
  }

  lemma CoveredStays(g: Succ, rep0: Rep, rep: Rep, e: Entry, n: int, t: Block, base: seq<Mark>, order: seq<Block>,
                     i: int, p: Block)
    requires Collapsing(g, rep0, rep, e, n, t) && TopoOrder(g, rep0, order) && i < |base|
    requires Covered(rep0, base + [Explore(e.bag)], order, i, p)
    requires forall j :: 0 <= j < |base| ==> base[j].id in rep0
    ensures p in rep0 && rep0[p] == p && p in rep && Covered(rep, base + [Explore(t)], order, i, rep[p])
  {
    hide QEdge, Reach, EntryOk;
    var pend, pend' := base + [Explore(e.bag)], base + [Explore(t)];
    if p in order {
      var q :| 0 <= q < |order| && order[q] == p;
      assert p in Live(rep0);
      ListedStays(g, rep0, rep, e.path, n, t, order, p);
    } else {
      var j :| i < j < |pend| && 0 <= j && pend[j].id in rep0 && rep0[pend[j].id] == p;
      assert rep0[p] == p;
      if j < |base| {
        assert pend'[j] == pend[j] && rep[pend[j].id] == rep[p];
      } else {
        assert pend'[|base|] == Explore(t) && p == t;
      }
    }
  }

  /** What was noted below the top stays noted, and the component of the loop is noted there now. */
  lemma NotedStays(g: Succ, rep0: Rep, rep: Rep, e: Entry, n: int, t: Block, base: seq<Mark>, order: seq<Block>, i: int,
                   low: Entry)
    requires Collapsing(g, rep0, rep, e, n, t) && TopoOrder(g, rep0, order) && i < |base|
    requires Noted(g, rep0, base + [Explore(e.bag)], order, i, low)
    requires forall j :: 0 <= j < |base| ==> base[j].id in rep0
    ensures Noted(g, rep, base + [Explore(t)], order, i, low)
  {
    hide Collapsing, SameComponent, TopoOrder, Met, Covered;
    CollapsingReps(g, rep0, rep, e, n, t);
    CollapsingParts(g, rep0, rep, e, n, t);
    var pend, pend' := base + [Explore(e.bag)], base + [Explore(t)];
    forall x {:trigger NotedAt(g, rep, pend', order, i, low, x)} | x in rep && rep[x] != x
      ensures NotedAt(g, rep, pend', order, i, low, x)
    {
      if rep0[x] != x {
        assert NotedAt(g, rep0, pend, order, i, low, x);
        if !Met(g, low.path, low.bag, x) {
          var c :| SameComponent(g, c, x) && Covered(rep0, pend, order, i, c);
          CoveredStays(g, rep0, rep, e, n, t, base, order, i, c);
          ClassOf(g, rep, c);
          SameTrans(g, rep[c], c, x);
        }
      } else {
        NewlyMerged(g, rep0, rep, e, n, t, x);
        TopIsCovered(rep, base, t, order, i);
      }
    }
  }

  lemma NewlyMerged(g: Succ, rep0: Rep, rep: Rep, e: Entry, n: int, t: Block, x: Block)
    requires Collapsing(g, rep0, rep, e, n, t) && x in rep0 && x in rep && rep[x] != rep0[x]
    ensures rep[x] == t && SameComponent(g, t, x)
  {
    hide EntryOk, Reach, Image, Coarser;
    ClassOf(g, rep, x);
  }

  /** The entry with which the search goes on meets what the one on top has met. */
  lemma TopNotedStays(g: Succ, rep0: Rep, rep: Rep, e: Entry, n: int, t: Block, base: seq<Mark>, order: seq<Block>,
                      rest: set<Block>)
    requires Collapsing(g, rep0, rep, e, n, t) && TopoOrder(g, rep0, order) && TopNoted(g, rep0, order, e)
    ensures Noted(g, rep, base + [Explore(t)], order, |base|, Entry(t, e.path[..n], rest))
  {
    hide Collapsing, SameComponent, TopoOrder, Met, Covered, Known;
    CollapsingReps(g, rep0, rep, e, n, t);
    var pend', e' := base + [Explore(t)], Entry(t, e.path[..n], rest);
    forall x {:trigger NotedAt(g, rep, pend', order, |base|, e', x)} | x in rep && rep[x] != x
      ensures NotedAt(g, rep, pend', order, |base|, e', x)
    {
      if rep0[x] != x {
        if Met(g, e.path, e.bag, x) {
          MetStays(g, rep0, rep, e, n, t, x);
        } else {
          assert Known(g, order, x);
          KnownCovered(g, rep, pend', order, |base|, x);
        }
      } else {
        NewlyMerged(g, rep0, rep, e, n, t, x);
        MetBag(g, e'.path, t, x);
      }
    }
  }

  lemma KnownCovered(g: Succ, rep: Rep, pend: seq<Mark>, order: seq<Block>, i: int, x: Block)
    requires Known(g, order, x)
    ensures exists c :: SameComponent(g, c, x) && Covered(rep, pend, order, i, c)
  {
    hide SameComponent;
    var c :| c in order && SameComponent(g, c, x);
    ListedCovered(rep, pend, order, i, c);
  }

  lemma MetBag(g: Succ, path: seq<Block>, bag: Block, x: Block)
    requires SameComponent(g, bag, x)
    ensures Met(g, path, bag, x)
  {
  }

  lemma MetStays(g: Succ, rep0: Rep, rep: Rep, e: Entry, n: int, t: Block, x: Block)
    requires Collapsing(g, rep0, rep, e, n, t) && Met(g, e.path, e.bag, x)
    ensures 0 <= n < |e.path| && Met(g, e.path[..n], t, x)
  {
    hide Collapsing, SameComponent;
    CollapsingReps(g, rep0, rep, e, n, t);
    if SameComponent(g, e.bag, x) {
      ClassSame(g, rep0, rep, e, n, t, e.bag);
      SameTrans(g, t, e.bag, x);
    } else {
      var i :| 0 <= i < |e.path| && SameComponent(g, e.path[i], x);
      if i < n {
        assert e.path[..n][i] == e.path[i];
      } else {
        LoopSame(g, rep0, rep, e, n, t, i);
        SameSym(g, e.path[i], t);
        SameTrans(g, t, e.path[i], x);
      }
    }
  }

  /** The entry with which the search goes on is clean. */
  lemma RetryClean(g: Succ, rep0: Rep, rep: Rep, root: Block, e: Entry, n: int, t: Block, rest: set<Block>)
    requires Collapsing(g, rep0, rep, e, n, t) && Clean(g, rep0, root, e)
    requires StillVisited(rep0, e.path, n, Image(rep0, e.visited), rest, t)
    ensures Clean(g, rep, root, Entry(t, e.path[..n], rest))
  {
    CollapsingParts(g, rep0, rep, e, n, t);
    CollapsingReps(g, rep0, rep, e, n, t);
    RetryReached(g, rep0, root, e, t);
    RetryDistinct(g, rep0, rep, root, e, n, t, rest);
    hide QEdge, Reach, Distinct, FromEnd, Through, Collapsing, Connected;
    forall x | x in g
      ensures Through(g, rep, root, e.path[..n], t, x)
    {
      RetryThrough(g, rep0, rep, root, e, n, t, x);
    }
  }

  lemma RetryReached(g: Succ, rep0: Rep, root: Block, e: Entry, t: Block)
    requires Connected(g, rep0) && Clean(g, rep0, root, e) && t == rep0[e.bag]
    ensures Reach(g, root, t)
  {
    assert SameComponent(g, e.bag, t);
    ReachTrans(g, root, e.bag, t);
  }

  lemma RetryDistinct(g: Succ, rep0: Rep, rep: Rep, root: Block, e: Entry, n: int, t: Block, rest: set<Block>)
    requires Collapsing(g, rep0, rep, e, n, t) && Clean(g, rep0, root, e)
    requires StillVisited(rep0, e.path, n, Image(rep0, e.visited), rest, t)
    ensures Distinct(g, rep, Entry(t, e.path[..n], rest))
  {
    hide QEdge, Clean, FromEnd, Collapsing, Coarser, Reach, IsRep, StillVisited, Image;
    CollapsedAt(g, rep0, rep, root, e, n, t);
    CleanIn(g, rep0, root, e);
    CollapsingReps(g, rep0, rep, e, n, t);
    DistinctSteps(g, rep0, rep, e, n);
    var path := e.path[..n];
    forall i | 0 <= i < n
      ensures path[i] in rep && rep[path[i]] in Image(rep, rest)
    {
      RetryVisited(g, rep0, rep, e, n, t, rest, i);
    }
  }

  lemma DistinctSteps(g: Succ, rep0: Rep, rep: Rep, e: Entry, n: int)
    requires IsRep(g, rep0) && Coarser(rep0, rep) && Distinct(g, rep0, e) && 0 <= n < |e.path|
    ensures forall i, j :: 0 <= i < n && j == i + 1 ==>
              e.path[i] in rep && e.path[j] in rep && QEdge(g, rep, rep[e.path[i]], rep[e.path[j]])
  {
    hide QEdge, IsRep, Image;
    forall i, j | 0 <= i < n && j == i + 1
      ensures e.path[i] in rep && e.path[j] in rep && QEdge(g, rep, rep[e.path[i]], rep[e.path[j]])
    {
      EdgeStays(g, rep0, rep, e.path[i], e.path[j]);
    }
  }

  lemma RetryVisited(g: Succ, rep0: Rep, rep: Rep, e: Entry, n: int, t: Block, rest: set<Block>, i: int)
    requires IsRep(g, rep0) && IsRep(g, rep) && 0 <= i < n < |e.path| && Distinct(g, rep0, e) && e.path[n] in rep0
    requires rep0[e.path[n]] == t
    requires e.path[i] in rep && rep[e.path[i]] == rep0[e.path[i]] && !FromEnd(rep0, e.path, n, rep0[e.path[i]])
    requires StillVisited(rep0, e.path, n, Image(rep0, e.visited), rest, t)
    ensures rep[e.path[i]] in Image(rep, rest)
  {
    hide QEdge, FromEnd;
    var c := rep0[e.path[i]];
    assert c in Image(rep0, e.visited) && c != t;
    assert c in rest;
    assert rep[c] == c;
  }

  lemma RetryThrough(g: Succ, rep0: Rep, rep: Rep, root: Block, e: Entry, n: int, t: Block, x: Block)
    requires Collapsing(g, rep0, rep, e, n, t) && Clean(g, rep0, root, e) && x in g
    ensures 0 <= n < |e.path| && Through(g, rep, root, e.path[..n], t, x)
  {
    hide SameComponent, Collapsing, Clean, Coarser, Led, NamesEntry, FromEnd;
    CollapsingReps(g, rep0, rep, e, n, t);
    CollapsedAt(g, rep0, rep, root, e, n, t);
    CleanIn(g, rep0, root, e);
    CleanThrough(g, rep0, root, e, x);
    var path := e.path[..n];
    forall i | 0 <= i < n && SameComponent(g, path[i], x)
      ensures Led(g, rep, root, path, i + 1, x)
    {
      assert path[i] == e.path[i];
      LedStays(g, rep0, rep, root, e.path, i + 1, x);
      LedShorter(g, rep, root, e.path, n, i + 1, x);
    }
    if SameComponent(g, t, x) {
      LoopSame(g, rep0, rep, e, n, t, n);
      SameTrans(g, e.path[n], t, x);
      LedStays(g, rep0, rep, root, e.path, n + 1, x);
      RetryPlace(g, rep0, rep, e, n, t);
      RetryLed(g, rep, root, e.path, n, t, x);
    }
  }

  lemma RetryLed(g: Succ, rep: Rep, root: Block, path: seq<Block>, n: int, t: Block, x: Block)
    requires 0 <= n < |path| && path[n] in rep && rep[path[n]] == t && t in rep && rep[t] == t
    requires Led(g, rep, root, path, n + 1, x)
    ensures NamesEntry(g, rep, root, x, rep[t]) || Led(g, rep, root, path[..n], n, x)
  {
    hide NamesEntry;
    var j :| 0 <= j < n + 1 && j < |path| && path[j] in rep && NamesEntry(g, rep, root, x, rep[path[j]]);
    if j < n {
      assert path[..n][j] == path[j];
    }
  }

  lemma LedShorter(g: Succ, rep: Rep, root: Block, path: seq<Block>, n: int, m: int, x: Block)
    requires 0 <= m <= n <= |path| && Led(g, rep, root, path, m, x)
    ensures Led(g, rep, root, path[..n], m, x)
  {
    hide NamesEntry;
    var j :| 0 <= j < m && j < |path| && path[j] in rep && NamesEntry(g, rep, root, x, rep[path[j]]);
    assert path[..n][j] == path[j];
  }

  /** Where no class is merged, clean entries stay clean. */
  lemma CleanSame(g: Succ, rep0: Rep, rep: Rep, root: Block, e: Entry, n: int, t: Block, order: seq<Block>, low: Entry)
    requires Collapsing(g, rep0, rep, e, n, t) && TopoOrder(g, rep0, order) && t in order && Clean(g, rep0, root, low)
    ensures Clean(g, rep, root, low)
  {
    hide Clean, Distinct, Collapsing, TopoOrder, IsRep, Coarser;
    CollapsingReps(g, rep0, rep, e, n, t);
    CleanIn(g, rep0, root, low);
    forall i | 0 <= i < |low.path|
      ensures low.path[i] in rep && rep[low.path[i]] == rep0[low.path[i]]
    {
      ListedSame(g, rep0, rep, e, n, t, order, low.path[i]);
    }
    ListedSame(g, rep0, rep, e, n, t, order, low.bag);
    CleanStays(g, rep0, rep, root, low);
  }

  /** Which entries stay clean when the one on top, clean or not, collapses a loop. */
  ghost predicate LowClean(rep0: Rep, rep: Rep, low: Entry, clean: bool, cleanTop: bool, n: int) {
    clean && (cleanTop ==> |low.path| <= n + 1 && low.bag in rep0 && low.bag in rep && rep[low.bag] == rep0[low.bag])
  }

  ghost function KeptClean(rep0: Rep, rep: Rep, stack: seq<Entry>, kept: seq<bool>, n: int): seq<bool>
    requires |kept| == |stack| > 0
  {
    seq(|stack|, k requires 0 <= k < |stack| =>
      if k == |stack| - 1 then kept[k] else LowClean(rep0, rep, stack[k], kept[k], kept[|stack| - 1], n))
  }

  lemma BelowCoarser(rep0: Rep, rep: Rep, low: Entry, high: Entry)
    requires Coarser(rep0, rep) && Below(rep0, low, high)
    ensures Below(rep, low, high)
  {
  }

  lemma BelowRetry(rep0: Rep, rep: Rep, low: Entry, e: Entry, n: int, t: Block, rest: set<Block>)
    requires Coarser(rep0, rep) && Below(rep0, low, e) && 0 <= n < |e.path| && |low.path| <= n + 1
    requires t in rep && rep[t] == t && e.path[n] in rep && rep[e.path[n]] == t
    ensures Below(rep, low, Entry(t, e.path[..n], rest))
  {
    forall i | 0 <= i < |low.path|
      ensures low.path[i] in rep && e.path[i] in rep && rep[low.path[i]] == rep[e.path[i]]
    {
      assert rep0[low.path[i]] == rep0[e.path[i]];
    }
  }

  lemma PlacedCollapse(g: Succ, rep0: Rep, rep: Rep, stack: seq<Entry>, base: seq<Mark>, order: seq<Block>, root: Block,
                       kept: seq<bool>, e: Entry, n: int, t: Block, stack': seq<Entry>, kept': seq<bool>, i: int)
    requires Collapsing(g, rep0, rep, e, n, t) && TopoOrder(g, rep0, order) && |stack| > 0 && e == stack[|stack| - 1]
    requires Nested(g, rep0, stack, base + [Explore(e.bag)], order, root, kept) && |kept| == |stack|
    requires Unexplored(base) == BagsOf(stack[..|stack| - 1]) && forall j :: 0 <= j < |base| ==> base[j].id in rep0
    requires |stack'| == |stack| && forall k :: 0 <= k < |stack| - 1 ==> stack'[k] == stack[k]
    requires |kept'| == |stack|
    requires forall k :: 0 <= k < |stack| - 1 ==>
               kept'[k] == LowClean(rep0, rep, stack[k], kept[k], kept[|stack| - 1], n)
    requires 0 <= i < |base| && base[i].Explore?
    ensures Placed(g, rep, stack', base + [Explore(t)], order, kept', i)
  {
    hide Collapsing, Clean, Below, EntryPlaced, TopoOrder, Unexplored, Nested, Placed, LowClean;
    var pend, pend' := base + [Explore(e.bag)], base + [Explore(t)];
    assert pend[i] == base[i] && pend[..i] == base[..i] && pend'[..i] == base[..i];
    NestedAt(g, rep0, stack, pend, order, root, kept, i);
    var k := |Unexplored(base[..i])|;
    UnexploredAt(base, i);
    assert |BagsOf(stack[..|stack| - 1])| == |stack| - 1;
    PlacedParts(g, rep0, stack, pend, order, kept, i, base[..i]);
    EntryCollapsed(g, rep0, rep, root, stack[k], e, n, t, base, order, i, kept[k], kept[|stack| - 1]);
    PlacedIntro(g, rep, stack', pend', order, kept', i, base[..i]);
  }

  lemma EntryCollapsed(g: Succ, rep0: Rep, rep: Rep, root: Block, low: Entry, e: Entry, n: int, t: Block,
                       base: seq<Mark>, order: seq<Block>, i: int, clean: bool, cleanTop: bool)
    requires Collapsing(g, rep0, rep, e, n, t) && TopoOrder(g, rep0, order) && 0 <= i < |base|
    requires forall j :: 0 <= j < |base| ==> base[j].id in rep0
    requires clean ==> Clean(g, rep0, root, low)
    requires clean && cleanTop ==> Below(rep0, low, e)
    requires EntryPlaced(g, rep0, base + [Explore(e.bag)], order, i, low, clean)
    ensures EntryPlaced(g, rep, base + [Explore(t)], order, i, low, LowClean(rep0, rep, low, clean, cleanTop, n))
  {
    hide Collapsing, Clean, Below, Doomed, Noted, TopoOrder, Coarser, IsRep;
    if !clean {
      DoomedStays(g, rep0, rep, e, n, t, base, order, i, low.bag);
    } else if LowClean(rep0, rep, low, clean, cleanTop, n) {
      NotedStays(g, rep0, rep, e, n, t, base, order, i, low);
    } else if |low.path| > n + 1 {
      LowDoomed(g, rep0, rep, root, low, e, n, t, base, order, i);
    } else {
      CollapsingReps(g, rep0, rep, e, n, t);
      CleanIn(g, rep0, root, low);
      MergedDoomed(g, rep0, rep, low, e, n, t, base, order, i);
    }
  }

  lemma CollapseCleans(g: Succ, rep0: Rep, rep: Rep, stack: seq<Entry>, root: Block, order: seq<Block>, kept: seq<bool>,
                       e: Entry, n: int, t: Block, rest: set<Block>, k: int)
    requires Collapsing(g, rep0, rep, e, n, t) && TopoOrder(g, rep0, order)
    requires |kept| == |stack| > 0 && e == stack[|stack| - 1] && 0 <= k < |stack|
    requires KeptClean(rep0, rep, stack, kept, n)[k]
    requires forall l :: 0 <= l < |stack| && kept[l] ==> Clean(g, rep0, root, stack[l])
    requires forall l :: 0 <= l < |stack| - 1 && kept[l] && kept[|stack| - 1] ==> Below(rep0, stack[l], e)
    requires !kept[|stack| - 1] ==> t in order
    requires StillVisited(rep0, e.path, n, Image(rep0, e.visited), rest, t)
    ensures Clean(g, rep, root, (stack[..|stack| - 1] + [Entry(t, e.path[..n], rest)])[k])
  {
    hide Collapsing, Clean, Below, TopoOrder, StillVisited, Image;
    CollapsingReps(g, rep0, rep, e, n, t);
    var last := |stack| - 1;
    if k == last {
      RetryClean(g, rep0, rep, root, e, n, t, rest);
    } else if kept[last] {
      LowStays(g, rep0, rep, root, stack[k], e, n, t);
    } else {
      CleanSame(g, rep0, rep, root, e, n, t, order, stack[k]);
    }
  }

  lemma CollapseBelow(g: Succ, rep0: Rep, rep: Rep, stack: seq<Entry>, kept: seq<bool>, e: Entry, n: int, t: Block,
                      rest: set<Block>, k: int, l: int)
    requires Collapsing(g, rep0, rep, e, n, t) && |kept| == |stack| > 0 && e == stack[|stack| - 1]
    requires 0 <= k < l < |stack|
    requires KeptClean(rep0, rep, stack, kept, n)[k] && KeptClean(rep0, rep, stack, kept, n)[l]
    requires Below(rep0, stack[k], stack[l])
    ensures var stack' := stack[..|stack| - 1] + [Entry(t, e.path[..n], rest)]; Below(rep, stack'[k], stack'[l])
  {
    hide Collapsing, Below, IsRep;
    CollapsingReps(g, rep0, rep, e, n, t);
    RetryPlace(g, rep0, rep, e, n, t);
    if l == |stack| - 1 {
      BelowRetry(rep0, rep, stack[k], e, n, t, rest);
    } else {
      BelowCoarser(rep0, rep, stack[k], stack[l]);
    }
  }

  /** The loop on top is collapsed, and its bag will be searched again. */
  lemma HeadedCollapse(g: Succ, rep0: Rep, rep: Rep, stack: seq<Entry>, base: seq<Mark>, order: seq<Block>, root: Block,
                       e: Entry, n: int, t: Block, rest: set<Block>)
    requires Collapsing(g, rep0, rep, e, n, t) && TopoOrder(g, rep0, order) && |stack| > 0 && e == stack[|stack| - 1]
    requires Headed(g, rep0, stack, base + [Explore(e.bag)], order, root)
    requires Unexplored(base) == BagsOf(stack[..|stack| - 1]) && forall j :: 0 <= j < |base| ==> base[j].id in rep0
    requires StillVisited(rep0, e.path, n, Image(rep0, e.visited), rest, t)
    ensures Headed(g, rep, stack[..|stack| - 1] + [Entry(t, e.path[..n], rest)], base + [Explore(t)], order, root)
  {
    hide Collapsing, Clean, Below, Placed, Covered, TopoOrder, EntriesLive, StillVisited, Coarser, IsRep, Image,
         Unexplored, TopNoted, LowClean;
    CollapsingReps(g, rep0, rep, e, n, t);
    var last := |stack| - 1;
    var kept :| Nested(g, rep0, stack, base + [Explore(e.bag)], order, root, kept);
    TopPlaced(g, rep0, stack, base, order, root, kept);
    EntriesStay(g, rep0, rep, root, e, n, t, order, kept[last]);
    var stack', kept' := stack[..last] + [Entry(t, e.path[..n], rest)], KeptClean(rep0, rep, stack, kept, n);
    var pend' := base + [Explore(t)];
    forall k | 0 <= k < |stack'| && kept'[k]
      ensures Clean(g, rep, root, stack'[k])
    {
      CollapseCleans(g, rep0, rep, stack, root, order, kept, e, n, t, rest, k);
    }
    forall k, l | 0 <= k < l < |stack'| && kept'[k] && kept'[l]
      ensures Below(rep, stack'[k], stack'[l])
    {
      KeptBefore(rep0, rep, stack, kept, n, k);
      KeptBefore(rep0, rep, stack, kept, n, l);
      CollapseBelow(g, rep0, rep, stack, kept, e, n, t, rest, k, l);
    }
    forall i {:trigger pend'[i]} | 0 <= i < |pend'| && pend'[i].Explore?
      ensures Placed(g, rep, stack', pend', order, kept', i)
    {
      if i < |base| {
        assert pend'[i] == base[i];
        PlacedCollapse(g, rep0, rep, stack, base, order, root, kept, e, n, t, stack', kept', i);
      } else {
        PlacedRetry(g, rep0, rep, stack, base, order, e, n, t, rest, kept', stack');
      }
    }
    assert Nested(g, rep, stack', pend', order, root, kept');
  }

  lemma KeptBefore(rep0: Rep, rep: Rep, stack: seq<Entry>, kept: seq<bool>, n: int, k: int)
    requires |kept| == |stack| > 0 && 0 <= k < |stack| && KeptClean(rep0, rep, stack, kept, n)[k]
    ensures kept[k]
  {
  }

  lemma PlacedRetry(g: Succ, rep0: Rep, rep: Rep, stack: seq<Entry>, base: seq<Mark>, order: seq<Block>, e: Entry,
                    n: int, t: Block, rest: set<Block>, kept': seq<bool>, stack': seq<Entry>)
    requires Collapsing(g, rep0, rep, e, n, t) && TopoOrder(g, rep0, order)
    requires |stack| > 0 && Unexplored(base) == BagsOf(stack[..|stack| - 1])
    requires |stack'| == |stack| == |kept'| && stack'[|stack| - 1] == Entry(t, e.path[..n], rest)
    requires if kept'[|stack| - 1] then TopNoted(g, rep0, order, e) else t in order
    ensures Placed(g, rep, stack', base + [Explore(t)], order, kept', |base|)
  {
    hide Collapsing, TopoOrder, TopNoted, Noted, Placed;
    CollapsingReps(g, rep0, rep, e, n, t);
    assert (base + [Explore(t)])[..|base|] == base;
    if kept'[|stack| - 1] {
      TopNotedStays(g, rep0, rep, e, n, t, base, order, rest);
    } else {
      ListedCovered(rep, base + [Explore(t)], order, |base|, t);
    }
    PlacedIntro(g, rep, stack', base + [Explore(t)], order, kept', |base|, base);
  }

  /** A collapse in progress, from the state that it keeps. */
  lemma CollapsingIntro(g: Succ, ld: RegMaps, str: RegMaps, f0: Fields, f: Fields, stack: seq<Entry>, e: Entry, n: int,
                        t: Block)
    requires |stack| > 0 && e == stack[|stack| - 1] && e.bag in f0.rep && t == f0.rep[e.bag]
    requires 0 <= n < |e.path| && e.path[n] in f.rep && f.rep[e.path[n]] == t && t in f.rep && f.rep[t] == t
    requires t in Image(f0.rep, e.visited) && EntriesOk(g, f0.rep, stack) && Pulled(f0.rep, f.rep, e.path, n, t)
    requires Consistent(g, ld, str, f0) && Consistent(g, ld, str, f) && Coarser(f0.rep, f.rep)
    ensures Collapsing(g, f0.rep, f.rep, e, n, t)
  {
    hide Consistent, EntryOk, Pulled, Image, Connected, Forest, FamilyOk, Coarser, Closed, IsRep;
    ConsistentAll(g, ld, str, f0);
    ConsistentAll(g, ld, str, f);
  }

  lemma PendingIds(g: Succ, rep: Rep, base: seq<Mark>, top: Mark, order: seq<Block>, root: Block)
    requires Pending(g, rep, base + [top], order, root)
    ensures forall j :: 0 <= j < |base| ==> base[j].id in rep
  {
    forall j | 0 <= j < |base|
      ensures base[j].id in rep
    {
      assert (base + [top])[j] == base[j];
    }
  }

  lemma StillVisitedDrop(rep0: Rep, path: seq<Block>, n: int, visited: set<Block>, rest: set<Block>, t: Block)
    requires StillVisited(rep0, path, n, visited, rest, t)
    ensures StillVisited(rep0, path, n, visited, rest - {t}, t)
  {
  }

  lemma OffLoopLive(g: Succ, rep: Rep, t: Block, path: seq<Block>, rest: set<Block>, base: seq<Mark>, order: seq<Block>,
                    root: Block)
    requires OffLoop(g, rep, t, path, rest, base, order, root)
    ensures t in rep && rep[t] == t
  {
  }

  lemma FinishedListed(finished: set<Block>, order: seq<Block>, t: Block)
    requires AllListed(finished, order) && t in finished
    ensures t in order
  {
  }

  /** A bag that the root reaches is named by a block at which its component is entered. */
  ghost predicate NamedAtEntries(g: Succ, root: Block, bagOf: Rep) {
    forall x :: x in g && Reach(g, root, x) ==>
      x in bagOf && Entered(g, root, bagOf[x]) && SameComponent(g, x, bagOf[x])
  }

  lemma HeadedNamed(g: Succ, rep: Rep, children: Succ, parents: Succ, order: seq<Block>, root: Block)
    requires EntriesLive(g, rep, root) && Searched(g, root, rep, children, parents, order)
    ensures NamedAtEntries(g, root, rep)
  {
    hide Reach, SameComponent, Entered, Settled, TopoOrder, Connected;
    forall x | x in g && Reach(g, root, x)
      ensures x in rep && Entered(g, root, rep[x]) && SameComponent(g, x, rep[x])
    {
      assert HasEntry(g, rep, root, x);
      var h :| NamesEntry(g, rep, root, x, h);
      EnteredIn(g, root, h);
      assert rep[x] == rep[h];
    }
  }

  lemma EnteredIn(g: Succ, root: Block, h: Block)
    requires Entered(g, root, h)
    ensures h in g
  {
  }

  lemma HeadedLive(g: Succ, rep: Rep, stack: seq<Entry>, pend: seq<Mark>, order: seq<Block>, root: Block)
    requires Headed(g, rep, stack, pend, order, root)
    ensures EntriesLive(g, rep, root)
  {
  }
}
