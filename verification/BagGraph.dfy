/** The graph that the register analysis works on. Its nodes are bags of basic blocks. A bag is named by the block it
    was made for, and each field of the bags is a map that is updated in place. */
module BagGraphs {
  import opened Registers
  import opened Graphs
  import opened LoopSearch
  import opened Families
  import opened LoopState
  import opened LoopHeads
  import opened Dataflow
  import opened PhiRegs
  import opened PhiClasses

  class BagGraph {
    var bagOf: map<Block, Block>
    var bagNum: int

    var ownLd: RegMaps
    var ownStr: RegMaps
    var presLd: RegMaps
    var presStr: RegMaps
    var sucsLd: RegMaps
    var drvd: RegMaps
    var inBbs: map<Block, set<Block>>
    var parents: Succ
    var children: Succ
    var converted: Rep
    var isLoop: map<Block, bool>

    ghost var rep: Rep  // the live bag of each bag
    ghost var dist: map<Block, nat>  // a bound on the steps of `converted` to it

    ghost function Now(): (f: Fields)
      reads this
      ensures f.rep == rep && f.converted == converted && f.dist == dist && f.children == children
      ensures f.parents == parents
      ensures f.ownLd == ownLd && f.ownStr == ownStr && f.inBbs == inBbs && f.bagNum == bagNum
    {
      Fields(rep, dist, converted, children, parents, ownLd, ownStr, inBbs, bagNum)
    }

    /** The live bag that `bag` has been merged into. */
    method GetTrueBag(bag: Block) returns (res: Block)
      requires Forest(converted, rep, dist) && bag in converted
      ensures res == rep[bag] && res in Live(rep)
    {
      res := bag;
      assert ForestAt(converted, rep, dist, res);
      while res != converted[res]
        invariant res in converted && rep[res] == rep[bag] && ForestAt(converted, rep, dist, res)
        decreases dist[res]
      {
        res := converted[res];
        assert ForestAt(converted, rep, dist, res);
      }
    }

    method MergeOwnRegs(target: Block, moved: Block)
      requires target in ownLd && moved in ownLd && target in ownStr && moved in ownStr
      modifies `ownLd, `ownStr
      ensures ownLd == old(ownLd[target := Widened(ownLd[target], ownLd[moved])])
      ensures ownStr == old(ownStr[target := Widened(ownStr[target], ownStr[moved])])
    {
      var ld := Widen(ownLd[target], ownLd[moved]);
      ownLd := ownLd[target := ld];
      var str := Widen(ownStr[target], ownStr[moved]);
      ownStr := ownStr[target := str];
    }

    /** The live bag of `bag` becomes a parent of `target`. */
    method AdoptParent(target: Block, bag: Block) returns (ghost parent: Block)
      requires Forest(converted, rep, dist) && children.Keys == parents.Keys == rep.Keys && target in rep && bag in rep
      modifies `parents, `children
      ensures parent == rep[bag] && parent in rep && children.Keys == parents.Keys == rep.Keys
      ensures forall x, c {:trigger Has(children, x, c)} :: Has(children, x, c) <==>
                old(Has(children, x, c)) || (c == target && x == parent)
      ensures forall x, c {:trigger Has(parents, x, c)} :: Has(parents, x, c) <==>
                old(Has(parents, x, c)) || (x == target && c == parent)
    {
      var trueBag := GetTrueBag(bag);
      parents := Insert(parents, target, trueBag);
      children := Insert(children, trueBag, target);
      parent := trueBag;
    }

    /** The parents of `merged` become parents of `target`. */
    method AdoptParents(target: Block, merged: Block)
      requires Forest(converted, rep, dist) && InRange(rep, children) && InRange(rep, parents)
      requires target in Live(rep) && merged in Live(rep) && target != merged
      modifies `parents, `children
      ensures InRange(rep, children) && InRange(rep, parents)
      ensures forall x, c {:trigger Has(children, x, c)} {:trigger old(Has(children, x, c))} :: Has(children, x, c) <==>
                old(Has(children, x, c)) || (c == target && old(Names(rep, parents, merged, x)))
      ensures forall x, c {:trigger Has(parents, x, c)} {:trigger old(Has(parents, x, c))} :: Has(parents, x, c) <==>
                old(Has(parents, x, c)) || (x == target && old(Names(rep, parents, merged, c)))
    {
      var todo := parents[merged];
      ghost var seen, done: set<Block> := {}, {};
      while todo != {}
        invariant children.Keys == parents.Keys == rep.Keys
        invariant todo + seen == old(parents[merged]) && todo !! seen
        invariant done == Image(rep, seen) && forall y :: y in done ==> y in rep
        invariant forall x, c {:trigger Has(children, x, c)} ::
                    Has(children, x, c) <==> old(Has(children, x, c)) || (c == target && x in done)
        invariant forall x, c {:trigger Has(parents, x, c)} ::
                    Has(parents, x, c) <==> old(Has(parents, x, c)) || (x == target && c in done)
        decreases todo
      {
        var bag :| bag in todo;
        assert old(Has(parents, merged, bag));
        ghost var parent := AdoptParent(target, bag);
        ImageAdd(rep, seen, bag);
        todo, seen, done := todo - {bag}, seen + {bag}, done + {parent};
      }
      NamesImage(rep, old(parents), merged);
    }

    /** The live bag of `bag` becomes a child of `target`. */
    method AdoptChild(target: Block, bag: Block) returns (ghost child: Block)
      requires Forest(converted, rep, dist) && children.Keys == parents.Keys == rep.Keys && target in rep && bag in rep
      modifies `parents, `children
      ensures child == rep[bag] && child in rep && children.Keys == parents.Keys == rep.Keys
      ensures forall x, c {:trigger Has(parents, x, c)} :: Has(parents, x, c) <==>
                old(Has(parents, x, c)) || (c == target && x == child)
      ensures forall x, c {:trigger Has(children, x, c)} :: Has(children, x, c) <==>
                old(Has(children, x, c)) || (x == target && c == child)
    {
      var trueBag := GetTrueBag(bag);
      children := Insert(children, target, trueBag);
      parents := Insert(parents, trueBag, target);
      child := trueBag;
    }

    /** The children of `merged` become children of `target`. */
    method AdoptChildren(target: Block, merged: Block)
      requires Forest(converted, rep, dist) && InRange(rep, children) && InRange(rep, parents)
      requires target in Live(rep) && merged in Live(rep) && target != merged
      modifies `parents, `children
      ensures InRange(rep, children) && InRange(rep, parents)
      ensures forall x, c {:trigger Has(parents, x, c)} {:trigger old(Has(parents, x, c))} :: Has(parents, x, c) <==>
                old(Has(parents, x, c)) || (c == target && old(Names(rep, children, merged, x)))
      ensures forall x, c {:trigger Has(children, x, c)} {:trigger old(Has(children, x, c))} :: Has(children, x, c) <==>
                old(Has(children, x, c)) || (x == target && old(Names(rep, children, merged, c)))
    {
      var todo := children[merged];
      ghost var seen, done: set<Block> := {}, {};
      while todo != {}
        invariant children.Keys == parents.Keys == rep.Keys
        invariant todo + seen == old(children[merged]) && todo !! seen
        invariant done == Image(rep, seen) && forall y :: y in done ==> y in rep
        invariant forall x, c {:trigger Has(parents, x, c)} ::
                    Has(parents, x, c) <==> old(Has(parents, x, c)) || (c == target && x in done)
        invariant forall x, c {:trigger Has(children, x, c)} ::
                    Has(children, x, c) <==> old(Has(children, x, c)) || (x == target && c in done)
        decreases todo
      {
        var bag :| bag in todo;
        assert old(Has(children, merged, bag));
        ghost var child := AdoptChild(target, bag);
        ImageAdd(rep, seen, bag);
        todo, seen, done := todo - {bag}, seen + {bag}, done + {child};
      }
      NamesImage(rep, old(children), merged);
    }

    method MergeFamilyBags(target: Block, merged: Block)
      requires Forest(converted, rep, dist) && InRange(rep, children) && InRange(rep, parents)
      requires target in Live(rep) && merged in Live(rep) && target != merged
      modifies `parents, `children
      ensures FamilyMoved(rep, old(children), old(parents), target, merged, children, parents)
    {
      AdoptParents(target, merged);
      NamesGained(rep, old(children), children, merged, target, old(Names(rep, parents, merged, merged)));
      AdoptChildren(target, merged);
    }

    /** Merges the bag `moved` into the bag `target`. */
    method Absorb(target: Block, moved: Block)
      requires Forest(converted, rep, dist) && InRange(rep, children) && InRange(rep, parents)
      requires target in ownLd && target in ownStr && target in inBbs
      requires moved in ownLd && moved in ownStr && moved in inBbs
      requires target in Live(rep) && moved in Live(rep) && target != moved
      modifies `ownLd, `ownStr, `parents, `children, `inBbs, `converted, `bagNum, `rep, `dist
      ensures Absorbed(old(Now()), target, moved, Now())
    {
      hide FamilyMoved, InRange, Merged, Widened;
      MergeOwnRegs(target, moved);
      MergeFamilyBags(target, moved);
      inBbs := inBbs[target := inBbs[target] + inBbs[moved]];
      converted := converted[moved := target];
      bagNum := bagNum - 1;
      rep, dist := Merged(rep, moved, target), MergedDist(rep, dist, target, moved);
    }

    /** A loop was found at `target`: merges the end of the path into it. Returns the rest of the path, and what
        remains visited. */
    method Collapse(target: Block, prePath: seq<Block>, visited: set<Block>, ghost g: Succ, ghost ld: RegMaps,
                    ghost str: RegMaps, ghost garbage: set<Block>, ghost base: seq<Mark>, ghost order: seq<Block>,
                    ghost root: Block)
      returns (path: seq<Block>, rest: set<Block>, ghost merged: bool)
      requires |prePath| > 0 && prePath[|prePath| - 1] in rep && target in visited
      requires Plural(rep, target) || rep[prePath[|prePath| - 1]] != target
      requires Consistent(g, ld, str, Now()) && LoopsMarked(rep, isLoop, garbage, {})
      requires OnLoop(g, rep, target, prePath, visited, base, order, root)
      modifies `ownLd, `ownStr, `parents, `children, `inBbs, `converted, `bagNum, `isLoop, `rep, `dist
      ensures if merged then |Live(rep)| < old(|Live(rep)|)
              else rep == old(rep) && rep[prePath[|prePath| - 1]] == target && rest == visited - {target}
      ensures Consistent(g, ld, str, Now()) && LoopsMarked(rep, isLoop, garbage, {})
      ensures Coarser(old(rep), rep)
      ensures OffLoop(g, rep, target, path, rest, base, order, root)
      ensures |path| < |prePath| && path == prePath[..|path|] && prePath[|path|] in rep
      ensures rep[prePath[|path|]] == target
      ensures Pulled(old(rep), rep, prePath, |path|, target)
      ensures StillVisited(old(rep), prePath, |path|, visited, rest, target)
    {
      hide Consistent, LoopsMarked, Plural, Coarser, OnLoop, OffLoop, Absorbed, Live, Forest, InRange, Pulled,
           StillVisited;
      path, rest, merged := prePath, visited, false;
      PulledNothing(rep, prePath, visited, target);
      CoarserSelf(rep);
      LoopsMarkedWeaken(rep, isLoop, garbage, target);
      while true
        invariant Consistent(g, ld, str, Now()) && LoopsMarked(rep, isLoop, garbage, {target})
        invariant Coarser(old(rep), rep) && OnLoop(g, rep, target, path, rest, base, order, root)
        invariant if merged then Plural(rep, target) && |Live(rep)| < old(|Live(rep)|)
                  else rep == old(rep) && path == prePath && rest == visited
        invariant |path| <= |prePath| && path == prePath[..|path|] && Pulled(old(rep), rep, prePath, |path| - 1, target)
        invariant StillVisited(old(rep), prePath, |path| - 1, visited, rest, target)
        decreases |path|
      {
        OnLoopParts(g, ld, str, Now(), target, path, rest, base, order, root);
        assert |path| > 0;  // the end of the path is never passed
        ghost var path0, f := path, Now();
        var moved := GetTrueBag(path[|path| - 1]);
        path := path[..|path| - 1];
        if target == moved {
          OnLoopDone(g, rep, target, path0, rest, base, order, root);
          break;
        }
        PulledStep(old(rep), rep, prePath, |path|, visited, rest, target);
        Absorb(target, moved);
        AbsorbedRep(f, target, moved, Now());
        CollapseStep(g, ld, str, f, Now(), isLoop, garbage, old(rep), target, path0, rest, base, order, root);
        rest, merged := rest - {moved}, true;
      }
      LoopsMarkedSet(rep, isLoop, garbage, target);
      isLoop := isLoop[target := true];
      StillVisitedDrop(old(rep), prePath, |path|, visited, rest, target);
      rest := rest - {target};
    }

    /** The live bags of `visited`, and whether `target` is among them. */
    method ResolveVisited(visited: set<Block>, target: Block) returns (res: set<Block>, found: bool)
      requires Forest(converted, rep, dist) && forall v :: v in visited ==> v in rep
      ensures res == Image(rep, visited) && (found <==> target in res)
    {
      res, found := {}, false;
      var todo := visited;
      ghost var seen: set<Block> := {};
      while todo != {}
        invariant todo + seen == visited && todo !! seen
        invariant res == Image(rep, seen) && (found <==> target in res)
        decreases todo
      {
        var bag :| bag in todo;
        var trueBag := GetTrueBag(bag);
        if trueBag == target {
          found := true;
        }
        ImageAdd(rep, seen, bag);
        res := res + {trueBag};
        todo, seen := todo - {bag}, seen + {bag};
      }
    }

    /** An entry for each child of `target` that is not finished. */
    method PushChildren(target: Block, e: Entry, visited: set<Block>, finished: set<Block>, ghost g: Succ)
      returns (kids: seq<Entry>)
      requires Forest(converted, rep, dist) && FamilyOk(g, rep, children, parents) && IsRep(g, rep)
      requires e.bag in rep && target == rep[e.bag] && visited == Image(rep, e.visited)
      ensures ChildEntries(g, rep, e, finished, kids) && |kids| <= |g|
    {
      hide FamilyOk, IsRep, QEdge, Names, ChildEntries, Image, Pushed, KidsOk;
      FamilyFacts(g, rep, children, parents, e.bag);
      kids := [];
      KidsNone(rep, children, target, e.path, visited);
      var todo := children[target];
      ghost var seen: set<Block> := {};
      while todo != {}
        invariant todo + seen == children[target] && todo !! seen && |kids| <= |seen|
        invariant KidsOk(rep, children, target, e.path, visited, kids)
        invariant forall c :: c in seen && rep[c] != target ==> rep[c] in finished || Pushed(kids, rep[c])
        decreases todo
      {
        var child :| child in todo;
        var trueChild := GetTrueBag(child);
        NamesIntro(rep, children, target, child);
        ghost var kids0 := kids;
        if trueChild !in finished && trueChild != target {
          ghost var kid := Entry(trueChild, e.path + [target], visited + {target});
          kids := kids + [Entry(trueChild, e.path + [target], visited + {target})];
          KidsAdd(rep, children, target, e.path, visited, kids0, kid);
          PushedAdd(kids0, kid);
        }
        todo, seen := todo - {child}, seen + {child};
      }
      ChildrenPushed(g, rep, children, parents, e, finished, kids);
    }

    /** The bag on top of the stack closes a loop: collapses the loop and searches the bag again. */
    method CollapseTop(stack: seq<Entry>, target: Block, visited: set<Block>, ghost finished: set<Block>, ghost g: Succ,
                       ghost ld: RegMaps, ghost str: RegMaps, ghost garbage: set<Block>, ghost base: seq<Mark>,
                       ghost order: seq<Block>, ghost root: Block)
      returns (stack': seq<Entry>, ghost merged: bool)
      requires Consistent(g, ld, str, Now()) && LoopsMarked(rep, isLoop, garbage, {}) && EntriesOk(g, rep, stack)
      requires |stack| > 0
      requires var e := stack[|stack| - 1];
               && e.bag in rep && target == rep[e.bag] && target in visited && visited == Image(rep, e.visited)
               && TopoOrder(g, rep, order) && Pending(g, rep, base + [Explore(e.bag)], order, root)
      requires Unexplored(base) == BagsOf(stack[..|stack| - 1]) && AllListed(finished, order)
      requires Headed(g, rep, stack, base + [Explore(stack[|stack| - 1].bag)], order, root)
      modifies `ownLd, `ownStr, `parents, `children, `inBbs, `converted, `bagNum, `isLoop, `rep, `dist
      ensures Consistent(g, ld, str, Now()) && LoopsMarked(rep, isLoop, garbage, {})
      ensures Searching(g, rep, stack', finished, base + [Explore(target)], order, root)
      ensures Headed(g, rep, stack', base + [Explore(target)], order, root)
      ensures if merged then |Live(rep)| < old(|Live(rep)|)
              else rep == old(rep) && SearchEnergy(g, rep, stack') < SearchEnergy(g, rep, stack)
    {
      hide *;
      ConsistentRep(g, ld, str, Now());
      ghost var f := Now();
      var e := stack[|stack| - 1];
      PendingIds(g, rep, base, Explore(e.bag), order, root);
      LoopFound(g, rep, stack, base, order, root);
      var path, rest;
      path, rest, merged := Collapse(target, e.path, visited, g, ld, str, garbage, base, order, root);
      stack' := stack[..|stack| - 1] + [Entry(target, path, rest)];
      ConsistentRep(g, ld, str, Now());
      TopCollapsed(g, old(rep), rep, merged, stack, e, finished, visited, target, path, rest, base, order, root);
      OffLoopLive(g, rep, target, path, rest, base, order, root);
      CollapsingIntro(g, ld, str, f, Now(), stack, e, |path|, target);
      HeadedCollapse(g, old(rep), rep, stack, base, order, root, e, |path|, target, rest);
    }

    /** The bag on top of the stack closes no loop: pushes its children, or finishes it if all of them are finished. */
    method ExpandTop(stack: seq<Entry>, target: Block, visited: set<Block>, finished: set<Block>, ghost g: Succ,
                     ghost base: seq<Mark>, ghost order: seq<Block>, ghost root: Block)
      returns (stack': seq<Entry>, finished': set<Block>, ghost pend': seq<Mark>, ghost order': seq<Block>)
      requires Closed(g) && IsRep(g, rep) && Connected(g, rep) && Forest(converted, rep, dist)
      requires FamilyOk(g, rep, children, parents)
      requires EntriesOk(g, rep, stack) && |stack| > 0
      requires var e := stack[|stack| - 1];
               && e.bag in rep && target == rep[e.bag] && target !in visited && visited == Image(rep, e.visited)
               && TopoOrder(g, rep, order) && Pending(g, rep, base + [Explore(e.bag)], order, root)
      requires Unexplored(base) == BagsOf(stack[..|stack| - 1]) && AllListed(finished, order)
      requires Headed(g, rep, stack, base + [Explore(stack[|stack| - 1].bag)], order, root)
      ensures Searching(g, rep, stack', finished', pend', order', root) && Headed(g, rep, stack', pend', order', root)
      ensures SearchEnergy(g, rep, stack') < SearchEnergy(g, rep, stack)
    {
      hide *;
      var e := stack[|stack| - 1];
      var kids := PushChildren(target, e, visited, finished, g);
      if kids == [] {
        NothingPushed(g, rep, e, finished);
        order' := SearchFinish(g, rep, stack, finished, base, order, root);
        HeadedDrop(g, rep, stack, base, order, order', root);
        DropEnergy(g, rep, stack);
        stack', finished', pend' := stack[..|stack| - 1], finished + {target}, base;
      } else {
        pend' := SearchExpand(g, rep, stack, finished, base, order, root, kids);
        HeadedExpand(g, rep, stack, finished, base, order, root, kids);
        stack', finished', order' := stack[..|stack| - 1] + kids, finished, order;
        SearchingEntries(g, rep, stack', finished, pend', order, root);
        PushEnergy(g, rep, stack, finished, kids);
      }
    }

    /** One turn of the search: pops an entry, and finishes its bag, collapses a loop or pushes its children. */
    method SearchTurn(stack: seq<Entry>, finished: set<Block>, ghost g: Succ, ghost ld: RegMaps, ghost str: RegMaps,
                      ghost garbage: set<Block>, ghost pend: seq<Mark>, ghost order: seq<Block>, ghost root: Block)
      returns (stack': seq<Entry>, finished': set<Block>, ghost pend': seq<Mark>, ghost order': seq<Block>,
               ghost merged: bool)
      requires |stack| > 0 && Consistent(g, ld, str, Now()) && LoopsMarked(rep, isLoop, garbage, {})
      requires Searching(g, rep, stack, finished, pend, order, root) && Headed(g, rep, stack, pend, order, root)
      modifies `ownLd, `ownStr, `parents, `children, `inBbs, `converted, `bagNum, `isLoop, `rep, `dist
      ensures Consistent(g, ld, str, Now()) && LoopsMarked(rep, isLoop, garbage, {})
      ensures Searching(g, rep, stack', finished', pend', order', root) && Headed(g, rep, stack', pend', order', root)
      ensures if merged then |Live(rep)| < old(|Live(rep)|)
              else rep == old(rep) && SearchEnergy(g, rep, stack') < SearchEnergy(g, rep, stack)
    {
      hide *;
      ConsistentAll(g, ld, str, Now());
      SearchParts(g, rep, stack, finished, pend, order, root);
      var e := stack[|stack| - 1];
      var target := GetTrueBag(e.bag);
      stack', finished', merged := stack[..|stack| - 1], finished, false;
      pend', order' := SearchTop(g, rep, stack, finished, pend, order, root);
      HeadedTop(g, rep, stack, pend, order, pend' + [Explore(e.bag)], order', root);
      if target in finished {
        FinishedListed(finished, order', target);
        SearchDrop(g, rep, stack, finished, pend', order', root);
        HeadedDrop(g, rep, stack, pend', order', order', root);
        DropEnergy(g, rep, stack);
        return;
      }
      var visited, loopFound := ResolveVisited(e.visited, target);
      if loopFound {
        stack', merged := CollapseTop(stack, target, visited, finished, g, ld, str, garbage, pend', order', root);
        pend' := pend' + [Explore(target)];
      } else {
        stack', finished', pend', order' := ExpandTop(stack, target, visited, finished, g, pend', order', root);
      }
    }

    /** The live bags of `bags`, without `own`. */
    method ResolveOthers(bags: set<Block>, own: Block) returns (res: set<Block>)
      requires Forest(converted, rep, dist) && forall v :: v in bags ==> v in rep
      ensures res == Others(rep, bags, own)
    {
      res := {};
      var todo := bags;
      ghost var seen: set<Block> := {};
      while todo != {}
        invariant todo + seen == bags && todo !! seen && res == Others(rep, seen, own)
        decreases todo
      {
        var bag :| bag in todo;
        var trueBag := GetTrueBag(bag);
        ImageAdd(rep, seen, bag);
        if trueBag != own {
          res := res + {trueBag};
        }
        todo, seen := todo - {bag}, seen + {bag};
      }
    }

    /** Replaces every bag by its live bag, in `bagOf` and in the families of the live bags. */
    method UpdateBags(ghost g: Succ)
      requires Forest(converted, rep, dist) && FamilyOk(g, rep, children, parents) && IsRep(g, rep)
      requires BagsMapped(rep, bagOf, bagOf.Keys, {})
      modifies `bagOf, `children, `parents
      ensures bagOf == rep && Settled(g, rep, children, parents)
    {
      hide FamilyOk, IsRep, Others, Settled, Resolved, BagsMapped;
      var todo := bagOf.Keys;
      ghost var children0, parents0, done: set<Block> := children, parents, {};
      UpdateStart(g, rep, children, parents);
      while todo != {}
        invariant BagsMapped(rep, bagOf, todo, done)
        invariant Resolved(rep, children0, children, done) && Resolved(rep, parents0, parents, done)
        decreases todo
      {
        var bb :| bb in todo;
        BagsMappedAt(rep, bagOf, todo, done, bb);
        var bag := bagOf[bb];
        var target := GetTrueBag(bag);
        BagsMappedStep(rep, bagOf, todo, done, bb);
        bagOf := bagOf[bb := target];
        ResolvedStep(g, rep, parents0, parents, done, target);
        ResolvedStep(g, rep, children0, children, done, target);
        var newPars := ResolveOthers(parents[target], target);
        parents := parents[target := newPars];
        var newChildren := ResolveOthers(children[target], target);
        children := children[target := newChildren];
        todo, done := todo - {bb}, done + {target};
      }
      UpdateEnd(g, rep, bagOf, children0, children, parents0, parents, done);
    }

    /** The bags as they are made from the blocks. */
    ghost predicate Built(g: Succ, ld: RegMaps, str: RegMaps)
      reads this
    {
      bagOf == Identity(g) && BuiltFrom(g, ld, str, children, parents, ownLd, ownStr, inBbs, bagNum, isLoop)
    }

    /** Makes every bag its own live bag. */
    method ResetConverted(ghost g: Succ, ghost ld: RegMaps, ghost str: RegMaps, ghost garbage: set<Block>)
      requires Closed(g) && Built(g, ld, str) && converted == map[]
      requires forall x :: x in garbage <==> x in isLoop && isLoop[x]
      modifies `converted, `rep, `dist
      ensures Consistent(g, ld, str, Now()) && LoopsMarked(rep, isLoop, garbage, {})
      ensures rep == bagOf == Identity(g)
    {
      hide Consistent, LoopsMarked, Closed, BuiltFrom, Identity;
      IdentityKeys(g);
      var todo := bagOf.Keys;
      while todo != {}
        invariant forall b :: b in todo ==> b in bagOf
        invariant forall b :: b in bagOf && b !in todo ==> b in converted
        invariant forall b :: b in converted ==> b in bagOf && converted[b] == b
        decreases todo
      {
        var b :| b in todo;
        converted := converted[b := b];
        todo := todo - {b};
      }
      rep, dist := Identity(g), Zeros(g);
      IdentityIs(g, converted);
      StartConsistent(g, ld, str, Now(), isLoop, garbage);
    }

    /** Merges bags until no loop is left that the root reaches. */
    method RemoveLoop(rootBb: Block, ghost g: Succ, ghost ld: RegMaps, ghost str: RegMaps, ghost garbage: set<Block>)
      returns (ghost order: seq<Block>)
      requires Closed(g) && rootBb in g
      requires Built(g, ld, str) && converted == map[]
      requires forall x :: x in garbage <==> x in isLoop && isLoop[x]
      modifies `bagOf, `ownLd, `ownStr, `parents, `children, `inBbs, `converted, `bagNum, `isLoop, `rep, `dist
      ensures bagOf == rep && Searched(g, rootBb, rep, children, parents, order) && NamedAtEntries(g, rootBb, rep)
      ensures OwnsClasses(rep, ownLd, ld) && OwnsClasses(rep, ownStr, str) && ListsClasses(rep, inBbs)
      ensures bagNum == |Live(rep)| && LoopsMarked(rep, isLoop, garbage, {})
    {
      hide *;
      ResetConverted(g, ld, str, garbage);
      var stack, finished: set<Block> := [Entry(rootBb, [], {})], {};
      ghost var pend := [Explore(rootBb)];
      order := [];
      IdentityKeys(g);
      StartSearching(g, rep, rootBb);
      HeadedStart(g, rootBb);
      while |stack| > 0
        invariant Consistent(g, ld, str, Now()) && LoopsMarked(rep, isLoop, garbage, {})
        invariant Searching(g, rep, stack, finished, pend, order, rootBb) && bagOf == Identity(g)
        invariant Headed(g, rep, stack, pend, order, rootBb)
        decreases |Live(rep)|, SearchEnergy(g, rep, stack)
      {
        ghost var merged;
        stack, finished, pend, order, merged := SearchTurn(stack, finished, g, ld, str, garbage, pend, order, rootBb);
      }
      HeadedLive(g, rep, stack, pend, order, rootBb);
      order := SearchDone(g, ld, str, Now(), finished, stack, pend, order, rootBb);
      ConsistentAll(g, ld, str, Now());
      ghost var f := Now();
      NothingMapped(g, rep, bagOf);
      UpdateBags(g);
      SearchedIntro(g, ld, str, f, rootBb, children, parents, order);
      HeadedNamed(g, rep, children, parents, order, rootBb);
    }

    // -------------------------------------------------------------------------
    // The forward pass

    /** Everything that lies before the bag `t` is merged into it, one parent after the other. */
    method MergePreceding(t: Block, ghost g: Succ, ghost ld: RegMaps, ghost str: RegMaps, ghost order: seq<Block>,
                          ghost fins: set<Block>)
      requires Closed(g) && LoopFree(g, rep, children, parents, order)
      requires OwnsClasses(rep, ownLd, ld) && OwnsClasses(rep, ownStr, str)
      requires Forward(g, rep, ld, presLd, fins) && Forward(g, rep, str, presStr, fins)
      requires t in Live(rep) && t !in fins && t in parents && parents[t] <= fins
      modifies `presLd, `presStr
      ensures Forward(g, rep, ld, presLd, fins + {t}) && Forward(g, rep, str, presStr, fins + {t})
    {
      hide Forward, Joins, Widened, OwnsClasses, LoopFree, Closed, IsRep, Connected, Settled, TopoOrder, Reaching,
           Before;
      LoopFreeParts(g, rep, children, parents, order);
      ForwardStart(g, rep, ld, presLd, fins, t);
      ForwardStart(g, rep, str, presStr, fins, t);
      var todo := parents[t];
      ghost var seen: set<Block> := {};
      while todo != {}
        invariant todo + seen == parents[t] && todo !! seen
        invariant t in presLd && presLd == old(presLd)[t := presLd[t]] && Joins(presLd[t], ld, Reaching(g, seen))
        invariant t in presStr && presStr == old(presStr)[t := presStr[t]] && Joins(presStr[t], str, Reaching(g, seen))
        decreases todo
      {
        var par :| par in todo;
        SettledParent(g, rep, children, parents, par, t);
        QEdgeLive(g, rep, par, t);
        ForwardParent(g, rep, ld, old(presLd), ownLd, fins, seen, par, presLd[t]);
        ForwardParent(g, rep, str, old(presStr), ownStr, fins, seen, par, presStr[t]);
        var m := Widen(presLd[t], presLd[par]);
        m := Widen(m, ownLd[par]);
        presLd := presLd[t := m];
        m := Widen(presStr[t], presStr[par]);
        m := Widen(m, ownStr[par]);
        presStr := presStr[t := m];
        todo, seen := todo - {par}, seen + {par};
      }
      BeforeParents(g, rep, children, parents, order, t);
      ForwardStep(g, rep, ld, old(presLd), fins, t, presLd[t]);
      ForwardStep(g, rep, str, old(presStr), fins, t, presStr[t]);
    }

    /** Counts the finished bag `t` at each of its children, and queues those that are not finished. */
    method CountChildren(t: Block, num0: map<Block, nat>, queue0: seq<Block>, fins: set<Block>, ghost g: Succ)
      returns (num: map<Block, nat>, queue: seq<Block>)
      requires Settled(g, rep, children, parents) && t in Live(rep) && t in children && t !in fins
      requires Counts(rep, parents, num0, fins)
      ensures Counts(rep, parents, num, fins + {t})
      ensures queue0 <= queue && forall i :: |queue0| <= i < |queue| ==> queue[i] in children[t]
      ensures forall c :: c in children[t] && c !in fins && c != t ==> c in queue
    {
      hide Settled, Counts, Live;
      num, queue := num0, queue0;
      var todo := children[t];
      ghost var seen: set<Block> := {};
      while todo != {}
        invariant todo + seen == children[t] && todo !! seen
        invariant forall x :: Count(num, x) == Count(num0, x) + if x in seen then 1 else 0
        invariant queue0 <= queue && forall i :: |queue0| <= i < |queue| ==> queue[i] in children[t]
        invariant forall c :: c in seen && c !in fins && c != t ==> c in queue
        decreases todo
      {
        var ch :| ch in todo;
        num := num[ch := Count(num, ch) + 1];
        if ch !in fins && ch != t {
          queue := queue + [ch];
        }
        todo, seen := todo - {ch}, seen + {ch};
      }
      SettledBoth(g, rep, children, parents, t);
      CountStep(rep, parents, num0, num, fins, t);
    }

    /** Collects, for every bag, what is read and written before it. Bags are finished in the order in which their
        parents are. */
    method GetPrecedingVirtualRegsBags(rootBb: Block, ghost g: Succ, ghost ld: RegMaps, ghost str: RegMaps,
                                       ghost order: seq<Block>)
      requires Closed(g) && LoopFree(g, rep, children, parents, order) && rootBb in g && ReachesAll(g, rootBb)
      requires bagOf == rep && bagNum == |Live(rep)|
      requires OwnsClasses(rep, ownLd, ld) && OwnsClasses(rep, ownStr, str)
      requires Forward(g, rep, ld, presLd, {}) && Forward(g, rep, str, presStr, {})
      modifies `presLd, `presStr
      ensures Forward(g, rep, ld, presLd, Live(rep)) && Forward(g, rep, str, presStr, Live(rep))
    {
      hide Forward, OwnsClasses, LoopFree, Closed, IsRep, Connected, Settled, TopoOrder, ReachesAll, Queued, Counts,
           Live;
      LoopFreeParts(g, rep, children, parents, order);
      QueuedStart(g, rep, children, parents, order, rootBb);
      SettledKeys(g, rep, children, parents);
      CountsNothing(rep, parents);
      var queue := [bagOf[rootBb]];
      var num: map<Block, nat>, fins: set<Block> := map[], {};
      while |queue| > 0
        invariant Queued(rep, parents, queue, fins) && Counts(rep, parents, num, fins)
        invariant Forward(g, rep, ld, presLd, fins) && Forward(g, rep, str, presStr, fins)
        invariant fins <= Live(rep)
        decreases |Live(rep) - fins|, |queue|
      {
        var t := queue[0];
        ghost var queue0 := queue;
        QueuedHead(g, rep, children, parents, queue, fins);
        queue := queue[1..];
        if t in fins {
          QueuedPop(rep, parents, queue0, fins);
          continue;
        }
        CountsSame(rep, parents, num, t, fins);
        if t !in num {
          num := num[t := 0];
        }
        CountFull(rep, parents, num, fins, t);
        if |parents[t]| == num[t] {
          MergePreceding(t, g, ld, str, order, fins);
          num, queue := CountChildren(t, num, queue, fins, g);
          QueuedFinish(g, rep, children, parents, order, queue0, queue, fins);
          LiveLess(rep, fins, t);
          fins := fins + {t};
        } else {
          QueuedPop(rep, parents, queue0, fins);
        }
      }
      QueuedDone(g, rep, children, parents, order, fins);
      assert fins == Live(rep);
      assert |fins| == bagNum;
    }

    // -------------------------------------------------------------------------
    // The backward pass

    /** Everything read after the bag `t` is merged into it, one child after the other. */
    method MergeSucceeding(t: Block, ghost g: Succ, ghost ld: RegMaps, ghost order: seq<Block>, ghost fins: set<Block>)
      requires Closed(g) && LoopFree(g, rep, children, parents, order) && OwnsClasses(rep, ownLd, ld)
      requires Backward(g, rep, ld, sucsLd, fins)
      requires t in Live(rep) && t !in fins && t in children && children[t] <= fins
      modifies `sucsLd
      ensures Backward(g, rep, ld, sucsLd, fins + {t})
    {
      hide Backward, Joins, Widened, OwnsClasses, LoopFree, Closed, SoFar, After;
      ChildrenLive(g, rep, children, parents, order, t);
      BackwardStart(g, rep, ld, sucsLd, fins, t);
      var todo := children[t];
      ghost var seen: set<Block> := {};
      while todo != {}
        invariant todo + seen == children[t] && todo !! seen
        invariant t in sucsLd && sucsLd == old(sucsLd)[t := sucsLd[t]] && Joins(sucsLd[t], ld, SoFar(g, rep, t, seen))
        decreases todo
      {
        var ch :| ch in todo;
        BackwardChild(g, rep, ld, old(sucsLd), ownLd, fins, t, seen, ch, sucsLd[t]);
        var m := Widen(sucsLd[t], sucsLd[ch]);
        m := Widen(m, ownLd[t]);
        sucsLd := sucsLd[t := m];
        todo, seen := todo - {ch}, seen + {ch};
      }
      SoFarDone(g, rep, children, parents, order, t);
      BackwardStep(g, rep, ld, old(sucsLd), fins, t, sucsLd[t]);
    }

    /** Counts the finished bag `t` at each of its parents. */
    method CountParents(t: Block, num0: map<Block, nat>, ghost g: Succ, ghost fins: set<Block>)
      returns (num: map<Block, nat>)
      requires Settled(g, rep, children, parents) && t in Live(rep) && t in parents && t !in fins
      requires Counts(rep, children, num0, fins)
      ensures Counts(rep, children, num, fins + {t})
      ensures forall x :: x in num <==> x in num0 || x in parents[t]
    {
      hide Settled, Counts, Live;
      num := num0;
      var todo := parents[t];
      ghost var seen: set<Block> := {};
      while todo != {}
        invariant todo + seen == parents[t] && todo !! seen
        invariant forall x :: Count(num, x) == Count(num0, x) + if x in seen then 1 else 0
        invariant forall x :: x in num <==> x in num0 || x in seen
        decreases todo
      {
        var par :| par in todo;
        num := num[par := Count(num, par) + 1];
        todo, seen := todo - {par}, seen + {par};
      }
      SettledBoth(g, rep, children, parents, t);
      CountStep(rep, children, num0, num, fins, t);
    }

    /** The unfinished children of `t`. */
    method UnfinishedChildren(t: Block, fins: set<Block>) returns (pushed: seq<Block>)
      requires t in children
      ensures forall i :: 0 <= i < |pushed| ==> pushed[i] in children[t] && pushed[i] !in fins
      ensures children[t] <= fins || |pushed| > 0
    {
      pushed := [];
      var todo := children[t];
      ghost var seen: set<Block> := {};
      while todo != {}
        invariant todo + seen == children[t]
        invariant forall i :: 0 <= i < |pushed| ==> pushed[i] in children[t] && pushed[i] !in fins
        invariant seen <= fins || |pushed| > 0
        decreases todo
      {
        var ch :| ch in todo;
        if ch !in fins {
          pushed := pushed + [ch];
        }
        todo, seen := todo - {ch}, seen + {ch};
      }
    }

    /** Collects, for every bag, what is read in it and after it. A bag is finished once its children are; until then
        it is searched again after them. */
    method GetSucceedingVirtualRegsBags(rootBb: Block, ghost g: Succ, ghost ld: RegMaps, ghost order: seq<Block>)
      requires Closed(g) && LoopFree(g, rep, children, parents, order) && rootBb in g && ReachesAll(g, rootBb)
      requires bagOf == rep && bagNum == |Live(rep)| && OwnsClasses(rep, ownLd, ld)
      requires Backward(g, rep, ld, sucsLd, {})
      modifies `sucsLd
      ensures Backward(g, rep, ld, sucsLd, Live(rep))
    {
      hide Backward, OwnsClasses, LoopFree, Closed, IsRep, Connected, Settled, TopoOrder, ReachesAll, Counts, Live,
           TopIndex, FinsClosed, Stacked;
      LoopFreeParts(g, rep, children, parents, order);
      RepLive(g, rep, rootBb);
      SettledKeys(g, rep, children, parents);
      CountsNothing(rep, children);
      FinsClosedNone(children);
      StackedRoot(rep, rep[rootBb]);
      var stack := [bagOf[rootBb]];
      var num: map<Block, nat>, fins: set<Block> := map[], {};
      while |stack| > 0
        invariant Stacked(rep, stack, fins, num, rep[rootBb]) && FinsClosed(children, fins)
        invariant Counts(rep, children, num, fins) && Backward(g, rep, ld, sucsLd, fins)
        decreases |Live(rep) - fins|, TopIndex(order, stack, fins), |stack|
      {
        var t := stack[|stack| - 1];
        ghost var below := stack[..|stack| - 1];
        assert stack == below + [t];
        stack := stack[..|stack| - 1];
        StackedPop(rep, below, t, fins, num, rep[rootBb]);
        if t in fins {
          PopIndex(order, below, t, fins);
          continue;
        }
        ghost var num0 := num;
        ChildrenLive(g, rep, children, parents, order, t);
        CountsSame(rep, children, num, t, fins);
        if t !in num {
          num := num[t := 0];
        }
        CountFull(rep, children, num, fins, t);
        if |children[t]| == num[t] {
          MergeSucceeding(t, g, ld, order, fins);
          num := CountParents(t, num, g, fins);
          LiveLess(rep, fins, t);
          FinsClosedStep(children, fins, t);
          StackedFinish(rep, below, t, fins, num0, num, parents[t], rep[rootBb]);
          fins := fins + {t};
        } else {
          var pushed := UnfinishedChildren(t, fins);
          PushedIndex(g, rep, children, parents, order, below, t, pushed, fins);
          StackedPush(rep, below, t, pushed, fins, num0, num, rep[rootBb]);
          stack := stack + [t] + pushed;
        }
      }
      StackedDone(g, rep, children, parents, order, stack, fins, num, rootBb);
      SetSizes(fins, num, bagNum);
      assert |fins| == |num| && |fins| == bagNum;
    }

    // -------------------------------------------------------------------------
    // The whole analysis

    /** Makes the graph from the blocks and their predecessors. An edge from a block to itself is dropped. */
    constructor (ld: RegMaps, str: RegMaps, bbParents: map<Block, set<Block>>, garbage: set<Block>)
      requires ld.Keys == str.Keys
      requires ParentsWithin(ld.Keys, bbParents)
      ensures Built(CfgOf(ld.Keys, bbParents), ld, str) && converted == map[]
      ensures forall b :: b in isLoop && isLoop[b] <==> b in ld && b in garbage
      ensures sucsLd == ld && presLd == presStr == drvd == Nothing(ld)
    {
      bagOf := OwnBags(ld);
      bagNum := |ld|;
      ownLd, ownStr, sucsLd := ld, str, ld;
      presLd, presStr, drvd := Nothing(ld), Nothing(ld), Nothing(ld);
      inBbs, parents, children := Singles(ld), NoEdges(ld), NoEdges(ld);
      converted := map[];
      isLoop := LoopFlags(ld, garbage);
      new;
      hide EdgesBuilt, BuiltFrom, Identity, OwnBags, LoopFlags, Singles, Nothing, NoEdges, CfgOf, ParentsWithin, Has;
      LoopFlagsHold(ld, garbage);
      NoEdgesHas(ld);
      LinkAll(ld.Keys, bbParents);
      BuiltStart(ld, str, bbParents, children, parents, inBbs, isLoop);
    }

    /** Adds an edge between two bags for each block and each of its predecessors. */
    method LinkAll(ghost blocks: set<Block>, bbParents: map<Block, set<Block>>)
      requires children.Keys == blocks && parents.Keys == blocks
      requires forall x, y :: !Has(children, x, y) && !Has(parents, x, y)
      requires ParentsWithin(blocks, bbParents)
      modifies `children, `parents
      ensures EdgesBuilt(CfgOf(blocks, bbParents), children, parents)
    {
      var todo := bbParents.Keys;
      ghost var done: set<Block> := {};
      while todo != {}
        invariant todo + done == bbParents.Keys
        invariant children.Keys == blocks && parents.Keys == blocks
        invariant forall x, y {:trigger Has(children, x, y)} ::
                    Has(children, x, y) <==> x != y && y in done && Has(bbParents, y, x)
        invariant forall x, y {:trigger Has(parents, y, x)} ::
                    Has(parents, y, x) <==> x != y && y in done && Has(bbParents, y, x)
        decreases todo
      {
        var bb :| bb in todo;
        assert forall p :: p in bbParents[bb] ==> Has(bbParents, bb, p);
        LinkParents(blocks, bb, bbParents[bb]);
        todo, done := todo - {bb}, done + {bb};
      }
      CfgEdges(blocks, bbParents, children, parents);
    }

    method LinkParents(ghost blocks: set<Block>, bb: Block, pars: set<Block>)
      requires children.Keys == blocks && parents.Keys == blocks
      requires forall p :: p in pars ==> bb in blocks && p in blocks
      modifies `children, `parents
      ensures children.Keys == blocks && parents.Keys == blocks
      ensures forall x, y {:trigger Has(children, x, y)} ::
                Has(children, x, y) <==> old(Has(children, x, y)) || (y == bb && x in pars && x != bb)
      ensures forall x, y {:trigger Has(parents, y, x)} ::
                Has(parents, y, x) <==> old(Has(parents, y, x)) || (y == bb && x in pars && x != bb)
    {
      var todo := pars;
      ghost var done: set<Block> := {};
      while todo != {}
        invariant todo + done == pars
        invariant children.Keys == blocks && parents.Keys == blocks
        invariant forall x, y {:trigger Has(children, x, y)} ::
                    Has(children, x, y) <==> old(Has(children, x, y)) || (y == bb && x in done && x != bb)
        invariant forall x, y {:trigger Has(parents, y, x)} ::
                    Has(parents, y, x) <==> old(Has(parents, y, x)) || (y == bb && x in done && x != bb)
        decreases todo
      {
        var par :| par in todo;
        if par != bb {
          children := Insert(children, par, bb);
          parents := Insert(parents, bb, par);
        }
        todo, done := todo - {par}, done + {par};
      }
    }

    /** Removes loops, runs both passes and collects the derived registers of every bag. */
    method GetPhiRegsBags(rootBb: Block, ghost g: Succ, ghost ld: RegMaps, ghost str: RegMaps,
                          ghost garbage: set<Block>)
      requires Closed(g) && rootBb in g && ReachesAll(g, rootBb)
      requires Built(g, ld, str) && converted == map[]
      requires forall b :: b in garbage <==> b in isLoop && isLoop[b]
      requires sucsLd == ld && presLd == presStr == drvd == Nothing(ld)
      modifies this
      ensures ComponentBags(g, bagOf) && NamedAtEntries(g, rootBb, bagOf)
      ensures forall b :: b in g ==> b in bagOf && bagOf[b] in presStr
      ensures forall b, r :: b in g ==> (r in presStr[bagOf[b]] <==> TouchedBefore(g, str, b, r))
      ensures forall b :: b in g ==> b in bagOf && bagOf[b] in drvd
      ensures forall b, r :: b in g ==> (r in drvd[bagOf[b]] <==> NeedsPhi(g, ld, str, bagOf, garbage, b, r))
      ensures ClassesWidest(g, ld, str, bagOf, garbage, drvd)
    {
      hide LoopFree, OwnsClasses, ListsClasses, LoopsMarked, Forward, Backward, ReachesAll, Closed, BuiltFrom, Live,
           DrvdOf, NamedAtEntries, Searched, ClassesWidest;
      BuiltKeys(g, ld, str, children, parents, ownLd, ownStr, inBbs, bagNum, isLoop);
      ghost var order := RemoveLoop(rootBb, g, ld, str, garbage);
      LoopFreeIntro(g, rootBb, rep, children, parents, order);
      PassesStart(g, rep, children, parents, order, ld, str, sucsLd, presLd);
      GetPrecedingVirtualRegsBags(rootBb, g, ld, str, order);
      GetSucceedingVirtualRegsBags(rootBb, g, ld, order);
      CollectAllDrvd(g, ld, str, garbage, order);
      LoopFreeBags(g, rep, children, parents, order);
      PassIsTouched(g, rep, children, parents, order, str, presStr);
    }

    /** Collects the derived registers of each bag once. */
    method CollectAllDrvd(ghost g: Succ, ghost ld: RegMaps, ghost str: RegMaps, ghost garbage: set<Block>,
                          ghost order: seq<Block>)
      requires Closed(g) && LoopFree(g, rep, children, parents, order) && bagOf == rep
      requires OwnsClasses(rep, ownLd, ld) && LoopsMarked(rep, isLoop, garbage, {})
      requires Forward(g, rep, ld, presLd, Live(rep)) && Forward(g, rep, str, presStr, Live(rep))
      requires Backward(g, rep, ld, sucsLd, Live(rep))
      modifies `drvd
      ensures forall b :: b in g ==> b in bagOf && bagOf[b] in drvd
      ensures forall b, r :: b in g ==> (r in drvd[bagOf[b]] <==> NeedsPhi(g, ld, str, bagOf, garbage, b, r))
      ensures ClassesWidest(g, ld, str, bagOf, garbage, drvd)
    {
      hide LoopFree, OwnsClasses, LoopsMarked, Forward, Backward, Closed, DrvdOf, IsRep, NeedsPhi, JoinsBefore,
           JoinsAfter, OwnsClass, Plural, Live, DrvdAll, ClassesWidest;
      LoopFreeParts(g, rep, children, parents, order);
      DrvdNone(drvd, presLd, presStr, ownLd, sucsLd, isLoop);
      var todo := bagOf.Keys;
      var finished: set<Block> := {};
      while todo != {}
        invariant forall b :: b in todo ==> b in rep
        invariant forall b :: b in rep && b !in todo ==> rep[b] in finished
        invariant DrvdAll(drvd, presLd, presStr, ownLd, sucsLd, isLoop, finished)
        decreases todo
      {
        var bb :| bb in todo;
        todo := todo - {bb};
        var bag := bagOf[bb];
        if bag in finished {
          continue;
        }
        RepLive(g, rep, bb);
        PassesDone(g, rep, ld, str, ownLd, presLd, presStr, sucsLd, isLoop, garbage, bag);
        ghost var drvd0 := drvd;
        var m := CollectDrvd(presLd[bag], presStr[bag], ownLd[bag], sucsLd[bag], isLoop[bag]);
        drvd := drvd[bag := m];
        DrvdStep(drvd0, presLd, presStr, ownLd, sucsLd, isLoop, finished, bag, m);
        finished := finished + {bag};
      }
      DrvdCollected(g, rep, children, parents, order, ld, str, ownLd, presLd, presStr, sucsLd, isLoop, garbage, drvd,
        finished);
      ClassesCollected(g, rep, children, parents, order, ld, str, ownLd, presLd, presStr, sucsLd, isLoop, garbage, drvd,
        finished);
    }
  }
}
