/** What the fields of the bags say while loops are removed, and how one step of the search changes it. */
module LoopState {
  import opened Registers
  import opened Graphs
  import opened LoopSearch
  import opened Families

  type RegMaps = map<Block, RegMap>

  ghost function Class(rep: Rep, x: Block): set<Block> {
    set v | v in rep && rep[v] == x
  }

  /** A class of more than one block. */
  ghost predicate Plural(rep: Rep, x: Block) {
    exists y :: y in rep && y != x && rep[y] == x
  }

  lemma ClassMerged(g: Succ, rep: Rep, m: Block, t: Block, x: Block)
    requires IsRep(g, rep) && m in Live(rep) && t in Live(rep) && m != t && x in Live(rep) && x != m
    ensures Class(Merged(rep, m, t), x) == if x == t then Class(rep, t) + Class(rep, m) else Class(rep, x)
    ensures x == t ==> Plural(Merged(rep, m, t), x)
    ensures x != t ==> (Plural(Merged(rep, m, t), x) <==> Plural(rep, x))
  {
    if x == t {
      assert Merged(rep, m, t)[m] == t;
    }
    if x != t && Plural(rep, x) {
      var y :| y in rep && y != x && rep[y] == x;
      assert Merged(rep, m, t)[y] == x;
    }
  }

  /** The fields of all bags while loops are removed. `rep` names the live bag of each bag, and `dist` bounds the steps
      that `converted` takes to it. */
  datatype Fields = Fields(rep: Rep, dist: map<Block, nat>, converted: Rep, children: Succ, parents: Succ,
                           ownLd: RegMaps, ownStr: RegMaps, inBbs: map<Block, set<Block>>, bagNum: int)

  /** The map of each live bag joins the maps of the blocks of its class. */
  ghost predicate OwnsClass(rep: Rep, own: RegMaps, maps: RegMaps, x: Block) {
    x in own && Joins(own[x], maps, Class(rep, x))
  }

  ghost predicate OwnsClasses(rep: Rep, own: RegMaps, maps: RegMaps) {
    forall x {:trigger OwnsClass(rep, own, maps, x)} :: x in Live(rep) ==> OwnsClass(rep, own, maps, x)
  }

  lemma OwnsClassesMerged(g: Succ, rep: Rep, own: RegMaps, maps: RegMaps, t: Block, m: Block)
    requires IsRep(g, rep) && m in Live(rep) && t in Live(rep) && m != t && OwnsClasses(rep, own, maps)
    ensures t in own && m in own
    ensures OwnsClasses(Merged(rep, m, t), own[t := Widened(own[t], own[m])], maps)
  {
    assert OwnsClass(rep, own, maps, t) && OwnsClass(rep, own, maps, m);
    var own' := own[t := Widened(own[t], own[m])];
    JoinsWidened(own[t], own[m], maps, Class(rep, t), Class(rep, m));
    forall x | x in Live(Merged(rep, m, t))
      ensures OwnsClass(Merged(rep, m, t), own', maps, x)
    {
      assert OwnsClass(rep, own, maps, x);
      ClassMerged(g, rep, m, t, x);
    }
  }

  /** Each live bag lists the blocks of its class. */
  ghost predicate ListsClasses(rep: Rep, inBbs: map<Block, set<Block>>) {
    forall x :: x in Live(rep) ==> x in inBbs && inBbs[x] == Class(rep, x)
  }

  lemma ListsClassesMerged(g: Succ, rep: Rep, inBbs: map<Block, set<Block>>, t: Block, m: Block)
    requires IsRep(g, rep) && m in Live(rep) && t in Live(rep) && m != t && ListsClasses(rep, inBbs)
    ensures ListsClasses(Merged(rep, m, t), inBbs[t := inBbs[t] + inBbs[m]])
  {
    forall x | x in Live(Merged(rep, m, t))
      ensures inBbs[t := inBbs[t] + inBbs[m]][x] == Class(Merged(rep, m, t), x)
    {
      ClassMerged(g, rep, m, t, x);
    }
  }

  /** What every step of loop removal keeps: classes are strongly connected, pointers name the edges between classes,
      live bags hold the blocks, the reads and the writes of their class, and `bagNum` counts the live bags. */
  ghost predicate Consistent(g: Succ, ld: RegMaps, str: RegMaps, f: Fields) {
    && Closed(g) && IsRep(g, f.rep) && Connected(g, f.rep)
    && Forest(f.converted, f.rep, f.dist)
    && FamilyOk(g, f.rep, f.children, f.parents)
    && OwnsClasses(f.rep, f.ownLd, ld) && OwnsClasses(f.rep, f.ownStr, str) && ListsClasses(f.rep, f.inBbs)
    && f.bagNum == |Live(f.rep)|
  }

  lemma ConsistentParts(g: Succ, ld: RegMaps, str: RegMaps, f: Fields, x: Block)
    requires Consistent(g, ld, str, f) && x in Live(f.rep)
    ensures Closed(g) && IsRep(g, f.rep) && Connected(g, f.rep) && Forest(f.converted, f.rep, f.dist)
    ensures InRange(f.rep, f.children) && InRange(f.rep, f.parents)
    ensures f.rep.Keys == f.converted.Keys == f.dist.Keys
    ensures x in f.ownLd && x in f.ownStr && x in f.inBbs
  {
    assert OwnsClass(f.rep, f.ownLd, ld, x) && OwnsClass(f.rep, f.ownStr, str, x);
  }

  /** `f'` is `f` after the bag `m` has been merged into the bag `t`. */
  ghost predicate Absorbed(f: Fields, t: Block, m: Block, f': Fields) {
    && t in f.dist && f.rep.Keys == f.dist.Keys
    && t in f.ownLd && m in f.ownLd && t in f.ownStr && m in f.ownStr && t in f.inBbs && m in f.inBbs
    && f'.rep == Merged(f.rep, m, t)
    && f'.dist == MergedDist(f.rep, f.dist, t, m)
    && f'.converted == f.converted[m := t]
    && FamilyMoved(f.rep, f.children, f.parents, t, m, f'.children, f'.parents)
    && f'.ownLd == f.ownLd[t := Widened(f.ownLd[t], f.ownLd[m])]
    && f'.ownStr == f.ownStr[t := Widened(f.ownStr[t], f.ownStr[m])]
    && f'.inBbs == f.inBbs[t := f.inBbs[t] + f.inBbs[m]]
    && f'.bagNum == f.bagNum - 1
  }

  lemma AbsorbedRep(f: Fields, t: Block, m: Block, f': Fields)
    requires Absorbed(f, t, m, f')
    ensures f'.rep == Merged(f.rep, m, t)
  {
  }

  /** Merging two bags of one loop keeps everything that loop removal keeps. */
  lemma AbsorbedConsistent(g: Succ, f: Fields, f': Fields, ld: RegMaps, str: RegMaps, t: Block, m: Block)
    requires Consistent(g, ld, str, f) && Absorbed(f, t, m, f')
    requires m in Live(f.rep) && t in Live(f.rep) && m != t && SameComponent(g, m, t)
    ensures Consistent(g, ld, str, f')
  {
    MergedConnected(g, f.rep, m, t);
    MergedIsRep(g, f.rep, m, t);
    MergedCount(g, f.rep, m, t);
    FamilyMerged(g, f.rep, f.children, f.parents, t, m, f'.children, f'.parents);
    ForestMerged(f.converted, f.rep, f.dist, m, t);
    OwnsClassesMerged(g, f.rep, f.ownLd, ld, t, m);
    OwnsClassesMerged(g, f.rep, f.ownStr, str, t, m);
    ListsClassesMerged(g, f.rep, f.inBbs, t, m);
  }

  /** Apart from `except`, a live bag is marked as a loop if and only if it was so marked from the start or its class
      has several blocks. */
  ghost predicate LoopsMarked(rep: Rep, isLoop: map<Block, bool>, garbage: set<Block>, except: set<Block>) {
    && forall x :: x in Live(rep) && x !in except ==> x in isLoop && (isLoop[x] <==> x in garbage || Plural(rep, x))
  }

  lemma LoopsMarkedMerged(g: Succ, rep: Rep, isLoop: map<Block, bool>, garbage: set<Block>, t: Block, m: Block)
    requires IsRep(g, rep) && m in Live(rep) && t in Live(rep) && m != t
    requires LoopsMarked(rep, isLoop, garbage, {t})
    ensures LoopsMarked(Merged(rep, m, t), isLoop, garbage, {t})
  {
    var rep' := Merged(rep, m, t);
    forall x | x in Live(rep') && x != t
      ensures x in isLoop && (isLoop[x] <==> x in garbage || Plural(rep', x))
    {
      ClassMerged(g, rep, m, t, x);
    }
  }

  /** A loop was found at `t`: the path runs through its class, and every other visited bag is on the path. */
  ghost predicate OnLoop(g: Succ, rep: Rep, t: Block, path: seq<Block>, visited: set<Block>, base: seq<Mark>,
                         order: seq<Block>, root: Block)
  {
    && t in Live(rep) && PathTo(g, path, t) && OnPath(rep, path, t) && LiveOnPath(rep, path, visited, t)
    && TopoOrder(g, rep, order) && Pending(g, rep, base + [Explore(t)], order, root)
  }

  /** What is left of the path and the visited bags when `t` is searched again. */
  ghost predicate OffLoop(g: Succ, rep: Rep, t: Block, path: seq<Block>, rest: set<Block>, base: seq<Mark>,
                          order: seq<Block>, root: Block)
  {
    && t in Live(rep) && t !in rest && PathTo(g, path, t) && LiveOnPath(rep, path, rest, t)
    && TopoOrder(g, rep, order) && Pending(g, rep, base + [Explore(t)], order, root)
  }

  lemma OnLoopParts(g: Succ, ld: RegMaps, str: RegMaps, f: Fields, t: Block, path: seq<Block>, visited: set<Block>,
                    base: seq<Mark>, order: seq<Block>, root: Block)
    requires Consistent(g, ld, str, f) && OnLoop(g, f.rep, t, path, visited, base, order, root)
    ensures |path| > 0 && path[|path| - 1] in f.converted && path[|path| - 1] in f.rep
    ensures var m := f.rep[path[|path| - 1]];
            && t in f.ownLd && t in f.ownStr && t in f.inBbs && m in f.ownLd && m in f.ownStr && m in f.inBbs
            && t in Live(f.rep) && m in Live(f.rep)
            && Forest(f.converted, f.rep, f.dist) && InRange(f.rep, f.children) && InRange(f.rep, f.parents)
  {
    PathLoop(g, f.rep, path, t);
    ConsistentParts(g, ld, str, f, t);
    ConsistentParts(g, ld, str, f, f.rep[path[|path| - 1]]);
  }

  lemma OnLoopDone(g: Succ, rep: Rep, t: Block, path: seq<Block>, visited: set<Block>, base: seq<Mark>,
                   order: seq<Block>, root: Block)
    requires OnLoop(g, rep, t, path, visited, base, order, root)
    requires |path| > 0 && path[|path| - 1] in rep && rep[path[|path| - 1]] == t
    ensures OffLoop(g, rep, t, path[..|path| - 1], visited - {t}, base, order, root)
  {
    LiveOnPathPop(rep, rep, path, visited, t);
  }

  lemma CollapseStep(g: Succ, ld: RegMaps, str: RegMaps, f: Fields, f': Fields, isLoop: map<Block, bool>,
                     garbage: set<Block>, rep0: Rep, t: Block, path: seq<Block>, visited: set<Block>, base: seq<Mark>,
                     order: seq<Block>, root: Block)
    requires Consistent(g, ld, str, f) && LoopsMarked(f.rep, isLoop, garbage, {t})
    requires OnLoop(g, f.rep, t, path, visited, base, order, root) && Coarser(rep0, f.rep)
    requires |path| > 0 && path[|path| - 1] in f.rep && f.rep[path[|path| - 1]] != t
    requires Absorbed(f, t, f.rep[path[|path| - 1]], f')
    ensures Consistent(g, ld, str, f') && LoopsMarked(f'.rep, isLoop, garbage, {t})
    ensures OnLoop(g, f'.rep, t, path[..|path| - 1], visited - {f.rep[path[|path| - 1]]}, base, order, root)
    ensures Coarser(rep0, f'.rep) && Plural(f'.rep, t) && |Live(f'.rep)| == |Live(f.rep)| - 1 && f'.rep != f.rep
  {
    hide Consistent, LoopsMarked, Plural, PathTo, OnPath, LiveOnPath, TopoOrder, Pending, Coarser, Live, Merged,
         IsRep, Connected, Closed, Forest, FamilyOk, InRange, SameComponent;
    var m := f.rep[path[|path| - 1]];
    OnLoopParts(g, ld, str, f, t, path, visited, base, order, root);
    ConsistentParts(g, ld, str, f, t);
    PathLoop(g, f.rep, path, t);
    LiveOnPathPop(f.rep, f'.rep, path, visited, t);
    OnPathPop(f.rep, path, t, m);
    PathToPop(g, path, t);
    PendingMerge(g, f.rep, base, t, m, order, root);
    CoarserMerged(rep0, f.rep, m, t);
    LoopsMarkedMerged(g, f.rep, isLoop, garbage, t, m);
    MergedCount(g, f.rep, m, t);
    ClassMerged(g, f.rep, m, t, t);
    AbsorbedConsistent(g, f, f', ld, str, t, m);
    MergedStay(g, f.rep, m, t);
  }

  lemma MergedStay(g: Succ, rep: Rep, m: Block, t: Block)
    requires IsRep(g, rep) && m in Live(rep) && t in Live(rep) && m != t
    ensures m !in Live(Merged(rep, m, t)) && t in Live(Merged(rep, m, t))
  {
  }

  lemma CoarserSelf(rep: Rep)
    ensures Coarser(rep, rep)
  {
  }

  lemma LoopsMarkedWeaken(rep: Rep, isLoop: map<Block, bool>, garbage: set<Block>, t: Block)
    requires LoopsMarked(rep, isLoop, garbage, {})
    ensures LoopsMarked(rep, isLoop, garbage, {t})
  {
  }

  lemma LoopsMarkedSet(rep: Rep, isLoop: map<Block, bool>, garbage: set<Block>, t: Block)
    requires LoopsMarked(rep, isLoop, garbage, {t}) && Plural(rep, t)
    ensures LoopsMarked(rep, isLoop[t := true], garbage, {})
  {
  }

  /** The class on top of the stack was visited before: its path closes a loop. */
  lemma LoopFound(g: Succ, rep: Rep, stack: seq<Entry>, base: seq<Mark>, order: seq<Block>, root: Block)
    requires IsRep(g, rep) && Connected(g, rep) && EntriesOk(g, rep, stack) && |stack| > 0
    requires TopoOrder(g, rep, order) && Pending(g, rep, base + [Explore(stack[|stack| - 1].bag)], order, root)
    requires var e := stack[|stack| - 1]; e.bag in rep && rep[e.bag] in Image(rep, e.visited)
    ensures var e := stack[|stack| - 1];
            && OnLoop(g, rep, rep[e.bag], e.path, Image(rep, e.visited), base, order, root)
            && |e.path| > 0 && e.path[|e.path| - 1] in rep
            && (Plural(rep, rep[e.bag]) || rep[e.path[|e.path| - 1]] != rep[e.bag])
  {
    hide TopoOrder, Pending;
    var e := stack[|stack| - 1];
    var t := rep[e.bag];
    assert SameComponent(g, e.bag, t);
    forall i | 0 <= i < |e.path|
      ensures Reach(g, e.path[i], t)
    {
      ReachTrans(g, e.path[i], e.bag, t);
    }
    VisitedLive(rep, e, t);
    PendingRename(g, rep, base, e.bag, order, root);
    var last := e.path[|e.path| - 1];
    if rep[last] == t {
      assert last != e.bag;
      assert Plural(rep, t) by {
        var y := if last == t then e.bag else last;
        assert y in rep && y != t && rep[y] == t;
      }
    }
  }

  lemma VisitedLive(rep: Rep, e: Entry, t: Block)
    requires VisitedOnPath(rep, e.path, e.visited) && t in Image(rep, e.visited)
    requires forall x :: x in rep ==> rep[x] in rep && rep[rep[x]] == rep[x]
    ensures LiveOnPath(rep, e.path, Image(rep, e.visited), t) && OnPath(rep, e.path, t)
  {
    forall v | v in Image(rep, e.visited)
      ensures v in Live(rep) && OnPath(rep, e.path, v)
    {
      var u :| u in e.visited && u in rep && rep[u] == v;
      assert OnPath(rep, e.path, rep[u]);
    }
  }

  lemma PendingRename(g: Succ, rep: Rep, base: seq<Mark>, x: Block, order: seq<Block>, root: Block)
    requires IsRep(g, rep) && x in rep && Pending(g, rep, base + [Explore(x)], order, root)
    ensures Pending(g, rep, base + [Explore(rep[x])], order, root)
  {
    var pend := base + [Explore(rep[x])];
    assert pend[|base|] == Explore(rep[x]);
    assert Covered(rep, pend, order, |base| - 1, rep[x]);
    PendingReplace(g, rep, base, Explore(x), [Explore(rep[x])], order, order, root);
  }

  /** After a collapse the search goes on at the bag where the loop was found. */
  lemma SearchRetry(g: Succ, rep0: Rep, rep: Rep, stack: seq<Entry>, finished: set<Block>, t: Block, path: seq<Block>,
                    rest: set<Block>, base: seq<Mark>, order: seq<Block>, root: Block)
    requires IsRep(g, rep) && EntriesOk(g, rep0, stack) && |stack| > 0 && Coarser(rep0, rep)
    requires Unexplored(base) == BagsOf(stack[..|stack| - 1])
    requires AllListed(finished, order)
    requires OffLoop(g, rep, t, path, rest, base, order, root)
    ensures Searching(g, rep, stack[..|stack| - 1] + [Entry(t, path, rest)], finished, base + [Explore(t)], order, root)
  {
    hide TopoOrder, Pending, PathTo;
    var below := stack[..|stack| - 1];
    var e := Entry(t, path, rest);
    UnexploredPush(base, Explore(t));
    assert BagsOf(below + [e]) == BagsOf(below) + [t];
    RetryEntryOk(g, rep, e);
    var all := below + [e];
    forall i | 0 <= i < |all|
      ensures EntryOk(g, rep, all[i])
    {
      if i < |below| {
        assert all[i] == stack[i];
        EntryOkCoarser(g, rep0, rep, stack[i]);
      }
    }
    forall i | 0 <= i < |all| - 1 && |all[i].path| > 0
      ensures all[i].path[|all[i].path| - 1] != all[i].bag
    {
      assert all[i] == stack[i];
    }
  }

  lemma RetryEntryOk(g: Succ, rep: Rep, e: Entry)
    requires IsRep(g, rep) && e.bag in Live(rep) && e.bag !in e.visited
    requires PathTo(g, e.path, e.bag) && LiveOnPath(rep, e.path, e.visited, e.bag)
    ensures EntryOk(g, rep, e) && Fresh(rep, e)
  {
    forall v | v in e.visited
      ensures v in rep && rep[v] == v && OnPath(rep, e.path, rep[v])
    {
    }
  }

  lemma FamilyFacts(g: Succ, rep: Rep, children: Succ, parents: Succ, x: Block)
    requires FamilyOk(g, rep, children, parents) && IsRep(g, rep) && x in rep
    ensures rep[x] in children && children[rep[x]] <= rep.Keys
  {
    forall c | c in children[rep[x]]
      ensures c in rep
    {
      assert Has(children, rep[x], c);
    }
  }

  /** Every entry of `kids` is for a child of `target`, one step further than `target`. */
  ghost predicate KidsOk(rep: Rep, children: Succ, target: Block, path: seq<Block>, visited: set<Block>,
                         kids: seq<Entry>) {
    forall k :: 0 <= k < |kids| ==>
      && kids[k].bag in Live(rep) && kids[k].bag != target && Names(rep, children, target, kids[k].bag)
      && kids[k].path == path + [target] && kids[k].visited == visited + {target}
  }

  lemma KidsNone(rep: Rep, children: Succ, target: Block, path: seq<Block>, visited: set<Block>)
    ensures KidsOk(rep, children, target, path, visited, [])
  {
  }

  lemma KidsAdd(rep: Rep, children: Succ, target: Block, path: seq<Block>, visited: set<Block>, kids: seq<Entry>,
                kid: Entry)
    requires KidsOk(rep, children, target, path, visited, kids)
    requires kid.bag in Live(rep) && kid.bag != target && Names(rep, children, target, kid.bag)
    requires kid.path == path + [target] && kid.visited == visited + {target}
    ensures KidsOk(rep, children, target, path, visited, kids + [kid])
  {
    hide Names;
  }

  /** Once every child has been looked at, an entry is left for each unfinished class an edge leads to. */
  lemma ChildrenPushed(g: Succ, rep: Rep, children: Succ, parents: Succ, e: Entry, finished: set<Block>,
                       kids: seq<Entry>)
    requires FamilyOk(g, rep, children, parents) && IsRep(g, rep) && e.bag in rep
    requires |kids| <= |children[rep[e.bag]]|
    requires KidsOk(rep, children, rep[e.bag], e.path, Image(rep, e.visited), kids)
    requires var t := rep[e.bag]; forall c :: c in children[t] && c in rep && rep[c] != t ==>
               rep[c] in finished || Pushed(kids, rep[c])
    ensures ChildEntries(g, rep, e, finished, kids) && |kids| <= |g|
  {
    hide Pushed, Image;
    var t := rep[e.bag];
    forall c | QEdge(g, rep, t, c) && c != t
      ensures c in finished || Pushed(kids, c)
    {
      assert Names(rep, children, t, c);
      var d :| NamesBy(rep, children, t, c, d);
    }
    FamilyFacts(g, rep, children, parents, e.bag);
    SubsetSize(children[t], g.Keys);
  }

  /** The energy of a search state, zero for a stack that is none. */
  ghost function SearchEnergy(g: Succ, rep: Rep, stack: seq<Entry>): nat {
    if IsRep(g, rep) && EntriesIn(g, stack) then Energy(g, rep, stack) else 0
  }

  lemma DropEnergy(g: Succ, rep: Rep, stack: seq<Entry>)
    requires IsRep(g, rep) && EntriesOk(g, rep, stack) && |stack| > 0
    ensures SearchEnergy(g, rep, stack[..|stack| - 1]) < SearchEnergy(g, rep, stack)
  {
    var e := stack[|stack| - 1];
    assert stack == stack[..|stack| - 1] + [e];
    EnergyPush(g, rep, stack[..|stack| - 1], e);
  }

  lemma PushEnergy(g: Succ, rep: Rep, stack: seq<Entry>, finished: set<Block>, kids: seq<Entry>)
    requires IsRep(g, rep) && EntriesOk(g, rep, stack) && |stack| > 0
    requires EntriesOk(g, rep, stack[..|stack| - 1] + kids)
    requires var e := stack[|stack| - 1]; e.bag in rep && rep[e.bag] !in Image(rep, e.visited)
    requires ChildEntries(g, rep, stack[|stack| - 1], finished, kids) && |kids| <= |g|
    ensures SearchEnergy(g, rep, stack[..|stack| - 1] + kids) < SearchEnergy(g, rep, stack)
  {
    hide Energy, ChildEntries, Image;
    var below, e := stack[..|stack| - 1], stack[|stack| - 1];
    assert stack == below + [e];
    forall i | 0 <= i < |kids|
      ensures EntryIn(g, kids[i])
    {
      assert (below + kids)[|below| + i] == kids[i];
    }
    ExpandEnergy(g, rep, below, e, finished, kids);
  }

  lemma RetryLowersEnergy(g: Succ, rep: Rep, stack: seq<Entry>, e': Entry)
    requires IsRep(g, rep) && EntriesOk(g, rep, stack) && |stack| > 0
    requires EntriesOk(g, rep, stack[..|stack| - 1] + [e'])
    requires var e := stack[|stack| - 1];
             && e.bag in rep && rep[e.bag] in Image(rep, e.visited)
             && |e.path| > 0 && e.path[|e.path| - 1] in rep && rep[e.path[|e.path| - 1]] == rep[e.bag]
             && e'.bag == rep[e.bag] && e'.visited == Image(rep, e.visited) - {rep[e.bag]}
    ensures SearchEnergy(g, rep, stack[..|stack| - 1] + [e']) < SearchEnergy(g, rep, stack)
  {
    hide Energy, Image, Weight;
    var below, e := stack[..|stack| - 1], stack[|stack| - 1];
    assert stack == below + [e];
    assert (below + [e'])[|below|] == e';
    WeightRetry(g, rep, e, e');
    RetryEnergy(g, rep, below, e, e');
  }

  lemma SearchingEntries(g: Succ, rep: Rep, stack: seq<Entry>, finished: set<Block>, pend: seq<Mark>, order: seq<Block>,
                         root: Block)
    requires Searching(g, rep, stack, finished, pend, order, root)
    ensures EntriesOk(g, rep, stack)
  {
  }

  lemma TopCollapsed(g: Succ, rep0: Rep, rep: Rep, merged: bool, stack: seq<Entry>, e: Entry, finished: set<Block>,
                     visited: set<Block>, t: Block, path: seq<Block>, rest: set<Block>, base: seq<Mark>,
                     order: seq<Block>, root: Block)
    requires IsRep(g, rep0) && IsRep(g, rep) && EntriesOk(g, rep0, stack) && |stack| > 0 && Coarser(rep0, rep)
    requires Unexplored(base) == BagsOf(stack[..|stack| - 1]) && AllListed(finished, order)
    requires OffLoop(g, rep, t, path, rest, base, order, root)
    requires e == stack[|stack| - 1] && e.bag in rep0 && t == rep0[e.bag] && visited == Image(rep0, e.visited)
    requires t in visited
    requires |e.path| > 0 && e.path[|e.path| - 1] in rep0
    requires !merged ==> rep == rep0 && rep0[e.path[|e.path| - 1]] == t && rest == visited - {t}
    ensures Searching(g, rep, stack[..|stack| - 1] + [Entry(t, path, rest)], finished, base + [Explore(t)], order, root)
    ensures !merged ==>
              SearchEnergy(g, rep, stack[..|stack| - 1] + [Entry(t, path, rest)]) < SearchEnergy(g, rep, stack)
  {
    hide Coarser, OffLoop, Searching, SearchEnergy, EntriesOk, Image, IsRep, BagsOf, Unexplored;
    SearchRetry(g, rep0, rep, stack, finished, t, path, rest, base, order, root);
    if !merged {
      SearchingEntries(g, rep, stack[..|stack| - 1] + [Entry(t, path, rest)], finished, base + [Explore(t)], order,
        root);
      RetryLowersEnergy(g, rep, stack, Entry(t, path, rest));
    }
  }

  // While bags are replaced by their live bags, those of `done` have been resolved.

  ghost predicate ResolvedAt(rep: Rep, family0: Succ, family: Succ, done: set<Block>, x: Block) {
    && x in family0 && x in family && (forall c :: c in family0[x] ==> c in rep)
    && family[x] == if x in done then Others(rep, family0[x], x) else family0[x]
  }

  ghost predicate Resolved(rep: Rep, family0: Succ, family: Succ, done: set<Block>) {
    forall x {:trigger ResolvedAt(rep, family0, family, done, x)} :: x in rep ==>
      ResolvedAt(rep, family0, family, done, x)
  }

  ghost predicate BagsMapped(rep: Rep, bagOf: map<Block, Block>, todo: set<Block>, done: set<Block>) {
    && bagOf.Keys == rep.Keys
    && (forall b :: b in todo ==> b in bagOf)
    && (forall b :: b in bagOf ==> bagOf[b] == if b in todo then b else rep[b])
    && (forall b :: b in bagOf && b !in todo ==> rep[b] in done)
  }

  lemma UpdateStart(g: Succ, rep: Rep, children: Succ, parents: Succ)
    requires FamilyOk(g, rep, children, parents)
    ensures Resolved(rep, children, children, {}) && Resolved(rep, parents, parents, {})
  {
    forall x | x in rep
      ensures ResolvedAt(rep, children, children, {}, x) && ResolvedAt(rep, parents, parents, {}, x)
    {
      assert forall c :: Has(children, x, c) ==> c in rep;
      assert forall c :: Has(parents, x, c) ==> c in rep;
      assert forall c :: c in children[x] ==> Has(children, x, c);
      assert forall c :: c in parents[x] ==> Has(parents, x, c);
    }
  }

  lemma NothingMapped(g: Succ, rep: Rep, bagOf: map<Block, Block>)
    requires rep.Keys == g.Keys && bagOf == Identity(g)
    ensures BagsMapped(rep, bagOf, bagOf.Keys, {})
  {
  }

  lemma BagsMappedAt(rep: Rep, bagOf: map<Block, Block>, todo: set<Block>, done: set<Block>, b: Block)
    requires BagsMapped(rep, bagOf, todo, done) && b in todo
    ensures b in bagOf && bagOf[b] == b && b in rep
  {
  }

  lemma BagsMappedStep(rep: Rep, bagOf: map<Block, Block>, todo: set<Block>, done: set<Block>, b: Block)
    requires BagsMapped(rep, bagOf, todo, done) && b in todo && b in rep
    ensures BagsMapped(rep, bagOf[b := rep[b]], todo - {b}, done + {rep[b]})
  {
  }

  lemma ResolvedStep(g: Succ, rep: Rep, family0: Succ, family: Succ, done: set<Block>, t: Block)
    requires IsRep(g, rep) && Resolved(rep, family0, family, done) && t in rep
    ensures t in family && forall c :: c in family[t] ==> c in rep
    ensures Resolved(rep, family0, family[t := Others(rep, family[t], t)], done + {t})
  {
    hide Others;
    assert ResolvedAt(rep, family0, family, done, t);
    OthersTwice(g, rep, family0[t], t);
    OthersInRange(g, rep, family0[t], t);
    var family' := family[t := Others(rep, family[t], t)];
    forall x | x in rep
      ensures ResolvedAt(rep, family0, family', done + {t}, x)
    {
      assert ResolvedAt(rep, family0, family, done, x);
    }
  }

  lemma UpdateEnd(g: Succ, rep: Rep, bagOf: map<Block, Block>, children0: Succ, children: Succ, parents0: Succ,
                  parents: Succ, done: set<Block>)
    requires FamilyOk(g, rep, children0, parents0) && IsRep(g, rep) && BagsMapped(rep, bagOf, {}, done)
    requires Resolved(rep, children0, children, done) && Resolved(rep, parents0, parents, done)
    ensures bagOf == rep && Settled(g, rep, children, parents)
  {
    hide Others, Settled, FamilyOk;
    forall x | x in Live(rep)
      ensures x in children && x in children0 && children[x] == Others(rep, children0[x], x)
      ensures x in parents && x in parents0 && parents[x] == Others(rep, parents0[x], x)
    {
      assert bagOf[x] == x && rep[x] in done;
      assert ResolvedAt(rep, children0, children, done, x) && ResolvedAt(rep, parents0, parents, done, x);
    }
    OthersSettled(g, rep, children0, parents0, children, parents);
  }

  ghost predicate ReachesAll(g: Succ, root: Block) {
    forall x :: x in g ==> Reach(g, root, x)
  }

  ghost predicate EdgesBuilt(g: Succ, children: Succ, parents: Succ) {
    && children.Keys == g.Keys && parents.Keys == g.Keys
    && (forall x, y :: Has(children, x, y) <==> Has(g, x, y))
    && (forall x, y :: Has(parents, y, x) <==> Has(g, x, y))
  }

  /** What loop removal achieves: the classes are the strongly connected components, the families of live bags are the
      edges between them, and `order` lists every live bag after all its children. */
  ghost predicate LoopFree(g: Succ, rep: Rep, children: Succ, parents: Succ, order: seq<Block>) {
    && IsRep(g, rep) && Connected(g, rep)
    && (forall a, b :: a in g && b in g ==> (rep[a] == rep[b] <==> SameComponent(g, a, b)))
    && Settled(g, rep, children, parents)
    && TopoOrder(g, rep, order) && (forall x :: x in Live(rep) ==> x in order)
  }

  lemma StartFamily(g: Succ, rep: Rep, children: Succ, parents: Succ)
    requires Closed(g) && EdgesBuilt(g, children, parents) && rep.Keys == g.Keys && forall x :: x in rep ==> rep[x] == x
    ensures FamilyOk(g, rep, children, parents)
  {
    forall x, y | x in Live(rep)
      ensures Names(rep, children, x, y) <==> QEdge(g, rep, x, y)
    {
      if Names(rep, children, x, y) {
        var c :| NamesBy(rep, children, x, y, c);
        assert Has(g, x, y);
        QEdgeIntro(g, rep, x, y);
      }
      if QEdge(g, rep, x, y) {
        var v, w :| EdgeBetween(g, rep, x, y, v, w);
        assert Has(g, x, y);
        NamesIntro(rep, children, x, y);
      }
    }
    forall x, y | y in Live(rep)
      ensures Names(rep, parents, y, x) <==> QEdge(g, rep, x, y)
    {
      if Names(rep, parents, y, x) {
        var c :| NamesBy(rep, parents, y, x, c);
        assert Has(g, x, y);
        QEdgeIntro(g, rep, x, y);
      }
      if QEdge(g, rep, x, y) {
        var v, w :| EdgeBetween(g, rep, x, y, v, w);
        assert Has(g, x, y);
        NamesIntro(rep, parents, y, x);
      }
    }
    forall x, c | Has(children, x, c)
      ensures c in rep
    {
      assert Has(g, x, c);
    }
    forall x, c | Has(parents, x, c)
      ensures c in rep
    {
      assert Has(g, c, x);
    }
  }

  /** One bag for each block, and an edge between two bags for each edge between their blocks. */
  ghost predicate BuiltFrom(g: Succ, ld: RegMaps, str: RegMaps, children: Succ, parents: Succ, ownLd: RegMaps,
                            ownStr: RegMaps, inBbs: map<Block, set<Block>>, bagNum: int, isLoop: map<Block, bool>)
  {
    && EdgesBuilt(g, children, parents)
    && ownLd == ld && ld.Keys == g.Keys
    && ownStr == str && str.Keys == g.Keys
    && inBbs.Keys == g.Keys && (forall b :: b in inBbs ==> inBbs[b] == {b})
    && isLoop.Keys == g.Keys
    && bagNum == |g|
  }

  ghost function Identity(g: Succ): Rep {
    map b | b in g :: b
  }

  ghost function Zeros(g: Succ): map<Block, nat> {
    map b | b in g :: 0
  }

  lemma StartClasses(g: Succ)
    requires Closed(g)
    ensures IsRep(g, Identity(g)) && Connected(g, Identity(g)) && Live(Identity(g)) == g.Keys
    ensures |Live(Identity(g))| == |g|
    ensures forall x :: x in g ==> Class(Identity(g), x) == {x} && !Plural(Identity(g), x)
  {
    forall x | x in g
      ensures SameComponent(g, x, x) && Class(Identity(g), x) == {x} && !Plural(Identity(g), x)
    {
      ReachSelf(g, x);
    }
  }

  lemma StartForest(g: Succ)
    ensures Forest(Identity(g), Identity(g), Zeros(g))
  {
    var dist := Zeros(g);
    assert forall x :: x in Identity(g) ==> ForestAt(Identity(g), Identity(g), dist, x);
  }

  lemma StartLists(g: Succ, inBbs: map<Block, set<Block>>, isLoop: map<Block, bool>, garbage: set<Block>)
    requires Closed(g) && inBbs.Keys == g.Keys && forall b :: b in inBbs ==> inBbs[b] == {b}
    requires isLoop.Keys == g.Keys && forall x :: x in garbage <==> x in isLoop && isLoop[x]
    ensures ListsClasses(Identity(g), inBbs) && LoopsMarked(Identity(g), isLoop, garbage, {})
  {
    StartClasses(g);
  }

  lemma StartConsistent(g: Succ, ld: RegMaps, str: RegMaps, f: Fields, isLoop: map<Block, bool>, garbage: set<Block>)
    requires Closed(g) && BuiltFrom(g, ld, str, f.children, f.parents, f.ownLd, f.ownStr, f.inBbs, f.bagNum, isLoop)
    requires f.rep == f.converted == Identity(g) && f.dist == Zeros(g)
    requires forall x :: x in garbage <==> x in isLoop && isLoop[x]
    ensures Consistent(g, ld, str, f) && LoopsMarked(f.rep, isLoop, garbage, {})
  {
    hide FamilyOk, OwnsClasses, EdgesBuilt, ListsClasses, LoopsMarked, Forest, IsRep, Connected, Closed, Live, Identity,
         Class, Plural;
    IdentityKeys(g);
    StartFamily(g, f.rep, f.children, f.parents);
    StartOwns(f.rep, ld);
    StartOwns(f.rep, str);
    StartClasses(g);
    StartForest(g);
    StartLists(g, f.inBbs, isLoop, garbage);
  }

  lemma IdentityIs(g: Succ, m: map<Block, Block>)
    requires (forall b :: b in m <==> b in g) && forall b :: b in m ==> m[b] == b
    ensures m == Identity(g)
  {
  }

  lemma IdentityKeys(g: Succ)
    ensures Identity(g).Keys == g.Keys && forall x :: x in Identity(g) ==> Identity(g)[x] == x
  {
  }

  lemma StartOwns(rep: Rep, maps: RegMaps)
    requires rep.Keys == maps.Keys && forall x :: x in rep ==> rep[x] == x
    ensures OwnsClasses(rep, maps, maps)
  {
    forall x | x in Live(rep)
      ensures OwnsClass(rep, maps, maps, x)
    {
      JoinsSelf(maps, x);
      assert Class(rep, x) == {x};
    }
  }

  lemma StartSearching(g: Succ, rep: Rep, root: Block)
    requires root in rep && rep.Keys == g.Keys && rep[root] == root
    ensures Searching(g, rep, [Entry(root, [], {})], {}, [Explore(root)], [], root)
  {
    var pend := [Explore(root)];
    assert pend[0].id == root;
    assert Covered(rep, pend, [], -1, root);
    UnexploredPush([], Explore(root));
    assert [] + pend == pend;
    assert BagsOf([Entry(root, [], {})]) == [root];
  }

  lemma SearchDone(g: Succ, ld: RegMaps, str: RegMaps, f: Fields, finished: set<Block>, stack: seq<Entry>,
                   pend: seq<Mark>, order: seq<Block>, root: Block)
    returns (order': seq<Block>)
    requires Consistent(g, ld, str, f) && Searching(g, f.rep, stack, finished, pend, order, root) && stack == []
    ensures TopoOrder(g, f.rep, order') && root in f.rep && f.rep[root] in order'
  {
    var pend';
    pend', order' := FinishTop(g, f.rep, pend, order, root);
    assert Unexplored(pend') == [];
    assert pend' == [];
    PendingDone(g, f.rep, order', root);
  }

  /** What loop removal achieves in any graph: the classes that the root reaches are strongly connected components and
      lie on no loop; `order` lists each of them after all that it leads to. */
  ghost predicate Searched(g: Succ, root: Block, rep: Rep, children: Succ, parents: Succ, order: seq<Block>) {
    && IsRep(g, rep) && Connected(g, rep) && Settled(g, rep, children, parents) && TopoOrder(g, rep, order)
    && (forall x :: x in g && Reach(g, root, x) ==> rep[x] in order)
    && (forall a, b :: a in g && b in g && Reach(g, root, a) ==> (rep[a] == rep[b] <==> SameComponent(g, a, b)))
  }

  lemma SearchedIntro(g: Succ, ld: RegMaps, str: RegMaps, f: Fields, root: Block, children: Succ, parents: Succ,
                      order: seq<Block>)
    requires Consistent(g, ld, str, f) && Settled(g, f.rep, children, parents)
    requires TopoOrder(g, f.rep, order) && root in f.rep && f.rep[root] in order
    ensures Searched(g, root, f.rep, children, parents, order)
    ensures OwnsClasses(f.rep, f.ownLd, ld) && OwnsClasses(f.rep, f.ownStr, str) && ListsClasses(f.rep, f.inBbs)
    ensures f.bagNum == |Live(f.rep)|
  {
    hide OwnsClasses, ListsClasses, Settled, TopoOrder, SameComponent, FamilyOk, Forest, Reach;
    forall x | x in g && Reach(g, root, x)
      ensures f.rep[x] in order
    {
      TopoReached(g, f.rep, order, root, x);
    }
    forall a, b | a in g && b in g && Reach(g, root, a)
      ensures f.rep[a] == f.rep[b] <==> SameComponent(g, a, b)
    {
      TopoComponents(g, f.rep, order, a, b);
    }
  }

  /** Where the root reaches every block, all bags are components. */
  lemma LoopFreeIntro(g: Succ, root: Block, rep: Rep, children: Succ, parents: Succ, order: seq<Block>)
    requires Searched(g, root, rep, children, parents, order) && ReachesAll(g, root)
    ensures LoopFree(g, rep, children, parents, order)
  {
    hide Settled, TopoOrder, SameComponent, Connected, Reach;
  }

  lemma NothingPushed(g: Succ, rep: Rep, e: Entry, finished: set<Block>)
    requires ChildEntries(g, rep, e, finished, [])
    ensures e.bag in rep && forall c :: QEdge(g, rep, rep[e.bag], c) && c != rep[e.bag] ==> c in finished
  {
  }

  lemma ConsistentRep(g: Succ, ld: RegMaps, str: RegMaps, f: Fields)
    requires Consistent(g, ld, str, f)
    ensures IsRep(g, f.rep) && Connected(g, f.rep)
  {
  }

  lemma ConsistentAll(g: Succ, ld: RegMaps, str: RegMaps, f: Fields)
    requires Consistent(g, ld, str, f)
    ensures Closed(g) && IsRep(g, f.rep) && Connected(g, f.rep) && Forest(f.converted, f.rep, f.dist)
    ensures FamilyOk(g, f.rep, f.children, f.parents) && f.converted.Keys == f.rep.Keys == g.Keys
  {
  }

  lemma SearchParts(g: Succ, rep: Rep, stack: seq<Entry>, finished: set<Block>, pend: seq<Mark>, order: seq<Block>,
                    root: Block)
    requires Searching(g, rep, stack, finished, pend, order, root)
    requires rep.Keys == g.Keys && |stack| > 0
    ensures EntriesOk(g, rep, stack) && stack[|stack| - 1].bag in rep
    ensures forall v :: v in stack[|stack| - 1].visited ==> v in rep
  {
    assert EntryOk(g, rep, stack[|stack| - 1]);
  }
}
