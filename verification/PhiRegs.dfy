/** Which registers get a phi in which block, stated on the control-flow graph alone. */
module PhiRegs {
  import opened Registers
  import opened Graphs
  import opened LoopSearch
  import opened Families
  import opened LoopState
  import opened Dataflow

  // ---------------------------------------------------------------------------
  // The map of derived registers of one bag

  ghost function ArgsOf(presStr: RegMap): RegMap {
    map r | r in presStr && r.CheckPassedArgsRegs() :: presStr[r]
  }

  ghost function Among(m: RegMap, regs: set<EcvReg>): RegMap {
    map r | r in m && r in regs :: m[r]
  }

  /** The derived registers of a bag from what it reads, what lies before it and what is read after it. */
  ghost function DrvdOf(presLd: RegMap, presStr: RegMap, ownLd: RegMap, sucsLd: RegMap, isLoop: bool): RegMap {
    var passed := ArgsOf(presStr);
    var looped := if isLoop then Widened(passed, ownLd) else passed;
    Widened(looped, Among(Widened(presStr, presLd), sucsLd.Keys))
  }

  /** Which registers are derived, and that none of the classes they come from is larger than theirs. */
  lemma DrvdMembers(presLd: RegMap, presStr: RegMap, ownLd: RegMap, sucsLd: RegMap, isLoop: bool, r: EcvReg)
    ensures var drvd := DrvdOf(presLd, presStr, ownLd, sucsLd, isLoop);
            && (r in drvd <==>
                 || (r in presStr && r.CheckPassedArgsRegs())
                 || (isLoop && r in ownLd)
                 || (r in sucsLd && (r in presLd || r in presStr)))
            && (r in presStr && (r.CheckPassedArgsRegs() || r in sucsLd) ==> ERCSize(presStr[r]) <= ERCSize(drvd[r]))
            && (r in presLd && r in sucsLd ==> ERCSize(presLd[r]) <= ERCSize(drvd[r]))
            && (isLoop && r in ownLd ==> ERCSize(ownLd[r]) <= ERCSize(drvd[r]))
  {
  }

  /** The loop that collects the derived registers of one bag. */
  method CollectDrvd(presLd: RegMap, presStr: RegMap, ownLd: RegMap, sucsLd: RegMap,
                     isLoop: bool) returns (drvd: RegMap)
    ensures drvd == DrvdOf(presLd, presStr, ownLd, sucsLd, isLoop)
  {
    drvd := map[];
    var todo := presStr.Keys;
    while todo != {}
      invariant todo <= presStr.Keys && drvd == ArgsOf(presStr - todo)
      decreases todo
    {
      var r :| r in todo;
      if r.CheckPassedArgsRegs() {
        drvd := drvd[r := presStr[r]];
      }
      todo := todo - {r};
    }
    assert presStr - {} == presStr;
    if isLoop {
      drvd := Widen(drvd, ownLd);
    }
    ghost var looped := drvd;
    ghost var before := Widened(presStr, presLd);
    var later := sucsLd.Keys;
    WidenedNone(looped, before);
    assert sucsLd.Keys - later == {};
    while later != {}
      invariant later <= sucsLd.Keys && drvd == Widened(looped, Among(before, sucsLd.Keys - later))
      decreases later
    {
      var r :| r in later;
      AmongAdd(looped, before, sucsLd.Keys - later, r);
      assert sucsLd.Keys - (later - {r}) == sucsLd.Keys - later + {r};
      later := later - {r};
      if r in presLd || r in presStr {
        // the larger of the classes it was read and written with before
        var c := if r !in presLd then presStr[r]
                 else if r !in presStr || ERCSize(presStr[r]) < ERCSize(presLd[r]) then presLd[r]
                 else presStr[r];
        if r !in drvd || ERCSize(drvd[r]) < ERCSize(c) {
          drvd := drvd[r := c];
        }
      }
    }
    assert sucsLd.Keys - {} == sucsLd.Keys;
  }

  lemma WidenedNone(m: RegMap, before: RegMap)
    ensures Widened(m, Among(before, {})) == m
  {
  }

  lemma AmongAdd(m: RegMap, before: RegMap, regs: set<EcvReg>, r: EcvReg)
    ensures var drvd := Widened(m, Among(before, regs));
            Widened(m, Among(before, regs + {r})) ==
            if r in before && (r !in drvd || ERCSize(drvd[r]) < ERCSize(before[r])) then drvd[r := before[r]] else drvd
  {
  }

  // ---------------------------------------------------------------------------
  // The same in terms of blocks

  ghost predicate Touches(maps: RegMaps, v: Block, r: EcvReg) {
    v in maps && r in maps[v]
  }

  /** Some block strictly before `b`, not on a loop with it, touches `r`. */
  ghost predicate TouchedBefore(g: Succ, maps: RegMaps, b: Block, r: EcvReg) {
    exists a :: a in g && Reach(g, a, b) && !Reach(g, b, a) && Touches(maps, a, r)
  }

  /** Some block on a loop with `b`, or `b` itself, touches `r`. */
  ghost predicate TouchedAround(g: Succ, maps: RegMaps, b: Block, r: EcvReg) {
    exists a :: a in g && SameComponent(g, a, b) && Touches(maps, a, r)
  }

  /** `b` lies on a loop with another block. */
  ghost predicate OnLoopOfBlocks(g: Succ, b: Block) {
    exists c :: c in g && c != b && SameComponent(g, b, c)
  }

  /** A block outside its component can be reached from `b`. */
  ghost predicate LeavesLoop(g: Succ, b: Block) {
    exists c :: c in g && Reach(g, b, c) && !Reach(g, c, b)
  }

  /** The reads of `d` reach the bags before it: they were there from the start, or `d` can leave its loop. */
  ghost predicate Seen(g: Succ, bagOf: Rep, d: Block) {
    d in bagOf && (bagOf[d] == d || LeavesLoop(g, d))
  }

  /** A read of `r` at or after `b` is seen. */
  ghost predicate ReadLater(g: Succ, ld: RegMaps, bagOf: Rep, b: Block, r: EcvReg) {
    exists d :: d in g && Reach(g, b, d) && Seen(g, bagOf, d) && Touches(ld, d, r)
  }

  /** `r` is a derived register of the bag of `b`. */
  ghost predicate NeedsPhi(g: Succ, ld: RegMaps, str: RegMaps, bagOf: Rep, garbage: set<Block>, b: Block, r: EcvReg)
    requires b in bagOf
  {
    || (r.CheckPassedArgsRegs() && TouchedBefore(g, str, b, r))
    || ((bagOf[b] in garbage || OnLoopOfBlocks(g, b)) && TouchedAround(g, ld, b, r))
    || (ReadLater(g, ld, bagOf, b, r) && (TouchedBefore(g, ld, b, r) || TouchedBefore(g, str, b, r)))
  }

  lemma JoinsHas(m: RegMap, maps: RegMaps, s: set<Block>, r: EcvReg)
    requires Joins(m, maps, s)
    ensures r in m <==> exists v :: v in s && Touches(maps, v, r)
  {
    if r in m {
      var v :| Supplies(maps, s, v, r, m[r]);
      assert Touches(maps, v, r);
    }
  }

  /** The blocks before a bag are those strictly before its blocks. */
  lemma BeforeIsStrict(g: Succ, rep: Rep, children: Succ, parents: Succ, order: seq<Block>, b: Block, v: Block)
    requires LoopFree(g, rep, children, parents, order) && b in g && b in rep && v in g
    ensures v in Before(g, rep, rep[b]) <==> Reach(g, v, b) && !Reach(g, b, v)
  {
    hide LoopFree, IsRep, Connected, Settled, TopoOrder, Reach;
    LoopFreeParts(g, rep, children, parents, order);
    ConnectedAt(g, rep, b);
    LoopFreeSame(g, rep, children, parents, order, v, b);
    if Reach(g, v, b) {
      ReachTrans(g, v, b, rep[b]);
    }
    if Reach(g, v, rep[b]) {
      ReachTrans(g, v, rep[b], b);
    }
  }

  /** What a bag has collected before it, read off the blocks. */
  lemma BeforeIsTouched(g: Succ, rep: Rep, children: Succ, parents: Succ, order: seq<Block>, maps: RegMaps,
                        pres: RegMaps, b: Block, r: EcvReg)
    requires LoopFree(g, rep, children, parents, order) && b in g && b in rep
    requires JoinsBefore(g, rep, maps, pres, rep[b])
    ensures r in pres[rep[b]] <==> TouchedBefore(g, maps, b, r)
  {
    hide LoopFree, Reach, Joins;
    JoinsHas(pres[rep[b]], maps, Before(g, rep, rep[b]), r);
    forall v | v in g
      ensures v in Before(g, rep, rep[b]) <==> Reach(g, v, b) && !Reach(g, b, v)
    {
      BeforeIsStrict(g, rep, children, parents, order, b, v);
    }
  }

  /** What a bag owns, read off the blocks. */
  lemma OwnIsTouched(g: Succ, rep: Rep, children: Succ, parents: Succ, order: seq<Block>, maps: RegMaps, own: RegMaps,
                     b: Block, r: EcvReg)
    requires LoopFree(g, rep, children, parents, order) && b in g && b in rep
    requires OwnsClass(rep, own, maps, rep[b])
    ensures r in own[rep[b]] <==> TouchedAround(g, maps, b, r)
  {
    hide LoopFree, IsRep, Connected, Settled, TopoOrder, Reach, Joins, SameComponent;
    LoopFreeParts(g, rep, children, parents, order);
    JoinsHas(own[rep[b]], maps, Class(rep, rep[b]), r);
    forall v | v in g
      ensures v in Class(rep, rep[b]) <==> SameComponent(g, v, b)
    {
      LoopFreeSame(g, rep, children, parents, order, v, b);
    }
  }

  lemma ExitIsLeaving(g: Succ, rep: Rep, children: Succ, parents: Succ, order: seq<Block>, v: Block)
    requires Closed(g) && LoopFree(g, rep, children, parents, order) && v in g && v in rep
    ensures HasExit(g, rep, rep[v]) <==> LeavesLoop(g, v)
  {
    hide LoopFree, IsRep, Connected, Settled, TopoOrder, Reach, QEdge, Closed;
    LoopFreeParts(g, rep, children, parents, order);
    ConnectedAt(g, rep, v);
    if HasExit(g, rep, rep[v]) {
      var y :| y != rep[v] && QEdge(g, rep, rep[v], y);
      QEdgeReach(g, rep, rep[v], y);
      QEdgeLive(g, rep, rep[v], y);
      ReachTrans(g, v, rep[v], y);
      LoopFreeSame(g, rep, children, parents, order, v, y);
      assert y in g && Reach(g, v, y) && !Reach(g, y, v);
    }
    if LeavesLoop(g, v) {
      var c :| c in g && Reach(g, v, c) && !Reach(g, c, v);
      LoopFreeSame(g, rep, children, parents, order, v, c);
      var y := LeaveClass(g, rep, v, c);
    }
  }

  /** What a bag has collected after it, read off the blocks. */
  lemma AfterIsReadLater(g: Succ, rep: Rep, children: Succ, parents: Succ, order: seq<Block>, ld: RegMaps,
                         sucs: RegMaps, b: Block, r: EcvReg)
    requires Closed(g) && LoopFree(g, rep, children, parents, order) && b in g && b in rep
    requires JoinsAfter(g, rep, ld, sucs, rep[b])
    ensures r in sucs[rep[b]] <==> ReadLater(g, ld, rep, b, r)
  {
    hide LoopFree, IsRep, Connected, Settled, TopoOrder, Reach, Joins, Closed, HasExit, LeavesLoop;
    LoopFreeParts(g, rep, children, parents, order);
    var x := rep[b];
    JoinsHas(sucs[x], ld, After(g, rep, x), r);
    ConnectedAt(g, rep, b);
    forall v | v in g
      ensures v in After(g, rep, x) <==> Reach(g, b, v) && Seen(g, rep, v)
    {
      ExitIsLeaving(g, rep, children, parents, order, v);
      if Reach(g, b, v) {
        ReachTrans(g, x, b, v);
      }
      if Reach(g, x, v) {
        ReachTrans(g, b, x, v);
      }
    }
  }

  lemma PluralIsLoop(g: Succ, rep: Rep, children: Succ, parents: Succ, order: seq<Block>, b: Block)
    requires LoopFree(g, rep, children, parents, order) && b in g && b in rep
    ensures Plural(rep, rep[b]) <==> OnLoopOfBlocks(g, b)
  {
    hide LoopFree, Connected, Settled, TopoOrder, SameComponent;
    LoopFreeParts(g, rep, children, parents, order);
    var x := rep[b];
    if Plural(rep, x) {
      var y :| y in rep && y != x && rep[y] == x;
      var c := if b == x then y else x;
      LoopFreeSame(g, rep, children, parents, order, b, c);
      assert c in g && c != b && SameComponent(g, b, c);
    }
    if OnLoopOfBlocks(g, b) {
      var c :| c in g && c != b && SameComponent(g, b, c);
      LoopFreeSame(g, rep, children, parents, order, b, c);
      var y := if b == x then c else b;
      assert y in rep && y != x && rep[y] == x;
    }
  }

  /** The map of derived registers of the bag of `b` holds exactly the registers that `b` needs a phi for. */
  lemma DrvdIsNeedsPhi(g: Succ, rep: Rep, children: Succ, parents: Succ, order: seq<Block>, ld: RegMaps, str: RegMaps,
                       ownLd: RegMaps, presLd: RegMaps, presStr: RegMaps, sucsLd: RegMaps, isLoop: map<Block, bool>,
                       garbage: set<Block>, b: Block, r: EcvReg)
    requires Closed(g) && LoopFree(g, rep, children, parents, order) && b in g && b in rep && rep[b] in isLoop
    requires OwnsClass(rep, ownLd, ld, rep[b]) && JoinsAfter(g, rep, ld, sucsLd, rep[b])
    requires JoinsBefore(g, rep, ld, presLd, rep[b]) && JoinsBefore(g, rep, str, presStr, rep[b])
    requires isLoop[rep[b]] <==> rep[b] in garbage || Plural(rep, rep[b])
    ensures var x := rep[b];
            r in DrvdOf(presLd[x], presStr[x], ownLd[x], sucsLd[x], isLoop[x]) <==>
            NeedsPhi(g, ld, str, rep, garbage, b, r)
  {
    hide LoopFree, Closed, Joins, DrvdOf, TouchedBefore, TouchedAround, ReadLater, OnLoopOfBlocks, Plural;
    var x := rep[b];
    DrvdMembers(presLd[x], presStr[x], ownLd[x], sucsLd[x], isLoop[x], r);
    BeforeIsTouched(g, rep, children, parents, order, ld, presLd, b, r);
    BeforeIsTouched(g, rep, children, parents, order, str, presStr, b, r);
    OwnIsTouched(g, rep, children, parents, order, ld, ownLd, b, r);
    AfterIsReadLater(g, rep, children, parents, order, ld, sucsLd, b, r);
    PluralIsLoop(g, rep, children, parents, order, b);
  }

  // ---------------------------------------------------------------------------
  // From one pass to the next

  /** The control-flow graph that the bags are made from: the edges between different blocks. */
  ghost function CfgOf(blocks: set<Block>, bbParents: map<Block, set<Block>>): Succ {
    map v | v in blocks :: set w | w in bbParents && v in bbParents[w] && v != w
  }

  /** Every block that has a predecessor, and every predecessor, is one of `blocks`. */
  ghost predicate ParentsWithin(blocks: set<Block>, bbParents: map<Block, set<Block>>) {
    forall b, p {:trigger Has(bbParents, b, p)} :: Has(bbParents, b, p) ==> b in blocks && p in blocks
  }

  lemma CfgHas(blocks: set<Block>, bbParents: map<Block, set<Block>>, x: Block, y: Block)
    requires ParentsWithin(blocks, bbParents)
    ensures Has(CfgOf(blocks, bbParents), x, y) <==> x != y && Has(bbParents, y, x)
  {
  }

  lemma CfgEdges(blocks: set<Block>, bbParents: map<Block, set<Block>>, children: Succ, parents: Succ)
    requires ParentsWithin(blocks, bbParents) && children.Keys == blocks && parents.Keys == blocks
    requires forall x, y {:trigger Has(children, x, y)} :: Has(children, x, y) <==> x != y && Has(bbParents, y, x)
    requires forall x, y {:trigger Has(parents, y, x)} :: Has(parents, y, x) <==> x != y && Has(bbParents, y, x)
    ensures EdgesBuilt(CfgOf(blocks, bbParents), children, parents)
  {
    forall x, y
      ensures Has(CfgOf(blocks, bbParents), x, y) <==> x != y && Has(bbParents, y, x)
    {
      CfgHas(blocks, bbParents, x, y);
    }
  }

  lemma BuiltStart(ld: RegMaps, str: RegMaps, bbParents: map<Block, set<Block>>, children: Succ, parents: Succ,
                   inBbs: map<Block, set<Block>>, isLoop: map<Block, bool>)
    requires ld.Keys == str.Keys && EdgesBuilt(CfgOf(ld.Keys, bbParents), children, parents)
    requires inBbs == Singles(ld)
    requires isLoop.Keys == ld.Keys
    ensures BuiltFrom(CfgOf(ld.Keys, bbParents), ld, str, children, parents, ld, str, inBbs, |ld|, isLoop)
    ensures Identity(CfgOf(ld.Keys, bbParents)) == OwnBags(ld)
  {
    var g := CfgOf(ld.Keys, bbParents);
    assert g.Keys == ld.Keys;
    assert |g| == |g.Keys| && |ld| == |ld.Keys|;
  }

  lemma BuiltKeys(g: Succ, ld: RegMaps, str: RegMaps, children: Succ, parents: Succ, ownLd: RegMaps, ownStr: RegMaps,
                  inBbs: map<Block, set<Block>>, bagNum: int, isLoop: map<Block, bool>)
    requires BuiltFrom(g, ld, str, children, parents, ownLd, ownStr, inBbs, bagNum, isLoop)
    ensures ld.Keys == g.Keys
  {
  }

  lemma PassesStart(g: Succ, rep: Rep, children: Succ, parents: Succ, order: seq<Block>, ld: RegMaps, str: RegMaps,
                    sucs: RegMaps, pres: RegMaps)
    requires LoopFree(g, rep, children, parents, order) && ld.Keys == g.Keys
    requires sucs == ld && pres == Nothing(ld)
    ensures Forward(g, rep, ld, pres, {}) && Forward(g, rep, str, pres, {}) && Backward(g, rep, ld, sucs, {})
  {
    hide LoopFree;
    LoopFreeParts(g, rep, children, parents, order);
    forall x | x in Live(rep)
      ensures ForwardAt(g, rep, ld, pres, {}, x) && ForwardAt(g, rep, str, pres, {}, x)
      ensures BackwardAt(g, rep, ld, sucs, {}, x)
    {
    }
  }

  lemma PassesDone(g: Succ, rep: Rep, ld: RegMaps, str: RegMaps, ownLd: RegMaps, presLd: RegMaps, presStr: RegMaps,
                   sucsLd: RegMaps, isLoop: map<Block, bool>, garbage: set<Block>, x: Block)
    requires OwnsClasses(rep, ownLd, ld) && LoopsMarked(rep, isLoop, garbage, {}) && x in Live(rep)
    requires Forward(g, rep, ld, presLd, Live(rep)) && Forward(g, rep, str, presStr, Live(rep))
    requires Backward(g, rep, ld, sucsLd, Live(rep))
    ensures OwnsClass(rep, ownLd, ld, x) && JoinsAfter(g, rep, ld, sucsLd, x)
    ensures JoinsBefore(g, rep, ld, presLd, x) && JoinsBefore(g, rep, str, presStr, x)
    ensures x in presLd && x in presStr && x in ownLd && x in sucsLd && x in isLoop
    ensures isLoop[x] <==> x in garbage || Plural(rep, x)
  {
    assert ForwardAt(g, rep, ld, presLd, Live(rep), x) && ForwardAt(g, rep, str, presStr, Live(rep), x);
    assert BackwardAt(g, rep, ld, sucsLd, Live(rep), x) && OwnsClass(rep, ownLd, ld, x);
  }

  /** Two blocks are in one bag exactly when each reaches the other; a bag is named by one of its blocks. */
  ghost predicate ComponentBags(g: Succ, bagOf: Rep) {
    && (forall b :: b in g ==> b in bagOf && bagOf[b] in g)
    && (forall a, b :: a in g && b in g ==> (bagOf[a] == bagOf[b] <==> SameComponent(g, a, b)))
    && (forall b :: b in g ==> SameComponent(g, b, bagOf[b]))
  }

  /** Without loops between bags, the bags are the strongly connected components. */
  lemma LoopFreeBags(g: Succ, rep: Rep, children: Succ, parents: Succ, order: seq<Block>)
    requires LoopFree(g, rep, children, parents, order)
    ensures ComponentBags(g, rep)
  {
    hide Reach, TopoOrder, Settled, LoopFree;
    LoopFreeParts(g, rep, children, parents, order);
    forall a, b | a in g && b in g
      ensures rep[a] == rep[b] <==> SameComponent(g, a, b)
    {
      LoopFreeSame(g, rep, children, parents, order, a, b);
    }
  }

  /** What the forward pass collects at a bag is what is touched before its blocks. */
  lemma PassIsTouched(g: Succ, rep: Rep, children: Succ, parents: Succ, order: seq<Block>, maps: RegMaps, pres: RegMaps)
    requires LoopFree(g, rep, children, parents, order) && Forward(g, rep, maps, pres, Live(rep))
    ensures forall b :: b in g ==> b in rep && rep[b] in pres
    ensures forall b, r :: b in g ==> (r in pres[rep[b]] <==> TouchedBefore(g, maps, b, r))
  {
    hide LoopFree, TouchedBefore, Joins, Connected, Settled, TopoOrder;
    LoopFreeParts(g, rep, children, parents, order);
    forall b | b in g
      ensures b in rep && rep[b] in pres && JoinsBefore(g, rep, maps, pres, rep[b])
    {
      RepLive(g, rep, b);
      assert ForwardAt(g, rep, maps, pres, Live(rep), rep[b]);
    }
    forall b, r | b in g
      ensures r in pres[rep[b]] <==> TouchedBefore(g, maps, b, r)
    {
      BeforeIsTouched(g, rep, children, parents, order, maps, pres, b, r);
    }
  }

  function Nothing(ld: RegMaps): RegMaps {
    map b | b in ld :: map[]
  }

  function OwnBags(ld: RegMaps): map<Block, Block> {
    map b | b in ld :: b
  }

  function LoopFlags(ld: RegMaps, garbage: set<Block>): map<Block, bool> {
    map b | b in ld :: b in garbage
  }

  lemma LoopFlagsHold(ld: RegMaps, garbage: set<Block>)
    ensures LoopFlags(ld, garbage).Keys == ld.Keys
    ensures forall b :: b in LoopFlags(ld, garbage) && LoopFlags(ld, garbage)[b] <==> b in ld && b in garbage
  {
  }

  function Singles(ld: RegMaps): map<Block, set<Block>> {
    map b | b in ld :: {b}
  }

  function NoEdges(ld: RegMaps): Succ {
    map b | b in ld :: {}
  }

  lemma NoEdgesHas(ld: RegMaps)
    ensures NoEdges(ld).Keys == ld.Keys && forall x, y :: !Has(NoEdges(ld), x, y)
  {
  }

  /** The derived registers of a bag, once everything before and after it is known. */
  ghost predicate DrvdAt(drvd: RegMaps, presLd: RegMaps, presStr: RegMaps, ownLd: RegMaps, sucsLd: RegMaps,
                         isLoop: map<Block, bool>, x: Block)
  {
    && x in drvd && x in presLd && x in presStr && x in ownLd && x in sucsLd && x in isLoop
    && drvd[x] == DrvdOf(presLd[x], presStr[x], ownLd[x], sucsLd[x], isLoop[x])
  }

  ghost predicate DrvdAll(drvd: RegMaps, presLd: RegMaps, presStr: RegMaps, ownLd: RegMaps, sucsLd: RegMaps,
                          isLoop: map<Block, bool>, finished: set<Block>)
  {
    forall x {:trigger DrvdAt(drvd, presLd, presStr, ownLd, sucsLd, isLoop, x)} :: x in finished ==>
      DrvdAt(drvd, presLd, presStr, ownLd, sucsLd, isLoop, x)
  }

  lemma DrvdNone(drvd: RegMaps, presLd: RegMaps, presStr: RegMaps, ownLd: RegMaps, sucsLd: RegMaps,
                 isLoop: map<Block, bool>)
    ensures DrvdAll(drvd, presLd, presStr, ownLd, sucsLd, isLoop, {})
  {
  }

  lemma DrvdStep(drvd: RegMaps, presLd: RegMaps, presStr: RegMaps, ownLd: RegMaps, sucsLd: RegMaps,
                 isLoop: map<Block, bool>, finished: set<Block>, bag: Block, m: RegMap)
    requires DrvdAll(drvd, presLd, presStr, ownLd, sucsLd, isLoop, finished) && bag !in finished
    requires bag in presLd && bag in presStr && bag in ownLd && bag in sucsLd && bag in isLoop
    requires m == DrvdOf(presLd[bag], presStr[bag], ownLd[bag], sucsLd[bag], isLoop[bag])
    ensures DrvdAll(drvd[bag := m], presLd, presStr, ownLd, sucsLd, isLoop, finished + {bag})
  {
    hide DrvdOf;
    forall x {:trigger DrvdAt(drvd[bag := m], presLd, presStr, ownLd, sucsLd, isLoop, x)} | x in finished + {bag}
      ensures DrvdAt(drvd[bag := m], presLd, presStr, ownLd, sucsLd, isLoop, x)
    {
      assert x != bag ==> DrvdAt(drvd, presLd, presStr, ownLd, sucsLd, isLoop, x);
    }
  }

  lemma DrvdCollected(g: Succ, rep: Rep, children: Succ, parents: Succ, order: seq<Block>, ld: RegMaps, str: RegMaps,
                      ownLd: RegMaps, presLd: RegMaps, presStr: RegMaps, sucsLd: RegMaps, isLoop: map<Block, bool>,
                      garbage: set<Block>, drvd: RegMaps, finished: set<Block>)
    requires Closed(g) && LoopFree(g, rep, children, parents, order)
    requires OwnsClasses(rep, ownLd, ld) && LoopsMarked(rep, isLoop, garbage, {})
    requires Forward(g, rep, ld, presLd, Live(rep)) && Forward(g, rep, str, presStr, Live(rep))
    requires Backward(g, rep, ld, sucsLd, Live(rep))
    requires DrvdAll(drvd, presLd, presStr, ownLd, sucsLd, isLoop, finished)
    requires rep.Keys == g.Keys && forall b :: b in rep ==> rep[b] in finished
    ensures forall b :: b in g ==> b in rep && rep[b] in drvd
    ensures forall b, r :: b in g ==> (r in drvd[rep[b]] <==> NeedsPhi(g, ld, str, rep, garbage, b, r))
  {
    forall b | b in g
      ensures b in rep && DrvdAt(drvd, presLd, presStr, ownLd, sucsLd, isLoop, rep[b])
    {
      assert rep[b] in finished;
    }
    hide LoopFree, OwnsClasses, LoopsMarked, Forward, Backward, Closed, DrvdOf, NeedsPhi, DrvdAll;
    forall b, r | b in g
      ensures r in drvd[rep[b]] <==> NeedsPhi(g, ld, str, rep, garbage, b, r)
    {
      AllDrvd(g, rep, children, parents, order, ld, str, ownLd, presLd, presStr, sucsLd, isLoop, garbage, drvd, b, r);
    }
  }

  lemma AllDrvd(g: Succ, rep: Rep, children: Succ, parents: Succ, order: seq<Block>, ld: RegMaps, str: RegMaps,
                ownLd: RegMaps, presLd: RegMaps, presStr: RegMaps, sucsLd: RegMaps, isLoop: map<Block, bool>,
                garbage: set<Block>, drvd: RegMaps, b: Block, r: EcvReg)
    requires Closed(g) && LoopFree(g, rep, children, parents, order) && b in g && b in rep
    requires OwnsClasses(rep, ownLd, ld) && LoopsMarked(rep, isLoop, garbage, {})
    requires Forward(g, rep, ld, presLd, Live(rep)) && Forward(g, rep, str, presStr, Live(rep))
    requires Backward(g, rep, ld, sucsLd, Live(rep))
    requires DrvdAt(drvd, presLd, presStr, ownLd, sucsLd, isLoop, rep[b])
    ensures r in drvd[rep[b]] <==> NeedsPhi(g, ld, str, rep, garbage, b, r)
  {
    hide LoopFree, OwnsClasses, LoopsMarked, Forward, Backward, Closed, DrvdOf, IsRep, NeedsPhi, JoinsBefore,
         JoinsAfter, OwnsClass, Plural, Live, Connected, Settled, TopoOrder;
    LoopFreeParts(g, rep, children, parents, order);
    RepLive(g, rep, b);
    PassesDone(g, rep, ld, str, ownLd, presLd, presStr, sucsLd, isLoop, garbage, rep[b]);
    DrvdIsNeedsPhi(g, rep, children, parents, order, ld, str, ownLd, presLd, presStr, sucsLd, isLoop, garbage, b, r);
  }
}
