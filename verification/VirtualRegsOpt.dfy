/** The whole optimisation of one lifted function: register analysis over bags, then promotion. */
module VirtualRegsOpts {
  import opened Registers
  import opened Graphs
  import opened LoopState
  import opened LoopHeads
  import opened PhiRegs
  import opened BagGraphs
  import opened Promoted
  import opened PromotedReads
  import opened PromotedRuns
  import opened PromotionSteps
  import opened Promotions
  import opened PhiSafety
  import opened ReadSafety
  import opened LoopNames
  import opened RegInfos
  import opened Flows
  import opened Flattening

  lemma GraphOfCfg(succs: Targets, bbParents: map<Block, set<Block>>)
    requires WellFormed(succs, bbParents, NoRegs(succs))
    ensures CfgOf(succs.Keys, bbParents).Keys == succs.Keys
    ensures ParentsWithin(succs.Keys, bbParents) && GraphOf(succs, CfgOf(succs.Keys, bbParents))
    ensures Closed(CfgOf(succs.Keys, bbParents))
  {
    var g := CfgOf(succs.Keys, bbParents);
    forall v, w | v in g
      ensures w in g[v] <==> w in succs[v] && v != w
    {
      assert w in succs[v] ==> w in succs;
    }
  }

  lemma PassedAreDerived(g: Succ, ld: RegMaps, str: RegMaps, bagOf: Rep, garbage: set<Block>, passed: RegSets,
                         drvd: RegSets)
    requires DerivesNeeded(g, ld, str, bagOf, garbage, drvd) && ComponentBags(g, bagOf) && passed.Keys == g.Keys
    requires forall b, r :: b in g ==> (r in passed[b] <==> TouchedBefore(g, str, b, r))
    ensures PassedDerived(passed, drvd)
  {
  }

  /** `passed` names for each block the registers that are written strictly before it. */
  ghost predicate PassedBefore(g: Succ, str: RegMaps, passed: RegSets) {
    passed.Keys == g.Keys && forall b, r :: b in g ==> (r in passed[b] <==> TouchedBefore(g, str, b, r))
  }

  /** The registers that each block derives, and those that are written before it. */
  method AnalyzeRegsBags(succs: Targets, bbParents: map<Block, set<Block>>, ld: RegMaps, str: RegMaps, entry: Block,
                         garbage: set<Block>)
    returns (drvd: RegSets, passed: RegSets, ghost bagOf: Rep)
    requires ld.Keys == succs.Keys && str.Keys == succs.Keys && entry in succs && garbage <= succs.Keys
    requires WellFormed(succs, bbParents, NoRegs(succs)) && ReachesAll(CfgOf(succs.Keys, bbParents), entry)
    ensures ComponentBags(CfgOf(succs.Keys, bbParents), bagOf)
    ensures NamedAtEntries(CfgOf(succs.Keys, bbParents), entry, bagOf)
    ensures PassedDerived(passed, drvd) && PassedBefore(CfgOf(succs.Keys, bbParents), str, passed)
    ensures passed.Keys == succs.Keys
    ensures DerivesNeeded(CfgOf(succs.Keys, bbParents), ld, str, bagOf, garbage, drvd)
    ensures WellFormed(succs, bbParents, drvd)
  {
    hide *;
    ghost var g := CfgOf(succs.Keys, bbParents);
    GraphOfCfg(succs, bbParents);
    var bags := new BagGraph(ld, str, bbParents, garbage);
    bags.GetPhiRegsBags(entry, g, ld, str, garbage);
    bagOf := bags.bagOf;
    drvd := RegsOf(succs, bags.bagOf, bags.drvd);
    passed := RegsOf(succs, bags.bagOf, bags.presStr);
    RegsCollected(succs, bbParents, g, ld, str, bagOf, garbage, bags.drvd, bags.presStr);
  }

  /** For each block the registers that its bag has in `maps`. */
  function RegsOf(succs: Targets, bagOf: Rep, maps: RegMaps): RegSets
    requires forall b :: b in succs ==> b in bagOf && bagOf[b] in maps
  {
    map b | b in succs :: maps[bagOf[b]].Keys
  }

  lemma RegsWellFormed(succs: Targets, bbParents: map<Block, set<Block>>, regs: RegSets)
    requires WellFormed(succs, bbParents, NoRegs(succs)) && regs.Keys == succs.Keys
    ensures WellFormed(succs, bbParents, regs)
  {
  }

  lemma RegsNeeded(succs: Targets, g: Succ, ld: RegMaps, str: RegMaps, bagOf: Rep, garbage: set<Block>, drvd: RegMaps)
    requires g.Keys == succs.Keys
    requires forall b :: b in g ==> b in bagOf && bagOf[b] in drvd
    requires forall b, r :: b in g ==> (r in drvd[bagOf[b]] <==> NeedsPhi(g, ld, str, bagOf, garbage, b, r))
    ensures DerivesNeeded(g, ld, str, bagOf, garbage, RegsOf(succs, bagOf, drvd))
  {
    hide NeedsPhi;
  }

  lemma RegsCollected(succs: Targets, bbParents: map<Block, set<Block>>, g: Succ, ld: RegMaps, str: RegMaps, bagOf: Rep,
                      garbage: set<Block>, drvd: RegMaps, presStr: RegMaps)
    requires WellFormed(succs, bbParents, NoRegs(succs)) && g.Keys == succs.Keys && ComponentBags(g, bagOf)
    requires forall b :: b in g ==> b in bagOf && bagOf[b] in presStr
    requires forall b, r :: b in g ==> (r in presStr[bagOf[b]] <==> TouchedBefore(g, str, b, r))
    requires forall b :: b in g ==> b in bagOf && bagOf[b] in drvd
    requires forall b, r :: b in g ==> (r in drvd[bagOf[b]] <==> NeedsPhi(g, ld, str, bagOf, garbage, b, r))
    ensures var regs, passed := RegsOf(succs, bagOf, drvd), RegsOf(succs, bagOf, presStr);
            && PassedDerived(passed, regs) && passed.Keys == succs.Keys && PassedBefore(g, str, passed)
            && DerivesNeeded(g, ld, str, bagOf, garbage, regs) && WellFormed(succs, bbParents, regs)
  {
    hide NeedsPhi, TouchedBefore, WellFormed, ComponentBags, DerivesNeeded, PassedDerived;
    var regs, passed := RegsOf(succs, bagOf, drvd), RegsOf(succs, bagOf, presStr);
    RegsNeeded(succs, g, ld, str, bagOf, garbage, drvd);
    RegsWellFormed(succs, bbParents, regs);
    PassedAreDerived(g, ld, str, bagOf, garbage, passed, regs);
  }

  ghost function NoRegs(succs: Targets): RegSets {
    map b | b in succs :: {}
  }

  /** `f` is the promoted form of the function with the blocks `bodies` and the successors `succs`: relays apart, it has
      the same blocks and edges; every block that can be reached has a phi with a value from each predecessor for each
      register of `drvd`, its reads are resolved, and where it returns it stores its values. Loads are added to a block
      if all its successors derive the register, and else to a relay. */
  ghost predicate PromotedForm(f: Fn, bodies: Bodies, succs: Targets, entry: Block, drvd: RegSets, passed: RegSets,
                               reached: set<Block>) {
    && Relayed(f, bodies, succs, drvd) && Complete(f, bodies, reached) && ClosedFrom(f, entry, reached)
    && StoresDone(f, bodies, passed, succs, reached) && LoadsPlaced(f, succs, drvd)
  }

  /** Where the function returns, X0, X1 and the stack pointer are stored if the block writes them. */
  ghost predicate ReturnsStored(f: Fn, bodies: Bodies, succs: Targets) {
    forall b, r: EcvReg {:trigger Defines(bodies, b, r)} ::
      b in succs && succs[b] == [] && Defines(bodies, b, r) && (r.number == 0 || r.number == 1 || r.number == 32) ==>
        b in f.stores && r in f.stores[b] && f.stores[b][r] == End(b, r)
  }

  lemma AllReturnsStored(f: Fn, bodies: Bodies, succs: Targets, entry: Block, g: Succ, drvd: RegSets, passed: RegSets,
                         reached: set<Block>)
    requires GraphOf(succs, g) && ReachesAll(g, entry) && entry in succs
    requires PromotedForm(f, bodies, succs, entry, drvd, passed, reached)
    ensures ReturnsStored(f, bodies, succs)
  {
    hide Relayed, Complete, ClosedFrom, StoresMade, Defines, Reach;
    forall b, r: EcvReg {:trigger Defines(bodies, b, r)} |
      b in succs && succs[b] == [] && Defines(bodies, b, r) && (r.number == 0 || r.number == 1 || r.number == 32)
      ensures b in f.stores && r in f.stores[b] && f.stores[b][r] == End(b, r)
    {
      BlockReached(f, bodies, succs, entry, g, drvd, reached, b);
      assert StoresMade(f, bodies, passed, b);
      WrittenIsStored(f, bodies, passed, b, r);
    }
  }

  lemma BlockReached(f: Fn, bodies: Bodies, succs: Targets, entry: Block, g: Succ, drvd: RegSets, reached: set<Block>,
                     b: Block)
    requires GraphOf(succs, g) && ReachesAll(g, entry) && entry in succs && b in succs
    requires Relayed(f, bodies, succs, drvd) && ClosedFrom(f, entry, reached)
    ensures b in reached
  {
    hide Relayed, ClosedFrom;
    assert Reach(g, entry, b);
    var w :| WalkFromTo(g, w, entry, b);
    WalkIsPath(g, succs, w);
    var lifted := LiftPath(f, bodies, succs, drvd, entry, w);
    PathReached(f, entry, reached, lifted);
  }

  /** `f` is what analysis and promotion have made of the function, whose bags are named by `bagOf`. */
  ghost predicate Optimized(f: Fn, bodies: Bodies, succs: Targets, entry: Block, g: Succ, ld: RegMaps, str: RegMaps,
                            garbage: set<Block>, drvd: RegSets, passed: RegSets, bagOf: Rep, reached: set<Block>) {
    && ComponentBags(g, bagOf) && NamedAtEntries(g, entry, bagOf)
    && DerivesNeeded(g, ld, str, bagOf, garbage, drvd) && PassedBefore(g, str, passed)
    && PromotedForm(f, bodies, succs, entry, drvd, passed, reached)
  }

  /** Every path of the original function is run by `f`, with the same values in its reads and in what it returns. */
  ghost predicate Preserves(f: Fn, bodies: Bodies, succs: Targets, entry: Block) {
    && KeepsReads(f, bodies, succs, entry)
    && forall r: EcvReg :: r.number == 0 || r.number == 1 || r.number == 32 ==>
         KeepsReturned(f, bodies, succs, entry, r)
  }

  /** For the names `names` of the loops: the reads of `f` are right exactly if `ReadsSafe` holds, along the paths of
      `f` as well as for the original function, and each returned register exactly if `ReturnsSafe` does. All phis are
      right, too, exactly if `EdgesSafe` and `SelfLoopsSafe` hold. */
  ghost predicate RightExactly(f: Fn, bodies: Bodies, succs: Targets, entry: Block, g: Succ, ld: RegMaps, str: RegMaps,
                               names: Rep, garbage: set<Block>) {
    && (KeepsReads(f, bodies, succs, entry) <==> ReadsSafe(g, succs, ld, str, names, garbage))
    && (Reads(f, bodies, entry) <==> ReadsSafe(g, succs, ld, str, names, garbage))
    && (ReadsSafe(g, succs, ld, str, names, {}) ==> KeepsReads(f, bodies, succs, entry))
    && (forall r: EcvReg :: r.CheckPassedReturnRegs() ==>
          && (KeepsReturned(f, bodies, succs, entry, r) <==> ReturnsSafe(g, succs, ld, str, names, r))
          && (Returns(f, bodies, succs, entry, r) <==> ReturnsSafe(g, succs, ld, str, names, r)))
    && (Right(f, bodies, entry) <==> EdgesSafe(g, ld, str, names) && SelfLoopsSafe(g, succs, ld, str, names, garbage))
  }

  /** What is known of the values of `f`: exactly when they are right, with the names that the search came to and, if
      every loop that nothing leaves is entered at one block, with those that the graph determines; that they are right
      if the conditions hold for all names that a search may come to; and that they are right without loops. */
  ghost predicate Means(f: Fn, bodies: Bodies, succs: Targets, entry: Block, g: Succ, ld: RegMaps, str: RegMaps,
                        bagOf: Rep, garbage: set<Block>) {
    && RightExactly(f, bodies, succs, entry, g, ld, str, bagOf, garbage)
    && (FinalLoopsEnterOnce(g, entry) ==>
          RightExactly(f, bodies, succs, entry, g, ld, str, EntryNames(g, entry), garbage))
    && (SafeHoweverNamed(g, entry, succs, ld, str) ==> Preserves(f, bodies, succs, entry))
    && (Right(f, bodies, entry) ==> Preserves(f, bodies, succs, entry))
    && (NoLoops(g, succs) ==> Right(f, bodies, entry))
  }

  /** What the promoted function does, in terms of the control-flow graph. */
  lemma OptimizedMeans(f: Fn, succs: Targets, bodies: Bodies, drvd: RegSets, passed: RegSets, g: Succ, ld: RegMaps,
                       str: RegMaps, entry: Block, bagOf: Rep, garbage: set<Block>, reached: set<Block>)
    requires GraphOf(succs, g) && Closed(g) && Summarised(bodies, g, ld, str) && ReachesAll(g, entry)
    requires Bare(bodies, succs, entry) && CallFree(bodies) && entry in succs
    requires Optimized(f, bodies, succs, entry, g, ld, str, garbage, drvd, passed, bagOf, reached)
    ensures Means(f, bodies, succs, entry, g, ld, str, bagOf, garbage)
  {
    hide GraphOf, Closed, Summarised, ReachesAll, ComponentBags, NamedAtEntries, Bare, DerivesNeeded, Relayed, Right,
         Safe, DerivesNothing, Returns, Kept, FinalLoopsEnterOnce, NoLoops, EdgesSafe, SelfLoopsSafe, ReadsSafe,
         ReturnsSafe, Reads, KeepsReads, KeepsReturned, EntryNames, EcvReg.CheckPassedReturnRegs, CallFree,
         PassedBefore, PassedDerived, Complete, ClosedFrom, StoresDone, ReadsFed, SafeHoweverNamed;
    PassedFromBefore(g, ld, str, bagOf, garbage, passed, drvd);
    BareDerivesNothing(bodies, g, succs, drvd, entry, ld, str, bagOf, garbage);
    PromotedMeans(f, bodies, succs, drvd, passed, entry, reached);
    ExactlyByGraph(f, succs, bodies, drvd, g, ld, str, entry, bagOf, garbage);
    if Right(f, bodies, entry) {
      RightPreserves(f, succs, bodies, drvd, g, ld, str, entry, bagOf, garbage);
    }
    if FinalLoopsEnterOnce(g, entry) {
      SafeByName(g, entry, succs, ld, str, bagOf, garbage);
      SafeByName(g, entry, succs, ld, str, bagOf, {});
    }
    if SafeHoweverNamed(g, entry, succs, ld, str) {
      SafeAsNamed(g, entry, succs, ld, str, bagOf, garbage);
    }
    if NoLoops(g, succs) {
      NoLoopsSafe(g, succs, ld, str, bagOf, garbage);
    }
  }

  lemma PassedFromBefore(g: Succ, ld: RegMaps, str: RegMaps, bagOf: Rep, garbage: set<Block>, passed: RegSets,
                         drvd: RegSets)
    requires DerivesNeeded(g, ld, str, bagOf, garbage, drvd) && ComponentBags(g, bagOf) && PassedBefore(g, str, passed)
    ensures PassedDerived(passed, drvd)
  {
    hide TouchedBefore, NeedsPhi, ComponentBags, DerivesNeeded, PassedDerived;
    PassedAreDerived(g, ld, str, bagOf, garbage, passed, drvd);
  }

  lemma ExactlyByGraph(f: Fn, succs: Targets, bodies: Bodies, drvd: RegSets, g: Succ, ld: RegMaps, str: RegMaps,
                       entry: Block, bagOf: Rep, garbage: set<Block>)
    requires GraphOf(succs, g) && Summarised(bodies, g, ld, str) && ReachesAll(g, entry) && ComponentBags(g, bagOf)
    requires Bare(bodies, succs, entry) && DerivesNeeded(g, ld, str, bagOf, garbage, drvd)
    requires Right(f, bodies, entry) <==> Safe(bodies, succs, drvd, entry)
    requires Reads(f, bodies, entry) <==> ReadsFed(bodies, succs, drvd, entry)
    requires KeepsReads(f, bodies, succs, entry) <==> ReadsFed(bodies, succs, drvd, entry)
    requires forall r: EcvReg :: r.CheckPassedReturnRegs() ==>
               && (Returns(f, bodies, succs, entry, r) <==> Kept(bodies, succs, drvd, entry, r))
               && (KeepsReturned(f, bodies, succs, entry, r) <==> Returns(f, bodies, succs, entry, r))
    ensures RightExactly(f, bodies, succs, entry, g, ld, str, bagOf, garbage)
  {
    hide GraphOf, Summarised, ReachesAll, ComponentBags, Bare, DerivesNeeded, Right, Safe, Returns, Kept, EdgesSafe,
         SelfLoopsSafe, ReadsSafe, ReturnsSafe, Reads, KeepsReads, KeepsReturned, EcvReg.CheckPassedReturnRegs,
         ReadsFed;
    SafeIffGraph(bodies, g, succs, drvd, entry, ld, str, bagOf, garbage);
    FedIffGraph(bodies, g, succs, drvd, entry, ld, str, bagOf, garbage);
    SafeForAllFlags(g, succs, ld, str, bagOf);
    forall r: EcvReg | r.CheckPassedReturnRegs()
      ensures Kept(bodies, succs, drvd, entry, r) <==> ReturnsSafe(g, succs, ld, str, bagOf, r)
    {
      KeptIffGraph(bodies, g, succs, drvd, entry, ld, str, bagOf, garbage, r);
    }
  }

  /** Where reads and phis are right, so is what is returned. */
  lemma RightPreserves(f: Fn, succs: Targets, bodies: Bodies, drvd: RegSets, g: Succ, ld: RegMaps, str: RegMaps,
                       entry: Block, bagOf: Rep, garbage: set<Block>)
    requires GraphOf(succs, g) && Summarised(bodies, g, ld, str) && ReachesAll(g, entry) && ComponentBags(g, bagOf)
    requires DerivesNeeded(g, ld, str, bagOf, garbage, drvd) && Relayed(f, bodies, succs, drvd) && entry in succs
    requires Right(f, bodies, entry) && Safe(bodies, succs, drvd, entry)
    requires forall r: EcvReg :: r.CheckPassedReturnRegs() ==>
               (Returns(f, bodies, succs, entry, r) <==> Kept(bodies, succs, drvd, entry, r))
    ensures Preserves(f, bodies, succs, entry)
  {
    hide GraphOf, Summarised, ReachesAll, ComponentBags, DerivesNeeded, Right, Safe, Returns, Kept, KeepsReads,
         KeepsReturned, Relayed, EcvReg.CheckPassedReturnRegs;
    RightKeeps(f, bodies, succs, drvd, entry);
    forall r: EcvReg | r.CheckPassedReturnRegs()
      ensures KeepsReturned(f, bodies, succs, entry, r)
    {
      SafeReturns(bodies, g, succs, drvd, entry, ld, str, bagOf, garbage, r);
      ReturnsKeep(f, bodies, succs, drvd, entry, r);
    }
  }

  /** Analyses the function, whose blocks have the summaries `ld` and `str` and the values `held`, and promotes its
      registers. */
  method OptimizeFunction(succs: Targets, bbParents: map<Block, set<Block>>, bodies: Bodies, ld: RegMaps, str: RegMaps,
                          held: RegSets, entry: Block, nextBlock: Block, garbage: set<Block>)
    returns (fn: Promotion, drvd: RegSets, passed: RegSets, ghost bagOf: Rep, ghost reached: set<Block>)
    requires ld.Keys == succs.Keys && str.Keys == succs.Keys && garbage <= succs.Keys
    requires WellFormed(succs, bbParents, NoRegs(succs)) && Unused(succs, bodies, nextBlock)
    requires HeldKnown(succs, bodies, held)
    requires Bare(bodies, succs, entry) && ReachesAll(CfgOf(succs.Keys, bbParents), entry)
    requires Summarised(bodies, CfgOf(succs.Keys, bbParents), ld, str)
    ensures Optimized(fn.Now(), bodies, succs, entry, CfgOf(succs.Keys, bbParents), ld, str, garbage, drvd, passed,
              bagOf, reached)
    ensures ReturnsStored(fn.Now(), bodies, succs)
    ensures CallFree(bodies) ==>
              Means(fn.Now(), bodies, succs, entry, CfgOf(succs.Keys, bbParents), ld, str, bagOf, garbage)
  {
    hide *;
    ghost var g := CfgOf(succs.Keys, bbParents);
    GraphOfCfg(succs, bbParents);
    BareEntry(bodies, succs, entry);
    drvd, passed, bagOf := AnalyzeRegsBags(succs, bbParents, ld, str, entry, garbage);
    fn := new Promotion(succs, bbParents, drvd, bodies, entry, passed, held, nextBlock);
    reached := fn.OptimizeVirtualRegsUsage();
    OptimizedIntro(fn.Now(), bodies, succs, entry, g, ld, str, garbage, drvd, passed, bagOf, reached);
    AllReturnsStored(fn.Now(), bodies, succs, entry, g, drvd, passed, reached);
    if CallFree(bodies) {
      OptimizedMeans(fn.Now(), succs, bodies, drvd, passed, g, ld, str, entry, bagOf, garbage, reached);
    }
  }

  lemma BareEntry(bodies: Bodies, succs: Targets, entry: Block)
    requires Bare(bodies, succs, entry)
    ensures entry in succs
  {
  }

  lemma OptimizedIntro(f: Fn, bodies: Bodies, succs: Targets, entry: Block, g: Succ, ld: RegMaps, str: RegMaps,
                       garbage: set<Block>, drvd: RegSets, passed: RegSets, bagOf: Rep, reached: set<Block>)
    requires ComponentBags(g, bagOf) && NamedAtEntries(g, entry, bagOf)
    requires DerivesNeeded(g, ld, str, bagOf, garbage, drvd) && PassedBefore(g, str, passed)
    requires Relayed(f, bodies, succs, drvd) && Complete(f, bodies, reached) && ClosedFrom(f, entry, reached)
    requires StoresDone(f, bodies, passed, succs, reached) && LoadsPlaced(f, succs, drvd)
    ensures Optimized(f, bodies, succs, entry, g, ld, str, garbage, drvd, passed, bagOf, reached)
    ensures PromotedForm(f, bodies, succs, entry, drvd, passed, reached)
  {
  }

  // ---------------------------------------------------------------------------
  // From the lifted function

  function LdOf(f: Flow): RegMaps {
    map b | b in f.succs && b in f.infos :: f.infos[b].ld
  }

  function StrOf(f: Flow): RegMaps {
    map b | b in f.succs && b in f.infos :: f.infos[b].str
  }

  function HeldOf(f: Flow): RegSets {
    map b | b in f.succs && b in f.infos :: f.infos[b].held.Keys
  }

  /** A function without cycles. */
  ghost predicate NoCycles(succs: Targets) {
    forall p :: |p| > 1 && IsPath(succs, p[0], p) ==> p[|p| - 1] != p[0]
  }

  lemma FlowTables(f: Flow)
    requires WellKept(f)
    ensures LdOf(f).Keys == f.succs.Keys && StrOf(f).Keys == f.succs.Keys
    ensures WellFormed(f.succs, f.preds, NoRegs(f.succs))
  {
    forall b | b in f.succs
      ensures b in f.infos
    {
      assert RecordsAt(f, b);
    }
    forall q, i | q in f.succs && 0 <= i < |f.succs[q]|
      ensures f.succs[q][i] in f.succs
    {
      assert LeadsTo(f, q, f.succs[q][i]) && ComesFrom(f, f.succs[q][i], q);
    }
    forall q, b | b in f.preds
      ensures q in f.preds[b] <==> q in f.succs && b in f.succs[q]
    {
      assert LeadsTo(f, q, b) <==> ComesFrom(f, b, q);
    }
  }

  lemma FlowSummarised(f: Flow)
    requires WellKept(f)
    ensures Summarised(f.bodies, CfgOf(f.succs.Keys, f.preds), LdOf(f), StrOf(f))
  {
    hide ReadsFirst, Writes, Own, Records;
    forall b, r {:trigger Touches(LdOf(f), b, r)} {:trigger Touches(StrOf(f), b, r)} | b in f.succs
      ensures Touches(LdOf(f), b, r) <==> ReadsFirst(Body(f.bodies, b), r)
      ensures Touches(StrOf(f), b, r) <==> Writes(Body(f.bodies, b), r)
    {
      assert RecordsAt(f, b);
      RecordsSay(f.bodies[b], f.infos[b], r);
    }
  }

  lemma RecordsSay(body: seq<Instr>, info: Info, r: EcvReg)
    requires Records(body, info)
    ensures (r in info.ld <==> ReadsFirst(body, r)) && (r in info.str <==> Writes(body, r))
    ensures (r in info.held ==> r in Own(body)) && (r in info.str ==> r in info.held)
  {
  }

  lemma FlowHeld(f: Flow)
    requires WellKept(f)
    ensures HeldKnown(f.succs, f.bodies, HeldOf(f))
  {
    hide ReadsFirst, Writes, Own, Records;
    forall b, r | b in f.succs
      ensures b in f.infos && b in f.bodies
      ensures r in f.infos[b].held ==> r in Own(f.bodies[b])
      ensures Writes(f.bodies[b], r) ==> r in f.infos[b].held
    {
      assert RecordsAt(f, b);
      RecordsSay(f.bodies[b], f.infos[b], r);
    }
    forall b | b in f.succs
      ensures b in f.infos && b in f.bodies
    {
      assert RecordsAt(f, b);
    }
  }

  lemma FlowReaches(f: Flow, entry: Block)
    requires WellKept(f) && AllReached(f, entry)
    ensures ReachesAll(CfgOf(f.succs.Keys, f.preds), entry)
  {
    FlowTables(f);
    GraphOfCfg(f.succs, f.preds);
    var g := CfgOf(f.succs.Keys, f.preds);
    forall b | b in g
      ensures Reach(g, entry, b)
    {
      assert Reached(f, entry, b);
      var p :| Promoted.PathTo(f.succs, entry, p, b);
      PathReach(g, f.succs, entry, p, 0);
    }
  }

  lemma NoCycleAt(succs: Targets, p: seq<Block>)
    requires NoCycles(succs) && |p| > 1 && IsPath(succs, p[0], p)
    ensures p[|p| - 1] != p[0]
  {
  }

  lemma CycleThrough(g: Succ, succs: Targets, b: Block, c: Block) returns (w: seq<Block>)
    requires GraphOf(succs, g) && b != c && SameComponent(g, b, c)
    ensures |w| > 1 && IsPath(succs, b, w) && w[|w| - 1] == b
  {
    var w1 :| WalkFromTo(g, w1, b, c);
    var w2 :| WalkFromTo(g, w2, c, b);
    w := w1 + w2[1..];
    assert WalkFromTo(g, w, b, b);
    WalkIsPath(g, succs, w);
  }

  /** A function without cycles has no blocks on loops. */
  lemma NoCyclesNoLoops(succs: Targets, g: Succ)
    requires GraphOf(succs, g) && NoCycles(succs)
    ensures NoLoops(g, succs)
  {
    forall b | b in succs
      ensures b !in succs[b]
    {
      if b in succs[b] {
        NoCycleAt(succs, [b, b]);
      }
    }
    forall b | b in g
      ensures !OnLoopOfBlocks(g, b)
    {
      if OnLoopOfBlocks(g, b) {
        var c :| c in g && c != b && SameComponent(g, b, c);
        var w := CycleThrough(g, succs, b, c);
        NoCycleAt(succs, w);
      }
    }
  }

  lemma PathPrefix(succs: Targets, entry: Block, p: seq<Block>, k: nat)
    requires IsPath(succs, entry, p) && 0 < k <= |p|
    ensures IsPath(succs, entry, p[..k])
  {
  }

  /** Joining blocks makes no cycles. */
  lemma FlattenedNoCycles(o: Flow, f: Flow, chain: Chain)
    requires Chained(o, f, chain) && NoCycles(o.succs)
    ensures NoCycles(f.succs)
  {
    forall p | |p| > 1 && IsPath(f.succs, p[0], p)
      ensures p[|p| - 1] != p[0]
    {
      var b, rest := p[|p| - 1], p[..|p| - 1];
      ExpandPath(o, f, chain, p[0], p);
      ExpandPath(o, f, chain, p[0], rest);
      ExpandLast(o, f, chain, p[0], p);
      var e, n := Expand(chain, p), |Expand(chain, rest)|;
      PathPrefix(o.succs, p[0], e, n + 1);
      assert ChainAt(o, f, chain, b);
      assert e[..n + 1][n] == b;
      NoCycleAt(o.succs, e[..n + 1]);
    }
  }

  lemma FlatUnused(f: Flow, flat: Flow, next: Block)
    requires Within(f, flat) && forall b :: b in f.succs || b in f.bodies ==> b < next
    ensures Unused(flat.succs, flat.bodies, next)
  {
  }

  /** A lifted function as it comes to the optimisation: records and predecessors are right, all blocks can be reached,
      none has more than two successors, and the entry does nothing but lead to the first block. */
  ghost predicate Liftable(f: Flow, entry: Block) {
    && WellKept(f) && AllReached(f, entry) && entry in f.succs && |f.succs[entry]| == 1 &&
         EntersAt(f, entry, f.succs[entry][0])
    && Body(f.bodies, entry) == [] && forall b :: b in f.succs ==> |f.succs[b]| <= 2
  }

  /** The control-flow graph of a function, without edges from a block to itself. */
  ghost function Cfg(f: Flow): Succ {
    CfgOf(f.succs.Keys, f.preds)
  }

  lemma LiftableParts(f: Flow, entry: Block)
    requires Liftable(f, entry)
    ensures WellKept(f) && AllReached(f, entry) && entry in f.succs && |f.succs[entry]| == 1
    ensures EntersAt(f, entry, f.succs[entry][0])
    ensures Body(f.bodies, entry) == [] && forall b :: b in f.succs ==> |f.succs[b]| <= 2
  {
  }

  lemma CfgIs(f: Flow)
    ensures Cfg(f) == CfgOf(f.succs.Keys, f.preds)
  {
  }

  lemma FlatBare(f: Flow, flat: Flow, entry: Block, first: Block)
    requires EntersAt(flat, entry, first) && SameEntry(f, flat, entry) && Body(f.bodies, entry) == []
    ensures Bare(flat.bodies, flat.succs, entry)
    ensures CallFree(f.bodies) ==> CallFree(flat.bodies)
  {
    forall q | q in flat.succs
      ensures entry !in flat.succs[q]
    {
      assert !LeadsTo(flat, q, entry);
    }
  }

  lemma FlowIs(flat: Flow, entry: Block, fn: Fn, garbage: set<Block>, drvd: RegSets, passed: RegSets, bagOf: Rep,
               reached: set<Block>)
    ensures var g, flags := CfgOf(flat.succs.Keys, flat.preds), garbage * flat.succs.Keys;
            && (OptimizedFlow(flat, entry, fn, garbage, drvd, passed, bagOf, reached) <==>
                  Optimized(fn, flat.bodies, flat.succs, entry, g, LdOf(flat), StrOf(flat), flags, drvd, passed, bagOf,
                    reached))
            && (FlowMeans(flat, entry, fn, bagOf, garbage) <==>
                  Means(fn, flat.bodies, flat.succs, entry, g, LdOf(flat), StrOf(flat), bagOf, flags))
  {
  }

  lemma MeansWithoutLoops(flat: Flow, entry: Block, fn: Fn, bagOf: Rep, garbage: set<Block>)
    requires FlowMeans(flat, entry, fn, bagOf, garbage) && NoLoops(Cfg(flat), flat.succs)
    ensures Right(fn, flat.bodies, entry) && Preserves(fn, flat.bodies, flat.succs, entry)
  {
  }

  /** `fn` is what analysis and promotion have made of a flattened function. */
  ghost predicate OptimizedFlow(flat: Flow, entry: Block, fn: Fn, garbage: set<Block>, drvd: RegSets, passed: RegSets,
                                bagOf: Rep, reached: set<Block>) {
    Optimized(fn, flat.bodies, flat.succs, entry, Cfg(flat), LdOf(flat), StrOf(flat), garbage * flat.succs.Keys, drvd,
      passed, bagOf, reached)
  }

  ghost predicate FlowMeans(flat: Flow, entry: Block, fn: Fn, bagOf: Rep, garbage: set<Block>) {
    Means(fn, flat.bodies, flat.succs, entry, Cfg(flat), LdOf(flat), StrOf(flat), bagOf, garbage * flat.succs.Keys)
  }

  /** A promoted function that preserves the values of the flattened one has the runs of the function it was lifted
      from. */
  lemma PreservedRuns(f: Flow, flat: Flow, entry: Block, fn: Fn, garbage: set<Block>, drvd: RegSets, passed: RegSets,
                      bagOf: Rep, reached: set<Block>)
    requires SameRuns(f, flat, entry) && OptimizedFlow(flat, entry, fn, garbage, drvd, passed, bagOf, reached)
    requires FlowMeans(flat, entry, fn, bagOf, garbage) && Preserves(fn, flat.bodies, flat.succs, entry)
    requires entry in flat.succs
    ensures SamePromotedRuns(f, fn, flat, entry)
  {
    hide SameRuns, Relayed, Complete, ClosedFrom, StoresDone, DerivesNeeded, ComponentBags, NamedAtEntries,
         PassedBefore, KeepsReads, KeepsReturned, Reads, Returns, ReadsSafe, ReturnsSafe, Right, SamePromotedRuns,
         EcvReg.CheckPassedReturnRegs;
    PromotedSameRuns(f, fn, flat, drvd, entry);
  }

  /** The optimisation of a lifted function: it is flattened, analysed and promoted. The flattened function runs through
      the same instructions, and is the function itself if nothing can be joined. Of functions without calls, the
      promoted one reads and returns what the flattened one does exactly under the stated conditions on its graph, and
      without cycles always. Then it has exactly the runs of the lifted function, with the same values. */
  method OptimizeLifted(f: Flow, entry: Block, nextBlock: Block, garbage: set<Block>)
    returns (flat: Flow, fn: Promotion, drvd: RegSets, passed: RegSets, ghost bagOf: Rep, ghost reached: set<Block>)
    requires Liftable(f, entry) && forall b :: b in f.succs || b in f.bodies ==> b < nextBlock
    ensures SameRuns(f, flat, entry) && Flat(flat, entry) && (Flat(f, entry) ==> flat == f)
    ensures OptimizedFlow(flat, entry, fn.Now(), garbage, drvd, passed, bagOf, reached)
    ensures ReturnsStored(fn.Now(), flat.bodies, flat.succs)
    ensures CallFree(f.bodies) ==> FlowMeans(flat, entry, fn.Now(), bagOf, garbage)
    ensures CallFree(f.bodies) && NoCycles(f.succs) ==>
              Right(fn.Now(), flat.bodies, entry) && Preserves(fn.Now(), flat.bodies, flat.succs, entry)
    ensures CallFree(f.bodies) && Preserves(fn.Now(), flat.bodies, flat.succs, entry) ==>
              SamePromotedRuns(f, fn.Now(), flat, entry)
  {
    hide *;
    LiftableParts(f, entry);
    var flattener := new Flattener(f);
    ghost var chain := flattener.Flatten(entry);
    flat := Flow(flattener.succs, flattener.bbParents, flattener.bodies, flattener.infos);
    FlowTables(flat);
    FlowSummarised(flat);
    FlowHeld(flat);
    FlowReaches(flat, entry);
    FlatUnused(f, flat, nextBlock);
    FlatBare(f, flat, entry, f.succs[entry][0]);
    CfgIs(flat);
    fn, drvd, passed, bagOf, reached :=
      OptimizeFunction(flat.succs, flat.preds, flat.bodies, LdOf(flat), StrOf(flat), HeldOf(flat), entry, nextBlock,
                       garbage * flat.succs.Keys);
    FlowIs(flat, entry, fn.Now(), garbage, drvd, passed, bagOf, reached);
    if CallFree(f.bodies) {
      if NoCycles(f.succs) {
        FlattenedNoCycles(f, flat, chain);
        GraphOfCfg(flat.succs, flat.preds);
        NoCyclesNoLoops(flat.succs, Cfg(flat));
        MeansWithoutLoops(flat, entry, fn.Now(), bagOf, garbage);
      }
      if Preserves(fn.Now(), flat.bodies, flat.succs, entry) {
        PreservedRuns(f, flat, entry, fn.Now(), garbage, drvd, passed, bagOf, reached);
      }
    }
  }
}
