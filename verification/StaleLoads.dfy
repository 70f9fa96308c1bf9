/** Three functions that are promoted wrongly. Each of them is a lifted function in which nothing can be joined. */
module StaleLoads {
  import opened Registers
  import opened Graphs
  import opened LoopState
  import opened PhiRegs
  import opened Promoted
  import opened PromotedReads
  import opened PhiSafety
  import opened ReadSafety
  import opened LoopNames
  import opened RegInfos
  import opened Flows
  import opened Flattening
  import opened VirtualRegsOpts

  /** The function is optimised as it is. */
  ghost predicate OptimisedAsIs(f: Flow, entry: Block) {
    Liftable(f, entry) && Flat(f, entry) && CallFree(f.bodies) && FinalLoopsEnterOnce(Cfg(f), entry)
  }

  /** What such a function becomes reads and returns what it should exactly under the conditions on its graph. */
  lemma AsIsMeans(f: Flow, entry: Block, fn: Fn, garbage: set<Block>, drvd: RegSets, passed: RegSets, bagOf: Rep,
                  reached: set<Block>)
    requires OptimisedAsIs(f, entry) && OptimizedFlow(f, entry, fn, garbage, drvd, passed, bagOf, reached)
    ensures var g, names, flags := Cfg(f), EntryNames(Cfg(f), entry), garbage * f.succs.Keys;
            && (KeepsReads(fn, f.bodies, f.succs, entry) <==> ReadsSafe(g, f.succs, LdOf(f), StrOf(f), names, flags))
            && forall r: EcvReg :: r.CheckPassedReturnRegs() ==>
                 (KeepsReturned(fn, f.bodies, f.succs, entry, r) <==>
                   ReturnsSafe(g, f.succs, LdOf(f), StrOf(f), names, r))
  {
    hide *;
    AsIsParts(f, entry);
    LiftableParts(f, entry);
    FlowTables(f);
    FlowSummarised(f);
    FlowReaches(f, entry);
    GraphOfCfg(f.succs, f.preds);
    CfgIs(f);
    SameEntrySelf(f, entry);
    FlatBare(f, f, entry, f.succs[entry][0]);
    FlowIs(f, entry, fn, garbage, drvd, passed, bagOf, reached);
    OptimizedMeans(fn, f.succs, f.bodies, drvd, passed, Cfg(f), LdOf(f), StrOf(f), entry, bagOf, garbage * f.succs.Keys,
      reached);
    MeansByName(fn, f.bodies, f.succs, entry, Cfg(f), LdOf(f), StrOf(f), bagOf, garbage * f.succs.Keys);
  }

  lemma AsIsParts(f: Flow, entry: Block)
    requires OptimisedAsIs(f, entry)
    ensures Liftable(f, entry) && CallFree(f.bodies) && FinalLoopsEnterOnce(Cfg(f), entry)
  {
  }

  lemma MeansByName(fn: Fn, bodies: Bodies, succs: Targets, entry: Block, g: Succ, ld: RegMaps, str: RegMaps,
                    bagOf: Rep, garbage: set<Block>)
    requires Means(fn, bodies, succs, entry, g, ld, str, bagOf, garbage) && FinalLoopsEnterOnce(g, entry)
    ensures var names := EntryNames(g, entry);
            && (KeepsReads(fn, bodies, succs, entry) <==> ReadsSafe(g, succs, ld, str, names, garbage))
            && forall r: EcvReg :: r.CheckPassedReturnRegs() ==>
                 (KeepsReturned(fn, bodies, succs, entry, r) <==> ReturnsSafe(g, succs, ld, str, names, r))
  {
    hide KeepsReads, KeepsReturned, ReadsSafe, ReturnsSafe, FinalLoopsEnterOnce, EntryNames,
         EcvReg.CheckPassedReturnRegs;
  }

  lemma EmptyRecord()
    ensures Records([], NOTHING)
  {
  }

  lemma WriteRecord(r: EcvReg)
    ensures Records([Write(r)], Info(map[], map[r := RegX], map[r := Held(RegX, 1)]))
  {
    var body := [Write(r)];
    forall s
      ensures Writes(body, s) <==> s == r
      ensures !ReadsFirst(body, s)
      ensures s == r ==> s in Own(body)
    {
      OwnHas(body, s);
      assert body[0] == Write(r);
      assert LastWrite(body, 1, s) == if s == r then 0 else LastWrite(body, 0, s);
    }
  }

  lemma ReadRecord(r: EcvReg)
    ensures Records([Read(r)], Info(map[r := RegX], map[], map[r := Held(RegX, 2)]))
  {
    var body := [Read(r)];
    forall s
      ensures !Writes(body, s)
      ensures ReadsFirst(body, s) <==> s == r
      ensures s == r ==> s in Own(body)
    {
      OwnHas(body, s);
      assert body[0] == Read(r);
      assert ExposedReadOf(body, 0, r);
    }
  }

  lemma ReadWriteRecord(r: EcvReg)
    ensures Records([Read(r), Write(r)], Info(map[r := RegX], map[r := RegX], map[r := Held(RegX, 1)]))
  {
    assert [Read(r)] + [Write(r)] == [Read(r), Write(r)];
    ReadRecord(r);
    WriteRecord(r);
    var x, y := Info(map[r := RegX], map[], map[r := Held(RegX, 2)]),
      Info(map[], map[r := RegX], map[r := Held(RegX, 1)]);
    JoinRecords([Read(r)], x, [Write(r)], y);
    assert Joined(x, y) == Info(map[r := RegX], map[r := RegX], map[r := Held(RegX, 1)]);
  }

  lemma CfgAt(f: Flow, v: Block, s: set<Block>)
    requires v in f.succs && forall w :: w in s <==> ComesFrom(f, w, v) && v != w
    ensures v in Cfg(f) && Cfg(f)[v] == s
  {
    forall w
      ensures w in Cfg(f)[v] <==> w in s
    {
      assert ComesFrom(f, w, v) <==> w in f.preds && v in f.preds[w];
    }
  }

  lemma Leads(f: Flow, entry: Block, b: Block, p: seq<Block>)
    requires Promoted.PathTo(f.succs, entry, p, b)
    ensures Reached(f, entry, b)
  {
  }

  lemma StaleRead(g: Succ, succs: Targets, ld: RegMaps, str: RegMaps, names: Rep, garbage: set<Block>, w: seq<Block>,
                  r: EcvReg)
    requires Delivers(succs, ld, str, w, r) && w[0] in names && WrittenBy(g, str, w[0], r)
    requires !NeedsAnyway(g, ld, str, names, w[0], r)
    ensures !ReadsSafe(g, succs, ld, str, names, garbage)
  {
    hide NeedsAnyway, WrittenBy, Touches, Delivers;
  }

  lemma LostReturn(g: Succ, succs: Targets, ld: RegMaps, str: RegMaps, names: Rep, w: seq<Block>, r: EcvReg)
    requires Quiet(succs, str, w, r) && w[0] in names && WrittenBy(g, str, w[0], r)
    requires !NeedsAnyway(g, ld, str, names, w[0], r)
    ensures !ReturnsSafe(g, succs, ld, str, names, r)
  {
    hide NeedsAnyway, WrittenBy, Touches, Quiet;
  }

  // ---------------------------------------------------------------------------
  // A loop that writes a register and does not read it

  /** 0 -> 1 -> 2 -> 1, 1 -> 4, 2 -> 3: block 1 writes the register, block 3 reads it. */
  function WritingLoop(r: EcvReg): Flow {
    Flow(map[0 := [1], 1 := [2, 4], 2 := [1, 3], 3 := [], 4 := []],
         map[0 := {}, 1 := {0, 2}, 2 := {1}, 3 := {2}, 4 := {1}],
         map[0 := [], 1 := [Write(r)], 2 := [], 3 := [Read(r)], 4 := []],
         map[0 := NOTHING, 1 := Info(map[], map[r := RegX], map[r := Held(RegX, 1)]), 2 := NOTHING,
             3 := Info(map[r := RegX], map[], map[r := Held(RegX, 2)]), 4 := NOTHING])
  }

  ghost function WritingGraph(): Succ {
    map[0 := {1}, 1 := {2, 4}, 2 := {1, 3}, 3 := {}, 4 := {}]
  }

  lemma WritingCfg(r: EcvReg)
    ensures Cfg(WritingLoop(r)) == WritingGraph()
    ensures forall a, s :: Touches(LdOf(WritingLoop(r)), a, s) <==> a == 3 && s == r
    ensures forall a, s :: Touches(StrOf(WritingLoop(r)), a, s) <==> a == 1 && s == r
  {
    WritingTouches(r);
    hide LdOf, StrOf, Touches, Cfg;
    var f := WritingLoop(r);
    WritingKeys(r);
    CfgAt(f, 0, {1});
    CfgAt(f, 1, {2, 4});
    CfgAt(f, 2, {1, 3});
    CfgAt(f, 3, {});
    CfgAt(f, 4, {});
    assert Cfg(f) == WritingGraph();
  }

  lemma WritingKeys(r: EcvReg)
    ensures Cfg(WritingLoop(r)).Keys == {0, 1, 2, 3, 4}
  {
  }

  lemma WritingTouches(r: EcvReg)
    ensures forall a, s :: Touches(LdOf(WritingLoop(r)), a, s) <==> a == 3 && s == r
    ensures forall a, s :: Touches(StrOf(WritingLoop(r)), a, s) <==> a == 1 && s == r
  {
  }

  lemma WritingKept(r: EcvReg)
    ensures WellKept(WritingLoop(r)) && AllReached(WritingLoop(r), 0)
  {
    WritingPreds(r);
    WritingRecords(r);
    WritingReached(r);
    hide Records, TruePreds, RecordsAt;
  }

  lemma WritingPreds(r: EcvReg)
    ensures TruePreds(WritingLoop(r))
  {
  }

  lemma WritingRecords(r: EcvReg)
    ensures forall b {:trigger RecordsAt(WritingLoop(r), b)} :: RecordsAt(WritingLoop(r), b)
  {
    hide Records;
    EmptyRecord();
    WriteRecord(r);
    ReadRecord(r);
  }

  lemma WritingReached(r: EcvReg)
    ensures AllReached(WritingLoop(r), 0)
  {
    var f := WritingLoop(r);
    Leads(f, 0, 0, [0]);
    Leads(f, 0, 1, [0, 1]);
    Leads(f, 0, 2, [0, 1, 2]);
    Leads(f, 0, 3, [0, 1, 2, 3]);
    Leads(f, 0, 4, [0, 1, 4]);
  }

  lemma WritingReach()
    ensures forall b :: b in WritingGraph() && Reach(WritingGraph(), 3, b) ==> b == 3
    ensures forall b :: b in WritingGraph() && Reach(WritingGraph(), 4, b) ==> b == 4
    ensures forall b :: b in WritingGraph() && Reach(WritingGraph(), b, 0) ==> b == 0
    ensures Reach(WritingGraph(), 1, 2) && Reach(WritingGraph(), 2, 1) && Reach(WritingGraph(), 1, 3)
    ensures Reach(WritingGraph(), 2, 3)
    ensures WritingGraph().Keys == {0, 1, 2, 3, 4} && 3 in WritingGraph()[2]
  {
    var g := WritingGraph();
    forall b | b in g
      ensures Reach(g, 3, b) ==> b == 3
      ensures Reach(g, 4, b) ==> b == 4
      ensures Reach(g, b, 0) ==> b == 0
    {
      if Reach(g, 3, b) {
        ReachStays(g, {3}, 3, b);
      }
      if Reach(g, 4, b) {
        ReachStays(g, {4}, 4, b);
      }
      if Reach(g, b, 0) && b != 0 {
        ReachStays(g, {1, 2, 3, 4}, b, 0);
      }
    }
    ReachEdge(g, 1, 2);
    ReachEdge(g, 2, 1);
    ReachEdge(g, 2, 3);
    ReachTrans(g, 1, 2, 3);
  }

  lemma WritingNames()
    ensures FinalLoopsEnterOnce(WritingGraph(), 0)
    ensures 2 in EntryNames(WritingGraph(), 0) && 3 in EntryNames(WritingGraph(), 0)
    ensures EntryNames(WritingGraph(), 0)[3] == 3
  {
    hide Reach, WritingGraph, EntryName;
    var g := WritingGraph();
    WritingReach();
    forall d | d in g && OnLoopOfBlocks(g, d)
      ensures LeavesLoop(g, d)
    {
      WritingLeaves(d);
    }
    AloneName(g, 0, 3);
  }

  lemma WritingLeaves(d: Block)
    requires d in WritingGraph() && OnLoopOfBlocks(WritingGraph(), d)
    ensures LeavesLoop(WritingGraph(), d)
  {
    hide Reach, WritingGraph;
    var g := WritingGraph();
    WritingReach();
    var c :| c in g && c != d && SameComponent(g, d, c);
    assert d == 1 || d == 2;
    assert 3 in g && Reach(g, d, 3) && !Reach(g, 3, d);
  }

  lemma WritingNeeds(ld: RegMaps, str: RegMaps, names: Rep, r: EcvReg)
    requires 2 in names && 3 in names && names[3] == 3
    requires forall a :: Touches(ld, a, r) <==> a == 3
    requires forall a :: Touches(str, a, r) <==> a == 1
    ensures !NeedsAnyway(WritingGraph(), ld, str, names, 2, r) && WrittenBy(WritingGraph(), str, 2, r)
  {
    var g := WritingGraph();
    WritingReach();
    ReachSelf(g, 3);
    assert g.Keys == {0, 1, 2, 3, 4};
    hide Reach, Touches, WritingGraph;
    assert 1 in g && 3 in g;
    assert TouchedBefore(g, str, 3, r);
    assert Seen(g, names, 3) && ReadLater(g, ld, names, 3, r);
    assert !TouchedBefore(g, str, 2, r) && !TouchedBefore(g, ld, 2, r) && !TouchedAround(g, ld, 2, r);
    assert WrittenBy(g, str, 2, r);
  }

  /** Behind the loop the register has the value from before the loop: the read there yields it, and the caller gets it
      back. */
  lemma WritingLoopFails(r: EcvReg, fn: Fn, garbage: set<Block>, drvd: RegSets, passed: RegSets, bagOf: Rep,
                         reached: set<Block>)
    requires OptimizedFlow(WritingLoop(r), 0, fn, garbage, drvd, passed, bagOf, reached)
    ensures OptimisedAsIs(WritingLoop(r), 0)
    ensures !KeepsReads(fn, WritingLoop(r).bodies, WritingLoop(r).succs, 0)
    ensures r.CheckPassedReturnRegs() ==> !KeepsReturned(fn, WritingLoop(r).bodies, WritingLoop(r).succs, 0, r)
  {
    hide *;
    WritingAsIs(r);
    AsIsMeans(WritingLoop(r), 0, fn, garbage, drvd, passed, bagOf, reached);
    WritingUnsafe(r, garbage * WritingLoop(r).succs.Keys);
  }

  lemma WritingAsIs(r: EcvReg)
    ensures OptimisedAsIs(WritingLoop(r), 0)
  {
    hide Liftable, Flat, CallFree, FinalLoopsEnterOnce, Cfg, WritingLoop, WritingGraph;
    WritingCfg(r);
    WritingNames();
    WritingLiftable(r);
  }

  lemma WritingUnsafe(r: EcvReg, garbage: set<Block>)
    ensures var f := WritingLoop(r);
            && !ReadsSafe(Cfg(f), f.succs, LdOf(f), StrOf(f), EntryNames(Cfg(f), 0), garbage)
            && !ReturnsSafe(Cfg(f), f.succs, LdOf(f), StrOf(f), EntryNames(Cfg(f), 0), r)
  {
    hide NeedsAnyway, WrittenBy, Touches, EntryNames, Cfg, LdOf, StrOf, WritingLoop, FinalLoopsEnterOnce, ReadsSafe,
         ReturnsSafe, WritingGraph;
    var f := WritingLoop(r);
    var g, ld, str := Cfg(f), LdOf(f), StrOf(f);
    WritingCfg(r);
    WritingNames();
    var names := EntryNames(g, 0);
    WritingNeeds(ld, str, names, r);
    WritingWalk(r);
    StaleRead(g, f.succs, ld, str, names, garbage, [2, 3], r);
    LostReturn(g, f.succs, ld, str, names, [2, 3], r);
  }

  lemma WritingWalk(r: EcvReg)
    ensures Quiet(WritingLoop(r).succs, StrOf(WritingLoop(r)), [2, 3], r)
    ensures Delivers(WritingLoop(r).succs, LdOf(WritingLoop(r)), StrOf(WritingLoop(r)), [2, 3], r)
  {
    hide LdOf, StrOf, Touches;
    WritingCfg(r);
  }

  lemma WritingLiftable(r: EcvReg)
    ensures Liftable(WritingLoop(r), 0) && Flat(WritingLoop(r), 0) && CallFree(WritingLoop(r).bodies)
  {
    WritingKept(r);
    hide WellKept, AllReached;
  }

  // ---------------------------------------------------------------------------
  // A loop that nothing leaves

  /** 0 -> 1 -> 5, 1 -> 6 -> 2 -> 3 -> 2, 2 -> 4 -> 2: block 1 writes the register, block 3 reads it. */
  function FinalLoop(r: EcvReg): Flow {
    Flow(map[0 := [1], 1 := [5, 6], 2 := [3, 4], 3 := [2], 4 := [2], 5 := [], 6 := [2]],
         map[0 := {}, 1 := {0}, 2 := {3, 4, 6}, 3 := {2}, 4 := {2}, 5 := {1}, 6 := {1}],
         map[0 := [], 1 := [Write(r)], 2 := [], 3 := [Read(r)], 4 := [], 5 := [], 6 := []],
         map[0 := NOTHING, 1 := Info(map[], map[r := RegX], map[r := Held(RegX, 1)]), 2 := NOTHING,
             3 := Info(map[r := RegX], map[], map[r := Held(RegX, 2)]), 4 := NOTHING, 5 := NOTHING, 6 := NOTHING])
  }

  ghost function FinalGraph(): Succ {
    map[0 := {1}, 1 := {5, 6}, 2 := {3, 4}, 3 := {2}, 4 := {2}, 5 := {}, 6 := {2}]
  }

  lemma FinalCfg(r: EcvReg)
    ensures Cfg(FinalLoop(r)) == FinalGraph()
    ensures forall a, s :: Touches(LdOf(FinalLoop(r)), a, s) <==> a == 3 && s == r
    ensures forall a, s :: Touches(StrOf(FinalLoop(r)), a, s) <==> a == 1 && s == r
  {
    FinalTouches(r);
    FinalNext(r);
    hide LdOf, StrOf, Touches;
    assert Cfg(FinalLoop(r)).Keys == {0, 1, 2, 3, 4, 5, 6};
  }

  lemma FinalNext(r: EcvReg)
    ensures Cfg(FinalLoop(r)).Keys == {0, 1, 2, 3, 4, 5, 6}
    ensures forall v :: v in Cfg(FinalLoop(r)) ==> Cfg(FinalLoop(r))[v] == FinalGraph()[v]
  {
    hide Cfg;
    var f := FinalLoop(r);
    FinalKeys(r);
    CfgAt(f, 0, {1});
    CfgAt(f, 1, {5, 6});
    CfgAt(f, 2, {3, 4});
    CfgAt(f, 3, {2});
    CfgAt(f, 4, {2});
    CfgAt(f, 5, {});
    CfgAt(f, 6, {2});
  }

  lemma FinalKeys(r: EcvReg)
    ensures Cfg(FinalLoop(r)).Keys == {0, 1, 2, 3, 4, 5, 6}
  {
  }

  lemma FinalTouches(r: EcvReg)
    ensures forall a, s :: Touches(LdOf(FinalLoop(r)), a, s) <==> a == 3 && s == r
    ensures forall a, s :: Touches(StrOf(FinalLoop(r)), a, s) <==> a == 1 && s == r
  {
  }

  lemma FinalLiftable(r: EcvReg)
    ensures Liftable(FinalLoop(r), 0) && Flat(FinalLoop(r), 0) && CallFree(FinalLoop(r).bodies)
  {
    FinalKept(r);
    FinalReached(r);
    hide WellKept, AllReached;
  }

  lemma FinalKept(r: EcvReg)
    ensures WellKept(FinalLoop(r))
  {
    FinalPreds(r);
    FinalRecords(r);
    hide Records, TruePreds, RecordsAt;
  }

  lemma FinalPreds(r: EcvReg)
    ensures TruePreds(FinalLoop(r))
  {
  }

  lemma FinalRecords(r: EcvReg)
    ensures forall b {:trigger RecordsAt(FinalLoop(r), b)} :: RecordsAt(FinalLoop(r), b)
  {
    hide Records;
    EmptyRecord();
    WriteRecord(r);
    ReadRecord(r);
  }

  lemma FinalReached(r: EcvReg)
    ensures AllReached(FinalLoop(r), 0)
  {
    var f := FinalLoop(r);
    Leads(f, 0, 0, [0]);
    Leads(f, 0, 1, [0, 1]);
    Leads(f, 0, 5, [0, 1, 5]);
    Leads(f, 0, 6, [0, 1, 6]);
    Leads(f, 0, 2, [0, 1, 6, 2]);
    Leads(f, 0, 3, [0, 1, 6, 2, 3]);
    Leads(f, 0, 4, [0, 1, 6, 2, 4]);
  }

  lemma FinalReach()
    ensures FinalGraph().Keys == {0, 1, 2, 3, 4, 5, 6} && 2 in FinalGraph()[6]
    ensures forall b :: b in FinalGraph() && Reach(FinalGraph(), 2, b) ==> b == 2 || b == 3 || b == 4
    ensures forall b :: b in FinalGraph() && Reach(FinalGraph(), 5, b) ==> b == 5
    ensures forall b :: b in FinalGraph() && Reach(FinalGraph(), b, 0) ==> b == 0
    ensures forall b :: b in FinalGraph() && Reach(FinalGraph(), b, 1) ==> b == 0 || b == 1
    ensures forall b :: b in FinalGraph() && Reach(FinalGraph(), 6, b) ==> b != 0 && b != 1 && b != 5
  {
    var g := FinalGraph();
    forall b | b in g
      ensures Reach(g, 2, b) ==> b == 2 || b == 3 || b == 4
      ensures Reach(g, 5, b) ==> b == 5
      ensures Reach(g, b, 0) ==> b == 0
      ensures Reach(g, b, 1) ==> b == 0 || b == 1
      ensures Reach(g, 6, b) ==> b != 0 && b != 1 && b != 5
    {
      if Reach(g, 2, b) {
        ReachStays(g, {2, 3, 4}, 2, b);
      }
      if Reach(g, 5, b) {
        ReachStays(g, {5}, 5, b);
      }
      if Reach(g, b, 0) && b != 0 {
        ReachStays(g, {1, 2, 3, 4, 5, 6}, b, 0);
      }
      if Reach(g, b, 1) && b != 0 && b != 1 {
        ReachStays(g, {2, 3, 4, 5, 6}, b, 1);
      }
      if Reach(g, 6, b) {
        ReachStays(g, {2, 3, 4, 6}, 6, b);
      }
    }
  }

  lemma FinalEdges()
    ensures Reach(FinalGraph(), 2, 3) && Reach(FinalGraph(), 3, 2) && Reach(FinalGraph(), 2, 4)
    ensures Reach(FinalGraph(), 4, 2)
    ensures Reach(FinalGraph(), 1, 6) && Reach(FinalGraph(), 0, 2) && Reach(FinalGraph(), 0, 6)
  {
    var g := FinalGraph();
    ReachEdge(g, 0, 1);
    ReachEdge(g, 1, 6);
    ReachEdge(g, 6, 2);
    ReachEdge(g, 2, 3);
    ReachEdge(g, 3, 2);
    ReachEdge(g, 2, 4);
    ReachEdge(g, 4, 2);
    ReachTrans(g, 0, 1, 6);
    ReachTrans(g, 0, 6, 2);
  }

  lemma FinalComponent(b: Block)
    requires b in FinalGraph()
    ensures SameComponent(FinalGraph(), b, 2) <==> b == 2 || b == 3 || b == 4
    ensures SameComponent(FinalGraph(), 2, b) <==> b == 2 || b == 3 || b == 4
    ensures OnLoopOfBlocks(FinalGraph(), b) ==> b == 2 || b == 3 || b == 4
  {
    hide Reach, FinalGraph;
    var g := FinalGraph();
    FinalReach();
    FinalEdges();
    ReachSelf(g, 2);
    if OnLoopOfBlocks(g, b) {
      var c :| c in g && c != b && SameComponent(g, b, c);
      if b == 6 {
        ReachBack(c);
      }
    }
  }

  /** Nothing but 0 and 1 leads to 6. */
  lemma ReachBack(c: Block)
    requires c in FinalGraph() && Reach(FinalGraph(), c, 6)
    ensures c == 0 || c == 1 || c == 6
  {
    if c != 0 && c != 1 && c != 6 {
      ReachStays(FinalGraph(), {2, 3, 4, 5}, c, 6);
    }
  }

  lemma FinalEntry()
    ensures OnlyEntry(FinalGraph(), 0, 2) && !OnlyEntry(FinalGraph(), 0, 3) && !OnlyEntry(FinalGraph(), 0, 4)
  {
    var g := FinalGraph();
    FinalReach();
    FinalEdges();
    hide Reach;
    forall b | b in g
      ensures SameComponent(g, b, 2) <==> b == 2 || b == 3 || b == 4
      ensures SameComponent(g, 2, b) <==> b == 2 || b == 3 || b == 4
    {
      FinalComponent(b);
    }
    assert 6 in g && 2 in g[6] && !SameComponent(g, 6, 2) && SameComponent(g, 2, 3) && SameComponent(g, 2, 4);
    NotSame(3);
    NotSame(4);
  }

  lemma NotSame(b: Block)
    requires b == 3 || b == 4
    ensures !SameComponent(FinalGraph(), 6, b)
  {
    hide Reach, FinalGraph;
    FinalReach();
    ReachBackAll();
  }

  lemma ReachBackAll()
    ensures !Reach(FinalGraph(), 3, 6) && !Reach(FinalGraph(), 4, 6)
  {
    hide Reach;
    if Reach(FinalGraph(), 3, 6) {
      ReachBack(3);
    }
    if Reach(FinalGraph(), 4, 6) {
      ReachBack(4);
    }
  }

  lemma FinalNames()
    ensures FinalLoopsEnterOnce(FinalGraph(), 0)
    ensures 2 in EntryNames(FinalGraph(), 0) && 3 in EntryNames(FinalGraph(), 0) && 6 in EntryNames(FinalGraph(), 0)
    ensures EntryNames(FinalGraph(), 0)[3] == 2
  {
    hide Reach, FinalGraph, OnlyEntry, EntryName;
    var g := FinalGraph();
    FinalReach();
    FinalEntry();
    forall d | d in g && OnLoopOfBlocks(g, d)
      ensures EnteredOnlyAt(g, 0, d, 2)
    {
      FinalComponent(d);
    }
    FinalName();
  }

  lemma FinalName()
    ensures EntryName(FinalGraph(), 0, 3) == 2
  {
    hide Reach, FinalGraph, OnlyEntry;
    var g := FinalGraph();
    FinalReach();
    FinalEntry();
    FinalEdges();
    assert EnteredOnlyAt(g, 0, 3, 2);
    var h := EntryName(g, 0, 3);
    assert EnteredOnlyAt(g, 0, 3, h);
    OnlyEntryIn(h);
    ReachTrans(g, 2, 3, h);
    FinalComponent(h);
  }

  lemma OnlyEntryIn(h: Block)
    requires OnlyEntry(FinalGraph(), 0, h)
    ensures h in FinalGraph()
  {
  }

  lemma FinalNeeds(ld: RegMaps, str: RegMaps, names: Rep, r: EcvReg)
    requires 2 in names && 3 in names && 6 in names && names[3] == 2 && !r.CheckPassedArgsRegs()
    requires forall a :: Touches(ld, a, r) <==> a == 3
    requires forall a :: Touches(str, a, r) <==> a == 1
    ensures !NeedsAnyway(FinalGraph(), ld, str, names, 6, r) && WrittenBy(FinalGraph(), str, 6, r)
  {
    hide Reach, Touches, FinalGraph;
    var g := FinalGraph();
    FinalReach();
    FinalEdges();
    ReachBackAll();
    assert 1 in g && 3 in g && 2 in g;
    assert SameComponent(g, 3, 2) && SameComponent(g, 2, 3);
    assert OnLoopOfBlocks(g, 2) && TouchedAround(g, ld, 2, r);
    assert !TouchedAround(g, ld, 6, r);
    FinalStays();
    assert !Seen(g, names, 3);
    assert !ReadLater(g, ld, names, 6, r);
    assert WrittenBy(g, str, 6, r);
  }

  lemma FinalStays()
    ensures !LeavesLoop(FinalGraph(), 3)
  {
    hide Reach, FinalGraph;
    var g := FinalGraph();
    FinalReach();
    FinalEdges();
    forall c | c in g && Reach(g, 3, c)
      ensures Reach(g, c, 3)
    {
      ReachTrans(g, 2, 3, c);
      if c == 3 {
        ReachSelf(g, 3);
      } else {
        ReachTrans(g, c, 2, 3);
      }
    }
  }

  /** Before the loop the register is loaded again, although block 1 has written it, if it is not passed to callees. The
      read in the loop yields what was loaded. */
  lemma FinalLoopFails(r: EcvReg, fn: Fn, garbage: set<Block>, drvd: RegSets, passed: RegSets, bagOf: Rep,
                       reached: set<Block>)
    requires !r.CheckPassedArgsRegs() && OptimizedFlow(FinalLoop(r), 0, fn, garbage, drvd, passed, bagOf, reached)
    ensures OptimisedAsIs(FinalLoop(r), 0)
    ensures !KeepsReads(fn, FinalLoop(r).bodies, FinalLoop(r).succs, 0)
  {
    hide *;
    FinalAsIs(r);
    AsIsMeans(FinalLoop(r), 0, fn, garbage, drvd, passed, bagOf, reached);
    FinalUnsafe(r, garbage * FinalLoop(r).succs.Keys);
  }

  lemma FinalAsIs(r: EcvReg)
    ensures OptimisedAsIs(FinalLoop(r), 0)
  {
    hide Liftable, Flat, CallFree, FinalLoopsEnterOnce, Cfg, FinalLoop, FinalGraph;
    FinalCfg(r);
    FinalNames();
    FinalLiftable(r);
  }

  lemma FinalUnsafe(r: EcvReg, garbage: set<Block>)
    requires !r.CheckPassedArgsRegs()
    ensures var f := FinalLoop(r); !ReadsSafe(Cfg(f), f.succs, LdOf(f), StrOf(f), EntryNames(Cfg(f), 0), garbage)
  {
    hide NeedsAnyway, WrittenBy, Touches, EntryNames, Cfg, LdOf, StrOf, FinalLoop, FinalLoopsEnterOnce, ReadsSafe,
         FinalGraph, EcvReg.CheckPassedArgsRegs;
    var f := FinalLoop(r);
    var g, ld, str := Cfg(f), LdOf(f), StrOf(f);
    FinalCfg(r);
    FinalNames();
    var names := EntryNames(g, 0);
    FinalNeeds(ld, str, names, r);
    FinalWalk(r);
    StaleRead(g, f.succs, ld, str, names, garbage, [6, 2, 3], r);
  }

  lemma FinalWalk(r: EcvReg)
    ensures Delivers(FinalLoop(r).succs, LdOf(FinalLoop(r)), StrOf(FinalLoop(r)), [6, 2, 3], r)
  {
    hide LdOf, StrOf, Touches;
    FinalCfg(r);
  }

  // ---------------------------------------------------------------------------
  // A block that is its own successor

  /** 0 -> 1 -> 1, 1 -> 2: block 1 reads the register before it writes it. */
  function SelfLoop(r: EcvReg): Flow {
    Flow(map[0 := [1], 1 := [1, 2], 2 := []],
         map[0 := {}, 1 := {0, 1}, 2 := {1}],
         map[0 := [], 1 := [Read(r), Write(r)], 2 := []],
         map[0 := NOTHING, 1 := Info(map[r := RegX], map[r := RegX], map[r := Held(RegX, 1)]), 2 := NOTHING])
  }

  ghost function SelfGraph(): Succ {
    map[0 := {1}, 1 := {2}, 2 := {}]
  }

  lemma SelfCfg(r: EcvReg)
    ensures Cfg(SelfLoop(r)) == SelfGraph()
    ensures forall a, s :: Touches(LdOf(SelfLoop(r)), a, s) <==> a == 1 && s == r
    ensures forall a, s :: Touches(StrOf(SelfLoop(r)), a, s) <==> a == 1 && s == r
  {
    var f := SelfLoop(r);
    assert f.succs.Keys == {0, 1, 2};
    var g := Cfg(f);
    assert g[0] == {1} && g[1] == {2} && g[2] == {};
    assert g.Keys == {0, 1, 2};
  }

  lemma SelfLiftable(r: EcvReg)
    ensures Liftable(SelfLoop(r), 0) && Flat(SelfLoop(r), 0) && CallFree(SelfLoop(r).bodies)
  {
    var f := SelfLoop(r);
    EmptyRecord();
    ReadWriteRecord(r);
    hide Records;
    forall b
      ensures RecordsAt(f, b)
    {
    }
    Leads(f, 0, 0, [0]);
    Leads(f, 0, 1, [0, 1]);
    Leads(f, 0, 2, [0, 1, 2]);
  }

  lemma SelfAlone(b: Block)
    requires b in SelfGraph()
    ensures !OnLoopOfBlocks(SelfGraph(), b)
  {
    var g := SelfGraph();
    forall c | c in g && c != b
      ensures !SameComponent(g, b, c)
    {
      var low, high := if b < c then b else c, if b < c then c else b;
      if Reach(g, high, low) {
        ReachStays(g, (set v | v in g && v >= high), high, low);
      }
    }
  }

  lemma SelfNames()
    ensures FinalLoopsEnterOnce(SelfGraph(), 0) && 1 in EntryNames(SelfGraph(), 0) && EntryNames(SelfGraph(), 0)[1] == 1
  {
    hide OnLoopOfBlocks, EntryName;
    forall b | b in SelfGraph()
      ensures !OnLoopOfBlocks(SelfGraph(), b)
    {
      SelfAlone(b);
    }
    AloneName(SelfGraph(), 0, 1);
  }

  /** No walk leads from behind the write to a read of another block. */
  lemma SelfLoads(r: EcvReg, names: Rep)
    ensures var f := SelfLoop(r); LoadsSafe(SelfGraph(), f.succs, LdOf(f), StrOf(f), names)
  {
    SelfCfg(r);
    hide NeedsAnyway, Touches, Reach, LdOf, StrOf;
    var g, f := SelfGraph(), SelfLoop(r);
    forall w, s {:trigger Delivers(f.succs, LdOf(f), StrOf(f), w, s)} | Delivers(f.succs, LdOf(f), StrOf(f), w, s)
      ensures w[0] in names && !NeedsAnyway(g, LdOf(f), StrOf(f), names, w[0], s) ==> !WrittenBy(g, StrOf(f), w[0], s)
    {
      if WrittenBy(g, StrOf(f), w[0], s) {
        assert Reach(g, 1, w[0]) && s == r;
        ReachStays(g, {1, 2}, 1, w[0]);
        assert w[1] in f.succs[w[0]];
      }
    }
  }

  /** The edge from the block to itself is not in the graph of bags, so the block gets no phi, unless its uninitialised
      loop flag happens to be set: then, and only then, are the reads right. */
  lemma SelfLoopFails(r: EcvReg, fn: Fn, garbage: set<Block>, drvd: RegSets, passed: RegSets, bagOf: Rep,
                      reached: set<Block>)
    requires OptimizedFlow(SelfLoop(r), 0, fn, garbage, drvd, passed, bagOf, reached)
    ensures OptimisedAsIs(SelfLoop(r), 0)
    ensures KeepsReads(fn, SelfLoop(r).bodies, SelfLoop(r).succs, 0) <==> 1 in garbage
  {
    hide *;
    SelfAsIs(r);
    AsIsMeans(SelfLoop(r), 0, fn, garbage, drvd, passed, bagOf, reached);
    SelfSafeIff(r, garbage * SelfLoop(r).succs.Keys);
    SelfTarget(r);
  }

  lemma SelfAsIs(r: EcvReg)
    ensures OptimisedAsIs(SelfLoop(r), 0)
  {
    hide Liftable, Flat, CallFree, FinalLoopsEnterOnce, Cfg, SelfLoop, SelfGraph;
    SelfCfg(r);
    SelfNames();
    SelfLiftable(r);
  }

  lemma SelfSafeIff(r: EcvReg, garbage: set<Block>)
    ensures var f := SelfLoop(r);
            ReadsSafe(Cfg(f), f.succs, LdOf(f), StrOf(f), EntryNames(Cfg(f), 0), garbage) <==> 1 in garbage
  {
    hide NeedsAnyway, Touches, EntryNames, Cfg, LdOf, StrOf, FinalLoopsEnterOnce, SelfLoop, SelfGraph, LoadsSafe;
    var f := SelfLoop(r);
    var g, ld, str := Cfg(f), LdOf(f), StrOf(f);
    SelfCfg(r);
    SelfNames();
    SelfNeeds(ld, str, EntryNames(g, 0), r);
    SelfLoads(r, EntryNames(g, 0));
    SelfTarget(r);
  }

  lemma SelfTarget(r: EcvReg)
    ensures 1 in SelfGraph() && 1 in SelfLoop(r).succs && 1 in SelfLoop(r).succs[1]
  {
  }

  lemma SelfNeeds(ld: RegMaps, str: RegMaps, names: Rep, r: EcvReg)
    requires 1 in names && names[1] == 1
    requires forall a :: Touches(ld, a, r) <==> a == 1
    requires forall a :: Touches(str, a, r) <==> a == 1
    ensures !NeedsAnyway(SelfGraph(), ld, str, names, 1, r)
  {
    var g := SelfGraph();
    SelfAlone(1);
    ReachSelf(g, 1);
    hide Reach, Touches, OnLoopOfBlocks;
    assert 1 in g && SameComponent(g, 1, 1);
    assert TouchedAround(g, ld, 1, r);
    assert !TouchedBefore(g, ld, 1, r) && !TouchedBefore(g, str, 1, r);
  }
}
