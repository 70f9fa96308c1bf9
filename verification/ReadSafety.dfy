/** When the reads of a promoted function are right: the exact condition on the control-flow graph. */
module ReadSafety {
  import opened Registers
  import opened Graphs
  import opened LoopState
  import opened PhiRegs
  import opened Promoted
  import opened PromotedReads
  import opened PhiSafety

  /** A walk to a block that reads `r` before it writes it, and on which no block in front of this one writes `r`. */
  ghost predicate Delivers(succs: Targets, ld: RegMaps, str: RegMaps, w: seq<Block>, r: EcvReg) {
    && |w| > 1 && IsPath(succs, w[0], w) && Touches(ld, w[|w| - 1], r)
    && forall i :: 0 <= i < |w| - 1 ==> !Touches(str, w[i], r)
  }

  /** From a block that needs no phi for `r` although `r` has been written, no walk leads to a read of `r` without a
      write. */
  ghost predicate LoadsSafe(g: Succ, succs: Targets, ld: RegMaps, str: RegMaps, bagOf: Rep) {
    forall w, r {:trigger Delivers(succs, ld, str, w, r)} ::
      Delivers(succs, ld, str, w, r) && w[0] in bagOf && !NeedsAnyway(g, ld, str, bagOf, w[0], r) ==>
        !WrittenBy(g, str, w[0], r)
  }

  /** No read yields a value that was loaded although the register had been written. Of the loop flags, which are not
      initialised, only those of blocks that are their own successors matter. */
  ghost predicate ReadsSafe(g: Succ, succs: Targets, ld: RegMaps, str: RegMaps, bagOf: Rep, garbage: set<Block>) {
    LoadsSafe(g, succs, ld, str, bagOf) && SelfLoopsSafe(g, succs, ld, str, bagOf, garbage)
  }

  /** Reads are safe whatever the loop flags happen to be exactly if they are when no flag is set. */
  lemma SafeForAllFlags(g: Succ, succs: Targets, ld: RegMaps, str: RegMaps, bagOf: Rep)
    ensures (forall garbage :: ReadsSafe(g, succs, ld, str, bagOf, garbage)) <==>
              ReadsSafe(g, succs, ld, str, bagOf, {})
  {
    hide LoadsSafe, NeedsAnyway, Touches;
    forall garbage | ReadsSafe(g, succs, ld, str, bagOf, {})
      ensures ReadsSafe(g, succs, ld, str, bagOf, garbage)
    {
    }
  }

  // ---------------------------------------------------------------------------
  // From the paths to the graph

  lemma FeedDelivers(bodies: Bodies, g: Succ, succs: Targets, drvd: RegSets, ld: RegMaps, str: RegMaps, bagOf: Rep,
                     garbage: set<Block>, w: seq<Block>, r: EcvReg)
    requires GraphOf(succs, g) && Summarised(bodies, g, ld, str) && ComponentBags(g, bagOf)
    requires DerivesNeeded(g, ld, str, bagOf, garbage, drvd) && Feeds(bodies, succs, drvd, w, r)
    ensures Delivers(succs, ld, str, w, r) && w[0] in g && w[0] in bagOf
    ensures !NeedsPhi(g, ld, str, bagOf, garbage, w[0], r)
  {
    hide Summarised, NeedsPhi, SameComponent, ReadsFirst, Writes;
    forall i | 0 <= i < |w|
      ensures w[i] in g && (i < |w| - 1 ==> !Touches(str, w[i], r)) && (i == |w| - 1 ==> Touches(ld, w[i], r))
    {
      WrittenAt(bodies, g, ld, str, w[i], r);
    }
  }

  lemma DeliveredFeeds(bodies: Bodies, g: Succ, succs: Targets, drvd: RegSets, ld: RegMaps, str: RegMaps, bagOf: Rep,
                       garbage: set<Block>, w: seq<Block>, r: EcvReg)
    requires GraphOf(succs, g) && Summarised(bodies, g, ld, str) && ComponentBags(g, bagOf)
    requires DerivesNeeded(g, ld, str, bagOf, garbage, drvd) && Delivers(succs, ld, str, w, r)
    requires forall i :: 0 <= i < |w| ==> w[i] in bagOf && (NeedsPhi(g, ld, str, bagOf, garbage, w[i], r) <==> i > 0)
    ensures Feeds(bodies, succs, drvd, w, r)
  {
    hide Summarised, NeedsPhi, SameComponent, ReadsFirst, Writes;
    forall i | 0 <= i < |w|
      ensures w[i] in drvd && (r in drvd[w[i]] <==> i > 0) && (i < |w| - 1 ==> !Defines(bodies, w[i], r))
      ensures i == |w| - 1 ==> ReadsFirst(Body(bodies, w[i]), r)
    {
      WrittenAt(bodies, g, ld, str, w[i], r);
    }
  }

  lemma DeliversIn(g: Succ, succs: Targets, ld: RegMaps, str: RegMaps, bagOf: Rep, w: seq<Block>, r: EcvReg)
    requires GraphOf(succs, g) && ComponentBags(g, bagOf) && Delivers(succs, ld, str, w, r)
    ensures |w| > 1 && IsPath(succs, w[0], w) && forall i :: 0 <= i < |w| ==> w[i] in g && w[i] in bagOf
    ensures !Touches(str, w[0], r) && Touches(ld, w[|w| - 1], r)
  {
  }

  lemma DeliversTail(succs: Targets, ld: RegMaps, str: RegMaps, w: seq<Block>, k: int, r: EcvReg)
    requires Delivers(succs, ld, str, w, r) && 0 < k < |w| - 1
    ensures Delivers(succs, ld, str, w[k..], r)
  {
  }

  lemma WrittenAlong(g: Succ, succs: Targets, str: RegMaps, w: seq<Block>, k: nat, r: EcvReg)
    requires GraphOf(succs, g) && |w| > 0 && IsPath(succs, w[0], w) && k < |w| && WrittenBy(g, str, w[0], r)
    ensures WrittenBy(g, str, w[k], r)
  {
    hide WrittenBy;
    PathReach(g, succs, w[0], w[..k + 1], 0);
    WrittenOn(g, str, w[0], w[k], r);
  }

  /** Blocks on a walk to a read, behind one that needs no phi: what the last of these loads is read. */
  lemma {:induction false} DeliveredUnwritten(bodies: Bodies, g: Succ, succs: Targets, drvd: RegSets, entry: Block,
                                              ld: RegMaps, str: RegMaps, bagOf: Rep, garbage: set<Block>, w: seq<Block>,
                                              r: EcvReg)
    requires GraphOf(succs, g) && Summarised(bodies, g, ld, str) && ReachesAll(g, entry) && ComponentBags(g, bagOf)
    requires DerivesNeeded(g, ld, str, bagOf, garbage, drvd) && ReadsFed(bodies, succs, drvd, entry)
    requires Delivers(succs, ld, str, w, r) && w[0] in bagOf && !NeedsPhi(g, ld, str, bagOf, garbage, w[0], r)
    ensures !WrittenBy(g, str, w[0], r)
    decreases |w|
  {
    hide Summarised, NeedsPhi, ReachesAll, GraphOf, ComponentBags, Unwritten, WrittenBy, Touches, DerivesNeeded,
         ReadsFed, Delivers, IsPath;
    DeliversIn(g, succs, ld, str, bagOf, w, r);
    if WrittenBy(g, str, w[0], r) {
      var last := |w| - 1;
      if k :| 0 < k < last && !NeedsPhi(g, ld, str, bagOf, garbage, w[k], r) {
        DeliversTail(succs, ld, str, w, k, r);
        WrittenAlong(g, succs, str, w, k, r);
        DeliveredUnwritten(bodies, g, succs, drvd, entry, ld, str, bagOf, garbage, w[k..], r);
      } else if NeedsPhi(g, ld, str, bagOf, garbage, w[last], r) {
        DeliveredFeeds(bodies, g, succs, drvd, ld, str, bagOf, garbage, w, r);
        FedUnwritten(bodies, g, succs, drvd, entry, ld, str, w, r);
      } else {
        WrittenAlong(g, succs, str, w, last - 1, r);
        LoadedUnwritten(bodies, g, succs, drvd, entry, ld, str, bagOf, garbage, w[last - 1], w[last], r) by {
          StepOf(succs, w, last);
        }
      }
    }
  }

  lemma StepOf(succs: Targets, w: seq<Block>, i: int)
    requires |w| > 1 && IsPath(succs, w[0], w) && 0 < i < |w|
    ensures w[i - 1] in succs && w[i] in succs[w[i - 1]]
  {
  }

  lemma FedUnwritten(bodies: Bodies, g: Succ, succs: Targets, drvd: RegSets, entry: Block, ld: RegMaps, str: RegMaps,
                     w: seq<Block>, r: EcvReg)
    requires GraphOf(succs, g) && Summarised(bodies, g, ld, str) && ReachesAll(g, entry)
    requires ReadsFed(bodies, succs, drvd, entry) && Feeds(bodies, succs, drvd, w, r) && w[0] in g
    ensures !WrittenBy(g, str, w[0], r)
  {
    hide Summarised, ReachesAll, GraphOf, Unwritten, WrittenBy, Feeds;
    FeedsFrom(bodies, succs, drvd, w, r);
    UnwrittenIff(bodies, g, succs, entry, ld, str, w[0], r);
  }

  /** Where a block without a phi reads first, no block has written the register before it. */
  lemma LoadedUnwritten(bodies: Bodies, g: Succ, succs: Targets, drvd: RegSets, entry: Block, ld: RegMaps, str: RegMaps,
                        bagOf: Rep, garbage: set<Block>, c: Block, b: Block, r: EcvReg)
    requires GraphOf(succs, g) && Summarised(bodies, g, ld, str) && ReachesAll(g, entry) && ComponentBags(g, bagOf)
    requires DerivesNeeded(g, ld, str, bagOf, garbage, drvd) && ReadsFed(bodies, succs, drvd, entry)
    requires c in succs && b in succs[c] && c in g && b in g && b in bagOf && Touches(ld, b, r)
    requires !NeedsPhi(g, ld, str, bagOf, garbage, b, r)
    ensures !WrittenBy(g, str, c, r)
  {
    hide Summarised, ReachesAll, SameComponent, NeedsPhi, Unwritten, UnwrittenBefore, WrittenBy, ReadsFirst;
    WrittenAt(bodies, g, ld, str, b, r);
    assert LoadsFirst(bodies, succs, drvd, b, r);
    UnwrittenBeforeIff(bodies, g, succs, entry, ld, str, b, r);
    UnwrittenIff(bodies, g, succs, entry, ld, str, c, r);
  }

  // ---------------------------------------------------------------------------
  // The equivalence

  /** With the derived registers of the bags, reads are right on all paths exactly under this condition on the graph. */
  lemma FedIffGraph(bodies: Bodies, g: Succ, succs: Targets, drvd: RegSets, entry: Block, ld: RegMaps, str: RegMaps,
                    bagOf: Rep, garbage: set<Block>)
    requires GraphOf(succs, g) && Summarised(bodies, g, ld, str) && ReachesAll(g, entry) && ComponentBags(g, bagOf)
    requires DerivesNeeded(g, ld, str, bagOf, garbage, drvd)
    ensures ReadsFed(bodies, succs, drvd, entry) <==> ReadsSafe(g, succs, ld, str, bagOf, garbage)
  {
    hide *;
    if ReadsFed(bodies, succs, drvd, entry) {
      FedIsSafe(bodies, g, succs, drvd, entry, ld, str, bagOf, garbage);
    }
    if ReadsSafe(g, succs, ld, str, bagOf, garbage) {
      SafeIsFed(bodies, g, succs, drvd, entry, ld, str, bagOf, garbage);
    }
  }

  lemma FedIsSafe(bodies: Bodies, g: Succ, succs: Targets, drvd: RegSets, entry: Block, ld: RegMaps, str: RegMaps,
                  bagOf: Rep, garbage: set<Block>)
    requires GraphOf(succs, g) && Summarised(bodies, g, ld, str) && ReachesAll(g, entry) && ComponentBags(g, bagOf)
    requires DerivesNeeded(g, ld, str, bagOf, garbage, drvd) && ReadsFed(bodies, succs, drvd, entry)
    ensures ReadsSafe(g, succs, ld, str, bagOf, garbage)
  {
    hide Summarised, ReachesAll, ComponentBags, GraphOf, DerivesNeeded, ReadsFed, NeedsPhi, NeedsAnyway, WrittenBy,
         Touches, Delivers;
    forall w, r {:trigger Delivers(succs, ld, str, w, r)} | Delivers(succs, ld, str, w, r)
      ensures |w| > 0
      ensures w[0] in bagOf && !NeedsAnyway(g, ld, str, bagOf, w[0], r) ==> !WrittenBy(g, str, w[0], r)
    {
      DeliversIn(g, succs, ld, str, bagOf, w, r);
      if !NeedsAnyway(g, ld, str, bagOf, w[0], r) {
        if NeedsPhi(g, ld, str, bagOf, garbage, w[0], r) {
          FlaggedUnwritten(g, ld, str, bagOf, garbage, w[0], r);
        } else {
          DeliveredUnwritten(bodies, g, succs, drvd, entry, ld, str, bagOf, garbage, w, r);
        }
      }
    }
    forall b, r | b in g && b in succs && b in succs[b] && b in bagOf && Touches(ld, b, r) && Touches(str, b, r)
      ensures b in garbage || NeedsAnyway(g, ld, str, bagOf, b, r)
    {
      NeedsIfFlagged(g, ld, str, bagOf, garbage, b, r);
      if !NeedsPhi(g, ld, str, bagOf, garbage, b, r) {
        LoadedUnwritten(bodies, g, succs, drvd, entry, ld, str, bagOf, garbage, b, b, r);
        WrittenHere(g, str, b, r);
      }
    }
  }

  lemma WrittenHere(g: Succ, str: RegMaps, b: Block, r: EcvReg)
    requires b in g && Touches(str, b, r)
    ensures WrittenBy(g, str, b, r)
  {
    ReachSelf(g, b);
  }

  lemma SafeIsFed(bodies: Bodies, g: Succ, succs: Targets, drvd: RegSets, entry: Block, ld: RegMaps, str: RegMaps,
                  bagOf: Rep, garbage: set<Block>)
    requires GraphOf(succs, g) && Summarised(bodies, g, ld, str) && ReachesAll(g, entry) && ComponentBags(g, bagOf)
    requires DerivesNeeded(g, ld, str, bagOf, garbage, drvd) && ReadsSafe(g, succs, ld, str, bagOf, garbage)
    ensures ReadsFed(bodies, succs, drvd, entry)
  {
    hide Summarised, ReachesAll, ComponentBags, GraphOf, DerivesNeeded, NeedsPhi, NeedsAnyway, WrittenBy, Touches,
         Delivers, Feeds, LoadsFirst, Unwritten, UnwrittenBefore;
    forall w, r {:trigger Feeds(bodies, succs, drvd, w, r)} | Feeds(bodies, succs, drvd, w, r)
      ensures |w| > 0 && Unwritten(bodies, succs, entry, w[0], r)
    {
      FeedsFrom(bodies, succs, drvd, w, r);
      FeedDelivers(bodies, g, succs, drvd, ld, str, bagOf, garbage, w, r);
      if NeedsAnyway(g, ld, str, bagOf, w[0], r) {
        NeedsMore(g, ld, str, bagOf, garbage, w[0], r);
      }
      UnwrittenIff(bodies, g, succs, entry, ld, str, w[0], r);
    }
    forall b, r {:trigger LoadsFirst(bodies, succs, drvd, b, r)} | LoadsFirst(bodies, succs, drvd, b, r)
      ensures UnwrittenBefore(bodies, succs, entry, b, r)
    {
      LoadsFirstIs(bodies, g, succs, drvd, ld, str, bagOf, garbage, b, r);
      NeedsIfFlagged(g, ld, str, bagOf, garbage, b, r);
      ReadSafeIff(bodies, g, succs, entry, ld, str, bagOf, garbage, b, r);
    }
  }

  lemma LoadsFirstIs(bodies: Bodies, g: Succ, succs: Targets, drvd: RegSets, ld: RegMaps, str: RegMaps, bagOf: Rep,
                     garbage: set<Block>, b: Block, r: EcvReg)
    requires GraphOf(succs, g) && Summarised(bodies, g, ld, str) && ComponentBags(g, bagOf)
    requires DerivesNeeded(g, ld, str, bagOf, garbage, drvd) && LoadsFirst(bodies, succs, drvd, b, r)
    ensures b in g && b in succs && b in bagOf && Touches(ld, b, r) && !NeedsPhi(g, ld, str, bagOf, garbage, b, r)
  {
    hide Summarised, NeedsPhi, SameComponent, ReadsFirst;
    WrittenAt(bodies, g, ld, str, b, r);
  }

  // ---------------------------------------------------------------------------
  // Where the condition fails

  /** Reads are safe where all values are: a wrong read lies behind an edge on which a written register is loaded. */
  lemma EdgesSafeReads(g: Succ, succs: Targets, ld: RegMaps, str: RegMaps, bagOf: Rep)
    requires GraphOf(succs, g) && ComponentBags(g, bagOf) && EdgesSafe(g, ld, str, bagOf)
    ensures LoadsSafe(g, succs, ld, str, bagOf)
  {
    hide GraphOf, ComponentBags, EdgesSafe, NeedsAnyway, WrittenBy, Touches, Delivers;
    forall w, r {:trigger Delivers(succs, ld, str, w, r)} | Delivers(succs, ld, str, w, r)
      ensures |w| > 0
      ensures w[0] in bagOf && !NeedsAnyway(g, ld, str, bagOf, w[0], r) ==> !WrittenBy(g, str, w[0], r)
    {
      DeliversIn(g, succs, ld, str, bagOf, w, r);
      if !NeedsAnyway(g, ld, str, bagOf, w[0], r) && WrittenBy(g, str, w[0], r) {
        StaleEdgeOn(g, succs, ld, str, bagOf, w, r);
      }
    }
  }

  lemma {:induction false} StaleEdgeOn(g: Succ, succs: Targets, ld: RegMaps, str: RegMaps, bagOf: Rep, w: seq<Block>,
                                       r: EcvReg)
    requires GraphOf(succs, g) && ComponentBags(g, bagOf) && Delivers(succs, ld, str, w, r)
    requires w[0] in bagOf && !NeedsAnyway(g, ld, str, bagOf, w[0], r) && WrittenBy(g, str, w[0], r)
    ensures !EdgesSafe(g, ld, str, bagOf)
    decreases |w|
  {
    hide ComponentBags, NeedsAnyway, WrittenBy, Touches, Delivers, IsPath;
    DeliversIn(g, succs, ld, str, bagOf, w, r);
    StepOf(succs, w, 1);
    var c, b := w[0], w[1];
    if Touches(ld, c, r) {
      ReadNeeds(g, ld, str, bagOf, c, c, r);
    }
    if NeedsAnyway(g, ld, str, bagOf, b, r) {
      assert c in g && b in g[c] && LoadedBehind(g, ld, str, bagOf, c, b, r);
    } else if |w| == 2 {
      ReadNeeds(g, ld, str, bagOf, c, b, r);
    } else {
      DeliversTail(succs, ld, str, w, 1, r);
      WrittenAlong(g, succs, str, w, 1, r);
      StaleEdgeOn(g, succs, ld, str, bagOf, w[1..], r);
    }
  }

  /** A block that reads what has been written in front of it needs a phi. */
  lemma ReadNeeds(g: Succ, ld: RegMaps, str: RegMaps, bagOf: Rep, c: Block, b: Block, r: EcvReg)
    requires ComponentBags(g, bagOf) && c in g && b in g && (b == c || b in g[c]) && Touches(ld, b, r)
    requires !Touches(str, c, r)
    requires WrittenBy(g, str, c, r)
    ensures b in bagOf && NeedsAnyway(g, ld, str, bagOf, b, r)
  {
    hide Reach, NeedsPhi, Touches;
    var a :| a in g && Reach(g, a, c) && Touches(str, a, r);
    if b != c {
      ReachEdge(g, c, b);
      ReachTrans(g, a, c, b);
    }
    if a == b {
      LoopCovered(g, ld, str, bagOf, {}, b, c, r);
    } else {
      PhiCoverage(g, ld, str, bagOf, {}, a, b, r);
    }
  }
}
