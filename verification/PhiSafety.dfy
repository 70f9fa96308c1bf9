/** When promotion with the derived registers of the bags reads right values: conditions on the control-flow graph
    alone. */
module PhiSafety {
  import opened Registers
  import opened Graphs
  import opened LoopState
  import opened PhiRegs
  import opened Promoted

  /** The maps of a block hold the registers that it reads before writing them, and those that it writes. */
  ghost predicate Summarised(bodies: Bodies, g: Succ, ld: RegMaps, str: RegMaps) {
    forall b, r {:trigger Touches(ld, b, r)} {:trigger Touches(str, b, r)} :: b in g ==>
      && (Touches(ld, b, r) <==> ReadsFirst(Body(bodies, b), r))
      && (Touches(str, b, r) <==> Writes(Body(bodies, b), r))
  }

  /** The edges of `g` are the edges of the function between different blocks. */
  ghost predicate GraphOf(succs: Targets, g: Succ) {
    && g.Keys == succs.Keys
    && (forall v, w {:trigger w in g[v]} {:trigger w in succs[v]} :: v in g ==>
         (w in g[v] <==> w in succs[v] && v != w))
    && (forall v, w :: v in succs && w in succs[v] ==> w in succs)
  }

  // ---------------------------------------------------------------------------
  // Coverage

  /** A read of a register that another block wrote before, by any path, needs a phi. */
  lemma PhiCoverage(g: Succ, ld: RegMaps, str: RegMaps, bagOf: Rep, garbage: set<Block>, a: Block, b: Block, r: EcvReg)
    requires ComponentBags(g, bagOf) && a in g && b in g && a != b && Reach(g, a, b)
    requires Touches(str, a, r) && Touches(ld, b, r)
    ensures b in bagOf && NeedsPhi(g, ld, str, bagOf, garbage, b, r)
  {
    ReachSelf(g, b);
    if Reach(g, b, a) {
      assert a in g && a != b && SameComponent(g, b, a);
      assert SameComponent(g, b, b) && TouchedAround(g, ld, b, r);
    } else if bagOf[b] == b {
      assert Seen(g, bagOf, b) && ReadLater(g, ld, bagOf, b, r);
      assert TouchedBefore(g, str, b, r);
    } else {
      assert bagOf[b] in g && bagOf[b] != b && OnLoopOfBlocks(g, b);
      assert SameComponent(g, b, b) && TouchedAround(g, ld, b, r);
    }
  }

  /** Between a write and a read of a register, a block needs a phi if the read is seen. */
  lemma PhiBetween(g: Succ, ld: RegMaps, str: RegMaps, bagOf: Rep, garbage: set<Block>, a: Block, c: Block, d: Block,
                   r: EcvReg)
    requires ComponentBags(g, bagOf) && a in g && c in g && d in g && Reach(g, a, c) && !Reach(g, c, a)
    requires Reach(g, c, d)
    requires Touches(str, a, r) && Touches(ld, d, r) && Seen(g, bagOf, d)
    ensures c in bagOf && NeedsPhi(g, ld, str, bagOf, garbage, c, r)
  {
    assert TouchedBefore(g, str, c, r) && ReadLater(g, ld, bagOf, c, r);
  }

  // ---------------------------------------------------------------------------
  // The condition on the graph

  /** Some block that writes `r` reaches `c`, or is `c`. */
  ghost predicate WrittenBy(g: Succ, str: RegMaps, c: Block, r: EcvReg) {
    exists a :: a in g && Reach(g, a, c) && Touches(str, a, r)
  }

  /** `b` needs a phi for `r`, whatever the loop flag of its bag. */
  ghost predicate NeedsAnyway(g: Succ, ld: RegMaps, str: RegMaps, bagOf: Rep, b: Block, r: EcvReg)
    requires b in bagOf
  {
    NeedsPhi(g, ld, str, bagOf, {}, b, r)
  }

  /** `r` is passed on from `c` to `b`, but `c` has no value of it. */
  ghost predicate LoadedBehind(g: Succ, ld: RegMaps, str: RegMaps, bagOf: Rep, c: Block, b: Block, r: EcvReg)
    requires b in bagOf && c in bagOf
  {
    && NeedsAnyway(g, ld, str, bagOf, b, r) && !NeedsAnyway(g, ld, str, bagOf, c, r)
    && !Touches(ld, c, r) && !Touches(str, c, r)
  }

  /** Wherever `r` is loaded on an edge, no block has written it. */
  ghost predicate EdgesSafe(g: Succ, ld: RegMaps, str: RegMaps, bagOf: Rep) {
    forall c, b, r :: c in g && b in g[c] && b in bagOf && c in bagOf && LoadedBehind(g, ld, str, bagOf, c, b, r) ==>
      !WrittenBy(g, str, c, r)
  }

  /** A block that is its own successor and reads a register before it writes it needs a phi for it, or has its flag
      set. */
  ghost predicate SelfLoopsSafe(g: Succ, succs: Targets, ld: RegMaps, str: RegMaps, bagOf: Rep, garbage: set<Block>) {
    forall b, r :: b in g && b in succs && b in succs[b] && b in bagOf && Touches(ld, b, r) && Touches(str, b, r) ==>
      b in garbage || NeedsAnyway(g, ld, str, bagOf, b, r)
  }

  /** The blocks derive exactly the registers that they need a phi for. */
  ghost predicate DerivesNeeded(g: Succ, ld: RegMaps, str: RegMaps, bagOf: Rep, garbage: set<Block>, drvd: RegSets) {
    && drvd.Keys == g.Keys
    && forall b, r :: b in g && b in bagOf ==> (r in drvd[b] <==> NeedsPhi(g, ld, str, bagOf, garbage, b, r))
  }

  // ---------------------------------------------------------------------------
  // The loop flags, which are not initialised

  lemma NeedsMore(g: Succ, ld: RegMaps, str: RegMaps, bagOf: Rep, garbage: set<Block>, b: Block, r: EcvReg)
    requires b in bagOf && NeedsAnyway(g, ld, str, bagOf, b, r)
    ensures NeedsPhi(g, ld, str, bagOf, garbage, b, r)
  {
    hide Reach;
  }

  /** A block that gets a phi only because its flag happens to be set reads the register, and no other block has written
      it. */
  lemma OnlyFlagged(g: Succ, ld: RegMaps, str: RegMaps, bagOf: Rep, garbage: set<Block>, b: Block, r: EcvReg)
    requires ComponentBags(g, bagOf) && b in g
    requires NeedsPhi(g, ld, str, bagOf, garbage, b, r) && !NeedsAnyway(g, ld, str, bagOf, b, r)
    ensures Touches(ld, b, r) && !OnLoopOfBlocks(g, b)
    ensures forall a :: a in g && Reach(g, a, b) && Touches(str, a, r) ==> a == b
  {
    hide Reach;
    var a :| a in g && SameComponent(g, a, b) && Touches(ld, a, r);
    assert !OnLoopOfBlocks(g, b);
    assert a == b || SameComponent(g, b, a);
    forall c | c in g && Reach(g, c, b) && Touches(str, c, r)
      ensures c == b
    {
      if c != b {
        PhiCoverage(g, ld, str, bagOf, {}, c, b, r);
      }
    }
  }

  /** A block that reads the register gets a phi if it needs one anyway, or if its flag happens to be set. */
  lemma NeedsIfFlagged(g: Succ, ld: RegMaps, str: RegMaps, bagOf: Rep, garbage: set<Block>, b: Block, r: EcvReg)
    requires ComponentBags(g, bagOf) && b in g && Touches(ld, b, r)
    ensures b in bagOf
    ensures (NeedsPhi(g, ld, str, bagOf, garbage, b, r) <==> b in garbage || NeedsAnyway(g, ld, str, bagOf, b, r))
  {
    hide Reach;
    ReachSelf(g, b);
    assert SameComponent(g, b, b) && TouchedAround(g, ld, b, r);
    if bagOf[b] != b {
      assert bagOf[b] in g && SameComponent(g, b, bagOf[b]);
      assert OnLoopOfBlocks(g, b);
    }
  }

  lemma FlaggedUnwritten(g: Succ, ld: RegMaps, str: RegMaps, bagOf: Rep, garbage: set<Block>, c: Block, r: EcvReg)
    requires ComponentBags(g, bagOf) && c in g && !Touches(str, c, r)
    requires NeedsPhi(g, ld, str, bagOf, garbage, c, r) && !NeedsAnyway(g, ld, str, bagOf, c, r)
    ensures !WrittenBy(g, str, c, r)
  {
    hide NeedsPhi, NeedsAnyway, Reach, SameComponent, Touches;
    OnlyFlagged(g, ld, str, bagOf, garbage, c, r);
  }

  /** The condition on an edge does not depend on the flags. */
  lemma EdgeUnflagged(g: Succ, ld: RegMaps, str: RegMaps, bagOf: Rep, garbage: set<Block>, c: Block, b: Block,
                      r: EcvReg)
    requires ComponentBags(g, bagOf) && c in g && b in g && c != b && b in g[c] && !Touches(ld, c, r)
    requires !Touches(str, c, r)
    ensures c in bagOf && b in bagOf
    ensures NeedsPhi(g, ld, str, bagOf, garbage, c, r) <==> NeedsAnyway(g, ld, str, bagOf, c, r)
    ensures NeedsPhi(g, ld, str, bagOf, garbage, b, r) && !NeedsAnyway(g, ld, str, bagOf, b, r) ==>
              !WrittenBy(g, str, c, r)
    ensures NeedsAnyway(g, ld, str, bagOf, b, r) ==> NeedsPhi(g, ld, str, bagOf, garbage, b, r)
  {
    hide NeedsPhi, NeedsAnyway, Reach, Touches;
    assert c in bagOf && b in bagOf;
    if NeedsAnyway(g, ld, str, bagOf, b, r) {
      NeedsMore(g, ld, str, bagOf, garbage, b, r);
    } else if NeedsPhi(g, ld, str, bagOf, garbage, b, r) {
      OnlyFlagged(g, ld, str, bagOf, garbage, b, r);
      ReachEdge(g, c, b);
      if a :| a in g && Reach(g, a, c) && Touches(str, a, r) {
        ReachTrans(g, a, c, b);
      }
    }
    if NeedsAnyway(g, ld, str, bagOf, c, r) {
      NeedsMore(g, ld, str, bagOf, garbage, c, r);
    } else if NeedsPhi(g, ld, str, bagOf, garbage, c, r) {
      OnlyFlagged(g, ld, str, bagOf, garbage, c, r);
    }
  }

  // ---------------------------------------------------------------------------
  // Paths and reachability

  lemma {:induction false} PathReach(g: Succ, succs: Targets, entry: Block, p: seq<Block>, i: nat)
    requires GraphOf(succs, g) && IsPath(succs, entry, p) && i < |p|
    ensures Reach(g, p[i], p[|p| - 1])
  {
    var b := p[|p| - 1];
    if i == |p| - 1 {
      ReachSelf(g, b);
    } else {
      var rest := p[..|p| - 1];
      PathReach(g, succs, entry, rest, i);
      var c := rest[|rest| - 1];
      assert b in succs[c];
      if c != b {
        ReachEdge(g, c, b);
        ReachTrans(g, p[i], c, b);
      }
    }
  }

  lemma {:induction false} WalkIsPath(g: Succ, succs: Targets, w: seq<Block>)
    requires GraphOf(succs, g) && Walk(g, w)
    ensures IsPath(succs, w[0], w)
  {
    forall i | 0 < i < |w|
      ensures w[i] in succs[w[i - 1]]
    {
      assert w[i] in g[w[i - 1]];
    }
  }

  /** A register has another value than at the start exactly when a block of the path writes it. */
  lemma {:induction false} LastDefWritten(bodies: Bodies, p: seq<Block>, r: EcvReg)
    ensures LastDef(bodies, p, r) != Init(r) <==> exists i :: 0 <= i < |p| && Writes(Body(bodies, p[i]), r)
  {
    if p != [] {
      var rest := p[..|p| - 1];
      LastDefWritten(bodies, rest, r);
      if i :| 0 <= i < |p| && Writes(Body(bodies, p[i]), r) {
        if i < |p| - 1 {
          assert rest[i] == p[i];
        }
      }
    }
  }

  lemma UnwrittenIff(bodies: Bodies, g: Succ, succs: Targets, entry: Block, ld: RegMaps, str: RegMaps, c: Block,
                     r: EcvReg)
    requires GraphOf(succs, g) && Summarised(bodies, g, ld, str) && ReachesAll(g, entry) && c in g
    ensures Unwritten(bodies, succs, entry, c, r) <==> !WrittenBy(g, str, c, r)
  {
    hide Summarised, GraphOf, Reach;
    if WrittenBy(g, str, c, r) {
      var a :| a in g && Reach(g, a, c) && Touches(str, a, r);
      var p := PathThrough(g, succs, entry, a, c);
      assert Writes(Body(bodies, a), r) by { WrittenAt(bodies, g, ld, str, a, r); }
      LastDefWritten(bodies, p, r);
    }
    if !WrittenBy(g, str, c, r) {
      forall p | PathTo(succs, entry, p, c)
        ensures LastDef(bodies, p, r) == Init(r)
      {
        LastDefWritten(bodies, p, r);
        if i :| 0 <= i < |p| && Writes(Body(bodies, p[i]), r) {
          PathReach(g, succs, entry, p, i);
          PathIn(g, succs, entry, p, i);
          WrittenAt(bodies, g, ld, str, p[i], r);
          assert false;
        }
      }
    }
  }

  lemma PathIn(g: Succ, succs: Targets, entry: Block, p: seq<Block>, i: nat)
    requires GraphOf(succs, g) && IsPath(succs, entry, p) && i < |p|
    ensures p[i] in g
  {
  }

  lemma WrittenAt(bodies: Bodies, g: Succ, ld: RegMaps, str: RegMaps, a: Block, r: EcvReg)
    requires Summarised(bodies, g, ld, str) && a in g
    ensures Touches(str, a, r) <==> Writes(Body(bodies, a), r)
    ensures Touches(ld, a, r) <==> ReadsFirst(Body(bodies, a), r)
  {
  }

  lemma PathThrough(g: Succ, succs: Targets, entry: Block, a: Block, c: Block) returns (p: seq<Block>)
    requires GraphOf(succs, g) && ReachesAll(g, entry) && a in g && Reach(g, a, c)
    ensures PathTo(succs, entry, p, c) && exists i :: 0 <= i < |p| && p[i] == a
  {
    assert Reach(g, entry, a);
    var w1 :| WalkFromTo(g, w1, entry, a);
    var w2 :| WalkFromTo(g, w2, a, c);
    p := w1 + w2[1..];
    assert WalkFromTo(g, p, entry, c);
    WalkIsPath(g, succs, p);
    assert p[|w1| - 1] == a;
  }

  lemma UnwrittenBeforeIff(bodies: Bodies, g: Succ, succs: Targets, entry: Block, ld: RegMaps, str: RegMaps, b: Block,
                           r: EcvReg)
    requires GraphOf(succs, g) && Summarised(bodies, g, ld, str) && ReachesAll(g, entry) && b in g
    ensures UnwrittenBefore(bodies, succs, entry, b, r) <==>
            forall c :: c in succs && b in succs[c] ==> Unwritten(bodies, succs, entry, c, r)
  {
    hide Summarised, ReachesAll;
    if UnwrittenBefore(bodies, succs, entry, b, r) {
      forall c, p | c in succs && b in succs[c] && PathTo(succs, entry, p, c)
        ensures LastDef(bodies, p, r) == Init(r)
      {
        PathExtends(succs, entry, p, b);
        assert PathTo(succs, entry, p + [b], b) && (p + [b])[..|p + [b]| - 1] == p;
      }
    }
    if forall c :: c in succs && b in succs[c] ==> Unwritten(bodies, succs, entry, c, r) {
      forall p | PathTo(succs, entry, p, b)
        ensures LastDef(bodies, p[..|p| - 1], r) == Init(r)
      {
        var rest := p[..|p| - 1];
        if |p| > 1 {
          assert PathTo(succs, entry, rest, p[|p| - 2]) && b in succs[p[|p| - 2]];
        }
      }
    }
  }

  // ---------------------------------------------------------------------------
  // Safe, on the graph

  lemma OwnsTouches(bodies: Bodies, g: Succ, ld: RegMaps, str: RegMaps, c: Block, r: EcvReg)
    requires Summarised(bodies, g, ld, str) && c in g && Owns(bodies, c, r)
    ensures Touches(ld, c, r) || Touches(str, c, r)
  {
    var body := Body(bodies, c);
    WrittenAt(bodies, g, ld, str, c, r);
    if !Writes(body, r) {
      var i := ReadExposed(body, r);
    }
  }

  lemma TouchesOwns(bodies: Bodies, g: Succ, ld: RegMaps, str: RegMaps, c: Block, r: EcvReg)
    requires Summarised(bodies, g, ld, str) && c in g && (Touches(ld, c, r) || Touches(str, c, r))
    ensures Owns(bodies, c, r)
  {
    var body := Body(bodies, c);
    WrittenAt(bodies, g, ld, str, c, r);
    OwnsWrites(body, r);
    if ReadsFirst(body, r) {
      var i: nat :| ExposedReadOf(body, i, r);
      assert body[i].reg in Own(body);
    }
  }

  /** The loads on edges are safe when no writer reaches them. */
  lemma EdgeSafeIff(bodies: Bodies, g: Succ, succs: Targets, drvd: RegSets, entry: Block, ld: RegMaps, str: RegMaps,
                    bagOf: Rep, garbage: set<Block>, c: Block, b: Block, r: EcvReg)
    requires GraphOf(succs, g) && Summarised(bodies, g, ld, str) && ReachesAll(g, entry) && ComponentBags(g, bagOf)
    requires DerivesNeeded(g, ld, str, bagOf, garbage, drvd) && c in succs && b in succs[c]
    ensures b in drvd && c in drvd && b in g && c in g && b in bagOf && c in bagOf
    ensures (r in drvd[b] && r !in drvd[c] && !Owns(bodies, c, r) ==> Unwritten(bodies, succs, entry, c, r)) <==>
            (b in g[c] && LoadedBehind(g, ld, str, bagOf, c, b, r) ==> !WrittenBy(g, str, c, r))
  {
    hide Summarised, ReachesAll, NeedsPhi, NeedsAnyway, WrittenBy, Unwritten, SameComponent;
    UnwrittenIff(bodies, g, succs, entry, ld, str, c, r);
    if b != c && !Touches(ld, c, r) && !Touches(str, c, r) {
      EdgeUnflagged(g, ld, str, bagOf, garbage, c, b, r);
    }
    if Owns(bodies, c, r) {
      OwnsTouches(bodies, g, ld, str, c, r);
    }
    if Touches(ld, c, r) || Touches(str, c, r) {
      TouchesOwns(bodies, g, ld, str, c, r);
    }
  }

  /** The reads of a block are safe unless it is its own successor. */
  lemma ReadSafeIff(bodies: Bodies, g: Succ, succs: Targets, entry: Block, ld: RegMaps, str: RegMaps, bagOf: Rep,
                    garbage: set<Block>, b: Block, r: EcvReg)
    requires GraphOf(succs, g) && Summarised(bodies, g, ld, str) && ReachesAll(g, entry) && ComponentBags(g, bagOf)
    requires b in g && b in bagOf && Touches(ld, b, r) && !NeedsPhi(g, ld, str, bagOf, garbage, b, r)
    ensures UnwrittenBefore(bodies, succs, entry, b, r) <==> !(b in succs && b in succs[b] && Touches(str, b, r))
  {
    hide Summarised, ReachesAll, NeedsPhi, Unwritten, UnwrittenBefore;
    UnwrittenBeforeIff(bodies, g, succs, entry, ld, str, b, r);
    forall c | c in succs && b in succs[c]
      ensures Unwritten(bodies, succs, entry, c, r) <==> !(c == b && Touches(str, b, r))
    {
      UnwrittenIff(bodies, g, succs, entry, ld, str, c, r);
      if c == b && Touches(str, b, r) {
        ReachSelf(g, b);
        assert WrittenBy(g, str, b, r);
      } else if a :| a in g && Reach(g, a, c) && Touches(str, a, r) {
        if a != b || c != b {
          if a == b {
            LoopCovered(g, ld, str, bagOf, garbage, b, c, r);
          } else {
            if c != b {
              ReachEdge(g, c, b);
              ReachTrans(g, a, c, b);
            }
            PhiCoverage(g, ld, str, bagOf, garbage, a, b, r);
          }
          assert false;
        }
      }
    }
  }

  /** A block on a loop with another one needs a phi for what it reads. */
  lemma LoopCovered(g: Succ, ld: RegMaps, str: RegMaps, bagOf: Rep, garbage: set<Block>, b: Block, c: Block, r: EcvReg)
    requires b in g && b in bagOf && c in g && c != b && Reach(g, b, c) && b in g[c] && Touches(ld, b, r)
    ensures NeedsPhi(g, ld, str, bagOf, garbage, b, r)
  {
    ReachEdge(g, c, b);
    ReachSelf(g, b);
    assert SameComponent(g, b, c) && SameComponent(g, b, b);
    assert OnLoopOfBlocks(g, b) && TouchedAround(g, ld, b, r);
  }

  /** The entry does nothing itself, and no block leads to it. */
  ghost predicate Bare(bodies: Bodies, succs: Targets, entry: Block) {
    entry in succs && Body(bodies, entry) == [] && forall q :: q in succs ==> entry !in succs[q]
  }

  lemma NothingReaches(bodies: Bodies, g: Succ, succs: Targets, entry: Block, a: Block)
    requires GraphOf(succs, g) && Bare(bodies, succs, entry) && Reach(g, a, entry)
    ensures a == entry
  {
    if a != entry {
      var c := ReachLastEdge(g, a, entry);
    }
  }

  lemma BareNeedsNothing(bodies: Bodies, g: Succ, succs: Targets, entry: Block, ld: RegMaps, str: RegMaps, bagOf: Rep,
                         garbage: set<Block>, r: EcvReg)
    requires GraphOf(succs, g) && Bare(bodies, succs, entry) && Summarised(bodies, g, ld, str) && entry in bagOf
    ensures !NeedsPhi(g, ld, str, bagOf, garbage, entry, r)
  {
    hide Summarised, GraphOf, Bare, Reach;
    BareIn(bodies, g, succs, entry);
    ReachSelf(g, entry);
    forall a | a in g && Reach(g, a, entry)
      ensures a == entry
    {
      NothingReaches(bodies, g, succs, entry, a);
    }
    WrittenAt(bodies, g, ld, str, entry, r);
  }

  lemma BareIn(bodies: Bodies, g: Succ, succs: Targets, entry: Block)
    requires GraphOf(succs, g) && Bare(bodies, succs, entry)
    ensures entry in g && forall r :: !ReadsFirst(Body(bodies, entry), r)
  {
  }

  lemma BareDerivesNothing(bodies: Bodies, g: Succ, succs: Targets, drvd: RegSets, entry: Block, ld: RegMaps,
                           str: RegMaps, bagOf: Rep, garbage: set<Block>)
    requires GraphOf(succs, g) && Bare(bodies, succs, entry) && Summarised(bodies, g, ld, str)
    requires ComponentBags(g, bagOf)
    requires DerivesNeeded(g, ld, str, bagOf, garbage, drvd)
    ensures DerivesNothing(drvd, entry)
  {
    hide Summarised, NeedsPhi, SameComponent;
    forall r
      ensures r !in drvd[entry]
    {
      BareNeedsNothing(bodies, g, succs, entry, ld, str, bagOf, garbage, r);
    }
  }

  /** With the derived registers of the bags, promotion is safe exactly when no edge and no self-loop loads what was
      written before. */
  lemma SafeIffGraph(bodies: Bodies, g: Succ, succs: Targets, drvd: RegSets, entry: Block, ld: RegMaps, str: RegMaps,
                     bagOf: Rep, garbage: set<Block>)
    requires GraphOf(succs, g) && Summarised(bodies, g, ld, str) && ReachesAll(g, entry) && ComponentBags(g, bagOf)
    requires DerivesNeeded(g, ld, str, bagOf, garbage, drvd) && Bare(bodies, succs, entry)
    ensures Safe(bodies, succs, drvd, entry) <==>
            EdgesSafe(g, ld, str, bagOf) && SelfLoopsSafe(g, succs, ld, str, bagOf, garbage)
  {
    hide Summarised, ReachesAll, NeedsPhi, NeedsAnyway, Unwritten, UnwrittenBefore, LoadedBehind, WrittenBy, Touches,
         Own, Bare, DerivesNothing;
    BareDerivesNothing(bodies, g, succs, drvd, entry, ld, str, bagOf, garbage);
    if Safe(bodies, succs, drvd, entry) {
      forall c, b, r | c in g && b in g[c] && b in bagOf && c in bagOf && LoadedBehind(g, ld, str, bagOf, c, b, r)
        ensures !WrittenBy(g, str, c, r)
      {
        EdgeSafeIff(bodies, g, succs, drvd, entry, ld, str, bagOf, garbage, c, b, r);
      }
      forall b, r | b in g && b in succs && b in succs[b] && b in bagOf && Touches(ld, b, r) && Touches(str, b, r)
        ensures b in garbage || NeedsAnyway(g, ld, str, bagOf, b, r)
      {
        NeedsIfFlagged(g, ld, str, bagOf, garbage, b, r);
        if !NeedsPhi(g, ld, str, bagOf, garbage, b, r) {
          WrittenAt(bodies, g, ld, str, b, r);
          var i: nat :| ExposedReadOf(Body(bodies, b), i, r);
          ReadSafeIff(bodies, g, succs, entry, ld, str, bagOf, garbage, b, r);
        }
      }
    }
    if EdgesSafe(g, ld, str, bagOf) && SelfLoopsSafe(g, succs, ld, str, bagOf, garbage) {
      forall c, b, r | c in succs && b in succs[c] && b in drvd && r in drvd[b] && c in drvd && r !in drvd[c] &&
        !Owns(bodies, c, r)
        ensures Unwritten(bodies, succs, entry, c, r)
      {
        EdgeSafeIff(bodies, g, succs, drvd, entry, ld, str, bagOf, garbage, c, b, r);
      }
      forall b, i: nat | b in succs && b in drvd && ExposedRead(Body(bodies, b), i) &&
        Body(bodies, b)[i].reg !in drvd[b]
        ensures UnwrittenBefore(bodies, succs, entry, b, Body(bodies, b)[i].reg)
      {
        var r := Body(bodies, b)[i].reg;
        assert ExposedReadOf(Body(bodies, b), i, r);
        WrittenAt(bodies, g, ld, str, b, r);
        NeedsIfFlagged(g, ld, str, bagOf, garbage, b, r);
        ReadSafeIff(bodies, g, succs, entry, ld, str, bagOf, garbage, b, r);
      }
    }
  }

  // ---------------------------------------------------------------------------
  // Returned registers

  /** A walk that ends where the function returns, and on which no block writes `r`. */
  ghost predicate Quiet(succs: Targets, str: RegMaps, w: seq<Block>, r: EcvReg) {
    && |w| > 0 && IsPath(succs, w[0], w) && succs[w[|w| - 1]] == []
    && forall i :: 0 <= i < |w| ==> !Touches(str, w[i], r)
  }

  /** From a block that needs no phi for `r` although `r` has been written, the function cannot return without writing
      `r` again. */
  ghost predicate ReturnsSafe(g: Succ, succs: Targets, ld: RegMaps, str: RegMaps, bagOf: Rep, r: EcvReg) {
    forall w {:trigger Quiet(succs, str, w, r)} ::
      Quiet(succs, str, w, r) && w[0] in bagOf && !NeedsAnyway(g, ld, str, bagOf, w[0], r) ==>
        !WrittenBy(g, str, w[0], r)
  }

  lemma LeakIsQuiet(bodies: Bodies, g: Succ, succs: Targets, drvd: RegSets, ld: RegMaps, str: RegMaps, bagOf: Rep,
                    garbage: set<Block>, w: seq<Block>, r: EcvReg)
    requires GraphOf(succs, g) && Summarised(bodies, g, ld, str) && ComponentBags(g, bagOf)
    requires DerivesNeeded(g, ld, str, bagOf, garbage, drvd) && Leaks(bodies, succs, drvd, w, r)
    ensures Quiet(succs, str, w, r) && w[0] in g && w[0] in bagOf && !NeedsPhi(g, ld, str, bagOf, garbage, w[0], r)
  {
    hide Summarised, NeedsPhi, SameComponent;
    forall i | 0 <= i < |w|
      ensures w[i] in g && !Touches(str, w[i], r)
    {
      WrittenAt(bodies, g, ld, str, w[i], r);
    }
  }

  lemma QuietIsLeak(bodies: Bodies, g: Succ, succs: Targets, drvd: RegSets, ld: RegMaps, str: RegMaps, bagOf: Rep,
                    garbage: set<Block>, w: seq<Block>, r: EcvReg)
    requires GraphOf(succs, g) && Summarised(bodies, g, ld, str) && ComponentBags(g, bagOf)
    requires DerivesNeeded(g, ld, str, bagOf, garbage, drvd) && Quiet(succs, str, w, r)
    requires forall i :: 0 <= i < |w| ==> w[i] in bagOf && (NeedsPhi(g, ld, str, bagOf, garbage, w[i], r) <==> i > 0)
    ensures Leaks(bodies, succs, drvd, w, r)
  {
    hide Summarised, NeedsPhi, SameComponent;
    forall i | 0 <= i < |w|
      ensures w[i] in drvd && (r in drvd[w[i]] <==> i > 0) && !Defines(bodies, w[i], r)
    {
      WrittenAt(bodies, g, ld, str, w[i], r);
    }
  }

  /** Blocks on a quiet walk behind one that needs no phi: the last of these leaks. */
  lemma {:induction false} QuietUnwritten(bodies: Bodies, g: Succ, succs: Targets, drvd: RegSets, entry: Block,
                                          ld: RegMaps, str: RegMaps, bagOf: Rep, garbage: set<Block>, w: seq<Block>,
                                          r: EcvReg)
    requires GraphOf(succs, g) && Summarised(bodies, g, ld, str) && ReachesAll(g, entry) && ComponentBags(g, bagOf)
    requires DerivesNeeded(g, ld, str, bagOf, garbage, drvd) && Kept(bodies, succs, drvd, entry, r)
    requires Quiet(succs, str, w, r) && w[0] in bagOf && !NeedsPhi(g, ld, str, bagOf, garbage, w[0], r)
    ensures !WrittenBy(g, str, w[0], r)
    decreases |w|
  {
    hide Summarised, NeedsPhi, ReachesAll, SameComponent, Unwritten, WrittenBy, Touches, DerivesNeeded;
    QuietIn(g, succs, str, bagOf, w, r);
    if k :| 0 < k < |w| && !NeedsPhi(g, ld, str, bagOf, garbage, w[k], r) {
      QuietTail(succs, str, w, k, r);
      QuietUnwritten(bodies, g, succs, drvd, entry, ld, str, bagOf, garbage, w[k..], r);
      PathReach(g, succs, w[0], w[..k + 1], 0);
      if WrittenBy(g, str, w[0], r) {
        WrittenOn(g, str, w[0], w[k], r);
      }
    } else {
      QuietIsLeak(bodies, g, succs, drvd, ld, str, bagOf, garbage, w, r);
      UnwrittenIff(bodies, g, succs, entry, ld, str, w[0], r);
    }
  }

  lemma WrittenOn(g: Succ, str: RegMaps, c: Block, d: Block, r: EcvReg)
    requires Reach(g, c, d) && WrittenBy(g, str, c, r)
    ensures WrittenBy(g, str, d, r)
  {
    hide Reach;
    var a :| a in g && Reach(g, a, c) && Touches(str, a, r);
    ReachTrans(g, a, c, d);
  }

  lemma QuietIn(g: Succ, succs: Targets, str: RegMaps, bagOf: Rep, w: seq<Block>, r: EcvReg)
    requires GraphOf(succs, g) && ComponentBags(g, bagOf) && Quiet(succs, str, w, r)
    ensures |w| > 0 && forall i :: 0 <= i < |w| ==> w[i] in g && w[i] in bagOf && !Touches(str, w[i], r)
  {
  }

  lemma QuietTail(succs: Targets, str: RegMaps, w: seq<Block>, k: int, r: EcvReg)
    requires Quiet(succs, str, w, r) && 0 < k < |w|
    ensures Quiet(succs, str, w[k..], r) && IsPath(succs, w[0], w[..k + 1])
  {
  }

  /** With the derived registers of the bags, a returned register comes back exactly under this condition on the
      graph. */
  lemma KeptIffGraph(bodies: Bodies, g: Succ, succs: Targets, drvd: RegSets, entry: Block, ld: RegMaps, str: RegMaps,
                     bagOf: Rep, garbage: set<Block>, r: EcvReg)
    requires GraphOf(succs, g) && Summarised(bodies, g, ld, str) && ReachesAll(g, entry) && ComponentBags(g, bagOf)
    requires DerivesNeeded(g, ld, str, bagOf, garbage, drvd)
    ensures Kept(bodies, succs, drvd, entry, r) <==> ReturnsSafe(g, succs, ld, str, bagOf, r)
  {
    hide Summarised, NeedsPhi, NeedsAnyway, ReachesAll, SameComponent, Unwritten, WrittenBy, Touches, Leaks, GraphOf,
         ComponentBags, DerivesNeeded;
    if Kept(bodies, succs, drvd, entry, r) {
      forall w {:trigger Quiet(succs, str, w, r)} |
        Quiet(succs, str, w, r) && w[0] in bagOf && !NeedsAnyway(g, ld, str, bagOf, w[0], r)
        ensures !WrittenBy(g, str, w[0], r)
      {
        QuietIn(g, succs, str, bagOf, w, r);
        if NeedsPhi(g, ld, str, bagOf, garbage, w[0], r) {
          FlaggedUnwritten(g, ld, str, bagOf, garbage, w[0], r);
        } else {
          QuietUnwritten(bodies, g, succs, drvd, entry, ld, str, bagOf, garbage, w, r);
        }
      }
    }
    if ReturnsSafe(g, succs, ld, str, bagOf, r) {
      forall w {:trigger Leaks(bodies, succs, drvd, w, r)} | Leaks(bodies, succs, drvd, w, r)
        ensures |w| > 0 && Unwritten(bodies, succs, entry, w[0], r)
      {
        LeakIsQuiet(bodies, g, succs, drvd, ld, str, bagOf, garbage, w, r);
        if NeedsAnyway(g, ld, str, bagOf, w[0], r) {
          NeedsMore(g, ld, str, bagOf, garbage, w[0], r);
        }
        UnwrittenIff(bodies, g, succs, entry, ld, str, w[0], r);
      }
    }
  }

  /** A returned register is lost only behind a loop that writes it and does not read it. */
  lemma LostIsBehindLoop(g: Succ, succs: Targets, ld: RegMaps, str: RegMaps, bagOf: Rep, w: seq<Block>,
                         r: EcvReg)
    requires GraphOf(succs, g) && r.CheckPassedReturnRegs() && Quiet(succs, str, w, r) && w[0] in bagOf
    requires !NeedsAnyway(g, ld, str, bagOf, w[0], r) && WrittenBy(g, str, w[0], r)
    ensures |w| > 1 && OnLoopOfBlocks(g, w[0]) && TouchedAround(g, str, w[0], r) && !TouchedAround(g, ld, w[0], r)
  {
    var c := w[0];
    assert c in g;
    assert !TouchedBefore(g, str, c, r);
    var a :| a in g && Reach(g, a, c) && Touches(str, a, r);
    assert a != c && Reach(g, c, a);
    assert SameComponent(g, a, c) && SameComponent(g, c, a);
    var b := ReachFirstEdge(g, c, a);
    assert b in succs[c];
  }

  /** Where reads are right, every returned register comes back. */
  lemma SafeReturns(bodies: Bodies, g: Succ, succs: Targets, drvd: RegSets, entry: Block, ld: RegMaps, str: RegMaps,
                    bagOf: Rep, garbage: set<Block>, r: EcvReg)
    requires GraphOf(succs, g) && Summarised(bodies, g, ld, str) && ReachesAll(g, entry) && ComponentBags(g, bagOf)
    requires DerivesNeeded(g, ld, str, bagOf, garbage, drvd) && r.CheckPassedReturnRegs()
    requires Safe(bodies, succs, drvd, entry)
    ensures Kept(bodies, succs, drvd, entry, r)
  {
    hide Summarised, ReachesAll, Unwritten, Safe, Defines, Kept;
    forall b | b in succs && succs[b] == [] && b in drvd && r !in drvd[b] && !Defines(bodies, b, r)
      ensures Unwritten(bodies, succs, entry, b, r)
    {
      ReturnUnwritten(bodies, g, succs, drvd, entry, ld, str, bagOf, garbage, b, r);
    }
    SafeKeeps(bodies, succs, drvd, entry, r);
  }

  /** Where a function returns without a value of a returned register, no block has written it, whatever the graph. */
  lemma ReturnUnwritten(bodies: Bodies, g: Succ, succs: Targets, drvd: RegSets, entry: Block, ld: RegMaps, str: RegMaps,
                        bagOf: Rep, garbage: set<Block>, b: Block, r: EcvReg)
    requires GraphOf(succs, g) && Summarised(bodies, g, ld, str) && ReachesAll(g, entry) && ComponentBags(g, bagOf)
    requires DerivesNeeded(g, ld, str, bagOf, garbage, drvd) && r.CheckPassedReturnRegs()
    requires b in succs && succs[b] == [] && b in drvd && r !in drvd[b] && !Defines(bodies, b, r)
    ensures Unwritten(bodies, succs, entry, b, r)
  {
    hide Summarised, ReachesAll, Unwritten;
    UnwrittenIff(bodies, g, succs, entry, ld, str, b, r);
    WrittenAt(bodies, g, ld, str, b, r);
    if WrittenBy(g, str, b, r) {
      WrittenAtReturn(g, str, b, r);
    }
  }

  /** What has been written at a block without successors was written by the block or strictly before it. */
  lemma WrittenAtReturn(g: Succ, str: RegMaps, b: Block, r: EcvReg)
    requires b in g && g[b] == {} && WrittenBy(g, str, b, r)
    ensures Touches(str, b, r) || TouchedBefore(g, str, b, r)
  {
    var a :| a in g && Reach(g, a, b) && Touches(str, a, r);
    if a != b {
      if Reach(g, b, a) {
        var c := ReachFirstEdge(g, b, a);
      }
      assert !Reach(g, b, a);
    }
  }

  // ---------------------------------------------------------------------------
  // Where the condition fails

  /** The blocks of one loop need the same phis. */
  lemma NeedsPhiTogether(g: Succ, ld: RegMaps, str: RegMaps, bagOf: Rep, b: Block, c: Block,
                         r: EcvReg)
    requires ComponentBags(g, bagOf) && b in g && c in g && SameComponent(g, b, c)
    requires NeedsAnyway(g, ld, str, bagOf, b, r)
    ensures c in bagOf && NeedsAnyway(g, ld, str, bagOf, c, r)
  {
    hide Reach;
    TouchedTogether(g, ld, b, c, r);
    TouchedTogether(g, str, b, c, r);
    if OnLoopOfBlocks(g, b) {
      LoopTogether(g, b, c);
    }
    if ReadLater(g, ld, bagOf, b, r) {
      ReadLaterBack(g, ld, bagOf, c, b, r);
    }
  }

  lemma TouchedTogether(g: Succ, maps: RegMaps, b: Block, c: Block, r: EcvReg)
    requires SameComponent(g, b, c)
    ensures TouchedBefore(g, maps, b, r) ==> TouchedBefore(g, maps, c, r)
    ensures TouchedAround(g, maps, b, r) ==> TouchedAround(g, maps, c, r)
  {
    hide Reach;
    if TouchedBefore(g, maps, b, r) {
      var a :| a in g && Reach(g, a, b) && !Reach(g, b, a) && Touches(maps, a, r);
      ReachTrans(g, a, b, c);
      if Reach(g, c, a) {
        ReachTrans(g, b, c, a);
      }
      assert !Reach(g, c, a);
    }
    if TouchedAround(g, maps, b, r) {
      var a :| a in g && SameComponent(g, a, b) && Touches(maps, a, r);
      ReachTrans(g, a, b, c);
      ReachTrans(g, c, b, a);
      assert SameComponent(g, a, c);
    }
  }

  lemma LoopTogether(g: Succ, b: Block, c: Block)
    requires b in g && c in g && SameComponent(g, b, c) && OnLoopOfBlocks(g, b)
    ensures OnLoopOfBlocks(g, c)
  {
    hide Reach;
    if b == c {
    } else {
      assert b in g && b != c && SameComponent(g, c, b);
    }
  }

  lemma ReadLaterBack(g: Succ, ld: RegMaps, bagOf: Rep, c: Block, b: Block, r: EcvReg)
    requires Reach(g, c, b) && ReadLater(g, ld, bagOf, b, r)
    ensures ReadLater(g, ld, bagOf, c, r)
  {
    hide Reach, Seen;
    var d :| d in g && Reach(g, b, d) && Seen(g, bagOf, d) && Touches(ld, d, r);
    ReachTrans(g, c, b, d);
  }

  /** `c` is on a loop that writes `r` but does not read it, and `b` lies behind the loop. */
  ghost predicate BehindWritingLoop(g: Succ, ld: RegMaps, str: RegMaps, c: Block, b: Block, r: EcvReg) {
    OnLoopOfBlocks(g, c) && TouchedAround(g, str, c, r) && !TouchedAround(g, ld, c, r) && !Reach(g, b, c)
  }

  /** `b` is on a loop that nothing leaves, and the loop reads `r`, but not in the block its bag was made for. */
  ghost predicate BeforeFinalLoop(g: Succ, ld: RegMaps, bagOf: Rep, c: Block, b: Block, r: EcvReg) {
    && OnLoopOfBlocks(g, b) && !LeavesLoop(g, b) && TouchedAround(g, ld, b, r) && !Reach(g, b, c)
    && forall d :: d in g && SameComponent(g, b, d) && Touches(ld, d, r) ==> !Seen(g, bagOf, d)
  }

  /** A load of a register that was written before can only lie behind a loop of blocks that writes it or in front of a
      loop that nothing leaves. */
  lemma StaleLoadIsAtLoop(g: Succ, ld: RegMaps, str: RegMaps, bagOf: Rep, c: Block, b: Block,
                          r: EcvReg)
    requires Closed(g) && ComponentBags(g, bagOf) && c in g && b in g[c]
    requires b in bagOf && c in bagOf && LoadedBehind(g, ld, str, bagOf, c, b, r) && WrittenBy(g, str, c, r)
    ensures BehindWritingLoop(g, ld, str, c, b, r) || BeforeFinalLoop(g, ld, bagOf, c, b, r)
  {
    hide Reach, Seen;
    ReachEdge(g, c, b);
    if Reach(g, b, c) {
      NeedsPhiTogether(g, ld, str, bagOf, b, c, r);
    }
    if TouchedBefore(g, str, c, r) {
      StaleBeforeLoop(g, ld, str, bagOf, c, b, r);
    } else {
      var a :| a in g && Reach(g, a, c) && Touches(str, a, r);
      assert a != c && SameComponent(g, c, a);
      assert SameComponent(g, a, c);
    }
  }

  lemma StaleBeforeLoop(g: Succ, ld: RegMaps, str: RegMaps, bagOf: Rep, c: Block, b: Block,
                        r: EcvReg)
    requires ComponentBags(g, bagOf) && c in g && b in g && Reach(g, c, b) && !Reach(g, b, c)
    requires b in bagOf && c in bagOf && LoadedBehind(g, ld, str, bagOf, c, b, r)
    requires TouchedBefore(g, str, c, r)
    ensures BeforeFinalLoop(g, ld, bagOf, c, b, r)
  {
    hide Reach;
    assert !ReadLater(g, ld, bagOf, c, r);
    if ReadLater(g, ld, bagOf, b, r) {
      ReadLaterBack(g, ld, bagOf, c, b, r);
    }
    assert TouchedAround(g, ld, b, r);
    var d0 :| d0 in g && SameComponent(g, d0, b) && Touches(ld, d0, r);
    forall d | d in g && SameComponent(g, b, d) && Touches(ld, d, r)
      ensures !Seen(g, bagOf, d)
    {
      ReachTrans(g, c, b, d);
    }
    assert !Seen(g, bagOf, d0) && bagOf[d0] != d0;
    UnseenIsLoop(g, bagOf, b, d0);
  }

  lemma UnseenIsLoop(g: Succ, bagOf: Rep, b: Block, d: Block)
    requires ComponentBags(g, bagOf) && b in g && d in g && SameComponent(g, b, d) && !Seen(g, bagOf, d)
    ensures OnLoopOfBlocks(g, b) && !LeavesLoop(g, b)
  {
    hide Reach;
    var e := bagOf[d];
    ReachTrans(g, b, d, e);
    ReachTrans(g, e, d, b);
    var other := if d != b then d else e;
    assert other in g && other != b && SameComponent(g, b, other);
    if c :| c in g && Reach(g, b, c) && !Reach(g, c, b) {
      ReachTrans(g, d, b, c);
      if Reach(g, c, d) {
        ReachTrans(g, c, d, b);
      }
    }
  }

  /** A function without loops. */
  ghost predicate NoLoops(g: Succ, succs: Targets) {
    && (forall b :: b in g ==> !OnLoopOfBlocks(g, b))
    && (forall b :: b in succs ==> b !in succs[b])
  }

  lemma NoLoopsSafe(g: Succ, succs: Targets, ld: RegMaps, str: RegMaps, bagOf: Rep, garbage: set<Block>)
    requires Closed(g) && ComponentBags(g, bagOf) && NoLoops(g, succs)
    ensures EdgesSafe(g, ld, str, bagOf) && SelfLoopsSafe(g, succs, ld, str, bagOf, garbage)
  {
    hide Reach, NeedsPhi, LoadedBehind, WrittenBy, OnLoopOfBlocks;
    forall c, b, r | c in g && b in g[c] && b in bagOf && c in bagOf && LoadedBehind(g, ld, str, bagOf, c, b, r)
      ensures !WrittenBy(g, str, c, r)
    {
      if WrittenBy(g, str, c, r) {
        StaleLoadIsAtLoop(g, ld, str, bagOf, c, b, r);
      }
    }
  }
}
