/** When the reads of a promoted function alone yield what they do in the original one, whatever its other phis hold. */
module PromotedReads {
  import opened Registers
  import opened Graphs
  import opened Promoted

  /** Along every path from the entry, reads have the values of the original function. */
  ghost predicate Reads(f: Fn, bodies: Bodies, entry: Block) {
    forall p {:trigger IsPath(f.succs, entry, p)} :: IsPath(f.succs, entry, p) && p[|p| - 1] !in f.relays ==>
      ReadsRight(f, bodies, p, Proj(f.relays, p))
  }

  // ---------------------------------------------------------------------------
  // In terms of the original function

  /** What the read at position `i` of the last block of the original path `p` yields in the promoted function. */
  function CarriedRead(bodies: Bodies, drvd: RegSets, p: seq<Block>, i: nat): Def
    requires |p| > 0 && i < |Body(bodies, p[|p| - 1])| && Body(bodies, p[|p| - 1])[i].Read?
  {
    var b, body := p[|p| - 1], Body(bodies, p[|p| - 1]);
    var w := LastWrite(body, i, body[i].reg);
    if w >= 0 then At(p, w)
    else if b in drvd && body[i].reg in drvd[b] then Carried(bodies, drvd, p[..|p| - 1], body[i].reg)
    else Init(body[i].reg)
  }

  lemma ReadIsCarried(f: Fn, bodies: Bodies, succs: Targets, drvd: RegSets, entry: Block, reached: set<Block>,
                      p: seq<Block>, i: nat)
    requires Relayed(f, bodies, succs, drvd) && Complete(f, bodies, reached) && ClosedFrom(f, entry, reached)
    requires CallFree(bodies) && entry in succs && IsPath(f.succs, entry, p) && p[|p| - 1] !in f.relays
    requires i < |Body(bodies, p[|p| - 1])| && Body(bodies, p[|p| - 1])[i].Read?
    ensures var proj := Proj(f.relays, p);
            && |proj| > 0 && proj[|proj| - 1] == p[|p| - 1]
            && NewRead(f, bodies, p, i) == CarriedRead(bodies, drvd, proj, i)
  {
    hide Relayed, Complete, ClosedFrom, Eval, CallFree, Proj, IsPath, Carried, NewRead;
    PathEnds(f.succs, entry, p);
    var b, r := p[|p| - 1], Body(bodies, p[|p| - 1])[i].reg;
    ProjEnds(f, p);
    ProjPath(f, bodies, succs, drvd, entry, p);
    PathReached(f, entry, reached, p);
    NewReadIs(f, bodies, reached, p, i);
    NoPhi(f, bodies, reached, b, r);
    DerivesOrigin(f, bodies, succs, drvd, b, r);
    PathEnds(succs, entry, Proj(f.relays, p));
    if HasPhi(f, b, r) {
      EvalPhi(f, bodies, succs, drvd, entry, reached, p, r);
    }
  }

  /** The reads at the end of `p` yield in the promoted function what they do in the original one. */
  ghost predicate CarriedRights(bodies: Bodies, drvd: RegSets, p: seq<Block>) {
    && |p| > 0
    && forall i: nat :: i < |Body(bodies, p[|p| - 1])| && Body(bodies, p[|p| - 1])[i].Read? ==>
         CarriedRead(bodies, drvd, p, i) == ReadDef(bodies, p, i)
  }

  ghost predicate ReadsCarried(bodies: Bodies, succs: Targets, drvd: RegSets, entry: Block) {
    forall p {:trigger IsPath(succs, entry, p)} :: IsPath(succs, entry, p) ==> CarriedRights(bodies, drvd, p)
  }

  lemma RightIffCarried(f: Fn, bodies: Bodies, succs: Targets, drvd: RegSets, entry: Block, reached: set<Block>,
                        p: seq<Block>)
    requires Relayed(f, bodies, succs, drvd) && Complete(f, bodies, reached) && ClosedFrom(f, entry, reached)
    requires CallFree(bodies) && entry in succs && IsPath(f.succs, entry, p) && p[|p| - 1] !in f.relays
    ensures ReadsRight(f, bodies, p, Proj(f.relays, p)) <==> CarriedRights(bodies, drvd, Proj(f.relays, p))
  {
    hide Relayed, Complete, ClosedFrom, CallFree, Proj, IsPath, NewRead, ReadDef, CarriedRead;
    PathEnds(f.succs, entry, p);
    ProjEnds(f, p);
    forall i: nat | i < |Body(bodies, p[|p| - 1])| && Body(bodies, p[|p| - 1])[i].Read?
      ensures NewRead(f, bodies, p, i) == CarriedRead(bodies, drvd, Proj(f.relays, p), i)
    {
      ReadIsCarried(f, bodies, succs, drvd, entry, reached, p, i);
    }
  }

  /** Seen from the promoted function and from the original one, reads are right under the same condition. */
  lemma ReadsIffCarried(f: Fn, bodies: Bodies, succs: Targets, drvd: RegSets, entry: Block, reached: set<Block>)
    requires Relayed(f, bodies, succs, drvd) && Complete(f, bodies, reached) && ClosedFrom(f, entry, reached)
    requires CallFree(bodies) && entry in succs
    ensures Reads(f, bodies, entry) <==> ReadsCarried(bodies, succs, drvd, entry)
    ensures KeepsReads(f, bodies, succs, entry) <==> ReadsCarried(bodies, succs, drvd, entry)
  {
    hide Relayed, Complete, ClosedFrom, CallFree, Proj, IsPath, ReadsRight, CarriedRights;
    if ReadsCarried(bodies, succs, drvd, entry) {
      forall p {:trigger IsPath(f.succs, entry, p)} | IsPath(f.succs, entry, p)
        ensures |p| > 0 && (p[|p| - 1] !in f.relays ==> ReadsRight(f, bodies, p, Proj(f.relays, p)))
      {
        PathEnds(f.succs, entry, p);
        if p[|p| - 1] !in f.relays {
          ProjPath(f, bodies, succs, drvd, entry, p);
          RightIffCarried(f, bodies, succs, drvd, entry, reached, p);
        }
      }
    }
    forall p {:trigger IsPath(succs, entry, p)} | IsPath(succs, entry, p)
      ensures Reads(f, bodies, entry) ==> CarriedRights(bodies, drvd, p) && LiftedRight(f, bodies, entry, p)
      ensures LiftedRight(f, bodies, entry, p) ==> CarriedRights(bodies, drvd, p)
    {
      CarriedIfLifted(f, bodies, succs, drvd, entry, reached, p);
    }
  }

  /** Some path of the promoted function stands for `p` and reads the same at its end. */
  ghost predicate LiftedRight(f: Fn, bodies: Bodies, entry: Block, p: seq<Block>) {
    exists q :: Lifts(f, entry, p, q) && ReadsRight(f, bodies, q, p)
  }

  lemma CarriedIfLifted(f: Fn, bodies: Bodies, succs: Targets, drvd: RegSets, entry: Block, reached: set<Block>,
                        p: seq<Block>)
    requires Relayed(f, bodies, succs, drvd) && Complete(f, bodies, reached) && ClosedFrom(f, entry, reached)
    requires CallFree(bodies) && entry in succs && IsPath(succs, entry, p)
    ensures Reads(f, bodies, entry) ==> CarriedRights(bodies, drvd, p) && LiftedRight(f, bodies, entry, p)
    ensures LiftedRight(f, bodies, entry, p) ==> CarriedRights(bodies, drvd, p)
  {
    hide Relayed, Complete, ClosedFrom, CallFree, Proj, ReadsRight, CarriedRights;
    OriginalBlock(f, bodies, succs, drvd, p[|p| - 1]);
    var lifted := LiftPath(f, bodies, succs, drvd, entry, p);
    RightIffCarried(f, bodies, succs, drvd, entry, reached, lifted);
    assert Lifts(f, entry, p, lifted);
    if LiftedRight(f, bodies, entry, p) {
      var q :| Lifts(f, entry, p, q) && ReadsRight(f, bodies, q, p);
      RightIffCarried(f, bodies, succs, drvd, entry, reached, q);
    }
  }

  // ---------------------------------------------------------------------------
  // The condition

  /** The walk leads through blocks that derive `r` and do not write it to one that reads it first. */
  ghost predicate Draws(bodies: Bodies, succs: Targets, drvd: RegSets, w: seq<Block>, r: EcvReg) {
    && |w| > 1 && IsPath(succs, w[0], w) && ReadsFirst(Body(bodies, w[|w| - 1]), r)
    && (forall i :: 0 < i < |w| ==> w[i] in drvd && r in drvd[w[i]])
    && forall i :: 0 < i < |w| - 1 ==> !Defines(bodies, w[i], r)
  }

  /** What is read at the end of the walk was loaded at `w[0]`. */
  ghost predicate Feeds(bodies: Bodies, succs: Targets, drvd: RegSets, w: seq<Block>, r: EcvReg) {
    Draws(bodies, succs, drvd, w, r) && w[0] in drvd && r !in drvd[w[0]] && !Defines(bodies, w[0], r)
  }

  /** Wherever a register is loaded that is read afterwards, no path has written it. */
  ghost predicate ReadsFed(bodies: Bodies, succs: Targets, drvd: RegSets, entry: Block) {
    && (forall w, r {:trigger Feeds(bodies, succs, drvd, w, r)} :: Feeds(bodies, succs, drvd, w, r) ==>
          Unwritten(bodies, succs, entry, w[0], r))
    && (forall b, r {:trigger LoadsFirst(bodies, succs, drvd, b, r)} :: LoadsFirst(bodies, succs, drvd, b, r) ==>
          UnwrittenBefore(bodies, succs, entry, b, r))
  }

  /** The block reads `r` before it writes it, and has no phi for it. */
  ghost predicate LoadsFirst(bodies: Bodies, succs: Targets, drvd: RegSets, b: Block, r: EcvReg) {
    b in succs && b in drvd && r !in drvd[b] && ReadsFirst(Body(bodies, b), r)
  }

  /** Where loads are right, the promoted function has the value of a register at every block that leads to a read of
      it. */
  lemma {:induction false} FedCarried(bodies: Bodies, succs: Targets, drvd: RegSets, entry: Block, p: seq<Block>,
                                      w: seq<Block>, r: EcvReg)
    requires ReadsFed(bodies, succs, drvd, entry) && DerivesNothing(drvd, entry) && forall c :: c in succs ==> c in drvd
    requires IsPath(succs, entry, p) && Draws(bodies, succs, drvd, w, r) && w[0] == p[|p| - 1]
    ensures Carried(bodies, drvd, p, r) == LastDef(bodies, p, r)
    decreases |p|
  {
    hide Unwritten, UnwrittenBefore, ReadsFirst, LoadsFirst;
    var c, rest := p[|p| - 1], p[..|p| - 1];
    if !Defines(bodies, c, r) {
      if r !in drvd[c] {
        assert Feeds(bodies, succs, drvd, w, r);
        UnwrittenOn(bodies, succs, entry, c, r, p);
      } else {
        DrawsOn(bodies, succs, drvd, w, rest[|rest| - 1], r);
        FedCarried(bodies, succs, drvd, entry, rest, [rest[|rest| - 1]] + w, r);
      }
    }
  }

  lemma DrawsOn(bodies: Bodies, succs: Targets, drvd: RegSets, w: seq<Block>, c: Block, r: EcvReg)
    requires Draws(bodies, succs, drvd, w, r) && c in succs && w[0] in succs[c]
    requires w[0] in drvd && r in drvd[w[0]] && !Defines(bodies, w[0], r)
    ensures Draws(bodies, succs, drvd, [c] + w, r)
  {
    hide ReadsFirst, Defines;
    var longer := [c] + w;
    forall i | 0 < i < |longer|
      ensures longer[i] in succs[longer[i - 1]] && longer[i] in drvd && r in drvd[longer[i]]
      ensures i < |longer| - 1 ==> !Defines(bodies, longer[i], r)
    {
      assert longer[i] == w[i - 1];
    }
  }

  /** Reads are right if no path has written what is loaded for them. */
  lemma FedIsCarried(bodies: Bodies, succs: Targets, drvd: RegSets, entry: Block, p: seq<Block>, i: nat)
    requires ReadsFed(bodies, succs, drvd, entry) && DerivesNothing(drvd, entry) && forall c :: c in succs ==> c in drvd
    requires IsPath(succs, entry, p) && i < |Body(bodies, p[|p| - 1])| && Body(bodies, p[|p| - 1])[i].Read?
    ensures CarriedRead(bodies, drvd, p, i) == ReadDef(bodies, p, i)
  {
    hide Unwritten, Carried, LastDef;
    var b, r, rest := p[|p| - 1], Body(bodies, p[|p| - 1])[i].reg, p[..|p| - 1];
    if LastWrite(Body(bodies, b), i, r) < 0 {
      assert ExposedReadOf(Body(bodies, b), i, r);
      if r in drvd[b] {
        assert Draws(bodies, succs, drvd, [rest[|rest| - 1], b], r);
        FedCarried(bodies, succs, drvd, entry, rest, [rest[|rest| - 1], b], r);
      } else {
        assert LoadsFirst(bodies, succs, drvd, b, r) && PathTo(succs, entry, p, b);
      }
    }
  }

  /** If the read at the end of the walk is right, no path has written what is loaded in front of it. */
  lemma CarriedNeedsFed(bodies: Bodies, succs: Targets, drvd: RegSets, entry: Block, w: seq<Block>, r: EcvReg,
                        p: seq<Block>)
    requires ReadsCarried(bodies, succs, drvd, entry) && Feeds(bodies, succs, drvd, w, r)
    requires PathTo(succs, entry, p, w[0])
    ensures LastDef(bodies, p, r) == Init(r)
  {
    hide Carried, LastDef, ReadsCarried, Defines;
    var b, short := w[|w| - 1], w[..|w| - 1];
    var i: nat :| ExposedReadOf(Body(bodies, b), i, r);
    var long := p + w[1..];
    WalkOn(succs, entry, p, w);
    CarriedAt(bodies, succs, drvd, entry, long, i);
    assert long[..|long| - 1] == p + short[1..];
    CarriedOn(bodies, drvd, p, short, r);
    CarriedLoaded(bodies, drvd, p, r);
  }

  lemma CarriedAt(bodies: Bodies, succs: Targets, drvd: RegSets, entry: Block, p: seq<Block>, i: nat)
    requires ReadsCarried(bodies, succs, drvd, entry) && IsPath(succs, entry, p)
    requires i < |Body(bodies, p[|p| - 1])| && Body(bodies, p[|p| - 1])[i].Read?
    ensures CarriedRead(bodies, drvd, p, i) == ReadDef(bodies, p, i)
  {
    hide CarriedRead, ReadDef;
    assert CarriedRights(bodies, drvd, p);
  }

  /** The reads of a promoted function are right exactly when no path has written a register where it is loaded for a
      read: at the start of a walk to the read, or in the block of the read. */
  lemma CarriedIffFed(bodies: Bodies, succs: Targets, drvd: RegSets, entry: Block)
    requires DerivesNothing(drvd, entry) && forall c :: c in succs ==> c in drvd
    ensures ReadsCarried(bodies, succs, drvd, entry) <==> ReadsFed(bodies, succs, drvd, entry)
  {
    hide LastDef, Carried, DerivesNothing, CarriedRead, ReadDef, Feeds;
    if ReadsFed(bodies, succs, drvd, entry) {
      forall p {:trigger IsPath(succs, entry, p)} | IsPath(succs, entry, p)
        ensures CarriedRights(bodies, drvd, p)
      {
        forall i: nat | i < |Body(bodies, p[|p| - 1])| && Body(bodies, p[|p| - 1])[i].Read?
          ensures CarriedRead(bodies, drvd, p, i) == ReadDef(bodies, p, i)
        {
          FedIsCarried(bodies, succs, drvd, entry, p, i);
        }
      }
    }
    if ReadsCarried(bodies, succs, drvd, entry) {
      forall w, r {:trigger Feeds(bodies, succs, drvd, w, r)} | Feeds(bodies, succs, drvd, w, r)
        ensures |w| > 0 && Unwritten(bodies, succs, entry, w[0], r)
      {
        FeedsFrom(bodies, succs, drvd, w, r);
        forall p | PathTo(succs, entry, p, w[0])
          ensures LastDef(bodies, p, r) == Init(r)
        {
          CarriedNeedsFed(bodies, succs, drvd, entry, w, r, p);
        }
      }
      forall b, r {:trigger LoadsFirst(bodies, succs, drvd, b, r)} | LoadsFirst(bodies, succs, drvd, b, r)
        ensures UnwrittenBefore(bodies, succs, entry, b, r)
      {
        forall p | PathTo(succs, entry, p, b)
          ensures LastDef(bodies, p[..|p| - 1], r) == Init(r)
        {
          CarriedNeedsUnwritten(bodies, succs, drvd, entry, b, r, p);
        }
      }
    }
  }

  lemma FeedsFrom(bodies: Bodies, succs: Targets, drvd: RegSets, w: seq<Block>, r: EcvReg)
    requires Feeds(bodies, succs, drvd, w, r)
    ensures |w| > 0
  {
  }

  lemma CarriedNeedsUnwritten(bodies: Bodies, succs: Targets, drvd: RegSets, entry: Block, b: Block, r: EcvReg,
                              p: seq<Block>)
    requires ReadsCarried(bodies, succs, drvd, entry) && LoadsFirst(bodies, succs, drvd, b, r)
    requires PathTo(succs, entry, p, b)
    ensures LastDef(bodies, p[..|p| - 1], r) == Init(r)
  {
    hide LastDef, Carried, ReadsCarried;
    var i: nat :| ExposedReadOf(Body(bodies, b), i, r);
    CarriedAt(bodies, succs, drvd, entry, p, i);
  }

  /** The same for the promoted function, and seen from the original one. */
  lemma ReadsIffFed(f: Fn, bodies: Bodies, succs: Targets, drvd: RegSets, entry: Block, reached: set<Block>)
    requires Relayed(f, bodies, succs, drvd) && Complete(f, bodies, reached) && ClosedFrom(f, entry, reached)
    requires CallFree(bodies) && entry in succs && DerivesNothing(drvd, entry)
    ensures Reads(f, bodies, entry) <==> ReadsFed(bodies, succs, drvd, entry)
    ensures KeepsReads(f, bodies, succs, entry) <==> ReadsFed(bodies, succs, drvd, entry)
  {
    hide *;
    AllDerive(f, bodies, succs, drvd);
    ReadsIffCarried(f, bodies, succs, drvd, entry, reached);
    CarriedIffFed(bodies, succs, drvd, entry);
  }
}
