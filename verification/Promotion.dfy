/** The pass that turns register accesses into values. It walks the blocks from the entry, gives each a phi for every
    register derived there, asks the predecessors for their values, and resolves the reads of the block. */
module Promotions {
  import opened Registers
  import opened Graphs
  import opened Promoted
  import opened PromotedReads
  import opened PromotionSteps
  import opened RelaySteps

  /** Every new relay has its target in the queue. */
  ghost predicate Pushed(f': Fn, f: Fn, queue: seq<Block>) {
    forall x :: x in f'.relays && x !in f.relays ==> f'.relays[x].1 in queue
  }

  ghost predicate Extends(queue: seq<Block>, before: seq<Block>) {
    forall b :: b in before ==> b in queue
  }

  lemma PushedTrans(f2: Fn, f1: Fn, f0: Fn, queue: seq<Block>, before: seq<Block>)
    requires Grew(f2, f1) && Pushed(f2, f1, queue) && Pushed(f1, f0, before) && Extends(queue, before)
    ensures Pushed(f2, f0, queue)
  {
    forall x | x in f2.relays && x !in f0.relays
      ensures f2.relays[x].1 in queue
    {
      assert GrewRelay(f2, f1, x);
    }
  }

  /** Block numbers from `next` on are unused. */
  ghost predicate Unused(succs: Targets, bodies: Bodies, next: Block) {
    forall b :: b in succs || b in bodies ==> b < next
  }

  ghost predicate Listed(succs: Targets, queue: seq<Block>) {
    forall b :: b in queue ==> b in succs
  }

  /** Nothing has been asked for yet. */
  lemma AskedNothing(f: Fn, bodies: Bodies, succs: Targets, drvd: RegSets, t: Block, req: Block, r: EcvReg)
    requires Sound(f, bodies, succs, drvd) && Edge(f, t, req) && HasPhi(f, req, r)
    ensures Grew(f, f) && NoMore(f, f) && Framed(f, f, r, req) && Asked(f, f, r, t, req, t)
    ensures t in f.succs && t in f.avail && t in f.drvd && t in f.phis && t in f.preds
    ensures req in f.succs && req in f.drvd && req in f.phis && req in f.preds
    ensures HasAvail(f, t, r) ==> IsEnd(f, bodies, t, r, f.avail[t][r])
  {
    GrewSelf(f);
    assert t in f.succs && req in f.preds && t in f.preds[req];
    assert req in f.succs;
    assert f.preds[req] - {t} + {t} == f.preds[req];
    assert TablesAt(f, t) && TablesAt(f, req) && ValuesAt(f, bodies, t, r);
  }

  /** Behind a block that must load `r`, there is no relay yet. */
  lemma NoRelayYet(f: Fn, bodies: Bodies, succs: Targets, drvd: RegSets, t: Block, req: Block, r: EcvReg)
    requires Relayed(f, bodies, succs, drvd) && Edge(f, t, req) && Derives(f, req, r) && !Derives(f, t, r)
    ensures t !in f.relays
    ensures req in f.relays ==> f.relays[req].0 == t
  {
    assert req in f.preds && t in f.preds[req];
  }

  /** A derived register without a value gets a phi. */
  lemma PhiPlaced(f: Fn, bodies: Bodies, succs: Targets, drvd: RegSets, t: Block, r: EcvReg, open: set<(Block, EcvReg)>)
    requires Sound(f, bodies, succs, drvd) && Filled(f, open) && t in f.succs && Derives(f, t, r) && !HasPhi(f, t, r)
    ensures t in f.phis && t in f.avail
    ensures var f' := WithPhi(f, bodies, t, r);
            && Sound(f', bodies, succs, drvd) && Grew(f', f) && Framed(f', f, r, t) && NoMore(f', f) &&
                 Filled(f', open + {(t, r)})
            && HasPhi(f', t, r) && f'.phis[t][r] == map[] && Derives(f', t, r)
            && (!HasAvail(f, t, r) ==> |Free(f')| == |Free(f)| && |Todo(f')| < |Todo(f)|)
  {
    WithPhiSound(f, bodies, succs, drvd, t, r);
    WithPhiFull(f, bodies, t, r, open);
    WithPhiTodo(f, bodies, t, r);
  }

  lemma PhiIsEnd(f: Fn, bodies: Bodies, succs: Targets, drvd: RegSets, t: Block, r: EcvReg)
    requires Sound(f, bodies, succs, drvd) && HasPhi(f, t, r)
    ensures HasAvail(f, t, r) && t in f.succs && Derives(f, t, r)
    ensures !Defines(bodies, t, r) ==> IsEnd(f, bodies, t, r, PhiEnd(bodies, t, r))
  {
    hide Defines, Reloads, PhiEnd, Relayed;
    assert ValuesAt(f, bodies, t, r);
    if !Defines(bodies, t, r) {
      PhiEndStands(f, bodies, t, r);
    }
  }

  lemma PhiDone(f: Fn, b: Block, r: EcvReg, open: set<(Block, EcvReg)>)
    requires Filled(f, open + {(b, r)}) && PhiFull(f, b, r)
    ensures Filled(f, open)
  {
  }

  /** A phi whose values come from exactly the predecessors is full. */
  lemma PhiFilled(f: Fn, bodies: Bodies, succs: Targets, drvd: RegSets, b: Block, r: EcvReg)
    requires Relayed(f, bodies, succs, drvd) && HasPhi(f, b, r) && b in f.preds && f.phis[b][r].Keys == f.preds[b]
    ensures PhiFull(f, b, r)
  {
  }

  /** What a request for `r` leaves of `f`. */
  ghost predicate Served(f': Fn, f: Fn, r: EcvReg, req: Block, queue: seq<Block>, before: seq<Block>) {
    Grew(f', f) && NoMore(f', f) && Framed(f', f, r, req) && Pushed(f', f, queue) && Extends(queue, before)
  }

  lemma ServedTrans(f2: Fn, f1: Fn, f0: Fn, r: EcvReg, req: Block, q2: seq<Block>, q1: seq<Block>, q0: seq<Block>)
    requires Served(f2, f1, r, req, q2, q1) && Served(f1, f0, r, req, q1, q0)
    ensures Served(f2, f0, r, req, q2, q0)
  {
    hide Framed, GrewAt, GrewEdge, GrewRelay;
    GrewTrans(f2, f1, f0);
    FramedTrans(f2, f1, f0, r, req);
    PushedTrans(f2, f1, f0, q2, q1);
  }

  /** Served for a block where `r` had no value, a request counts as served for any other block. */
  lemma ServedElsewhere(f2: Fn, f1: Fn, f0: Fn, r: EcvReg, t: Block, req: Block, q2: seq<Block>, q0: seq<Block>)
    requires Served(f2, f1, r, t, q2, q0) && Grew(f1, f0) && NoMore(f1, f0) && Framed(f1, f0, r, t)
    requires f1.relays == f0.relays && !HasAvail(f0, t, r)
    ensures Served(f2, f0, r, req, q2, q0)
  {
    hide GrewAt, GrewEdge, GrewRelay;
    GrewTrans(f2, f1, f0);
    FramedTrans(f2, f1, f0, r, t);
  }

  /** At a block that had a value for `r`, and did not ask, nothing changes. */
  lemma ServedSame(f2: Fn, f1: Fn, f0: Fn, bodies: Bodies, succs: Targets, drvd: RegSets, r: EcvReg, t: Block,
                   req: Block)
    requires Sound(f0, bodies, succs, drvd) && Framed(f1, f0, r, t) && Grew(f1, f0) && Framed(f2, f1, r, t)
    requires HasPhi(f0, req, r) && t != req && Edge(f0, t, req)
    ensures Asked(f2, f0, r, t, req, t)
  {
    FramedTrans(f2, f1, f0, r, t);
    AskedNothing(f0, bodies, succs, drvd, t, req, r);
    assert ValuesAt(f0, bodies, req, r);
    assert SameAt(f2, f0, req);
  }

  /** The edge that served a request. */
  lemma AskedEdge(f': Fn, f: Fn, bodies: Bodies, succs: Targets, drvd: RegSets, r: EcvReg, t: Block, req: Block,
                  par: Block)
    requires Relayed(f', bodies, succs, drvd) && Asked(f', f, r, t, req, par)
    ensures Edge(f', par, req)
  {
  }

  /** The relay has a value for the register that was asked for. */
  lemma RelayServes(f: Fn, bodies: Bodies, succs: Targets, drvd: RegSets, t: Block, req: Block, x: Block, r: EcvReg,
                    open: set<(Block, EcvReg)>, queue: seq<Block>)
    requires Sound(f, bodies, succs, drvd) && Filled(f, open) && CanRelay(f, bodies, t, req, x)
    requires Unused(f.succs, bodies, x)
    requires Listed(f.succs, queue) && Derives(f, req, r) && HasPhi(f, req, r) && !HasIncoming(f, req, r, t)
    requires !HasAvail(f, t, r) && !Derives(f, t, r)
    requires exists i :: 0 <= i < |f.succs[t]| && !Derives(f, f.succs[t][i], r)
    ensures var f' := WithRelay(f, t, req, x);
            && Sound(f', bodies, succs, drvd) && Filled(f', open) && Unused(f'.succs, bodies, x + 1) &&
                 Listed(f'.succs, queue + [req])
            && Served(f', f, r, req, queue + [req], queue) && Asked(f', f, r, t, req, x)
            && HasAvail(f', x, r) && f'.avail[x][r] == Load(x, r) && IsEnd(f', bodies, x, r, Load(x, r))
  {
    hide Relayed, WithRelay, ValuesAt, IncomingAt, TablesAt, Free, Todo, Edge, GrewAt, GrewEdge, GrewRelay;
    var f' := WithRelay(f, t, req, x);
    MustSplit(f, bodies, succs, drvd, t, req, r);
    WithRelaySound(f, bodies, succs, drvd, t, req, x);
    forall b, s {:trigger HasPhi(f, b, s)} | HasPhi(f, b, s)
      ensures b in f.succs
    {
      PhiIsEnd(f, bodies, succs, drvd, b, s);
    }
    RelayFull(f, bodies, succs, drvd, t, req, x, open);
    RelayGrew(f, bodies, succs, drvd, t, req, x);
    RelayMeasure(f, bodies, succs, drvd, t, req, x);
    RelayFrame(f, bodies, succs, drvd, t, req, x, r);
    RelayAvailAt(f, bodies, t, req, x, x, r);
    RelayPushed(f, bodies, t, req, x, queue);
    ValuesEnd(f', bodies, succs, drvd, x, r);
  }

  /** A relay is needed where another successor does not derive the register. */
  lemma MustSplit(f: Fn, bodies: Bodies, succs: Targets, drvd: RegSets, t: Block, req: Block, r: EcvReg)
    requires Relayed(f, bodies, succs, drvd) && t in f.succs && t !in f.relays && req in f.succs && req !in f.relays
    requires Derives(f, req, r) && !Derives(f, t, r)
    requires exists i :: 0 <= i < |f.succs[t]| && !Derives(f, f.succs[t][i], r)
    ensures Splits(succs, drvd, t, req)
  {
    AllTargetsDerive(f, bodies, succs, drvd, t, r);
    DerivesOrigin(f, bodies, succs, drvd, t, r);
    DerivesOrigin(f, bodies, succs, drvd, req, r);
    OriginalIn(f, bodies, succs, drvd, t);
    OriginalIn(f, bodies, succs, drvd, req);
    hide Relayed, Derives;
    var i :| 0 <= i < |f.succs[t]| && !Derives(f, f.succs[t][i], r);
    assert Misses(succs, drvd, t, r, i);
  }

  lemma OriginalIn(f: Fn, bodies: Bodies, succs: Targets, drvd: RegSets, b: Block)
    requires Relayed(f, bodies, succs, drvd) && b in f.succs && b !in f.relays
    ensures b in succs && b in drvd && Origin(f, b) == b
  {
  }

  lemma RelayPushed(f: Fn, bodies: Bodies, t: Block, req: Block, x: Block, queue: seq<Block>)
    requires CanRelay(f, bodies, t, req, x) && Unused(f.succs, bodies, x) && Listed(f.succs, queue)
    ensures Listed(WithRelay(f, t, req, x).succs, queue + [req])
    ensures Pushed(WithRelay(f, t, req, x), f, queue + [req]) && Extends(queue + [req], queue)
    ensures Unused(WithRelay(f, t, req, x).succs, bodies, x + 1)
  {
  }

  lemma ValuesEnd(f: Fn, bodies: Bodies, succs: Targets, drvd: RegSets, b: Block, r: EcvReg)
    requires Sound(f, bodies, succs, drvd) && HasAvail(f, b, r)
    ensures IsEnd(f, bodies, b, r, f.avail[b][r])
  {
    assert ValuesAt(f, bodies, b, r);
  }

  /** A load at the end of `t` serves the request. */
  lemma LoadServes(f: Fn, bodies: Bodies, succs: Targets, drvd: RegSets, t: Block, req: Block, r: EcvReg,
                   open: set<(Block, EcvReg)>, queue: seq<Block>)
    requires Sound(f, bodies, succs, drvd) && Filled(f, open) && Edge(f, t, req) && HasPhi(f, req, r)
    requires Derives(f, req, r) && !HasAvail(f, t, r) && !Derives(f, t, r)
    requires forall i :: 0 <= i < |f.succs[t]| ==> Derives(f, f.succs[t][i], r)
    ensures t in f.avail
    ensures var f' := WithLoad(f, t, r);
            && Sound(f', bodies, succs, drvd) && Filled(f', open)
            && Served(f', f, r, req, queue, queue) && Asked(f', f, r, t, req, t)
            && HasAvail(f', t, r) && IsEnd(f', bodies, t, r, Load(t, r))
  {
    AskedNothing(f, bodies, succs, drvd, t, req, r);
    NoRelayYet(f, bodies, succs, drvd, t, req, r);
    hide Relayed, ValuesAt, IncomingAt, TablesAt, Free, Todo, Edge, GrewAt, GrewEdge, GrewRelay, Framed;
    WithLoadSound(f, bodies, succs, drvd, t, r, req);
    WithLoadFull(f, t, r, open);
    ValuesEnd(WithLoad(f, t, r), bodies, succs, drvd, t, r);
  }

  /** A value from a predecessor that has none yet. */
  lemma IncomingTaken(f: Fn, bodies: Bodies, succs: Targets, drvd: RegSets, b: Block, r: EcvReg, q: Block, v: Val,
                      open: set<(Block, EcvReg)>, queue: seq<Block>)
    requires Sound(f, bodies, succs, drvd) && Filled(f, open) && (b, r) in open && HasPhi(f, b, r)
    requires Edge(f, q, b) && HasAvail(f, q, r) && IsEnd(f, bodies, q, r, v)
    ensures var f' := WithIncoming(f, b, r, q, v);
            && Sound(f', bodies, succs, drvd) && Filled(f', open) && Served(f', f, r, b, queue, queue)
            && HasPhi(f', b, r) && f'.phis[b][r] == f.phis[b][r][q := v]
  {
    hide Relayed, ValuesAt, IncomingAt, TablesAt, Free, Todo, Edge, GrewAt, GrewEdge, GrewRelay, Framed, IsEnd;
    WithIncomingSound(f, bodies, succs, drvd, b, r, q, v);
    WithIncomingFull(f, b, r, q, v, open);
  }

  lemma ServedNothing(f: Fn, r: EcvReg, b: Block, queue: seq<Block>)
    ensures Served(f, f, r, b, queue, queue)
  {
    GrewSelf(f);
  }

  /** A predecessor of a block that has a phi for `r` can be asked for `r`. */
  lemma MayAsk(f: Fn, f0: Fn, bodies: Bodies, succs: Targets, drvd: RegSets, b: Block, r: EcvReg, par: Block)
    requires Sound(f, bodies, succs, drvd) && HasPhi(f, b, r) && b in f.preds && par in f.preds[b]
    requires par !in f.phis[b][r]
    requires Grew(f, f0) && b in f0.succs
    requires b in f0.relays ==>
               f0.relays[b].0 in f0.succs && (HasAvail(f0, f0.relays[b].0, r) || Derives(f0, f0.relays[b].0, r))
    ensures Edge(f, par, b) && Derives(f, b, r) && !HasIncoming(f, b, r, par)
    ensures b in f.relays ==> HasAvail(f, par, r) || Derives(f, par, r)
  {
    PhiIsEnd(f, bodies, succs, drvd, b, r);
    assert GrewRelay(f, f0, b);
    if b in f.relays {
      assert par == f.relays[b].0;
      assert GrewAt(f, f0, par, r);
    }
  }

  lemma ServedGrew(f': Fn, f: Fn, r: EcvReg, req: Block, queue: seq<Block>, before: seq<Block>)
    requires Served(f', f, r, req, queue, before)
    ensures Grew(f', f) && NoMore(f', f)
  {
  }

  /** After a request, one fewer predecessor has to be asked. */
  lemma AskedParents(f2: Fn, f1: Fn, bodies: Bodies, succs: Targets, drvd: RegSets, r: EcvReg, askd: Block, b: Block,
                     par: Block, fins: set<Block>)
    requires Sound(f2, bodies, succs, drvd) && Asked(f2, f1, r, askd, b, par) && b in f1.phis && r in f1.phis[b]
    requires b in f1.preds && fins <= f1.preds[b] && askd in f1.preds[b] - fins && f1.phis[b][r].Keys == fins
    ensures Edge(f2, par, b) && HasPhi(f2, b, r) && f2.phis[b][r] == f1.phis[b][r] && b in f2.preds
    ensures fins + {par} <= f2.preds[b] && |f2.preds[b] - (fins + {par})| < |f1.preds[b] - fins|
  {
    SoundRelayed(f2, bodies, succs, drvd);
    AskedEdge(f2, f1, bodies, succs, drvd, r, askd, b, par);
    var left, left' := f1.preds[b] - fins, f2.preds[b] - (fins + {par});
    assert left' <= left - {askd};
    SubsetSize(left', left - {askd});
  }

  /** The phi that a request places in `t`. */
  lemma DerivedPhi(f: Fn, bodies: Bodies, succs: Targets, drvd: RegSets, t: Block, req: Block, r: EcvReg,
                   open: set<(Block, EcvReg)>)
    requires Sound(f, bodies, succs, drvd) && Filled(f, open) && Edge(f, t, req) && Derives(f, t, r)
    requires !HasAvail(f, t, r)
    ensures t in f.phis && t in f.avail && !HasPhi(f, t, r)
    ensures var f' := WithPhi(f, bodies, t, r);
            && Sound(f', bodies, succs, drvd) && Filled(f', open + {(t, r)}) && HasPhi(f', t, r) &&
                 f'.phis[t][r] == map[]
            && |Free(f')| == |Free(f)| && |Todo(f')| < |Todo(f)|
            && f'.relays == f.relays && f'.succs == f.succs && f'.drvd == f.drvd
            && (t in f'.relays ==>
                  f'.relays[t].0 in f'.succs && (HasAvail(f', f'.relays[t].0, r) || Derives(f', f'.relays[t].0, r)))
  {
    assert ValuesAt(f, bodies, t, r);
    PhiPlaced(f, bodies, succs, drvd, t, r, open);
    if t in f.relays {
      assert GrewAt(WithPhi(f, bodies, t, r), f, f.relays[t].0, r);
    }
  }

  lemma DerivedServes(f2: Fn, f1: Fn, f: Fn, bodies: Bodies, succs: Targets, drvd: RegSets, t: Block, req: Block,
                      r: EcvReg, queue: seq<Block>, before: seq<Block>)
    requires Sound(f, bodies, succs, drvd) && Sound(f2, bodies, succs, drvd) && Edge(f, t, req) && HasPhi(f, req, r)
    requires Derives(f, t, r) && !HasAvail(f, t, r) && t in f.phis && t in f.avail && f1 == WithPhi(f, bodies, t, r)
    requires Served(f2, f1, r, t, queue, before) && HasPhi(f2, t, r)
    ensures Served(f2, f, r, req, queue, before) && Asked(f2, f, r, t, req, t)
    ensures HasAvail(f2, t, r) && IsEnd(f2, bodies, t, r, PhiEnd(bodies, t, r))
  {
    assert ValuesAt(f, bodies, t, r) && ValuesAt(f, bodies, req, r);
    WithPhiSound(f, bodies, succs, drvd, t, r);
    WithPhiTodo(f, bodies, t, r);
    hide Relayed, ValuesAt, IncomingAt, TablesAt, Free, Todo, Edge, GrewAt, GrewEdge, GrewRelay, Framed, Sound;
    ServedElsewhere(f2, f1, f, r, t, req, queue, before);
    ServedSame(f2, f1, f, bodies, succs, drvd, r, t, req);
    PhiIsEnd(f2, bodies, succs, drvd, t, r);
    NotDefined(f, bodies, succs, drvd, t, r);
  }

  lemma NotDefined(f: Fn, bodies: Bodies, succs: Targets, drvd: RegSets, t: Block, r: EcvReg)
    requires Sound(f, bodies, succs, drvd) && !HasAvail(f, t, r) && t in f.succs
    ensures !Defines(bodies, t, r)
  {
    assert ValuesAt(f, bodies, t, r);
  }

  lemma FreshRelay(f: Fn, bodies: Bodies, succs: Targets, drvd: RegSets, t: Block, req: Block, r: EcvReg, x: Block)
    requires Sound(f, bodies, succs, drvd) && Unused(f.succs, bodies, x) && Edge(f, t, req) && HasPhi(f, req, r)
    requires t !in f.relays
    requires !HasAvail(f, t, r) && !Derives(f, t, r) && (req in f.relays ==> HasAvail(f, t, r) || Derives(f, t, r))
    ensures CanRelay(f, bodies, t, req, x)
  {
    AskedNothing(f, bodies, succs, drvd, t, req, r);
  }

  lemma TargetsDerived(f: Fn, bodies: Bodies, succs: Targets, drvd: RegSets, t: Block)
    requires Relayed(f, bodies, succs, drvd) && t in f.succs && t !in f.relays
    ensures forall i :: 0 <= i < |f.succs[t]| ==> f.succs[t][i] in f.drvd
  {
    forall i | 0 <= i < |f.succs[t]|
      ensures f.succs[t][i] in f.drvd
    {
      assert succs[t][i] in succs;
    }
  }

  lemma WithIncomingPreds(f: Fn, b: Block, r: EcvReg, q: Block, v: Val)
    requires HasPhi(f, b, r)
    ensures WithIncoming(f, b, r, q, v).preds == f.preds
  {
  }

  lemma ParentTaken(f2: Fn, f1: Fn, bodies: Bodies, succs: Targets, drvd: RegSets, r: EcvReg, askd: Block, b: Block,
                    par: Block, v: Val, fins: set<Block>, open: set<(Block, EcvReg)>, q2: seq<Block>, q1: seq<Block>)
    requires Sound(f2, bodies, succs, drvd) && Filled(f2, open) && (b, r) in open && Served(f2, f1, r, b, q2, q1)
    requires Asked(f2, f1, r, askd, b, par) && b in f1.phis && r in f1.phis[b]
    requires b in f1.preds && fins <= f1.preds[b] && askd in f1.preds[b] - fins && f1.phis[b][r].Keys == fins
    requires HasAvail(f2, par, r) && IsEnd(f2, bodies, par, r, v)
    ensures HasPhi(f2, b, r)
    ensures var f3 := WithIncoming(f2, b, r, par, v);
            && Sound(f3, bodies, succs, drvd) && Filled(f3, open) && Served(f3, f1, r, b, q2, q1) && HasPhi(f3, b, r)
            && b in f3.preds && f3.phis[b][r].Keys == fins + {par} && fins + {par} <= f3.preds[b]
            && |f3.preds[b] - (fins + {par})| < |f1.preds[b] - fins|
  {
    hide Sound, Filled, Asked, Served, Edge, HasAvail, IsEnd, WithIncoming;
    AskedParents(f2, f1, bodies, succs, drvd, r, askd, b, par, fins);
    IncomingTaken(f2, bodies, succs, drvd, b, r, par, v, open, q2);
    ServedTrans(WithIncoming(f2, b, r, par, v), f2, f1, r, b, q2, q2, q1);
    WithIncomingPreds(f2, b, r, par, v);
  }

  lemma CanRelayTables(f: Fn, bodies: Bodies, t: Block, req: Block, x: Block)
    requires CanRelay(f, bodies, t, req, x)
    ensures t in f.succs && req in f.preds && req in f.phis && t in f.avail && t in f.drvd && req in f.drvd
  {
  }

  /** The fields of a function after a relay was put on the edge from `t` to `req`. */
  ghost function Installed(f: Fn, t: Block, req: Block, x: Block, redirected: seq<Block>, rerouted: PhiTable,
                           made: PhiTable, loaded: map<EcvReg, Val>): Fn
    requires req in f.preds && req in f.drvd
  {
    f.(succs := f.succs[t := redirected][x := [req]],
       preds := f.preds[req := f.preds[req] - {t} + {x}][x := {t}],
       drvd := f.drvd[x := f.drvd[req]],
       phis := f.phis[req := rerouted][x := made],
       avail := f.avail[x := loaded],
       relays := f.relays[x := (t, req)])
  }

  lemma InstalledRelay(f: Fn, bodies: Bodies, t: Block, req: Block, x: Block, redirected: seq<Block>,
                       rerouted: PhiTable, made: PhiTable, loaded: map<EcvReg, Val>)
    requires CanRelay(f, bodies, t, req, x) && redirected == Redirected(f.succs[t], req, x)
    requires rerouted == Rerouted(f.phis[req], t, x) && made == RelayPhis(f.phis[req], t)
    requires loaded == RelayLoads(f.drvd[req], f.avail[t].Keys + f.drvd[t], x) + RelayVals(f.phis[req], t, x)
    ensures Installed(f, t, req, x, redirected, rerouted, made, loaded) == WithRelay(f, t, req, x)
  {
  }

  // ---------------------------------------------------------------------------
  // The walk over the blocks

  /** `f'` is what some requests have made of `f`. */
  ghost predicate Ran(f': Fn, f: Fn, queue: seq<Block>, before: seq<Block>) {
    Grew(f', f) && Pushed(f', f, queue) && Extends(queue, before)
  }

  lemma RanTrans(f2: Fn, f1: Fn, f0: Fn, q2: seq<Block>, q1: seq<Block>, q0: seq<Block>)
    requires Ran(f2, f1, q2, q1) && Ran(f1, f0, q1, q0)
    ensures Ran(f2, f0, q2, q0)
  {
    hide GrewAt, GrewEdge, GrewRelay;
    GrewTrans(f2, f1, f0);
    PushedTrans(f2, f1, f0, q2, q1);
  }

  lemma ServedRan(f2: Fn, f1: Fn, f0: Fn, r: EcvReg, b: Block, queue: seq<Block>, before: seq<Block>)
    requires Served(f2, f1, r, b, queue, before) && Grew(f1, f0) && f1.relays == f0.relays
    ensures Ran(f2, f0, queue, before)
  {
    hide GrewAt, GrewEdge, GrewRelay;
    GrewTrans(f2, f1, f0);
  }

  /** The first derived registers of `b` have their phis. */
  ghost predicate Placed(f: Fn, b: Block, regs: set<EcvReg>) {
    forall r {:trigger HasPhi(f, b, r)} :: r in regs ==> HasPhi(f, b, r)
  }

  lemma PlacedGrew(f': Fn, f: Fn, b: Block, regs: set<EcvReg>, r: EcvReg)
    requires Placed(f, b, regs) && Grew(f', f) && HasPhi(f', b, r)
    ensures Placed(f', b, regs + {r})
  {
    forall s {:trigger HasPhi(f', b, s)} | s in regs + {r}
      ensures HasPhi(f', b, s)
    {
      assert GrewAt(f', f, b, s);
    }
  }

  lemma RanNothing(f: Fn, b: Block, queue: seq<Block>)
    ensures Ran(f, f, queue, queue) && Placed(f, b, {})
  {
    GrewSelf(f);
  }

  lemma RanPlaced(f': Fn, f: Fn, b: Block, regs: set<EcvReg>, r: EcvReg, queue: seq<Block>, before: seq<Block>)
    requires Placed(f, b, regs) && Ran(f', f, queue, before) && HasPhi(f', b, r)
    ensures Placed(f', b, regs + {r})
  {
    PlacedGrew(f', f, b, regs, r);
  }

  lemma RanDerives(f': Fn, f: Fn, bodies: Bodies, succs: Targets, drvd: RegSets, b: Block, r: EcvReg, queue: seq<Block>,
                   before: seq<Block>)
    requires Ran(f', f, queue, before) && Sound(f', bodies, succs, drvd) && b in f.succs && b !in f.relays
    requires b in f.drvd && r in f.drvd[b]
    ensures b in f'.succs && b !in f'.relays && Derives(f', b, r) && b in f'.phis && b in f'.avail && b in f'.drvd
  {
    assert GrewAt(f', f, b, r) && GrewRelay(f', f, b) && Derives(f, b, r);
    SoundTables(f', bodies, succs, drvd, b);
  }

  /** `cur` holds the values that are known behind the first `i` instructions. */
  ghost predicate Current(body: seq<Instr>, phiRegs: set<EcvReg>, i: nat, cur: map<EcvReg, Source>)
    requires i <= |body|
  {
    && (forall r :: r in cur <==> InCache(body, phiRegs, i, r))
    && (forall r :: r in cur ==> cur[r] == CacheAt(body, phiRegs, i, r))
  }

  lemma CurrentAccess(body: seq<Instr>, phiRegs: set<EcvReg>, i: nat, cur: map<EcvReg, Source>)
    requires i < |body| && Current(body, phiRegs, i, cur) && !body[i].Call?
    ensures var r := body[i].reg;
            var source := if body[i].Write? then Stored(i) else if r in cur then cur[r] else Loaded;
            Current(body, phiRegs, i + 1, cur[r := source]) && (body[i].Read? ==> source == Resolved(body, phiRegs, i))
  {
    hide Own;
    forall s
      ensures InCache(body, phiRegs, i + 1, s) <==> InCache(body, phiRegs, i, s) || s == body[i].reg
    {
      OwnPrefix(body, i, s);
    }
  }

  /** A call adds no register. */
  lemma CurrentCall(body: seq<Instr>, phiRegs: set<EcvReg>, i: nat, cur: map<EcvReg, Source>, cur': map<EcvReg, Source>,
                    regs: map<EcvReg, Source>)
    requires i < |body| && Current(body, phiRegs, i, cur) && body[i].Call?
    requires forall r :: r in cur' <==> r in cur
    requires forall r :: r in cur ==> cur'[r] == if body[i].kind.Reloads(r) then Reloaded(i) else cur[r]
    requires forall r :: r in regs <==> r in cur && body[i].kind.Stores(r)
    requires forall r :: r in regs ==> regs[r] == cur[r]
    ensures Current(body, phiRegs, i + 1, cur') && Spilled(body, phiRegs, i, regs)
  {
    hide Own;
    forall s
      ensures InCache(body, phiRegs, i + 1, s) <==> InCache(body, phiRegs, i, s)
    {
      OwnPrefix(body, i, s);
    }
  }

  lemma CurrentStart(body: seq<Instr>, phiRegs: set<EcvReg>)
    ensures Current(body, phiRegs, 0, map r | r in phiRegs :: FromPhi)
  {
    assert body[..0] == [];
    assert Own([]) == {};
  }

  lemma CurrentEnd(body: seq<Instr>, phiRegs: set<EcvReg>, cur: map<EcvReg, Source>)
    requires Current(body, phiRegs, |body|, cur)
    ensures cur.Keys == phiRegs + Own(body)
  {
    assert body[..|body|] == body;
  }

  /** The registers that a call takes and that were written before the block have phis. */
  ghost predicate PassedHavePhis(passed: set<EcvReg>, phiRegs: set<EcvReg>) {
    forall r :: r in passed && r.CheckPassedArgsRegs() ==> r in phiRegs
  }

  /** In whatever function, every passed register that was written before a block has a value at each of its
      instructions, and so at each call and at the end. */
  lemma PassedFound(f: Fn, bodies: Bodies, succs: Targets, drvd: RegSets, passed: RegSets, b: Block)
    requires Sound(f, bodies, succs, drvd) && DerivedHavePhis(f, b) && b in succs && PassedDerived(passed, drvd)
    requires b in passed
    ensures b in f.phis && PassedHavePhis(passed[b], f.phis[b].Keys)
    ensures forall i: nat, r :: i <= |Body(bodies, b)| && r in passed[b] && r.CheckPassedArgsRegs() ==>
              InCache(Body(bodies, b), f.phis[b].Keys, i, r)
    ensures forall i: nat, r ::
              && i < |Body(bodies, b)| && Body(bodies, b)[i].Call?
              && Body(bodies, b)[i].kind.Stores(r) && r in passed[b] ==>
                InCache(Body(bodies, b), f.phis[b].Keys, i, r)
  {
    PhiRegsAre(f, bodies, succs, drvd, b);
    assert PassedHavePhis(passed[b], f.phis[b].Keys);
    forall i: nat, r | i < |Body(bodies, b)| && Body(bodies, b)[i].Call? && Body(bodies, b)[i].kind.Stores(r) &&
      r in passed[b]
      ensures InCache(Body(bodies, b), f.phis[b].Keys, i, r)
    {
      assert r.CheckPassedArgsRegs();
    }
  }

  ghost predicate DoneAt(f: Fn, bodies: Bodies, passed: RegSets, succs: Targets, b: Block) {
    && b in succs && DerivedHavePhis(f, b) && ReadsResolved(f, bodies, b)
    && (succs[b] == [] ==> StoresMade(f, bodies, passed, b))
  }

  ghost predicate AllDone(f: Fn, bodies: Bodies, passed: RegSets, succs: Targets, finished: set<Block>) {
    forall b: Block {:trigger DoneAt(f, bodies, passed, succs, b)} :: b in finished ==>
      DoneAt(f, bodies, passed, succs, b)
  }

  /** `f'` has no edge between original blocks that `f` does not have, and the relays of `f`. */
  ghost predicate Edges(f': Fn, f: Fn) {
    && (forall q, b {:trigger GrewEdge(f', f, q, b)} :: GrewEdge(f', f, q, b))
    && (forall x {:trigger GrewRelay(f', f, x)} :: GrewRelay(f', f, x))
  }

  lemma EdgesTrans(f2: Fn, f1: Fn, f0: Fn)
    requires Edges(f2, f1) && Edges(f1, f0) && f2.relays == f1.relays && f2.succs == f1.succs
    ensures Edges(f2, f0)
  {
    forall q, b
      ensures GrewEdge(f2, f0, q, b)
    {
      assert GrewEdge(f2, f1, q, b) && GrewEdge(f1, f0, q, b);
    }
    forall x
      ensures GrewRelay(f2, f0, x)
    {
      assert GrewRelay(f2, f1, x) && GrewRelay(f1, f0, x);
    }
  }

  lemma SoundBlock(f: Fn, bodies: Bodies, succs: Targets, drvd: RegSets, b: Block)
    requires Sound(f, bodies, succs, drvd) && b in succs
    ensures b in f.succs && b !in f.relays && b in f.drvd && b in f.phis && b in f.avail && b in drvd
    ensures f.drvd[b] == drvd[b]
    ensures |f.succs[b]| == |succs[b]|
  {
    assert TablesAt(f, b);
  }

  lemma PhisOfBlock(f1: Fn, f: Fn, bodies: Bodies, succs: Targets, drvd: RegSets, b: Block, queue: seq<Block>,
                    before: seq<Block>)
    requires Sound(f1, bodies, succs, drvd) && Sound(f, bodies, succs, drvd) && Ran(f1, f, queue, before) && b in succs
    requires b in f.drvd && Placed(f1, b, f.drvd[b])
    ensures DerivedHavePhis(f1, b) && Edges(f1, f) && Pushed(f1, f, queue) && Extends(queue, before)
    ensures b in f1.succs && b in f1.phis && b in f1.avail && b in f1.drvd && |f1.succs[b]| == |succs[b]|
  {
    SoundBlock(f1, bodies, succs, drvd, b);
    SoundBlock(f, bodies, succs, drvd, b);
  }

  /** Once all derived registers of a block have phis, its phis are those of exactly the derived registers. */
  lemma PhiRegsAre(f: Fn, bodies: Bodies, succs: Targets, drvd: RegSets, b: Block)
    requires Sound(f, bodies, succs, drvd) && DerivedHavePhis(f, b) && b in succs
    ensures b in f.phis && b in f.drvd && f.phis[b].Keys == f.drvd[b] && b in drvd && f.drvd[b] == drvd[b]
  {
    SoundBlock(f, bodies, succs, drvd, b);
    forall r
      ensures r in f.phis[b] <==> r in f.drvd[b]
    {
      assert ValuesAt(f, bodies, b, r);
      assert Derives(f, b, r) <==> r in f.drvd[b];
      assert HasPhi(f, b, r) <==> r in f.phis[b];
    }
  }

  /** A finished block stays finished. */
  lemma DoneStays(f': Fn, f: Fn, bodies: Bodies, succs: Targets, drvd: RegSets, passed: RegSets, b: Block)
    requires Sound(f', bodies, succs, drvd) && Sound(f, bodies, succs, drvd) && b in succs
    requires DoneAt(f, bodies, passed, succs, b)
    requires forall r {:trigger GrewAt(f', f, b, r)} :: GrewAt(f', f, b, r)
    requires b in f.sources ==> b in f'.sources && f'.sources[b] == f.sources[b]
    requires b in f.stores ==> b in f'.stores && f'.stores[b] == f.stores[b]
    ensures DoneAt(f', bodies, passed, succs, b)
  {
    hide Sound, Relayed, IsEnd, Resolved, Spilled, Own;
    SoundRelayed(f, bodies, succs, drvd);
    SoundRelayed(f', bodies, succs, drvd);
    PhiRegsAre(f, bodies, succs, drvd, b);
    SoundBlock(f', bodies, succs, drvd, b);
    forall r {:trigger Derives(f', b, r)} {:trigger HasPhi(f', b, r)} | Derives(f', b, r)
      ensures HasPhi(f', b, r)
    {
      assert GrewAt(f', f, b, r);
    }
    PhiRegsAre(f', bodies, succs, drvd, b);
    if succs[b] == [] {
      StoresStay(f', f, bodies, succs, drvd, passed, b);
    }
  }

  lemma StoresStay(f': Fn, f: Fn, bodies: Bodies, succs: Targets, drvd: RegSets, passed: RegSets, b: Block)
    requires Relayed(f', bodies, succs, drvd) && Relayed(f, bodies, succs, drvd) && b in succs
    requires StoresMade(f, bodies, passed, b)
    requires forall r {:trigger GrewAt(f', f, b, r)} :: GrewAt(f', f, b, r)
    requires b in f'.stores && f'.stores[b] == f.stores[b]
    ensures StoresMade(f', bodies, passed, b)
  {
    hide Relayed;
    BlockIn(f, bodies, succs, drvd, b);
    BlockIn(f', bodies, succs, drvd, b);
    forall r
      ensures Derives(f', b, r) <==> Derives(f, b, r)
      ensures HasPhi(f, b, r) ==> HasPhi(f', b, r)
    {
      assert GrewAt(f', f, b, r);
    }
  }

  lemma BlockIn(f: Fn, bodies: Bodies, succs: Targets, drvd: RegSets, b: Block)
    requires Relayed(f, bodies, succs, drvd) && b in succs
    ensures b in f.succs && b !in f.relays
  {
  }

  lemma DoneRan(f': Fn, f: Fn, bodies: Bodies, succs: Targets, drvd: RegSets, passed: RegSets, finished: set<Block>,
                queue: seq<Block>, before: seq<Block>)
    requires Sound(f', bodies, succs, drvd) && Sound(f, bodies, succs, drvd)
    requires AllDone(f, bodies, passed, succs, finished)
    requires Ran(f', f, queue, before)
    ensures AllDone(f', bodies, passed, succs, finished)
  {
    hide Sound, GrewAt, DoneAt, Pushed, Extends, GrewEdge, GrewRelay;
    forall b: Block {:trigger DoneAt(f', bodies, passed, succs, b)} | b in finished
      ensures DoneAt(f', bodies, passed, succs, b)
    {
      assert DoneAt(f, bodies, passed, succs, b);
      SourcesAt(f, bodies, passed, succs, b);
      DoneStays(f', f, bodies, succs, drvd, passed, b);
    }
  }

  /** The function once the values known at the end of `b` are noted. */
  lemma Refreshed(f: Fn, f0: Fn, bodies: Bodies, succs: Targets, drvd: RegSets, b: Block, queue: seq<Block>,
                  before: seq<Block>)
    requires Sound(f, bodies, succs, drvd) && Filled(f, {}) && b in f.succs && Ran(f, f0, queue, before)
    requires b in f0.drvd && Placed(f, b, f0.drvd[b])
    ensures b in f.avail
    ensures var f' := WithOwn(f, bodies, b);
            && Sound(f', bodies, succs, drvd) && Filled(f', {}) && Ran(f', f0, queue, before) &&
                 Placed(f', b, f0.drvd[b])
            && forall r :: r in Own(Body(bodies, b)) ==> HasAvail(f', b, r)
  {
    hide Sound, Filled, Own, Grew, Extends;
    WithOwnSound(f, bodies, succs, drvd, b);
    WithOwnFull(f, bodies, b, {});
    WithOwnShape(f, bodies, b);
    var f' := WithOwn(f, bodies, b);
    GrewTrans(f', f, f0);
    assert forall r {:trigger HasPhi(f', b, r)} :: HasPhi(f', b, r) <==> HasPhi(f, b, r);
  }

  /** At a block that returns, every register seen has a value, and so has every passed register that was written before
      the block. */
  lemma CurrentValues(f: Fn, bodies: Bodies, succs: Targets, drvd: RegSets, passed: RegSets, b: Block,
                      cur: map<EcvReg, Source>)
    requires Sound(f, bodies, succs, drvd) && DerivedHavePhis(f, b) && b in succs && b in f.phis && b in passed
    requires forall r :: r in Own(Body(bodies, b)) ==> HasAvail(f, b, r)
    requires cur.Keys == f.phis[b].Keys + Own(Body(bodies, b)) && PassedDerived(passed, drvd)
    ensures b in f.avail
    ensures forall r :: r in cur ==> r in f.avail[b] && IsEnd(f, bodies, b, r, f.avail[b][r])
    ensures forall r :: r in passed[b] && r.CheckPassedArgsRegs() ==> r in cur
    ensures forall r :: r in cur <==> Owns(bodies, b, r) || Derives(f, b, r)
  {
    PhiRegsAre(f, bodies, succs, drvd, b);
    SoundBlock(f, bodies, succs, drvd, b);
    forall r
      ensures r in cur <==> Owns(bodies, b, r) || Derives(f, b, r)
      ensures r in cur ==> r in f.avail[b] && IsEnd(f, bodies, b, r, f.avail[b][r])
    {
      assert ValuesAt(f, bodies, b, r);
      assert HasPhi(f, b, r) <==> r in f.phis[b];
      assert HasAvail(f, b, r) <==> r in f.avail[b];
    }
  }

  /** `f'` differs from `f` only in what it records about reads and stores. */
  ghost predicate SameValues(f': Fn, f: Fn) {
    f' == f.(sources := f'.sources, stores := f'.stores)
  }

  lemma SoundSame(f': Fn, f: Fn, bodies: Bodies, succs: Targets, drvd: RegSets)
    requires SameValues(f', f) && Sound(f, bodies, succs, drvd)
    ensures Sound(f', bodies, succs, drvd)
  {
    LoadsStay(f', f, succs, drvd);
    hide Relayed, TablesAt, ValuesAt, IncomingAt, SameValues, LoadsPlaced;
    SameValuesRelayed(f', f, bodies, succs, drvd);
    forall b
      ensures TablesAt(f', b)
    {
      SameTablesAt(f', f, b);
    }
    forall b, r
      ensures ValuesAt(f', bodies, b, r)
    {
      SameValuesAt(f', f, bodies, b, r);
    }
    forall b, r, q
      ensures IncomingAt(f', bodies, b, r, q)
    {
      SameIncomingAt(f', f, bodies, b, r, q);
    }
  }

  lemma SameTablesAt(f': Fn, f: Fn, b: Block)
    requires SameValues(f', f) && TablesAt(f, b)
    ensures TablesAt(f', b)
  {
  }

  lemma SameIncomingAt(f': Fn, f: Fn, bodies: Bodies, b: Block, r: EcvReg, q: Block)
    requires SameValues(f', f) && IncomingAt(f, bodies, b, r, q)
    ensures IncomingAt(f', bodies, b, r, q)
  {
  }

  lemma SameValuesRelayed(f': Fn, f: Fn, bodies: Bodies, succs: Targets, drvd: RegSets)
    requires SameValues(f', f) && Relayed(f, bodies, succs, drvd)
    ensures Relayed(f', bodies, succs, drvd)
  {
    assert forall q, c {:trigger Edge(f', q, c)} :: Edge(f', q, c) <==> Edge(f, q, c);
  }

  lemma SameValuesAt(f': Fn, f: Fn, bodies: Bodies, b: Block, r: EcvReg)
    requires SameValues(f', f) && ValuesAt(f, bodies, b, r)
    ensures ValuesAt(f', bodies, b, r) && GrewAt(f', f, b, r)
  {
  }

  lemma FilledSame(f': Fn, f: Fn, open: set<(Block, EcvReg)>)
    requires SameValues(f', f) && Filled(f, open)
    ensures Filled(f', open) && Edges(f', f)
  {
    forall b: Block, r {:trigger PhiFull(f', b, r)} | HasPhi(f', b, r) && (b, r) !in open
      ensures PhiFull(f', b, r)
    {
      assert PhiFull(f, b, r);
      assert forall q {:trigger HasIncoming(f', b, r, q)} :: HasIncoming(f', b, r, q) <==> HasIncoming(f, b, r, q);
      assert forall q {:trigger Edge(f', q, b)} :: Edge(f', q, b) <==> Edge(f, q, b);
    }
  }

  /** The stores of a block that returns, from the registers it has seen. */
  ghost predicate StoresOf(f: Fn, passed: RegSets, b: Block, cur: map<EcvReg, Source>, out: map<EcvReg, Val>) {
    && b in passed && b in f.avail
    && (forall r :: r in out <==>
          || (r.CheckPassedReturnRegs() && r in cur)
          || (r.CheckPassedArgsRegs() && r in passed[b]))
    && (forall r :: r in out ==> r in cur && r in f.avail[b] && out[r] == f.avail[b][r])
  }

  lemma StoresOfMade(f': Fn, f: Fn, bodies: Bodies, succs: Targets, drvd: RegSets, passed: RegSets, b: Block,
                     cur: map<EcvReg, Source>, out: map<EcvReg, Val>)
    requires SameValues(f', f) && StoresOf(f, passed, b, cur, out) && b in f'.stores && f'.stores[b] == out
    requires Sound(f, bodies, succs, drvd) && DerivedHavePhis(f, b) && b in succs && b in f.phis
    requires forall r :: r in Own(Body(bodies, b)) ==> HasAvail(f, b, r)
    requires cur.Keys == f.phis[b].Keys + Own(Body(bodies, b)) && PassedDerived(passed, drvd)
    ensures StoresMade(f', bodies, passed, b)
  {
    hide Sound, Own, PassedDerived;
    CurrentValues(f, bodies, succs, drvd, passed, b, cur);
    SameEnds(f', f, bodies, b, out);
    assert forall r :: Derives(f', b, r) <==> Derives(f, b, r);
  }

  lemma SameEnds(f': Fn, f: Fn, bodies: Bodies, b: Block, out: map<EcvReg, Val>)
    requires SameValues(f', f) && forall r :: r in out ==> IsEnd(f, bodies, b, r, out[r])
    ensures forall r :: r in out ==> IsEnd(f', bodies, b, r, out[r])
  {
  }

  lemma BlockDone(f3: Fn, f2: Fn, f1: Fn, bodies: Bodies, succs: Targets, drvd: RegSets, passed: RegSets, b: Block,
                  finished: set<Block>, srcs: seq<Source>)
    requires Sound(f1, bodies, succs, drvd) && Filled(f1, {}) && AllDone(f1, bodies, passed, succs, finished)
    requires SameValues(f3, f2) && SameValues(f2, f1) && f2.sources == f1.sources[b := srcs] && f3.sources == f2.sources
    requires b in succs && b !in finished && ReadsResolved(f2, bodies, b) && DerivedHavePhis(f1, b)
    requires forall c :: c in f1.stores && c != b ==> c in f3.stores && f3.stores[c] == f1.stores[c]
    requires succs[b] == [] ==> StoresMade(f3, bodies, passed, b)
    ensures Sound(f3, bodies, succs, drvd) && Filled(f3, {}) && AllDone(f3, bodies, passed, succs, finished + {b})
    ensures Edges(f3, f1)
  {
    hide Sound, Filled, StoresMade, ValuesAt, GrewAt, Edges, DoneAt;
    SoundSame(f3, f1, bodies, succs, drvd);
    FilledSame(f3, f1, {});
    forall c: Block {:trigger DoneAt(f3, bodies, passed, succs, c)} | c in finished + {b}
      ensures DoneAt(f3, bodies, passed, succs, c)
    {
      if c == b {
        DoneNow(f3, f2, f1, bodies, succs, passed, b);
      } else {
        assert DoneAt(f1, bodies, passed, succs, c);
        SourcesAt(f1, bodies, passed, succs, c);
        forall r
          ensures GrewAt(f3, f1, c, r)
        {
          ValuesGrew(f3, f1, bodies, succs, drvd, c, r);
        }
        DoneStays(f3, f1, bodies, succs, drvd, passed, c);
      }
    }
  }

  lemma ValuesGrew(f': Fn, f: Fn, bodies: Bodies, succs: Targets, drvd: RegSets, b: Block, r: EcvReg)
    requires Sound(f, bodies, succs, drvd) && SameValues(f', f)
    ensures GrewAt(f', f, b, r)
  {
    assert ValuesAt(f, bodies, b, r);
    SameValuesAt(f', f, bodies, b, r);
  }

  lemma SourcesAt(f: Fn, bodies: Bodies, passed: RegSets, succs: Targets, b: Block)
    requires DoneAt(f, bodies, passed, succs, b)
    ensures b in f.sources && b in succs && (succs[b] == [] ==> b in f.stores)
  {
  }

  lemma PhisAvail(f: Fn, bodies: Bodies, succs: Targets, drvd: RegSets, b: Block)
    requires Sound(f, bodies, succs, drvd) && b in f.phis && b in f.avail
    ensures forall r :: r in f.phis[b] ==> r in f.avail[b]
  {
    forall r | r in f.phis[b]
      ensures r in f.avail[b]
    {
      assert HasPhi(f, b, r) && ValuesAt(f, bodies, b, r);
    }
  }

  lemma ResolvedStill(f': Fn, f: Fn, bodies: Bodies, b: Block)
    requires ReadsResolved(f, bodies, b) && f'.sources == f.sources && f'.phis == f.phis
    ensures ReadsResolved(f', bodies, b)
  {
  }

  lemma DoneNow(f3: Fn, f2: Fn, f1: Fn, bodies: Bodies, succs: Targets, passed: RegSets, b: Block)
    requires SameValues(f3, f2) && SameValues(f2, f1) && f3.sources == f2.sources
    requires b in succs && ReadsResolved(f2, bodies, b) && DerivedHavePhis(f1, b)
    requires succs[b] == [] ==> StoresMade(f3, bodies, passed, b)
    ensures DoneAt(f3, bodies, passed, succs, b)
  {
    forall r {:trigger Derives(f3, b, r)} {:trigger HasPhi(f3, b, r)} | Derives(f3, b, r)
      ensures HasPhi(f3, b, r)
    {
      assert Derives(f1, b, r) && HasPhi(f1, b, r);
    }
  }

  // ---------------------------------------------------------------------------
  // What the queue holds

  /** The targets of relays, and of edges from finished blocks, are finished or queued. */
  ghost predicate Noted(f: Fn, finished: set<Block>, queue: seq<Block>) {
    && (forall x :: x in f.relays ==> f.relays[x].1 in finished || f.relays[x].1 in queue)
    && (forall q, b {:trigger Edge(f, q, b)} :: q in finished && Edge(f, q, b) && b !in f.relays ==>
         b in finished || b in queue)
  }

  lemma NotedStart(f: Fn, bodies: Bodies, succs: Targets, drvd: RegSets, passed: RegSets, entry: Block)
    requires Sound(f, bodies, succs, drvd) && f.relays == map[] && entry in succs
    ensures Noted(f, {}, [entry]) && Listed(f.succs, [entry]) && AllDone(f, bodies, passed, succs, {})
  {
    SoundRelayed(f, bodies, succs, drvd);
  }

  lemma NotedSkip(f: Fn, bodies: Bodies, succs: Targets, drvd: RegSets, finished: set<Block>, queue: seq<Block>)
    requires Sound(f, bodies, succs, drvd) && Noted(f, finished, queue) && queue != []
    requires queue[0] in finished || queue[0] in f.relays
    ensures Noted(f, finished, queue[1..])
  {
    SoundRelayed(f, bodies, succs, drvd);
    hide Sound;
    forall b | b in queue && b != queue[0]
      ensures b in queue[1..]
    {
      InTail(queue, b);
    }
  }

  lemma InTail(queue: seq<Block>, b: Block)
    requires b in queue && b != queue[0]
    ensures b in queue[1..]
  {
    var i :| 0 <= i < |queue| && queue[i] == b;
    assert queue[1..][i - 1] == b;
  }

  lemma ListedTail(f: Fn, bodies: Bodies, succs: Targets, drvd: RegSets, queue: seq<Block>, entry: Block)
    requires Sound(f, bodies, succs, drvd) && Listed(f.succs, queue) && queue != [] && entry in succs
    ensures Listed(f.succs, queue[1..]) && (queue[0] in succs || queue[0] in f.relays)
    ensures entry in queue && entry !in queue[1..] ==> entry == queue[0] && queue[0] !in f.relays
  {
    SoundBlock(f, bodies, succs, drvd, entry);
    if entry in queue && entry != queue[0] {
      InTail(queue, entry);
    }
  }

  lemma NotedStep(f': Fn, f: Fn, bodies: Bodies, succs: Targets, drvd: RegSets, finished: set<Block>, queue: seq<Block>,
                  after: seq<Block>, t: Block)
    requires Sound(f', bodies, succs, drvd) && Noted(f, finished, queue) && queue != [] && queue[0] == t && t in succs
    requires finished <= succs.Keys
    requires Edges(f', f) && Pushed(f', f, after) && Extends(after, queue[1..]) && Listed(f'.succs, after)
    ensures t in f'.succs && Noted(f', finished + {t}, after + f'.succs[t]) && Listed(f'.succs, after + f'.succs[t])
    ensures forall b :: b in queue[1..] ==> b in after + f'.succs[t]
  {
    SoundRelayed(f', bodies, succs, drvd);
    SoundBlock(f', bodies, succs, drvd, t);
    hide Sound;
    forall b | b in queue && b != t
      ensures b in after
    {
      InTail(queue, b);
    }
    forall x | x in f'.relays
      ensures f'.relays[x].1 in finished + {t} || f'.relays[x].1 in after + f'.succs[t]
    {
      assert GrewRelay(f', f, x);
    }
    forall q, b {:trigger Edge(f', q, b)} | q in finished + {t} && Edge(f', q, b) && b !in f'.relays
      ensures b in finished + {t} || b in after + f'.succs[t]
    {
      if q != t {
        assert GrewEdge(f', f, q, b) && GrewRelay(f', f, b);
        assert Edge(f, q, b);
      }
    }
  }

  /** The finished blocks and the relays behind them. */
  ghost function ReachedFrom(f: Fn, finished: set<Block>): set<Block> {
    finished + set x | x in f.relays && f.relays[x].0 in finished
  }

  lemma RelayFrom(f: Fn, bodies: Bodies, succs: Targets, drvd: RegSets, q: Block, b: Block)
    requires Relayed(f, bodies, succs, drvd) && Edge(f, q, b)
    ensures b in f.relays ==> f.relays[b].0 == q
    ensures q in f.relays ==> b == f.relays[q].1
  {
    assert b in f.preds && q in f.preds[b];
  }

  lemma WalkDone(f: Fn, bodies: Bodies, succs: Targets, drvd: RegSets, passed: RegSets, entry: Block,
                 finished: set<Block>)
    requires Sound(f, bodies, succs, drvd) && Filled(f, {}) && AllDone(f, bodies, passed, succs, finished)
    requires Noted(f, finished, [])
    requires finished <= succs.Keys && entry in finished
    ensures Complete(f, bodies, ReachedFrom(f, finished)) && ClosedFrom(f, entry, ReachedFrom(f, finished))
    ensures StoresDone(f, bodies, passed, succs, ReachedFrom(f, finished))
  {
    hide Sound, PhisSound, PhiFull, DerivedHavePhis, ReadsResolved, StoresMade, Relayed;
    SoundPhis(f, bodies, succs, drvd);
    SoundRelayed(f, bodies, succs, drvd);
    var reached := ReachedFrom(f, finished);
    forall b | b in reached && b !in f.relays
      ensures DoneAt(f, bodies, passed, succs, b)
    {
    }
    forall q, b {:trigger Edge(f, q, b)} | q in reached && Edge(f, q, b)
      ensures b in reached
    {
      RelayFrom(f, bodies, succs, drvd, q, b);
    }
  }

  /** What a finished walk means for the values of a function without calls. */
  lemma PromotedMeans(f: Fn, bodies: Bodies, succs: Targets, drvd: RegSets, passed: RegSets, entry: Block,
                      reached: set<Block>)
    requires Relayed(f, bodies, succs, drvd) && Complete(f, bodies, reached) && ClosedFrom(f, entry, reached)
    requires StoresDone(f, bodies, passed, succs, reached) && PassedDerived(passed, drvd) && entry in succs
    requires CallFree(bodies)
    ensures Right(f, bodies, entry) <==> Safe(bodies, succs, drvd, entry)
    ensures DerivesNothing(drvd, entry) ==>
              && (Reads(f, bodies, entry) <==> ReadsFed(bodies, succs, drvd, entry))
              && (KeepsReads(f, bodies, succs, entry) <==> ReadsFed(bodies, succs, drvd, entry))
    ensures DerivesNothing(drvd, entry) ==> forall r: EcvReg :: r.CheckPassedReturnRegs() ==>
              (Returns(f, bodies, succs, entry, r) <==> Kept(bodies, succs, drvd, entry, r))
    ensures forall r: EcvReg :: r.CheckPassedReturnRegs() ==>
              (KeepsReturned(f, bodies, succs, entry, r) <==> Returns(f, bodies, succs, entry, r))
  {
    hide *;
    RightIffSafe(f, bodies, succs, drvd, entry, reached);
    forall r: EcvReg | r.CheckPassedReturnRegs()
      ensures KeepsReturned(f, bodies, succs, entry, r) <==> Returns(f, bodies, succs, entry, r)
    {
      KeepsIffReturns(f, bodies, succs, drvd, entry, reached, passed, r);
    }
    if DerivesNothing(drvd, entry) {
      ReadsIffFed(f, bodies, succs, drvd, entry, reached);
      forall r: EcvReg | r.CheckPassedReturnRegs()
        ensures Returns(f, bodies, succs, entry, r) <==> Kept(bodies, succs, drvd, entry, r)
      {
        ReturnsIffKept(f, bodies, succs, drvd, entry, reached, passed, r);
      }
    }
  }

  /** The blocks of a function, their predecessors and their derived registers. */
  ghost predicate WellFormed(succs: Targets, bbParents: map<Block, set<Block>>, drvd: RegSets) {
    && bbParents.Keys == succs.Keys && drvd.Keys == succs.Keys
    && (forall q, i :: q in succs && 0 <= i < |succs[q]| ==> succs[q][i] in succs)
    && (forall q, b :: b in bbParents ==> (q in bbParents[b] <==> q in succs && b in succs[q]))
  }

  /** `held` names for each block the registers of which its record has a value: all that it writes, and some that it
      reads. */
  ghost predicate HeldKnown(succs: Targets, bodies: Bodies, held: RegSets) {
    && (forall b :: b in succs ==> b in held)
    && (forall b, r :: b in succs && r in held[b] ==> Owns(bodies, b, r))
    && (forall b, r :: b in succs && Defines(bodies, b, r) ==> r in held[b])
  }

  function StartAvail(succs: Targets, held: RegSets): map<Block, map<EcvReg, Val>>
    requires forall b :: b in succs ==> b in held
  {
    map b | b in succs :: OwnVals(held[b], b)
  }

  function StartPhis(succs: Targets): Phis {
    map b | b in succs :: map[]
  }

  /** A function before promotion. */
  ghost function StartFn(succs: Targets, bbParents: map<Block, set<Block>>, drvd: RegSets, held: RegSets): Fn
    requires forall b :: b in succs ==> b in held
  {
    Fn(succs, bbParents, drvd, StartPhis(succs), StartAvail(succs, held), map[], map[], map[])
  }

  lemma StartRelayed(succs: Targets, bbParents: map<Block, set<Block>>, drvd: RegSets, bodies: Bodies, held: RegSets)
    requires WellFormed(succs, bbParents, drvd) && HeldKnown(succs, bodies, held)
    ensures Relayed(StartFn(succs, bbParents, drvd, held), bodies, succs, drvd)
  {
    hide StartPhis, StartAvail;
    var f := StartFn(succs, bbParents, drvd, held);
    forall q, b {:trigger Edge(f, q, b)}
      ensures Edge(f, q, b) <==> b in bbParents && q in bbParents[b]
    {
    }
  }

  lemma StartAt(succs: Targets, bbParents: map<Block, set<Block>>, drvd: RegSets, bodies: Bodies, held: RegSets,
                b: Block, r: EcvReg)
    requires bbParents.Keys == succs.Keys && drvd.Keys == succs.Keys && HeldKnown(succs, bodies, held)
    ensures var f := StartFn(succs, bbParents, drvd, held);
            TablesAt(f, b) && ValuesAt(f, bodies, b, r) && !HasPhi(f, b, r) && f.relays == map[]
  {
    hide Own, Defines;
    var f := StartFn(succs, bbParents, drvd, held);
    assert HasAvail(f, b, r) ==> f.avail[b][r] == End(b, r);
  }

  lemma StartLoads(succs: Targets, bbParents: map<Block, set<Block>>, drvd: RegSets, bodies: Bodies, held: RegSets)
    requires HeldKnown(succs, bodies, held)
    ensures LoadsPlaced(StartFn(succs, bbParents, drvd, held), succs, drvd)
  {
  }

  lemma StartSound(succs: Targets, bbParents: map<Block, set<Block>>, drvd: RegSets, bodies: Bodies, held: RegSets)
    requires WellFormed(succs, bbParents, drvd) && HeldKnown(succs, bodies, held)
    ensures Sound(StartFn(succs, bbParents, drvd, held), bodies, succs, drvd)
    ensures Filled(StartFn(succs, bbParents, drvd, held), {})
  {
    StartRelayed(succs, bbParents, drvd, bodies, held);
    StartLoads(succs, bbParents, drvd, bodies, held);
    hide Relayed, StartFn, TablesAt, ValuesAt, PhiFull, LoadsPlaced;
    var f := StartFn(succs, bbParents, drvd, held);
    forall b, r
      ensures TablesAt(f, b) && ValuesAt(f, bodies, b, r) && !HasPhi(f, b, r)
    {
      StartAt(succs, bbParents, drvd, bodies, held, b, r);
    }
    forall b
      ensures TablesAt(f, b)
    {
      StartAt(succs, bbParents, drvd, bodies, held, b, EcvReg(General, 0));
    }
  }

  class Promotion {
    const bodies: Bodies
    const entry: Block
    const passed: RegSets  // the registers written before the bag of each block

    var succs: Targets
    var bbParents: map<Block, set<Block>>
    var drvd: RegSets
    var phis: Phis
    var avail: map<Block, map<EcvReg, Val>>
    var relays: map<Block, (Block, Block)>
    var sources: Sources
    var stores: Stores
    var queue: seq<Block>
    var nextBlock: Block

    ghost const succs0: Targets  // the function before the pass
    ghost const drvd0: RegSets

    constructor (succs: Targets, bbParents: map<Block, set<Block>>, drvd: RegSets, bodies: Bodies, entry: Block,
                 passed: RegSets, held: RegSets, nextBlock: Block)
      requires WellFormed(succs, bbParents, drvd) && HeldKnown(succs, bodies, held) && Unused(succs, bodies, nextBlock)
      ensures Valid() && Filled(Now(), {}) && this.relays == map[] && queue == []
      ensures this.bodies == bodies && this.entry == entry && this.passed == passed && succs0 == succs && drvd0 == drvd
    {
      this.bodies, this.entry, this.passed, this.nextBlock := bodies, entry, passed, nextBlock;
      this.succs, this.bbParents, this.drvd := succs, bbParents, drvd;
      phis, avail := StartPhis(succs), StartAvail(succs, held);
      relays, sources, stores, queue := map[], map[], map[], [];
      succs0, drvd0 := succs, drvd;
      new;
      StartSound(succs, bbParents, drvd, bodies, held);
    }

    ghost function Now(): (f: Fn)
      reads this
      ensures f.succs == succs && f.preds == bbParents && f.drvd == drvd && f.phis == phis && f.avail == avail
      ensures f.relays == relays && f.sources == sources && f.stores == stores
    {
      Fn(succs, bbParents, drvd, phis, avail, relays, sources, stores)
    }

    ghost predicate Valid()
      reads this
    {
      Sound(Now(), bodies, succs0, drvd0) && Unused(succs, bodies, nextBlock) && Listed(succs, queue)
    }

    /** The value of `r` at the end of `t`, for the phi of `r` in `req`: the value `t` has, else a new phi of `t`, else
        a load. If `t` has a successor that does not derive `r`, the load goes into a relay on the edge, which then is
        the predecessor that the value comes from. */
    method GetDrvdValue(t: Block, req: Block, r: EcvReg, ghost open: set<(Block, EcvReg)>) returns (v: Val, par: Block)
      requires Valid() && Filled(Now(), open)
      requires Edge(Now(), t, req) && Derives(Now(), req, r) && HasPhi(Now(), req, r) && !HasIncoming(Now(), req, r, t)
      requires req in relays ==> HasAvail(Now(), t, r) || Derives(Now(), t, r)
      modifies this
      ensures Valid() && Filled(Now(), open) && Served(Now(), old(Now()), r, req, queue, old(queue))
      ensures Asked(Now(), old(Now()), r, t, req, par) && HasAvail(Now(), par, r) && IsEnd(Now(), bodies, par, r, v)
      decreases |Free(Now())|, |Todo(Now())|, 0
    {
      hide Relayed, ValuesAt, IncomingAt, TablesAt, Free, Todo, IsEnd, Filled, Served, Asked, Sound, Framed, Grew,
           CanRelay, HasIncoming, PhiFull, WithPhi, WithLoad, WithRelay, Edge, Unused, Listed, LoadsPlaced, PhiEnd;
      ghost var f := Now();
      AskedNothing(f, bodies, succs0, drvd0, t, req, r);
      if r in avail[t] {
        v, par := avail[t][r], t;
        ServedNothing(f, r, req, queue);
      } else if r in drvd[t] {
        DerivedPhi(f, bodies, succs0, drvd0, t, req, r, open);
        AddPhi(t, r);
        ghost var f1 := Now();
        FillPhi(t, r, open);
        DerivedServes(Now(), f1, f, bodies, succs0, drvd0, t, req, r, queue, old(queue));
        v, par := PhiEnd(bodies, t, r), t;
      } else {
        v, par := LoadValue(t, req, r, open);
      }
    }

    /** The load for a register of which `t` has no value: in `t`, if all its successors derive the register, else in a
        relay. */
    method LoadValue(t: Block, req: Block, r: EcvReg, ghost open: set<(Block, EcvReg)>) returns (v: Val, par: Block)
      requires Valid() && Filled(Now(), open)
      requires Edge(Now(), t, req) && Derives(Now(), req, r) && HasPhi(Now(), req, r) && !HasIncoming(Now(), req, r, t)
      requires !HasAvail(Now(), t, r) && !Derives(Now(), t, r) && req !in relays
      modifies this
      ensures Valid() && Filled(Now(), open) && Served(Now(), old(Now()), r, req, queue, old(queue))
      ensures Asked(Now(), old(Now()), r, t, req, par) && HasAvail(Now(), par, r) && IsEnd(Now(), bodies, par, r, v)
    {
      hide Relayed, ValuesAt, IncomingAt, TablesAt, Free, Todo, IsEnd, Filled, Served, Asked, Sound, Framed, Grew,
           CanRelay, HasIncoming, PhiFull, WithPhi, WithLoad, WithRelay, Edge, Unused, Listed, LoadsPlaced;
      ghost var f := Now();
      AskedNothing(f, bodies, succs0, drvd0, t, req, r);
      SoundRelayed(f, bodies, succs0, drvd0);
      NoRelayYet(f, bodies, succs0, drvd0, t, req, r);
      TargetsDerived(f, bodies, succs0, drvd0, t);
      var needsRelay := NeedsRelay(t, r);
      if needsRelay {
        FreshRelay(f, bodies, succs0, drvd0, t, req, r, nextBlock);
        RelayServes(f, bodies, succs0, drvd0, t, req, nextBlock, r, open, queue);
        par := MakeRelay(t, req);
        v := avail[par][r];
      } else {
        LoadServes(f, bodies, succs0, drvd0, t, req, r, open, queue);
        AddLoad(t, r);
        v, par := Load(t, r), t;
      }
    }

    /** Some successor of `t` does not derive `r`. */
    method NeedsRelay(t: Block, r: EcvReg) returns (res: bool)
      requires t in succs && forall i :: 0 <= i < |succs[t]| ==> succs[t][i] in drvd
      ensures res <==> exists i :: 0 <= i < |succs[t]| && r !in drvd[succs[t][i]]
    {
      res := false;
      for i := 0 to |succs[t]|
        invariant res <==> exists j :: 0 <= j < i && r !in drvd[succs[t][j]]
      {
        res := res || r !in drvd[succs[t][i]];
      }
    }

    method AddPhi(t: Block, r: EcvReg)
      requires t in phis && t in avail
      modifies `phis, `avail
      ensures Now() == WithPhi(old(Now()), bodies, t, r)
    {
      phis := phis[t := phis[t][r := map[]]];
      if r !in avail[t] {
        avail := avail[t := avail[t][r := PhiEnd(bodies, t, r)]];
      }
    }

    method AddIncoming(b: Block, r: EcvReg, q: Block, v: Val)
      requires HasPhi(Now(), b, r)
      modifies `phis
      ensures Now() == WithIncoming(old(Now()), b, r, q, v)
    {
      phis := phis[b := phis[b][r := phis[b][r][q := v]]];
    }

    method AddLoad(t: Block, r: EcvReg)
      requires t in avail
      modifies `avail
      ensures Now() == WithLoad(old(Now()), t, r)
    {
      avail := avail[t := avail[t][r := Load(t, r)]];
    }

    /** Asks the predecessor `askd` of `b` for its value of `r`, which then comes from `par`. */
    method AskParent(b: Block, r: EcvReg, askd: Block, ghost fins: set<Block>,
                     ghost open: set<(Block, EcvReg)>) returns (par: Block)
      requires Valid() && Filled(Now(), open) && (b, r) in open && HasPhi(Now(), b, r)
      requires Edge(Now(), askd, b) && Derives(Now(), b, r) && !HasIncoming(Now(), b, r, askd)
      requires b in relays ==> HasAvail(Now(), askd, r) || Derives(Now(), askd, r)
      requires b in bbParents && phis[b][r].Keys == fins && fins <= bbParents[b] && askd in bbParents[b] - fins
      modifies this
      ensures Valid() && Filled(Now(), open) && Served(Now(), old(Now()), r, b, queue, old(queue))
      ensures HasPhi(Now(), b, r)
      ensures b in bbParents && phis[b][r].Keys == fins + {par} && fins + {par} <= bbParents[b]
      ensures |bbParents[b] - (fins + {par})| < |old(bbParents[b]) - fins|
      decreases |Free(Now())|, |Todo(Now())|, 1
    {
      hide Relayed, ValuesAt, IncomingAt, TablesAt, Free, Todo, IsEnd, Filled, Asked, Sound, Framed, HasIncoming,
           PhiFull, Served, WithIncoming, Edge, Grew, Unused, Listed, NoMore, HasAvail, Derives;
      ghost var f1, q1 := Now(), queue;
      var v;
      v, par := GetDrvdValue(askd, b, r, open);
      ghost var f2, q2 := Now(), queue;
      ParentTaken(f2, f1, bodies, succs0, drvd0, r, askd, b, par, v, fins, open, q2, q1);
      AddIncoming(b, r, par, v);
      assert Now() == WithIncoming(f2, b, r, par, v);
    }

    /** Asks every predecessor of `b` for its value of `r`. */
    method FillPhi(b: Block, r: EcvReg, ghost open: set<(Block, EcvReg)>)
      requires Valid() && Filled(Now(), open + {(b, r)}) && HasPhi(Now(), b, r) && phis[b][r] == map[]
      requires b in relays ==>
                 relays[b].0 in succs && (HasAvail(Now(), relays[b].0, r) || Derives(Now(), relays[b].0, r))
      modifies this
      ensures Valid() && Filled(Now(), open) && Served(Now(), old(Now()), r, b, queue, old(queue))
      ensures HasPhi(Now(), b, r)
      decreases |Free(Now())|, |Todo(Now())|, 2
    {
      hide Relayed, ValuesAt, IncomingAt, TablesAt, Free, Todo, IsEnd, Filled, Asked, Sound, Framed, HasIncoming,
           PhiFull, Served, WithIncoming, Edge, Grew, Unused, Listed, HasAvail, Derives;
      ghost var f := Now();
      PhiIsEnd(f, bodies, succs0, drvd0, b, r);
      SoundTables(f, bodies, succs0, drvd0, b);
      ServedNothing(f, r, b, queue);
      var fins: set<Block> := {};
      while bbParents[b] - fins != {}
        invariant Valid() && Filled(Now(), open + {(b, r)}) && Served(Now(), f, r, b, queue, old(queue))
        invariant HasPhi(Now(), b, r) && b in bbParents && phis[b][r].Keys == fins && fins <= bbParents[b]
        decreases |bbParents[b] - fins|
      {
        ghost var f1, q1 := Now(), queue;
        var askd :| askd in bbParents[b] - fins;
        ServedGrew(f1, f, r, b, q1, old(queue));
        MayAsk(f1, f, bodies, succs0, drvd0, b, r, askd);
        var par := AskParent(b, r, askd, fins, open + {(b, r)});
        ServedTrans(Now(), f1, f, r, b, queue, q1, old(queue));
        fins := fins + {par};
      }
      assert phis[b][r].Keys == bbParents[b];
      SoundRelayed(Now(), bodies, succs0, drvd0);
      PhiFilled(Now(), bodies, succs0, drvd0, b, r);
      PhiDone(Now(), b, r, open);
    }

    /** Gives `b` a phi for each of its derived registers. */
    method PlacePhis(b: Block)
      requires Valid() && Filled(Now(), {}) && b in succs && b !in relays && b in drvd
      modifies this
      ensures Valid() && Filled(Now(), {}) && Ran(Now(), old(Now()), queue, old(queue))
      ensures Placed(Now(), b, old(drvd)[b])
    {
      hide Relayed, ValuesAt, IncomingAt, TablesAt, Free, Todo, IsEnd, Filled, Sound, Framed, HasIncoming, PhiFull,
           Served, WithPhi, Edge, Grew, Unused, Listed, Ran, NoMore, Placed;
      ghost var f := Now();
      var regs := drvd[b];
      var todo := regs;
      RanNothing(f, b, queue);
      assert regs - todo == {};
      while todo != {}
        invariant Valid() && Filled(Now(), {}) && Ran(Now(), f, queue, old(queue)) && Placed(Now(), b, regs - todo)
        invariant todo <= regs
        decreases todo
      {
        var r :| r in todo;
        ghost var f1, q1 := Now(), queue;
        RanDerives(f1, f, bodies, succs0, drvd0, b, r, q1, old(queue));
        assert regs - (todo - {r}) == regs - todo + {r};
        if r !in phis[b] {
          PhiPlaced(f1, bodies, succs0, drvd0, b, r, {});
          AddPhi(b, r);
          ghost var f2 := Now();
          FillPhi(b, r, {});
          ServedRan(Now(), f2, f1, r, b, queue, q1);
          RanTrans(Now(), f1, f, queue, q1, old(queue));
          RanPlaced(Now(), f1, b, regs - todo, r, queue, q1);
        } else {
          RanNothing(f1, b, queue);
          RanPlaced(f1, f1, b, regs - todo, r, queue, queue);
        }
        todo := todo - {r};
      }
      assert regs - {} == regs;
    }

    /** What is stored before a call: the registers with a known value that the callee may take, then those of them that
        were written before the block. Each of these has a value. */
    static method StoreForCall(cur: map<EcvReg, Source>, pres: set<EcvReg>, kind: CallKind)
      returns (regs: map<EcvReg, Source>)
      requires forall r :: r in pres && kind.Stores(r) ==> r in cur
      ensures forall r :: r in regs <==>
                r in cur && r.number in if kind.Lifted? then {0, 1, 2, 3, 4, 5, 6, 7, 8, 32} else {0, 1, 2, 3, 4, 5, 8}
      ensures forall r :: r in regs ==> regs[r] == cur[r]
    {
      regs := map[];
      var todo := cur.Keys;
      while todo != {}
        invariant todo <= cur.Keys
        invariant forall r :: r in regs <==> r in cur.Keys - todo && kind.Stores(r)
        invariant forall r :: r in regs ==> regs[r] == cur[r]
        decreases todo
      {
        var r :| r in todo;
        if kind.Stores(r) {
          regs := regs[r := cur[r]];
        }
        todo := todo - {r};
      }
      regs := StorePreceding(cur, pres, kind, regs);
    }

    /** The registers of `pres` that have not been stored yet. */
    static method StorePreceding(cur: map<EcvReg, Source>, pres: set<EcvReg>, kind: CallKind,
                                 known: map<EcvReg, Source>)
      returns (regs: map<EcvReg, Source>)
      requires forall r :: r in pres && kind.Stores(r) ==> r in cur
      requires forall r :: r in known ==> r in cur && kind.Stores(r) && known[r] == cur[r]
      ensures forall r :: r in regs <==> r in known || (r in pres && kind.Stores(r))
      ensures forall r :: r in regs ==> r in cur && regs[r] == cur[r]
    {
      regs := known;
      var later := pres;
      while later != {}
        invariant later <= pres
        invariant forall r :: r in regs <==> r in known || (r in pres - later && kind.Stores(r))
        invariant forall r :: r in regs ==> r in cur && regs[r] == cur[r]
        decreases later
      {
        var r :| r in later;
        if kind.Stores(r) && r !in regs {
          regs := regs[r := cur[r]];
        }
        later := later - {r};
      }
    }

    /** Behind a call, the registers that the callee passes back are loaded again. */
    static method ReloadAfterCall(cur: map<EcvReg, Source>, kind: CallKind, i: nat) returns (cur': map<EcvReg, Source>)
      ensures forall r :: r in cur' <==> r in cur
      ensures forall r :: r in cur ==>
                cur'[r] == if r.number in if kind.Lifted? then {0, 1, 32} else {0} then Reloaded(i) else cur[r]
    {
      cur' := cur;
      var todo := cur.Keys;
      while todo != {}
        invariant todo <= cur.Keys && forall r :: r in cur' <==> r in cur
        invariant forall r :: r in cur ==> cur'[r] == if r !in todo && kind.Reloads(r) then Reloaded(i) else cur[r]
        decreases todo
      {
        var r :| r in todo;
        if kind.Reloads(r) {
          cur' := cur'[r := Reloaded(i)];
        }
        todo := todo - {r};
      }
    }

    /** Replaces the loads of the block by the values that are known there, and stores what its calls take. */
    method ResolveReads(b: Block) returns (cur: map<EcvReg, Source>, srcs: seq<Source>)
      requires b in phis && b in passed && PassedHavePhis(passed[b], phis[b].Keys)
      modifies `sources
      ensures sources == old(sources)[b := srcs] && ReadsResolved(Now(), bodies, b)
      ensures cur.Keys == phis[b].Keys + Own(Body(bodies, b))
    {
      hide Current, LastWrite, Resolved, Own, Spilled;
      var body := Body(bodies, b);
      var phiRegs := phis[b].Keys;
      cur := map r | r in phiRegs :: FromPhi;
      CurrentStart(body, phiRegs);
      srcs := [];
      for i := 0 to |body|
        invariant |srcs| == i && Current(body, phiRegs, i, cur) && sources == old(sources)
        invariant forall r :: r in phiRegs ==> r in cur
        invariant forall j :: 0 <= j < i && body[j].Read? ==> srcs[j] == Resolved(body, phiRegs, j)
        invariant forall j :: 0 <= j < i && body[j].Call? ==> srcs[j].Passes? && Spilled(body, phiRegs, j, srcs[j].regs)
      {
        if body[i].Call? {
          var regs := StoreForCall(cur, passed[b], body[i].kind);
          var cur' := ReloadAfterCall(cur, body[i].kind, i);
          CurrentCall(body, phiRegs, i, cur, cur', regs);
          cur := cur';
          srcs := srcs + [Passes(regs)];
        } else {
          CurrentAccess(body, phiRegs, i, cur);
          var r := body[i].reg;
          if body[i].Write? {
            cur := cur[r := Stored(i)];
          } else if r !in cur {
            cur := cur[r := Loaded];
          }
          assert cur == cur[r := cur[r]];
          srcs := srcs + [cur[r]];
        }
      }
      CurrentEnd(body, phiRegs, cur);
      sources := sources[b := srcs];
    }

    /** Notes the values that are known at the end of the block. */
    method NoteValues(b: Block, cur: map<EcvReg, Source>)
      requires b in avail && b in phis && cur.Keys == phis[b].Keys + Own(Body(bodies, b))
      requires forall r :: r in phis[b] ==> r in avail[b]
      modifies `avail
      ensures Now() == WithOwn(old(Now()), bodies, b)
    {
      hide Own;
      var vals := map r | r in cur.Keys && r !in avail[b] :: End(b, r);
      assert OwnVals(Own(Body(bodies, b)), b) + avail[b] == vals + avail[b];
      avail := avail[b := vals + avail[b]];
    }

    /** Before `b` returns, stores the returned registers and those of the passed registers that were written before
        `b`. Each of them has a value. */
    method StoreReturned(b: Block, cur: map<EcvReg, Source>) returns (out: map<EcvReg, Val>)
      requires b in passed && b in avail && (forall r :: r in cur ==> r in avail[b])
      requires forall r :: r in passed[b] && r.CheckPassedArgsRegs() ==> r in cur
      modifies `stores
      ensures stores == old(stores)[b := out]
      ensures forall r :: r in out <==>
                || (r.number in {0, 1, 32} && r in cur)
                || (r.number in {0, 1, 2, 3, 4, 5, 6, 7, 8, 32} && r in passed[b])
      ensures forall r :: r in out ==> r in cur && out[r] == avail[b][r]
    {
      out := map[];
      var todo := cur.Keys;
      while todo != {}
        invariant todo <= cur.Keys
        invariant forall r :: r in out <==> r in cur.Keys - todo && r.CheckPassedReturnRegs()
        invariant forall r :: r in out ==> out[r] == avail[b][r]
        decreases todo
      {
        var r :| r in todo;
        if r.CheckPassedReturnRegs() {
          out := out[r := avail[b][r]];
        }
        todo := todo - {r};
      }
      var later := passed[b];
      while later != {}
        invariant later <= passed[b]
        invariant forall r :: r in out <==>
                    || (r in cur && r.CheckPassedReturnRegs())
                    || (r in passed[b] - later && r.CheckPassedArgsRegs())
        invariant forall r :: r in out ==> r in cur && out[r] == avail[b][r]
        decreases later
      {
        var r :| r in later;
        if r.CheckPassedArgsRegs() && r !in out {
          out := out[r := avail[b][r]];
        }
        later := later - {r};
      }
      stores := stores[b := out];
    }

    /** Resolves the reads of the block and notes its values. */
    method ResolveBlock(b: Block) returns (cur: map<EcvReg, Source>, srcs: seq<Source>)
      requires Sound(Now(), bodies, succs0, drvd0) && b in succs0 && b in phis && b in avail && b in passed
      requires PassedHavePhis(passed[b], phis[b].Keys)
      modifies `sources, `avail
      ensures Now() == WithOwn(old(Now()), bodies, b).(sources := old(sources)[b := srcs])
      ensures ReadsResolved(Now(), bodies, b) && cur.Keys == phis[b].Keys + Own(Body(bodies, b))
    {
      hide Sound, ReadsResolved, Own, IsEnd, PassedHavePhis;
      ghost var f := Now();
      cur, srcs := ResolveReads(b);
      PhisAvail(f, bodies, succs0, drvd0, b);
      NoteValues(b, cur);
      ResolvedStill(Now(), f.(sources := sources), bodies, b);
    }

    /** Stores what the returning block `b` passes back. Its values are those of `f1`. */
    method StoreBlock(b: Block, cur: map<EcvReg, Source>, ghost f1: Fn)
      requires SameValues(Now(), f1) && Sound(f1, bodies, succs0, drvd0) && DerivedHavePhis(f1, b) && b in succs0
      requires b in f1.phis && b in passed && forall r :: r in Own(Body(bodies, b)) ==> HasAvail(f1, b, r)
      requires cur.Keys == f1.phis[b].Keys + Own(Body(bodies, b)) && PassedDerived(passed, drvd0)
      modifies `stores
      ensures SameValues(Now(), f1) && StoresMade(Now(), bodies, passed, b)
      ensures forall c :: c in old(stores) && c != b ==> c in stores && stores[c] == old(stores)[c]
    {
      hide Sound, StoresMade, Own, PassedDerived, IsEnd, DerivedHavePhis;
      CurrentValues(f1, bodies, succs0, drvd0, passed, b, cur);
      var out := StoreReturned(b, cur);
      StoresOfMade(Now(), f1, bodies, succs0, drvd0, passed, b, cur, out);
    }

    /** Phis, reads and stores of one block. */
    method PromoteBlock(b: Block, ghost finished: set<Block>)
      requires Valid() && Filled(Now(), {}) && b in succs0 && b !in relays && b !in finished
      requires AllDone(Now(), bodies, passed, succs0, finished) && PassedDerived(passed, drvd0)
      requires succs0.Keys <= passed.Keys
      modifies this
      ensures Valid() && Filled(Now(), {}) && AllDone(Now(), bodies, passed, succs0, finished + {b})
      ensures Pushed(Now(), old(Now()), queue) && Extends(queue, old(queue)) && Edges(Now(), old(Now()))
    {
      hide Relayed, ValuesAt, IncomingAt, TablesAt, Free, Todo, IsEnd, Filled, Sound, Edge, Grew, Unused, Listed, Ran,
           Placed, ReadsResolved, StoresMade, AllDone, Edges, Own, PassedDerived;
      ghost var f := Now();
      SoundBlock(f, bodies, succs0, drvd0, b);
      PlacePhis(b);
      ghost var f0 := Now();
      PhisOfBlock(f0, f, bodies, succs0, drvd0, b, queue, old(queue));
      PassedFound(f0, bodies, succs0, drvd0, passed, b);
      Refreshed(f0, f, bodies, succs0, drvd0, b, queue, old(queue));
      ghost var f1 := WithOwn(f0, bodies, b);
      DoneRan(f1, f, bodies, succs0, drvd0, passed, finished, queue, old(queue));
      PhisOfBlock(f1, f, bodies, succs0, drvd0, b, queue, old(queue));
      var cur, srcs := ResolveBlock(b);
      ghost var f2 := Now();
      if |succs[b]| == 0 {
        StoreBlock(b, cur, f1);
      }
      BlockDone(Now(), f2, f1, bodies, succs0, drvd0, passed, b, finished, srcs);
      EdgesTrans(Now(), f1, f);
    }

    /** Promotes every block that can be reached from the entry. Relays are left as they were made. */
    method OptimizeVirtualRegsUsage() returns (ghost reached: set<Block>)
      requires Valid() && Filled(Now(), {}) && relays == map[] && entry in succs0 && queue == []
      requires PassedDerived(passed, drvd0) && succs0.Keys <= passed.Keys
      modifies this
      ensures Relayed(Now(), bodies, succs0, drvd0) && Complete(Now(), bodies, reached)
      ensures ClosedFrom(Now(), entry, reached)
      ensures StoresDone(Now(), bodies, passed, succs0, reached) && LoadsPlaced(Now(), succs0, drvd0)
      ensures CallFree(bodies) ==> (Right(Now(), bodies, entry) <==> Safe(bodies, succs0, drvd0, entry))
      ensures CallFree(bodies) && DerivesNothing(drvd0, entry) ==>
                && (Reads(Now(), bodies, entry) <==> ReadsFed(bodies, succs0, drvd0, entry))
                && (KeepsReads(Now(), bodies, succs0, entry) <==> ReadsFed(bodies, succs0, drvd0, entry))
      ensures CallFree(bodies) && DerivesNothing(drvd0, entry) ==> forall r: EcvReg :: r.CheckPassedReturnRegs() ==>
                (Returns(Now(), bodies, succs0, entry, r) <==> Kept(bodies, succs0, drvd0, entry, r))
    {
      hide Relayed, ValuesAt, IncomingAt, TablesAt, Free, Todo, IsEnd, Filled, Sound, Edge, Grew, Unused, Listed, Ran,
           Placed, ReadsResolved, StoresMade, AllDone, Edges, Own, PassedDerived, Noted, Pushed, Extends, Safe, Right,
           Returns, Kept, Complete, ClosedFrom, StoresDone, CallFree, DerivesNothing, Reads, KeepsReads, ReadsFed,
           LoadsPlaced;
      var finished: set<Block> := {};
      queue := [entry];
      NotedStart(Now(), bodies, succs0, drvd0, passed, entry);
      while queue != []
        invariant Valid() && Filled(Now(), {}) && AllDone(Now(), bodies, passed, succs0, finished)
        invariant Noted(Now(), finished, queue) && finished <= succs0.Keys && (entry in finished || entry in queue)
        decreases |succs0.Keys - finished|, |queue|
      {
        var t := queue[0];
        ghost var f, q := Now(), queue;
        queue := queue[1..];
        ListedTail(f, bodies, succs0, drvd0, q, entry);
        if t in finished || t in relays {
          NotedSkip(f, bodies, succs0, drvd0, finished, q);
        } else {
          PromoteBlock(t, finished);
          NotedStep(Now(), f, bodies, succs0, drvd0, finished, q, queue, t);
          finished := finished + {t};
          queue := queue + succs[t];
        }
      }
      WalkDone(Now(), bodies, succs0, drvd0, passed, entry, finished);
      SoundLoads(Now(), bodies, succs0, drvd0);
      SoundRelayed(Now(), bodies, succs0, drvd0);
      reached := ReachedFrom(Now(), finished);
      if CallFree(bodies) {
        PromotedMeans(Now(), bodies, succs0, drvd0, passed, entry, reached);
      }
    }

    /** A new block on the edge from `t` to `req`. */
    method MakeRelay(t: Block, req: Block) returns (x: Block)
      requires CanRelay(Now(), bodies, t, req, nextBlock)
      modifies this
      ensures x == old(nextBlock) && nextBlock == old(nextBlock) + 1 && queue == old(queue) + [req]
      ensures Now() == WithRelay(old(Now()), t, req, x)
    {
      hide *;
      x := nextBlock;
      ghost var f := Now();
      CanRelayTables(f, bodies, t, req, x);
      nextBlock := nextBlock + 1;
      var redirected := Redirect(succs[t], req, x);
      var rerouted, made, vals := ReroutePhis(phis[req], t, x);
      var loaded := LoadNeeded(drvd[req], avail[t].Keys + drvd[t], vals, x);
      InstallRelay(t, req, x, redirected, rerouted, made, loaded);
      queue := queue + [req];
      InstalledRelay(f, bodies, t, req, x, redirected, rerouted, made, loaded);
    }

    /** `x` takes the place of the edge from `t` to `req`. */
    method InstallRelay(t: Block, req: Block, x: Block, redirected: seq<Block>, rerouted: PhiTable, made: PhiTable,
                        loaded: map<EcvReg, Val>)
      requires req in bbParents && req in drvd
      modifies `succs, `bbParents, `drvd, `relays, `phis, `avail
      ensures Now() == Installed(old(Now()), t, req, x, redirected, rerouted, made, loaded)
    {
      succs := succs[t := redirected][x := [req]];
      bbParents := bbParents[req := bbParents[req] - {t} + {x}][x := {t}];
      drvd := drvd[x := drvd[req]];
      relays := relays[x := (t, req)];
      phis := phis[req := rerouted][x := made];
      avail := avail[x := loaded];
    }

    static method Redirect(s: seq<Block>, req: Block, x: Block) returns (s': seq<Block>)
      ensures s' == Redirected(s, req, x)
    {
      s' := s;
      for i := 0 to |s|
        invariant |s'| == |s|
        invariant forall j :: 0 <= j < i ==> s'[j] == if s[j] == req then x else s[j]
        invariant forall j :: i <= j < |s| ==> s'[j] == s[j]
      {
        if s'[i] == req {
          s' := s'[i := x];
        }
      }
    }

    /** Each phi of the block that takes a value from `t` gets a phi of `x` to take it from. */
    static method ReroutePhis(m: PhiTable, t: Block,
                              x: Block) returns (m': PhiTable, made: PhiTable, vals: map<EcvReg, Val>)
      ensures m' == Rerouted(m, t, x) && made == RelayPhis(m, t) && vals == RelayVals(m, t, x)
    {
      hide Rerouted, ReroutedIn, RelayPhis, RelayVals;
      m', made, vals := m, map[], map[];
      var todo := m.Keys;
      ReroutedInNone(m, t, x);
      RelayPhisNone(m, t, x);
      assert m.Keys - todo == {};
      while todo != {}
        invariant todo <= m.Keys && m' == ReroutedIn(m, m.Keys - todo, t, x)
        invariant made == RelayPhis(m - todo, t) && vals == RelayVals(m - todo, t, x)
        decreases todo
      {
        var r :| r in todo;
        ReroutedInAdd(m, m.Keys - todo, t, x, r);
        RelayPhisAdd(m, todo, t, x, r);
        assert m.Keys - (todo - {r}) == m.Keys - todo + {r};
        if t in m'[r] {
          made := made[r := map[t := m'[r][t]]];
          vals := vals[r := Phi(x, r)];
          m' := m'[r := (m'[r] - {t})[x := Phi(x, r)]];
        }
        todo := todo - {r};
      }
      assert m - {} == m && m.Keys - {} == m.Keys;
      ReroutedInAll(m, t, x);
    }

    /** Loads of the needed registers that the block in front does not have. */
    static method LoadNeeded(need: set<EcvReg>, have: set<EcvReg>, vals: map<EcvReg, Val>,
                             x: Block) returns (res: map<EcvReg, Val>)
      ensures res == RelayLoads(need, have, x) + vals
    {
      res := vals;
      var todo := need;
      while todo != {}
        invariant todo <= need && res == RelayLoads(need - todo, have, x) + vals
        decreases todo
      {
        var r :| r in todo;
        if r !in have {
          if r !in res {
            res := res[r := Load(x, r)];
          }
        }
        todo := todo - {r};
      }
      assert need - {} == need;
    }
  }
}
