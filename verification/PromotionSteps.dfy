/** The single changes that promotion makes to a function, and what each of them keeps. */
module PromotionSteps {
  import opened Registers
  import opened Graphs
  import opened Promoted

  /** The block has a value for `r` that other blocks may use. */
  ghost predicate HasAvail(f: Fn, b: Block, r: EcvReg) {
    b in f.avail && r in f.avail[b]
  }

  ghost predicate TablesAt(f: Fn, b: Block) {
    b in f.succs ==> b in f.avail && b in f.phis && b in f.preds && b in f.drvd
  }

  /** A relay can have its derived register `r` without a load in front of it. */
  ghost predicate Fed(f: Fn, x: Block, r: EcvReg) {
    x in f.relays && Derives(f, x, r) ==>
      HasAvail(f, x, r) || HasAvail(f, f.relays[x].0, r) || Derives(f, f.relays[x].0, r)
  }

  /** The values of `b` for `r`: they may stand for `r` at its end, and there is one if `b` writes `r` or has a phi. */
  ghost predicate ValuesAt(f: Fn, bodies: Bodies, b: Block, r: EcvReg) {
    && (HasAvail(f, b, r) ==> b in f.succs && IsEnd(f, bodies, b, r, f.avail[b][r]))
    && (b in f.succs && Defines(bodies, b, r) ==> HasAvail(f, b, r))
    && (HasPhi(f, b, r) ==> HasAvail(f, b, r) && Derives(f, b, r))
    && Fed(f, b, r)
  }

  ghost predicate IncomingAt(f: Fn, bodies: Bodies, b: Block, r: EcvReg, q: Block) {
    HasIncoming(f, b, r, q) ==> Edge(f, q, b) && HasAvail(f, q, r) && IsEnd(f, bodies, q, r, f.phis[b][r][q])
  }

  /** An original block holds an added load only of a register that all its successors derive. */
  ghost predicate LoadFits(f: Fn, succs: Targets, drvd: RegSets, b: Block, r: EcvReg) {
    b in succs && HasAvail(f, b, r) && f.avail[b][r].Load? ==>
      forall i :: 0 <= i < |succs[b]| ==> succs[b][i] in drvd && r in drvd[succs[b][i]]
  }

  /** The target of the edge derives a register that its source does not, nor another successor of the source. */
  ghost predicate Splits(succs: Targets, drvd: RegSets, t: Block, req: Block) {
    && t in succs && t in drvd && req in drvd
    && exists r, i :: r in drvd[req] && r !in drvd[t] && Misses(succs, drvd, t, r, i)
  }

  ghost predicate Misses(succs: Targets, drvd: RegSets, t: Block, r: EcvReg, i: int)
    requires t in succs
  {
    0 <= i < |succs[t]| && succs[t][i] in drvd && r !in drvd[succs[t][i]]
  }

  /** Loads are added to the block itself where this is possible, and relays are made only where it is not. */
  ghost predicate LoadsPlaced(f: Fn, succs: Targets, drvd: RegSets) {
    && (forall b, r {:trigger LoadFits(f, succs, drvd, b, r)} :: LoadFits(f, succs, drvd, b, r))
    && forall x :: x in f.relays ==> Splits(succs, drvd, f.relays[x].0, f.relays[x].1)
  }

  /** Without new loads and relays they stay placed. */
  lemma LoadsStay(f': Fn, f: Fn, succs: Targets, drvd: RegSets)
    requires LoadsPlaced(f, succs, drvd) && f'.relays == f.relays
    requires forall b, r {:trigger HasAvail(f', b, r)} :: HasAvail(f', b, r) && f'.avail[b][r].Load? ==>
               HasAvail(f, b, r) && f.avail[b][r].Load?
    ensures LoadsPlaced(f', succs, drvd)
  {
    hide Splits;
    forall b, r
      ensures LoadFits(f', succs, drvd, b, r)
    {
      assert LoadFits(f, succs, drvd, b, r);
    }
  }

  ghost predicate Sound(f: Fn, bodies: Bodies, succs: Targets, drvd: RegSets) {
    && Relayed(f, bodies, succs, drvd) && LoadsPlaced(f, succs, drvd)
    && (forall b {:trigger TablesAt(f, b)} :: TablesAt(f, b))
    && (forall b, r {:trigger ValuesAt(f, bodies, b, r)} :: ValuesAt(f, bodies, b, r))
    && (forall b, r, q {:trigger IncomingAt(f, bodies, b, r, q)} :: IncomingAt(f, bodies, b, r, q))
  }

  /** All phis but those of `open` have a value for each predecessor. */
  ghost predicate Filled(f: Fn, open: set<(Block, EcvReg)>) {
    forall b: Block, r {:trigger PhiFull(f, b, r)} :: HasPhi(f, b, r) && (b, r) !in open ==> PhiFull(f, b, r)
  }

  lemma SoundTables(f: Fn, bodies: Bodies, succs: Targets, drvd: RegSets, b: Block)
    requires Sound(f, bodies, succs, drvd) && b in f.succs
    ensures b in f.avail && b in f.phis && b in f.preds && b in f.drvd
  {
    assert TablesAt(f, b);
  }

  lemma SoundLoads(f: Fn, bodies: Bodies, succs: Targets, drvd: RegSets)
    requires Sound(f, bodies, succs, drvd)
    ensures LoadsPlaced(f, succs, drvd)
  {
  }

  lemma SoundPhis(f: Fn, bodies: Bodies, succs: Targets, drvd: RegSets)
    requires Sound(f, bodies, succs, drvd)
    ensures PhisSound(f, bodies)
  {
    forall b, r {:trigger HasPhi(f, b, r)} | HasPhi(f, b, r)
      ensures Derives(f, b, r)
    {
      assert ValuesAt(f, bodies, b, r);
    }
    forall b, r, q {:trigger HasIncoming(f, b, r, q)} | HasIncoming(f, b, r, q)
      ensures IsEnd(f, bodies, q, r, f.phis[b][r][q])
    {
      assert IncomingAt(f, bodies, b, r, q);
    }
  }

  // ---------------------------------------------------------------------------
  // The measure: edges without a relay, and derived registers without a value

  ghost function Free(f: Fn): set<(Block, Block)> {
    set q, b | q in f.succs && b in f.succs[q] && q !in f.relays && b !in f.relays :: (q, b)
  }

  ghost function Todo(f: Fn): set<(Block, EcvReg)> {
    set b, r | b in f.drvd && r in f.drvd[b] && !HasAvail(f, b, r) :: (b, r)
  }

  ghost predicate NoMore(f': Fn, f: Fn) {
    |Free(f')| < |Free(f)| || (|Free(f')| == |Free(f)| && |Todo(f')| <= |Todo(f)|)
  }

  // ---------------------------------------------------------------------------
  // What a request for one register leaves alone

  ghost predicate GrewAt(f': Fn, f: Fn, b: Block, r: EcvReg) {
    && (b in f.succs ==> b in f'.succs && (Derives(f', b, r) <==> Derives(f, b, r)))
    && (HasAvail(f, b, r) ==> HasAvail(f', b, r))
    && (HasPhi(f, b, r) ==> HasPhi(f', b, r))
  }

  ghost predicate GrewRelay(f': Fn, f: Fn, x: Block) {
    && (x in f.relays ==> x in f'.relays && f'.relays[x] == f.relays[x])
    && (x in f'.relays && x in f.succs ==> x in f.relays)
  }

  ghost predicate GrewEdge(f': Fn, f: Fn, q: Block, b: Block) {
    Edge(f', q, b) && q !in f'.relays && b !in f'.relays ==> Edge(f, q, b)
  }

  /** `f'` has all that `f` has, and no edge between original blocks that `f` does not have. */
  ghost predicate Grew(f': Fn, f: Fn) {
    && (forall b, r {:trigger GrewAt(f', f, b, r)} :: GrewAt(f', f, b, r))
    && (forall x {:trigger GrewRelay(f', f, x)} :: GrewRelay(f', f, x))
    && (forall q, b {:trigger GrewEdge(f', f, q, b)} :: GrewEdge(f', f, q, b))
    && f'.sources == f.sources && f'.stores == f.stores
  }

  lemma GrewTrans(f2: Fn, f1: Fn, f0: Fn)
    requires Grew(f2, f1) && Grew(f1, f0)
    ensures Grew(f2, f0)
  {
    forall b, r
      ensures GrewAt(f2, f0, b, r)
    {
      assert GrewAt(f2, f1, b, r) && GrewAt(f1, f0, b, r);
    }
    forall x
      ensures GrewRelay(f2, f0, x)
    {
      assert GrewRelay(f2, f1, x) && GrewRelay(f1, f0, x);
      assert GrewAt(f1, f0, x, EcvReg(General, 0));
    }
    forall q, b
      ensures GrewEdge(f2, f0, q, b)
    {
      assert GrewEdge(f2, f1, q, b) && GrewEdge(f1, f0, q, b);
      assert GrewRelay(f2, f1, q) && GrewRelay(f2, f1, b);
    }
  }

  lemma GrewSelf(f: Fn)
    ensures Grew(f, f)
  {
  }

  ghost predicate SameAt(f': Fn, f: Fn, b: Block) {
    && b in f.phis && b in f'.phis && f'.phis[b] == f.phis[b]
    && b in f.preds && b in f'.preds && f'.preds[b] == f.preds[b]
  }

  /** Where `r` had a value, apart from `req`, phis and predecessors are as they were. */
  ghost predicate Framed(f': Fn, f: Fn, r: EcvReg, req: Block) {
    forall b {:trigger SameAt(f', f, b)} :: HasAvail(f, b, r) && b in f.phis && b in f.preds && b != req ==>
      SameAt(f', f, b)
  }

  lemma FramedTrans(f2: Fn, f1: Fn, f0: Fn, r: EcvReg, req: Block)
    requires Grew(f1, f0) && Framed(f2, f1, r, req) && Framed(f1, f0, r, req)
    ensures Framed(f2, f0, r, req)
  {
    forall b {:trigger SameAt(f2, f0, b)} | HasAvail(f0, b, r) && b in f0.phis && b in f0.preds && b != req
      ensures SameAt(f2, f0, b)
    {
      assert SameAt(f1, f0, b);
      assert GrewAt(f1, f0, b, r);
      assert SameAt(f2, f1, b);
    }
  }

  /** At the block that asked, `par` may have taken the place of the predecessor `t`, and the phi of `r` is as it
      was. */
  ghost predicate Asked(f': Fn, f: Fn, r: EcvReg, t: Block, req: Block, par: Block) {
    && req in f.preds && req in f'.preds && f'.preds[req] == f.preds[req] - {t} + {par}
    && HasPhi(f, req, r) && HasPhi(f', req, r) && f'.phis[req][r] == f.phis[req][r]
  }

  // ---------------------------------------------------------------------------
  // Changes that leave the blocks and edges alone

  ghost predicate SameShape(f': Fn, f: Fn) {
    && f'.succs == f.succs && f'.preds == f.preds && f'.drvd == f.drvd && f'.relays == f.relays
    && f'.sources == f.sources && f'.stores == f.stores
  }

  lemma SameRelayed(f': Fn, f: Fn, bodies: Bodies, succs: Targets, drvd: RegSets)
    requires SameShape(f', f) && Relayed(f, bodies, succs, drvd)
    ensures Relayed(f', bodies, succs, drvd)
  {
    assert forall q, c {:trigger Edge(f', q, c)} :: Edge(f', q, c) <==> Edge(f, q, c);
  }

  lemma SameGrew(f': Fn, f: Fn)
    requires SameShape(f', f)
    requires forall b, r {:trigger GrewAt(f', f, b, r)} :: GrewAt(f', f, b, r)
    ensures Grew(f', f) && Free(f') == Free(f)
  {
    assert Free(f') == Free(f);
  }

  lemma EndStays(f': Fn, f: Fn, bodies: Bodies, q: Block, r: EcvReg, v: Val)
    requires f'.drvd == f.drvd && f'.relays == f.relays && (HasPhi(f, q, r) ==> HasPhi(f', q, r))
    ensures IsEnd(f, bodies, q, r, v) ==> IsEnd(f', bodies, q, r, v)
  {
  }

  /** What a block with a phi for `r` passes on: the phi, unless a call of the block loads `r` again. The uses of the
      phi in other blocks are then replaced by this load when the block is promoted. */
  function PhiEnd(bodies: Bodies, b: Block, r: EcvReg): Val {
    if ReloadedBehind(Body(bodies, b), r) then End(b, r) else Phi(b, r)
  }

  function ReloadedBehind(body: seq<Instr>, r: EcvReg): (reloaded: bool)
    ensures reloaded <==> exists i :: 0 <= i < |body| && body[i].Call? && body[i].kind.Reloads(r)
  {
    exists i | 0 <= i < |body| :: body[i].Call? && body[i].kind.Reloads(r)
  }

  lemma PhiEndStands(f: Fn, bodies: Bodies, b: Block, r: EcvReg)
    requires HasPhi(f, b, r) && !Defines(bodies, b, r)
    ensures IsEnd(f, bodies, b, r, PhiEnd(bodies, b, r))
  {
    var body := Body(bodies, b);
    if ReloadedBehind(body, r) {
      var i :| 0 <= i < |body| && body[i].Call? && body[i].kind.Reloads(r);
      assert ReloadedLast(body, i, r);
    }
  }

  ghost function WithPhi(f: Fn, bodies: Bodies, b: Block, r: EcvReg): Fn
    requires b in f.phis && b in f.avail
  {
    f.(phis := f.phis[b := f.phis[b][r := map[]]],
       avail := f.avail[b := if r in f.avail[b] then f.avail[b] else f.avail[b][r := PhiEnd(bodies, b, r)]])
  }

  lemma WithPhiAt(f: Fn, bodies: Bodies, b: Block, r: EcvReg, c: Block, s: EcvReg)
    requires b in f.phis && b in f.avail && b in f.succs && Derives(f, b, r) && !HasPhi(f, b, r)
    requires ValuesAt(f, bodies, c, s) && ValuesAt(f, bodies, b, r)
    ensures ValuesAt(WithPhi(f, bodies, b, r), bodies, c, s) && GrewAt(WithPhi(f, bodies, b, r), f, c, s)
  {
    hide Defines, Reloads, PhiEnd;
    if !HasAvail(f, b, r) {
      PhiEndStands(WithPhi(f, bodies, b, r), bodies, b, r);
    }
  }

  lemma WithPhiIncomingAt(f: Fn, bodies: Bodies, b: Block, r: EcvReg, c: Block, s: EcvReg, q: Block)
    requires b in f.phis && b in f.avail && !HasPhi(f, b, r) && IncomingAt(f, bodies, c, s, q)
    ensures IncomingAt(WithPhi(f, bodies, b, r), bodies, c, s, q)
  {
    hide IsEnd;
    var f' := WithPhi(f, bodies, b, r);
    if HasIncoming(f', c, s, q) {
      EndStays(f', f, bodies, q, s, f.phis[c][s][q]);
    }
  }

  lemma WithPhiShape(f: Fn, bodies: Bodies, b: Block, r: EcvReg)
    requires b in f.phis && b in f.avail
    ensures var f' := WithPhi(f, bodies, b, r);
            SameShape(f', f) && Framed(f', f, r, b) && forall c :: TablesAt(f, c) ==> TablesAt(f', c)
  {
  }

  lemma WithPhiLoads(f: Fn, bodies: Bodies, succs: Targets, drvd: RegSets, b: Block, r: EcvReg)
    requires LoadsPlaced(f, succs, drvd) && b in f.phis && b in f.avail
    ensures LoadsPlaced(WithPhi(f, bodies, b, r), succs, drvd)
  {
    hide LoadsPlaced;
    LoadsStay(WithPhi(f, bodies, b, r), f, succs, drvd);
  }

  lemma WithPhiSound(f: Fn, bodies: Bodies, succs: Targets, drvd: RegSets, b: Block, r: EcvReg)
    requires Sound(f, bodies, succs, drvd) && b in f.succs && Derives(f, b, r) && !HasPhi(f, b, r)
    ensures b in f.phis && b in f.avail
    ensures var f' := WithPhi(f, bodies, b, r); Sound(f', bodies, succs, drvd) && Grew(f', f) && Framed(f', f, r, b)
  {
    SoundTables(f, bodies, succs, drvd, b);
    hide Relayed, ValuesAt, IncomingAt, TablesAt, GrewAt, Grew, Derives, HasPhi, WithPhi, Free, SameShape, Framed,
         LoadsPlaced;
    var f' := WithPhi(f, bodies, b, r);
    WithPhiShape(f, bodies, b, r);
    WithPhiLoads(f, bodies, succs, drvd, b, r);
    forall c, s
      ensures ValuesAt(f', bodies, c, s) && GrewAt(f', f, c, s)
    {
      assert ValuesAt(f, bodies, b, r);
      WithPhiAt(f, bodies, b, r, c, s);
    }
    forall c, s, q
      ensures IncomingAt(f', bodies, c, s, q)
    {
      WithPhiIncomingAt(f, bodies, b, r, c, s, q);
    }
    SameRelayed(f', f, bodies, succs, drvd);
    SameGrew(f', f);
  }

  lemma WithPhiFull(f: Fn, bodies: Bodies, b: Block, r: EcvReg, open: set<(Block, EcvReg)>)
    requires b in f.phis && b in f.avail && Filled(f, open)
    ensures Filled(WithPhi(f, bodies, b, r), open + {(b, r)})
  {
    var f' := WithPhi(f, bodies, b, r);
    forall c: Block, s {:trigger PhiFull(f', c, s)} | HasPhi(f', c, s) && (c, s) !in open + {(b, r)}
      ensures PhiFull(f', c, s)
    {
      assert PhiFull(f, c, s);
      assert forall q {:trigger HasIncoming(f', c, s, q)} :: HasIncoming(f', c, s, q) <==> HasIncoming(f, c, s, q);
      assert forall q {:trigger Edge(f', q, c)} :: Edge(f', q, c) <==> Edge(f, q, c);
    }
  }

  lemma WithPhiTodo(f: Fn, bodies: Bodies, b: Block, r: EcvReg)
    requires b in f.phis && b in f.avail && Derives(f, b, r)
    ensures Free(WithPhi(f, bodies, b, r)) == Free(f)
    ensures NoMore(WithPhi(f, bodies, b, r), f)
    ensures !HasAvail(f, b, r) ==> |Todo(WithPhi(f, bodies, b, r))| < |Todo(f)|
  {
    var f' := WithPhi(f, bodies, b, r);
    assert Free(f') == Free(f);
    forall c: Block, s
      ensures (c, s) in Todo(f') <==> (c, s) in Todo(f) - {(b, r)}
    {
      assert HasAvail(f', c, s) <==> HasAvail(f, c, s) || (c == b && s == r);
    }
    assert Todo(f') == Todo(f) - {(b, r)};
  }

  ghost function WithIncoming(f: Fn, b: Block, r: EcvReg, q: Block, v: Val): Fn
    requires HasPhi(f, b, r)
  {
    f.(phis := f.phis[b := f.phis[b][r := f.phis[b][r][q := v]]])
  }

  lemma WithIncomingAt(f: Fn, bodies: Bodies, b: Block, r: EcvReg, q: Block, v: Val, c: Block, s: EcvReg)
    requires HasPhi(f, b, r) && ValuesAt(f, bodies, c, s)
    ensures ValuesAt(WithIncoming(f, b, r, q, v), bodies, c, s) && GrewAt(WithIncoming(f, b, r, q, v), f, c, s)
  {
  }

  lemma WithIncomingIncomingAt(f: Fn, bodies: Bodies, b: Block, r: EcvReg, q: Block, v: Val, c: Block, s: EcvReg,
                               p: Block)
    requires HasPhi(f, b, r) && Edge(f, q, b) && HasAvail(f, q, r) && IsEnd(f, bodies, q, r, v)
    requires IncomingAt(f, bodies, c, s, p)
    ensures IncomingAt(WithIncoming(f, b, r, q, v), bodies, c, s, p)
  {
    hide IsEnd;
    var f' := WithIncoming(f, b, r, q, v);
    if HasIncoming(f', c, s, p) {
      EndStays(f', f, bodies, p, s, f'.phis[c][s][p]);
    }
  }

  lemma WithIncomingShape(f: Fn, b: Block, r: EcvReg, q: Block, v: Val)
    requires HasPhi(f, b, r)
    ensures var f' := WithIncoming(f, b, r, q, v);
            && SameShape(f', f) && Framed(f', f, r, b) && Todo(f') == Todo(f)
            && forall c :: TablesAt(f, c) ==> TablesAt(f', c)
  {
    var f' := WithIncoming(f, b, r, q, v);
    assert Todo(f') == Todo(f);
  }

  lemma WithIncomingLoads(f: Fn, succs: Targets, drvd: RegSets, b: Block, r: EcvReg, q: Block, v: Val)
    requires LoadsPlaced(f, succs, drvd) && HasPhi(f, b, r)
    ensures LoadsPlaced(WithIncoming(f, b, r, q, v), succs, drvd)
  {
    hide LoadsPlaced;
    LoadsStay(WithIncoming(f, b, r, q, v), f, succs, drvd);
  }

  lemma WithIncomingSound(f: Fn, bodies: Bodies, succs: Targets, drvd: RegSets, b: Block, r: EcvReg, q: Block, v: Val)
    requires Sound(f, bodies, succs, drvd) && HasPhi(f, b, r) && Edge(f, q, b) && HasAvail(f, q, r)
    requires IsEnd(f, bodies, q, r, v)
    ensures var f' := WithIncoming(f, b, r, q, v);
            Sound(f', bodies, succs, drvd) && Grew(f', f) && Framed(f', f, r, b) && NoMore(f', f)
  {
    hide Relayed, ValuesAt, IncomingAt, TablesAt, GrewAt, Grew, Derives, HasPhi, WithIncoming, Free, Todo, SameShape,
         Framed, IsEnd, Edge, LoadsPlaced;
    var f' := WithIncoming(f, b, r, q, v);
    WithIncomingShape(f, b, r, q, v);
    WithIncomingLoads(f, succs, drvd, b, r, q, v);
    forall c, s
      ensures ValuesAt(f', bodies, c, s) && GrewAt(f', f, c, s)
    {
      WithIncomingAt(f, bodies, b, r, q, v, c, s);
    }
    forall c, s, p
      ensures IncomingAt(f', bodies, c, s, p)
    {
      WithIncomingIncomingAt(f, bodies, b, r, q, v, c, s, p);
    }
    SameRelayed(f', f, bodies, succs, drvd);
    SameGrew(f', f);
  }

  lemma WithIncomingFull(f: Fn, b: Block, r: EcvReg, q: Block, v: Val, open: set<(Block, EcvReg)>)
    requires HasPhi(f, b, r) && Filled(f, open) && (b, r) in open
    ensures Filled(WithIncoming(f, b, r, q, v), open)
  {
    var f' := WithIncoming(f, b, r, q, v);
    forall c: Block, s {:trigger PhiFull(f', c, s)} | HasPhi(f', c, s) && (c, s) !in open
      ensures PhiFull(f', c, s)
    {
      assert PhiFull(f, c, s);
      assert forall p {:trigger HasIncoming(f', c, s, p)} :: HasIncoming(f', c, s, p) <==> HasIncoming(f, c, s, p);
      assert forall p {:trigger Edge(f', p, c)} :: Edge(f', p, c) <==> Edge(f, p, c);
    }
  }

  ghost function WithLoad(f: Fn, t: Block, r: EcvReg): Fn
    requires t in f.avail
  {
    f.(avail := f.avail[t := f.avail[t][r := Load(t, r)]])
  }

  lemma WithLoadAt(f: Fn, bodies: Bodies, t: Block, r: EcvReg, c: Block, s: EcvReg)
    requires t in f.avail && t in f.succs && t !in f.relays && !HasAvail(f, t, r) && !Derives(f, t, r)
    requires ValuesAt(f, bodies, c, s) && ValuesAt(f, bodies, t, r)
    ensures ValuesAt(WithLoad(f, t, r), bodies, c, s) && GrewAt(WithLoad(f, t, r), f, c, s)
  {
  }

  lemma WithLoadIncomingAt(f: Fn, bodies: Bodies, t: Block, r: EcvReg, c: Block, s: EcvReg, p: Block)
    requires t in f.avail && IncomingAt(f, bodies, c, s, p)
    ensures IncomingAt(WithLoad(f, t, r), bodies, c, s, p)
  {
  }

  lemma WithLoadShape(f: Fn, t: Block, r: EcvReg, req: Block)
    requires t in f.avail && !Derives(f, t, r)
    ensures var f' := WithLoad(f, t, r);
            && SameShape(f', f) && Framed(f', f, r, req) && Todo(f') == Todo(f) &&
                 (forall c :: TablesAt(f, c) ==> TablesAt(f', c))
            && (req in f.phis && req in f.preds ==> SameAt(f', f, req))
  {
    var f' := WithLoad(f, t, r);
    assert Todo(f') == Todo(f);
  }

  /** What the successors derive now they derive in the original function, relays aside. */
  lemma AllTargetsDerive(f: Fn, bodies: Bodies, succs: Targets, drvd: RegSets, t: Block, r: EcvReg)
    requires Relayed(f, bodies, succs, drvd) && t in f.succs && t !in f.relays
    ensures t in succs && |f.succs[t]| == |succs[t]|
    ensures forall i :: 0 <= i < |succs[t]| ==> succs[t][i] in drvd
    ensures forall i :: 0 <= i < |succs[t]| ==> (Derives(f, f.succs[t][i], r) <==> !Misses(succs, drvd, t, r, i))
    ensures (forall i :: 0 <= i < |f.succs[t]| ==> Derives(f, f.succs[t][i], r)) ==>
              forall i :: !Misses(succs, drvd, t, r, i)
  {
    forall i | 0 <= i < |succs[t]|
      ensures succs[t][i] in drvd
      ensures Derives(f, f.succs[t][i], r) <==> !Misses(succs, drvd, t, r, i)
    {
      assert succs[t][i] in succs;
    }
  }

  lemma WithLoadLoads(f: Fn, succs: Targets, drvd: RegSets, t: Block, r: EcvReg)
    requires LoadsPlaced(f, succs, drvd) && t in f.avail
    requires t in succs && forall i :: !Misses(succs, drvd, t, r, i)
    requires forall i :: 0 <= i < |succs[t]| ==> succs[t][i] in drvd
    ensures LoadsPlaced(WithLoad(f, t, r), succs, drvd)
  {
    hide Splits;
    forall b, s
      ensures LoadFits(WithLoad(f, t, r), succs, drvd, b, s)
    {
      assert LoadFits(f, succs, drvd, b, s);
      forall i | 0 <= i < |succs[t]|
        ensures r in drvd[succs[t][i]]
      {
        assert !Misses(succs, drvd, t, r, i);
      }
    }
  }

  lemma WithLoadSound(f: Fn, bodies: Bodies, succs: Targets, drvd: RegSets, t: Block, r: EcvReg, req: Block)
    requires Sound(f, bodies, succs, drvd) && t in f.succs && t !in f.relays && !HasAvail(f, t, r) && !Derives(f, t, r)
    requires forall i :: 0 <= i < |f.succs[t]| ==> Derives(f, f.succs[t][i], r)
    ensures t in f.avail
    ensures var f' := WithLoad(f, t, r);
            && Sound(f', bodies, succs, drvd) && Grew(f', f) && NoMore(f', f) && Framed(f', f, r, req)
            && (req in f.phis && req in f.preds ==> SameAt(f', f, req))
  {
    SoundTables(f, bodies, succs, drvd, t);
    hide Relayed, ValuesAt, IncomingAt, TablesAt, GrewAt, Grew, Derives, HasPhi, HasAvail, WithLoad, Free, Todo,
         SameShape, Framed, LoadsPlaced, Misses;
    var f' := WithLoad(f, t, r);
    WithLoadShape(f, t, r, req);
    AllTargetsDerive(f, bodies, succs, drvd, t, r);
    WithLoadLoads(f, succs, drvd, t, r);
    forall c, s
      ensures ValuesAt(f', bodies, c, s) && GrewAt(f', f, c, s)
    {
      assert ValuesAt(f, bodies, t, r);
      WithLoadAt(f, bodies, t, r, c, s);
    }
    forall c, s, p
      ensures IncomingAt(f', bodies, c, s, p)
    {
      WithLoadIncomingAt(f, bodies, t, r, c, s, p);
    }
    SameRelayed(f', f, bodies, succs, drvd);
    SameGrew(f', f);
  }

  lemma WithLoadFull(f: Fn, t: Block, r: EcvReg, open: set<(Block, EcvReg)>)
    requires t in f.avail && Filled(f, open)
    ensures Filled(WithLoad(f, t, r), open)
  {
    var f' := WithLoad(f, t, r);
    forall c: Block, s {:trigger PhiFull(f', c, s)} | HasPhi(f', c, s) && (c, s) !in open
      ensures PhiFull(f', c, s)
    {
      assert PhiFull(f, c, s);
      assert forall p {:trigger HasIncoming(f', c, s, p)} :: HasIncoming(f', c, s, p) <==> HasIncoming(f, c, s, p);
      assert forall p {:trigger Edge(f', p, c)} :: Edge(f', p, c) <==> Edge(f, p, c);
    }
  }

  // ---------------------------------------------------------------------------
  // A finished block has a value for every register that it accesses

  ghost function WithOwn(f: Fn, bodies: Bodies, b: Block): Fn
    requires b in f.avail
  {
    f.(avail := f.avail[b := OwnVals(Own(Body(bodies, b)), b) + f.avail[b]])
  }

  function OwnVals(regs: set<EcvReg>, b: Block): map<EcvReg, Val> {
    map r | r in regs :: End(b, r)
  }

  lemma WithOwnAt(f: Fn, bodies: Bodies, b: Block, c: Block, s: EcvReg)
    requires b in f.avail && b in f.succs && ValuesAt(f, bodies, c, s)
    ensures ValuesAt(WithOwn(f, bodies, b), bodies, c, s) && GrewAt(WithOwn(f, bodies, b), f, c, s)
  {
    hide Own, Writes, Reloads;
  }

  lemma WithOwnIncomingAt(f: Fn, bodies: Bodies, b: Block, c: Block, s: EcvReg, q: Block)
    requires b in f.avail && IncomingAt(f, bodies, c, s, q)
    ensures IncomingAt(WithOwn(f, bodies, b), bodies, c, s, q)
  {
  }

  lemma WithOwnShape(f: Fn, bodies: Bodies, b: Block)
    requires b in f.avail
    ensures var f' := WithOwn(f, bodies, b);
            && SameShape(f', f) && f'.phis == f.phis && (forall c :: TablesAt(f, c) ==> TablesAt(f', c))
            && forall r :: r in Own(Body(bodies, b)) ==> HasAvail(f', b, r)
  {
  }

  lemma WithOwnLoads(f: Fn, bodies: Bodies, succs: Targets, drvd: RegSets, b: Block)
    requires LoadsPlaced(f, succs, drvd) && b in f.avail
    ensures LoadsPlaced(WithOwn(f, bodies, b), succs, drvd)
  {
    hide LoadsPlaced, Own;
    LoadsStay(WithOwn(f, bodies, b), f, succs, drvd);
  }

  lemma WithOwnSound(f: Fn, bodies: Bodies, succs: Targets, drvd: RegSets, b: Block)
    requires Sound(f, bodies, succs, drvd) && b in f.succs
    ensures b in f.avail
    ensures var f' := WithOwn(f, bodies, b); Sound(f', bodies, succs, drvd) && Grew(f', f)
  {
    SoundTables(f, bodies, succs, drvd, b);
    hide Relayed, ValuesAt, IncomingAt, TablesAt, GrewAt, Grew, Derives, HasPhi, HasAvail, WithOwn, Free, SameShape,
         LoadsPlaced;
    var f' := WithOwn(f, bodies, b);
    WithOwnLoads(f, bodies, succs, drvd, b);
    WithOwnShape(f, bodies, b);
    forall c, s
      ensures ValuesAt(f', bodies, c, s) && GrewAt(f', f, c, s)
    {
      WithOwnAt(f, bodies, b, c, s);
    }
    forall c, s, q
      ensures IncomingAt(f', bodies, c, s, q)
    {
      WithOwnIncomingAt(f, bodies, b, c, s, q);
    }
    SameRelayed(f', f, bodies, succs, drvd);
    SameGrew(f', f);
  }

  lemma WithOwnFull(f: Fn, bodies: Bodies, b: Block, open: set<(Block, EcvReg)>)
    requires b in f.avail && Filled(f, open)
    ensures Filled(WithOwn(f, bodies, b), open)
  {
    var f' := WithOwn(f, bodies, b);
    forall c: Block, s {:trigger PhiFull(f', c, s)} | HasPhi(f', c, s) && (c, s) !in open
      ensures PhiFull(f', c, s)
    {
      assert PhiFull(f, c, s);
      assert forall p {:trigger HasIncoming(f', c, s, p)} :: HasIncoming(f', c, s, p) <==> HasIncoming(f, c, s, p);
      assert forall p {:trigger Edge(f', p, c)} :: Edge(f', p, c) <==> Edge(f, p, c);
    }
  }
}
