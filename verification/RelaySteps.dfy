/** A relay: a new block on the edge from `t` to `req` that loads what `req` derives and `t` does not have. */
module RelaySteps {
  import opened Registers
  import opened Graphs
  import opened Promoted
  import opened PromotionSteps

  type PhiTable = map<EcvReg, map<Block, Val>>

  /** The successors with every edge to `req` led to `x`. */
  function Redirected(s: seq<Block>, req: Block, x: Block): seq<Block> {
    seq(|s|, i requires 0 <= i < |s| => if s[i] == req then x else s[i])
  }

  /** The phis of a block with what came from `t` now coming from phis of `x`. */
  function Rerouted(m: PhiTable, t: Block, x: Block): PhiTable {
    map r | r in m :: if t in m[r] then (m[r] - {t})[x := Phi(x, r)] else m[r]
  }

  /** The same for the phis of `done` alone. */
  ghost function ReroutedIn(m: PhiTable, done: set<EcvReg>, t: Block, x: Block): PhiTable {
    map r | r in m :: if r in done && t in m[r] then (m[r] - {t})[x := Phi(x, r)] else m[r]
  }

  lemma ReroutedInNone(m: PhiTable, t: Block, x: Block)
    ensures ReroutedIn(m, {}, t, x) == m
  {
  }

  lemma ReroutedInAll(m: PhiTable, t: Block, x: Block)
    ensures ReroutedIn(m, m.Keys, t, x) == Rerouted(m, t, x)
  {
  }

  lemma ReroutedInAdd(m: PhiTable, done: set<EcvReg>, t: Block, x: Block, r: EcvReg)
    requires r in m && r !in done
    ensures var m0 := ReroutedIn(m, done, t, x);
            && r in m0 && m0[r] == m[r]
            && ReroutedIn(m, done + {r}, t, x) == if t in m[r] then m0[r := (m[r] - {t})[x := Phi(x, r)]] else m0
  {
  }

  /** The phis of the relay. */
  function RelayPhis(m: PhiTable, t: Block): PhiTable {
    map r | r in m && t in m[r] :: map[t := m[r][t]]
  }

  function RelayVals(m: PhiTable, t: Block, x: Block): map<EcvReg, Val> {
    map r | r in m && t in m[r] :: Phi(x, r)
  }

  lemma RelayPhisAdd(m: PhiTable, todo: set<EcvReg>, t: Block, x: Block, r: EcvReg)
    requires r in m && r in todo
    ensures var made, vals := RelayPhis(m - todo, t), RelayVals(m - todo, t, x);
            && RelayPhis(m - (todo - {r}), t) == (if t in m[r] then made[r := map[t := m[r][t]]] else made)
            && RelayVals(m - (todo - {r}), t, x) == (if t in m[r] then vals[r := Phi(x, r)] else vals)
  {
  }

  lemma RelayPhisNone(m: PhiTable, t: Block, x: Block)
    ensures RelayPhis(m - m.Keys, t) == map[] && RelayVals(m - m.Keys, t, x) == map[]
  {
  }

  function RelayLoads(need: set<EcvReg>, have: set<EcvReg>, x: Block): map<EcvReg, Val> {
    map r | r in need && r !in have :: Load(x, r)
  }

  ghost function WithRelay(f: Fn, t: Block, req: Block, x: Block): Fn
    requires t in f.succs && req in f.preds && req in f.phis && t in f.avail && t in f.drvd && req in f.drvd
  {
    f.(succs := f.succs[t := Redirected(f.succs[t], req, x)][x := [req]],
       preds := f.preds[req := f.preds[req] - {t} + {x}][x := {t}],
       drvd := f.drvd[x := f.drvd[req]],
       phis := f.phis[req := Rerouted(f.phis[req], t, x)][x := RelayPhis(f.phis[req], t)],
       avail := f.avail[x := RelayLoads(f.drvd[req], f.avail[t].Keys + f.drvd[t], x) + RelayVals(f.phis[req], t, x)],
       relays := f.relays[x := (t, req)])
  }

  /** A relay can be put on the edge from `t` to `req`. */
  ghost predicate CanRelay(f: Fn, bodies: Bodies, t: Block, req: Block, x: Block) {
    && t in f.succs && Edge(f, t, req) && t !in f.relays && req !in f.relays && req in f.succs && x !in f.succs &&
         x !in bodies
    && req in f.preds && req in f.phis && t in f.avail && t in f.drvd && req in f.drvd
  }

  lemma RedirectedHas(s: seq<Block>, req: Block, x: Block, b: Block)
    requires x !in s
    ensures b in Redirected(s, req, x) <==> (b == x && req in s) || (b != req && b in s)
  {
    var s' := Redirected(s, req, x);
    forall i | 0 <= i < |s| && s[i] == b
      ensures b != req ==> b in s'
      ensures b == req ==> x in s'
    {
      assert s'[i] == if b == req then x else b;
    }
    if x in s' {
      var i :| 0 <= i < |s'| && s'[i] == x;
      assert s[i] == req;
    }
    if req in s {
      var i :| 0 <= i < |s| && s[i] == req;
      assert s'[i] == x;
    }
  }

  lemma RelaySuccs(f: Fn, bodies: Bodies, t: Block, req: Block, x: Block, q: Block)
    requires CanRelay(f, bodies, t, req, x)
    ensures var f' := WithRelay(f, t, req, x);
            && (q in f'.succs <==> q in f.succs || q == x)
            && (q in f'.succs ==> f'.succs[q] == if q == x then [req] else if q == t then Redirected(f.succs[t], req, x)
                 else f.succs[q])
            && (q in f'.preds <==> q in f.preds || q == x)
            && (q in f'.preds ==> f'.preds[q] == if q == x then {t} else if q == req then f.preds[req] - {t} + {x}
                 else f.preds[q])
            && (q in f'.drvd <==> q in f.drvd || q == x)
            && (q in f'.drvd ==> f'.drvd[q] == f.drvd[if q == x then req else q])
            && (q in f'.relays <==> q in f.relays || q == x)
            && (q in f'.relays ==> f'.relays[q] == if q == x then (t, req) else f.relays[q])
  {
    hide Redirected, Edge;
  }

  lemma RelayEdges(f: Fn, bodies: Bodies, succs: Targets, drvd: RegSets, t: Block, req: Block, x: Block, q: Block,
                   b: Block)
    requires Relayed(f, bodies, succs, drvd) && CanRelay(f, bodies, t, req, x)
    ensures Edge(WithRelay(f, t, req, x), q, b) <==>
            (q == t && b == x) || (q == x && b == req) || (Edge(f, q, b) && !(q == t && b == req))
  {
    NotYet(f, bodies, succs, drvd, t, req, x, t);
    NotYet(f, bodies, succs, drvd, t, req, x, q);
    hide WithRelay, Redirected, Relayed;
    RelaySuccs(f, bodies, t, req, x, q);
    RedirectedHas(f.succs[t], req, x, b);
  }

  lemma NotYet(f: Fn, bodies: Bodies, succs: Targets, drvd: RegSets, t: Block, req: Block, x: Block, q: Block)
    requires Relayed(f, bodies, succs, drvd) && CanRelay(f, bodies, t, req, x)
    ensures !Edge(f, q, x) && !Edge(f, x, q) && x !in f.relays && x !in succs && (q in f.succs ==> x !in f.succs[q])
    ensures t in succs && req in succs
  {
  }

  lemma RelayPhiAt(f: Fn, bodies: Bodies, t: Block, req: Block, x: Block, b: Block, r: EcvReg)
    requires CanRelay(f, bodies, t, req, x)
    ensures HasPhi(WithRelay(f, t, req, x), b, r) <==> if b == x then HasIncoming(f, req, r, t) else HasPhi(f, b, r)
  {
  }

  lemma RelayIncomingAt(f: Fn, bodies: Bodies, t: Block, req: Block, x: Block, b: Block, r: EcvReg, q: Block)
    requires CanRelay(f, bodies, t, req, x)
    ensures var f' := WithRelay(f, t, req, x);
            && (HasIncoming(f', b, r, q) <==>
                 if b == x then q == t && HasIncoming(f, req, r, t)
                 else if b == req && HasIncoming(f, req, r, t) then q == x || (q != t && HasIncoming(f, b, r, q))
                 else HasIncoming(f, b, r, q))
            && (HasIncoming(f', b, r, q) ==>
                  f'.phis[b][r][q] == if b == x then f.phis[req][r][t]
                                      else if b == req && q == x && HasIncoming(f, req, r, t) then Phi(x, r)
                                      else f.phis[b][r][q])
  {
    var f' := WithRelay(f, t, req, x);
    if b == req {
      assert f'.phis[b] == Rerouted(f.phis[req], t, x);
    } else if b == x {
      assert f'.phis[b] == RelayPhis(f.phis[req], t);
    }
  }

  lemma RelayAvailAt(f: Fn, bodies: Bodies, t: Block, req: Block, x: Block, b: Block, r: EcvReg)
    requires CanRelay(f, bodies, t, req, x)
    ensures var f' := WithRelay(f, t, req, x);
            && (HasAvail(f', b, r) <==>
                 if b == x then HasIncoming(f, req, r, t) ||
                   (Derives(f, req, r) && !HasAvail(f, t, r) && !Derives(f, t, r))
                 else HasAvail(f, b, r))
            && (HasAvail(f', b, r) ==>
                  f'.avail[b][r] == if b != x then f.avail[b][r]
                                    else if HasIncoming(f, req, r, t) then Phi(x, r)
                                    else Load(x, r))
  {
  }

  lemma RelayDerives(f: Fn, bodies: Bodies, t: Block, req: Block, x: Block, b: Block, r: EcvReg)
    requires CanRelay(f, bodies, t, req, x)
    ensures Derives(WithRelay(f, t, req, x), b, r) <==> Derives(f, if b == x then req else b, r)
  {
  }

  // ---------------------------------------------------------------------------

  lemma RelayKept(f: Fn, bodies: Bodies, succs: Targets, drvd: RegSets, t: Block, req: Block, x: Block, q: Block)
    requires Relayed(f, bodies, succs, drvd) && CanRelay(f, bodies, t, req, x) && q in succs
    ensures var f' := WithRelay(f, t, req, x);
            q in f'.succs && q !in f'.relays && |f'.succs[q]| == |succs[q]| && q in drvd && q in f'.drvd &&
              f'.drvd[q] == drvd[q]
  {
    hide WithRelay;
    NotYet(f, bodies, succs, drvd, t, req, x, q);
    RelaySuccs(f, bodies, t, req, x, q);
  }

  lemma RelayTarget(f: Fn, bodies: Bodies, succs: Targets, drvd: RegSets, t: Block, req: Block, x: Block, q: Block,
                    i: nat)
    requires Relayed(f, bodies, succs, drvd) && CanRelay(f, bodies, t, req, x) && q in succs && i < |succs[q]|
    ensures var f' := WithRelay(f, t, req, x);
            && succs[q][i] in succs && q in f'.succs && i < |f'.succs[q]|
            && (f'.succs[q][i] == succs[q][i] ||
                 (f'.succs[q][i] in f'.relays && f'.relays[f'.succs[q][i]] == (q, succs[q][i])))
  {
    NotYet(f, bodies, succs, drvd, t, req, x, q);
    RelayKept(f, bodies, succs, drvd, t, req, x, q);
    assert f.succs[q][i] == succs[q][i] || (f.succs[q][i] in f.relays && f.relays[f.succs[q][i]] == (q, succs[q][i]));
    hide WithRelay;
    RelaySuccs(f, bodies, t, req, x, q);
    RelaySuccs(f, bodies, t, req, x, WithRelay(f, t, req, x).succs[q][i]);
  }

  lemma RelayRelays(f: Fn, bodies: Bodies, succs: Targets, drvd: RegSets, t: Block, req: Block, x: Block, y: Block)
    requires Relayed(f, bodies, succs, drvd) && CanRelay(f, bodies, t, req, x) && y in WithRelay(f, t, req, x).relays
    ensures var f' := WithRelay(f, t, req, x);
            && y !in succs && y !in bodies && y in f'.succs && f'.succs[y] == [f'.relays[y].1]
            && f'.relays[y].0 in succs && f'.relays[y].1 in succs
            && y in f'.drvd && f'.relays[y].1 in f'.drvd && f'.drvd[y] == f'.drvd[f'.relays[y].1]
            && y in f'.preds && f'.preds[y] == {f'.relays[y].0}
  {
    hide WithRelay;
    NotYet(f, bodies, succs, drvd, t, req, x, y);
    RelaySuccs(f, bodies, t, req, x, y);
    RelaySuccs(f, bodies, t, req, x, if y == x then req else f.relays[y].1);
  }

  lemma RelayPreds(f: Fn, bodies: Bodies, succs: Targets, drvd: RegSets, t: Block, req: Block, x: Block, q: Block,
                   b: Block)
    requires Relayed(f, bodies, succs, drvd) && CanRelay(f, bodies, t, req, x)
    ensures var f' := WithRelay(f, t, req, x);
            && (Edge(f', q, b) ==> b in f'.preds && q in f'.preds[b])
            && (b in f'.preds && q in f'.preds[b] ==> Edge(f', q, b) && b in f'.succs)
  {
    NotYet(f, bodies, succs, drvd, t, req, x, q);
    assert Edge(f, q, b) ==> b in f.preds && q in f.preds[b];
    assert b in f.preds && q in f.preds[b] ==> Edge(f, q, b) && b in f.succs;
    RelayEdges(f, bodies, succs, drvd, t, req, x, q, b);
    RelaySuccs(f, bodies, t, req, x, b);
    hide WithRelay, Relayed, Edge;
  }

  lemma RelayRelayed(f: Fn, bodies: Bodies, succs: Targets, drvd: RegSets, t: Block, req: Block, x: Block)
    requires Relayed(f, bodies, succs, drvd) && CanRelay(f, bodies, t, req, x)
    ensures Relayed(WithRelay(f, t, req, x), bodies, succs, drvd)
  {
    hide WithRelay, Edge, Relayed;
    RelayTargets(f, bodies, succs, drvd, t, req, x);
    RelayPredsAll(f, bodies, succs, drvd, t, req, x);
    RelayRelaysAll(f, bodies, succs, drvd, t, req, x);
    RelayedIntro(WithRelay(f, t, req, x), bodies, succs, drvd);
  }

  lemma RelayedIntro(f: Fn, bodies: Bodies, succs: Targets, drvd: RegSets)
    requires forall q :: q in succs ==>
               q in f.succs && q !in f.relays && |f.succs[q]| == |succs[q]| && q in drvd && q in f.drvd &&
                 f.drvd[q] == drvd[q]
    requires forall q, i :: q in succs && 0 <= i < |succs[q]| ==>
               && succs[q][i] in succs
               && (f.succs[q][i] == succs[q][i] ||
                    (f.succs[q][i] in f.relays && f.relays[f.succs[q][i]] == (q, succs[q][i])))
    requires forall y :: y in f.relays ==>
               && y !in succs && y !in bodies && y in f.succs && f.succs[y] == [f.relays[y].1]
               && f.relays[y].0 in succs && f.relays[y].1 in succs
               && y in f.drvd && f.drvd[y] == f.drvd[f.relays[y].1]
               && y in f.preds && f.preds[y] == {f.relays[y].0}
    requires forall q :: q in f.succs ==> q in succs || q in f.relays
    requires forall q, b {:trigger Edge(f, q, b)} :: Edge(f, q, b) ==> b in f.preds && q in f.preds[b]
    requires forall q, b :: b in f.preds && q in f.preds[b] ==> Edge(f, q, b) && b in f.succs
    ensures Relayed(f, bodies, succs, drvd)
  {
  }

  lemma RelayRelaysAll(f: Fn, bodies: Bodies, succs: Targets, drvd: RegSets, t: Block, req: Block, x: Block)
    requires Relayed(f, bodies, succs, drvd) && CanRelay(f, bodies, t, req, x)
    ensures var f' := WithRelay(f, t, req, x);
            && (forall y :: y in f'.relays ==>
                  && y !in succs && y !in bodies && y in f'.succs && f'.succs[y] == [f'.relays[y].1]
                  && f'.relays[y].0 in succs && f'.relays[y].1 in succs
                  && y in f'.drvd && f'.relays[y].1 in f'.drvd && f'.drvd[y] == f'.drvd[f'.relays[y].1]
                  && y in f'.preds && f'.preds[y] == {f'.relays[y].0})
            && (forall q :: q in f'.succs ==> q in succs || q in f'.relays)
  {
    hide WithRelay, Edge, Relayed;
    var f' := WithRelay(f, t, req, x);
    forall y | y in f'.relays
      ensures y !in succs && y !in bodies && y in f'.succs && f'.succs[y] == [f'.relays[y].1]
      ensures f'.relays[y].0 in succs && f'.relays[y].1 in succs
      ensures y in f'.drvd && f'.relays[y].1 in f'.drvd && f'.drvd[y] == f'.drvd[f'.relays[y].1]
      ensures y in f'.preds && f'.preds[y] == {f'.relays[y].0}
    {
      RelayRelays(f, bodies, succs, drvd, t, req, x, y);
    }
    forall q | q in f'.succs
      ensures q in succs || q in f'.relays
    {
      RelaySuccs(f, bodies, t, req, x, q);
      RelayBlocks(f, bodies, succs, drvd, q);
    }
  }

  lemma RelayBlocks(f: Fn, bodies: Bodies, succs: Targets, drvd: RegSets, q: Block)
    requires Relayed(f, bodies, succs, drvd)
    ensures q in f.succs <==> q in succs || q in f.relays
  {
  }

  lemma RelayTargets(f: Fn, bodies: Bodies, succs: Targets, drvd: RegSets, t: Block, req: Block, x: Block)
    requires Relayed(f, bodies, succs, drvd) && CanRelay(f, bodies, t, req, x)
    ensures var f' := WithRelay(f, t, req, x);
            && (forall q :: q in succs ==>
                  && q in f'.succs && q !in f'.relays && |f'.succs[q]| == |succs[q]|
                  && q in drvd && q in f'.drvd && f'.drvd[q] == drvd[q])
            && (forall q, i :: q in succs && 0 <= i < |succs[q]| ==>
                  && succs[q][i] in succs
                  && (f'.succs[q][i] == succs[q][i] ||
                       (f'.succs[q][i] in f'.relays && f'.relays[f'.succs[q][i]] == (q, succs[q][i]))))
  {
    hide WithRelay, Relayed, Edge;
    var f' := WithRelay(f, t, req, x);
    forall q | q in succs
      ensures q in f'.succs && q !in f'.relays && |f'.succs[q]| == |succs[q]| && q in drvd && q in f'.drvd
      ensures f'.drvd[q] == drvd[q]
    {
      RelayKept(f, bodies, succs, drvd, t, req, x, q);
    }
    forall q, i | q in succs && 0 <= i < |succs[q]|
      ensures succs[q][i] in succs
      ensures f'.succs[q][i] == succs[q][i] ||
                (f'.succs[q][i] in f'.relays && f'.relays[f'.succs[q][i]] == (q, succs[q][i]))
    {
      RelayTarget(f, bodies, succs, drvd, t, req, x, q, i);
    }
  }

  lemma RelayPredsAll(f: Fn, bodies: Bodies, succs: Targets, drvd: RegSets, t: Block, req: Block, x: Block)
    requires Relayed(f, bodies, succs, drvd) && CanRelay(f, bodies, t, req, x)
    ensures var f' := WithRelay(f, t, req, x);
            && (forall q, b {:trigger Edge(f', q, b)} :: Edge(f', q, b) ==> b in f'.preds && q in f'.preds[b])
            && (forall q, b :: b in f'.preds && q in f'.preds[b] ==> Edge(f', q, b) && b in f'.succs)
  {
    hide WithRelay, Relayed, Edge;
    var f' := WithRelay(f, t, req, x);
    forall q, b {:trigger Edge(f', q, b)} | Edge(f', q, b)
      ensures b in f'.preds && q in f'.preds[b]
    {
      RelayPreds(f, bodies, succs, drvd, t, req, x, q, b);
    }
    forall q, b | b in f'.preds && q in f'.preds[b]
      ensures Edge(f', q, b) && b in f'.succs
    {
      RelayPreds(f, bodies, succs, drvd, t, req, x, q, b);
    }
  }

  /** Values that could stand at the end of a block still can. */
  lemma RelayEnd(f: Fn, bodies: Bodies, t: Block, req: Block, x: Block, q: Block, r: EcvReg, v: Val)
    requires CanRelay(f, bodies, t, req, x) && q != x && Origin(f, q) != x
    ensures IsEnd(f, bodies, q, r, v) ==> IsEnd(WithRelay(f, t, req, x), bodies, q, r, v)
  {
    RelayPhiAt(f, bodies, t, req, x, q, r);
    RelayDerives(f, bodies, t, req, x, Origin(f, q), r);
  }

  lemma RelayValuesAt(f: Fn, bodies: Bodies, t: Block, req: Block, x: Block, b: Block, r: EcvReg)
    requires CanRelay(f, bodies, t, req, x) && b != x && Origin(f, b) != x
    requires ValuesAt(f, bodies, b, r)
    ensures ValuesAt(WithRelay(f, t, req, x), bodies, b, r)
  {
    hide IsEnd, WithRelay;
    RelaySuccs(f, bodies, t, req, x, b);
    RelayPhiAt(f, bodies, t, req, x, b, r);
    RelayAvailAt(f, bodies, t, req, x, b, r);
    RelayAvailAt(f, bodies, t, req, x, Origin(f, b), r);
    RelayDerives(f, bodies, t, req, x, b, r);
    RelayDerives(f, bodies, t, req, x, Origin(f, b), r);
    if HasAvail(f, b, r) {
      RelayEnd(f, bodies, t, req, x, b, r, f.avail[b][r]);
    }
  }

  lemma RelayNewValues(f: Fn, bodies: Bodies, t: Block, req: Block, x: Block, r: EcvReg)
    requires CanRelay(f, bodies, t, req, x) && ValuesAt(f, bodies, t, r) && ValuesAt(f, bodies, req, r)
    ensures ValuesAt(WithRelay(f, t, req, x), bodies, x, r)
  {
    hide WithRelay;
    RelaySuccs(f, bodies, t, req, x, x);
    RelayPhiAt(f, bodies, t, req, x, x, r);
    RelayAvailAt(f, bodies, t, req, x, x, r);
    RelayAvailAt(f, bodies, t, req, x, t, r);
    RelayDerives(f, bodies, t, req, x, x, r);
    RelayDerives(f, bodies, t, req, x, t, r);
    assert !Defines(bodies, x, r);
  }

  lemma RelayIncomingHolds(f: Fn, bodies: Bodies, succs: Targets, drvd: RegSets, t: Block, req: Block, x: Block,
                           b: Block, r: EcvReg, q: Block)
    requires Relayed(f, bodies, succs, drvd) && CanRelay(f, bodies, t, req, x)
    requires IncomingAt(f, bodies, b, r, q) && IncomingAt(f, bodies, req, r, t) && !HasPhi(f, x, r)
    requires (q in f.succs ==> Origin(f, q) != x)
    ensures IncomingAt(WithRelay(f, t, req, x), bodies, b, r, q)
  {
    NotYet(f, bodies, succs, drvd, t, req, x, q);
    NotYet(f, bodies, succs, drvd, t, req, x, b);
    var f' := WithRelay(f, t, req, x);
    RelayIncomingAt(f, bodies, t, req, x, b, r, q);
    if HasIncoming(f', b, r, q) {
      RelayEdges(f, bodies, succs, drvd, t, req, x, q, b);
      RelayAvailAt(f, bodies, t, req, x, q, r);
      hide WithRelay, Relayed;
      if b == req && q == x {
        RelayPhiAt(f, bodies, t, req, x, x, r);
        assert !Defines(bodies, x, r);
      } else {
        var b0, q0 := if b == x then req else b, if b == x then t else q;
        assert HasIncoming(f, b0, r, q0) && q0 != x;
        RelayEnd(f, bodies, t, req, x, q0, r, f.phis[b0][r][q0]);
      }
    }
  }

  lemma RelayFull(f: Fn, bodies: Bodies, succs: Targets, drvd: RegSets, t: Block, req: Block, x: Block,
                  open: set<(Block, EcvReg)>)
    requires Relayed(f, bodies, succs, drvd) && CanRelay(f, bodies, t, req, x) && Filled(f, open)
    requires forall b, r {:trigger HasPhi(f, b, r)} :: HasPhi(f, b, r) ==> b in f.succs
    ensures Filled(WithRelay(f, t, req, x), open)
  {
    hide WithRelay, Relayed, Edge;
    var f' := WithRelay(f, t, req, x);
    forall b: Block, r {:trigger PhiFull(f', b, r)} | HasPhi(f', b, r) && (b, r) !in open
      ensures PhiFull(f', b, r)
    {
      RelayPhiAt(f, bodies, t, req, x, b, r);
      assert b != x ==> PhiFull(f, b, r);
      forall q {:trigger HasIncoming(f', b, r, q)} {:trigger Edge(f', q, b)}
        ensures Edge(f', q, b) <==> HasIncoming(f', b, r, q)
      {
        RelayIncomingAt(f, bodies, t, req, x, b, r, q);
        RelayEdges(f, bodies, succs, drvd, t, req, x, q, b);
        NotYet(f, bodies, succs, drvd, t, req, x, q);
        assert b != x ==> (Edge(f, q, b) <==> HasIncoming(f, b, r, q));
        assert b == req ==> (Edge(f, t, b) <==> HasIncoming(f, b, r, t));
      }
    }
  }

  lemma RelayMeasure(f: Fn, bodies: Bodies, succs: Targets, drvd: RegSets, t: Block, req: Block, x: Block)
    requires Relayed(f, bodies, succs, drvd) && CanRelay(f, bodies, t, req, x)
    ensures NoMore(WithRelay(f, t, req, x), f)
  {
    hide WithRelay, Relayed;
    var f' := WithRelay(f, t, req, x);
    forall q: Block, b: Block
      ensures (q, b) in Free(f') <==> (q, b) in Free(f) - {(t, req)}
    {
      RelayEdges(f, bodies, succs, drvd, t, req, x, q, b);
      NotYet(f, bodies, succs, drvd, t, req, x, q);
      NotYet(f, bodies, succs, drvd, t, req, x, b);
      RelaySuccs(f, bodies, t, req, x, q);
      RelaySuccs(f, bodies, t, req, x, b);
      assert (q, b) in Free(f') <==> Edge(f', q, b) && q !in f'.relays && b !in f'.relays;
      assert (q, b) in Free(f) <==> Edge(f, q, b) && q !in f.relays && b !in f.relays;
    }
    assert Free(f') == Free(f) - {(t, req)};
    assert (t, req) in Free(f);
  }

  lemma RelayValuesAll(f: Fn, bodies: Bodies, succs: Targets, drvd: RegSets, t: Block, req: Block, x: Block, b: Block,
                       r: EcvReg)
    requires Sound(f, bodies, succs, drvd) && CanRelay(f, bodies, t, req, x)
    ensures var f' := WithRelay(f, t, req, x);
            ValuesAt(f', bodies, b, r) && GrewAt(f', f, b, r) && !HasPhi(f, x, r) && !HasAvail(f, x, r)
  {
    hide WithRelay, IsEnd;
    NotYet(f, bodies, succs, drvd, t, req, x, b);
    assert ValuesAt(f, bodies, b, r) && ValuesAt(f, bodies, t, r) && ValuesAt(f, bodies, req, r) &&
      ValuesAt(f, bodies, x, r);
    RelayPhiAt(f, bodies, t, req, x, b, r);
    RelayAvailAt(f, bodies, t, req, x, b, r);
    RelayDerives(f, bodies, t, req, x, b, r);
    RelaySuccs(f, bodies, t, req, x, b);
    if b == x {
      RelayNewValues(f, bodies, t, req, x, r);
    } else {
      assert Origin(f, b) != x;
      RelayValuesAt(f, bodies, t, req, x, b, r);
    }
  }

  lemma RelayTables(f: Fn, bodies: Bodies, t: Block, req: Block, x: Block, b: Block)
    requires CanRelay(f, bodies, t, req, x) && TablesAt(f, b)
    ensures TablesAt(WithRelay(f, t, req, x), b)
  {
  }

  lemma RelayGrew(f: Fn, bodies: Bodies, succs: Targets, drvd: RegSets, t: Block, req: Block, x: Block)
    requires Sound(f, bodies, succs, drvd) && CanRelay(f, bodies, t, req, x)
    ensures Grew(WithRelay(f, t, req, x), f)
  {
    var f' := WithRelay(f, t, req, x);
    assert f'.sources == f.sources && f'.stores == f.stores;
    hide WithRelay, GrewAt, ValuesAt, IncomingAt, TablesAt, Sound;
    assert Relayed(f, bodies, succs, drvd) by { SoundRelayed(f, bodies, succs, drvd); }
    forall b, r
      ensures GrewAt(f', f, b, r)
    {
      RelayValuesAll(f, bodies, succs, drvd, t, req, x, b, r);
    }
    forall y
      ensures GrewRelay(f', f, y)
    {
      NotYet(f, bodies, succs, drvd, t, req, x, y);
      RelaySuccs(f, bodies, t, req, x, y);
    }
    forall q, b
      ensures GrewEdge(f', f, q, b)
    {
      RelaySuccs(f, bodies, t, req, x, q);
      RelaySuccs(f, bodies, t, req, x, b);
      RelayEdges(f, bodies, succs, drvd, t, req, x, q, b);
    }
  }

  lemma SoundRelayed(f: Fn, bodies: Bodies, succs: Targets, drvd: RegSets)
    requires Sound(f, bodies, succs, drvd)
    ensures Relayed(f, bodies, succs, drvd)
  {
  }

  lemma RelayFrame(f: Fn, bodies: Bodies, succs: Targets, drvd: RegSets, t: Block, req: Block, x: Block, r: EcvReg)
    requires Sound(f, bodies, succs, drvd) && CanRelay(f, bodies, t, req, x)
    requires HasPhi(f, req, r) && !HasIncoming(f, req, r, t)
    ensures Framed(WithRelay(f, t, req, x), f, r, req) && Asked(WithRelay(f, t, req, x), f, r, t, req, x)
  {
    hide Sound, WithRelay, Edge, ValuesAt, GrewAt, SameAt, Asked, HasPhi, HasIncoming;
    var f' := WithRelay(f, t, req, x);
    RelayValuesAll(f, bodies, succs, drvd, t, req, x, req, r);
    forall b {:trigger SameAt(f', f, b)} | HasAvail(f, b, r) && b in f.phis && b in f.preds && b != req
      ensures SameAt(f', f, b)
    {
      RelaySame(f, bodies, t, req, x, b);
    }
    RelayAsked(f, bodies, t, req, x, r);
  }

  lemma RelaySame(f: Fn, bodies: Bodies, t: Block, req: Block, x: Block, b: Block)
    requires CanRelay(f, bodies, t, req, x) && b in f.phis && b in f.preds && b != req && b != x
    ensures SameAt(WithRelay(f, t, req, x), f, b)
  {
  }

  lemma RelayAsked(f: Fn, bodies: Bodies, t: Block, req: Block, x: Block, r: EcvReg)
    requires CanRelay(f, bodies, t, req, x) && HasPhi(f, req, r) && !HasIncoming(f, req, r, t)
    ensures Asked(WithRelay(f, t, req, x), f, r, t, req, x)
  {
  }

  lemma RelayPlaced(f: Fn, bodies: Bodies, succs: Targets, drvd: RegSets, t: Block, req: Block, x: Block)
    requires Relayed(f, bodies, succs, drvd) && CanRelay(f, bodies, t, req, x)
    requires LoadsPlaced(f, succs, drvd) && Splits(succs, drvd, t, req)
    ensures LoadsPlaced(WithRelay(f, t, req, x), succs, drvd)
  {
    hide Relayed, Splits, WithRelay, Edge;
    var f' := WithRelay(f, t, req, x);
    NotYet(f, bodies, succs, drvd, t, req, x, t);
    forall b, r
      ensures LoadFits(f', succs, drvd, b, r)
    {
      RelayOldAvail(f, bodies, t, req, x, b);
      assert LoadFits(f, succs, drvd, b, r);
    }
    forall y | y in f'.relays
      ensures Splits(succs, drvd, f'.relays[y].0, f'.relays[y].1)
    {
      RelaySuccs(f, bodies, t, req, x, y);
    }
  }

  lemma RelayOldAvail(f: Fn, bodies: Bodies, t: Block, req: Block, x: Block, b: Block)
    requires CanRelay(f, bodies, t, req, x)
    ensures var f' := WithRelay(f, t, req, x);
            b != x ==> (b in f'.avail <==> b in f.avail) && (b in f.avail ==> f'.avail[b] == f.avail[b])
  {
  }

  lemma WithRelaySound(f: Fn, bodies: Bodies, succs: Targets, drvd: RegSets, t: Block, req: Block, x: Block)
    requires Sound(f, bodies, succs, drvd) && CanRelay(f, bodies, t, req, x) && Splits(succs, drvd, t, req)
    ensures Sound(WithRelay(f, t, req, x), bodies, succs, drvd)
  {
    hide WithRelay, ValuesAt, IncomingAt, Relayed, TablesAt, HasPhi, HasAvail, GrewAt, Edge, LoadsPlaced, Splits;
    var f' := WithRelay(f, t, req, x);
    RelayPlaced(f, bodies, succs, drvd, t, req, x);
    RelayRelayed(f, bodies, succs, drvd, t, req, x);
    forall b
      ensures TablesAt(f', b)
    {
      RelayTables(f, bodies, t, req, x, b);
    }
    forall b, r
      ensures ValuesAt(f', bodies, b, r)
    {
      RelayValuesAll(f, bodies, succs, drvd, t, req, x, b, r);
    }
    forall b, r, q
      ensures IncomingAt(f', bodies, b, r, q)
    {
      assert IncomingAt(f, bodies, b, r, q) && IncomingAt(f, bodies, req, r, t);
      RelayValuesAll(f, bodies, succs, drvd, t, req, x, b, r);
      OriginOld(f, bodies, succs, drvd, t, req, x, q);
      RelayIncomingHolds(f, bodies, succs, drvd, t, req, x, b, r, q);
    }
  }

  lemma OriginOld(f: Fn, bodies: Bodies, succs: Targets, drvd: RegSets, t: Block, req: Block, x: Block, q: Block)
    requires Relayed(f, bodies, succs, drvd) && CanRelay(f, bodies, t, req, x)
    ensures q in f.succs ==> Origin(f, q) != x
  {
  }
}
