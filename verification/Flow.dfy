/** Functions as blocks of instructions, and the joining of a block with the only block that it leads to. */
module Flows {
  import opened Registers
  import opened Graphs
  import opened Promoted
  import opened RegInfos

  /** The blocks of a function: where each leads, where it is entered from, its instructions and its record. */
  datatype Flow = Flow(succs: Targets, preds: map<Block, set<Block>>, bodies: Bodies, infos: map<Block, Info>)

  ghost predicate LeadsTo(f: Flow, q: Block, b: Block) {
    q in f.succs && b in f.succs[q]
  }

  ghost predicate ComesFrom(f: Flow, b: Block, q: Block) {
    b in f.preds && q in f.preds[b]
  }

  /** Every block has its tables, and the predecessors are the blocks that lead to it. */
  ghost predicate TruePreds(f: Flow) {
    && f.preds.Keys == f.succs.Keys
    && (forall q, b {:trigger LeadsTo(f, q, b)} {:trigger ComesFrom(f, b, q)} :: LeadsTo(f, q, b) <==>
         ComesFrom(f, b, q))
  }

  /** The record of a block says what its instructions read first and write. It has a value of every register that is
      written, and may have values of registers that are read: a register that is only the base of an address or is
      shifted has none. */
  ghost predicate Records(body: seq<Instr>, info: Info) {
    forall r {:trigger r in info.ld} {:trigger r in info.str} {:trigger r in info.held} ::
      && (r in info.ld <==> ReadsFirst(body, r))
      && (r in info.str <==> Writes(body, r))
      && (r in info.held ==> r in Own(body)) && (r in info.str ==> r in info.held)
  }

  ghost predicate RecordsAt(f: Flow, b: Block) {
    b in f.succs ==> b in f.bodies && b in f.infos && Records(f.bodies[b], f.infos[b])
  }

  ghost predicate WellKept(f: Flow) {
    TruePreds(f) && forall b {:trigger RecordsAt(f, b)} :: RecordsAt(f, b)
  }

  /** `t` leads to `j` alone, and `j` is entered from `t` alone. */
  ghost predicate OnlyLinks(f: Flow, t: Block, j: Block) {
    t in f.succs && f.succs[t] == [j] && j in f.preds && f.preds[j] == {t}
  }

  ghost function Join(f: Flow, t: Block, j: Block): Flow
    requires t in f.bodies && j in f.bodies && t in f.infos && j in f.infos && j in f.succs
  {
    Flow((f.succs - {j})[t := f.succs[j]],
         Repointed(f.preds - {j}, f.succs[j], j, t),
         (f.bodies - {j})[t := f.bodies[t] + f.bodies[j]],
         (f.infos - {j})[t := Joined(f.infos[t], f.infos[j])])
  }

  /** The predecessors once `t` has taken the place of `j` in front of `targets`. */
  function Repointed(preds: map<Block, set<Block>>, targets: seq<Block>, j: Block, t: Block): map<Block, set<Block>> {
    map b | b in preds :: if b in targets then preds[b] - {j} + {t} else preds[b]
  }

  lemma JoinEdges(f: Flow, t: Block, j: Block, q: Block, b: Block)
    requires WellKept(f) && OnlyLinks(f, t, j) && t != j
    ensures t in f.bodies && j in f.bodies && t in f.infos && j in f.infos && j in f.succs
    ensures LeadsTo(Join(f, t, j), q, b) <==>
              q != j && b != j && (if q == t then LeadsTo(f, j, b) else LeadsTo(f, q, b))
    ensures ComesFrom(Join(f, t, j), b, q) <==>
              q != j && b != j && (if q == t then LeadsTo(f, j, b) else LeadsTo(f, q, b))
  {
    assert RecordsAt(f, t) && RecordsAt(f, j);
    assert ComesFrom(f, j, q) ==> q == t;
    assert LeadsTo(f, q, j) ==> q == t;
    assert LeadsTo(f, t, b) <==> b == j;
    assert LeadsTo(f, j, b) <==> ComesFrom(f, b, j);
    assert LeadsTo(f, q, b) <==> ComesFrom(f, b, q);
  }

  lemma JoinKept(f: Flow, t: Block, j: Block)
    requires WellKept(f) && OnlyLinks(f, t, j) && t != j
    ensures t in f.bodies && j in f.bodies && t in f.infos && j in f.infos && j in f.succs
    ensures WellKept(Join(f, t, j)) && Join(f, t, j).succs.Keys == f.succs.Keys - {j}
  {
    JoinEdges(f, t, j, t, j);
    var f' := Join(f, t, j);
    forall q, b {:trigger LeadsTo(f', q, b)}
      ensures LeadsTo(f', q, b) <==> ComesFrom(f', b, q)
    {
      JoinEdges(f, t, j, q, b);
    }
    forall b
      ensures RecordsAt(f', b)
    {
      assert RecordsAt(f, b) && RecordsAt(f, t) && RecordsAt(f, j);
      if b == t {
        JoinRecords(f.bodies[t], f.infos[t], f.bodies[j], f.infos[j]);
      }
    }
  }

  // ---------------------------------------------------------------------------
  // Records of joined blocks

  lemma {:induction false} LastWriteConcat(a: seq<Instr>, b: seq<Instr>, n: nat, r: EcvReg)
    requires n <= |b|
    ensures LastWrite(a + b, |a| + n, r) ==
            if LastWrite(b, n, r) >= 0 then |a| + LastWrite(b, n, r) else LastWrite(a, |a|, r)
  {
    if n == 0 {
      LastWritePrefix(a, b, |a|, r);
    } else {
      assert (a + b)[|a| + n - 1] == b[n - 1];
      LastWriteConcat(a, b, n - 1, r);
    }
  }

  lemma {:induction false} LastWritePrefix(a: seq<Instr>, b: seq<Instr>, n: nat, r: EcvReg)
    requires n <= |a|
    ensures LastWrite(a + b, n, r) == LastWrite(a, n, r)
  {
    if n > 0 {
      assert (a + b)[n - 1] == a[n - 1];
      LastWritePrefix(a, b, n - 1, r);
    }
  }

  /** The joined record is that of the joined instructions. */
  lemma JoinRecords(a: seq<Instr>, x: Info, b: seq<Instr>, y: Info)
    requires Records(a, x) && Records(b, y)
    ensures Records(a + b, Joined(x, y))
  {
    var z := Joined(x, y);
    forall r {:trigger r in z.ld} {:trigger r in z.str} {:trigger r in z.held}
      ensures r in z.ld <==> ReadsFirst(a + b, r)
      ensures r in z.str <==> Writes(a + b, r)
      ensures r in z.held ==> r in Own(a + b)
      ensures r in z.str ==> r in z.held
    {
      JoinedLdAt(x, y, r);
      JoinedHeldAt(x, y, r);
      assert (r in x.ld <==> ReadsFirst(a, r)) && (r in x.str <==> Writes(a, r)) && (r in x.held ==> r in Own(a)) &&
        (r in x.str ==> r in x.held);
      assert (r in y.ld <==> ReadsFirst(b, r)) && (r in y.str <==> Writes(b, r)) && (r in y.held ==> r in Own(b)) &&
        (r in y.str ==> r in y.held);
      WritesConcat(a, b, r);
      ReadsConcat(a, b, r);
      OwnConcat(a, b, r);
    }
  }

  lemma WritesConcat(a: seq<Instr>, b: seq<Instr>, r: EcvReg)
    ensures Writes(a + b, r) <==> Writes(a, r) || Writes(b, r)
  {
    LastWriteConcat(a, b, |b|, r);
  }

  lemma ReadsConcat(a: seq<Instr>, b: seq<Instr>, r: EcvReg)
    ensures ReadsFirst(a + b, r) <==> ReadsFirst(a, r) || (ReadsFirst(b, r) && !Writes(a, r))
  {
    var ab := a + b;
    if i: nat :| ExposedReadOf(ab, i, r) {
      if i < |a| {
        LastWritePrefix(a, b, i, r);
        assert ExposedReadOf(a, i, r);
      } else {
        LastWriteConcat(a, b, i - |a|, r);
        assert ExposedReadOf(b, i - |a|, r);
      }
    }
    if i: nat :| ExposedReadOf(a, i, r) {
      LastWritePrefix(a, b, i, r);
      assert ExposedReadOf(ab, i, r);
    }
    if ReadsFirst(b, r) && !Writes(a, r) {
      var i: nat :| ExposedReadOf(b, i, r);
      LastWriteConcat(a, b, i, r);
      assert ab[|a| + i] == b[i];
      assert ExposedReadOf(ab, |a| + i, r);
    }
  }

  lemma OwnConcat(a: seq<Instr>, b: seq<Instr>, r: EcvReg)
    ensures r in Own(a + b) <==> r in Own(a) || r in Own(b)
  {
    hide Own;
    var ab := a + b;
    OwnHas(a, r);
    OwnHas(b, r);
    OwnHas(ab, r);
    if i :| 0 <= i < |a| && (a[i] == Read(r) || a[i] == Write(r)) {
      assert ab[i] == a[i];
    }
    if i :| 0 <= i < |b| && (b[i] == Read(r) || b[i] == Write(r)) {
      assert ab[|a| + i] == b[i];
    }
    if i :| 0 <= i < |ab| && (ab[i] == Read(r) || ab[i] == Write(r)) {
      assert i < |a| || ab[i] == b[i - |a|];
    }
  }
}
