/** Whole runs: the instructions that a promoted function runs through from the entry to a return, and what each of them
    reads. */
module PromotedRuns {
  import opened Registers
  import opened Graphs
  import opened Promoted
  import opened PromotedReads
  import opened Flows
  import opened Flattening

  // ---------------------------------------------------------------------------
  // Runs as instruction sequences

  /** For each read of a run the position of the write that it reads, or -1 if it reads what was there at the start.
      Other instructions read nothing. */
  function CodeYields(code: seq<Instr>): (ws: seq<int>)
    ensures |ws| == |code|
  {
    seq(|code|, k requires 0 <= k < |code| => if code[k].Read? then LastWrite(code, k, code[k].reg) else -1)
  }

  /** The position in the run of the write that a value of `r` comes from. */
  function Place(bodies: Bodies, d: Def, r: EcvReg): int {
    match d
    case Init(s) => if s == r then -1 else -2
    case At(p, n) => if p == [] then -2 else |Code(bodies, p[..|p| - 1])| + n
    case Undefined => -2
  }

  lemma {:induction false} PlaceLastDef(bodies: Bodies, p: seq<Block>, r: EcvReg)
    ensures Place(bodies, LastDef(bodies, p, r), r) == LastWrite(Code(bodies, p), |Code(bodies, p)|, r)
  {
    if p != [] {
      var before, body := Code(bodies, p[..|p| - 1]), Body(bodies, p[|p| - 1]);
      PlaceLastDef(bodies, p[..|p| - 1], r);
      LastWriteConcat(before, body, |body|, r);
    }
  }

  lemma PlaceReadDef(bodies: Bodies, p: seq<Block>, i: nat)
    requires |p| > 0 && i < |Body(bodies, p[|p| - 1])| && Body(bodies, p[|p| - 1])[i].Read?
    ensures var r := Body(bodies, p[|p| - 1])[i].reg;
            Place(bodies, ReadDef(bodies, p, i), r) == LastWrite(Code(bodies, p), |Code(bodies, p[..|p| - 1])| + i, r)
  {
    var before, body := Code(bodies, p[..|p| - 1]), Body(bodies, p[|p| - 1]);
    PlaceLastDef(bodies, p[..|p| - 1], body[i].reg);
    LastWriteConcat(before, body, i, body[i].reg);
  }

  // ---------------------------------------------------------------------------
  // Runs of the promoted function

  /** For each read on the path `q` of the promoted function the position of the write that its value comes from. */
  ghost function Yields(f: Fn, bodies: Bodies, q: seq<Block>): seq<int> {
    if q == [] then []
    else
      var rest := Yields(f, bodies, q[..|q| - 1]);
      if q[|q| - 1] in f.relays then rest else rest + BlockYields(f, bodies, q)
  }

  /** The same for the last block of the path. */
  ghost function BlockYields(f: Fn, bodies: Bodies, q: seq<Block>): (ws: seq<int>)
    requires |q| > 0
    ensures |ws| == |Body(bodies, q[|q| - 1])|
  {
    var body := Body(bodies, q[|q| - 1]);
    seq(|body|, i requires 0 <= i < |body| =>
      if body[i].Read? then Place(bodies, NewRead(f, bodies, q, i), body[i].reg) else -1)
  }

  lemma BlockYieldsRight(f: Fn, bodies: Bodies, q: seq<Block>, proj: seq<Block>)
    requires |q| > 0 && ReadsRight(f, bodies, q, proj)
    ensures CodeYields(Code(bodies, proj)) == CodeYields(Code(bodies, proj[..|proj| - 1])) + BlockYields(f, bodies, q)
  {
    hide NewRead, ReadDef, Place;
    var before, body := Code(bodies, proj[..|proj| - 1]), Body(bodies, q[|q| - 1]);
    var code := before + body;
    assert Code(bodies, proj) == code;
    forall k: nat | k < |code|
      ensures CodeYields(code)[k] == (CodeYields(before) + BlockYields(f, bodies, q))[k]
    {
      if k < |before| {
        if code[k].Read? {
          LastWritePrefix(before, body, k, code[k].reg);
        }
      } else {
        var i: nat := k - |before|;
        assert code[k] == body[i];
        if body[i].Read? {
          PlaceReadDef(bodies, proj, i);
          assert NewRead(f, bodies, q, i) == ReadDef(bodies, proj, i);
        }
      }
    }
  }

  /** If reads are right, the reads on a path yield what they yield in the run behind it. */
  lemma {:induction false} YieldsRight(f: Fn, bodies: Bodies, entry: Block, q: seq<Block>)
    requires Reads(f, bodies, entry) && (q == [] || IsPath(f.succs, entry, q))
    ensures Yields(f, bodies, q) == CodeYields(Code(bodies, Proj(f.relays, q)))
  {
    hide ReadsRight, CodeYields, BlockYields;
    if q == [] {
      NoYields();
    } else {
      YieldsRight(f, bodies, entry, q[..|q| - 1]);
      if q[|q| - 1] !in f.relays {
        ProjEnds(f, q);
        BlockYieldsRight(f, bodies, q, Proj(f.relays, q));
      }
    }
  }

  lemma NoYields()
    ensures CodeYields([]) == []
  {
  }

  /** The path `q` of the promoted function is the run `code`: it returns, each read yields the write that it yields
      there, and each returned register holds its last write. */
  ghost predicate RunsAs(f: Fn, flat: Flow, entry: Block, q: seq<Block>, code: seq<Instr>) {
    && |q| > 0 && IsPath(f.succs, entry, q) && q[|q| - 1] in flat.succs && flat.succs[q[|q| - 1]] == []
    && Code(flat.bodies, Proj(f.relays, q)) == code
    && Yields(f, flat.bodies, q) == CodeYields(code)
    && forall r: EcvReg :: r.number == 0 || r.number == 1 || r.number == 32 ==>
         Place(flat.bodies, StateAfter(f, flat.bodies, q, r), r) == LastWrite(code, |code|, r)
  }

  ghost predicate RunsSomehow(f: Fn, flat: Flow, entry: Block, code: seq<Instr>) {
    exists q :: RunsAs(f, flat, entry, q, code)
  }

  /** The promoted function has exactly the runs of the original one, with the same reads and the same returned
      registers. */
  ghost predicate SamePromotedRuns(o: Flow, f: Fn, flat: Flow, entry: Block) {
    && (forall code {:trigger RunsThrough(o, entry, code)} {:trigger RunsSomehow(f, flat, entry, code)} ::
          RunsThrough(o, entry, code) <==> RunsSomehow(f, flat, entry, code))
    && forall q {:trigger IsPath(f.succs, entry, q)} ::
         IsPath(f.succs, entry, q) && q[|q| - 1] in flat.succs && flat.succs[q[|q| - 1]] == [] ==>
           RunsAs(f, flat, entry, q, Code(flat.bodies, Proj(f.relays, q)))
  }

  lemma PathRunsAs(f: Fn, flat: Flow, drvd: RegSets, entry: Block, q: seq<Block>)
    requires Relayed(f, flat.bodies, flat.succs, drvd) && entry in flat.succs && Reads(f, flat.bodies, entry)
    requires forall r: EcvReg :: r.CheckPassedReturnRegs() ==> Returns(f, flat.bodies, flat.succs, entry, r)
    requires IsPath(f.succs, entry, q) && q[|q| - 1] in flat.succs && flat.succs[q[|q| - 1]] == []
    ensures RunsAs(f, flat, entry, q, Code(flat.bodies, Proj(f.relays, q)))
    ensures RunsThrough(flat, entry, Code(flat.bodies, Proj(f.relays, q)))
  {
    hide Relayed, Reads, StateAfter, Place, LastDef, Yields, CodeYields, LastWrite, EcvReg.CheckPassedReturnRegs, Code,
         Proj;
    var proj := Proj(f.relays, q);
    YieldsRight(f, flat.bodies, entry, q);
    OriginalBlock(f, flat.bodies, flat.succs, drvd, q[|q| - 1]);
    ProjPath(f, flat.bodies, flat.succs, drvd, entry, q);
    forall r: EcvReg | r.number == 0 || r.number == 1 || r.number == 32
      ensures Place(flat.bodies, StateAfter(f, flat.bodies, q, r), r) ==
              LastWrite(Code(flat.bodies, proj), |Code(flat.bodies, proj)|, r)
    {
      assert Returns(f, flat.bodies, flat.succs, entry, r);
      PlaceLastDef(flat.bodies, proj, r);
    }
    assert Runs(flat, entry, proj, Code(flat.bodies, proj));
  }

  /** If reads and returned registers are right, the promoted function has the runs of the one that was flattened. */
  lemma PromotedSameRuns(o: Flow, f: Fn, flat: Flow, drvd: RegSets, entry: Block)
    requires SameRuns(o, flat, entry)
    requires Relayed(f, flat.bodies, flat.succs, drvd) && entry in flat.succs && Reads(f, flat.bodies, entry)
    requires forall r: EcvReg :: r.CheckPassedReturnRegs() ==> Returns(f, flat.bodies, flat.succs, entry, r)
    ensures SamePromotedRuns(o, f, flat, entry)
  {
    hide Relayed, Reads, Returns, Code, Proj, Yields, StateAfter, CodeYields, Place, EcvReg.CheckPassedReturnRegs;
    forall q {:trigger IsPath(f.succs, entry, q)} |
      IsPath(f.succs, entry, q) && q[|q| - 1] in flat.succs && flat.succs[q[|q| - 1]] == []
      ensures RunsAs(f, flat, entry, q, Code(flat.bodies, Proj(f.relays, q)))
      ensures RunsThrough(o, entry, Code(flat.bodies, Proj(f.relays, q)))
    {
      PathRunsAs(f, flat, drvd, entry, q);
    }
    forall code {:trigger RunsThrough(o, entry, code)} {:trigger RunsSomehow(f, flat, entry, code)}
      ensures RunsThrough(o, entry, code) <==> RunsSomehow(f, flat, entry, code)
    {
      if RunsThrough(o, entry, code) {
        assert RunsThrough(flat, entry, code);
        var p :| Runs(flat, entry, p, code);
        var q := LiftPath(f, flat.bodies, flat.succs, drvd, entry, p);
        PathRunsAs(f, flat, drvd, entry, q);
      }
    }
  }
}
