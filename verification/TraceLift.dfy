/** The lifting of one function: a worklist of instruction addresses, and one block for each of them. */
module TraceLifts {
  import opened Graphs

  type Addr = nat

  datatype Category =
    | Invalid | DecodeError | Normal | NoOp | DirectJump | IndirectJump | AsyncHyperCall
    | IndirectFunctionCall | DirectFunctionCall | FunctionReturn | ConditionalBranch

  /** A decoded instruction: its kind, whether it has semantics, and the addresses it names. */
  datatype Inst = Inst(category: Category, lifts: bool, nextPc: Addr, takenPc: Addr, notTakenPc: Addr)

  /** The executable instructions of the binary and the entries of its functions. */
  datatype Program = Program(code: map<Addr, Inst>, entries: set<Addr>)

  /** How a block ends. A tail call never comes back; `Leave` ends the function without one. */
  datatype Term = TailCall(target: Addr) | Missing | Failure | Goto(target: Addr) | Branch(taken: Addr, notTaken: Addr)
                | Return | Leave | Dispatch

  /** A lifted block: whether it calls a function on its way, and how it ends. */
  datatype LiftedBlock = LiftedBlock(calls: bool, term: Term)

  /** A block that was created and not lifted yet holds nothing. */
  datatype Slot = Empty | Full(block: LiftedBlock)

  function Leads(t: Term): set<Addr> {
    if t.Goto? then {t.target} else if t.Branch? then {t.taken, t.notTaken} else {}
  }

  // ---------------------------------------------------------------------------
  // What the machine does

  /** Where control is after the instruction at `a`, as far as it stays in the function: a call comes back behind
      itself. */
  ghost predicate Steps(p: Program, a: Addr, b: Addr) {
    a in p.code &&
    var inst := p.code[a];
    match inst.category
    case Normal | NoOp => b == inst.nextPc
    case AsyncHyperCall => b == inst.nextPc && b !in p.entries
    case DirectJump => b == inst.takenPc
    case ConditionalBranch => b == inst.takenPc || b == inst.notTakenPc
    case DirectFunctionCall | IndirectFunctionCall => b == inst.notTakenPc
    case FunctionReturn | IndirectJump | Invalid | DecodeError => false
  }

  /** Control can be lifted on from `a`: it is executable, has semantics, and is not where another function starts. */
  ghost predicate Inside(p: Program, trace: Addr, a: Addr) {
    a in p.code && p.code[a].lifts && (a == trace || a !in p.entries)
  }

  /** The edges that lifting follows. */
  ghost predicate Follows(p: Program, trace: Addr, a: Addr, b: Addr) {
    Inside(p, trace, a) && Steps(p, a, b)
  }

  /** `w` is a run of the machine from the start of the function. */
  ghost predicate IsRun(p: Program, trace: Addr, w: seq<Addr>) {
    |w| > 0 && w[0] == trace && forall i :: 0 < i < |w| ==> Follows(p, trace, w[i - 1], w[i])
  }

  ghost predicate Visits(p: Program, trace: Addr, a: Addr) {
    exists w :: IsRun(p, trace, w) && w[|w| - 1] == a
  }

  lemma VisitsNext(p: Program, trace: Addr, a: Addr, b: Addr)
    requires Visits(p, trace, a) && Follows(p, trace, a, b)
    ensures Visits(p, trace, b)
  {
    var w :| IsRun(p, trace, w) && w[|w| - 1] == a;
    assert IsRun(p, trace, w + [b]);
  }

  lemma VisitsStart(p: Program, trace: Addr)
    ensures Visits(p, trace, trace)
  {
    assert IsRun(p, trace, [trace]);
  }

  /** The addresses that lifting can come to. */
  ghost function Universe(p: Program, trace: Addr): set<Addr> {
    {trace} + (set a | a in p.code :: p.code[a].nextPc) + (set a | a in p.code :: p.code[a].takenPc)
    + set a | a in p.code :: p.code[a].notTakenPc
  }

  // ---------------------------------------------------------------------------
  // The lifter

  /** The instruction at `a` calls the function at `c`. A call of the next instruction is none. */
  ghost predicate CallsTo(p: Program, trace: Addr, a: Addr, c: Addr) {
    && Inside(p, trace, a) && p.code[a].category.DirectFunctionCall?
    && c == p.code[a].takenPc && c in p.entries && c != p.code[a].notTakenPc
  }

  /** The instruction at `a` jumps out of the function, to where the function at `c` starts. */
  ghost predicate JumpsTo(p: Program, trace: Addr, size: nat, a: Addr, c: Addr) {
    && Inside(p, trace, a) && p.code[a].category.DirectJump?
    && c == p.code[a].takenPc && c in p.entries && !(trace <= c < trace + size)
  }

  /** The block leads where the machine goes from `a`, calls what it calls, and ends as its instruction does. */
  ghost predicate Fits(p: Program, trace: Addr, a: Addr, made: LiftedBlock) {
    var inside := Inside(p, trace, a);
    && (forall b {:trigger b in Leads(made.term)} {:trigger Follows(p, trace, a, b)} ::
          b in Leads(made.term) <==> Follows(p, trace, a, b))
    && (made.term.TailCall? <==> a != trace && a in p.entries) && (made.term.TailCall? ==> made.term.target == a)
    && (made.term.Missing? <==> (a == trace || a !in p.entries) && a !in p.code)
    && (made.term.Return? <==> inside && p.code[a].category.FunctionReturn?)
    && (made.term.Dispatch? <==> inside && p.code[a].category.IndirectJump?)
    && (made.term.Leave? <==> inside && p.code[a].category.AsyncHyperCall? && p.code[a].nextPc in p.entries)
    && (made.term.Branch? <==> inside && p.code[a].category.ConditionalBranch?)
    && (made.term.Branch? ==> made.term == Branch(p.code[a].takenPc, p.code[a].notTakenPc))
    && (made.calls <==> inside && (p.code[a].category.IndirectFunctionCall? || CallsTo(p, trace, a, p.code[a].takenPc)))
  }

  ghost predicate FaithfulAt(p: Program, trace: Addr, blocks: map<Addr, Slot>, a: Addr) {
    a in blocks && blocks[a].Full? && Fits(p, trace, a, blocks[a].block)
  }

  /** Lifted blocks are faithful; blocks that are not lifted yet are queued; what lifted blocks lead to has a block; and
      the machine visits all of them. */
  ghost predicate Lifting(p: Program, trace: Addr, blocks: map<Addr, Slot>, work: set<Addr>) {
    && trace in blocks
    && (forall a {:trigger FaithfulAt(p, trace, blocks, a)} :: a in blocks && blocks[a].Full? ==>
         FaithfulAt(p, trace, blocks, a))
    && (forall a :: a in blocks && blocks[a].Empty? ==> a in work)
    && (forall a :: a in work ==> a in blocks)
    && (forall a, b {:trigger Follows(p, trace, a, b)} :: a in blocks && blocks[a].Full? && Follows(p, trace, a, b) ==>
         b in blocks)
    && (forall a {:trigger ComesTo(p, trace, a)} :: a in blocks ==> ComesTo(p, trace, a))
  }

  ghost predicate ComesTo(p: Program, trace: Addr, a: Addr) {
    Visits(p, trace, a) && a in Universe(p, trace)
  }

  /** The functions found so far: those that lifted blocks call, and those that they jump to. */
  ghost predicate Found(p: Program, trace: Addr, size: nat, blocks: map<Addr, Slot>, calls: set<Addr>,
                        jumps: seq<Addr>) {
    && (forall c {:trigger c in calls} :: c in calls <==>
         exists a :: a in blocks && blocks[a].Full? && CallsTo(p, trace, a, c))
    && (forall c {:trigger c in jumps} ::
          c in jumps <==> exists a :: a in blocks && blocks[a].Full? && JumpsTo(p, trace, size, a, c))
  }

  lemma FoundStart(p: Program, trace: Addr, size: nat)
    ensures Found(p, trace, size, map[trace := Empty], {}, [])
  {
  }

  lemma FoundNext(p: Program, trace: Addr, size: nat, before: map<Addr, Slot>, blocks: map<Addr, Slot>, a: Addr,
                  calls: set<Addr>, calls': set<Addr>, jumps: seq<Addr>, jumps': seq<Addr>)
    requires Found(p, trace, size, before, calls, jumps)
    requires forall x :: x in blocks && blocks[x].Full? <==> x == a || (x in before && before[x].Full?)
    requires forall c :: c in calls' <==> c in calls || CallsTo(p, trace, a, c)
    requires forall c :: c in jumps' <==> c in jumps || JumpsTo(p, trace, size, a, c)
    ensures Found(p, trace, size, blocks, calls', jumps')
  {
    hide CallsTo, JumpsTo;
  }

  lemma CallsOnly(p: Program, trace: Addr, a: Addr)
    requires a in p.code && CallsTo(p, trace, a, p.code[a].takenPc)
    ensures p.code[a].category.DirectFunctionCall?
  {
  }

  class TraceLifter {
    const program: Program

    var blocks: map<Addr, Slot>
    var instWorkList: set<Addr>
    var bJumpCallees: seq<Addr>
    var traceWorkList: set<Addr>

    constructor (program: Program)
      ensures this.program == program
    {
      this.program := program;
      blocks, instWorkList, bJumpCallees, traceWorkList := map[], {}, [], {};
    }

    /** The block of the address, which is queued. */
    method GetOrCreateBlock(a: Addr)
      modifies `blocks, `instWorkList
      ensures instWorkList == old(instWorkList) + {a}
      ensures blocks == if a in old(blocks) then old(blocks) else old(blocks)[a := Empty]
    {
      instWorkList := instWorkList + {a};
      if a !in blocks {
        blocks := blocks[a := Empty];
      }
    }

    /** Notes the function that the instruction at `a` calls, or that it jumps to outside of this function, which has
        `size` bytes. `calls` says whether there is a call. */
    method NoteFunction(trace: Addr, size: nat, a: Addr) returns (calls: bool)
      requires Inside(program, trace, a)
      modifies `bJumpCallees, `traceWorkList
      ensures calls <==> CallsTo(program, trace, a, program.code[a].takenPc)
      ensures forall c :: c in traceWorkList <==> c in old(traceWorkList) || CallsTo(program, trace, a, c)
      ensures forall c :: c in bJumpCallees <==> c in old(bJumpCallees) || JumpsTo(program, trace, size, a, c)
    {
      var inst := program.code[a];
      calls := false;
      if inst.category.DirectJump? {
        if !(trace <= inst.takenPc < trace + size) && inst.takenPc in program.entries {
          bJumpCallees := bJumpCallees + [inst.takenPc];
        }
      } else if inst.category.DirectFunctionCall? {
        calls := inst.takenPc in program.entries && inst.notTakenPc != inst.takenPc;
        if calls {
          traceWorkList := traceWorkList + {inst.takenPc};
        }
      }
    }

    /** What the block of `a` has to hold, an instruction that is executable, has semantics, and starts no other
        function. */
    method Connect(trace: Addr, size: nat, a: Addr) returns (made: LiftedBlock)
      requires Inside(program, trace, a)
      modifies this
      ensures Fits(program, trace, a, made)
      ensures instWorkList == old(instWorkList) + Leads(made.term)
      ensures forall x :: x in blocks <==> x in old(blocks) || x in Leads(made.term)
      ensures forall x :: x in blocks ==> blocks[x] == if x in old(blocks) then old(blocks)[x] else Empty
      ensures forall c :: c in traceWorkList <==> c in old(traceWorkList) || CallsTo(program, trace, a, c)
      ensures forall c :: c in bJumpCallees <==> c in old(bJumpCallees) || JumpsTo(program, trace, size, a, c)
    {
      var calls := NoteFunction(trace, size, a);
      hide CallsTo, JumpsTo;
      var inst := program.code[a];
      match inst.category {
        case Invalid | DecodeError =>
          made := LiftedBlock(false, Failure);
        case Normal | NoOp =>
          GetOrCreateBlock(inst.nextPc);
          made := LiftedBlock(false, Goto(inst.nextPc));
        case DirectJump =>
          GetOrCreateBlock(inst.takenPc);
          made := LiftedBlock(false, Goto(inst.takenPc));
        case IndirectJump =>
          made := LiftedBlock(false, Dispatch);
        case AsyncHyperCall =>
          if inst.nextPc in program.entries {
            made := LiftedBlock(false, Leave);
          } else {
            GetOrCreateBlock(inst.nextPc);
            made := LiftedBlock(false, Goto(inst.nextPc));
          }
        case IndirectFunctionCall =>
          GetOrCreateBlock(inst.notTakenPc);
          made := LiftedBlock(true, Goto(inst.notTakenPc));
        case DirectFunctionCall =>
          GetOrCreateBlock(inst.notTakenPc);
          made := LiftedBlock(calls, Goto(inst.notTakenPc));
        case FunctionReturn =>
          made := LiftedBlock(false, Return);
        case ConditionalBranch =>
          GetOrCreateBlock(inst.takenPc);
          GetOrCreateBlock(inst.notTakenPc);
          made := LiftedBlock(false, Branch(inst.takenPc, inst.notTakenPc));
      }
      if calls {
        CallsOnly(program, trace, a);
      }
    }

    /** Lifts the instruction at `a` of the function that starts at `trace`. */
    method LiftInstruction(trace: Addr, size: nat, a: Addr)
      requires a in blocks && blocks[a].Empty? && Lifting(program, trace, blocks, instWorkList + {a})
      requires Found(program, trace, size, blocks, traceWorkList, bJumpCallees)
      modifies this
      ensures Lifting(program, trace, blocks, instWorkList) && a in blocks && blocks[a].Full?
      ensures Found(program, trace, size, blocks, traceWorkList, bJumpCallees)
      ensures forall x :: x in old(blocks) && old(blocks)[x].Full? ==> x in blocks && blocks[x].Full?
    {
      hide Universe, Visits, Lifting, Steps, Found;
      ghost var blocks0, work0, calls0, jumps0 := blocks, instWorkList, traceWorkList, bJumpCallees;
      var made;
      if a != trace && a in program.entries {
        made := LiftedBlock(false, TailCall(a));
      } else if a !in program.code {
        made := LiftedBlock(false, Missing);
      } else if !program.code[a].lifts {
        made := LiftedBlock(false, Failure);
      } else {
        made := Connect(trace, size, a);
      }
      blocks := blocks[a := Full(made)];
      LiftedOne(program, trace, blocks0, work0, blocks, instWorkList, a, made);
      FoundNext(program, trace, size, blocks0, blocks, a, calls0, traceWorkList, jumps0, bJumpCallees);
    }

    /** Lifts every instruction that control can come to from `trace` without entering another function. */
    method Lift(trace: Addr, size: nat)
      modifies this
      ensures forall a {:trigger Visits(program, trace, a)} :: a in blocks <==> Visits(program, trace, a)
      ensures forall a :: a in blocks ==> FaithfulAt(program, trace, blocks, a)
      ensures Found(program, trace, size, blocks, traceWorkList, bJumpCallees)
    {
      hide Universe, Visits, FaithfulAt, Follows, Lifting, Found;
      blocks, instWorkList := map[trace := Empty], {trace};
      traceWorkList, bJumpCallees := {}, [];
      LiftStart(program, trace);
      FoundStart(program, trace, size);
      while instWorkList != {}
        invariant Lifting(program, trace, blocks, instWorkList)
        invariant Found(program, trace, size, blocks, traceWorkList, bJumpCallees)
        decreases |Unlifted(program, trace, blocks)|, |instWorkList|
      {
        ghost var blocks0, work0 := blocks, instWorkList;
        var a :| a in instWorkList;
        instWorkList := instWorkList - {a};
        LiftingHas(program, trace, blocks, work0, a);
        assert instWorkList + {a} == work0;
        if blocks[a].Empty? {
          LiftInstruction(trace, size, a);
          FewerUnlifted(program, trace, blocks0, blocks, a);
        }
      }
      AllLifted(program, trace, blocks);
    }
  }

  /** The addresses without a lifted block. */
  ghost function Unlifted(p: Program, trace: Addr, blocks: map<Addr, Slot>): set<Addr> {
    set a | a in Universe(p, trace) && !(a in blocks && blocks[a].Full?)
  }

  lemma LiftStart(p: Program, trace: Addr)
    ensures Lifting(p, trace, map[trace := Empty], {trace})
  {
    VisitsStart(p, trace);
    assert ComesTo(p, trace, trace);
  }

  lemma LiftingHas(p: Program, trace: Addr, blocks: map<Addr, Slot>, work: set<Addr>, a: Addr)
    requires Lifting(p, trace, blocks, work) && a in work
    ensures a in blocks && a in Universe(p, trace)
    ensures blocks[a].Full? ==> Lifting(p, trace, blocks, work - {a})
  {
    hide Universe, Visits, FaithfulAt, Follows;
    assert ComesTo(p, trace, a);
  }

  lemma FewerUnlifted(p: Program, trace: Addr, before: map<Addr, Slot>, blocks: map<Addr, Slot>, a: Addr)
    requires a in before && before[a].Empty? && a in Universe(p, trace) && a in blocks && blocks[a].Full?
    requires forall x :: x in before && before[x].Full? ==> x in blocks && blocks[x].Full?
    ensures |Unlifted(p, trace, blocks)| < |Unlifted(p, trace, before)|
  {
    hide Universe;
    var u, u' := Unlifted(p, trace, before), Unlifted(p, trace, blocks);
    assert u' <= u - {a};
    assert u == u' + (u - u');
  }

  /** One instruction lifted: its block leads where the machine goes, and all those addresses have blocks and are
      queued. */
  lemma LiftedOne(p: Program, trace: Addr, before: map<Addr, Slot>, work0: set<Addr>, blocks: map<Addr, Slot>,
                  work: set<Addr>, a: Addr, made: LiftedBlock)
    requires a in before && before[a].Empty? && Lifting(p, trace, before, work0 + {a})
    requires Fits(p, trace, a, made)
    requires work == work0 + Leads(made.term)
    requires forall x :: x in blocks <==> x in before || x in Leads(made.term)
    requires forall x :: x in blocks ==>
               blocks[x] == if x == a then Full(made) else if x in before then before[x] else Empty
    ensures Lifting(p, trace, blocks, work) && a in blocks && blocks[a].Full?
    ensures forall x :: x in before && before[x].Full? ==> x in blocks && blocks[x].Full?
  {
    hide Universe, Visits, Follows;
    forall x {:trigger FaithfulAt(p, trace, blocks, x)} | x in blocks && blocks[x].Full?
      ensures FaithfulAt(p, trace, blocks, x)
    {
      assert x != a ==> FaithfulAt(p, trace, before, x);
    }
    forall x {:trigger ComesTo(p, trace, x)} | x in blocks
      ensures ComesTo(p, trace, x)
    {
      assert ComesTo(p, trace, a);
      if x in before {
        assert ComesTo(p, trace, x);
      } else {
        assert Follows(p, trace, a, x);
        VisitsNext(p, trace, a, x);
        InUniverse(p, trace, a, x);
      }
    }
  }

  lemma InUniverse(p: Program, trace: Addr, a: Addr, b: Addr)
    requires Follows(p, trace, a, b)
    ensures b in Universe(p, trace)
  {
  }

  /** With an empty worklist everything that the machine visits is lifted. */
  lemma AllLifted(p: Program, trace: Addr, blocks: map<Addr, Slot>)
    requires Lifting(p, trace, blocks, {})
    ensures forall a {:trigger Visits(p, trace, a)} :: a in blocks <==> Visits(p, trace, a)
    ensures forall a :: a in blocks ==> FaithfulAt(p, trace, blocks, a)
  {
    hide Universe;
    forall a {:trigger Visits(p, trace, a)} | a in blocks
      ensures Visits(p, trace, a)
    {
      assert ComesTo(p, trace, a);
    }
    forall a {:trigger Visits(p, trace, a)} | Visits(p, trace, a)
      ensures a in blocks
    {
      var w :| IsRun(p, trace, w) && w[|w| - 1] == a;
      RunLifted(p, trace, blocks, w);
    }
  }

  lemma {:induction false} RunLifted(p: Program, trace: Addr, blocks: map<Addr, Slot>, w: seq<Addr>)
    requires Lifting(p, trace, blocks, {}) && IsRun(p, trace, w)
    ensures w[|w| - 1] in blocks
  {
    hide Universe;
    if |w| > 1 {
      RunLifted(p, trace, blocks, w[..|w| - 1]);
      assert Follows(p, trace, w[|w| - 2], w[|w| - 1]);
    }
  }

  // ---------------------------------------------------------------------------
  // Running the blocks

  /** `w` is a run of the lifted function: from each block to one that it leads to. */
  ghost predicate IsBlockRun(blocks: map<Addr, Slot>, trace: Addr, w: seq<Addr>) {
    && |w| > 0 && w[0] == trace
    && forall i :: 0 < i < |w| ==> BlockStep(blocks, w[i - 1], w[i])
  }

  ghost predicate BlockStep(blocks: map<Addr, Slot>, a: Addr, b: Addr) {
    a in blocks && blocks[a].Full? && b in Leads(blocks[a].block.term)
  }

  /** The machine and the lifted function have the same runs. */
  lemma {:induction false} SameRuns(p: Program, trace: Addr, blocks: map<Addr, Slot>, w: seq<Addr>)
    requires forall a {:trigger Visits(p, trace, a)} :: a in blocks <==> Visits(p, trace, a)
    requires forall a :: a in blocks ==> FaithfulAt(p, trace, blocks, a)
    ensures IsRun(p, trace, w) <==> IsBlockRun(blocks, trace, w)
  {
    hide Follows, Visits;
    if |w| == 1 {
    } else if |w| > 1 {
      var rest, a, b := w[..|w| - 1], w[|w| - 2], w[|w| - 1];
      SameRuns(p, trace, blocks, rest);
      assert w == rest + [b];
      if IsRun(p, trace, rest) {
        RunVisits(p, trace, rest);
        assert FaithfulAt(p, trace, blocks, a);
      }
      assert IsRun(p, trace, w) <==> IsRun(p, trace, rest) && Follows(p, trace, a, b);
    }
  }

  lemma RunVisits(p: Program, trace: Addr, w: seq<Addr>)
    requires IsRun(p, trace, w)
    ensures Visits(p, trace, w[|w| - 1])
  {
  }
}
