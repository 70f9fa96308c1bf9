/** The p-code operations of one machine instruction, cut into blocks at the targets of their relative branches. */
module PcodeCfgs {

  datatype OpCode = BRANCH | CALL | CBRANCH | CALLIND | BRANCHIND | RETURN | OTHER

  const WORD: nat := 0x1_0000_0000_0000_0000

  /** An operation. Its target is relative when it lies in the constant space; `offset` is an unsigned 64-bit number. */
  datatype Op = Op(code: OpCode, relative: bool, offset: nat)

  datatype Exit = IntrainstructionIndex(target: nat) | InstrExit

  datatype BlockExit = Single(exit: Exit) | ConditionalExit(taken: Exit, notTaken: Exit)

  datatype PcodeBlock = PcodeBlock(baseIndex: nat, ops: seq<Op>, blockExit: BlockExit)

  type Blocks = map<nat, PcodeBlock>

  function DirectTarget(op: Op, index: nat): Exit {
    if op.relative then IntrainstructionIndex((index + op.offset) % WORD) else InstrExit
  }

  function GetBlockExitsForIndex(ops: seq<Op>, index: nat): BlockExit
    requires index < |ops|
  {
    var op := ops[index];
    match op.code
    case BRANCH | CALL => Single(DirectTarget(op, index))
    case CBRANCH =>
      ConditionalExit(DirectTarget(op, index),
                      if index < |ops| - 1 then IntrainstructionIndex(index + 1) else InstrExit)
    case CALLIND | BRANCHIND | RETURN | OTHER => Single(InstrExit)
  }

  function IntraTargets(exit: Exit): seq<nat> {
    if exit.IntrainstructionIndex? then [exit.target] else []
  }

  function GetIntraProcTargets(ops: seq<Op>, index: nat): seq<nat>
    requires index < |ops|
  {
    match GetBlockExitsForIndex(ops, index)
    case Single(e) => IntraTargets(e)
    case ConditionalExit(t, f) => IntraTargets(t) + IntraTargets(f)
  }

  /** `s` is where a block starts: the first operation, or a target. */
  ghost predicate IsStart(ops: seq<Op>, s: nat) {
    s == 0 || exists i: nat :: i < |ops| && s in GetIntraProcTargets(ops, i)
  }

  /** Every relative target is one of the operations. */
  ghost predicate TargetsInRange(ops: seq<Op>) {
    forall i: nat, t :: i < |ops| && t in GetIntraProcTargets(ops, i) ==> t < |ops|
  }

  method GetBlockStarts(ops: seq<Op>) returns (res: seq<nat>)
    ensures forall s: nat :: s in res <==> IsStart(ops, s)
  {
    res := [0];
    for i := 0 to |ops|
      invariant forall s: nat :: s in res <==> s == 0 || exists j: nat :: j < i && s in GetIntraProcTargets(ops, j)
    {
      res := res + GetIntraProcTargets(ops, i);
    }
  }

  ghost predicate Ascending(s: seq<nat>) {
    forall i, j :: 0 <= i < j < |s| ==> s[i] < s[j]
  }

  /** The elements in order, each once. */
  method SortUnique(starts: seq<nat>, bound: nat) returns (res: seq<nat>)
    requires forall s :: s in starts ==> s < bound
    ensures Ascending(res) && forall s: nat :: s in res <==> s in starts
  {
    res := [];
    for i := 0 to bound
      invariant Ascending(res) && (forall s: nat :: s in res <==> s in starts && s < i)
    {
      assert forall k :: 0 <= k < |res| ==> res[k] in res;
      if i in starts {
        res := res + [i];
      }
    }
  }

  function NextStart(ops: seq<Op>, starts: seq<nat>, i: nat): nat
    requires i < |starts|
  {
    if i + 1 < |starts| then starts[i + 1] else |ops|
  }

  function BuildBlock(ops: seq<Op>, start: nat, next: nat): PcodeBlock
    requires start < next <= |ops|
  {
    PcodeBlock(start, ops[start..next], GetBlockExitsForIndex(ops, next - 1))
  }

  /** `blocks` cuts `ops` at exactly its starts. */
  ghost predicate Cuts(ops: seq<Op>, starts: seq<nat>, blocks: Blocks) {
    && Ascending(starts) && |starts| > 0 && starts[0] == 0
    && (forall s: nat :: s in starts <==> IsStart(ops, s)) && (forall s :: s in starts ==> s < |ops|)
    && (forall s: nat :: s in blocks <==> s in starts)
    && forall i :: 0 <= i < |starts| ==> BlockAt(ops, starts, blocks, i)
  }

  ghost predicate BlockAt(ops: seq<Op>, starts: seq<nat>, blocks: Blocks, i: nat)
    requires i < |starts|
  {
    && starts[i] in blocks && starts[i] < NextStart(ops, starts, i) <= |ops|
    && blocks[starts[i]] == BuildBlock(ops, starts[i], NextStart(ops, starts, i))
  }

  /** The first `n` starts have their blocks, and nothing else has one. */
  ghost predicate BuiltTo(ops: seq<Op>, starts: seq<nat>, blocks: Blocks, n: nat)
    requires n <= |starts|
  {
    && (forall s: nat :: s in blocks <==> s in starts[..n])
    && forall k :: 0 <= k < n ==> BlockAt(ops, starts, blocks, k)
  }

  lemma BuiltNext(ops: seq<Op>, starts: seq<nat>, blocks: Blocks, n: nat)
    requires n < |starts| && BuiltTo(ops, starts, blocks, n) && Ascending(starts)
    requires starts[n] < NextStart(ops, starts, n) <= |ops|
    ensures BuiltTo(ops, starts, blocks[starts[n] := BuildBlock(ops, starts[n], NextStart(ops, starts, n))], n + 1)
  {
    hide BuildBlock, NextStart;
    assert starts[..n + 1] == starts[..n] + [starts[n]];
    var blocks' := blocks[starts[n] := BuildBlock(ops, starts[n], NextStart(ops, starts, n))];
    forall k | 0 <= k < n + 1
      ensures BlockAt(ops, starts, blocks', k)
    {
      assert k < n ==> BlockAt(ops, starts, blocks, k) && starts[k] < starts[n];
    }
  }

  method Build(ops: seq<Op>) returns (blocks: Blocks, ghost keys: seq<nat>)
    requires TargetsInRange(ops)
    ensures ops == [] ==> blocks == map[0 := PcodeBlock(0, [], Single(InstrExit))]
    ensures ops != [] ==> Cuts(ops, keys, blocks)
    ensures forall b :: b in blocks ==> blocks[b].baseIndex == b
  {
    hide BuildBlock, GetIntraProcTargets, BuiltTo;
    var unsorted := GetBlockStarts(ops);
    blocks, keys := map[], [];
    if ops == [] {
      blocks := map[0 := PcodeBlock(0, [], Single(InstrExit))];
      return;
    }
    assert forall s: nat :: IsStart(ops, s) ==> s < |ops|;
    hide IsStart;
    var starts := SortUnique(unsorted, |ops|);
    keys := starts;
    FirstStart(ops, starts);
    BuiltNone(ops, starts);
    for i := 0 to |starts|
      invariant BuiltTo(ops, starts, blocks, i)
    {
      var next := if i + 1 < |starts| then starts[i + 1] else |ops|;
      assert i + 1 < |starts| ==> starts[i + 1] in starts;
      assert starts[i] in starts && starts[i] < next && next == NextStart(ops, starts, i) <= |ops|;
      BuiltNext(ops, starts, blocks, i);
      blocks := blocks[starts[i] := BuildBlock(ops, starts[i], next)];
    }
    AllBuilt(ops, starts, blocks);
  }

  lemma BuiltNone(ops: seq<Op>, starts: seq<nat>)
    ensures BuiltTo(ops, starts, map[], 0)
  {
  }

  lemma AllBuilt(ops: seq<Op>, starts: seq<nat>, blocks: Blocks)
    requires BuiltTo(ops, starts, blocks, |starts|)
    ensures forall s: nat :: s in blocks <==> s in starts
    ensures forall k :: 0 <= k < |starts| ==> BlockAt(ops, starts, blocks, k)
    ensures forall s :: s in blocks ==> blocks[s].baseIndex == s
  {
    assert starts[..|starts|] == starts;
    forall s | s in blocks
      ensures blocks[s].baseIndex == s
    {
      var k :| 0 <= k < |starts| && starts[k] == s;
      assert BlockAt(ops, starts, blocks, k);
    }
  }

  lemma FirstStart(ops: seq<Op>, starts: seq<nat>)
    requires Ascending(starts) && 0 in starts
    ensures |starts| > 0 && starts[0] == 0
  {
    var i :| 0 <= i < |starts| && starts[i] == 0;
    IndexOrder(starts, 0, i);
  }

  // ---------------------------------------------------------------------------
  // The blocks hold the operations

  /** The operations of the first `n` blocks in the order of their keys. */
  ghost function Concat(starts: seq<nat>, blocks: Blocks, n: nat): seq<Op>
    requires n <= |starts| && forall s :: s in starts ==> s in blocks
  {
    if n == 0 then [] else Concat(starts, blocks, n - 1) + blocks[starts[n - 1]].ops
  }

  lemma CutAt(ops: seq<Op>, starts: seq<nat>, blocks: Blocks, k: nat)
    requires Cuts(ops, starts, blocks) && k < |starts|
    ensures var s, e := starts[k], NextStart(ops, starts, k);
            && s in blocks && s < e <= |ops| && blocks[s].baseIndex == s && blocks[s].ops == ops[s..e] &&
                 blocks[s].blockExit == GetBlockExitsForIndex(ops, e - 1)
            && (k == 0 ==> s == 0) && (k > 0 ==> NextStart(ops, starts, k - 1) == s)
  {
    assert BlockAt(ops, starts, blocks, k);
  }

  lemma KeyIndex(ops: seq<Op>, starts: seq<nat>, blocks: Blocks, b: nat) returns (k: nat)
    requires Cuts(ops, starts, blocks) && (b in blocks || IsStart(ops, b))
    ensures k < |starts| && starts[k] == b
  {
    hide IsStart;
    assert b in starts;
    k :| 0 <= k < |starts| && starts[k] == b;
  }

  lemma CutKeys(ops: seq<Op>, starts: seq<nat>, blocks: Blocks, s: nat)
    requires Cuts(ops, starts, blocks)
    ensures s in blocks <==> IsStart(ops, s)
    ensures IsStart(ops, s) ==> s < |ops|
    ensures Ascending(starts) && |starts| > 0
  {
  }

  lemma {:induction false} ConcatIsPrefix(ops: seq<Op>, starts: seq<nat>, blocks: Blocks, n: nat)
    requires Cuts(ops, starts, blocks) && 0 < n <= |starts| && forall s :: s in starts ==> s in blocks
    ensures NextStart(ops, starts, n - 1) <= |ops| && Concat(starts, blocks, n) == ops[..NextStart(ops, starts, n - 1)]
  {
    hide Cuts, NextStart, GetBlockExitsForIndex;
    var s, e := starts[n - 1], NextStart(ops, starts, n - 1);
    CutAt(ops, starts, blocks, n - 1);
    if n == 1 {
      assert Concat(starts, blocks, 0) == [];
      assert ops[..e] == [] + ops[0..e];
    } else {
      ConcatIsPrefix(ops, starts, blocks, n - 1);
      assert ops[..s] + ops[s..e] == ops[..e];
    }
  }

  /** In the order of their keys, the blocks hold each operation once. */
  lemma BlocksConcat(ops: seq<Op>, starts: seq<nat>, blocks: Blocks)
    requires Cuts(ops, starts, blocks)
    ensures (forall s :: s in starts ==> s in blocks) && Concat(starts, blocks, |starts|) == ops
  {
    CutAt(ops, starts, blocks, |starts| - 1);
    ConcatIsPrefix(ops, starts, blocks, |starts|);
  }

  ghost predicate ExitsTo(e: BlockExit, t: nat) {
    match e
    case Single(x) => x == IntrainstructionIndex(t)
    case ConditionalExit(x, y) => x == IntrainstructionIndex(t) || y == IntrainstructionIndex(t)
  }

  /** An exit within the instruction leads to a block. */
  lemma ExitsAreKeys(ops: seq<Op>, starts: seq<nat>, blocks: Blocks, b: nat, t: nat)
    requires Cuts(ops, starts, blocks) && b in blocks && ExitsTo(blocks[b].blockExit, t)
    ensures t in blocks
  {
    hide Cuts;
    var i := KeyIndex(ops, starts, blocks, b);
    CutAt(ops, starts, blocks, i);
    assert t in GetIntraProcTargets(ops, NextStart(ops, starts, i) - 1);
    CutKeys(ops, starts, blocks, t);
  }

  // ---------------------------------------------------------------------------
  // Running the blocks and running the operations

  /** Where control goes: to an operation, or out of the instruction. */
  datatype Next = To(index: nat) | Out

  function NextOf(e: Exit): Next {
    if e.IntrainstructionIndex? then To(e.target) else Out
  }

  predicate IsControl(op: Op) {
    !op.code.OTHER?
  }

  /** Where the operation at `i` passes control: an ordinary one to the next, a relative branch as far on as it says, in
      the arithmetic of unsigned 64-bit numbers, and any other branch out of the instruction. */
  function LinearNext(ops: seq<Op>, i: nat, taken: bool): Next
    requires i < |ops|
  {
    var op := ops[i];
    var through := if i + 1 < |ops| then To(i + 1) else Out;
    var target := if op.relative then To((i + op.offset) % 18446744073709551616) else Out;
    match op.code
    case BRANCH | CALL => target
    case CBRANCH => if taken then target else through
    case CALLIND | BRANCHIND | RETURN => Out
    case OTHER => through
  }

  /** Besides the first operation, a block starts exactly where a branch passes control, taken or not. */
  lemma StartsAreTargets(ops: seq<Op>, s: nat)
    ensures IsStart(ops, s) <==>
              s == 0 || exists i: nat, taken :: BranchesTo(ops, i, taken, s)
  {
    if i: nat :| i < |ops| && s in GetIntraProcTargets(ops, i) {
      assert BranchesTo(ops, i, true, s) || BranchesTo(ops, i, false, s);
    }
    if i: nat, taken :| BranchesTo(ops, i, taken, s) {
      assert s in GetIntraProcTargets(ops, i);
    }
  }

  ghost predicate BranchesTo(ops: seq<Op>, i: nat, taken: bool, s: nat) {
    i < |ops| && !ops[i].code.OTHER? && LinearNext(ops, i, taken) == To(s)
  }

  /** Operations in front shift every target: a relative branch leads as far on as before. */
  lemma ShiftedNext(pre: seq<Op>, ops: seq<Op>, i: nat, taken: bool)
    requires i < |ops| && TargetsInRange(ops) && |pre| + |ops| < 18446744073709551616
    ensures LinearNext(pre + ops, |pre| + i, taken) ==
            match LinearNext(ops, i, taken)
            case To(t) => To(|pre| + t)
            case Out => Out
  {
    assert (pre + ops)[|pre| + i] == ops[i];
    TargetStays(ops, i, taken);
    TargetStays(ops, i, true);
  }

  /** The block that holds operation `i`. */
  ghost predicate Holds(blocks: Blocks, b: nat, i: nat) {
    b in blocks && b <= i < b + |blocks[b].ops|
  }

  /** Where block `b` passes control from its operation `i`: within the block to the next, at its end by its exit. */
  ghost function BlockNext(blocks: Blocks, b: nat, i: nat, taken: bool): Next
    requires Holds(blocks, b, i)
  {
    if i + 1 < b + |blocks[b].ops| then To(i + 1)
    else match blocks[b].blockExit
      case Single(e) => NextOf(e)
      case ConditionalExit(t, f) => NextOf(if taken then t else f)
  }

  /** The blocks pass control on just as the operations do. */
  ghost predicate SameSteps(ops: seq<Op>, blocks: Blocks) {
    forall b: nat, i: nat, taken
      {:trigger BlockNext(blocks, b, i, taken)} {:trigger Holds(blocks, b, i), LinearNext(ops, i, taken)} ::
      Holds(blocks, b, i) && i < |ops| ==> BlockNext(blocks, b, i, taken) == LinearNext(ops, i, taken)
  }

  /** A block starts just behind every branch, and apart from the first nowhere else. */
  ghost predicate CutsAtBranches(ops: seq<Op>) {
    forall i: nat :: i + 1 < |ops| ==> (IsControl(ops[i]) <==> IsStart(ops, i + 1))
  }

  lemma BlockOf(ops: seq<Op>, starts: seq<nat>, blocks: Blocks, b: nat, i: nat)
    requires Cuts(ops, starts, blocks) && Holds(blocks, b, i)
    ensures i < |ops| && blocks[b].ops[i - b] == ops[i]
    ensures i + 1 < b + |blocks[b].ops| <==> i + 1 < |ops| && !IsStart(ops, i + 1)
    ensures i + 1 == b + |blocks[b].ops| ==> blocks[b].blockExit == GetBlockExitsForIndex(ops, i)
  {
    hide Cuts, IsStart, GetBlockExitsForIndex;
    var k := KeyIndex(ops, starts, blocks, b);
    CutAt(ops, starts, blocks, k);
    CutKeys(ops, starts, blocks, i + 1);
    var e := NextStart(ops, starts, k);
    if IsStart(ops, i + 1) {
      var m := KeyIndex(ops, starts, blocks, i + 1);
      Between(starts, k, m);
    }
    if i + 1 == e && e < |ops| {
      CutAt(ops, starts, blocks, k + 1);
      CutKeys(ops, starts, blocks, starts[k + 1]);
    }
  }

  lemma Between(starts: seq<nat>, k: nat, m: nat)
    requires Ascending(starts) && k < |starts| && m < |starts| && starts[k] < starts[m]
    ensures k + 1 < |starts| && starts[k + 1] <= starts[m]
  {
    if m <= k {
      IndexOrder(starts, m, k);
    } else {
      IndexOrder(starts, k + 1, m);
    }
  }

  lemma IndexOrder(starts: seq<nat>, m: nat, k: nat)
    requires Ascending(starts) && m <= k < |starts|
    ensures starts[m] <= starts[k]
  {
  }

  lemma HeldBy(ops: seq<Op>, starts: seq<nat>, blocks: Blocks, i: nat) returns (b: nat)
    requires Cuts(ops, starts, blocks) && i < |ops|
    ensures Holds(blocks, b, i)
  {
    hide Cuts, IsStart, GetBlockExitsForIndex;
    var k := 0;
    CutKeys(ops, starts, blocks, 0);
    CutAt(ops, starts, blocks, 0);
    while k + 1 < |starts| && starts[k + 1] <= i
      invariant 0 <= k < |starts| && starts[k] <= i
    {
      k := k + 1;
    }
    b := starts[k];
    CutAt(ops, starts, blocks, k);
  }

  /** Whatever passes control at the end of a block does so by the exit of its last operation. */
  lemma ExitNext(ops: seq<Op>, i: nat, taken: bool)
    requires i < |ops| && (IsControl(ops[i]) || i + 1 == |ops|)
    ensures LinearNext(ops, i, taken) ==
            match GetBlockExitsForIndex(ops, i)
            case Single(e) => NextOf(e)
            case ConditionalExit(t, f) => NextOf(if taken then t else f)
  {
  }

  /** A branch inside a block is not followed as it should be. */
  lemma InnerBranch(ops: seq<Op>, i: nat)
    requires i + 1 < |ops| && IsControl(ops[i]) && !IsStart(ops, i + 1)
    ensures LinearNext(ops, i, true) != To(i + 1)
  {
    assert i + 1 !in GetIntraProcTargets(ops, i);
  }

  /** The blocks pass control on as the operations do exactly when they are cut at the branches. */
  lemma SameStepsIff(ops: seq<Op>, starts: seq<nat>, blocks: Blocks)
    requires Cuts(ops, starts, blocks)
    ensures SameSteps(ops, blocks) <==> CutsAtBranches(ops)
  {
    hide Cuts, IsStart;
    if CutsAtBranches(ops) {
      forall b: nat, i: nat, taken {:trigger BlockNext(blocks, b, i, taken)} | Holds(blocks, b, i) && i < |ops|
        ensures BlockNext(blocks, b, i, taken) == LinearNext(ops, i, taken)
      {
        BlockOf(ops, starts, blocks, b, i);
        if i + 1 == b + |blocks[b].ops| {
          ExitNext(ops, i, taken);
        }
      }
    }
    if SameSteps(ops, blocks) {
      forall i: nat | i + 1 < |ops|
        ensures IsControl(ops[i]) <==> IsStart(ops, i + 1)
      {
        var b := HeldBy(ops, starts, blocks, i);
        BlockOf(ops, starts, blocks, b, i);
        assert BlockNext(blocks, b, i, true) == LinearNext(ops, i, true);
        if IsControl(ops[i]) && !IsStart(ops, i + 1) {
          InnerBranch(ops, i);
        }
      }
    }
  }

  /** The operations executed from `i` on, with the given outcomes of the conditional branches, and where control is
      then. */
  ghost function LinearRun(ops: seq<Op>, i: nat, taken: seq<bool>): (seq<nat>, Next)
    requires i < |ops| && TargetsInRange(ops)
    decreases |taken|
  {
    if taken == [] then ([], To(i))
    else
      var n := LinearNext(ops, i, taken[0]);
      TargetStays(ops, i, taken[0]);
      if n.Out? then ([i], Out)
      else
        var rest := LinearRun(ops, n.index, taken[1..]);
        ([i] + rest.0, rest.1)
  }

  lemma TargetStays(ops: seq<Op>, i: nat, taken: bool)
    requires i < |ops| && TargetsInRange(ops)
    ensures LinearNext(ops, i, taken).To? ==> LinearNext(ops, i, taken).index < |ops|
  {
    if ops[i].relative {
      var t := (i + ops[i].offset) % WORD;
      assert ops[i].code.BRANCH? || ops[i].code.CALL? || ops[i].code.CBRANCH? ==> t in GetIntraProcTargets(ops, i);
    }
  }

  /** The same for the blocks. A target outside of every block leaves the instruction. */
  ghost function BlockRun(blocks: Blocks, b: nat, i: nat, taken: seq<bool>): (seq<nat>, Next)
    requires Holds(blocks, b, i)
    decreases |taken|
  {
    if taken == [] then ([], To(i))
    else
      var n := BlockNext(blocks, b, i, taken[0]);
      if n.Out? then ([i], Out)
      else if Holds(blocks, b, n.index) && n.index == i + 1 && i + 1 < b + |blocks[b].ops| then
        var rest := BlockRun(blocks, b, n.index, taken[1..]);
        ([i] + rest.0, rest.1)
      else if Holds(blocks, n.index, n.index) then
        var rest := BlockRun(blocks, n.index, n.index, taken[1..]);
        ([i] + rest.0, rest.1)
      else ([i], Out)
  }

  /** When the blocks are cut at the branches, running them executes the same operations. */
  lemma {:induction false} SameRuns(ops: seq<Op>, starts: seq<nat>, blocks: Blocks, b: nat, i: nat, taken: seq<bool>)
    requires TargetsInRange(ops) && Cuts(ops, starts, blocks) && CutsAtBranches(ops) && Holds(blocks, b, i)
    ensures i < |ops| && BlockRun(blocks, b, i, taken) == LinearRun(ops, i, taken)
    decreases |taken|
  {
    hide Cuts, SameSteps, CutsAtBranches, TargetsInRange, LinearNext, IsStart;
    BlockOf(ops, starts, blocks, b, i);
    if taken != [] {
      SameStepsIff(ops, starts, blocks);
      var n := BlockNext(blocks, b, i, taken[0]);
      StepAgrees(ops, blocks, b, i, taken[0]);
      TargetStays(ops, i, taken[0]);
      if n.To? {
        if i + 1 < b + |blocks[b].ops| {
          SameRuns(ops, starts, blocks, b, i + 1, taken[1..]);
        } else {
          NextBlock(ops, starts, blocks, b, i, taken[0]);
          SameRuns(ops, starts, blocks, n.index, n.index, taken[1..]);
        }
      }
    }
  }

  lemma StepAgrees(ops: seq<Op>, blocks: Blocks, b: nat, i: nat, taken: bool)
    requires SameSteps(ops, blocks) && Holds(blocks, b, i) && i < |ops|
    ensures BlockNext(blocks, b, i, taken) == LinearNext(ops, i, taken)
  {
  }

  lemma NextBlock(ops: seq<Op>, starts: seq<nat>, blocks: Blocks, b: nat, i: nat, taken: bool)
    requires Cuts(ops, starts, blocks) && Holds(blocks, b, i) && i + 1 == b + |blocks[b].ops|
    requires BlockNext(blocks, b, i, taken).To?
    ensures Holds(blocks, BlockNext(blocks, b, i, taken).index, BlockNext(blocks, b, i, taken).index)
  {
    hide Cuts, GetBlockExitsForIndex;
    var t := BlockNext(blocks, b, i, taken).index;
    ExitsAreKeys(ops, starts, blocks, b, t);
    var k := KeyIndex(ops, starts, blocks, t);
    CutAt(ops, starts, blocks, k);
  }

  /** From every operation, and for all outcomes of the conditional branches, the blocks run as the operations do. */
  ghost predicate RunsAlike(ops: seq<Op>, blocks: Blocks)
    requires TargetsInRange(ops)
  {
    forall b: nat, i: nat, taken {:trigger BlockRun(blocks, b, i, taken)} ::
      Holds(blocks, b, i) && i < |ops| ==> BlockRun(blocks, b, i, taken) == LinearRun(ops, i, taken)
  }

  /** Runs of a single operation show where the steps differ. */
  lemma StepOfRun(ops: seq<Op>, starts: seq<nat>, blocks: Blocks, b: nat, i: nat, taken: bool)
    requires TargetsInRange(ops) && Cuts(ops, starts, blocks) && Holds(blocks, b, i) && i < |ops|
    requires BlockRun(blocks, b, i, [taken]) == LinearRun(ops, i, [taken])
    ensures BlockNext(blocks, b, i, taken) == LinearNext(ops, i, taken)
  {
    hide Cuts, LinearNext, TargetsInRange, IsStart;
    TargetStays(ops, i, taken);
    var n := BlockNext(blocks, b, i, taken);
    if n.To? && i + 1 == b + |blocks[b].ops| {
      NextBlock(ops, starts, blocks, b, i, taken);
    }
    assert [taken][1..] == [];
  }

  /** The blocks run as the operations do exactly when they are cut at the branches. */
  lemma SameRunsIff(ops: seq<Op>, starts: seq<nat>, blocks: Blocks)
    requires TargetsInRange(ops) && Cuts(ops, starts, blocks)
    ensures RunsAlike(ops, blocks) <==> CutsAtBranches(ops)
  {
    hide Cuts, CutsAtBranches, TargetsInRange, BlockRun, LinearRun, LinearNext;
    if CutsAtBranches(ops) {
      forall b: nat, i: nat, taken {:trigger BlockRun(blocks, b, i, taken)} | Holds(blocks, b, i) && i < |ops|
        ensures BlockRun(blocks, b, i, taken) == LinearRun(ops, i, taken)
      {
        SameRuns(ops, starts, blocks, b, i, taken);
      }
    }
    if RunsAlike(ops, blocks) {
      forall b: nat, i: nat, taken {:trigger BlockNext(blocks, b, i, taken)} | Holds(blocks, b, i) && i < |ops|
        ensures BlockNext(blocks, b, i, taken) == LinearNext(ops, i, taken)
      {
        assert BlockRun(blocks, b, i, [taken]) == LinearRun(ops, i, [taken]);
        StepOfRun(ops, starts, blocks, b, i, taken);
      }
      SameStepsIff(ops, starts, blocks);
    }
  }

  /** A conditional branch over one ordinary operation. */
  function BranchOverOne(): seq<Op> {
    [Op(CBRANCH, true, 2), Op(OTHER, false, 0), Op(OTHER, false, 0)]
  }

  /** If the branch is not taken, the blocks never come to the last operation: a block that ends because another one
      starts leaves the instruction. */
  lemma BranchOverOneFails(starts: seq<nat>, blocks: Blocks)
    requires Cuts(BranchOverOne(), starts, blocks)
    ensures TargetsInRange(BranchOverOne()) && Holds(blocks, 0, 0)
    ensures LinearRun(BranchOverOne(), 0, [false, false, false]) == ([0, 1, 2], Out)
    ensures BlockRun(blocks, 0, 0, [false, false, false]) == ([0, 1], Out)
  {
    hide Cuts;
    var ops := BranchOverOne();
    assert 1 in GetIntraProcTargets(ops, 0) && 2 in GetIntraProcTargets(ops, 0);
    var k := KeyIndex(ops, starts, blocks, 0);
    CutAt(ops, starts, blocks, k);
    var m := KeyIndex(ops, starts, blocks, 1);
    CutAt(ops, starts, blocks, m);
    BlockOf(ops, starts, blocks, 0, 0);
    BlockOf(ops, starts, blocks, 1, 1);
    OverOneLinear();
    OverOneBlocks(blocks);
  }

  lemma OverOneLinear()
    ensures TargetsInRange(BranchOverOne())
    ensures LinearRun(BranchOverOne(), 0, [false, false, false]) == ([0, 1, 2], Out)
  {
    var ops := BranchOverOne();
    var one, two, three := [false], [false, false], [false, false, false];
    assert two[1..] == one && three[1..] == two;
    assert LinearNext(ops, 0, false) == To(1) && LinearNext(ops, 1, false) == To(2) && LinearNext(ops, 2, false) == Out;
    assert LinearRun(ops, 2, one) == ([2], Out);
    assert LinearRun(ops, 1, two) == ([1] + [2], Out);
    var rest := LinearRun(ops, 1, three[1..]);
    assert LinearRun(ops, 0, three) == ([0] + rest.0, rest.1);
    assert [0] + ([1] + [2]) == [0, 1, 2];
  }

  lemma OverOneBlocks(blocks: Blocks)
    requires Holds(blocks, 0, 0) && Holds(blocks, 1, 1) && |blocks[0].ops| == 1 && |blocks[1].ops| == 1
    requires blocks[0].blockExit.ConditionalExit? && blocks[0].blockExit.notTaken == IntrainstructionIndex(1)
    requires blocks[1].blockExit == Single(InstrExit)
    ensures BlockRun(blocks, 0, 0, [false, false, false]) == ([0, 1], Out)
  {
    assert BlockNext(blocks, 0, 0, false) == To(1) && BlockNext(blocks, 1, 1, false) == Out;
    var two, three := [false, false], [false, false, false];
    assert three[1..] == two;
    assert BlockRun(blocks, 1, 1, two) == ([1], Out);
    var rest := BlockRun(blocks, 1, 1, three[1..]);
    assert BlockRun(blocks, 0, 0, three) == ([0] + rest.0, rest.1);
    assert [0] + [1] == [0, 1];
  }
}
