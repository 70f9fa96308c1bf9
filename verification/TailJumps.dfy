/** Functions that end in a jump to another function need what that function is passed: the closure over tail jumps. */
module TailJumps {
  import opened Registers
  import opened Graphs

  type Func = Block
  type Callees = map<Func, seq<Func>>

  function CalleesOf(callees: Callees, f: Func): seq<Func> {
    if f in callees then callees[f] else []
  }

  /** The graph of tail jumps between `funcs`. */
  ghost function JumpGraph(callees: Callees, funcs: set<Func>): Succ {
    map f | f in funcs :: if f in callees then set c | c in callees[f] else {}
  }

  /** Every function that jumps or is jumped to has a register map. */
  ghost predicate Known(callees: Callees, funcs: set<Func>) {
    && (forall f :: f in callees ==> f in funcs)
    && (forall f, c :: f in callees && c in callees[f] ==> c in funcs)
  }

  /** `rank` falls along every tail jump. */
  ghost predicate Ranked(callees: Callees, rank: map<Func, nat>) {
    forall f, c :: f in callees && c in callees[f] ==> f in rank && c in rank && rank[c] < rank[f]
  }

  /** Some function that `f` reaches by tail jumps, possibly `f`, is passed `r`. */
  ghost predicate Needs(g: Succ, passed: map<Func, RegMap>, f: Func, r: EcvReg) {
    exists h :: h in passed && Reach(g, f, h) && r in passed[h]
  }

  ghost predicate ClosedOver(g: Succ, before: map<Func, RegMap>, passed: map<Func, RegMap>, f: Func) {
    f in passed && forall r :: r in passed[f] <==> Needs(g, before, f, r)
  }

  /** The first of `cs` that is passed `r`. */
  ghost predicate FirstWith(cs: seq<Func>, passed: map<Func, RegMap>, r: EcvReg, i: int) {
    && 0 <= i < |cs| && cs[i] in passed && r in passed[cs[i]]
    && forall j :: 0 <= j < i && cs[j] in passed ==> r !in passed[cs[j]]
  }

  /** The class of `r` in `f` is the one it was passed with, or else that of the first callee that is passed it. */
  ghost predicate ClassTaken(cs: seq<Func>, before: map<Func, RegMap>, passed: map<Func, RegMap>, f: Func, r: EcvReg) {
    && f in before && f in passed && r in passed[f]
    && if r in before[f] then passed[f][r] == before[f][r]
       else exists i :: FirstWith(cs, passed, r, i) && passed[f][r] == passed[cs[i]][r]
  }

  predicate AllFinished(fs: seq<Func>, finished: set<Func>) {
    forall i :: 0 <= i < |fs| ==> fs[i] in finished
  }

  /** The callees that are not finished, in order. */
  function Unfinished(fs: seq<Func>, finished: set<Func>): (r: seq<Func>)
    ensures forall f :: f in r <==> f in fs && f !in finished
  {
    if fs == [] then []
    else
      var rest := Unfinished(fs[..|fs| - 1], finished);
      var last := fs[|fs| - 1];
      assert fs == fs[..|fs| - 1] + [last];
      if last in finished then rest else rest + [last]
  }

  /** What one turn does to the stack and the finished functions. */
  function Turn(callees: Callees, stack: seq<Func>, finished: set<Func>): (seq<Func>, set<Func>)
    requires stack != []
  {
    var t := stack[|stack| - 1];
    var below := stack[..|stack| - 1];
    if t in finished then (below, finished)
    else if AllFinished(CalleesOf(callees, t), finished) then (below, finished + {t})
    else (below + [t] + Unfinished(CalleesOf(callees, t), finished), finished)
  }

  // ---------------------------------------------------------------------------
  // Termination

  /** The rank of the topmost function on the stack that is not finished. */
  ghost function TopRank(rank: map<Func, nat>, stack: seq<Func>, finished: set<Func>): nat {
    if stack == [] then 0
    else
      var t := stack[|stack| - 1];
      if t in finished then TopRank(rank, stack[..|stack| - 1], finished)
      else if t in rank then rank[t] else 0
  }

  lemma TurnFalls(callees: Callees, rank: map<Func, nat>, stack: seq<Func>, finished: set<Func>)
    requires stack != [] && Ranked(callees, rank)
    ensures var (stack', finished') := Turn(callees, stack, finished);
            || (finished' == finished + {stack[|stack| - 1]} && stack[|stack| - 1] !in finished)
            || (finished' == finished && TopRank(rank, stack', finished') < TopRank(rank, stack, finished))
            || (finished' == finished && TopRank(rank, stack', finished') == TopRank(rank, stack, finished) &&
                 |stack'| < |stack|)
  {
    var t := stack[|stack| - 1];
    var cs := CalleesOf(callees, t);
    if t !in finished && !AllFinished(cs, finished) {
      var pushed := Unfinished(cs, finished);
      var i :| 0 <= i < |cs| && cs[i] !in finished;
      assert cs[i] in pushed;
      var top := pushed[|pushed| - 1];
      assert top in pushed && top in cs;
      assert rank[top] < rank[t];
    }
  }

  // ---------------------------------------------------------------------------
  // The closure

  /** What a function needs is what it is passed itself and what its callees need. */
  lemma NeedsStep(callees: Callees, g: Succ, passed: map<Func, RegMap>, f: Func, r: EcvReg)
    requires g == JumpGraph(callees, passed.Keys) && Known(callees, passed.Keys) && f in passed
    ensures Needs(g, passed, f, r) <==>
              r in passed[f] || exists c :: c in CalleesOf(callees, f) && Needs(g, passed, c, r)
  {
    if Needs(g, passed, f, r) && r !in passed[f] {
      var h :| h in passed && Reach(g, f, h) && r in passed[h];
      var c := ReachFirstEdge(g, f, h);
      assert c in CalleesOf(callees, f) && Needs(g, passed, c, r);
    }
    if r in passed[f] {
      ReachSelf(g, f);
    }
    if c :| c in CalleesOf(callees, f) && Needs(g, passed, c, r) {
      var h :| h in passed && Reach(g, c, h) && r in passed[h];
      ReachEdge(g, f, c);
      ReachTrans(g, f, c, h);
    }
  }

  /** Finished functions are closed, their callees are finished, and the others are as they were. */
  ghost predicate Progress(callees: Callees, g: Succ, before: map<Func, RegMap>, passed: map<Func, RegMap>,
                           finished: set<Func>) {
    && passed.Keys == before.Keys
    && (forall f :: f in finished ==> f in passed && AllFinished(CalleesOf(callees, f), finished))
    && (forall f {:trigger ClosedOver(g, before, passed, f)} :: f in finished ==> ClosedOver(g, before, passed, f))
    && (forall f, r {:trigger ClassTaken(CalleesOf(callees, f), before, passed, f, r)} ::
          f in finished && r in passed[f] ==> ClassTaken(CalleesOf(callees, f), before, passed, f, r))
    && (forall f :: f in passed && f !in finished ==> passed[f] == before[f])
  }

  lemma Finish(callees: Callees, g: Succ, before: map<Func, RegMap>, passed: map<Func, RegMap>, finished: set<Func>,
               t: Func, m: RegMap)
    requires g == JumpGraph(callees, before.Keys) && Known(callees, before.Keys)
    requires Progress(callees, g, before, passed, finished)
    requires t in passed && t !in finished && AllFinished(CalleesOf(callees, t), finished)
    requires forall r :: r in m <==>
               r in passed[t] || exists c :: c in CalleesOf(callees, t) && c in passed && r in passed[c]
    requires t !in CalleesOf(callees, t)
    requires forall r :: r in m ==> ClassTaken(CalleesOf(callees, t), passed, passed[t := m], t, r)
    ensures Progress(callees, g, before, passed[t := m], finished + {t})
  {
    hide Needs, ClassTaken;
    var passed' := passed[t := m];
    forall f, r {:trigger ClassTaken(CalleesOf(callees, f), before, passed', f, r)} |
      f in finished + {t} && r in passed'[f]
      ensures ClassTaken(CalleesOf(callees, f), before, passed', f, r)
    {
      var cs := CalleesOf(callees, f);
      if f == t {
        ClassTakenBefore(cs, before, passed, passed', f, r);
      } else {
        assert ClassTaken(cs, before, passed, f, r);
        forall i | 0 <= i < |cs|
          ensures cs[i] != t
        {
        }
        ClassTakenSame(cs, before, passed, passed', f, r);
      }
    }
    forall f {:trigger ClosedOver(g, before, passed', f)} | f in finished + {t}
      ensures ClosedOver(g, before, passed', f)
    {
      if f == t {
        forall r
          ensures r in m <==> Needs(g, before, t, r)
        {
          NeedsStep(callees, g, before, t, r);
          forall c | c in CalleesOf(callees, t)
            ensures c in passed && (r in passed[c] <==> Needs(g, before, c, r))
          {
            assert ClosedOver(g, before, passed, c);
          }
        }
      } else {
        assert ClosedOver(g, before, passed, f);
      }
    }
  }

  lemma ClassTakenBefore(cs: seq<Func>, before: map<Func, RegMap>, mid: map<Func, RegMap>, passed: map<Func, RegMap>,
                         f: Func, r: EcvReg)
    requires f in before && f in mid && mid[f] == before[f] && ClassTaken(cs, mid, passed, f, r)
    ensures ClassTaken(cs, before, passed, f, r)
  {
  }

  /** A class stays where it comes from while the maps of the function and of its callees stay. */
  lemma ClassTakenSame(cs: seq<Func>, before: map<Func, RegMap>, passed: map<Func, RegMap>, passed': map<Func, RegMap>,
                       f: Func, r: EcvReg)
    requires ClassTaken(cs, before, passed, f, r) && f in passed' && passed'[f] == passed[f]
    requires forall i :: 0 <= i < |cs| ==> (cs[i] in passed <==> cs[i] in passed')
    requires forall i :: 0 <= i < |cs| && cs[i] in passed ==> passed'[cs[i]] == passed[cs[i]]
    ensures ClassTaken(cs, before, passed', f, r)
  {
    if r !in before[f] {
      var i :| FirstWith(cs, passed, r, i) && passed[f][r] == passed[cs[i]][r];
      assert FirstWith(cs, passed', r, i);
    }
  }

  lemma ProgressStart(callees: Callees, g: Succ, before: map<Func, RegMap>)
    ensures Progress(callees, g, before, before, {})
  {
  }

  lemma RankFalls(callees: Callees, rank: map<Func, nat>, f: Func, c: Func)
    requires Ranked(callees, rank) && c in CalleesOf(callees, f)
    ensures f in rank && c in rank && rank[c] < rank[f]
  {
  }

  lemma CalleesKnown(callees: Callees, funcs: set<Func>, rank: map<Func, nat>, t: Func)
    requires Known(callees, funcs) && Ranked(callees, rank)
    ensures t !in CalleesOf(callees, t)
    ensures forall i :: 0 <= i < |CalleesOf(callees, t)| ==> CalleesOf(callees, t)[i] in funcs
  {
    if t in CalleesOf(callees, t) {
      RankFalls(callees, rank, t, t);
    }
    forall i | 0 <= i < |CalleesOf(callees, t)|
      ensures CalleesOf(callees, t)[i] in funcs
    {
      assert CalleesOf(callees, t)[i] in callees[t];
    }
  }

  /** A turn loses no function that is not finished, and adds none that is unknown. */
  lemma TurnKeeps(callees: Callees, funcs: set<Func>, stack: seq<Func>, finished: set<Func>)
    requires stack != [] && Known(callees, funcs)
    ensures var (stack', finished') := Turn(callees, stack, finished);
            && (forall f :: f in stack ==> f in stack' || f in finished')
            && ((forall f :: f in stack ==> f in funcs) ==> forall f :: f in stack' ==> f in funcs)
  {
    var t := stack[|stack| - 1];
    assert stack == stack[..|stack| - 1] + [t];
  }

  lemma TurnIs(callees: Callees, stack: seq<Func>, finished: set<Func>, stack': seq<Func>, finished': set<Func>)
    requires stack != []
    requires var t := stack[|stack| - 1];
             var below := stack[..|stack| - 1];
             && (t in finished ==> stack' == below && finished' == finished)
             && (t !in finished && AllFinished(CalleesOf(callees, t), finished) ==>
                  stack' == below && finished' == finished + {t})
             && (t !in finished && !AllFinished(CalleesOf(callees, t), finished) ==>
                   stack' == below + [t] + Unfinished(CalleesOf(callees, t), finished) && finished' == finished)
    ensures Turn(callees, stack, finished) == (stack', finished')
  {
  }

  lemma Fewer(funcs: set<Func>, finished: set<Func>, t: Func)
    requires t in funcs
    ensures t !in finished ==> |funcs - (finished + {t})| < |funcs - finished|
  {
    assert funcs - (finished + {t}) == (funcs - finished) - {t};
  }

  /** At the end every function is closed: the finished ones, and those that jump nowhere. */
  lemma AllClosed(callees: Callees, g: Succ, before: map<Func, RegMap>, passed: map<Func, RegMap>, finished: set<Func>)
    requires g == JumpGraph(callees, before.Keys) && Known(callees, before.Keys)
    requires Progress(callees, g, before, passed, finished)
    requires forall f :: f in callees ==> f in finished
    ensures forall f, r :: f in passed ==> (r in passed[f] <==> Needs(g, before, f, r))
    ensures forall f, r :: f in passed && r in passed[f] ==> ClassTaken(CalleesOf(callees, f), before, passed, f, r)
  {
    hide Needs;
    forall f, r | f in passed && r in passed[f]
      ensures ClassTaken(CalleesOf(callees, f), before, passed, f, r)
    {
      if f !in finished {
        assert passed[f] == before[f];
      }
    }
    forall f, r | f in passed
      ensures r in passed[f] <==> Needs(g, before, f, r)
    {
      if f in finished {
        assert ClosedOver(g, before, passed, f);
      } else {
        NeedsStep(callees, g, before, f, r);
      }
    }
  }

  // ---------------------------------------------------------------------------
  // Cycles

  /** The stack and the finished functions after `n` turns, or when the stack is empty. */
  ghost function Turns(callees: Callees, stack: seq<Func>, finished: set<Func>, n: nat): (seq<Func>, set<Func>)
    decreases n
  {
    if n == 0 || stack == [] then (stack, finished)
    else
      var next := Turn(callees, stack, finished);
      Turns(callees, next.0, next.1, n - 1)
  }

  /** Every function of `cycle` jumps to one of `cycle`. */
  ghost predicate Cyclic(callees: Callees, cycle: set<Func>) {
    forall f {:trigger JumpsInto(callees, cycle, f)} :: f in cycle ==> JumpsInto(callees, cycle, f)
  }

  ghost predicate JumpsInto(callees: Callees, cycle: set<Func>, f: Func) {
    exists c :: c in CalleesOf(callees, f) && c in cycle
  }

  lemma NotAllFinished(callees: Callees, cycle: set<Func>, finished: set<Func>, t: Func)
    requires Cyclic(callees, cycle) && t in cycle && NoneFinished(cycle, finished)
    ensures !AllFinished(CalleesOf(callees, t), finished)
  {
    assert JumpsInto(callees, cycle, t);
    var cs := CalleesOf(callees, t);
    var c :| c in cs && c in cycle;
    var i :| 0 <= i < |cs| && cs[i] == c;
  }

  ghost predicate NoneFinished(cycle: set<Func>, finished: set<Func>) {
    forall f :: f in cycle ==> f !in finished
  }

  /** One turn finishes no function of the cycle and leaves those on the stack there. */
  lemma TurnOnCycle(callees: Callees, cycle: set<Func>, stack: seq<Func>, finished: set<Func>, f: Func)
    requires Cyclic(callees, cycle) && f in cycle && f in stack && NoneFinished(cycle, finished)
    ensures var (stack', finished') := Turn(callees, stack, finished); f in stack' && NoneFinished(cycle, finished')
  {
    var t := stack[|stack| - 1];
    assert stack == stack[..|stack| - 1] + [t];
    if t in cycle {
      NotAllFinished(callees, cycle, finished, t);
    }
    hide Cyclic, AllFinished, Unfinished, CalleesOf;
  }

  /** Functions that jump in a circle are never finished: once one is on the stack, the stack is never empty. */
  lemma {:induction false} CycleNeverEnds(callees: Callees, cycle: set<Func>, stack: seq<Func>, finished: set<Func>,
                                          f: Func, n: nat)
    requires Cyclic(callees, cycle) && f in cycle && f in stack && NoneFinished(cycle, finished)
    ensures f in Turns(callees, stack, finished, n).0
    decreases n
  {
    hide Turn, Cyclic, NoneFinished;
    if n > 0 {
      TurnOnCycle(callees, cycle, stack, finished, f);
      var next := Turn(callees, stack, finished);
      CycleNeverEnds(callees, cycle, next.0, next.1, f, n - 1);
    }
  }

  // ---------------------------------------------------------------------------
  // The loop ends exactly when nothing jumps in a circle

  ghost predicate NoCircles(callees: Callees) {
    forall cycle: set<Func> :: cycle != {} ==> !Cyclic(callees, cycle)
  }

  /** `done` is closed under tail jumps, and `rank` falls along the jumps within it. */
  ghost predicate RankedIn(callees: Callees, done: set<Func>, rank: map<Func, nat>) {
    && rank.Keys == done
    && forall f, c {:trigger c in CalleesOf(callees, f)} :: f in done && c in CalleesOf(callees, f) ==>
         c in done && rank[c] < rank[f]
  }

  /** A number above all ranks. */
  lemma {:induction false} RankBound(rank: map<Func, nat>) returns (n: nat)
    ensures forall f :: f in rank ==> rank[f] < n
    decreases |rank.Keys|
  {
    if rank.Keys == {} {
      n := 0;
    } else {
      var f :| f in rank;
      var rest := rank - {f};
      assert rest.Keys == rank.Keys - {f};
      var m := RankBound(rest);
      n := if m <= rank[f] then rank[f] + 1 else m;
      forall x | x in rank
        ensures rank[x] < n
      {
        assert x != f ==> x in rest && rest[x] == rank[x];
      }
    }
  }

  /** Functions are numbered once all that they jump to are. If none could be numbered next, the others would jump in a
      circle. */
  lemma {:induction false} Numbered(callees: Callees, funcs: set<Func>, done: set<Func>, rank: map<Func, nat>)
    returns (all: map<Func, nat>)
    requires Known(callees, funcs) && NoCircles(callees) && done <= funcs && RankedIn(callees, done, rank)
    ensures RankedIn(callees, funcs, all)
    decreases |funcs - done|
  {
    hide RankedIn, NoCircles;
    var left := funcs - done;
    if left == {} {
      assert done == funcs;
      all := rank;
    } else {
      var f := LastInRow(callees, left);
      forall c | c in CalleesOf(callees, f)
        ensures c in done
      {
        assert c in funcs && c !in left;
      }
      var n := RankBound(rank);
      RankedNext(callees, done, rank, f, n);
      assert funcs - (done + {f}) == left - {f};
      all := Numbered(callees, funcs, done + {f}, rank[f := n]);
    }
  }

  /** Some function of `left` jumps to none of them. */
  lemma LastInRow(callees: Callees, left: set<Func>) returns (f: Func)
    requires NoCircles(callees) && left != {}
    ensures f in left && forall c :: c in CalleesOf(callees, f) ==> c !in left
  {
    hide CalleesOf;
    assert !Cyclic(callees, left);
    f :| f in left && !JumpsInto(callees, left, f);
  }

  lemma RankedNext(callees: Callees, done: set<Func>, rank: map<Func, nat>, f: Func, n: nat)
    requires RankedIn(callees, done, rank) && f !in done && forall x :: x in rank ==> rank[x] < n
    requires forall c :: c in CalleesOf(callees, f) ==> c in done
    ensures RankedIn(callees, done + {f}, rank[f := n])
  {
    hide CalleesOf;
    assert rank[f := n].Keys == done + {f};
  }

  /** Without circles, some rank falls along every tail jump. */
  lemma RankExists(callees: Callees, funcs: set<Func>) returns (rank: map<Func, nat>)
    requires Known(callees, funcs) && NoCircles(callees)
    ensures Ranked(callees, rank)
  {
    rank := Numbered(callees, funcs, {}, map[]);
    forall f, c | f in callees && c in callees[f]
      ensures f in rank && c in rank && rank[c] < rank[f]
    {
      assert c in CalleesOf(callees, f);
    }
  }

  lemma {:induction false} TurnsEnd(callees: Callees, funcs: set<Func>, rank: map<Func, nat>, stack: seq<Func>,
                                    finished: set<Func>) returns (n: nat)
    requires Known(callees, funcs) && Ranked(callees, rank) && forall f :: f in stack ==> f in funcs
    ensures Turns(callees, stack, finished, n).0 == []
    decreases |funcs - finished|, TopRank(rank, stack, finished), |stack|
  {
    hide Turn, Ranked, Known, TopRank;
    if stack == [] {
      n := 0;
    } else {
      var next := Turn(callees, stack, finished);
      assert stack[|stack| - 1] in stack;
      TurnKeeps(callees, funcs, stack, finished);
      TurnFalls(callees, rank, stack, finished);
      Fewer(funcs, finished, stack[|stack| - 1]);
      var m := TurnsEnd(callees, funcs, rank, next.0, next.1);
      n := m + 1;
    }
  }

  /** Started with all functions that end in a tail jump, the loop ends if and only if none of them jumps in a
      circle. */
  lemma EndsIffNoCircles(callees: Callees, funcs: set<Func>, stack: seq<Func>)
    requires Known(callees, funcs) && (forall f :: f in stack ==> f in funcs) && forall f :: f in callees ==> f in stack
    ensures (exists n :: Turns(callees, stack, {}, n).0 == []) <==> NoCircles(callees)
  {
    if NoCircles(callees) {
      var rank := RankExists(callees, funcs);
      var n := TurnsEnd(callees, funcs, rank, stack, {});
    }
    forall n, cycle: set<Func> | Turns(callees, stack, {}, n).0 == [] && cycle != {} && Cyclic(callees, cycle)
      ensures false
    {
      var f :| f in cycle;
      assert JumpsInto(callees, cycle, f);
      assert f in callees;
      CycleNeverEnds(callees, cycle, stack, {}, f, n);
    }
  }

  class VirtualRegsOpts {
    var passedCaller: map<Func, RegMap>
    var callees: Callees

    constructor (passed: map<Func, RegMap>, callees: Callees)
      ensures passedCaller == passed && this.callees == callees
    {
      passedCaller, this.callees := passed, callees;
    }

    /** Adds what the callees of `t` are passed. */
    method TakeFromCallees(t: Func)
      requires t in passedCaller
      requires forall i :: 0 <= i < |CalleesOf(callees, t)| ==> CalleesOf(callees, t)[i] in passedCaller
      requires t !in CalleesOf(callees, t)
      modifies `passedCaller
      ensures t in passedCaller && passedCaller == old(passedCaller)[t := passedCaller[t]]
      ensures forall r :: r in passedCaller[t] <==>
                || r in old(passedCaller)[t]
                || exists c :: c in CalleesOf(callees, t) && c in old(passedCaller) && r in old(passedCaller)[c]
      ensures forall r :: r in passedCaller[t] ==>
                ClassTaken(CalleesOf(callees, t), old(passedCaller), passedCaller, t, r)
    {
      ghost var before := passedCaller;
      var cs := CalleesOf(callees, t);
      var m := passedCaller[t];
      for i := 0 to |cs|
        invariant passedCaller == before
        invariant forall r :: r in m <==> r in before[t] || exists j :: 0 <= j < i && r in before[cs[j]]
        invariant forall r :: r in before[t] ==> m[r] == before[t][r]
        invariant forall r :: r in m && r !in before[t] ==>
                    exists j :: 0 <= j < i && FirstWith(cs, before, r, j) && m[r] == before[cs[j]][r]
      {
        // a register that is there already keeps its class
        m := passedCaller[cs[i]] + m;
      }
      passedCaller := passedCaller[t := m];
      forall r | r in m
        ensures ClassTaken(cs, before, passedCaller, t, r)
      {
        if r !in before[t] {
          var j :| 0 <= j < |cs| && FirstWith(cs, before, r, j) && m[r] == before[cs[j]][r];
          assert cs[j] != t;
          assert forall k :: 0 <= k < |cs| ==> cs[k] != t;
          assert FirstWith(cs, passedCaller, r, j);
        }
      }
    }

    /** Closes the register maps of all functions that end in a tail jump, and of those that they reach. */
    method CalPassedCallerRegForBJump()
      requires Known(callees, passedCaller.Keys) && NoCircles(callees)
      modifies `passedCaller
      ensures passedCaller.Keys == old(passedCaller.Keys)
      ensures forall f, r :: f in passedCaller ==>
                (r in passedCaller[f] <==> Needs(JumpGraph(callees, old(passedCaller.Keys)), old(passedCaller), f, r))
      ensures forall f, r :: f in passedCaller && r in passedCaller[f] ==>
                ClassTaken(if f in callees then callees[f] else [], old(passedCaller), passedCaller, f, r)
    {
      hide Needs, JumpGraph, Turn, TopRank, Progress, Ranked, NoCircles, ClassTaken;
      ghost var rank := RankExists(callees, passedCaller.Keys);
      ghost var before, g := passedCaller, JumpGraph(callees, passedCaller.Keys);
      var stack: seq<Func> := [];
      var todo := callees.Keys;
      while todo != {}
        invariant todo <= callees.Keys && forall f :: f in callees.Keys - todo ==> f in stack
        invariant (forall f :: f in stack ==> f in before) && passedCaller == before
        decreases todo
      {
        var f :| f in todo;
        stack := stack + [f];
        todo := todo - {f};
      }
      var finished: set<Func> := {};
      ProgressStart(callees, g, before);
      while stack != []
        invariant Progress(callees, g, before, passedCaller, finished) && passedCaller.Keys == before.Keys
        invariant finished <= before.Keys
        invariant (forall f :: f in stack ==> f in before) && forall f :: f in callees ==> f in stack || f in finished
        decreases |before.Keys - finished|, TopRank(rank, stack, finished), |stack|
      {
        ghost var stack0, finished0, passed0 := stack, finished, passedCaller;
        var t := stack[|stack| - 1];
        assert t in stack0;
        stack := stack[..|stack| - 1];
        if t !in finished {
          var cs := CalleesOf(callees, t);
          if AllFinished(cs, finished) {
            CalleesKnown(callees, before.Keys, rank, t);
            TakeFromCallees(t);
            Finish(callees, g, before, passed0, finished, t, passedCaller[t]);
            finished := finished + {t};
          } else {
            stack := stack + [t] + Unfinished(cs, finished);
          }
        }
        TurnKeeps(callees, before.Keys, stack0, finished0);
        TurnIs(callees, stack0, finished0, stack, finished);
        TurnFalls(callees, rank, stack0, finished0);
        Fewer(before.Keys, finished0, t);
      }
      AllClosed(callees, g, before, passedCaller, finished);
    }
  }
}
