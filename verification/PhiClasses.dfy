/** The classes of the derived registers, stated on the control-flow graph. */
module PhiClasses {
  import opened Registers
  import opened Graphs
  import opened LoopSearch
  import opened Families
  import opened LoopState
  import opened Dataflow
  import opened PhiRegs

  ghost predicate ClassAt(maps: RegMaps, a: Block, r: EcvReg, c: ERC) {
    a in maps && r in maps[a] && maps[a][r] == c
  }

  /** A block strictly before `b` accesses `r` with the class `c`. */
  ghost predicate ClassBefore(g: Succ, maps: RegMaps, b: Block, r: EcvReg, c: ERC) {
    exists a :: a in g && Reach(g, a, b) && !Reach(g, b, a) && ClassAt(maps, a, r, c)
  }

  /** A block on a loop with `b`, or `b` itself, accesses `r` with the class `c`. */
  ghost predicate ClassAround(g: Succ, maps: RegMaps, b: Block, r: EcvReg, c: ERC) {
    exists a :: a in g && SameComponent(g, a, b) && ClassAt(maps, a, r, c)
  }

  /** An access with the class `c` is a reason for `b` to derive `r`. */
  ghost predicate GivesClass(g: Succ, ld: RegMaps, str: RegMaps, bagOf: Rep, garbage: set<Block>, b: Block, r: EcvReg,
                             c: ERC)
    requires b in bagOf
  {
    || ((r.CheckPassedArgsRegs() || ReadLater(g, ld, bagOf, b, r)) && ClassBefore(g, str, b, r, c))
    || (ReadLater(g, ld, bagOf, b, r) && ClassBefore(g, ld, b, r, c))
    || ((bagOf[b] in garbage || OnLoopOfBlocks(g, b)) && ClassAround(g, ld, b, r, c))
  }

  /** `c` is one of the widest classes that are a reason to derive `r`. */
  ghost predicate WidestClass(g: Succ, ld: RegMaps, str: RegMaps, bagOf: Rep, garbage: set<Block>, b: Block, r: EcvReg,
                              c: ERC)
    requires b in bagOf
  {
    && GivesClass(g, ld, str, bagOf, garbage, b, r, c)
    && forall d :: GivesClass(g, ld, str, bagOf, garbage, b, r, d) ==> ERCSize(d) <= ERCSize(c)
  }

  /** Which of its sources the class of a derived register comes from. */
  lemma DrvdClass(presLd: RegMap, presStr: RegMap, ownLd: RegMap, sucsLd: RegMap, isLoop: bool, r: EcvReg)
    requires r in DrvdOf(presLd, presStr, ownLd, sucsLd, isLoop)
    ensures var c := DrvdOf(presLd, presStr, ownLd, sucsLd, isLoop)[r];
            || (r in presStr && (r.CheckPassedArgsRegs() || r in sucsLd) && c == presStr[r])
            || (r in presLd && r in sucsLd && c == presLd[r])
            || (isLoop && r in ownLd && c == ownLd[r])
  {
  }

  lemma JoinsWidest(m: RegMap, maps: RegMaps, s: set<Block>, r: EcvReg)
    requires Joins(m, maps, s)
    ensures r in m ==> exists v :: v in s && ClassAt(maps, v, r, m[r])
    ensures forall v, d :: v in s && ClassAt(maps, v, r, d) ==> r in m && ERCSize(d) <= ERCSize(m[r])
  {
    if r in m {
      var v :| Supplies(maps, s, v, r, m[r]);
      assert ClassAt(maps, v, r, m[r]);
    }
  }

  /** The class that a bag has collected before it, read off the blocks. */
  lemma BeforeIsWidest(g: Succ, rep: Rep, children: Succ, parents: Succ, order: seq<Block>, maps: RegMaps,
                       pres: RegMaps, b: Block, r: EcvReg)
    requires LoopFree(g, rep, children, parents, order) && b in g && b in rep
    requires JoinsBefore(g, rep, maps, pres, rep[b])
    ensures r in pres[rep[b]] ==> ClassBefore(g, maps, b, r, pres[rep[b]][r])
    ensures forall d :: ClassBefore(g, maps, b, r, d) ==> r in pres[rep[b]] && ERCSize(d) <= ERCSize(pres[rep[b]][r])
  {
    hide LoopFree, Joins, Reach, ClassAt;
    JoinsWidest(pres[rep[b]], maps, Before(g, rep, rep[b]), r);
    forall v | v in g
      ensures v in Before(g, rep, rep[b]) <==> Reach(g, v, b) && !Reach(g, b, v)
    {
      BeforeIsStrict(g, rep, children, parents, order, b, v);
    }
    if r in pres[rep[b]] {
      var v :| v in Before(g, rep, rep[b]) && ClassAt(maps, v, r, pres[rep[b]][r]);
      assert v in g;
    }
  }

  lemma OwnIsWidest(g: Succ, rep: Rep, children: Succ, parents: Succ, order: seq<Block>, maps: RegMaps, own: RegMaps,
                    b: Block, r: EcvReg)
    requires LoopFree(g, rep, children, parents, order) && b in g && b in rep && OwnsClass(rep, own, maps, rep[b])
    ensures r in own[rep[b]] ==> ClassAround(g, maps, b, r, own[rep[b]][r])
    ensures forall d :: ClassAround(g, maps, b, r, d) ==> r in own[rep[b]] && ERCSize(d) <= ERCSize(own[rep[b]][r])
  {
    hide LoopFree, Joins, SameComponent, ClassAt, Reach;
    LoopFreeParts(g, rep, children, parents, order);
    JoinsWidest(own[rep[b]], maps, Class(rep, rep[b]), r);
    forall v | v in g
      ensures v in Class(rep, rep[b]) <==> SameComponent(g, v, b)
    {
      LoopFreeSame(g, rep, children, parents, order, v, b);
    }
    if r in own[rep[b]] {
      var v :| v in Class(rep, rep[b]) && ClassAt(maps, v, r, own[rep[b]][r]);
      assert v in g;
    }
  }

  /** The class of a derived register is the widest of those that are a reason to derive it. */
  lemma DrvdIsWidest(g: Succ, rep: Rep, children: Succ, parents: Succ, order: seq<Block>, ld: RegMaps, str: RegMaps,
                     ownLd: RegMaps, presLd: RegMaps, presStr: RegMaps, sucsLd: RegMaps, isLoop: map<Block, bool>,
                     garbage: set<Block>, b: Block, r: EcvReg)
    requires Closed(g) && LoopFree(g, rep, children, parents, order) && b in g && b in rep && rep[b] in isLoop
    requires OwnsClass(rep, ownLd, ld, rep[b]) && JoinsAfter(g, rep, ld, sucsLd, rep[b])
    requires JoinsBefore(g, rep, ld, presLd, rep[b]) && JoinsBefore(g, rep, str, presStr, rep[b])
    requires isLoop[rep[b]] <==> rep[b] in garbage || Plural(rep, rep[b])
    requires r in DrvdOf(presLd[rep[b]], presStr[rep[b]], ownLd[rep[b]], sucsLd[rep[b]], isLoop[rep[b]])
    ensures var x := rep[b];
            WidestClass(g, ld, str, rep, garbage, b, r,
              DrvdOf(presLd[x], presStr[x], ownLd[x], sucsLd[x], isLoop[x])[r])
  {
    hide LoopFree, Closed, Joins, DrvdOf, ClassBefore, ClassAround, ReadLater, OnLoopOfBlocks, Plural, Reach;
    var x := rep[b];
    DrvdMembers(presLd[x], presStr[x], ownLd[x], sucsLd[x], isLoop[x], r);
    DrvdClass(presLd[x], presStr[x], ownLd[x], sucsLd[x], isLoop[x], r);
    BeforeIsWidest(g, rep, children, parents, order, ld, presLd, b, r);
    BeforeIsWidest(g, rep, children, parents, order, str, presStr, b, r);
    OwnIsWidest(g, rep, children, parents, order, ld, ownLd, b, r);
    AfterIsReadLater(g, rep, children, parents, order, ld, sucsLd, b, r);
    PluralIsLoop(g, rep, children, parents, order, b);
  }

  lemma AllWidest(g: Succ, rep: Rep, children: Succ, parents: Succ, order: seq<Block>, ld: RegMaps, str: RegMaps,
                  ownLd: RegMaps, presLd: RegMaps, presStr: RegMaps, sucsLd: RegMaps, isLoop: map<Block, bool>,
                  garbage: set<Block>, drvd: RegMaps, b: Block, r: EcvReg)
    requires Closed(g) && LoopFree(g, rep, children, parents, order) && b in g && b in rep
    requires OwnsClasses(rep, ownLd, ld) && LoopsMarked(rep, isLoop, garbage, {})
    requires Forward(g, rep, ld, presLd, Live(rep)) && Forward(g, rep, str, presStr, Live(rep))
    requires Backward(g, rep, ld, sucsLd, Live(rep))
    requires DrvdAt(drvd, presLd, presStr, ownLd, sucsLd, isLoop, rep[b]) && r in drvd[rep[b]]
    ensures WidestClass(g, ld, str, rep, garbage, b, r, drvd[rep[b]][r])
  {
    hide LoopFree, OwnsClasses, LoopsMarked, Forward, Backward, Closed, DrvdOf, IsRep, WidestClass, JoinsBefore,
         JoinsAfter, OwnsClass, Plural, Live, Connected, Settled, TopoOrder;
    LoopFreeParts(g, rep, children, parents, order);
    RepLive(g, rep, b);
    PassesDone(g, rep, ld, str, ownLd, presLd, presStr, sucsLd, isLoop, garbage, rep[b]);
    DrvdIsWidest(g, rep, children, parents, order, ld, str, ownLd, presLd, presStr, sucsLd, isLoop, garbage, b, r);
  }

  /** Every derived register of every block has the widest class. */
  ghost predicate ClassesWidest(g: Succ, ld: RegMaps, str: RegMaps, bagOf: Rep, garbage: set<Block>, drvd: RegMaps) {
    forall b, r :: b in g && b in bagOf && bagOf[b] in drvd && r in drvd[bagOf[b]] ==>
      WidestClass(g, ld, str, bagOf, garbage, b, r, drvd[bagOf[b]][r])
  }

  lemma ClassesCollected(g: Succ, rep: Rep, children: Succ, parents: Succ, order: seq<Block>, ld: RegMaps, str: RegMaps,
                         ownLd: RegMaps, presLd: RegMaps, presStr: RegMaps, sucsLd: RegMaps, isLoop: map<Block, bool>,
                         garbage: set<Block>, drvd: RegMaps, finished: set<Block>)
    requires Closed(g) && LoopFree(g, rep, children, parents, order)
    requires OwnsClasses(rep, ownLd, ld) && LoopsMarked(rep, isLoop, garbage, {})
    requires Forward(g, rep, ld, presLd, Live(rep)) && Forward(g, rep, str, presStr, Live(rep))
    requires Backward(g, rep, ld, sucsLd, Live(rep))
    requires DrvdAll(drvd, presLd, presStr, ownLd, sucsLd, isLoop, finished)
    requires rep.Keys == g.Keys && forall b :: b in rep ==> rep[b] in finished
    ensures ClassesWidest(g, ld, str, rep, garbage, drvd)
  {
    hide LoopFree, OwnsClasses, LoopsMarked, Forward, Backward, Closed, WidestClass, DrvdAt;
    forall b, r | b in g && b in rep && rep[b] in drvd && r in drvd[rep[b]]
      ensures WidestClass(g, ld, str, rep, garbage, b, r, drvd[rep[b]][r])
    {
      assert rep[b] in finished && DrvdAt(drvd, presLd, presStr, ownLd, sucsLd, isLoop, rep[b]);
      AllWidest(g, rep, children, parents, order, ld, str, ownLd, presLd, presStr, sucsLd, isLoop, garbage, drvd, b, r);
    }
  }
}
