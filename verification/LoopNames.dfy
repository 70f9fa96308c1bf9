/** The names of the bags: where the graph determines them, the conditions for right values can be checked before the
    search. */
module LoopNames {
  import opened Registers
  import opened Graphs
  import opened LoopState
  import opened LoopHeads
  import opened PhiRegs
  import opened Promoted
  import opened PhiSafety
  import opened ReadSafety

  /** A loop that nothing leaves is entered at one block only. */
  ghost predicate FinalLoopsEnterOnce(g: Succ, root: Block) {
    forall d :: d in g && OnLoopOfBlocks(g, d) && !LeavesLoop(g, d) ==> exists h :: EnteredOnlyAt(g, root, d, h)
  }

  /** From the root, the component of `h` is entered at `h` alone. */
  ghost predicate OnlyEntry(g: Succ, root: Block, h: Block) {
    && h in g && Reach(g, root, h) && (SameComponent(g, root, h) ==> root == h)
    && forall v, w :: v in g && w in g[v] && Reach(g, root, v) && SameComponent(g, w, h) && !SameComponent(g, v, h) ==>
         w == h
  }

  ghost predicate EnteredOnlyAt(g: Succ, root: Block, d: Block, h: Block) {
    OnlyEntry(g, root, h) && SameComponent(g, d, h)
  }

  /** Each block with the only block at which its loop is entered; blocks of other loops with themselves. */
  ghost function EntryNames(g: Succ, root: Block): Rep {
    map b | b in g :: EntryName(g, root, b)
  }

  ghost function EntryName(g: Succ, root: Block, b: Block): Block {
    if exists h: Block :: EnteredOnlyAt(g, root, b, h) then
      var h: Block :| EnteredOnlyAt(g, root, b, h);
      h
    else b
  }

  /** The bag of a block that is on no loop is its own. */
  lemma AloneNamed(g: Succ, root: Block, bagOf: Rep, d: Block)
    requires ComponentBags(g, bagOf) && d in g && !OnLoopOfBlocks(g, d)
    ensures bagOf[d] == d && EntryName(g, root, d) == d
  {
    hide Reach;
    assert SameComponent(g, d, bagOf[d]) && bagOf[d] in g;
    AloneName(g, root, d);
  }

  lemma AloneName(g: Succ, root: Block, d: Block)
    requires d in g && !OnLoopOfBlocks(g, d)
    ensures EntryName(g, root, d) == d
  {
    hide Reach;
    if exists h: Block :: EnteredOnlyAt(g, root, d, h) {
      assert EnteredOnlyAt(g, root, d, EntryName(g, root, d));
    }
  }

  /** The names that a caller can tell from the graph are as good as those that the search comes to. */
  lemma SeenByName(g: Succ, root: Block, bagOf: Rep, d: Block)
    requires ComponentBags(g, bagOf) && NamedAtEntries(g, root, bagOf) && FinalLoopsEnterOnce(g, root) && d in g
    ensures Seen(g, bagOf, d) <==> Seen(g, EntryNames(g, root), d)
  {
    hide Reach, OnlyEntry;
    if !LeavesLoop(g, d) {
      if OnLoopOfBlocks(g, d) {
        assert exists h :: EnteredOnlyAt(g, root, d, h);
        var h := EntryName(g, root, d);
        assert EnteredOnlyAt(g, root, d, h);
        NamedByHead(g, root, bagOf, d, h);
      } else {
        AloneNamed(g, root, bagOf, d);
      }
    }
  }

  lemma NamedByHead(g: Succ, root: Block, bagOf: Rep, d: Block, h: Block)
    requires ComponentBags(g, bagOf) && NamedAtEntries(g, root, bagOf) && d in g && EnteredOnlyAt(g, root, d, h)
    ensures bagOf[d] == h
  {
    hide Reach, ComponentBags;
    ReachTrans(g, root, h, d);
    var e := bagOf[d];
    assert Entered(g, root, e) && SameComponent(g, d, e);
    ReachTrans(g, h, d, e);
    ReachTrans(g, e, d, h);
    if e != root {
      var v :| EnteredFrom(g, root, v, e);
      OutsideToo(g, v, e, h);
    }
  }

  lemma OutsideToo(g: Succ, v: Block, e: Block, h: Block)
    requires !SameComponent(g, v, e) && SameComponent(g, e, h) && v in g
    ensures !SameComponent(g, v, h)
  {
    hide Reach;
    if SameComponent(g, v, h) {
      ReachTrans(g, v, h, e);
      ReachTrans(g, e, h, v);
    }
  }

  lemma NeedsByName(g: Succ, root: Block, ld: RegMaps, str: RegMaps, bagOf: Rep, b: Block, r: EcvReg)
    requires ComponentBags(g, bagOf) && NamedAtEntries(g, root, bagOf) && FinalLoopsEnterOnce(g, root) && b in g
    ensures b in bagOf && b in EntryNames(g, root)
    ensures NeedsAnyway(g, ld, str, bagOf, b, r) <==> NeedsAnyway(g, ld, str, EntryNames(g, root), b, r)
  {
    hide Reach, Seen, TouchedBefore, TouchedAround, OnLoopOfBlocks, EntryName, NamedAtEntries, FinalLoopsEnterOnce;
    forall d | d in g
      ensures Seen(g, bagOf, d) <==> Seen(g, EntryNames(g, root), d)
    {
      SeenByName(g, root, bagOf, d);
    }
    if !OnLoopOfBlocks(g, b) {
      AloneNamed(g, root, bagOf, b);
    }
  }

  /** Two namings under which the same blocks need the same phis. */
  ghost predicate SameNeeds(g: Succ, ld: RegMaps, str: RegMaps, bagOf: Rep, names: Rep) {
    && (forall b :: b in g ==> b in bagOf && b in names)
    && forall b, r :: b in g ==> (NeedsAnyway(g, ld, str, bagOf, b, r) <==> NeedsAnyway(g, ld, str, names, b, r))
  }

  lemma EdgesSame(g: Succ, ld: RegMaps, str: RegMaps, bagOf: Rep, names: Rep)
    requires Closed(g) && SameNeeds(g, ld, str, bagOf, names) && EdgesSafe(g, ld, str, bagOf)
    ensures EdgesSafe(g, ld, str, names)
  {
    hide NeedsAnyway, WrittenBy, Touches;
    forall c, b, r | c in g && b in g[c] && b in names && c in names && LoadedBehind(g, ld, str, names, c, b, r)
      ensures !WrittenBy(g, str, c, r)
    {
      assert LoadedBehind(g, ld, str, bagOf, c, b, r);
    }
  }

  lemma SelfLoopsSame(g: Succ, succs: Targets, ld: RegMaps, str: RegMaps, bagOf: Rep, names: Rep, garbage: set<Block>)
    requires SameNeeds(g, ld, str, bagOf, names) && SelfLoopsSafe(g, succs, ld, str, bagOf, garbage)
    ensures SelfLoopsSafe(g, succs, ld, str, names, garbage)
  {
    hide NeedsAnyway, Touches;
  }

  lemma LoadsSame(g: Succ, succs: Targets, ld: RegMaps, str: RegMaps, bagOf: Rep, names: Rep)
    requires GraphOf(succs, g) && SameNeeds(g, ld, str, bagOf, names) && LoadsSafe(g, succs, ld, str, bagOf)
    ensures LoadsSafe(g, succs, ld, str, names)
  {
    hide NeedsAnyway, WrittenBy, Touches;
    forall w, r {:trigger Delivers(succs, ld, str, w, r)} |
      Delivers(succs, ld, str, w, r) && w[0] in names && !NeedsAnyway(g, ld, str, names, w[0], r)
      ensures !WrittenBy(g, str, w[0], r)
    {
      assert w[0] in g;
    }
  }

  lemma ReturnsSame(g: Succ, succs: Targets, ld: RegMaps, str: RegMaps, bagOf: Rep, names: Rep, r: EcvReg)
    requires GraphOf(succs, g) && SameNeeds(g, ld, str, bagOf, names) && ReturnsSafe(g, succs, ld, str, bagOf, r)
    ensures ReturnsSafe(g, succs, ld, str, names, r)
  {
    hide NeedsAnyway, WrittenBy, Touches;
    forall w {:trigger Quiet(succs, str, w, r)} |
      Quiet(succs, str, w, r) && w[0] in names && !NeedsAnyway(g, ld, str, names, w[0], r)
      ensures !WrittenBy(g, str, w[0], r)
    {
      assert w[0] in g;
    }
  }

  lemma SameByName(g: Succ, root: Block, ld: RegMaps, str: RegMaps, bagOf: Rep)
    requires ComponentBags(g, bagOf) && NamedAtEntries(g, root, bagOf) && FinalLoopsEnterOnce(g, root)
    ensures SameNeeds(g, ld, str, bagOf, EntryNames(g, root)) && SameNeeds(g, ld, str, EntryNames(g, root), bagOf)
  {
    hide NeedsAnyway, ComponentBags, FinalLoopsEnterOnce, NamedAtEntries, EntryNames;
    forall b, r | b in g
      ensures b in bagOf && b in EntryNames(g, root)
      ensures NeedsAnyway(g, ld, str, bagOf, b, r) <==> NeedsAnyway(g, ld, str, EntryNames(g, root), b, r)
    {
      NeedsByName(g, root, ld, str, bagOf, b, r);
    }
    forall b | b in g
      ensures b in bagOf && b in EntryNames(g, root)
    {
      NeedsByName(g, root, ld, str, bagOf, b, EcvReg(General, 0));
    }
  }

  /** Under two such namings the same functions are promoted rightly. */
  lemma SafeSame(g: Succ, succs: Targets, ld: RegMaps, str: RegMaps, bagOf: Rep, names: Rep, garbage: set<Block>)
    requires GraphOf(succs, g) && Closed(g) && SameNeeds(g, ld, str, bagOf, names)
    ensures EdgesSafe(g, ld, str, bagOf) ==> EdgesSafe(g, ld, str, names)
    ensures SelfLoopsSafe(g, succs, ld, str, bagOf, garbage) ==> SelfLoopsSafe(g, succs, ld, str, names, garbage)
    ensures ReadsSafe(g, succs, ld, str, bagOf, garbage) ==> ReadsSafe(g, succs, ld, str, names, garbage)
    ensures forall r :: ReturnsSafe(g, succs, ld, str, bagOf, r) ==> ReturnsSafe(g, succs, ld, str, names, r)
  {
    hide GraphOf, Closed, SameNeeds, EdgesSafe, SelfLoopsSafe, LoadsSafe, ReturnsSafe;
    if EdgesSafe(g, ld, str, bagOf) {
      EdgesSame(g, ld, str, bagOf, names);
    }
    if SelfLoopsSafe(g, succs, ld, str, bagOf, garbage) {
      SelfLoopsSame(g, succs, ld, str, bagOf, names, garbage);
    }
    if LoadsSafe(g, succs, ld, str, bagOf) {
      LoadsSame(g, succs, ld, str, bagOf, names);
    }
    forall r | ReturnsSafe(g, succs, ld, str, bagOf, r)
      ensures ReturnsSafe(g, succs, ld, str, names, r)
    {
      ReturnsSame(g, succs, ld, str, bagOf, names, r);
    }
  }

  /** The conditions, with the names of the bags from the graph. */
  lemma SafeByName(g: Succ, root: Block, succs: Targets, ld: RegMaps, str: RegMaps, bagOf: Rep, garbage: set<Block>)
    requires ComponentBags(g, bagOf) && NamedAtEntries(g, root, bagOf) && FinalLoopsEnterOnce(g, root)
    requires GraphOf(succs, g) && Closed(g)
    ensures var names := EntryNames(g, root);
            && (EdgesSafe(g, ld, str, bagOf) <==> EdgesSafe(g, ld, str, names))
            && (SelfLoopsSafe(g, succs, ld, str, bagOf, garbage) <==> SelfLoopsSafe(g, succs, ld, str, names, garbage))
            && (ReadsSafe(g, succs, ld, str, bagOf, garbage) <==> ReadsSafe(g, succs, ld, str, names, garbage))
            && forall r :: ReturnsSafe(g, succs, ld, str, bagOf, r) <==> ReturnsSafe(g, succs, ld, str, names, r)
  {
    hide *;
    var names := EntryNames(g, root);
    SameByName(g, root, ld, str, bagOf);
    SafeSame(g, succs, ld, str, bagOf, names, garbage);
    SafeSame(g, succs, ld, str, names, bagOf, garbage);
  }

  /** The conditions hold whichever of its entries names a loop, and whatever the loop flags. */
  ghost predicate SafeHoweverNamed(g: Succ, root: Block, succs: Targets, ld: RegMaps, str: RegMaps) {
    forall names {:trigger NamedAtEntries(g, root, names)} ::
      ComponentBags(g, names) && NamedAtEntries(g, root, names) ==>
      && ReadsSafe(g, succs, ld, str, names, {})
      && forall r: EcvReg :: r.CheckPassedReturnRegs() ==> ReturnsSafe(g, succs, ld, str, names, r)
  }

  lemma SafeAsNamed(g: Succ, root: Block, succs: Targets, ld: RegMaps, str: RegMaps, bagOf: Rep, garbage: set<Block>)
    requires SafeHoweverNamed(g, root, succs, ld, str) && ComponentBags(g, bagOf) && NamedAtEntries(g, root, bagOf)
    ensures ReadsSafe(g, succs, ld, str, bagOf, garbage)
    ensures forall r: EcvReg :: r.CheckPassedReturnRegs() ==> ReturnsSafe(g, succs, ld, str, bagOf, r)
  {
    hide ComponentBags, NamedAtEntries, ReadsSafe, ReturnsSafe, EcvReg.CheckPassedReturnRegs;
    SafeForAllFlags(g, succs, ld, str, bagOf);
  }
}
