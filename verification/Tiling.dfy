/** The functions of a binary: each symbol names the code from its address to the next symbol or the end of its
    section. */
module Tilings {

  datatype Section = Section(vma: nat, bytes: seq<nat>)

  datatype Error = InNoSection | InManySections | ManyEntryPoints

  datatype Outcome = Done(memory: map<nat, nat>, funcs: map<nat, nat>) | Failed(error: Error)

  function End(s: Section): nat {
    s.vma + |s.bytes|
  }

  predicate Holds(s: Section, a: nat) {
    s.vma <= a < End(s)
  }

  ghost predicate Disjoint(sections: seq<Section>) {
    forall i, j, a {:trigger Holds(sections[i], a), Holds(sections[j], a)} ::
      0 <= i < |sections| && 0 <= j < |sections| && Holds(sections[i], a) && Holds(sections[j], a) ==> i == j
  }

  ghost predicate Descending(entries: seq<nat>) {
    forall i, j :: 0 <= i <= j < |entries| ==> entries[j] <= entries[i]
  }

  /** A section that holds a symbol has one at its start. */
  ghost predicate StartsKnown(entries: seq<nat>, sections: seq<Section>) {
    forall k, e {:trigger Holds(sections[k], e)} :: 0 <= k < |sections| && e in entries && Holds(sections[k], e) ==>
      sections[k].vma in entries
  }

  /** The function at `e` reaches up to the next symbol or the end of its section. */
  ghost predicate TiledAt(entries: seq<nat>, sections: seq<Section>, funcs: map<nat, nat>, e: nat) {
    && e in funcs
    && exists k :: 0 <= k < |sections| && Holds(sections[k], e) && TileIn(entries, sections[k], e, e + funcs[e])
  }

  /** Within its section nothing lies between `e` and `x`. */
  ghost predicate TileIn(entries: seq<nat>, s: Section, e: nat, x: nat) {
    && e < x <= End(s) && (x == End(s) || x in entries)
    && forall y :: y in entries && e < y && Holds(s, y) ==> x <= y
  }

  /** Every byte in memory is that of its section. */
  ghost predicate Loaded(sections: seq<Section>, memory: map<nat, nat>) {
    forall k, a: nat {:trigger Holds(sections[k], a)} :: 0 <= k < |sections| && Holds(sections[k], a) && a in memory ==>
      memory[a] == sections[k].bytes[a - sections[k].vma]
  }

  /** The symbols before the `i`-th have their functions, whose bytes are in memory up to the ends of their sections. */
  ghost predicate TiledTo(entries: seq<nat>, sections: seq<Section>, memory: map<nat, nat>, funcs: map<nat, nat>,
                          i: nat)
    requires i <= |entries|
  {
    && Loaded(sections, memory)
    && (forall e :: e in funcs <==> e in entries[..i])
    && (forall e {:trigger TiledAt(entries, sections, funcs, e)} :: e in funcs ==> TiledAt(entries, sections, funcs, e))
    && (forall k, e, a {:trigger Holds(sections[k], e), Holds(sections[k], a)} ::
          0 <= k < |sections| && e in funcs && Holds(sections[k], e) && Holds(sections[k], a) && e <= a ==> a in memory)
  }

  /** The sections that hold the address: how many, and the last of them. */
  method FindSection(sections: seq<Section>, a: nat) returns (count: nat, found: nat)
    requires Disjoint(sections)
    ensures count <= 1
    ensures count == 0 <==> forall k :: 0 <= k < |sections| ==> !Holds(sections[k], a)
    ensures count == 1 ==> found < |sections| && Holds(sections[found], a)
  {
    count, found := 0, 0;
    for k := 0 to |sections|
      invariant count <= 1 && (count == 0 <==> forall j :: 0 <= j < k ==> !Holds(sections[j], a))
      invariant count == 1 ==> found < k && Holds(sections[found], a)
    {
      if Holds(sections[k], a) {
        count, found := count + 1, k;
      }
    }
  }

  /** Copies the bytes of the section from `from` on, up to `to`. */
  method CopyBytes(sections: seq<Section>, k: nat, from: nat, to: nat,
                   before: map<nat, nat>) returns (memory: map<nat, nat>)
    requires k < |sections| && sections[k].vma <= from <= to <= End(sections[k]) && Disjoint(sections)
    requires Loaded(sections, before)
    ensures Loaded(sections, memory)
    ensures forall a :: a in memory <==> a in before || from <= a < to
  {
    memory := before;
    for a := from to to
      invariant Loaded(sections, memory)
      invariant forall x :: x in memory <==> x in before || from <= x < a
    {
      assert Holds(sections[k], a);
      memory := memory[a := sections[k].bytes[a - sections[k].vma]];
    }
  }

  lemma NextTile(entries: seq<nat>, sections: seq<Section>, memory: map<nat, nat>, memory': map<nat, nat>,
                 funcs: map<nat, nat>, i: nat, k: nat, to: nat)
    requires i < |entries| && k < |sections| && Disjoint(sections) && TiledTo(entries, sections, memory, funcs, i)
    requires Holds(sections[k], entries[i]) && Loaded(sections, memory') && entries[i] <= to <= End(sections[k])
    requires forall a :: a in memory' <==> a in memory || entries[i] <= a < to
    requires forall a :: to <= a < End(sections[k]) ==> a in memory
    requires entries[i] !in funcs ==> TileIn(entries, sections[k], entries[i], to)
    ensures TiledTo(entries, sections, memory', if entries[i] in funcs then funcs
              else funcs[entries[i] := to - entries[i]], i + 1)
  {
    var e0 := entries[i];
    var funcs' := if e0 in funcs then funcs else funcs[e0 := to - e0];
    assert entries[..i + 1] == entries[..i] + [e0];
    forall e {:trigger TiledAt(entries, sections, funcs', e)} | e in funcs'
      ensures TiledAt(entries, sections, funcs', e)
    {
      if e in funcs {
        assert TiledAt(entries, sections, funcs, e);
        var j :| 0 <= j < |sections| && Holds(sections[j], e) && TileIn(entries, sections[j], e, e + funcs[e]);
        assert TileIn(entries, sections[j], e, e + funcs'[e]);
      } else {
        assert TileIn(entries, sections[k], e, e + funcs'[e]);
      }
    }
    forall j, e, a {:trigger Holds(sections[j], e), Holds(sections[j], a)} |
      0 <= j < |sections| && e in funcs' && Holds(sections[j], e) && Holds(sections[j], a) && e <= a
      ensures a in memory'
    {
      if e == e0 {
        assert j == k;
      }
    }
  }

  /** Every symbol that was looked at lies in a section, and the entry point was met at most once. */
  ghost predicate Scanned(entries: seq<nat>, sections: seq<Section>, entryPoint: nat, i: nat, entryFound: bool)
    requires i <= |entries|
  {
    && (entryFound <==> entryPoint in entries[..i])
    && (forall e :: e in entries[..i] ==> InSomeSection(sections, e))
    && (forall m, n :: 0 <= m < n < i ==> !(entries[m] == entryPoint && entries[n] == entryPoint))
  }

  ghost predicate InSomeSection(sections: seq<Section>, e: nat) {
    exists k :: 0 <= k < |sections| && Holds(sections[k], e)
  }

  ghost predicate Twice(entries: seq<nat>, e: nat) {
    exists m, n :: 0 <= m < n < |entries| && entries[m] == e && entries[n] == e
  }

  lemma ScannedNext(entries: seq<nat>, sections: seq<Section>, entryPoint: nat, i: nat, entryFound: bool)
    requires i < |entries| && Scanned(entries, sections, entryPoint, i, entryFound)
    requires InSomeSection(sections, entries[i])
    ensures entryPoint == entries[i] && entryFound ==> Twice(entries, entryPoint)
    ensures !(entryPoint == entries[i] && entryFound) ==>
              Scanned(entries, sections, entryPoint, i + 1, entryFound || entryPoint == entries[i])
  {
    assert entries[..i + 1] == entries[..i] + [entries[i]];
    if entryPoint == entries[i] && entryFound {
      var m :| 0 <= m < i && entries[..i][m] == entryPoint;
      assert entries[m] == entryPoint;
    }
  }

  /** The sections of the functions so far are complete: their first symbol has a function, too. */
  ghost predicate SectionsDone(sections: seq<Section>, funcs: map<nat, nat>) {
    forall k, e {:trigger Holds(sections[k], e)} :: 0 <= k < |sections| && e in funcs && Holds(sections[k], e) ==>
      sections[k].vma in funcs
  }

  /** Where the walk through a section stands: everything from `funEnd` to its end is in memory. */
  ghost predicate InSection(entries: seq<nat>, s: Section, memory: map<nat, nat>, i0: nat, i: nat, funEnd: nat)
    requires i0 <= i <= |entries|
  {
    && s.vma <= funEnd <= End(s)
    && (if i == i0 then funEnd == End(s) else funEnd == entries[i - 1])
    && (forall a :: funEnd <= a < End(s) ==> a in memory)
  }

  lemma DescendingAt(entries: seq<nat>, m: nat, n: nat)
    requires Descending(entries) && m <= n < |entries|
    ensures entries[n] <= entries[m]
  {
  }

  /** If a new symbol of the section comes up first, the section was not walked before. */
  lemma FirstInSection(entries: seq<nat>, s: Section, funcs0: map<nat, nat>, i0: nat)
    requires Descending(entries) && i0 < |entries| && Holds(s, entries[i0]) && entries[i0] !in funcs0
    requires forall e :: e in funcs0 <==> e in entries[..i0]
    ensures s.vma !in funcs0
  {
    hide Descending;
    if s.vma in funcs0 {
      var z :| 0 <= z < i0 && entries[..i0][z] == s.vma;
      DescendingAt(entries, z, i0);
    }
  }

  lemma InPrefix(entries: seq<nat>, q: nat, n: nat)
    requires q < n <= |entries|
    ensures entries[q] in entries[..n]
  {
    assert entries[..n][q] == entries[q];
  }

  lemma NotBefore(entries: seq<nat>, sections: seq<Section>, funcs0: map<nat, nat>, i0: nat, k: nat, q: nat)
    requires k < |sections| && i0 <= |entries| && q < |entries| && SectionsDone(sections, funcs0)
    requires sections[k].vma !in funcs0
    requires Holds(sections[k], entries[q]) && forall e :: e in funcs0 <==> e in entries[..i0]
    ensures q >= i0
  {
    assert entries[q] !in funcs0;
    if q < i0 {
      InPrefix(entries, q, i0);
    }
  }

  /** The next symbol of the section, and that its function reaches up to `funEnd`. */
  lemma NextSymbol(entries: seq<nat>, sections: seq<Section>, memory: map<nat, nat>, funcs0: map<nat, nat>,
                   funcs: map<nat, nat>, k: nat, i0: nat, i: nat, funEnd: nat)
    requires Descending(entries) && Disjoint(sections) && StartsKnown(entries, sections) && k < |sections|
    requires i0 < |entries| && i0 <= i <= |entries| && Holds(sections[k], entries[i0]) && SectionsDone(sections, funcs0)
    requires (forall e :: e in funcs0 <==> e in entries[..i0]) && (forall e :: e in funcs <==> e in entries[..i])
    requires InSection(entries, sections[k], memory, i0, i, funEnd) && sections[k].vma < funEnd
    ensures i < |entries| && Holds(sections[k], entries[i]) && entries[i] <= funEnd
    ensures entries[i] !in funcs ==> TileIn(entries, sections[k], entries[i], funEnd)
  {
    hide Descending, SectionsDone;
    var s := sections[k];
    assert entries[i0] in entries;
    var p :| 0 <= p < |entries| && entries[p] == s.vma;
    if i > i0 && p < i {
      DescendingAt(entries, p, i - 1);
    }
    if i > i0 {
      DescendingAt(entries, i0, i - 1);
      DescendingAt(entries, i - 1, i);
      DescendingAt(entries, i, p);
    }
    var e := entries[i];
    if e !in funcs {
      if i == i0 {
        FirstInSection(entries, s, funcs0, i0);
      } else {
        assert entries[..i][i - 1] == entries[i - 1];
      }
      forall y | y in entries && e < y && Holds(s, y)
        ensures funEnd <= y
      {
        var q :| 0 <= q < |entries| && entries[q] == y;
        if q >= i {
          DescendingAt(entries, i, q);
        } else if i > i0 {
          DescendingAt(entries, q, i - 1);
        } else {
          NotBefore(entries, sections, funcs0, i0, k, q);
        }
      }
    }
  }

  /** The symbols of one section, from the `i0`-th on. */
  method TileSection(entries: seq<nat>, sections: seq<Section>, entryPoint: nat, k: nat, i0: nat,
                     memory0: map<nat, nat>, funcs0: map<nat, nat>, entryFound0: bool)
    returns (i: nat, memory: map<nat, nat>, funcs: map<nat, nat>, entryFound: bool, failed: bool)
    requires Descending(entries) && Disjoint(sections) && StartsKnown(entries, sections) && k < |sections|
    requires i0 < |entries|
    requires Holds(sections[k], entries[i0]) && SectionsDone(sections, funcs0)
    requires TiledTo(entries, sections, memory0, funcs0, i0) && Scanned(entries, sections, entryPoint, i0, entryFound0)
    ensures failed ==> Twice(entries, entryPoint)
    ensures !failed ==>
              && i0 < i <= |entries| && TiledTo(entries, sections, memory, funcs, i) && SectionsDone(sections, funcs)
              && Scanned(entries, sections, entryPoint, i, entryFound)
  {
    hide TiledTo, Scanned, SectionsDone, InSection, TileIn, Disjoint, StartsKnown, Descending, Loaded;
    i, memory, funcs, entryFound, failed := i0, memory0, funcs0, entryFound0, false;
    var secAddr: nat, funEnd: nat := sections[k].vma, End(sections[k]);
    WalkStart(entries, sections, memory, funcs, k, i0);
    while secAddr < funEnd
      invariant i0 <= i <= |entries| && TiledTo(entries, sections, memory, funcs, i)
      invariant Scanned(entries, sections, entryPoint, i, entryFound)
      invariant InSection(entries, sections[k], memory, i0, i, funEnd) && WalkOk(sections, funcs0, funcs, k)
      invariant funEnd < End(sections[k]) ==> i > i0
      decreases |entries| - i
    {
      TiledKeys(entries, sections, memory, funcs, i);
      TiledKeys(entries, sections, memory0, funcs0, i0);
      NextSymbol(entries, sections, memory, funcs0, funcs, k, i0, i, funEnd);
      ScannedNext(entries, sections, entryPoint, i, entryFound);
      if entryPoint == entries[i] {
        if entryFound {
          failed := true;
          return;
        }
        entryFound := true;
      }
      ghost var memory1, funcs1 := memory, funcs;
      InSectionBytes(entries, sections[k], memory1, i0, i, funEnd);
      memory := CopyBytes(sections, k, entries[i], funEnd, memory);
      NextTile(entries, sections, memory1, memory, funcs, i, k, funEnd);
      if entries[i] !in funcs {
        funcs := funcs[entries[i] := funEnd - entries[i]];
      }
      WalkNext(entries, sections, memory1, memory, funcs0, funcs1, funcs, k, i0, i, funEnd);
      funEnd := entries[i];
      i := i + 1;
    }
    TiledKeys(entries, sections, memory, funcs, i);
    WalkDone(entries, sections, memory, funcs0, funcs, k, i0, i, funEnd);
  }

  /** The functions added by the walk lie in its section. */
  ghost predicate WalkOk(sections: seq<Section>, funcs0: map<nat, nat>, funcs: map<nat, nat>, k: nat)
    requires k < |sections|
  {
    (forall e :: e in funcs0 ==> e in funcs) && forall e :: e in funcs && e !in funcs0 ==> Holds(sections[k], e)
  }

  lemma TiledKeys(entries: seq<nat>, sections: seq<Section>, memory: map<nat, nat>, funcs: map<nat, nat>, i: nat)
    requires i <= |entries| && TiledTo(entries, sections, memory, funcs, i)
    ensures Loaded(sections, memory) && forall e :: e in funcs <==> e in entries[..i]
  {
  }

  lemma WalkStart(entries: seq<nat>, sections: seq<Section>, memory: map<nat, nat>, funcs: map<nat, nat>, k: nat,
                  i0: nat)
    requires k < |sections| && i0 <= |entries|
    ensures InSection(entries, sections[k], memory, i0, i0, End(sections[k])) && WalkOk(sections, funcs, funcs, k)
  {
  }

  lemma InSectionBytes(entries: seq<nat>, s: Section, memory: map<nat, nat>, i0: nat, i: nat, funEnd: nat)
    requires i0 <= i <= |entries| && InSection(entries, s, memory, i0, i, funEnd)
    ensures s.vma <= funEnd <= End(s) && forall a :: funEnd <= a < End(s) ==> a in memory
  {
  }

  lemma WalkNext(entries: seq<nat>, sections: seq<Section>, memory: map<nat, nat>, memory': map<nat, nat>,
                 funcs0: map<nat, nat>, funcs: map<nat, nat>, funcs': map<nat, nat>, k: nat, i0: nat, i: nat,
                 funEnd: nat)
    requires k < |sections| && i0 <= i < |entries| && InSection(entries, sections[k], memory, i0, i, funEnd)
    requires WalkOk(sections, funcs0, funcs, k) && Holds(sections[k], entries[i]) && entries[i] <= funEnd
    requires forall a :: a in memory' <==> a in memory || entries[i] <= a < funEnd
    requires forall e :: e in funcs' <==> e in funcs || e == entries[i]
    ensures InSection(entries, sections[k], memory', i0, i + 1, entries[i]) && WalkOk(sections, funcs0, funcs', k)
  {
  }

  lemma WalkDone(entries: seq<nat>, sections: seq<Section>, memory: map<nat, nat>, funcs0: map<nat, nat>,
                 funcs: map<nat, nat>, k: nat, i0: nat, i: nat, funEnd: nat)
    requires k < |sections| && i0 < |entries| && i0 <= i <= |entries| && Holds(sections[k], entries[i0])
    requires Disjoint(sections)
    requires SectionsDone(sections, funcs0) && WalkOk(sections, funcs0, funcs, k)
    requires (forall e :: e in funcs <==> e in entries[..i])
    requires InSection(entries, sections[k], memory, i0, i, funEnd) && funEnd <= sections[k].vma
    ensures i0 < i && SectionsDone(sections, funcs)
  {
    assert i0 < i;
    assert entries[..i][i - 1] == sections[k].vma;
    forall j, e {:trigger Holds(sections[j], e)} | 0 <= j < |sections| && e in funcs && Holds(sections[j], e)
      ensures sections[j].vma in funcs
    {
      if e !in funcs0 {
        assert Holds(sections[k], e);
      }
    }
  }

  /** Gives every symbol its function and loads the code. Fails on a symbol outside of all sections, and when the entry
      point has two symbols. */
  method SetELFData(entries: seq<nat>, sections: seq<Section>, entryPoint: nat) returns (res: Outcome)
    requires Descending(entries) && Disjoint(sections) && StartsKnown(entries, sections)
    ensures res.Done? ==> TiledTo(entries, sections, res.memory, res.funcs, |entries|)
    ensures res.Done? <==> (forall e :: e in entries ==> InSomeSection(sections, e)) && !Twice(entries, entryPoint)
    ensures res == Failed(InNoSection) ==> exists e :: e in entries && !InSomeSection(sections, e)
    ensures res == Failed(ManyEntryPoints) ==> Twice(entries, entryPoint)
    ensures res != Failed(InManySections)
  {
    hide TiledTo, SectionsDone;
    var memory: map<nat, nat>, funcs: map<nat, nat> := map[], map[];
    var entryFound := false;
    var i := 0;
    NothingTiled(entries, sections);
    while i < |entries|
      invariant 0 <= i <= |entries| && TiledTo(entries, sections, memory, funcs, i) && SectionsDone(sections, funcs)
      invariant Scanned(entries, sections, entryPoint, i, entryFound)
      decreases |entries| - i
    {
      var count, k := FindSection(sections, entries[i]);
      if count == 0 {
        assert entries[i] in entries && !InSomeSection(sections, entries[i]);
        return Failed(InNoSection);
      }
      if count > 1 {
        return Failed(InManySections);
      }
      var failed;
      i, memory, funcs, entryFound, failed := TileSection(entries, sections, entryPoint, k, i, memory, funcs,
        entryFound);
      if failed {
        return Failed(ManyEntryPoints);
      }
    }
    assert entries[..|entries|] == entries;
    res := Done(memory, funcs);
  }

  lemma NothingTiled(entries: seq<nat>, sections: seq<Section>)
    ensures TiledTo(entries, sections, map[], map[], 0) && SectionsDone(sections, map[])
  {
  }

  // ---------------------------------------------------------------------------
  // What the tiling means

  predicate IsWithinFunction(funcs: map<nat, nat>, e: nat, a: nat)
    requires e in funcs
  {
    e <= a < e + funcs[e]
  }

  /** `e` is the greatest symbol not above `a`. */
  ghost predicate Greatest(entries: seq<nat>, a: nat, e: nat) {
    e in entries && e <= a && forall y :: y in entries && y <= a ==> y <= e
  }

  lemma {:induction false} GreatestBelow(entries: seq<nat>, a: nat, start: nat) returns (e: nat)
    requires Descending(entries) && start in entries && start <= a
    ensures Greatest(entries, a, e)
  {
    var i := 0;
    while entries[i] > a
      invariant 0 <= i < |entries| && forall j :: 0 <= j < i ==> entries[j] > a
      invariant exists j :: i <= j < |entries| && entries[j] == start
      decreases |entries| - i
    {
      i := i + 1;
    }
    e := entries[i];
  }

  /** Every address of a section that holds a symbol lies in exactly one function, that of the greatest symbol not above
      it, and its byte is in memory. */
  lemma TiledOnce(entries: seq<nat>, sections: seq<Section>, memory: map<nat, nat>, funcs: map<nat, nat>, k: nat,
                  a: nat, sym: nat)
    requires Descending(entries) && Disjoint(sections) && StartsKnown(entries, sections)
    requires TiledTo(entries, sections, memory, funcs, |entries|)
    requires k < |sections| && sections[k].vma <= a < sections[k].vma + |sections[k].bytes|
    requires sym in entries && sections[k].vma <= sym < sections[k].vma + |sections[k].bytes|
    ensures a in memory && memory[a] == sections[k].bytes[a - sections[k].vma]
    ensures exists e :: e in funcs && Greatest(entries, a, e) && e <= a < e + funcs[e]
    ensures forall e :: e in funcs && e <= a < e + funcs[e] ==> Greatest(entries, a, e)
    ensures forall e1, e2 ::
              e1 in funcs && e2 in funcs && e1 <= a < e1 + funcs[e1] && e2 <= a < e2 + funcs[e2] ==> e1 == e2
  {
    assert entries[..|entries|] == entries;
    assert Holds(sections[k], a) && Holds(sections[k], sym);
    var start := sections[k].vma;
    var g := GreatestBelow(entries, a, start);
    assert Holds(sections[k], g);
    WithinGreatest(entries, sections, memory, funcs, k, a, g);
    forall e | e in funcs && IsWithinFunction(funcs, e, a)
      ensures e == g
    {
      OnlyGreatest(entries, sections, memory, funcs, k, a, e, g);
    }
  }

  lemma WithinGreatest(entries: seq<nat>, sections: seq<Section>, memory: map<nat, nat>, funcs: map<nat, nat>, k: nat,
                       a: nat, g: nat)
    requires Disjoint(sections) && TiledTo(entries, sections, memory, funcs, |entries|)
    requires k < |sections| && Holds(sections[k], a) && Holds(sections[k], g) && Greatest(entries, a, g)
    ensures g in funcs && IsWithinFunction(funcs, g, a)
  {
    assert entries[..|entries|] == entries;
    assert TiledAt(entries, sections, funcs, g);
    var j :| 0 <= j < |sections| && Holds(sections[j], g) && TileIn(entries, sections[j], g, g + funcs[g]);
    assert j == k;
  }

  lemma OnlyGreatest(entries: seq<nat>, sections: seq<Section>, memory: map<nat, nat>, funcs: map<nat, nat>, k: nat,
                     a: nat, e: nat, g: nat)
    requires Disjoint(sections) && TiledTo(entries, sections, memory, funcs, |entries|) && Greatest(entries, a, g)
    requires k < |sections| && Holds(sections[k], a) && Holds(sections[k], g) && e in funcs
    requires IsWithinFunction(funcs, e, a)
    ensures e == g
  {
    assert entries[..|entries|] == entries;
    assert TiledAt(entries, sections, funcs, e);
    var j :| 0 <= j < |sections| && Holds(sections[j], e) && TileIn(entries, sections[j], e, e + funcs[e]);
    assert Holds(sections[j], a);
    assert j == k;
  }
}
