/** What is recorded about the register accesses of a block, and how the records of two blocks are joined. */
module RegInfos {
  import opened Registers

  /** The value that a register has, as an instruction of the block made it. */
  datatype Held = Held(erc: ERC, value: nat)

  /** The registers a block reads before it writes them, those it writes, and the value each register has at its end. */
  datatype Info = Info(ld: RegMap, str: RegMap, held: map<EcvReg, Held>)

  function JoinedLd(x: Info, y: Info): RegMap {
    map r | r in x.ld.Keys + (y.ld.Keys - x.str.Keys) :: if r in x.ld then x.ld[r] else y.ld[r]
  }

  /** Whether the value of `y` for `r` replaces that of `x`. */
  predicate Replaces(x: Info, y: Info, r: EcvReg) {
    r in y.held && (r !in x.held || r in y.str || ERCSize(x.held[r].erc) <= ERCSize(y.held[r].erc))
  }

  function JoinedHeld(x: Info, y: Info): map<EcvReg, Held> {
    map r | r in x.held.Keys + y.held.Keys :: if Replaces(x, y, r) then y.held[r] else x.held[r]
  }

  function Joined(x: Info, y: Info): Info {
    Info(JoinedLd(x, y), x.str + y.str, JoinedHeld(x, y))
  }

  class BBRegInfoNode {
    var bbLd: RegMap
    var bbStr: RegMap
    var held: map<EcvReg, Held>

    constructor (info: Info)
      ensures Contents() == info
    {
      bbLd, bbStr, held := info.ld, info.str, info.held;
    }

    function Contents(): Info
      reads this
    {
      Info(bbLd, bbStr, held)
    }

    /** Adds what the block behind this one does. */
    method JoinRegInfoNode(child: BBRegInfoNode)
      requires child != this
      modifies this
      ensures Contents() == Joined(old(Contents()), old(child.Contents()))
    {
      ghost var x, y := Contents(), child.Contents();
      JoinLd(child);
      JoinStr(child);
      // the stores of the child, not those joined so far, decide which values are replaced
      var todo := child.held.Keys;
      while todo != {}
        invariant todo <= y.held.Keys && child.Contents() == y
        invariant bbLd == JoinedLd(x, y) && bbStr == x.str + y.str
        invariant held == JoinedHeld(x, y.(held := y.held - todo))
        decreases todo
      {
        var r :| r in todo;
        JoinedHeldAdd(x, y, todo, r);
        if r !in held {
          held := held[r := child.held[r]];
        } else if r in child.bbStr || ERCSize(held[r].erc) <= ERCSize(child.held[r].erc) {
          held := held[r := child.held[r]];
        }
        todo := todo - {r};
      }
      assert y.held - {} == y.held;
    }

    method JoinLd(child: BBRegInfoNode)
      requires child != this
      modifies `bbLd
      ensures bbLd == JoinedLd(old(Contents()), old(child.Contents()))
    {
      ghost var x, y := Contents(), child.Contents();
      var todo := child.bbLd.Keys;
      while todo != {}
        invariant todo <= y.ld.Keys && child.Contents() == y && bbStr == x.str
        invariant bbLd == JoinedLd(x, y.(ld := y.ld - todo))
        decreases todo
      {
        var r :| r in todo;
        if r !in bbStr && r !in bbLd {
          bbLd := bbLd[r := child.bbLd[r]];
        }
        todo := todo - {r};
      }
      assert y.ld - {} == y.ld;
    }

    method JoinStr(child: BBRegInfoNode)
      requires child != this
      modifies `bbStr
      ensures bbStr == old(bbStr) + child.bbStr
    {
      ghost var x := bbStr;
      var todo := child.bbStr.Keys;
      while todo != {}
        invariant todo <= child.bbStr.Keys && child.bbStr == old(child.bbStr)
        invariant bbStr == x + (child.bbStr - todo)
        decreases todo
      {
        var r :| r in todo;
        bbStr := bbStr[r := child.bbStr[r]];
        todo := todo - {r};
      }
      assert child.bbStr - {} == child.bbStr;
    }
  }

  lemma JoinedHeldAdd(x: Info, y: Info, todo: set<EcvReg>, r: EcvReg)
    requires todo <= y.held.Keys && r in todo
    ensures var m := JoinedHeld(x, y.(held := y.held - todo));
            && (r in m <==> r in x.held) && (r in m ==> m[r] == x.held[r])
            && JoinedHeld(x, y.(held := y.held - (todo - {r}))) == if Replaces(x, y, r) then m[r := y.held[r]] else m
  {
  }

  // ---------------------------------------------------------------------------
  // Joining is composition

  /** Every written register has a value. */
  ghost predicate StoresHeld(x: Info) {
    forall r :: r in x.str ==> r in x.held
  }

  const NOTHING := Info(map[], map[], map[])

  lemma JoinedHeldAt(x: Info, y: Info, r: EcvReg)
    ensures var m := JoinedHeld(x, y);
            && (r in m <==> r in x.held || r in y.held)
            && (r in m ==> m[r] == if Replaces(x, y, r) then y.held[r] else x.held[r])
  {
  }

  lemma JoinedHeldAssociative(x: Info, y: Info, z: Info, r: EcvReg)
    requires StoresHeld(y) && StoresHeld(z)
    ensures var m1, m2 := JoinedHeld(Joined(x, y), z), JoinedHeld(x, Joined(y, z));
            (r in m1 <==> r in m2) && (r in m1 ==> m1[r] == m2[r])
  {
    JoinedHeldAt(x, y, r);
    JoinedHeldAt(y, z, r);
    JoinedHeldAt(Joined(x, y), z, r);
    JoinedHeldAt(x, Joined(y, z), r);
    hide JoinedHeld, ERCSize;
  }

  lemma JoinedHeldAssociates(x: Info, y: Info, z: Info)
    requires StoresHeld(y) && StoresHeld(z)
    ensures JoinedHeld(Joined(x, y), z) == JoinedHeld(x, Joined(y, z))
  {
    hide JoinedHeld, Replaces, StoresHeld, Joined;
    var m1, m2 := JoinedHeld(Joined(x, y), z), JoinedHeld(x, Joined(y, z));
    forall r
      ensures (r in m1 <==> r in m2) && (r in m1 ==> m1[r] == m2[r])
    {
      JoinedHeldAssociative(x, y, z, r);
    }
    assert m1 == m2;
  }

  lemma JoinedLdAssociates(x: Info, y: Info, z: Info)
    ensures JoinedLd(Joined(x, y), z) == JoinedLd(x, Joined(y, z))
  {
    hide JoinedHeld, JoinedLd;
    var m1, m2 := JoinedLd(Joined(x, y), z), JoinedLd(x, Joined(y, z));
    forall r
      ensures (r in m1 <==> r in m2) && (r in m1 ==> m1[r] == m2[r])
    {
      JoinedLdAt(x, y, r);
      JoinedLdAt(y, z, r);
      JoinedLdAt(Joined(x, y), z, r);
      JoinedLdAt(x, Joined(y, z), r);
    }
    assert m1 == m2;
  }

  lemma JoinedLdAt(x: Info, y: Info, r: EcvReg)
    ensures var m := JoinedLd(x, y);
            && (r in m <==> r in x.ld || (r in y.ld && r !in x.str))
            && (r in m ==> m[r] == if r in x.ld then x.ld[r] else y.ld[r])
  {
  }

  /** The order in which neighbours are joined does not matter. */
  lemma JoinedAssociative(x: Info, y: Info, z: Info)
    requires StoresHeld(y) && StoresHeld(z)
    ensures Joined(Joined(x, y), z) == Joined(x, Joined(y, z))
  {
    hide JoinedHeld, JoinedLd;
    JoinedHeldAssociates(x, y, z);
    JoinedLdAssociates(x, y, z);
  }

  /** Without a value for every stored register it does. */
  lemma JoinedNotAssociative(r: EcvReg)
    ensures var x := Info(map[], map[], map[r := Held(RegX, 1)]);
            var y := Info(map[], map[r := RegW], map[]);
            var z := Info(map[], map[], map[r := Held(RegW, 2)]);
            Joined(Joined(x, y), z) != Joined(x, Joined(y, z))
  {
    var x := Info(map[], map[], map[r := Held(RegX, 1)]);
    var y := Info(map[], map[r := RegW], map[]);
    var z := Info(map[], map[], map[r := Held(RegW, 2)]);
    assert Joined(Joined(x, y), z).held[r] == Held(RegX, 1);
    assert Joined(x, Joined(y, z)).held[r] == Held(RegW, 2);
  }

  lemma JoinedNothing(x: Info)
    ensures Joined(NOTHING, x) == x && Joined(x, NOTHING) == x
  {
  }

  /** The record of a list of instructions, from the records of the single ones. */
  function Fold(infos: seq<Info>): Info {
    if infos == [] then NOTHING else Joined(Fold(infos[..|infos| - 1]), infos[|infos| - 1])
  }

  lemma {:induction false} FoldStoresHeld(infos: seq<Info>)
    requires forall i :: 0 <= i < |infos| ==> StoresHeld(infos[i])
    ensures StoresHeld(Fold(infos))
  {
    if infos != [] {
      FoldStoresHeld(infos[..|infos| - 1]);
    }
  }

  /** Joining the records of two lists gives the record of their concatenation. */
  lemma {:induction false} FoldConcat(a: seq<Info>, b: seq<Info>)
    requires forall i :: 0 <= i < |a| ==> StoresHeld(a[i])
    requires forall i :: 0 <= i < |b| ==> StoresHeld(b[i])
    ensures Fold(a + b) == Joined(Fold(a), Fold(b))
  {
    if b == [] {
      assert a + b == a;
      JoinedNothing(Fold(a));
    } else {
      var rest, last := b[..|b| - 1], b[|b| - 1];
      FoldConcat(a, rest);
      assert (a + b)[..|a + b| - 1] == a + rest;
      FoldStoresHeld(rest);
      JoinedAssociative(Fold(a), Fold(rest), last);
    }
  }

  // ---------------------------------------------------------------------------
  // What the record of a list says

  /** Instruction `k` is the first to read `r`, and none before it writes `r`. */
  ghost predicate FirstRead(infos: seq<Info>, r: EcvReg, k: int) {
    0 <= k < |infos| && r in infos[k].ld && forall i :: 0 <= i < k ==> r !in infos[i].ld && r !in infos[i].str
  }

  /** Instruction `k` is the last to write `r`. */
  ghost predicate LastStore(infos: seq<Info>, r: EcvReg, k: int) {
    0 <= k < |infos| && r in infos[k].str && forall i :: k < i < |infos| ==> r !in infos[i].str
  }

  /** Instruction `k` has the widest value of `r` since the last write, and the last of these. */
  ghost predicate LastWidest(infos: seq<Info>, r: EcvReg, k: int) {
    && 0 <= k < |infos| && r in infos[k].held
    && (forall i :: k < i < |infos| ==> r !in infos[i].str)
    && (forall i :: k < i < |infos| && r in infos[i].held ==>
         ERCSize(infos[i].held[r].erc) < ERCSize(infos[k].held[r].erc))
    && (forall i ::
          0 <= i < k && r in infos[i].held && ERCSize(infos[k].held[r].erc) < ERCSize(infos[i].held[r].erc) ==>
          WrittenBetween(infos, r, i, k))
  }

  ghost predicate WrittenBetween(infos: seq<Info>, r: EcvReg, i: int, k: int)
    requires 0 <= i <= k < |infos|
  {
    exists j :: i < j <= k && r in infos[j].str
  }

  lemma {:induction false} FoldStrAt(infos: seq<Info>, r: EcvReg) returns (k: int)
    requires r in Fold(infos).str
    ensures LastStore(infos, r, k) && Fold(infos).str[r] == infos[k].str[r]
  {
    var n := |infos| - 1;
    if r in infos[n].str {
      k := n;
    } else {
      k := FoldStrAt(infos[..n], r);
    }
  }

  lemma {:induction false} FoldStrHas(infos: seq<Info>, r: EcvReg, k: int)
    requires 0 <= k < |infos| && r in infos[k].str
    ensures r in Fold(infos).str
  {
    var n := |infos| - 1;
    if k < n {
      FoldStrHas(infos[..n], r, k);
    }
  }

  lemma {:induction false} FoldLdAt(infos: seq<Info>, r: EcvReg) returns (k: int)
    requires r in Fold(infos).ld
    ensures FirstRead(infos, r, k) && Fold(infos).ld[r] == infos[k].ld[r]
  {
    var n := |infos| - 1;
    var rest := infos[..n];
    if r in Fold(rest).ld {
      k := FoldLdAt(rest, r);
    } else {
      k := n;
      forall i | 0 <= i < n
        ensures r !in infos[i].str && r !in infos[i].ld
      {
        if r in infos[i].str {
          FoldStrHas(rest, r, i);
        }
        if r in infos[i].ld && r !in Fold(rest).str {
          FoldLdHas(rest, r, i);
        }
      }
    }
  }

  /** What is read is read first, unless it is written. */
  lemma {:induction false} FoldLdHas(infos: seq<Info>, r: EcvReg, k: int)
    requires 0 <= k < |infos| && r in infos[k].ld && (r !in Fold(infos).str || FirstRead(infos, r, k))
    ensures r in Fold(infos).ld
  {
    var n := |infos| - 1;
    var rest := infos[..n];
    if k < n {
      FoldLdHas(rest, r, k);
    } else if r in Fold(rest).str {
      var j := FoldStrAt(rest, r);
    }
  }

  /** A write, or a value at least as wide as those before it, takes over. */
  lemma LastTakesOver(infos: seq<Info>, r: EcvReg, k0: int)
    requires |infos| > 0 && r in infos[|infos| - 1].held
    requires r in infos[|infos| - 1].str ||
             (LastWidest(infos[..|infos| - 1], r, k0) &&
              ERCSize(infos[k0].held[r].erc) <= ERCSize(infos[|infos| - 1].held[r].erc))
    ensures LastWidest(infos, r, |infos| - 1)
  {
    var n := |infos| - 1;
    var rest := infos[..n];
    forall i | 0 <= i < n && r in infos[i].held && ERCSize(infos[n].held[r].erc) < ERCSize(infos[i].held[r].erc)
      ensures WrittenBetween(infos, r, i, n)
    {
      if r !in infos[n].str {
        assert rest[i] == infos[i] && WrittenBetween(rest, r, i, k0);
        var j :| i < j <= k0 && r in rest[j].str;
        assert r in infos[j].str;
      }
    }
  }

  /** Otherwise the value stays. */
  lemma LastStays(infos: seq<Info>, r: EcvReg, k: int)
    requires |infos| > 0 && LastWidest(infos[..|infos| - 1], r, k) && r !in infos[|infos| - 1].str
    requires r in infos[|infos| - 1].held ==> ERCSize(infos[|infos| - 1].held[r].erc) < ERCSize(infos[k].held[r].erc)
    ensures LastWidest(infos, r, k)
  {
    var rest := infos[..|infos| - 1];
    forall i | 0 <= i < k && r in infos[i].held && ERCSize(infos[k].held[r].erc) < ERCSize(infos[i].held[r].erc)
      ensures WrittenBetween(infos, r, i, k)
    {
      assert rest[i] == infos[i] && WrittenBetween(rest, r, i, k);
      var j :| i < j <= k && r in rest[j].str;
      assert r in infos[j].str;
    }
  }

  lemma {:induction false} FoldHeldAt(infos: seq<Info>, r: EcvReg) returns (k: int)
    requires r in Fold(infos).held && forall i :: 0 <= i < |infos| ==> StoresHeld(infos[i])
    ensures LastWidest(infos, r, k) && Fold(infos).held[r] == infos[k].held[r]
  {
    hide LastWidest, ERCSize;
    var n := |infos| - 1;
    var rest := infos[..n];
    JoinedHeldAt(Fold(rest), infos[n], r);
    if r in infos[n].str {
      k := n;
      LastTakesOver(infos, r, 0);
    } else if r !in Fold(rest).held {
      k := n;
      FirstWidest(infos, r);
    } else {
      k := FoldHeldAt(rest, r);
      WidestIn(rest, r, k);
      if Replaces(Fold(rest), infos[n], r) {
        LastTakesOver(infos, r, k);
        k := n;
      } else {
        LastStays(infos, r, k);
      }
    }
  }

  lemma WidestIn(infos: seq<Info>, r: EcvReg, k: int)
    requires LastWidest(infos, r, k)
    ensures 0 <= k < |infos| && r in infos[k].held
  {
  }

  lemma FirstWidest(infos: seq<Info>, r: EcvReg)
    requires |infos| > 0 && r in infos[|infos| - 1].held && r !in Fold(infos[..|infos| - 1]).held
    ensures LastWidest(infos, r, |infos| - 1)
  {
    var n := |infos| - 1;
    forall i | 0 <= i < n
      ensures r !in infos[i].held
    {
      if r in infos[i].held {
        FoldHeldHas(infos[..n], r, i);
      }
    }
  }

  lemma {:induction false} FoldHeldHas(infos: seq<Info>, r: EcvReg, k: int)
    requires 0 <= k < |infos| && r in infos[k].held
    ensures r in Fold(infos).held
  {
    var n := |infos| - 1;
    if k < n {
      FoldHeldHas(infos[..n], r, k);
    }
  }

  lemma WidestOnce(infos: seq<Info>, r: EcvReg, a: int, b: int)
    requires LastWidest(infos, r, a) && a < b < |infos| && r in infos[b].held
    ensures !LastWidest(infos, r, b)
  {
    assert !WrittenBetween(infos, r, a, b);
  }

  lemma LastWidestUnique(infos: seq<Info>, r: EcvReg, k1: int, k2: int)
    requires LastWidest(infos, r, k1) && LastWidest(infos, r, k2)
    ensures k1 == k2
  {
    if k1 < k2 {
      WidestOnce(infos, r, k1, k2);
    } else if k2 < k1 {
      WidestOnce(infos, r, k2, k1);
    }
  }

  /** For `r` the record has the class of the first read that no write precedes, the class of the last write, and the
      last of the widest values since the last write. */
  ghost predicate SumsUpAt(infos: seq<Info>, info: Info, r: EcvReg) {
    && (r in info.ld <==> exists k :: FirstRead(infos, r, k))
    && (forall k :: FirstRead(infos, r, k) ==> r in info.ld && info.ld[r] == infos[k].ld[r])
    && (r in info.str <==> exists k :: LastStore(infos, r, k))
    && (forall k :: LastStore(infos, r, k) ==> r in info.str && info.str[r] == infos[k].str[r])
    && (r in info.held <==> exists k :: LastWidest(infos, r, k))
    && (forall k :: LastWidest(infos, r, k) ==> r in info.held && info.held[r] == infos[k].held[r])
  }

  ghost predicate SumsUp(infos: seq<Info>, info: Info) {
    forall r {:trigger SumsUpAt(infos, info, r)} :: SumsUpAt(infos, info, r)
  }

  /** The record of a list of instructions sums up those of the single ones. */
  lemma FoldSays(infos: seq<Info>, r: EcvReg)
    requires forall i :: 0 <= i < |infos| ==> StoresHeld(infos[i])
    ensures SumsUpAt(infos, Fold(infos), r)
  {
    hide Fold;
    if r in Fold(infos).ld {
      var k := FoldLdAt(infos, r);
    }
    forall k | FirstRead(infos, r, k)
      ensures r in Fold(infos).ld
    {
      FoldLdHas(infos, r, k);
    }
    if r in Fold(infos).str {
      var k := FoldStrAt(infos, r);
    }
    forall k | LastStore(infos, r, k)
      ensures r in Fold(infos).str
    {
      FoldStrHas(infos, r, k);
    }
    if r in Fold(infos).held {
      var k := FoldHeldAt(infos, r);
      forall k' | LastWidest(infos, r, k')
        ensures k' == k
      {
        LastWidestUnique(infos, r, k, k');
      }
    }
    forall k | LastWidest(infos, r, k)
      ensures r in Fold(infos).held
    {
      FoldHeldHas(infos, r, k);
    }
  }
}
