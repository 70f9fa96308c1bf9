/** Registers, register classes and maps from registers to classes. */
module Registers {

  datatype RegKind = General | Vector | Special

  const SP_ORDER: nat := 32

  /** A CPU register. Two registers are equal when both the kind and the number agree. */
  datatype EcvReg = EcvReg(kind: RegKind, number: nat) {

    /** True of the registers a caller passes to a callee: X0 to X8 and the stack pointer. */
    predicate CheckPassedArgsRegs(): (passed: bool)
      ensures passed <==> number in {0, 1, 2, 3, 4, 5, 6, 7, 8, 32}
    {
      number <= 8 || number == SP_ORDER
    }

    /** True of the registers a callee passes back: X0, X1 and the stack pointer. */
    predicate CheckPassedReturnRegs(): (passed: bool)
      ensures passed <==> number in {0, 1, 32}
    {
      number <= 1 || number == SP_ORDER
    }
  }

  /** The width class of one access. The class that marks an absent operand has no size and never enters a map. */
  datatype ERC =
    | RegB | RegH | RegW | RegS
    | RegX | RegP | RegD | Reg8B | Reg4H | Reg2S | Reg2SF | Reg1D | Reg1DF
    | RegQ | RegV | Reg16B | Reg8H | Reg4S | Reg4SF | Reg2D | Reg2DF

  function ERCSize(c: ERC): nat {
    match c
    case RegB => 8
    case RegH => 16
    case RegW | RegS => 32
    case RegX | RegP | RegD | Reg8B | Reg4H | Reg2S | Reg2SF | Reg1D | Reg1DF => 64
    case RegQ | RegV | Reg16B | Reg8H | Reg4S | Reg4SF | Reg2D | Reg2DF => 128
  }

  /** A class is as wide as its lanes together, and each general class is twice as wide as the one below it. */
  lemma LanesFill()
    ensures ERCSize(RegB) == 8 && ERCSize(RegH) == 2 * ERCSize(RegB) && ERCSize(RegW) == 2 * ERCSize(RegH)
    ensures ERCSize(RegX) == 2 * ERCSize(RegW) && ERCSize(RegQ) == 2 * ERCSize(RegD) && ERCSize(RegP) == ERCSize(RegX)
    ensures ERCSize(RegS) == ERCSize(RegW) && ERCSize(RegD) == ERCSize(RegX) && ERCSize(RegV) == ERCSize(RegQ)
    ensures ERCSize(Reg8B) == 8 * ERCSize(RegB) && ERCSize(Reg16B) == 16 * ERCSize(RegB)
    ensures ERCSize(Reg4H) == 4 * ERCSize(RegH) && ERCSize(Reg8H) == 8 * ERCSize(RegH)
    ensures ERCSize(Reg2S) == ERCSize(Reg2SF) == 2 * ERCSize(RegS)
    ensures ERCSize(Reg4S) == ERCSize(Reg4SF) == 4 * ERCSize(RegS)
    ensures ERCSize(Reg1D) == ERCSize(Reg1DF) == ERCSize(RegD) && ERCSize(Reg2D) == ERCSize(Reg2DF) == 2 * ERCSize(RegD)
  {
  }

  type RegMap = map<EcvReg, ERC>

  /** `dst` widened by `src`: a class of `src` replaces one of `dst` only when it is strictly larger. */
  function Widened(dst: RegMap, src: RegMap): RegMap {
    map r | r in dst.Keys + src.Keys ::
      if r !in src || (r in dst && ERCSize(src[r]) <= ERCSize(dst[r])) then dst[r] else src[r]
  }

  /** The loop that every merge of two register maps runs. */
  method Widen(dst: RegMap, src: RegMap) returns (res: RegMap)
    ensures res == Widened(dst, src)
  {
    res := dst;
    var todo := src.Keys;
    while todo != {}
      invariant todo <= src.Keys
      invariant res == Widened(dst, src - todo)
      decreases todo
    {
      var r :| r in todo;
      if r in res {
        if ERCSize(res[r]) < ERCSize(src[r]) {
          res := res[r := src[r]];
        }
      } else {
        res := res[r := src[r]];
      }
      todo := todo - {r};
    }
    assert src - {} == src;
  }

  /** `m` joins the maps `maps[b]` for `b` in `s`: their union as a domain, and at each register one of
      their classes, none of which is larger. */
  ghost predicate Joins(m: RegMap, maps: map<nat, RegMap>, s: set<nat>)
  {
    && (forall b, r :: b in s && b in maps && r in maps[b] ==> r in m && ERCSize(maps[b][r]) <= ERCSize(m[r]))
    && (forall r :: r in m ==> exists b :: Supplies(maps, s, b, r, m[r]))
  }

  ghost predicate Supplies(maps: map<nat, RegMap>, s: set<nat>, b: nat, r: EcvReg, c: ERC) {
    b in s && b in maps && r in maps[b] && maps[b][r] == c
  }

  lemma JoinsWidened(m1: RegMap, m2: RegMap, maps: map<nat, RegMap>, s1: set<nat>, s2: set<nat>)
    requires Joins(m1, maps, s1) && Joins(m2, maps, s2)
    ensures Joins(Widened(m1, m2), maps, s1 + s2)
  {
    var m := Widened(m1, m2);
    forall r | r in m
      ensures exists b :: Supplies(maps, s1 + s2, b, r, m[r])
    {
      if r in m1 && m[r] == m1[r] {
        var b :| Supplies(maps, s1, b, r, m1[r]);
        assert Supplies(maps, s1 + s2, b, r, m[r]);
      } else {
        var b :| Supplies(maps, s2, b, r, m2[r]);
        assert Supplies(maps, s1 + s2, b, r, m[r]);
      }
    }
  }

  /** A join has exactly the registers of its members, and at each the largest size among them. */
  lemma JoinsUnique(m1: RegMap, m2: RegMap, maps: map<nat, RegMap>, s: set<nat>)
    requires Joins(m1, maps, s) && Joins(m2, maps, s)
    ensures m1.Keys == m2.Keys
    ensures forall r :: r in m1 ==> ERCSize(m1[r]) == ERCSize(m2[r])
  {
    hide ERCSize;
    forall r | r in m1
      ensures r in m2 && ERCSize(m1[r]) <= ERCSize(m2[r])
    {
      JoinsWithin(m1, m2, maps, s, r);
    }
    forall r | r in m2
      ensures r in m1 && ERCSize(m2[r]) <= ERCSize(m1[r])
    {
      JoinsWithin(m2, m1, maps, s, r);
    }
  }

  lemma JoinsWithin(m1: RegMap, m2: RegMap, maps: map<nat, RegMap>, s: set<nat>, r: EcvReg)
    requires Joins(m1, maps, s) && Joins(m2, maps, s) && r in m1
    ensures r in m2 && ERCSize(m1[r]) <= ERCSize(m2[r])
  {
    hide ERCSize;
    var b :| Supplies(maps, s, b, r, m1[r]);
  }

  lemma JoinsSelf(maps: map<nat, RegMap>, b: nat)
    requires b in maps
    ensures Joins(maps[b], maps, {b})
  {
    forall r | r in maps[b]
      ensures exists d :: Supplies(maps, {b}, d, r, maps[b][r])
    {
      assert Supplies(maps, {b}, b, r, maps[b][r]);
    }
  }
}
