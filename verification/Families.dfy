/** The pointers between bags: the forest of merged bags, and the parents and children of live bags while bags merge. */
module Families {
  import opened Registers
  import opened Graphs
  import opened LoopSearch

  // ---------------------------------------------------------------------------
  // Merged bags form a forest

  /** One step of `converted` stays in the class of `x`, and stops exactly at the live bag of the class. */
  ghost predicate ForestAt(converted: Rep, rep: Rep, dist: map<Block, nat>, x: Block)
    requires x in converted && rep.Keys == converted.Keys == dist.Keys
  {
    var c := converted[x];
    && c in converted
    && (rep[x] == x <==> c == x)
    && (c != x ==> rep[x] == rep[c] && dist[x] > dist[c])
  }

  /** Following `converted` from any bag leads, in at most `dist` steps, to the live bag of its class. */
  ghost predicate Forest(converted: Rep, rep: Rep, dist: map<Block, nat>) {
    && rep.Keys == converted.Keys == dist.Keys
    && forall x {:trigger ForestAt(converted, rep, dist, x)} :: x in converted ==> ForestAt(converted, rep, dist, x)
  }


  ghost function MergedDist(rep: Rep, dist: map<Block, nat>, t: Block, m: Block): map<Block, nat>
    requires t in dist && rep.Keys == dist.Keys
  {
    map x | x in dist :: if rep[x] == m then dist[x] + dist[t] + 1 else dist[x]
  }

  lemma ForestMerged(converted: Rep, rep: Rep, dist: map<Block, nat>, m: Block, t: Block)
    requires Forest(converted, rep, dist) && m in Live(rep) && t in Live(rep) && m != t
    ensures Forest(converted[m := t], Merged(rep, m, t), MergedDist(rep, dist, t, m))
  {
    var converted', rep', dist' := converted[m := t], Merged(rep, m, t), MergedDist(rep, dist, t, m);
    forall x | x in converted'
      ensures ForestAt(converted', rep', dist', x)
    {
      assert ForestAt(converted, rep, dist, x);
    }
  }

  // ---------------------------------------------------------------------------
  // The families of a bag

  ghost predicate Has(family: Succ, x: Block, c: Block) {
    x in family && c in family[x]
  }

  method Insert(family: Succ, x: Block, c: Block) returns (res: Succ)
    requires x in family
    ensures res.Keys == family.Keys
    ensures forall y, d {:trigger Has(res, y, d)} {:trigger Has(family, y, d)} ::
              Has(res, y, d) <==> Has(family, y, d) || (y == x && d == c)
  {
    res := family[x := family[x] + {c}];
  }

  /** The family of `x` names the class `y`, possibly through a bag that has been merged into it. */
  ghost predicate Names(rep: Rep, family: Succ, x: Block, y: Block) {
    exists c :: NamesBy(rep, family, x, y, c)
  }

  ghost predicate NamesBy(rep: Rep, family: Succ, x: Block, y: Block, c: Block) {
    Has(family, x, c) && c in rep && rep[c] == y
  }

  lemma NamesIntro(rep: Rep, family: Succ, x: Block, c: Block)
    requires x in family && c in family[x] && c in rep
    ensures Names(rep, family, x, rep[c])
  {
    assert NamesBy(rep, family, x, rep[c], c);
  }

  lemma NamesImage(rep: Rep, family: Succ, x: Block)
    requires x in family
    ensures forall y {:trigger y in Image(rep, family[x])} {:trigger Names(rep, family, x, y)} ::
              y in Image(rep, family[x]) <==> Names(rep, family, x, y)
  {
    forall y
      ensures y in Image(rep, family[x]) <==> Names(rep, family, x, y)
    {
      if y in Image(rep, family[x]) {
        var c :| c in family[x] && c in rep && rep[c] == y;
        assert NamesBy(rep, family, x, y, c);
      }
    }
  }

  lemma ImageAdd(rep: Rep, s: set<Block>, b: Block)
    requires b in rep
    ensures Image(rep, s + {b}) == Image(rep, s) + {rep[b]}
  {
  }

  /** The classes that the family of `m` names once `m` itself may have gained `t`. */
  lemma NamesGained(rep: Rep, family: Succ, family': Succ, m: Block, t: Block, gained: bool)
    requires t in Live(rep)
    requires forall c :: Has(family', m, c) <==> Has(family, m, c) || (c == t && gained)
    ensures forall c :: Names(rep, family', m, c) <==> Names(rep, family, m, c) || (c == t && gained)
  {
    forall c
      ensures Names(rep, family', m, c) <==> Names(rep, family, m, c) || (c == t && gained)
    {
      if Names(rep, family', m, c) {
        var d :| NamesBy(rep, family', m, c, d);
        assert NamesBy(rep, family, m, c, d) || d == t;
      }
      if Names(rep, family, m, c) {
        var d :| NamesBy(rep, family, m, c, d);
        assert NamesBy(rep, family', m, c, d);
      }
      if c == t && gained {
        assert NamesBy(rep, family', m, c, t);
      }
    }
  }

  ghost predicate InRange(rep: Rep, family: Succ) {
    family.Keys == rep.Keys && forall x, c {:trigger Has(family, x, c)} :: Has(family, x, c) ==> c in rep
  }

  /** The children of live bags name exactly the classes that edges lead to, the parents those that edges come from. */
  ghost predicate FamilyOk(g: Succ, rep: Rep, children: Succ, parents: Succ) {
    && InRange(rep, children) && InRange(rep, parents)
    && (forall x, y :: x in Live(rep) ==> (Names(rep, children, x, y) <==> QEdge(g, rep, x, y)))
    && (forall x, y :: y in Live(rep) ==> (Names(rep, parents, y, x) <==> QEdge(g, rep, x, y)))
  }

  /** The families once the bag `m` has been merged into the bag `t`: `t` takes the place of `m` beside every
      parent and every child of `m`, and these become parents and children of `t`. */
  ghost predicate FamilyMoved(rep: Rep, children: Succ, parents: Succ, t: Block, m: Block, children': Succ,
                              parents': Succ) {
    && children'.Keys == children.Keys && parents'.Keys == parents.Keys
    && (forall x, c {:trigger Has(children', x, c)} {:trigger Has(children, x, c)} :: Has(children', x, c) <==>
          || Has(children, x, c)
          || (c == t && Names(rep, parents, m, x))
          || (x == t && (Names(rep, children, m, c) || (c == t && Names(rep, parents, m, m)))))
    && (forall x, c {:trigger Has(parents', x, c)} {:trigger Has(parents, x, c)} :: Has(parents', x, c) <==>
          || Has(parents, x, c)
          || (c == t && (Names(rep, children, m, x) || (x == t && Names(rep, parents, m, m))))
          || (x == t && Names(rep, parents, m, c)))
  }

  lemma ChildMoved(g: Succ, rep: Rep, children: Succ, parents: Succ, t: Block, m: Block, children': Succ,
                   parents': Succ, x: Block, c: Block)
    requires IsRep(g, rep) && t in Live(rep) && m in Live(rep) && t != m
    requires FamilyOk(g, rep, children, parents) && FamilyMoved(rep, children, parents, t, m, children', parents')
    requires x in Live(rep) && x != m && Has(children', x, c)
    ensures c in rep && QEdge(g, Merged(rep, m, t), x, Merged(rep, m, t)[c])
  {
    if Has(children, x, c) {
      assert NamesBy(rep, children, x, rep[c], c);
      QEdgeMergedBack(g, rep, m, t, x, rep[c]);
    } else if c == t && Names(rep, parents, m, x) {
      QEdgeMergedBack(g, rep, m, t, x, m);
    } else if Names(rep, children, m, c) {
      var c0 :| NamesBy(rep, children, m, c, c0);
      QEdgeMergedBack(g, rep, m, t, m, c);
    } else {
      QEdgeMergedBack(g, rep, m, t, m, m);
    }
  }

  lemma EdgeMovedToChild(g: Succ, rep: Rep, children: Succ, parents: Succ, t: Block, m: Block, children': Succ,
                         parents': Succ, x: Block, y: Block)
    requires IsRep(g, rep) && t in Live(rep) && m in Live(rep) && t != m
    requires FamilyOk(g, rep, children, parents) && FamilyMoved(rep, children, parents, t, m, children', parents')
    requires x in Live(rep) && x != m && QEdge(g, Merged(rep, m, t), x, y)
    ensures Names(Merged(rep, m, t), children', x, y)
  {
    var x0, y0 := QEdgeMerged(g, rep, m, t, x, y);
    assert Names(rep, children, x0, y0);
    var c :| NamesBy(rep, children, x0, y0, c);
    if x0 == x {
      assert NamesBy(Merged(rep, m, t), children', x, y, c);
    } else {
      assert Has(children', x, y0);
      assert NamesBy(Merged(rep, m, t), children', x, y, y0);
    }
  }

  lemma ParentMoved(g: Succ, rep: Rep, children: Succ, parents: Succ, t: Block, m: Block, children': Succ,
                    parents': Succ, y: Block, p: Block)
    requires IsRep(g, rep) && t in Live(rep) && m in Live(rep) && t != m
    requires FamilyOk(g, rep, children, parents) && FamilyMoved(rep, children, parents, t, m, children', parents')
    requires y in Live(rep) && y != m && Has(parents', y, p)
    ensures p in rep && QEdge(g, Merged(rep, m, t), Merged(rep, m, t)[p], y)
  {
    if Has(parents, y, p) {
      assert NamesBy(rep, parents, y, rep[p], p);
      QEdgeMergedBack(g, rep, m, t, rep[p], y);
    } else if p == t && Names(rep, children, m, y) {
      QEdgeMergedBack(g, rep, m, t, m, y);
    } else if y == t && Names(rep, parents, m, p) {
      var p0 :| NamesBy(rep, parents, m, p, p0);
      QEdgeMergedBack(g, rep, m, t, p, m);
    } else {
      QEdgeMergedBack(g, rep, m, t, m, m);
    }
  }

  lemma EdgeMovedToParent(g: Succ, rep: Rep, children: Succ, parents: Succ, t: Block, m: Block, children': Succ,
                          parents': Succ, x: Block, y: Block)
    requires IsRep(g, rep) && t in Live(rep) && m in Live(rep) && t != m
    requires FamilyOk(g, rep, children, parents) && FamilyMoved(rep, children, parents, t, m, children', parents')
    requires y in Live(rep) && y != m && QEdge(g, Merged(rep, m, t), x, y)
    ensures Names(Merged(rep, m, t), parents', y, x)
  {
    var x0, y0 := QEdgeMerged(g, rep, m, t, x, y);
    assert Names(rep, parents, y0, x0);
    var p :| NamesBy(rep, parents, y0, x0, p);
    if y0 == y {
      assert NamesBy(Merged(rep, m, t), parents', y, x, p);
    } else {
      assert Has(parents', y, x0);
      assert NamesBy(Merged(rep, m, t), parents', y, x, x0);
    }
  }

  /** Moving the families of `m` to `t` keeps the edges between classes. */
  lemma FamilyMerged(g: Succ, rep: Rep, children: Succ, parents: Succ, t: Block, m: Block, children': Succ,
                     parents': Succ)
    requires IsRep(g, rep) && t in Live(rep) && m in Live(rep) && t != m
    requires FamilyOk(g, rep, children, parents) && FamilyMoved(rep, children, parents, t, m, children', parents')
    ensures FamilyOk(g, Merged(rep, m, t), children', parents')
  {
    var rep' := Merged(rep, m, t);
    forall x, y | x in Live(rep')
      ensures Names(rep', children', x, y) <==> QEdge(g, rep', x, y)
    {
      if Names(rep', children', x, y) {
        var c :| NamesBy(rep', children', x, y, c);
        ChildMoved(g, rep, children, parents, t, m, children', parents', x, c);
      }
      if QEdge(g, rep', x, y) {
        EdgeMovedToChild(g, rep, children, parents, t, m, children', parents', x, y);
      }
    }
    forall x, y | y in Live(rep')
      ensures Names(rep', parents', y, x) <==> QEdge(g, rep', x, y)
    {
      if Names(rep', parents', y, x) {
        var p :| NamesBy(rep', parents', y, x, p);
        ParentMoved(g, rep, children, parents, t, m, children', parents', y, p);
      }
      if QEdge(g, rep', x, y) {
        EdgeMovedToParent(g, rep, children, parents, t, m, children', parents', x, y);
      }
    }
  }

  // ---------------------------------------------------------------------------
  // The families once every bag has been replaced by its live bag

  /** The families of live bags are exactly the edges between different classes. */
  ghost predicate Settled(g: Succ, rep: Rep, children: Succ, parents: Succ) {
    && (forall x :: x in Live(rep) ==> x in children && x in parents)
    && (forall x, y {:trigger Has(children, x, y)} {:trigger QEdge(g, rep, x, y)} ::
          x in Live(rep) ==> (Has(children, x, y) <==> x != y && QEdge(g, rep, x, y)))
    && (forall x, y {:trigger Has(parents, y, x)} {:trigger QEdge(g, rep, x, y)} ::
          y in Live(rep) ==> (Has(parents, y, x) <==> x != y && QEdge(g, rep, x, y)))
  }

  ghost function Others(rep: Rep, s: set<Block>, own: Block): set<Block> {
    Image(rep, s) - {own}
  }

  lemma OthersTwice(g: Succ, rep: Rep, s: set<Block>, own: Block)
    requires IsRep(g, rep)
    ensures Others(rep, Others(rep, s, own), own) == Others(rep, s, own)
  {
    forall y | y in Others(rep, s, own)
      ensures y in Others(rep, Others(rep, s, own), own)
    {
      assert rep[y] == y;
    }
  }

  lemma OthersInRange(g: Succ, rep: Rep, s: set<Block>, own: Block)
    requires IsRep(g, rep)
    ensures forall y :: y in Others(rep, s, own) ==> y in rep
  {
  }

  lemma OthersSettled(g: Succ, rep: Rep, children: Succ, parents: Succ, children': Succ, parents': Succ)
    requires FamilyOk(g, rep, children, parents)
    requires forall x :: x in Live(rep) ==>
               x in children && x in children' && children'[x] == Others(rep, children[x], x)
    requires forall x :: x in Live(rep) ==> x in parents && x in parents' && parents'[x] == Others(rep, parents[x], x)
    ensures Settled(g, rep, children', parents')
  {
    forall x, y | x in Live(rep)
      ensures Has(children', x, y) <==> x != y && QEdge(g, rep, x, y)
    {
      NamesImage(rep, children, x);
      assert y in Image(rep, children[x]) <==> Names(rep, children, x, y);
    }
    forall x, y | y in Live(rep)
      ensures Has(parents', y, x) <==> x != y && QEdge(g, rep, x, y)
    {
      NamesImage(rep, parents, y);
      assert x in Image(rep, parents[y]) <==> Names(rep, parents, y, x);
    }
  }
}
