/** Straight-line blocks are joined into one: `AnalyzeRegsBags` before it analyses the registers. */
module Flattening {
  import opened Registers
  import opened Graphs
  import opened Promoted
  import opened RegInfos
  import opened Flows

  // ---------------------------------------------------------------------------
  // Chains: which blocks of the original function a block consists of

  type Chain = map<Block, seq<Block>>

  function Code(bodies: Bodies, blocks: seq<Block>): seq<Instr> {
    if blocks == [] then [] else Code(bodies, blocks[..|blocks| - 1]) + Body(bodies, blocks[|blocks| - 1])
  }

  lemma {:induction false} CodeConcat(bodies: Bodies, a: seq<Block>, b: seq<Block>)
    ensures Code(bodies, a + b) == Code(bodies, a) + Code(bodies, b)
  {
    if b == [] {
      assert a + b == a;
    } else {
      assert (a + b)[..|a + b| - 1] == a + b[..|b| - 1];
      CodeConcat(bodies, a, b[..|b| - 1]);
    }
  }

  /** The blocks of `c` follow each other with no other way to go. */
  ghost predicate Straight(succs: Targets, c: seq<Block>) {
    && |c| > 0 && (forall i :: 0 <= i < |c| ==> c[i] in succs)
    && forall i :: 0 < i < |c| ==> succs[c[i - 1]] == [c[i]]
  }

  /** Block `b` of `f` consists of the blocks of its chain. */
  ghost predicate ChainAt(o: Flow, f: Flow, chain: Chain, b: Block) {
    b in f.succs ==>
      && b in chain && Straight(o.succs, chain[b]) && chain[b][0] == b
      && f.succs[b] == o.succs[chain[b][|chain[b]| - 1]]
      && Body(f.bodies, b) == Code(o.bodies, chain[b])
  }

  ghost predicate Chained(o: Flow, f: Flow, chain: Chain) {
    forall b {:trigger ChainAt(o, f, chain, b)} :: ChainAt(o, f, chain, b)
  }

  function OwnChains(f: Flow): Chain {
    map b | b in f.succs :: [b]
  }

  lemma ChainsStart(f: Flow)
    requires WellKept(f)
    ensures Chained(f, f, OwnChains(f))
  {
    forall b {:trigger ChainAt(f, f, OwnChains(f), b)}
      ensures ChainAt(f, f, OwnChains(f), b)
    {
      assert Code(f.bodies, []) == [];
      assert Code(f.bodies, [b]) == Body(f.bodies, b);
    }
  }

  lemma StraightConcat(succs: Targets, a: seq<Block>, b: seq<Block>)
    requires Straight(succs, a) && Straight(succs, b) && succs[a[|a| - 1]] == [b[0]]
    ensures Straight(succs, a + b)
  {
  }

  lemma JoinChained(o: Flow, f: Flow, chain: Chain, t: Block, j: Block)
    requires WellKept(f) && Chained(o, f, chain) && OnlyLinks(f, t, j) && t != j
    ensures t in f.bodies && j in f.bodies && t in f.infos && j in f.infos && j in f.succs && t in chain && j in chain
    ensures Chained(o, Join(f, t, j), (chain - {j})[t := chain[t] + chain[j]])
  {
    JoinKept(f, t, j);
    assert ChainAt(o, f, chain, t) && ChainAt(o, f, chain, j);
    var f', chain' := Join(f, t, j), (chain - {j})[t := chain[t] + chain[j]];
    forall b
      ensures ChainAt(o, f', chain', b)
    {
      assert ChainAt(o, f, chain, b);
      if b == t {
        StraightConcat(o.succs, chain[t], chain[j]);
        CodeConcat(o.bodies, chain[t], chain[j]);
      }
    }
  }

  // ---------------------------------------------------------------------------
  // The records of the blocks of a chain

  function InfoOf(f: Flow, b: Block): Info {
    if b in f.infos then f.infos[b] else NOTHING
  }

  function InfosOf(f: Flow, blocks: seq<Block>): (infos: seq<Info>)
    ensures |infos| == |blocks|
  {
    seq(|blocks|, i requires 0 <= i < |blocks| => InfoOf(f, blocks[i]))
  }

  /** The record of each block is that of the blocks of its chain, one after the other. */
  ghost predicate Folded(o: Flow, f: Flow, chain: Chain) {
    forall b :: b in f.infos && b in chain ==> f.infos[b] == Fold(InfosOf(o, chain[b]))
  }

  lemma FoldedStart(f: Flow)
    ensures Folded(f, f, OwnChains(f))
  {
    forall b | b in f.infos && b in OwnChains(f)
      ensures f.infos[b] == Fold(InfosOf(f, [b]))
    {
      assert InfosOf(f, [b])[..0] == [] && Fold([]) == NOTHING;
      JoinedNothing(f.infos[b]);
    }
  }

  lemma RecordStoresHeld(f: Flow, b: Block)
    requires WellKept(f) && b in f.succs
    ensures StoresHeld(InfoOf(f, b))
  {
    hide Records, ReadsFirst, Writes, Own;
    assert RecordsAt(f, b);
    RecordHolds(f.bodies[b], f.infos[b]);
  }

  lemma RecordHolds(body: seq<Instr>, info: Info)
    requires Records(body, info)
    ensures StoresHeld(info)
  {
  }

  lemma JoinFolded(o: Flow, f: Flow, chain: Chain, t: Block, j: Block)
    requires WellKept(o) && WellKept(f) && Chained(o, f, chain) && Folded(o, f, chain)
    requires OnlyLinks(f, t, j) && t != j
    ensures t in f.bodies && j in f.bodies && t in f.infos && j in f.infos && j in f.succs && t in chain && j in chain
    ensures Folded(o, Join(f, t, j), (chain - {j})[t := chain[t] + chain[j]])
  {
    hide WellKept, Fold, StoresHeld;
    JoinKept(f, t, j);
    assert ChainAt(o, f, chain, t) && ChainAt(o, f, chain, j);
    var a, b := InfosOf(o, chain[t]), InfosOf(o, chain[j]);
    forall i | 0 <= i < |chain[t]|
      ensures StoresHeld(a[i])
    {
      RecordStoresHeld(o, chain[t][i]);
    }
    forall i | 0 <= i < |chain[j]|
      ensures StoresHeld(b[i])
    {
      RecordStoresHeld(o, chain[j][i]);
    }
    FoldConcat(a, b);
    assert InfosOf(o, chain[t] + chain[j]) == a + b;
  }

  /** Each record sums up the records of the blocks that were joined. */
  ghost predicate RecordsSumUp(o: Flow, f: Flow, chain: Chain) {
    forall b :: b in f.succs ==> b in f.infos && b in chain && SumsUp(InfosOf(o, chain[b]), f.infos[b])
  }

  lemma FoldedSumsUp(o: Flow, f: Flow, chain: Chain)
    requires WellKept(o) && WellKept(f) && Chained(o, f, chain) && Folded(o, f, chain)
    ensures RecordsSumUp(o, f, chain)
  {
    hide WellKept, Fold, StoresHeld, SumsUpAt;
    forall b | b in f.succs
      ensures b in f.infos && b in chain && SumsUp(InfosOf(o, chain[b]), f.infos[b])
    {
      HasRecord(f, b);
      assert ChainAt(o, f, chain, b);
      forall i | 0 <= i < |chain[b]|
        ensures StoresHeld(InfosOf(o, chain[b])[i])
      {
        RecordStoresHeld(o, chain[b][i]);
      }
      forall r
        ensures SumsUpAt(InfosOf(o, chain[b]), f.infos[b], r)
      {
        FoldSays(InfosOf(o, chain[b]), r);
      }
    }
  }

  lemma HasRecord(f: Flow, b: Block)
    requires WellKept(f) && b in f.succs
    ensures b in f.infos
  {
    assert RecordsAt(f, b);
  }

  // ---------------------------------------------------------------------------
  // Paths

  /** The path of the original function behind a path of `f`. */
  function Expand(chain: Chain, p: seq<Block>): seq<Block> {
    if p == [] then []
    else Expand(chain, p[..|p| - 1]) + (if p[|p| - 1] in chain then chain[p[|p| - 1]] else [])
  }

  /** The path of `f` runs through the same instructions as the path of the original function behind it. */
  lemma {:induction false} ExpandPath(o: Flow, f: Flow, chain: Chain, entry: Block, p: seq<Block>)
    requires Chained(o, f, chain) && IsPath(f.succs, entry, p)
    ensures p[|p| - 1] in chain && chain[p[|p| - 1]] != []
    ensures var c := chain[p[|p| - 1]]; Promoted.PathTo(o.succs, entry, Expand(chain, p), c[|c| - 1])
    ensures Code(o.bodies, Expand(chain, p)) == Code(f.bodies, p)
    ensures f.succs[p[|p| - 1]] == o.succs[chain[p[|p| - 1]][|chain[p[|p| - 1]]| - 1]]
  {
    hide IsPath, Straight;
    ExpandLast(o, f, chain, entry, p);
    var b, rest := p[|p| - 1], p[..|p| - 1];
    if |p| > 1 {
      ExpandPath(o, f, chain, entry, rest);
      CodeConcat(o.bodies, Expand(chain, rest), chain[b]);
      PathThenChain(o.succs, entry, Expand(chain, rest), chain[b]);
    }
  }

  lemma ExpandLast(o: Flow, f: Flow, chain: Chain, entry: Block, p: seq<Block>)
    requires Chained(o, f, chain) && IsPath(f.succs, entry, p)
    ensures |p| > 0 && p[|p| - 1] in chain && p[|p| - 1] in f.succs
    ensures var b, c := p[|p| - 1], chain[p[|p| - 1]];
            && Straight(o.succs, c) && c != [] && f.succs[b] == o.succs[c[|c| - 1]] &&
                 Body(f.bodies, b) == Code(o.bodies, c)
            && Expand(chain, p) == Expand(chain, p[..|p| - 1]) + c
            && (|p| == 1 ==>
                  IsPath(o.succs, entry, c) && Expand(chain, p) == c && Code(f.bodies, p) == Body(f.bodies, b))
            && (|p| > 1 ==> IsPath(f.succs, entry, p[..|p| - 1]) && c[0] in f.succs[p[|p| - 2]])
  {
    var b := p[|p| - 1];
    assert ChainAt(o, f, chain, b);
    if |p| == 1 {
      assert Expand(chain, []) == [] && Code(f.bodies, []) == [];
      assert p[..0] == [];
    }
  }

  lemma PathThenChain(succs: Targets, entry: Block, p: seq<Block>, c: seq<Block>)
    requires IsPath(succs, entry, p) && Straight(succs, c) && c[0] in succs[p[|p| - 1]]
    ensures IsPath(succs, entry, p + c)
  {
    var pc := p + c;
    forall i | 0 < i < |pc|
      ensures pc[i] in succs[pc[i - 1]]
    {
      if i > |p| {
        assert pc[i - 1] == c[i - 1 - |p|] && pc[i] == c[i - |p|];
      }
    }
  }

  /** `p` is, up to the first `k` blocks of the last chain, the path behind `p'`. */
  ghost predicate Folds(f: Flow, chain: Chain, entry: Block, p: seq<Block>, p': seq<Block>, k: int) {
    && IsPath(f.succs, entry, p') && p'[|p'| - 1] in chain && 0 < k <= |chain[p'[|p'| - 1]]|
    && p == Expand(chain, p'[..|p'| - 1]) + chain[p'[|p'| - 1]][..k]
  }

  /** Every path of the original function is, up to the last chain, the path behind a path of `f`. */
  lemma {:induction false} FoldPath(o: Flow, f: Flow, chain: Chain, entry: Block,
                                    p: seq<Block>) returns (p': seq<Block>, k: int)
    requires Chained(o, f, chain) && IsPath(o.succs, entry, p) && entry in f.succs && TruePreds(f)
    ensures Folds(f, chain, entry, p, p', k)
  {
    hide TruePreds, ChainAt, Folds;
    var rest := p[..|p| - 1];
    if rest == [] {
      p', k := [entry], 1;
      FoldEntry(o, f, chain, entry);
      assert p == [entry];
    } else {
      p', k := FoldPath(o, f, chain, entry, rest);
      p', k := FoldStep(o, f, chain, entry, rest, p[|p| - 1], p', k);
      assert rest + [p[|p| - 1]] == p;
    }
  }

  lemma FoldEntry(o: Flow, f: Flow, chain: Chain, entry: Block)
    requires Chained(o, f, chain) && entry in f.succs
    ensures Folds(f, chain, entry, [entry], [entry], 1)
  {
    assert ChainAt(o, f, chain, entry);
    assert Expand(chain, []) == [];
    assert [entry] == [] + chain[entry][..1];
  }

  lemma FoldStep(o: Flow, f: Flow, chain: Chain, entry: Block, rest: seq<Block>, b: Block, p: seq<Block>, k: int)
    returns (p': seq<Block>, k': int)
    requires Chained(o, f, chain) && TruePreds(f) && Folds(f, chain, entry, rest, p, k)
    requires rest != [] && rest[|rest| - 1] in o.succs && b in o.succs[rest[|rest| - 1]]
    ensures Folds(f, chain, entry, rest + [b], p', k')
  {
    hide Expand;
    var h := p[|p| - 1];
    assert ChainAt(o, f, chain, h);
    assert rest[|rest| - 1] == chain[h][k - 1];
    if k < |chain[h]| {
      assert o.succs[chain[h][k - 1]] == [chain[h][k]];
      assert chain[h][..k + 1] == chain[h][..k] + [b];
      p', k' := p, k + 1;
    } else {
      p', k' := p + [b], 1;
      FoldNext(o, f, chain, entry, p, b);
      assert chain[h][..k] == chain[h] && chain[b][..1] == [b] && p'[..|p'| - 1] == p;
    }
  }

  lemma FoldNext(o: Flow, f: Flow, chain: Chain, entry: Block, p: seq<Block>, b: Block)
    requires Chained(o, f, chain) && TruePreds(f) && IsPath(f.succs, entry, p) && p[|p| - 1] in chain
    requires b in f.succs[p[|p| - 1]]
    ensures IsPath(f.succs, entry, p + [b]) && b in chain && chain[b] != [] && chain[b][0] == b
    ensures Expand(chain, p) == Expand(chain, p[..|p| - 1]) + chain[p[|p| - 1]]
  {
    assert LeadsTo(f, p[|p| - 1], b) && ComesFrom(f, b, p[|p| - 1]);
    assert ChainAt(o, f, chain, b);
    PathExtends(f.succs, entry, p, b);
  }

  lemma StraightNext(succs: Targets, c: seq<Block>, k: int)
    requires Straight(succs, c) && 0 < k < |c|
    ensures succs[c[k - 1]] == [c[k]]
  {
  }

  /** `p` runs from the entry to a block that leads nowhere, through the instructions `code`. */
  ghost predicate Runs(f: Flow, entry: Block, p: seq<Block>, code: seq<Instr>) {
    IsPath(f.succs, entry, p) && f.succs[p[|p| - 1]] == [] && Code(f.bodies, p) == code
  }

  lemma RunsKept(o: Flow, f: Flow, chain: Chain, entry: Block, p: seq<Block>, code: seq<Instr>)
    requires Chained(o, f, chain) && Runs(f, entry, p, code)
    ensures Runs(o, entry, Expand(chain, p), code)
  {
    ExpandPath(o, f, chain, entry, p);
  }

  lemma RunsMatched(o: Flow, f: Flow, chain: Chain, entry: Block, p: seq<Block>,
                    code: seq<Instr>) returns (p': seq<Block>)
    requires Chained(o, f, chain) && Runs(o, entry, p, code) && entry in f.succs && TruePreds(f)
    ensures Runs(f, entry, p', code)
  {
    var k;
    p', k := FoldPath(o, f, chain, entry, p);
    var h := p'[|p'| - 1];
    assert ChainAt(o, f, chain, h);
    assert p[|p| - 1] == chain[h][k - 1];
    if k < |chain[h]| {
      StraightNext(o.succs, chain[h], k);
    }
    assert chain[h][..k] == chain[h];
    assert p == Expand(chain, p');
    ExpandPath(o, f, chain, entry, p');
  }

  /** Both functions run through the same instruction sequences from the entry until they return. */
  ghost predicate SameRuns(o: Flow, f: Flow, entry: Block) {
    forall code {:trigger RunsThrough(o, entry, code)} {:trigger RunsThrough(f, entry, code)} ::
      RunsThrough(o, entry, code) <==> RunsThrough(f, entry, code)
  }

  ghost predicate RunsThrough(f: Flow, entry: Block, code: seq<Instr>) {
    exists p :: Runs(f, entry, p, code)
  }

  lemma ChainedSameRuns(o: Flow, f: Flow, chain: Chain, entry: Block)
    requires Chained(o, f, chain) && entry in f.succs && TruePreds(f)
    ensures SameRuns(o, f, entry)
  {
    hide Runs, Chained, TruePreds;
    forall code {:trigger RunsThrough(o, entry, code)} {:trigger RunsThrough(f, entry, code)}
      ensures RunsThrough(o, entry, code) <==> RunsThrough(f, entry, code)
    {
      if RunsThrough(o, entry, code) {
        var p :| Runs(o, entry, p, code);
        var p' := RunsMatched(o, f, chain, entry, p, code);
      }
      if RunsThrough(f, entry, code) {
        var p :| Runs(f, entry, p, code);
        RunsKept(o, f, chain, entry, p, code);
      }
    }
  }

  // ---------------------------------------------------------------------------
  // The walk that joins blocks

  /** `b` is not the only successor of its only predecessor. */
  ghost predicate Stays(f: Flow, entry: Block, first: Block, b: Block) {
    b in f.succs && b != entry && (b == first || forall q :: !OnlyLinks(f, q, b))
  }

  ghost predicate AllStay(f: Flow, entry: Block, first: Block, blocks: set<Block>) {
    forall b {:trigger Stays(f, entry, first, b)} :: b in blocks ==> Stays(f, entry, first, b)
  }

  /** `b` cannot be joined with what follows it. */
  ghost predicate Settles(f: Flow, b: Block) {
    forall c :: !OnlyLinks(f, b, c)
  }

  /** Blocks that were visited and are not queued again are settled, and what follows them was visited or is queued. */
  ghost predicate Walked(f: Flow, visited: set<Block>, queue: seq<Block>) {
    && (forall b {:trigger Settles(f, b)} :: b in visited && b !in queue ==> Settles(f, b))
    && (forall b, c {:trigger LeadsTo(f, b, c)} :: b in visited && b !in queue && LeadsTo(f, b, c) ==>
         c in visited || c in queue)
  }

  /** The entry leads to `first` alone, and nothing leads to the entry. */
  ghost predicate EntersAt(f: Flow, entry: Block, first: Block) {
    && entry in f.succs && f.succs[entry] == [first] && first != entry
    && (forall q :: !LeadsTo(f, q, entry))
  }

  /** A queued block that is joined with `j` leaves all others that were visited or are queued in place. */
  lemma JoinStays(f: Flow, entry: Block, first: Block, t: Block, j: Block, b: Block)
    requires WellKept(f) && EntersAt(f, entry, first) && OnlyLinks(f, t, j) && Stays(f, entry, first, t)
    requires Stays(f, entry, first, b)
    ensures t != j && b != j && j != first
    ensures t in f.bodies && j in f.bodies && t in f.infos && j in f.infos && j in f.succs
    ensures Stays(Join(f, t, j), entry, first, b)
  {
    assert LeadsTo(f, entry, first) && ComesFrom(f, first, entry);
    assert t != j;
    JoinKept(f, t, j);
    var f' := Join(f, t, j);
    if b != first {
      forall q
        ensures !OnlyLinks(f', q, b)
      {
        if OnlyLinks(f', q, b) {
          JoinLinks(f, t, j, q, b);
        }
      }
    }
  }

  /** After a join, a block is joined to a predecessor only if it was before. */
  lemma JoinLinks(f: Flow, t: Block, j: Block, q: Block, b: Block)
    requires WellKept(f) && OnlyLinks(f, t, j) && t != j
    ensures t in f.bodies && j in f.bodies && t in f.infos && j in f.infos && j in f.succs
    ensures OnlyLinks(Join(f, t, j), q, b) ==> OnlyLinks(f, if q == t then j else q, b)
  {
    JoinKept(f, t, j);
    var f' := Join(f, t, j);
    if OnlyLinks(f', q, b) {
      assert LeadsTo(f', q, b);
      JoinEdges(f, t, j, q, b);
      JoinEdges(f, t, j, t, b);
      var q0 := if q == t then j else q;
      forall x
        ensures ComesFrom(f, b, x) <==> x == q0
      {
        JoinEdges(f, t, j, x, b);
        assert ComesFrom(f', b, x) <==> x == q;
        assert LeadsTo(f, x, b) <==> ComesFrom(f, b, x);
        assert LeadsTo(f, t, b) <==> b == j;
      }
      assert b in f.preds;
      forall x
        ensures x in f.preds[b] <==> x in {q0}
      {
        assert ComesFrom(f, b, x) <==> x in f.preds[b];
      }
    }
  }

  lemma JoinEnters(f: Flow, entry: Block, first: Block, t: Block, j: Block)
    requires WellKept(f) && EntersAt(f, entry, first) && OnlyLinks(f, t, j) && t != j && t != entry && j != first
    ensures t in f.bodies && j in f.bodies && t in f.infos && j in f.infos && j in f.succs
    ensures EntersAt(Join(f, t, j), entry, first)
  {
    JoinKept(f, t, j);
    assert LeadsTo(f, t, j);
    forall q
      ensures !LeadsTo(Join(f, t, j), q, entry)
    {
      JoinEdges(f, t, j, q, entry);
    }
  }

  lemma JoinWalked(f: Flow, t: Block, j: Block, visited: set<Block>, queue: seq<Block>)
    requires WellKept(f) && OnlyLinks(f, t, j) && t != j && queue != [] && queue[0] == t && Walked(f, visited, queue)
    ensures t in f.bodies && j in f.bodies && t in f.infos && j in f.infos && j in f.succs
    ensures Walked(Join(f, t, j), visited + {t}, queue[1..] + if f.succs[j] == [] then [] else [t])
  {
    JoinKept(f, t, j);
    var f' := Join(f, t, j);
    var visited', queue' := visited + {t}, queue[1..] + if f.succs[j] == [] then [] else [t];
    forall b {:trigger Settles(f', b)} | b in visited' && b !in queue'
      ensures Settles(f', b)
    {
      if b != t {
        Popped(queue, b);
        assert Settles(f, b);
        forall c
          ensures !OnlyLinks(f', b, c)
        {
          JoinLinks(f, t, j, b, c);
        }
      }
    }
    forall b, c {:trigger LeadsTo(f', b, c)} | b in visited' && b !in queue' && LeadsTo(f', b, c)
      ensures c in visited' || c in queue'
    {
      JoinEdges(f, t, j, b, c);
      Popped(queue, b);
      Popped(queue, c);
    }
  }

  lemma Popped(queue: seq<Block>, b: Block)
    requires queue != []
    ensures b in queue <==> b == queue[0] || b in queue[1..]
  {
    if b in queue && b != queue[0] {
      var i :| 0 <= i < |queue| && queue[i] == b;
      assert queue[1..][i - 1] == b;
    }
  }

  /** When nothing is joined, what follows the block is queued unless it was visited. */
  lemma PushWalked(f: Flow, t: Block, visited: set<Block>, queue: seq<Block>, queue': seq<Block>)
    requires queue != [] && queue[0] == t && Walked(f, visited, queue) && Settles(f, t)
    requires forall b :: b in queue[1..] ==> b in queue'
    requires forall c :: LeadsTo(f, t, c) ==> c in visited + {t} || c in queue'
    ensures Walked(f, visited + {t}, queue')
  {
    forall b {:trigger Settles(f, b)} | b in visited + {t} && b !in queue'
      ensures Settles(f, b)
    {
      Popped(queue, b);
    }
    forall b, c {:trigger LeadsTo(f, b, c)} | b in visited + {t} && b !in queue' && LeadsTo(f, b, c)
      ensures c in visited + {t} || c in queue'
    {
      Popped(queue, b);
      Popped(queue, c);
    }
  }

  /** The queued blocks that were visited before. */
  ghost function Again(queue: seq<Block>, visited: set<Block>): nat {
    if queue == [] then 0 else (if queue[0] in visited then 1 else 0) + Again(queue[1..], visited)
  }

  lemma {:induction false} AgainConcat(a: seq<Block>, b: seq<Block>, visited: set<Block>)
    ensures Again(a + b, visited) == Again(a, visited) + Again(b, visited)
  {
    if a == [] {
      assert a + b == b;
    } else {
      assert (a + b)[1..] == a[1..] + b;
      AgainConcat(a[1..], b, visited);
    }
  }

  lemma {:induction false} AgainNone(a: seq<Block>, visited: set<Block>)
    requires forall b :: b in a ==> b !in visited
    ensures Again(a, visited) == 0
  {
    if a != [] {
      AgainNone(a[1..], visited);
    }
  }

  /** Pushing unvisited blocks makes up for no visited one that was popped. */
  lemma AgainFewer(queue: seq<Block>, pushed: seq<Block>, visited: set<Block>)
    requires queue != [] && queue[0] in visited && forall b :: b in pushed ==> b !in visited
    ensures Again(queue[1..] + pushed, visited) < Again(queue, visited)
  {
    AgainConcat(queue[1..], pushed, visited);
    AgainNone(pushed, visited);
  }

  ghost predicate Reached(f: Flow, entry: Block, b: Block) {
    exists p :: Promoted.PathTo(f.succs, entry, p, b)
  }

  ghost predicate AllReached(f: Flow, entry: Block) {
    forall b :: b in f.succs ==> Reached(f, entry, b)
  }

  /** A path keeps its way through a join. */
  lemma {:induction false} JoinPath(f: Flow, entry: Block, t: Block, j: Block, p: seq<Block>) returns (p': seq<Block>)
    requires WellKept(f) && OnlyLinks(f, t, j) && t != j && entry != j && IsPath(f.succs, entry, p)
    ensures t in f.bodies && j in f.bodies && t in f.infos && j in f.infos && j in f.succs
    ensures Promoted.PathTo(Join(f, t, j).succs, entry, p', if p[|p| - 1] == j then t else p[|p| - 1])
  {
    JoinKept(f, t, j);
    var f' := Join(f, t, j);
    if |p| == 1 {
      p' := [entry];
    } else {
      var c, b := p[|p| - 2], p[|p| - 1];
      p' := JoinPath(f, entry, t, j, p[..|p| - 1]);
      assert LeadsTo(f, c, b);
      if b == j {
        assert ComesFrom(f, j, c);
      } else {
        var c' := if c == j then t else c;
        assert LeadsTo(f, t, b) <==> b == j;
        JoinEdges(f, t, j, c', b);
        assert LeadsTo(f', c', b);
        assert ComesFrom(f', b, c');
        PathExtends(f'.succs, entry, p', b);
        p' := p' + [b];
      }
    }
  }

  lemma JoinReached(f: Flow, entry: Block, t: Block, j: Block)
    requires WellKept(f) && OnlyLinks(f, t, j) && t != j && entry != j && AllReached(f, entry)
    ensures t in f.bodies && j in f.bodies && t in f.infos && j in f.infos && j in f.succs
    ensures AllReached(Join(f, t, j), entry)
  {
    JoinKept(f, t, j);
    var f' := Join(f, t, j);
    forall b | b in f'.succs
      ensures Reached(f', entry, b)
    {
      assert Reached(f, entry, b);
      var p :| Promoted.PathTo(f.succs, entry, p, b);
      var p' := JoinPath(f, entry, t, j, p);
    }
  }

  /** `f` has no block that `o` does not have. */
  ghost predicate Within(o: Flow, f: Flow) {
    forall b :: b in f.succs || b in f.bodies ==> b in o.succs || b in o.bodies
  }

  /** What the walk keeps. */
  ghost predicate Walking(o: Flow, f: Flow, chain: Chain, entry: Block, first: Block, visited: set<Block>,
                          queue: seq<Block>) {
    && WellKept(f) && Chained(o, f, chain) && EntersAt(f, entry, first) && AllReached(f, entry)
    && AllStay(f, entry, first, visited) && (forall b :: b in queue ==> Stays(f, entry, first, b))
    && Walked(f, visited, queue) && (first in visited || first in queue)
    && (forall b :: b in f.succs ==> |f.succs[b]| <= 2)
    && Within(o, f)
  }

  lemma WalkingJoin(o: Flow, f: Flow, chain: Chain, entry: Block, first: Block, visited: set<Block>, queue: seq<Block>,
                    t: Block, j: Block)
    requires Walking(o, f, chain, entry, first, visited, queue) && queue != [] && queue[0] == t && OnlyLinks(f, t, j)
    ensures t in f.bodies && j in f.bodies && t in f.infos && j in f.infos && j in f.succs && t != j && t in chain
    ensures j in chain
    ensures forall i :: 0 <= i < |f.succs[j]| ==> f.succs[j][i] in f.preds && f.succs[j][i] != j
    ensures Walking(o, Join(f, t, j), (chain - {j})[t := chain[t] + chain[j]], entry, first, visited + {t},
                    queue[1..] + if f.succs[j] == [] then [] else [t])
    ensures |Join(f, t, j).succs| < |f.succs|
  {
    hide Stays, WellKept, Chained, EntersAt, AllReached, AllStay, Walked, OnlyLinks, Join, Within;
    assert Stays(f, entry, first, t);
    JoinStays(f, entry, first, t, j, t);
    JoinKept(f, t, j);
    JoinWithin(o, f, t, j);
    EntryStays(f, entry, first, t);
    JoinChained(o, f, chain, t, j);
    JoinEnters(f, entry, first, t, j);
    JoinReached(f, entry, t, j);
    JoinWalked(f, t, j, visited, queue);
    JoinStaysAll(f, entry, first, visited, queue, t, j);
    JoinSizes(f, t, j);
    JoinTargets(f, t, j);
    Popped(queue, first);
  }

  lemma EntryStays(f: Flow, entry: Block, first: Block, b: Block)
    requires Stays(f, entry, first, b) && EntersAt(f, entry, first)
    ensures b != entry && entry in f.succs
  {
  }

  lemma JoinWithin(o: Flow, f: Flow, t: Block, j: Block)
    requires WellKept(f) && OnlyLinks(f, t, j) && t != j && Within(o, f)
    ensures t in f.bodies && j in f.bodies && t in f.infos && j in f.infos && j in f.succs
    ensures Within(o, Join(f, t, j))
  {
    JoinKept(f, t, j);
    assert t in f.succs;
  }

  lemma JoinStaysAll(f: Flow, entry: Block, first: Block, visited: set<Block>, queue: seq<Block>, t: Block, j: Block)
    requires WellKept(f) && EntersAt(f, entry, first) && AllStay(f, entry, first, visited)
    requires forall b :: b in queue ==> Stays(f, entry, first, b)
    requires queue != [] && queue[0] == t && OnlyLinks(f, t, j) && t != j
    ensures t in f.bodies && j in f.bodies && t in f.infos && j in f.infos && j in f.succs
    ensures AllStay(Join(f, t, j), entry, first, visited + {t})
    ensures forall b :: b in queue ==> Stays(Join(f, t, j), entry, first, b)
  {
    JoinKept(f, t, j);
    assert Stays(f, entry, first, t);
    forall b {:trigger Stays(Join(f, t, j), entry, first, b)} | b in visited + {t} || b in queue
      ensures Stays(Join(f, t, j), entry, first, b)
    {
      assert Stays(f, entry, first, b);
      JoinStays(f, entry, first, t, j, b);
    }
  }

  lemma JoinSizes(f: Flow, t: Block, j: Block)
    requires WellKept(f) && OnlyLinks(f, t, j) && t != j && forall b :: b in f.succs ==> |f.succs[b]| <= 2
    ensures t in f.bodies && j in f.bodies && t in f.infos && j in f.infos && j in f.succs
    ensures forall b :: b in Join(f, t, j).succs ==> |Join(f, t, j).succs[b]| <= 2
    ensures |Join(f, t, j).succs| < |f.succs|
  {
    JoinKept(f, t, j);
    assert Join(f, t, j).succs.Keys == f.succs.Keys - {j};
    assert |Join(f, t, j).succs.Keys| == |f.succs.Keys| - 1;
    assert |Join(f, t, j).succs| == |Join(f, t, j).succs.Keys| && |f.succs| == |f.succs.Keys|;
  }

  lemma JoinTargets(f: Flow, t: Block, j: Block)
    requires WellKept(f) && OnlyLinks(f, t, j) && t != j
    ensures j in f.succs && forall i :: 0 <= i < |f.succs[j]| ==> f.succs[j][i] in f.preds && f.succs[j][i] != j
  {
    JoinKept(f, t, j);
    forall i | 0 <= i < |f.succs[j]|
      ensures f.succs[j][i] in f.preds && f.succs[j][i] != j
    {
      assert LeadsTo(f, j, f.succs[j][i]) && ComesFrom(f, f.succs[j][i], j);
    }
  }

  /** Pushing the unvisited successors of a block that is not joined. */
  lemma WalkingPush(o: Flow, f: Flow, chain: Chain, entry: Block, first: Block, visited: set<Block>, queue: seq<Block>,
                    t: Block, pushed: seq<Block>)
    requires Walking(o, f, chain, entry, first, visited, queue) && queue != [] && queue[0] == t && Settles(f, t)
    requires forall c :: LeadsTo(f, t, c) ==> c in visited + {t} || c in pushed
    requires forall c :: c in pushed ==> LeadsTo(f, t, c) && c !in visited + {t}
    ensures Walking(o, f, chain, entry, first, visited + {t}, queue[1..] + pushed)
    ensures t in f.succs
    ensures t in visited ==> Again(queue[1..] + pushed, visited) < Again(queue, visited)
  {
    assert Stays(f, entry, first, t);
    PushWalked(f, t, visited, queue, queue[1..] + pushed);
    forall c | c in pushed
      ensures Stays(f, entry, first, c)
    {
      assert LeadsTo(f, t, c) && ComesFrom(f, c, t);
      forall q
        ensures !OnlyLinks(f, q, c)
      {
        assert OnlyLinks(f, q, c) ==> ComesFrom(f, c, t) && q == t;
      }
    }
    Popped(queue, first);
    if t in visited {
      AgainFewer(queue, pushed, visited);
    }
  }

  /** No block that the entry leads to can be joined any more. */
  ghost predicate Flat(f: Flow, entry: Block) {
    forall b, c :: b != entry ==> !OnlyLinks(f, b, c)
  }

  lemma {:induction false} WalkedPath(f: Flow, entry: Block, first: Block, visited: set<Block>, p: seq<Block>)
    requires WellKept(f) && EntersAt(f, entry, first) && Walked(f, visited, []) && first in visited
    requires IsPath(f.succs, entry, p)
    ensures p[|p| - 1] == entry || p[|p| - 1] in visited
  {
    if |p| > 1 {
      WalkedPath(f, entry, first, visited, p[..|p| - 1]);
      assert LeadsTo(f, p[|p| - 2], p[|p| - 1]);
    }
  }

  lemma WalkingDone(o: Flow, f: Flow, chain: Chain, entry: Block, first: Block, visited: set<Block>)
    requires Walking(o, f, chain, entry, first, visited, [])
    ensures Flat(f, entry) && SameRuns(o, f, entry)
  {
    ChainedSameRuns(o, f, chain, entry);
    forall b, c | b != entry
      ensures !OnlyLinks(f, b, c)
    {
      if b in f.succs {
        assert Reached(f, entry, b);
        var p :| Promoted.PathTo(f.succs, entry, p, b);
        WalkedPath(f, entry, first, visited, p);
        assert Settles(f, b);
      }
    }
  }

  function PushSuccessor(b: Block, visited: set<Block>): seq<Block> {
    if b in visited then [] else [b]
  }

  lemma WalkingStart(o: Flow, entry: Block, first: Block)
    requires WellKept(o) && EntersAt(o, entry, first) && AllReached(o, entry)
    requires forall b :: b in o.succs ==> |o.succs[b]| <= 2
    ensures Walking(o, o, OwnChains(o), entry, first, {}, [first])
  {
    ChainsStart(o);
    assert LeadsTo(o, entry, first) && ComesFrom(o, first, entry);
  }

  lemma WalkingHead(o: Flow, f: Flow, chain: Chain, entry: Block, first: Block, visited: set<Block>, queue: seq<Block>)
    requires Walking(o, f, chain, entry, first, visited, queue) && queue != []
    ensures WellKept(f) && queue[0] in f.succs && |f.succs[queue[0]]| <= 2 && queue[0] != entry
  {
    assert Stays(f, entry, first, queue[0]);
  }

  lemma WalkingKept(o: Flow, f: Flow, chain: Chain, entry: Block, first: Block, visited: set<Block>)
    requires Walking(o, f, chain, entry, first, visited, [])
    ensures WellKept(f) && AllReached(f, entry) && entry in f.succs && Chained(o, f, chain) && Within(o, f)
    ensures EntersAt(f, entry, first)
  {
  }

  /** Visiting `t` again changes nothing, visiting it first leaves fewer blocks. */
  lemma Visit(blocks: set<Block>, visited: set<Block>, t: Block)
    requires t in blocks
    ensures t in visited ==> visited + {t} == visited
    ensures t !in visited ==> |blocks - (visited + {t})| < |blocks - visited|
  {
    assert blocks - (visited + {t}) == (blocks - visited) - {t};
  }

  lemma SettlesTwo(f: Flow, t: Block)
    requires t in f.succs && |f.succs[t]| == 2
    ensures Settles(f, t) && forall c :: LeadsTo(f, t, c) <==> c == f.succs[t][0] || c == f.succs[t][1]
  {
  }

  lemma SettlesNone(f: Flow, t: Block)
    requires t in f.succs && |f.succs[t]| == 0
    ensures Settles(f, t) && forall c :: !LeadsTo(f, t, c)
  {
  }

  lemma HasParents(f: Flow, t: Block, j: Block)
    requires WellKept(f) && t in f.succs && f.succs[t] == [j]
    ensures j in f.preds && t in f.preds[j] && forall c :: LeadsTo(f, t, c) <==> c == j
  {
    assert LeadsTo(f, t, j) && ComesFrom(f, j, t);
  }

  lemma LinksOnly(f: Flow, t: Block, j: Block)
    requires t in f.succs && f.succs[t] == [j] && j in f.preds && t in f.preds[j] && |f.preds[j]| == 1
    ensures OnlyLinks(f, t, j)
  {
    assert |f.preds[j] - {t}| == 0;
    assert f.preds[j] == {t};
  }

  lemma SettlesMany(f: Flow, t: Block, j: Block)
    requires t in f.succs && f.succs[t] == [j] && j in f.preds && |f.preds[j]| != 1
    ensures Settles(f, t)
  {
  }

  /** The entry is as it was, and no block has gained a call. */
  ghost predicate SameEntry(o: Flow, f: Flow, entry: Block) {
    Body(f.bodies, entry) == Body(o.bodies, entry) && (CallFree(o.bodies) ==> CallFree(f.bodies))
  }

  lemma SameEntrySelf(f: Flow, entry: Block)
    ensures SameEntry(f, f, entry)
  {
  }

  lemma JoinSameEntry(o: Flow, f: Flow, entry: Block, t: Block, j: Block)
    requires SameEntry(o, f, entry) && t in f.bodies && j in f.bodies && t in f.infos && j in f.infos && j in f.succs
    requires t != entry && j != entry
    ensures SameEntry(o, Join(f, t, j), entry)
  {
  }

  /** Nothing that can be joined is the entry. */
  lemma NotEntry(f: Flow, entry: Block, first: Block, t: Block, j: Block)
    requires EntersAt(f, entry, first) && OnlyLinks(f, t, j)
    ensures j != entry
  {
    assert LeadsTo(f, t, j);
  }

  lemma WalkingEnters(o: Flow, f: Flow, chain: Chain, entry: Block, first: Block, visited: set<Block>,
                      queue: seq<Block>)
    requires Walking(o, f, chain, entry, first, visited, queue)
    ensures EntersAt(f, entry, first)
  {
  }

  lemma WalkingChained(o: Flow, f: Flow, chain: Chain, entry: Block, first: Block, visited: set<Block>,
                       queue: seq<Block>)
    requires Walking(o, f, chain, entry, first, visited, queue)
    ensures WellKept(f) && Chained(o, f, chain)
  {
  }

  lemma NotFlat(f: Flow, entry: Block, t: Block, j: Block)
    requires OnlyLinks(f, t, j) && t != entry
    ensures !Flat(f, entry)
  {
  }

  class Flattener {
    var succs: Targets
    var bbParents: map<Block, set<Block>>
    var bodies: Bodies
    var infos: map<Block, Info>

    constructor (f: Flow)
      ensures Now() == f
    {
      succs, bbParents, bodies, infos := f.succs, f.preds, f.bodies, f.infos;
    }

    ghost function Now(): (f: Flow)
      reads this
      ensures f.succs == succs && f.preds == bbParents && f.bodies == bodies && f.infos == infos
    {
      Flow(succs, bbParents, bodies, infos)
    }

    /** Moves the instructions of `j` behind those of `t`, which takes its place. */
    method JoinInto(t: Block, j: Block)
      requires t in bodies && j in bodies && t in infos && j in infos && j in succs && t != j
      requires forall i :: 0 <= i < |succs[j]| ==> succs[j][i] in bbParents && succs[j][i] != j
      modifies this
      ensures Now() == Join(old(Now()), t, j)
    {
      var next := succs[j];
      bodies := (bodies - {j})[t := bodies[t] + bodies[j]];
      var joined := JoinInfos(infos[t], infos[j]);
      infos := (infos - {j})[t := joined];
      bbParents := bbParents - {j};
      RepointParents(next, j, t);
      succs := (succs - {j})[t := next];
    }

    /** The record of two blocks of which the second follows the first. */
    static method JoinInfos(x: Info, y: Info) returns (joined: Info)
      ensures joined == Joined(x, y)
    {
      var node := new BBRegInfoNode(x);
      var child := new BBRegInfoNode(y);
      node.JoinRegInfoNode(child);
      joined := node.Contents();
    }

    /** `t` takes the place of `j` among the predecessors of each target. */
    method RepointParents(targets: seq<Block>, j: Block, t: Block)
      requires forall i :: 0 <= i < |targets| ==> targets[i] in bbParents
      modifies `bbParents
      ensures bbParents == Repointed(old(bbParents), targets, j, t)
    {
      ghost var before := bbParents;
      for i := 0 to |targets|
        invariant bbParents.Keys == before.Keys
        invariant forall b :: b in before ==>
                    bbParents[b] == if b in targets[..i] then before[b] - {j} + {t} else before[b]
      {
        var c := targets[i];
        bbParents := bbParents[c := bbParents[c] - {j} + {t}];
        assert targets[..i + 1] == targets[..i] + [c];
      }
      assert targets[..|targets|] == targets;
    }
  
    /** Joins each block with what follows it while that is the only way on and the only way in. */
    method Flatten(entry: Block) returns (ghost chain: Chain)
      requires WellKept(Now()) && entry in succs && |succs[entry]| == 1 && EntersAt(Now(), entry, succs[entry][0])
      requires AllReached(Now(), entry) && forall b :: b in succs ==> |succs[b]| <= 2
      modifies this
      ensures SameRuns(old(Now()), Now(), entry) && Flat(Now(), entry)
      ensures WellKept(Now()) && AllReached(Now(), entry) && entry in succs
      ensures Chained(old(Now()), Now(), chain) && RecordsSumUp(old(Now()), Now(), chain)
      ensures Within(old(Now()), Now())
      ensures EntersAt(Now(), entry, old(succs)[entry][0]) && SameEntry(old(Now()), Now(), entry)
      ensures Flat(old(Now()), entry) ==> Now() == old(Now())
    {
      hide WellKept, Chained, EntersAt, AllReached, AllStay, Stays, Walked, Settles, OnlyLinks, LeadsTo, SameRuns,
           Walking, Again, Within, Flat, SameEntry, Folded, RecordsSumUp;
      ghost var o := Now();
      chain := OwnChains(o);
      var first := succs[entry][0];
      var queue, visited: set<Block> := [first], {};
      WalkingStart(o, entry, first);
      SameEntrySelf(o, entry);
      FoldedStart(o);
      while queue != []
        invariant Walking(o, Now(), chain, entry, first, visited, queue) && (Flat(o, entry) ==> Now() == o)
        invariant SameEntry(o, Now(), entry) && Folded(o, Now(), chain)
        decreases |succs|, |succs.Keys - visited|, Again(queue, visited)
      {
        ghost var f, queue0, visited0 := Now(), queue, visited;
        WalkingHead(o, f, chain, entry, first, visited, queue);
        var t := queue[0];
        queue := queue[1..];
        visited := visited + {t};
        Visit(succs.Keys, visited0, t);
        if |succs[t]| == 2 {
          var pushed := PushSuccessor(succs[t][0], visited) + PushSuccessor(succs[t][1], visited);
          SettlesTwo(f, t);
          WalkingPush(o, f, chain, entry, first, visited0, queue0, t, pushed);
          queue := queue + pushed;
        } else if |succs[t]| == 1 {
          var j := succs[t][0];
          HasParents(f, t, j);
          if |bbParents[j]| == 1 {
            LinksOnly(f, t, j);
            NotFlat(f, entry, t, j);
            WalkingEnters(o, f, chain, entry, first, visited0, queue0);
            NotEntry(f, entry, first, t, j);
            WalkingJoin(o, f, chain, entry, first, visited0, queue0, t, j);
            JoinSameEntry(o, f, entry, t, j);
            WalkingChained(o, f, chain, entry, first, visited0, queue0);
            JoinFolded(o, f, chain, t, j);
            JoinInto(t, j);
            chain := (chain - {j})[t := chain[t] + chain[j]];
            assert succs[t] == f.succs[j] && queue + [] == queue;
            if succs[t] != [] {
              queue := queue + [t];
            }
          } else {
            var pushed := PushSuccessor(j, visited);
            SettlesMany(f, t, j);
            WalkingPush(o, f, chain, entry, first, visited0, queue0, t, pushed);
            queue := queue + pushed;
          }
        } else {
          SettlesNone(f, t);
          WalkingPush(o, f, chain, entry, first, visited0, queue0, t, []);
          assert queue + [] == queue;
        }
      }
      WalkingDone(o, Now(), chain, entry, first, visited);
      WalkingKept(o, Now(), chain, entry, first, visited);
      FoldedSumsUp(o, Now(), chain);
    }
  }
}
