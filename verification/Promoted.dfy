/** Functions whose register accesses have been turned into values: what their values are along a path, and when these
    are the values the original function would have read. */
module Promoted {
  import opened Registers
  import opened Graphs

  /** A call of a lifted function, or of the emulated system. */
  datatype CallKind = Lifted | System {

    /** The registers that are stored before the call. */
    predicate Stores(r: EcvReg): (stored: bool)
      ensures stored <==> r.number in if Lifted? then {0, 1, 2, 3, 4, 5, 6, 7, 8, 32} else {0, 1, 2, 3, 4, 5, 8}
    {
      match this
      case Lifted => r.CheckPassedArgsRegs()
      case System => r.number < 6 || r.number == 8
    }

    /** The registers that are loaded again behind the call. */
    predicate Reloads(r: EcvReg): (reloaded: bool)
      ensures reloaded <==> r.number in if Lifted? then {0, 1, 32} else {0}
    {
      match this
      case Lifted => r.CheckPassedReturnRegs()
      case System => r.number == 0
    }
  }

  datatype Instr = Read(reg: EcvReg) | Write(reg: EcvReg) | Call(kind: CallKind)

  type Bodies = map<Block, seq<Instr>>

  /** The successors of each block, in the order in which its branch names them. */
  type Targets = map<Block, seq<Block>>

  type RegSets = map<Block, set<EcvReg>>

  /** The registers a block reads or writes itself. */
  function Own(body: seq<Instr>): set<EcvReg> {
    set i | 0 <= i < |body| && !body[i].Call? :: body[i].reg
  }

  lemma OwnHas(body: seq<Instr>, r: EcvReg)
    ensures r in Own(body) <==> exists i :: 0 <= i < |body| && (body[i] == Read(r) || body[i] == Write(r))
  {
    if r in Own(body) {
      var i :| 0 <= i < |body| && !body[i].Call? && body[i].reg == r;
      assert body[i] == Read(r) || body[i] == Write(r);
    }
    if i :| 0 <= i < |body| && (body[i] == Read(r) || body[i] == Write(r)) {
      assert body[i].reg == r;
    }
  }

  /** The last write of `r` among the first `n` instructions, or -1. */
  function LastWrite(body: seq<Instr>, n: nat, r: EcvReg): (w: int)
    requires n <= |body|
    ensures -1 <= w < n
    ensures w >= 0 ==> body[w] == Write(r)
    ensures forall i :: w < i < n ==> body[i] != Write(r)
  {
    if n == 0 then -1
    else if body[n - 1] == Write(r) then n - 1
    else LastWrite(body, n - 1, r)
  }

  // ---------------------------------------------------------------------------
  // The original function

  /** Where a value comes from: the register as the function found it, or a write on the path. A phi that takes no value
      from the block before it, or that no block is before, has no value. */
  datatype Def = Init(reg: EcvReg) | At(path: seq<Block>, index: nat) | Undefined

  /** A walk from the entry along the successors of each block. */
  ghost predicate IsPath(succs: Targets, entry: Block, p: seq<Block>) {
    && |p| > 0 && p[0] == entry
    && (forall i :: 0 <= i < |p| ==> p[i] in succs)
    && (forall i :: 0 < i < |p| ==> p[i] in succs[p[i - 1]])
  }

  ghost predicate PathTo(succs: Targets, entry: Block, p: seq<Block>, b: Block) {
    IsPath(succs, entry, p) && p[|p| - 1] == b
  }

  function Body(bodies: Bodies, b: Block): seq<Instr> {
    if b in bodies then bodies[b] else []
  }

  /** What `r` holds at the end of the path `p`. */
  function LastDef(bodies: Bodies, p: seq<Block>, r: EcvReg): Def {
    if p == [] then Init(r)
    else
      var body := Body(bodies, p[|p| - 1]);
      var w := LastWrite(body, |body|, r);
      if w >= 0 then At(p, w) else LastDef(bodies, p[..|p| - 1], r)
  }

  /** What the read at position `i` of the last block of `p` yields. */
  function ReadDef(bodies: Bodies, p: seq<Block>, i: nat): Def
    requires |p| > 0 && i < |Body(bodies, p[|p| - 1])| && Body(bodies, p[|p| - 1])[i].Read?
  {
    var body := Body(bodies, p[|p| - 1]);
    var w := LastWrite(body, i, body[i].reg);
    if w >= 0 then At(p, w) else LastDef(bodies, p[..|p| - 1], body[i].reg)
  }

  // ---------------------------------------------------------------------------
  // The promoted function

  /** A phi of a block, the value a register has at the end of a block by its own instructions or by a load behind one
      of its calls, or a load from the register memory that was added to a block. */
  datatype Val = Phi(block: Block, reg: EcvReg) | End(block: Block, reg: EcvReg) | Load(block: Block, reg: EcvReg)

  type Phis = map<Block, map<EcvReg, map<Block, Val>>>

  /** Where the value of a register comes from inside a block: an instruction that stored it, the phi of the block, the
      first load of it, or the load behind a call. This is what a read becomes. A call becomes the stores of the
      registers in front of it. */
  datatype Source = Stored(index: nat) | FromPhi | Loaded | Reloaded(index: nat) | Passes(regs: map<EcvReg, Source>)

  type Sources = map<Block, seq<Source>>

  /** The registers that a returning block writes back to the register memory, and the values it writes. */
  type Stores = map<Block, map<EcvReg, Val>>

  /** A function under promotion. `relays` names, for each block put on an edge, that edge. */
  datatype Fn = Fn(succs: Targets, preds: map<Block, set<Block>>, drvd: RegSets, phis: Phis,
                   avail: map<Block, map<EcvReg, Val>>, relays: map<Block, (Block, Block)>, sources: Sources,
                   stores: Stores)

  /** The path of the original function that a path of the promoted one stands for. */
  function Proj(relays: map<Block, (Block, Block)>, p: seq<Block>): seq<Block> {
    if p == [] then []
    else
      var rest := Proj(relays, p[..|p| - 1]);
      if p[|p| - 1] in relays then rest else rest + [p[|p| - 1]]
  }

  ghost predicate HasPhi(f: Fn, b: Block, r: EcvReg) {
    b in f.phis && r in f.phis[b]
  }

  ghost predicate HasIncoming(f: Fn, b: Block, r: EcvReg, q: Block) {
    HasPhi(f, b, r) && q in f.phis[b][r]
  }

  /** What a value of the last block of `p` is when `p` has been executed. The register memory is not written before the
      function returns or calls, so a load from it finds what the function found. What one behind a call finds is left
      open. */
  ghost function Eval(f: Fn, bodies: Bodies, p: seq<Block>, v: Val): Def
    decreases |p|, if v.End? then 1 else 0
  {
    match v
    case Load(_, r) => Init(r)
    case End(b, r) =>
      var body := Body(bodies, b);
      var w := LastWrite(body, |body|, r);
      if EndsReloaded(body, r) then Undefined
      else if w >= 0 then At(Proj(f.relays, p), w)
      else if HasPhi(f, b, r) then Eval(f, bodies, p, Phi(b, r))
      else Init(r)
    case Phi(b, r) =>
      if |p| >= 2 && HasIncoming(f, b, r, p[|p| - 2]) then
        Eval(f, bodies, p[..|p| - 1], f.phis[b][r][p[|p| - 2]])
      else Undefined
  }

  /** What the read at position `i` of the last block of `p` yields in the promoted function. What a load behind a call
      finds is left open. */
  ghost function NewRead(f: Fn, bodies: Bodies, p: seq<Block>, i: nat): Def
    requires |p| > 0 && i < |Body(bodies, p[|p| - 1])| && Body(bodies, p[|p| - 1])[i].Read?
  {
    var b := p[|p| - 1];
    var r := Body(bodies, b)[i].reg;
    if b in f.sources && i < |f.sources[b]| then
      match f.sources[b][i]
      case Stored(w) => At(Proj(f.relays, p), w)
      case FromPhi => Eval(f, bodies, p, Phi(b, r))
      case Loaded => Init(r)
      case Reloaded(_) => Undefined
      case Passes(_) => Undefined
    else Init(r)
  }

  // ---------------------------------------------------------------------------
  // The values that are known inside a block

  /** A value of `r` is known behind the first `n` instructions of a block with phis for `phiRegs`. */
  predicate InCache(body: seq<Instr>, phiRegs: set<EcvReg>, n: nat, r: EcvReg)
    requires n <= |body|
  {
    r in phiRegs || r in Own(body[..n])
  }

  /** Which value that is. */
  function CacheAt(body: seq<Instr>, phiRegs: set<EcvReg>, n: nat, r: EcvReg): Source
    requires n <= |body|
  {
    if n == 0 then FromPhi
    else
      var before := CacheAt(body, phiRegs, n - 1, r);
      match body[n - 1]
      case Write(s) => if s == r then Stored(n - 1) else before
      case Read(s) => if s == r && !InCache(body, phiRegs, n - 1, r) then Loaded else before
      case Call(kind) => if kind.Reloads(r) && InCache(body, phiRegs, n - 1, r) then Reloaded(n - 1) else before
  }

  /** What the read at position `i` has to become. */
  function Resolved(body: seq<Instr>, phiRegs: set<EcvReg>, i: nat): Source
    requires i < |body| && body[i].Read?
  {
    if InCache(body, phiRegs, i, body[i].reg) then CacheAt(body, phiRegs, i, body[i].reg) else Loaded
  }

  /** Before the call at position `i`, exactly the registers that the callee may take and of which a value is known are
      stored, each with this value. */
  ghost predicate Spilled(body: seq<Instr>, phiRegs: set<EcvReg>, i: nat, regs: map<EcvReg, Source>)
    requires i < |body| && body[i].Call?
  {
    && (forall r :: r in regs <==> InCache(body, phiRegs, i, r) && body[i].kind.Stores(r))
    && (forall r :: r in regs ==> regs[r] == CacheAt(body, phiRegs, i, r))
  }

  /** The value of `r` at the end of the block, if there is one, was loaded behind a call. */
  ghost predicate EndsReloaded(body: seq<Instr>, r: EcvReg) {
    exists i :: ReloadedLast(body, i, r)
  }

  ghost predicate ReloadedLast(body: seq<Instr>, i: int, r: EcvReg) {
    0 <= i < |body| && body[i].Call? && body[i].kind.Reloads(r) && forall j :: i < j < |body| ==> body[j] != Write(r)
  }

  ghost predicate CallFreeBody(body: seq<Instr>) {
    forall i :: 0 <= i < |body| ==> !body[i].Call?
  }

  ghost predicate CallFree(bodies: Bodies) {
    forall b :: b in bodies ==> CallFreeBody(bodies[b])
  }

  lemma OwnPrefix(body: seq<Instr>, n: nat, r: EcvReg)
    requires n < |body|
    ensures r in Own(body[..n + 1]) <==> r in Own(body[..n]) || body[n] == Read(r) || body[n] == Write(r)
  {
    OwnHas(body[..n], r);
    OwnHas(body[..n + 1], r);
    assert body[..n + 1] == body[..n] + [body[n]];
    if r in Own(body[..n]) {
      var i :| 0 <= i < n && (body[..n][i] == Read(r) || body[..n][i] == Write(r));
      assert body[..n + 1][i] == body[..n][i];
    }
    if body[n] == Read(r) || body[n] == Write(r) {
      assert body[..n + 1][n] == body[n];
    }
  }

  /** Between the positions `k` and `i` no write of `r`, and no call that loads it again. */
  ghost predicate Untouched(body: seq<Instr>, k: int, i: int, r: EcvReg) {
    forall j :: k < j < i && 0 <= j < |body| ==>
      body[j] != Write(r) && (body[j].Call? ==> r.number !in if body[j].kind.Lifted? then {0, 1, 32} else {0})
  }

  /** A value that is known stays the same while the register is left alone. */
  lemma {:induction false} CacheStays(body: seq<Instr>, phiRegs: set<EcvReg>, n: nat, m: nat, r: EcvReg)
    requires n <= m <= |body| && InCache(body, phiRegs, n, r) && Untouched(body, n - 1, m, r)
    ensures InCache(body, phiRegs, m, r) && CacheAt(body, phiRegs, m, r) == CacheAt(body, phiRegs, n, r)
  {
    hide Own, CallKind.Reloads;
    if n < m {
      CacheStays(body, phiRegs, n, m - 1, r);
      OwnPrefix(body, m - 1, r);
    }
  }

  /** The last write of a register before a call is what the call takes, if it takes the register: a lifted function
      those numbered up to 8 and 32, the emulated system those numbered up to 5 and 8. */
  lemma CallTakes(body: seq<Instr>, phiRegs: set<EcvReg>, k: nat, i: nat, r: EcvReg, regs: map<EcvReg, Source>)
    requires k < i < |body| && body[k] == Write(r) && body[i].Call? && Untouched(body, k, i, r)
    requires Spilled(body, phiRegs, i, regs)
    ensures r in regs <==>
              if body[i].kind == Lifted then r.number <= 8 || r.number == 32
              else r.number < 6 || r.number == 8
    ensures r in regs ==> regs[r] == Stored(k)
  {
    hide Own, CallKind.Reloads;
    OwnPrefix(body, k, r);
    CacheStays(body, phiRegs, k + 1, i, r);
  }

  /** If the block has not touched the register and has a phi for it, the call takes the phi. */
  lemma CallTakesPhi(body: seq<Instr>, phiRegs: set<EcvReg>, i: nat, r: EcvReg, regs: map<EcvReg, Source>)
    requires i < |body| && body[i].Call? && Untouched(body, -1, i, r) && r in phiRegs && Spilled(body, phiRegs, i, regs)
    ensures r in regs <==>
              if body[i].kind == Lifted then r.number <= 8 || r.number == 32
              else r.number < 6 || r.number == 8
    ensures r in regs ==> regs[r] == FromPhi
  {
    hide Own, CallKind.Reloads;
    CacheStays(body, phiRegs, 0, i, r);
  }

  /** Behind a call, a register of which a value was known is read from what the call has loaded again, if it is
      numbered 0, 1 or 32 and the callee is a lifted function, or 0 and it is the system; else it is read as before the
      call. */
  lemma ReadBehindCall(body: seq<Instr>, phiRegs: set<EcvReg>, i: nat, j: nat, r: EcvReg)
    requires i < j < |body| && body[i].Call? && body[j] == Read(r) && Untouched(body, i, j, r)
    requires InCache(body, phiRegs, i, r)
    ensures Resolved(body, phiRegs, j) ==
            if r.number == 0 || (body[i].kind == Lifted && (r.number == 1 || r.number == 32)) then Reloaded(i)
            else CacheAt(body, phiRegs, i, r)
  {
    hide Own;
    OwnPrefix(body, i, r);
    CacheStays(body, phiRegs, i + 1, j, r);
  }

  /** Without calls, the known value is that of the last write, or else of the phi, or else of the first load. */
  lemma {:induction false} CacheSays(body: seq<Instr>, phiRegs: set<EcvReg>, n: nat, r: EcvReg)
    requires n <= |body| && CallFreeBody(body)
    ensures LastWrite(body, n, r) >= 0 ==> InCache(body, phiRegs, n, r)
    ensures InCache(body, phiRegs, n, r) ==>
              CacheAt(body, phiRegs, n, r) ==
              if LastWrite(body, n, r) >= 0 then Stored(LastWrite(body, n, r))
              else if r in phiRegs then FromPhi
              else Loaded
  {
    hide Own;
    if n > 0 {
      CacheSays(body, phiRegs, n - 1, r);
      OwnPrefix(body, n - 1, r);
    } else {
      assert body[..0] == [];
      OwnHas([], r);
    }
  }

  // ---------------------------------------------------------------------------
  // The shape that promotion gives a function

  ghost predicate Owns(bodies: Bodies, b: Block, r: EcvReg) {
    r in Own(Body(bodies, b))
  }

  ghost predicate Derives(f: Fn, b: Block, r: EcvReg) {
    b in f.drvd && r in f.drvd[b]
  }

  /** The block whose registers count when a load is added to `q`: the source of its edge if `q` is a relay. */
  function Origin(f: Fn, q: Block): Block {
    if q in f.relays then f.relays[q].0 else q
  }

  ghost predicate Defines(bodies: Bodies, b: Block, r: EcvReg) {
    Writes(Body(bodies, b), r)
  }

  /** A call of the block loads `r` again, and no write follows. */
  ghost predicate Reloads(bodies: Bodies, b: Block, r: EcvReg) {
    EndsReloaded(Body(bodies, b), r)
  }

  /** `v` is a value of `q` that may stand for `r` at its end. */
  ghost predicate IsEnd(f: Fn, bodies: Bodies, q: Block, r: EcvReg, v: Val) {
    || (v == End(q, r) && (Owns(bodies, q, r) || (Reloads(bodies, q, r) && HasPhi(f, q, r))))
    || (v == Phi(q, r) && !Defines(bodies, q, r) && !Reloads(bodies, q, r) && HasPhi(f, q, r))
    || (v == Load(q, r) && !Defines(bodies, q, r) && !Defines(bodies, Origin(f, q), r) && !Derives(f, Origin(f, q), r))
  }

  ghost predicate Edge(f: Fn, q: Block, b: Block) {
    q in f.succs && b in f.succs[q]
  }

  /** `f` is the function with successors `succs` and derived registers `drvd`, with relays put on some of its edges. */
  ghost predicate Relayed(f: Fn, bodies: Bodies, succs: Targets, drvd: RegSets) {
    && (forall q :: q in succs ==>
          && q in f.succs && q !in f.relays && |f.succs[q]| == |succs[q]|
          && q in drvd && q in f.drvd && f.drvd[q] == drvd[q])
    && (forall q, i :: q in succs && 0 <= i < |succs[q]| ==>
          && succs[q][i] in succs
          && (f.succs[q][i] == succs[q][i] ||
               (f.succs[q][i] in f.relays && f.relays[f.succs[q][i]] == (q, succs[q][i]))))
    && (forall x :: x in f.relays ==>
          && x !in succs && x !in bodies && x in f.succs && f.succs[x] == [f.relays[x].1]
          && f.relays[x].0 in succs && f.relays[x].1 in succs
          && x in f.drvd && f.drvd[x] == f.drvd[f.relays[x].1]
          && x in f.preds && f.preds[x] == {f.relays[x].0})
    && (forall q :: q in f.succs ==> q in succs || q in f.relays)
    && (forall q, b {:trigger Edge(f, q, b)} :: Edge(f, q, b) ==> b in f.preds && q in f.preds[b])
    && (forall q, b :: b in f.preds && q in f.preds[b] ==> Edge(f, q, b) && b in f.succs)
  }

  /** Every value a phi takes from a predecessor may stand for its register at the end of the predecessor. */
  ghost predicate PhisSound(f: Fn, bodies: Bodies) {
    && (forall b, r {:trigger HasPhi(f, b, r)} :: HasPhi(f, b, r) ==> Derives(f, b, r))
    && (forall b, r, q {:trigger HasIncoming(f, b, r, q)} :: HasIncoming(f, b, r, q) ==>
         IsEnd(f, bodies, q, r, f.phis[b][r][q]))
  }

  ghost predicate PhiFull(f: Fn, b: Block, r: EcvReg) {
    forall q {:trigger HasIncoming(f, b, r, q)} {:trigger Edge(f, q, b)} :: Edge(f, q, b) <==> HasIncoming(f, b, r, q)
  }

  ghost predicate ReadsResolved(f: Fn, bodies: Bodies, b: Block) {
    && b in f.sources && b in f.phis && |f.sources[b]| == |Body(bodies, b)|
    && (forall i :: 0 <= i < |Body(bodies, b)| && Body(bodies, b)[i].Read? ==>
         f.sources[b][i] == Resolved(Body(bodies, b), f.phis[b].Keys, i))
    && forall i :: 0 <= i < |Body(bodies, b)| && Body(bodies, b)[i].Call? ==>
         f.sources[b][i].Passes? && Spilled(Body(bodies, b), f.phis[b].Keys, i, f.sources[b][i].regs)
  }

  ghost predicate DerivedHavePhis(f: Fn, b: Block) {
    forall r {:trigger Derives(f, b, r)} {:trigger HasPhi(f, b, r)} :: Derives(f, b, r) ==> HasPhi(f, b, r)
  }

  /** Every phi has a value for each predecessor. In the original blocks that can be reached, every derived register has
      a phi and every read is resolved. */
  ghost predicate Complete(f: Fn, bodies: Bodies, reached: set<Block>) {
    && PhisSound(f, bodies)
    && (forall b, r {:trigger HasPhi(f, b, r)} :: HasPhi(f, b, r) ==> PhiFull(f, b, r))
    && (forall b {:trigger DerivedHavePhis(f, b)} {:trigger ReadsResolved(f, bodies, b)} ::
          b in reached && b !in f.relays ==> DerivedHavePhis(f, b) && ReadsResolved(f, bodies, b))
  }

  // ---------------------------------------------------------------------------
  // When the promoted function reads what the original one reads

  /** On no path from the entry has `r` been written at the end of `c`. */
  ghost predicate Unwritten(bodies: Bodies, succs: Targets, entry: Block, c: Block, r: EcvReg) {
    forall p :: PathTo(succs, entry, p, c) ==> LastDef(bodies, p, r) == Init(r)
  }

  /** On no path from the entry has `r` been written at the start of `b`. */
  ghost predicate UnwrittenBefore(bodies: Bodies, succs: Targets, entry: Block, b: Block, r: EcvReg) {
    forall p :: PathTo(succs, entry, p, b) ==> LastDef(bodies, p[..|p| - 1], r) == Init(r)
  }

  /** `i` is a read of its register before any write of it in the block. */
  ghost predicate ExposedRead(body: seq<Instr>, i: nat) {
    i < |body| && body[i].Read? && LastWrite(body, i, body[i].reg) < 0
  }

  ghost predicate ExposedReadOf(body: seq<Instr>, i: nat, r: EcvReg) {
    ExposedRead(body, i) && body[i].reg == r
  }

  ghost predicate ReadsFirst(body: seq<Instr>, r: EcvReg) {
    exists i: nat :: ExposedReadOf(body, i, r)
  }

  ghost predicate Writes(body: seq<Instr>, r: EcvReg) {
    LastWrite(body, |body|, r) >= 0
  }

  /** The entry derives no register, and where a register is loaded from memory, no path has written it. */
  ghost predicate Safe(bodies: Bodies, succs: Targets, drvd: RegSets, entry: Block) {
    && DerivesNothing(drvd, entry)
    && (forall c, b, r ::
          && c in succs && b in succs[c] && b in drvd && r in drvd[b]
          && c in drvd && r !in drvd[c] && !Owns(bodies, c, r)
          ==> Unwritten(bodies, succs, entry, c, r))
    && (forall b, i: nat ::
          && b in succs && b in drvd && ExposedRead(Body(bodies, b), i) && Body(bodies, b)[i].reg !in drvd[b]
          ==> UnwrittenBefore(bodies, succs, entry, b, Body(bodies, b)[i].reg))
  }

  ghost predicate DerivesNothing(drvd: RegSets, b: Block) {
    b in drvd ==> drvd[b] == {}
  }

  ghost predicate ClosedFrom(f: Fn, entry: Block, reached: set<Block>) {
    entry in reached && forall q, b {:trigger Edge(f, q, b)} :: q in reached && Edge(f, q, b) ==> b in reached
  }

  lemma {:induction false} PathReached(f: Fn, entry: Block, reached: set<Block>, p: seq<Block>)
    requires ClosedFrom(f, entry, reached) && IsPath(f.succs, entry, p)
    ensures p[|p| - 1] in reached
  {
    if |p| > 1 {
      PathReached(f, entry, reached, p[..|p| - 1]);
      assert Edge(f, p[|p| - 2], p[|p| - 1]);
    }
  }

  /** A path of the promoted function stands for a path of the original one. */
  lemma {:induction false} ProjPath(f: Fn, bodies: Bodies, succs: Targets, drvd: RegSets, entry: Block, p: seq<Block>)
    requires Relayed(f, bodies, succs, drvd) && entry in succs && IsPath(f.succs, entry, p)
    ensures PathTo(succs, entry, Proj(f.relays, p), Origin(f, p[|p| - 1]))
  {
    hide Relayed;
    var q := p[|p| - 1];
    var rest := p[..|p| - 1];
    if |p| == 1 {
      LiftEntry(f, bodies, succs, drvd, entry);
      assert p == [entry];
    } else {
      ProjPath(f, bodies, succs, drvd, entry, rest);
      assert Edge(f, rest[|rest| - 1], q);
      StepOrigin(f, bodies, succs, drvd, rest[|rest| - 1], q);
      if q !in f.relays {
        PathExtends(succs, entry, Proj(f.relays, rest), q);
      }
    }
  }

  /** One edge of the promoted function: to a relay it leaves the original block where it is, to another block it is an
      edge of the original function. */
  lemma StepOrigin(f: Fn, bodies: Bodies, succs: Targets, drvd: RegSets, q: Block, b: Block)
    requires Relayed(f, bodies, succs, drvd) && Edge(f, q, b)
    ensures Origin(f, q) in succs
    ensures if b in f.relays then Origin(f, b) == Origin(f, q) else b in succs && b in succs[Origin(f, q)]
    ensures b in f.relays ==> q in succs && f.relays[b].1 in succs[q]
  {
    if q in succs {
      var i :| 0 <= i < |f.succs[q]| && f.succs[q][i] == b;
      assert succs[q][i] in succs;
      assert b == succs[q][i] || (b in f.relays && f.relays[b] == (q, succs[q][i]));
    } else {
      assert q in f.relays;
      RelayEdge(f, bodies, succs, drvd, q);
    }
  }

  lemma RelayEdge(f: Fn, bodies: Bodies, succs: Targets, drvd: RegSets, x: Block)
    requires Relayed(f, bodies, succs, drvd) && x in f.relays
    ensures f.relays[x].0 in succs && f.relays[x].1 in succs[f.relays[x].0]
  {
    var t := f.relays[x].0;
    assert x in f.preds && t in f.preds[x];
    assert Edge(f, t, x);
    var i :| 0 <= i < |f.succs[t]| && f.succs[t][i] == x;
    assert succs[t][i] in succs;
  }

  lemma OwnsWrites(body: seq<Instr>, r: EcvReg)
    ensures LastWrite(body, |body|, r) >= 0 ==> r in Own(body)
  {
    OwnHas(body, r);
    var w := LastWrite(body, |body|, r);
    if w >= 0 {
      assert body[w] == Write(r);
    }
  }

  // ---------------------------------------------------------------------------
  // What the promoted function has for a register, in terms of the original one

  /** The value for `r` at the end of the path `p`: the last write of its last block; else, if the block derives `r`,
      what there was before the block; else what is loaded. */
  function Carried(bodies: Bodies, drvd: RegSets, p: seq<Block>, r: EcvReg): Def {
    if p == [] then Undefined
    else
      var b := p[|p| - 1];
      var body := Body(bodies, b);
      var w := LastWrite(body, |body|, r);
      if w >= 0 then At(p, w)
      else if b in drvd && r in drvd[b] then Carried(bodies, drvd, p[..|p| - 1], r)
      else Init(r)
  }

  /** The last block of a path, and what it adds to the path of the original function. */
  lemma CarriedLast(f: Fn, bodies: Bodies, succs: Targets, drvd: RegSets, entry: Block, p: seq<Block>, r: EcvReg)
    requires Relayed(f, bodies, succs, drvd) && entry in succs && IsPath(f.succs, entry, p)
    ensures var q, proj, before := p[|p| - 1], Proj(f.relays, p), Proj(f.relays, p[..|p| - 1]);
            && |proj| > 0 && proj[|proj| - 1] == Origin(f, q)
            && (q in f.relays ==> proj == before && Body(bodies, q) == [])
            && (q !in f.relays ==> proj[..|proj| - 1] == before)
            && (!Defines(bodies, Origin(f, q), r) ==>
                  Carried(bodies, drvd, proj, r) ==
                  if Derives(f, Origin(f, q), r) then Carried(bodies, drvd, proj[..|proj| - 1], r) else Init(r))
  {
    hide Relayed, IsPath, Proj;
    PathEnds(f.succs, entry, p);
    var q := p[|p| - 1];
    ProjPath(f, bodies, succs, drvd, entry, p);
    DerivesOrigin(f, bodies, succs, drvd, q, r);
    if q in f.relays {
      RelayAdds(f, bodies, succs, drvd, p);
    } else {
      ProjEnds(f, p);
    }
    PathEnds(succs, entry, Proj(f.relays, p));
  }

  lemma PathEnds(succs: Targets, entry: Block, p: seq<Block>)
    requires IsPath(succs, entry, p)
    ensures |p| > 0 && p[|p| - 1] in succs
  {
  }

  lemma RelayAdds(f: Fn, bodies: Bodies, succs: Targets, drvd: RegSets, p: seq<Block>)
    requires Relayed(f, bodies, succs, drvd) && |p| > 0 && p[|p| - 1] in f.relays
    ensures Proj(f.relays, p) == Proj(f.relays, p[..|p| - 1]) && Body(bodies, p[|p| - 1]) == []
  {
  }

  lemma DerivesOrigin(f: Fn, bodies: Bodies, succs: Targets, drvd: RegSets, q: Block, r: EcvReg)
    requires Relayed(f, bodies, succs, drvd)
    ensures Origin(f, q) in succs ==> Origin(f, q) in drvd && (Derives(f, Origin(f, q), r) <==> r in drvd[Origin(f, q)])
  {
  }

  /** A value that may stand for a register at the end of a block is what the promoted function has there. */
  lemma {:induction false} EvalEnd(f: Fn, bodies: Bodies, succs: Targets, drvd: RegSets, entry: Block,
                                   reached: set<Block>, p: seq<Block>, r: EcvReg, v: Val)
    requires Relayed(f, bodies, succs, drvd) && Complete(f, bodies, reached) && ClosedFrom(f, entry, reached)
    requires CallFree(bodies) && entry in succs && IsPath(f.succs, entry, p) && IsEnd(f, bodies, p[|p| - 1], r, v)
    ensures Eval(f, bodies, p, v) == Carried(bodies, drvd, Proj(f.relays, p), r)
    decreases |p|, 1
  {
    hide Relayed, Complete, ClosedFrom, Proj, IsPath, Carried, CallFree, Reloads;
    PathEnds(f.succs, entry, p);
    var q := p[|p| - 1];
    NoReload(bodies, q, r);
    CarriedLast(f, bodies, succs, drvd, entry, p, r);
    if v == Phi(q, r) {
      EvalPhi(f, bodies, succs, drvd, entry, reached, p, r);
      PhiDerives(f, bodies, succs, drvd, reached, q, r);
    } else if v == End(q, r) {
      OwnedIsOriginal(f, bodies, q, r);
      EvalOwn(f, bodies, succs, drvd, entry, reached, p, r);
    }
  }

  lemma NoReload(bodies: Bodies, b: Block, r: EcvReg)
    requires CallFree(bodies)
    ensures !Reloads(bodies, b, r)
  {
  }

  lemma OwnedIsOriginal(f: Fn, bodies: Bodies, q: Block, r: EcvReg)
    requires Owns(bodies, q, r)
    ensures Body(bodies, q) != []
  {
  }

  /** A block with a phi derives its register. A relay derives what its target does. */
  lemma PhiDerives(f: Fn, bodies: Bodies, succs: Targets, drvd: RegSets, reached: set<Block>, q: Block, r: EcvReg)
    requires Complete(f, bodies, reached) && HasPhi(f, q, r)
    ensures Derives(f, q, r)
  {
  }

  /** The value of a block by its own instructions. */
  lemma {:induction false} EvalOwn(f: Fn, bodies: Bodies, succs: Targets, drvd: RegSets, entry: Block,
                                   reached: set<Block>, p: seq<Block>, r: EcvReg)
    requires Relayed(f, bodies, succs, drvd) && Complete(f, bodies, reached) && ClosedFrom(f, entry, reached)
    requires CallFree(bodies) && entry in succs && IsPath(f.succs, entry, p) && p[|p| - 1] !in f.relays
    ensures Eval(f, bodies, p, End(p[|p| - 1], r)) == Carried(bodies, drvd, Proj(f.relays, p), r)
    decreases |p|, 0, 1
  {
    hide Relayed, Complete, ClosedFrom, IsPath, CallFree, EndsReloaded;
    PathEnds(f.succs, entry, p);
    var q := p[|p| - 1];
    NoReload(bodies, q, r);
    CarriedLast(f, bodies, succs, drvd, entry, p, r);
    if !Defines(bodies, q, r) {
      if HasPhi(f, q, r) {
        EvalPhi(f, bodies, succs, drvd, entry, reached, p, r);
        PhiDerives(f, bodies, succs, drvd, reached, q, r);
      } else {
        PathReached(f, entry, reached, p);
        NoPhi(f, bodies, reached, q, r);
      }
    }
  }

  lemma NoPhi(f: Fn, bodies: Bodies, reached: set<Block>, q: Block, r: EcvReg)
    requires Complete(f, bodies, reached) && q in reached && q !in f.relays
    ensures Derives(f, q, r) <==> HasPhi(f, q, r)
  {
    assert DerivedHavePhis(f, q);
  }

  /** A phi holds what the promoted function has at the end of the block before. */
  lemma {:induction false} EvalPhi(f: Fn, bodies: Bodies, succs: Targets, drvd: RegSets, entry: Block,
                                   reached: set<Block>, p: seq<Block>, r: EcvReg)
    requires Relayed(f, bodies, succs, drvd) && Complete(f, bodies, reached) && ClosedFrom(f, entry, reached)
    requires CallFree(bodies) && entry in succs && IsPath(f.succs, entry, p) && HasPhi(f, p[|p| - 1], r)
    ensures Eval(f, bodies, p, Phi(p[|p| - 1], r)) == Carried(bodies, drvd, Proj(f.relays, p[..|p| - 1]), r)
    decreases |p|, 0, 0
  {
    hide Relayed, ClosedFrom;
    if |p| > 1 {
      var q, b := p[|p| - 2], p[|p| - 1];
      var rest := p[..|p| - 1];
      assert Edge(f, q, b) && PhiFull(f, b, r) && HasIncoming(f, b, r, q);
      EvalEnd(f, bodies, succs, drvd, entry, reached, rest, r, f.phis[b][r][q]);
    }
  }

  // ---------------------------------------------------------------------------
  // When this is what the original function has

  /** Every phi of the last block of `p` holds what its register holds there. */
  ghost predicate PhisRight(f: Fn, bodies: Bodies, p: seq<Block>, b: Block)
    requires |p| > 0
  {
    forall r {:trigger HasPhi(f, b, r)} :: HasPhi(f, b, r) ==>
      Eval(f, bodies, p, Phi(b, r)) == LastDef(bodies, Proj(f.relays, p[..|p| - 1]), r)
  }

  /** The path `proj` of the original function ends in the same block as `p`, and there every read yields in the
      promoted function what it yields in the original one. */
  ghost predicate ReadsRight(f: Fn, bodies: Bodies, p: seq<Block>, proj: seq<Block>) {
    && |p| > 0 && |proj| > 0 && proj[|proj| - 1] == p[|p| - 1]
    && forall i: nat :: i < |Body(bodies, p[|p| - 1])| && Body(bodies, p[|p| - 1])[i].Read? ==>
         NewRead(f, bodies, p, i) == ReadDef(bodies, proj, i)
  }

  /** Along every path from the entry, reads and phis have the values of the original function. */
  ghost predicate Right(f: Fn, bodies: Bodies, entry: Block) {
    forall p {:trigger IsPath(f.succs, entry, p)} :: IsPath(f.succs, entry, p) ==>
      && PhisRight(f, bodies, p, p[|p| - 1])
      && (p[|p| - 1] !in f.relays ==> ReadsRight(f, bodies, p, Proj(f.relays, p)))
  }

  /** A register that is not derived where it is neither written nor, at first, read, or where it is read but not
      written, is unwritten there. */
  lemma SafeLoaded(bodies: Bodies, succs: Targets, drvd: RegSets, entry: Block, p: seq<Block>, b: Block, r: EcvReg)
    requires Safe(bodies, succs, drvd, entry) && IsPath(succs, entry, p) && b in succs[p[|p| - 1]] && b in drvd
    requires r in drvd[b]
    requires p[|p| - 1] in drvd && r !in drvd[p[|p| - 1]] && !Defines(bodies, p[|p| - 1], r)
    ensures LastDef(bodies, p, r) == Init(r)
  {
    var c := p[|p| - 1];
    if Owns(bodies, c, r) {
      var i := ReadExposed(Body(bodies, c), r);
      assert UnwrittenBefore(bodies, succs, entry, c, Body(bodies, c)[i].reg);
      assert PathTo(succs, entry, p, c);
    } else {
      assert PathTo(succs, entry, p, c) && Unwritten(bodies, succs, entry, c, r);
    }
  }

  /** A register that a block accesses but does not write is read before any write. */
  lemma ReadExposed(body: seq<Instr>, r: EcvReg) returns (i: nat)
    requires r in Own(body) && !Writes(body, r)
    ensures ExposedReadOf(body, i, r)
  {
    OwnHas(body, r);
    i :| i < |body| && (body[i] == Read(r) || body[i] == Write(r));
    assert body[i] != Write(r);
  }

  /** Where promotion is safe, what a derived register has is what it holds. */
  lemma {:induction false} CarriedRight(bodies: Bodies, succs: Targets, drvd: RegSets, entry: Block, p: seq<Block>,
                                        b: Block, r: EcvReg)
    requires Safe(bodies, succs, drvd, entry) && IsPath(succs, entry, p) && b in succs[p[|p| - 1]] && b in drvd
    requires r in drvd[b]
    requires forall c :: c in succs ==> c in drvd
    ensures Carried(bodies, drvd, p, r) == LastDef(bodies, p, r)
  {
    hide Safe, Owns;
    var c, rest := p[|p| - 1], p[..|p| - 1];
    if !Defines(bodies, c, r) {
      if r !in drvd[c] {
        SafeLoaded(bodies, succs, drvd, entry, p, b, r);
      } else if |p| > 1 {
        CarriedRight(bodies, succs, drvd, entry, rest, c, r);
      } else {
        SafeEntry(bodies, succs, drvd, entry);
        assert false;
      }
    }
  }

  lemma SafeEntry(bodies: Bodies, succs: Targets, drvd: RegSets, entry: Block)
    requires Safe(bodies, succs, drvd, entry)
    ensures DerivesNothing(drvd, entry)
  {
  }

  /** A block that has a phi is entered along an edge of the original function to a block that derives the register. */
  lemma PhiEntered(f: Fn, bodies: Bodies, succs: Targets, drvd: RegSets, entry: Block, reached: set<Block>,
                   p: seq<Block>, r: EcvReg)
    returns (d: Block)
    requires Relayed(f, bodies, succs, drvd) && Complete(f, bodies, reached) && entry in succs
    requires IsPath(f.succs, entry, p)
    requires HasPhi(f, p[|p| - 1], r) && |p| > 1
    ensures var proj := Proj(f.relays, p[..|p| - 1]);
            && IsPath(succs, entry, proj) && proj[|proj| - 1] in succs && d in succs[proj[|proj| - 1]] && d in drvd &&
                 r in drvd[d]
  {
    hide Relayed, Complete, Proj;
    var q, b := p[|p| - 2], p[|p| - 1];
    PhiDerives(f, bodies, succs, drvd, reached, b, r);
    assert Edge(f, q, b);
    ProjPath(f, bodies, succs, drvd, entry, p[..|p| - 1]);
    StepOrigin(f, bodies, succs, drvd, q, b);
    d := if b in f.relays then f.relays[b].1 else b;
    EntersDerives(f, bodies, succs, drvd, q, b, d, r);
    PathEnds(succs, entry, Proj(f.relays, p[..|p| - 1]));
  }

  lemma EntersDerives(f: Fn, bodies: Bodies, succs: Targets, drvd: RegSets, q: Block, b: Block, d: Block, r: EcvReg)
    requires Relayed(f, bodies, succs, drvd) && Derives(f, b, r) && Edge(f, q, b)
    requires d == if b in f.relays then f.relays[b].1 else b
    requires b !in f.relays ==> b in succs
    ensures d in drvd && r in drvd[d] && (q in succs ==> Origin(f, q) == q)
  {
  }

  lemma EntryHasNoPhi(f: Fn, bodies: Bodies, succs: Targets, drvd: RegSets, entry: Block, reached: set<Block>,
                      r: EcvReg)
    requires Relayed(f, bodies, succs, drvd) && Complete(f, bodies, reached) && entry in succs
    requires DerivesNothing(drvd, entry)
    ensures !HasPhi(f, entry, r)
  {
    if HasPhi(f, entry, r) {
      PhiDerives(f, bodies, succs, drvd, reached, entry, r);
    }
  }

  lemma SafeIsRight(f: Fn, bodies: Bodies, succs: Targets, drvd: RegSets, entry: Block, reached: set<Block>)
    requires Relayed(f, bodies, succs, drvd) && Complete(f, bodies, reached) && ClosedFrom(f, entry, reached)
    requires CallFree(bodies) && entry in succs && Safe(bodies, succs, drvd, entry)
    ensures Right(f, bodies, entry)
  {
    hide Relayed, Complete, ClosedFrom, Safe, Eval, LastDef, Carried, CallFree;
    AllDerive(f, bodies, succs, drvd);
    SafeEntry(bodies, succs, drvd, entry);
    forall p {:trigger IsPath(f.succs, entry, p)} | IsPath(f.succs, entry, p)
      ensures PhisRight(f, bodies, p, p[|p| - 1])
      ensures p[|p| - 1] !in f.relays ==> ReadsRight(f, bodies, p, Proj(f.relays, p))
    {
      var b := p[|p| - 1];
      forall r {:trigger HasPhi(f, b, r)} | HasPhi(f, b, r)
        ensures Eval(f, bodies, p, Phi(b, r)) == LastDef(bodies, Proj(f.relays, p[..|p| - 1]), r)
      {
        SafePhi(f, bodies, succs, drvd, entry, reached, p, r);
      }
      if b !in f.relays {
        ProjEnds(f, p);
        forall i: nat | i < |Body(bodies, b)| && Body(bodies, b)[i].Read?
          ensures NewRead(f, bodies, p, i) == ReadDef(bodies, Proj(f.relays, p), i)
        {
          SafeRead(f, bodies, succs, drvd, entry, reached, p, i);
        }
      }
    }
  }

  lemma AllDerive(f: Fn, bodies: Bodies, succs: Targets, drvd: RegSets)
    requires Relayed(f, bodies, succs, drvd)
    ensures forall c :: c in succs ==> c in drvd
  {
  }

  lemma SafePhi(f: Fn, bodies: Bodies, succs: Targets, drvd: RegSets, entry: Block, reached: set<Block>, p: seq<Block>,
                r: EcvReg)
    requires Relayed(f, bodies, succs, drvd) && Complete(f, bodies, reached) && ClosedFrom(f, entry, reached)
    requires CallFree(bodies) && entry in succs && Safe(bodies, succs, drvd, entry) && IsPath(f.succs, entry, p)
    requires HasPhi(f, p[|p| - 1], r)
    ensures Eval(f, bodies, p, Phi(p[|p| - 1], r)) == LastDef(bodies, Proj(f.relays, p[..|p| - 1]), r)
  {
    hide Relayed, Complete, ClosedFrom, Safe, Eval, LastDef, Carried, Proj;
    AllDerive(f, bodies, succs, drvd);
    SafeEntry(bodies, succs, drvd, entry);
    if |p| == 1 {
      EntryHasNoPhi(f, bodies, succs, drvd, entry, reached, r);
    } else {
      EvalPhi(f, bodies, succs, drvd, entry, reached, p, r);
      var d := PhiEntered(f, bodies, succs, drvd, entry, reached, p, r);
      CarriedRight(bodies, succs, drvd, entry, Proj(f.relays, p[..|p| - 1]), d, r);
    }
  }

  lemma SafeRead(f: Fn, bodies: Bodies, succs: Targets, drvd: RegSets, entry: Block, reached: set<Block>, p: seq<Block>,
                 i: nat)
    requires Relayed(f, bodies, succs, drvd) && Complete(f, bodies, reached) && ClosedFrom(f, entry, reached)
    requires CallFree(bodies) && entry in succs && Safe(bodies, succs, drvd, entry) && IsPath(f.succs, entry, p)
    requires p[|p| - 1] !in f.relays && i < |Body(bodies, p[|p| - 1])| && Body(bodies, p[|p| - 1])[i].Read?
    ensures NewRead(f, bodies, p, i) == ReadDef(bodies, Proj(f.relays, p), i)
  {
    hide Relayed, Complete, ClosedFrom, Safe, Eval, CallFree;
    var b := p[|p| - 1];
    var body := Body(bodies, b);
    var r := body[i].reg;
    ProjEnds(f, p);
    PathReached(f, entry, reached, p);
    NewReadIs(f, bodies, reached, p, i);
    if LastWrite(body, i, r) < 0 {
      if HasPhi(f, b, r) {
        SafePhi(f, bodies, succs, drvd, entry, reached, p, r);
      } else {
        ReadUnwritten(f, bodies, succs, drvd, entry, reached, p, i);
      }
    }
  }

  lemma ReadUnwritten(f: Fn, bodies: Bodies, succs: Targets, drvd: RegSets, entry: Block, reached: set<Block>,
                      p: seq<Block>, i: nat)
    requires Relayed(f, bodies, succs, drvd) && Complete(f, bodies, reached)
    requires Safe(bodies, succs, drvd, entry) && entry in succs && IsPath(f.succs, entry, p) && p[|p| - 1] in reached
    requires p[|p| - 1] !in f.relays
    requires ExposedRead(Body(bodies, p[|p| - 1]), i) && !HasPhi(f, p[|p| - 1], Body(bodies, p[|p| - 1])[i].reg)
    ensures LastDef(bodies, Proj(f.relays, p[..|p| - 1]), Body(bodies, p[|p| - 1])[i].reg) ==
              Init(Body(bodies, p[|p| - 1])[i].reg)
  {
    hide Relayed, Complete, LastDef;
    var q := p[|p| - 1];
    var r := Body(bodies, q)[i].reg;
    ProjPath(f, bodies, succs, drvd, entry, p);
    ProjEnds(f, p);
    NoPhi(f, bodies, reached, q, r);
    DerivesOrigin(f, bodies, succs, drvd, q, r);
    PathEnds(succs, entry, Proj(f.relays, p));
    assert UnwrittenBefore(bodies, succs, entry, q, r);
  }

  /** What a read yields once the block is resolved. */
  lemma NewReadIs(f: Fn, bodies: Bodies, reached: set<Block>, p: seq<Block>, i: nat)
    requires Complete(f, bodies, reached) && CallFree(bodies)
    requires |p| > 0 && p[|p| - 1] in reached && p[|p| - 1] !in f.relays
    requires i < |Body(bodies, p[|p| - 1])| && Body(bodies, p[|p| - 1])[i].Read?
    ensures var b, body := p[|p| - 1], Body(bodies, p[|p| - 1]);
            var w := LastWrite(body, i, body[i].reg);
            NewRead(f, bodies, p, i) ==
            if w >= 0 then At(Proj(f.relays, p), w)
            else if HasPhi(f, b, body[i].reg) then Eval(f, bodies, p, Phi(b, body[i].reg))
            else Init(body[i].reg)
  {
    hide Eval, Proj, CacheAt, Own;
    var b, body := p[|p| - 1], Body(bodies, p[|p| - 1]);
    assert ReadsResolved(f, bodies, b);
    CacheSays(body, f.phis[b].Keys, i, body[i].reg);
  }

  lemma ProjEnds(f: Fn, p: seq<Block>)
    requires |p| > 0 && p[|p| - 1] !in f.relays
    ensures var proj := Proj(f.relays, p);
            |proj| > 0 && proj[|proj| - 1] == p[|p| - 1] && proj[..|proj| - 1] == Proj(f.relays, p[..|p| - 1])
  {
  }

  // ---------------------------------------------------------------------------
  // Every path is kept, and the condition is needed

  /** Every path of the original function is what some path of the promoted one stands for. */
  lemma {:induction false} LiftPath(f: Fn, bodies: Bodies, succs: Targets, drvd: RegSets, entry: Block,
                                    p: seq<Block>) returns (lifted: seq<Block>)
    requires Relayed(f, bodies, succs, drvd) && entry in succs && IsPath(succs, entry, p)
    ensures PathTo(f.succs, entry, lifted, p[|p| - 1]) && Proj(f.relays, lifted) == p
    ensures |p| > 1 ==> |lifted| > 1 && Proj(f.relays, lifted[..|lifted| - 1]) == p[..|p| - 1]
                        && Origin(f, lifted[|lifted| - 2]) == p[|p| - 2]
  {
    hide Relayed, Proj;
    if |p| == 1 {
      lifted := [entry];
      LiftEntry(f, bodies, succs, drvd, entry);
      assert p == [entry];
    } else {
      var before := LiftPath(f, bodies, succs, drvd, entry, p[..|p| - 1]);
      lifted := LiftStep(f, bodies, succs, drvd, entry, before, p[|p| - 2], p[|p| - 1]);
      assert p[..|p| - 1] + [p[|p| - 1]] == p;
    }
  }

  lemma LiftEntry(f: Fn, bodies: Bodies, succs: Targets, drvd: RegSets, entry: Block)
    requires Relayed(f, bodies, succs, drvd) && entry in succs
    ensures entry in f.succs && entry !in f.relays && Proj(f.relays, [entry]) == [entry]
  {
    AddBlock(f, [], entry);
    assert [] + [entry] == [entry];
  }

  /** An edge of the original function is an edge of the promoted one, or leads through a relay there. */
  lemma EdgeKept(f: Fn, bodies: Bodies, succs: Targets, drvd: RegSets, q: Block, b: Block) returns (x: Block)
    requires Relayed(f, bodies, succs, drvd) && q in succs && b in succs[q]
    ensures q in f.succs && x in f.succs[q] && x in f.succs && b in f.succs && b !in f.relays && q !in f.relays
    ensures x == b || (x in f.relays && f.relays[x] == (q, b) && f.succs[x] == [b])
  {
    var i :| 0 <= i < |succs[q]| && succs[q][i] == b;
    x := f.succs[q][i];
    assert succs[q][i] in succs;
  }

  lemma LiftStep(f: Fn, bodies: Bodies, succs: Targets, drvd: RegSets, entry: Block, before: seq<Block>, q: Block,
                 b: Block) returns (lifted: seq<Block>)
    requires Relayed(f, bodies, succs, drvd) && PathTo(f.succs, entry, before, q) && q in succs && b in succs[q]
    ensures PathTo(f.succs, entry, lifted, b) && |lifted| > 1 && Origin(f, lifted[|lifted| - 2]) == q
    ensures Proj(f.relays, lifted) == Proj(f.relays, before) + [b]
    ensures Proj(f.relays, lifted[..|lifted| - 1]) == Proj(f.relays, before)
  {
    hide Proj, Relayed;
    var x := EdgeKept(f, bodies, succs, drvd, q, b);
    if x == b {
      lifted := before + [b];
      AddBlock(f, before, b);
      assert lifted[..|lifted| - 1] == before;
    } else {
      var via := before + [x];
      AddRelay(f, before, x);
      AddBlock(f, via, b);
      lifted := via + [b];
      assert lifted[..|lifted| - 1] == via;
    }
  }

  lemma AddRelay(f: Fn, p: seq<Block>, x: Block)
    requires x in f.relays
    ensures Proj(f.relays, p + [x]) == Proj(f.relays, p)
  {
    assert (p + [x])[..|p + [x]| - 1] == p;
  }

  lemma AddBlock(f: Fn, p: seq<Block>, b: Block)
    requires b !in f.relays
    ensures Proj(f.relays, p + [b]) == Proj(f.relays, p) + [b]
  {
    assert (p + [b])[..|p + [b]| - 1] == p;
  }

  lemma PathExtends(succs: Targets, entry: Block, p: seq<Block>, b: Block)
    requires IsPath(succs, entry, p) && b in succs && b in succs[p[|p| - 1]]
    ensures IsPath(succs, entry, p + [b])
  {
  }

  /** A phi that is right although its register is loaded at the block before shows that no path has written the
      register. */
  lemma RightNeedsUnwritten(f: Fn, bodies: Bodies, succs: Targets, drvd: RegSets, entry: Block, reached: set<Block>,
                            c: Block, b: Block, r: EcvReg, p: seq<Block>)
    requires Relayed(f, bodies, succs, drvd) && Complete(f, bodies, reached) && ClosedFrom(f, entry, reached)
    requires CallFree(bodies) && entry in succs && Right(f, bodies, entry)
    requires c in succs && b in succs[c] && b in drvd && r in drvd[b] && c in drvd && r !in drvd[c]
    requires !Defines(bodies, c, r)
    requires PathTo(succs, entry, p, c)
    ensures LastDef(bodies, p, r) == Init(r)
  {
    hide Relayed, Proj, LastDef, ClosedFrom, Complete, Eval, Defines;
    NotDerived(f, bodies, succs, drvd, b, c, r);
    var long := p + [b];
    PathExtends(succs, entry, p, b);
    var lifted := LiftPath(f, bodies, succs, drvd, entry, long);
    assert long[..|long| - 1] == p && long[|long| - 2] == c;
    PathReached(f, entry, reached, lifted);
    NoPhi(f, bodies, reached, b, r);
    assert HasPhi(f, b, r) && PhisRight(f, bodies, lifted, b);
    EvalPhi(f, bodies, succs, drvd, entry, reached, lifted, r);
    CarriedLoaded(bodies, drvd, p, r);
  }

  lemma NotDerived(f: Fn, bodies: Bodies, succs: Targets, drvd: RegSets, b: Block, c: Block, r: EcvReg)
    requires Relayed(f, bodies, succs, drvd) && c in succs && b in succs[c]
    requires b in drvd && r in drvd[b]
    ensures b in succs && b !in f.relays && Derives(f, b, r)
  {
  }

  lemma RightNeedsExposed(f: Fn, bodies: Bodies, succs: Targets, drvd: RegSets, entry: Block, reached: set<Block>,
                          b: Block, i: nat, p: seq<Block>)
    requires Relayed(f, bodies, succs, drvd) && Complete(f, bodies, reached) && CallFree(bodies)
    requires entry in succs && ClosedFrom(f, entry, reached) && Right(f, bodies, entry)
    requires b in succs && b in drvd && ExposedRead(Body(bodies, b), i) && Body(bodies, b)[i].reg !in drvd[b]
    requires PathTo(succs, entry, p, b)
    ensures LastDef(bodies, p[..|p| - 1], Body(bodies, b)[i].reg) == Init(Body(bodies, b)[i].reg)
  {
    hide LastDef, Eval, Relayed, Complete, ClosedFrom, CallFree, Proj;
    var r := Body(bodies, b)[i].reg;
    var lifted := LiftPath(f, bodies, succs, drvd, entry, p);
    OriginalBlock(f, bodies, succs, drvd, b);
    DerivesOrigin(f, bodies, succs, drvd, b, r);
    PathReached(f, entry, reached, lifted);
    NoPhi(f, bodies, reached, b, r);
    NewReadIs(f, bodies, reached, lifted, i);
    assert ReadsRight(f, bodies, lifted, p);
    assert NewRead(f, bodies, lifted, i) == ReadDef(bodies, p, i);
  }

  lemma OriginalBlock(f: Fn, bodies: Bodies, succs: Targets, drvd: RegSets, b: Block)
    requires Relayed(f, bodies, succs, drvd) && b in succs
    ensures b in f.succs && b !in f.relays && Origin(f, b) == b
  {
  }

  lemma RightNeedsEntry(f: Fn, bodies: Bodies, succs: Targets, drvd: RegSets, entry: Block, reached: set<Block>)
    requires Relayed(f, bodies, succs, drvd) && Complete(f, bodies, reached) && ClosedFrom(f, entry, reached)
    requires entry in succs && Right(f, bodies, entry)
    ensures DerivesNothing(drvd, entry)
  {
    hide Relayed, Complete;
    OriginalBlock(f, bodies, succs, drvd, entry);
    assert IsPath(f.succs, entry, [entry]);
    assert PhisRight(f, bodies, [entry], entry);
    forall r | entry in drvd && r in drvd[entry]
      ensures false
    {
      DerivesOrigin(f, bodies, succs, drvd, entry, r);
      NoPhi(f, bodies, reached, entry, r);
    }
  }

  /** A complete promoted function without calls has the values of the original one along every path exactly when the
      entry derives nothing and no register is loaded where some path has written it. */
  lemma RightIffSafe(f: Fn, bodies: Bodies, succs: Targets, drvd: RegSets, entry: Block, reached: set<Block>)
    requires Relayed(f, bodies, succs, drvd) && Complete(f, bodies, reached) && ClosedFrom(f, entry, reached)
    requires entry in succs && CallFree(bodies)
    ensures Right(f, bodies, entry) <==> Safe(bodies, succs, drvd, entry)
  {
    hide Relayed, Complete, ClosedFrom, Right, LastDef, Owns, CallFree, DerivesNothing;
    if Safe(bodies, succs, drvd, entry) {
      SafeIsRight(f, bodies, succs, drvd, entry, reached);
    }
    if Right(f, bodies, entry) {
      RightNeedsEntry(f, bodies, succs, drvd, entry, reached);
      forall c, b, r | c in succs && b in succs[c] && b in drvd && r in drvd[b] && c in drvd && r !in drvd[c] &&
        !Owns(bodies, c, r)
        ensures Unwritten(bodies, succs, entry, c, r)
      {
        NotOwnedNotDefined(bodies, c, r);
        forall p | PathTo(succs, entry, p, c)
          ensures LastDef(bodies, p, r) == Init(r)
        {
          RightNeedsUnwritten(f, bodies, succs, drvd, entry, reached, c, b, r, p);
        }
      }
      forall b, i: nat | b in succs && b in drvd && ExposedRead(Body(bodies, b), i) &&
        Body(bodies, b)[i].reg !in drvd[b]
        ensures UnwrittenBefore(bodies, succs, entry, b, Body(bodies, b)[i].reg)
      {
        forall p | PathTo(succs, entry, p, b)
          ensures LastDef(bodies, p[..|p| - 1], Body(bodies, b)[i].reg) == Init(Body(bodies, b)[i].reg)
        {
          RightNeedsExposed(f, bodies, succs, drvd, entry, reached, b, i, p);
        }
      }
    }
  }

  lemma NotOwnedNotDefined(bodies: Bodies, c: Block, r: EcvReg)
    ensures Defines(bodies, c, r) ==> Owns(bodies, c, r)
  {
    OwnsWrites(Body(bodies, c), r);
  }

  // ---------------------------------------------------------------------------
  // Seen from the original function

  /** `q` is a path of the promoted function that stands for the path `p` of the original one. */
  ghost predicate Lifts(f: Fn, entry: Block, p: seq<Block>, q: seq<Block>) {
    |p| > 0 && PathTo(f.succs, entry, q, p[|p| - 1]) && Proj(f.relays, q) == p
  }

  /** Every path of the original function is run by the promoted one, and at its end every read yields what it does
      there. */
  ghost predicate KeepsReads(f: Fn, bodies: Bodies, succs: Targets, entry: Block) {
    forall p {:trigger IsPath(succs, entry, p)} :: IsPath(succs, entry, p) ==>
      exists q :: Lifts(f, entry, p, q) && ReadsRight(f, bodies, q, p)
  }

  lemma RightKeeps(f: Fn, bodies: Bodies, succs: Targets, drvd: RegSets, entry: Block)
    requires Relayed(f, bodies, succs, drvd) && entry in succs && Right(f, bodies, entry)
    ensures KeepsReads(f, bodies, succs, entry)
  {
    hide Relayed, ReadsRight, PhisRight, Proj;
    forall p {:trigger IsPath(succs, entry, p)} | IsPath(succs, entry, p)
      ensures exists q :: Lifts(f, entry, p, q) && ReadsRight(f, bodies, q, p)
    {
      var q := LiftPath(f, bodies, succs, drvd, entry, p);
      OriginalBlock(f, bodies, succs, drvd, p[|p| - 1]);
      assert Lifts(f, entry, p, q) && ReadsRight(f, bodies, q, p);
    }
  }

  // ---------------------------------------------------------------------------
  // What the caller gets back

  /** A block that returns stores the values that the returned registers have there, and those of the passed registers
      that were written before. */
  ghost predicate StoresMade(f: Fn, bodies: Bodies, passed: RegSets, b: Block) {
    && b in f.stores && b in passed
    && (forall r :: r in f.stores[b] <==>
          || (r.number in {0, 1, 32} && (Owns(bodies, b, r) || Derives(f, b, r)))
          || (r.number in {0, 1, 2, 3, 4, 5, 6, 7, 8, 32} && r in passed[b]))
    && (forall r :: r in f.stores[b] ==> IsEnd(f, bodies, b, r, f.stores[b][r]))
  }

  ghost predicate StoresDone(f: Fn, bodies: Bodies, passed: RegSets, succs: Targets, reached: set<Block>)
  {
    forall b {:trigger StoresMade(f, bodies, passed, b)} :: b in reached && b in succs && succs[b] == [] ==>
      StoresMade(f, bodies, passed, b)
  }

  /** What the register memory holds after the path `p` has returned. */
  ghost function StateAfter(f: Fn, bodies: Bodies, p: seq<Block>, r: EcvReg): Def
    requires |p| > 0
  {
    var b := p[|p| - 1];
    if b in f.stores && r in f.stores[b] then Eval(f, bodies, p, f.stores[b][r]) else Init(r)
  }

  /** Whenever the function returns, the register memory holds what the original function leaves in `r`. */
  ghost predicate Returns(f: Fn, bodies: Bodies, succs: Targets, entry: Block, r: EcvReg) {
    forall p {:trigger IsPath(f.succs, entry, p)} ::
      IsPath(f.succs, entry, p) && p[|p| - 1] in succs && succs[p[|p| - 1]] == [] ==>
      StateAfter(f, bodies, p, r) == LastDef(bodies, Proj(f.relays, p), r)
  }

  /** The passed registers written before a block are derived there. */
  ghost predicate PassedDerived(passed: RegSets, drvd: RegSets) {
    forall b, r :: b in passed && b in drvd && r in passed[b] && r.CheckPassedArgsRegs() ==> r in drvd[b]
  }

  /** X0, X1 or the stack pointer, written by a block that returns, is stored with its value at the end of the block. */
  lemma WrittenIsStored(f: Fn, bodies: Bodies, passed: RegSets, b: Block, r: EcvReg)
    requires StoresMade(f, bodies, passed, b) && Defines(bodies, b, r)
    requires r.number == 0 || r.number == 1 || r.number == 32
    ensures b in f.stores && r in f.stores[b] && f.stores[b][r] == End(b, r)
  {
    hide Own, Writes, Reloads;
    NotOwnedNotDefined(bodies, b, r);
  }

  lemma StoreFor(f: Fn, bodies: Bodies, succs: Targets, drvd: RegSets, passed: RegSets, b: Block, r: EcvReg)
    requires Relayed(f, bodies, succs, drvd) && StoresMade(f, bodies, passed, b) && b in succs
    requires r.CheckPassedReturnRegs() && PassedDerived(passed, drvd)
    ensures b in f.stores && (r in f.stores[b] <==> Owns(bodies, b, r) || Derives(f, b, r))
    ensures r in f.stores[b] ==> IsEnd(f, bodies, b, r, f.stores[b][r])
  {
    assert r.CheckPassedArgsRegs() && r.number in {0, 1, 32};
  }

  /** After a path has returned, the register memory holds what the promoted function has for the register. */
  lemma StateIsCarried(f: Fn, bodies: Bodies, succs: Targets, drvd: RegSets, entry: Block, reached: set<Block>,
                       passed: RegSets, r: EcvReg, p: seq<Block>)
    requires Relayed(f, bodies, succs, drvd) && Complete(f, bodies, reached) && ClosedFrom(f, entry, reached)
    requires CallFree(bodies) && entry in succs && StoresDone(f, bodies, passed, succs, reached)
    requires r.CheckPassedReturnRegs() && PassedDerived(passed, drvd)
    requires IsPath(f.succs, entry, p) && p[|p| - 1] in succs && succs[p[|p| - 1]] == []
    ensures StateAfter(f, bodies, p, r) == Carried(bodies, drvd, Proj(f.relays, p), r)
  {
    hide Relayed, Complete, ClosedFrom, Owns, StoresMade, IsEnd, Eval, Proj, Carried, PassedDerived, Defines;
    var b := p[|p| - 1];
    PathReached(f, entry, reached, p);
    assert StoresMade(f, bodies, passed, b);
    StoreFor(f, bodies, succs, drvd, passed, b, r);
    if r in f.stores[b] {
      EvalEnd(f, bodies, succs, drvd, entry, reached, p, r, f.stores[b][r]);
    } else {
      OriginalBlock(f, bodies, succs, drvd, b);
      NotOwnedNotDefined(bodies, b, r);
      CarriedLast(f, bodies, succs, drvd, entry, p, r);
    }
  }

  /** Every path on which the original function returns is run by the promoted one, which leaves the same in `r`. */
  ghost predicate KeepsReturned(f: Fn, bodies: Bodies, succs: Targets, entry: Block, r: EcvReg) {
    forall p {:trigger IsPath(succs, entry, p)} :: IsPath(succs, entry, p) && succs[p[|p| - 1]] == [] ==>
      exists q :: Lifts(f, entry, p, q) && |q| > 0 && StateAfter(f, bodies, q, r) == LastDef(bodies, p, r)
  }

  lemma ReturnsKeep(f: Fn, bodies: Bodies, succs: Targets, drvd: RegSets, entry: Block, r: EcvReg)
    requires Relayed(f, bodies, succs, drvd) && entry in succs && Returns(f, bodies, succs, entry, r)
    ensures KeepsReturned(f, bodies, succs, entry, r)
  {
    hide Relayed, StateAfter, LastDef, Proj;
    forall p {:trigger IsPath(succs, entry, p)} | IsPath(succs, entry, p) && succs[p[|p| - 1]] == []
      ensures exists q :: Lifts(f, entry, p, q) && |q| > 0 && StateAfter(f, bodies, q, r) == LastDef(bodies, p, r)
    {
      var q := LiftPath(f, bodies, succs, drvd, entry, p);
      assert Lifts(f, entry, p, q) && StateAfter(f, bodies, q, r) == LastDef(bodies, p, r);
    }
  }

  /** Whenever the original function returns, the promoted one has the value of `r`. */
  ghost predicate CarriesBack(bodies: Bodies, succs: Targets, drvd: RegSets, entry: Block, r: EcvReg) {
    forall p {:trigger IsPath(succs, entry, p)} :: IsPath(succs, entry, p) && succs[p[|p| - 1]] == [] ==>
      Carried(bodies, drvd, p, r) == LastDef(bodies, p, r)
  }

  lemma ReturnsIffCarried(f: Fn, bodies: Bodies, succs: Targets, drvd: RegSets, entry: Block, reached: set<Block>,
                          passed: RegSets, r: EcvReg)
    requires Relayed(f, bodies, succs, drvd) && Complete(f, bodies, reached) && ClosedFrom(f, entry, reached)
    requires CallFree(bodies) && entry in succs && StoresDone(f, bodies, passed, succs, reached)
    requires r.CheckPassedReturnRegs() && PassedDerived(passed, drvd)
    ensures Returns(f, bodies, succs, entry, r) <==> CarriesBack(bodies, succs, drvd, entry, r)
  {
    hide Relayed, Complete, ClosedFrom, StoresDone, PassedDerived, LastDef, Carried, StateAfter, Proj;
    if CarriesBack(bodies, succs, drvd, entry, r) {
      forall p {:trigger IsPath(f.succs, entry, p)} |
        IsPath(f.succs, entry, p) && p[|p| - 1] in succs && succs[p[|p| - 1]] == []
        ensures StateAfter(f, bodies, p, r) == LastDef(bodies, Proj(f.relays, p), r)
      {
        StateIsCarried(f, bodies, succs, drvd, entry, reached, passed, r, p);
        OriginalBlock(f, bodies, succs, drvd, p[|p| - 1]);
        ProjPath(f, bodies, succs, drvd, entry, p);
      }
    }
    if Returns(f, bodies, succs, entry, r) {
      forall p {:trigger IsPath(succs, entry, p)} | IsPath(succs, entry, p) && succs[p[|p| - 1]] == []
        ensures Carried(bodies, drvd, p, r) == LastDef(bodies, p, r)
      {
        var q := LiftPath(f, bodies, succs, drvd, entry, p);
        StateIsCarried(f, bodies, succs, drvd, entry, reached, passed, r, q);
      }
    }
  }

  /** Seen from the original function, a register comes back right under the same condition. */
  lemma KeepsIffReturns(f: Fn, bodies: Bodies, succs: Targets, drvd: RegSets, entry: Block, reached: set<Block>,
                        passed: RegSets, r: EcvReg)
    requires Relayed(f, bodies, succs, drvd) && Complete(f, bodies, reached) && ClosedFrom(f, entry, reached)
    requires CallFree(bodies) && entry in succs && StoresDone(f, bodies, passed, succs, reached)
    requires r.CheckPassedReturnRegs() && PassedDerived(passed, drvd)
    ensures KeepsReturned(f, bodies, succs, entry, r) <==> Returns(f, bodies, succs, entry, r)
  {
    hide Relayed, Complete, ClosedFrom, StoresDone, PassedDerived, LastDef, Carried, StateAfter, Proj, CallFree,
         Returns;
    ReturnsIffCarried(f, bodies, succs, drvd, entry, reached, passed, r);
    if Returns(f, bodies, succs, entry, r) {
      ReturnsKeep(f, bodies, succs, drvd, entry, r);
    }
    if KeepsReturned(f, bodies, succs, entry, r) {
      forall p {:trigger IsPath(succs, entry, p)} | IsPath(succs, entry, p) && succs[p[|p| - 1]] == []
        ensures Carried(bodies, drvd, p, r) == LastDef(bodies, p, r)
      {
        var q :| Lifts(f, entry, p, q) && |q| > 0 && StateAfter(f, bodies, q, r) == LastDef(bodies, p, r);
        StateIsCarried(f, bodies, succs, drvd, entry, reached, passed, r, q);
      }
    }
  }

  /** From `w[0]`, where `r` is loaded, the walk leads to a return through blocks that derive `r`, and no block on it
      writes `r`. */
  ghost predicate Leaks(bodies: Bodies, succs: Targets, drvd: RegSets, w: seq<Block>, r: EcvReg) {
    && Drains(bodies, succs, drvd, w, r)
    && w[0] in drvd && r !in drvd[w[0]] && !Defines(bodies, w[0], r)
  }

  ghost predicate Drains(bodies: Bodies, succs: Targets, drvd: RegSets, w: seq<Block>, r: EcvReg) {
    && |w| > 0 && IsPath(succs, w[0], w) && succs[w[|w| - 1]] == []
    && forall i :: 0 < i < |w| ==> w[i] in drvd && r in drvd[w[i]] && !Defines(bodies, w[i], r)
  }

  /** Where the value of `r` that is returned is loaded, no path has written `r`. */
  ghost predicate Kept(bodies: Bodies, succs: Targets, drvd: RegSets, entry: Block, r: EcvReg) {
    forall w {:trigger Leaks(bodies, succs, drvd, w, r)} :: Leaks(bodies, succs, drvd, w, r) ==>
      Unwritten(bodies, succs, entry, w[0], r)
  }

  /** Blocks that derive `r` and do not write it pass it on, in both functions. */
  lemma {:induction false} CarriedOn(bodies: Bodies, drvd: RegSets, p: seq<Block>, w: seq<Block>, r: EcvReg)
    requires |p| > 0 && |w| > 0 && p[|p| - 1] == w[0]
    requires forall i :: 0 < i < |w| ==> w[i] in drvd && r in drvd[w[i]] && !Defines(bodies, w[i], r)
    ensures Carried(bodies, drvd, p + w[1..], r) == Carried(bodies, drvd, p, r)
    ensures LastDef(bodies, p + w[1..], r) == LastDef(bodies, p, r)
  {
    if |w| == 1 {
      assert p + w[1..] == p;
    } else {
      var w' := w[..|w| - 1];
      CarriedOn(bodies, drvd, p, w', r);
      assert w[1..] == w'[1..] + [w[|w| - 1]];
      assert p + w[1..] == (p + w'[1..]) + [w[|w| - 1]];
      CarriedStep(bodies, drvd, p + w'[1..], w[|w| - 1], r);
    }
  }

  lemma CarriedStep(bodies: Bodies, drvd: RegSets, p: seq<Block>, b: Block, r: EcvReg)
    requires b in drvd && r in drvd[b] && !Defines(bodies, b, r)
    ensures Carried(bodies, drvd, p + [b], r) == Carried(bodies, drvd, p, r)
    ensures LastDef(bodies, p + [b], r) == LastDef(bodies, p, r)
  {
    assert (p + [b])[..|p + [b]| - 1] == p;
  }

  lemma WalkOn(succs: Targets, entry: Block, p: seq<Block>, w: seq<Block>)
    requires IsPath(succs, entry, p) && |w| > 0 && IsPath(succs, w[0], w) && p[|p| - 1] == w[0]
    ensures IsPath(succs, entry, p + w[1..]) && (p + w[1..])[|p + w[1..]| - 1] == w[|w| - 1]
  {
    var long := p + w[1..];
    forall i | 0 < i < |long|
      ensures long[i] in succs[long[i - 1]]
    {
      if i >= |p| {
        assert long[i] == w[i - |p| + 1] && long[i - 1] == w[i - |p|];
      }
    }
  }

  /** Where what is returned is kept, the promoted function has it at every block that leads to the return. */
  lemma {:induction false} KeptCarried(bodies: Bodies, succs: Targets, drvd: RegSets, entry: Block, p: seq<Block>,
                                       w: seq<Block>, r: EcvReg)
    requires Kept(bodies, succs, drvd, entry, r) && DerivesNothing(drvd, entry) && forall c :: c in succs ==> c in drvd
    requires IsPath(succs, entry, p) && Drains(bodies, succs, drvd, w, r) && w[0] == p[|p| - 1]
    ensures Carried(bodies, drvd, p, r) == LastDef(bodies, p, r)
    decreases |p|
  {
    hide Unwritten;
    var c, rest := p[|p| - 1], p[..|p| - 1];
    if !Defines(bodies, c, r) {
      if r !in drvd[c] {
        assert Leaks(bodies, succs, drvd, w, r);
        UnwrittenOn(bodies, succs, entry, c, r, p);
      } else {
        var w' := [rest[|rest| - 1]] + w;
        DrainsOn(bodies, succs, drvd, w, rest[|rest| - 1], r);
        KeptCarried(bodies, succs, drvd, entry, rest, w', r);
      }
    }
  }

  lemma UnwrittenOn(bodies: Bodies, succs: Targets, entry: Block, c: Block, r: EcvReg, p: seq<Block>)
    requires Unwritten(bodies, succs, entry, c, r) && PathTo(succs, entry, p, c)
    ensures LastDef(bodies, p, r) == Init(r)
  {
  }

  lemma DrainsOn(bodies: Bodies, succs: Targets, drvd: RegSets, w: seq<Block>, c: Block, r: EcvReg)
    requires Drains(bodies, succs, drvd, w, r) && c in succs && w[0] in succs[c]
    requires w[0] in drvd && r in drvd[w[0]] && !Defines(bodies, w[0], r)
    ensures Drains(bodies, succs, drvd, [c] + w, r)
  {
    var w' := [c] + w;
    forall i | 0 < i < |w'|
      ensures w'[i] in succs[w'[i - 1]] && w'[i] in drvd && r in drvd[w'[i]] && !Defines(bodies, w'[i], r)
    {
      assert w'[i] == w[i - 1];
    }
  }

  /** A returned register comes back with its last write on every path exactly when no path has written it where the
      value that is returned is loaded. */
  lemma ReturnsIffKept(f: Fn, bodies: Bodies, succs: Targets, drvd: RegSets, entry: Block, reached: set<Block>,
                       passed: RegSets, r: EcvReg)
    requires Relayed(f, bodies, succs, drvd) && Complete(f, bodies, reached) && ClosedFrom(f, entry, reached)
    requires CallFree(bodies) && entry in succs && StoresDone(f, bodies, passed, succs, reached)
    requires DerivesNothing(drvd, entry)
    requires r.CheckPassedReturnRegs() && PassedDerived(passed, drvd)
    ensures Returns(f, bodies, succs, entry, r) <==> Kept(bodies, succs, drvd, entry, r)
  {
    hide Relayed, Complete, ClosedFrom, StoresDone, PassedDerived, LastDef, Carried, Returns, Kept, DerivesNothing;
    AllDerive(f, bodies, succs, drvd);
    ReturnsIffCarried(f, bodies, succs, drvd, entry, reached, passed, r);
    CarriesIffKept(bodies, succs, drvd, entry, r);
  }

  lemma CarriesIffKept(bodies: Bodies, succs: Targets, drvd: RegSets, entry: Block, r: EcvReg)
    requires DerivesNothing(drvd, entry) && forall c :: c in succs ==> c in drvd
    ensures CarriesBack(bodies, succs, drvd, entry, r) <==> Kept(bodies, succs, drvd, entry, r)
  {
    hide LastDef, Carried, DerivesNothing;
    if Kept(bodies, succs, drvd, entry, r) {
      forall p {:trigger IsPath(succs, entry, p)} | IsPath(succs, entry, p) && succs[p[|p| - 1]] == []
        ensures Carried(bodies, drvd, p, r) == LastDef(bodies, p, r)
      {
        var w := [p[|p| - 1]];
        assert Drains(bodies, succs, drvd, w, r);
        KeptCarried(bodies, succs, drvd, entry, p, w, r);
      }
    }
    if CarriesBack(bodies, succs, drvd, entry, r) {
      forall w {:trigger Leaks(bodies, succs, drvd, w, r)} | Leaks(bodies, succs, drvd, w, r)
        ensures Unwritten(bodies, succs, entry, w[0], r)
      {
        forall p | PathTo(succs, entry, p, w[0])
          ensures LastDef(bodies, p, r) == Init(r)
        {
          CarriedOn(bodies, drvd, p, w, r);
          WalkOn(succs, entry, p, w);
          CarriedLoaded(bodies, drvd, p, r);
        }
      }
    }
  }

  lemma CarriedLoaded(bodies: Bodies, drvd: RegSets, p: seq<Block>, r: EcvReg)
    requires |p| > 0 && p[|p| - 1] in drvd && r !in drvd[p[|p| - 1]] && !Defines(bodies, p[|p| - 1], r)
    ensures Carried(bodies, drvd, p, r) == Init(r)
  {
  }

  /** Where reads are right, returned registers can be lost only at the returning block itself. */
  lemma SafeKeeps(bodies: Bodies, succs: Targets, drvd: RegSets, entry: Block, r: EcvReg)
    requires Safe(bodies, succs, drvd, entry)
    requires forall b :: b in succs && succs[b] == [] && b in drvd && r !in drvd[b] && !Defines(bodies, b, r) ==>
               Unwritten(bodies, succs, entry, b, r)
    ensures Kept(bodies, succs, drvd, entry, r)
  {
    hide Safe, LastDef, Defines;
    forall w {:trigger Leaks(bodies, succs, drvd, w, r)} | Leaks(bodies, succs, drvd, w, r)
      ensures Unwritten(bodies, succs, entry, w[0], r)
    {
      if |w| > 1 {
        forall p | PathTo(succs, entry, p, w[0])
          ensures LastDef(bodies, p, r) == Init(r)
        {
          SafeLoaded(bodies, succs, drvd, entry, p, w[1], r);
        }
      }
    }
  }
}
