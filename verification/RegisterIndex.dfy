/** The table of registers of an architecture, by name and by offset in the state structure. */
module RegisterIndexes {

  datatype Option<T> = None | Some(value: T)

  /** A register covers `size` bytes from `offset` on. Its parent is given by its place in the table. */
  datatype Register = Register(name: string, offset: nat, size: nat, parent: Option<nat>)

  type Table = seq<Register>

  predicate Covers(r: Register, byte: nat) {
    r.offset <= byte < r.offset + r.size
  }

  /** Parents were added before their sub-registers. */
  ghost predicate ParentsFirst(t: Table) {
    forall k :: 0 <= k < |t| && t[k].parent.Some? ==> t[k].parent.value < k
  }

  /** The outermost register around register `k`. */
  ghost function Root(t: Table, k: nat): nat
    requires ParentsFirst(t) && k < |t|
    decreases k
  {
    match t[k].parent
    case None => k
    case Some(p) => Root(t, p)
  }

  /** The last register that covers a byte. */
  ghost predicate IsLastAt(t: Table, byte: nat, entry: Option<nat>) {
    match entry
    case None => forall k :: 0 <= k < |t| ==> !Covers(t[k], byte)
    case Some(k) => k < |t| && Covers(t[k], byte) && forall j :: k < j < |t| ==> !Covers(t[j], byte)
  }

  /** Entry `byte` of the table by offsets; there is none beyond its end. */
  function At(byOffset: seq<Option<nat>>, byte: nat): Option<nat> {
    if byte < |byOffset| then byOffset[byte] else None
  }

  ghost predicate Indexed(t: Table, byOffset: seq<Option<nat>>) {
    forall byte: nat {:trigger At(byOffset, byte)} :: IsLastAt(t, byte, At(byOffset, byte))
  }

  /** Registers that share a byte lie in the same outermost register. */
  ghost predicate Nested(t: Table)
    requires ParentsFirst(t)
  {
    forall byte: nat, j, k {:trigger Covers(t[j], byte), Covers(t[k], byte)} ::
      0 <= j < |t| && 0 <= k < |t| && Covers(t[j], byte) && Covers(t[k], byte) ==> Root(t, j) == Root(t, k)
  }

  /** Names lead to registers of that name. Every register is found under its name, unless the name was taken. */
  ghost predicate Named(t: Table, byName: map<string, Option<nat>>) {
    && (forall n :: n in byName && byName[n].Some? ==> byName[n].value < |t| && t[byName[n].value].name == n)
    && (forall k :: 0 <= k < |t| ==> t[k].name in byName && byName[t[k].name] in {None, Some(k)})
  }

  lemma {:induction false} RootStays(t: Table, r: Register, k: nat)
    requires ParentsFirst(t) && ParentsFirst(t + [r]) && k < |t|
    ensures Root(t + [r], k) == Root(t, k)
    decreases k
  {
    assert (t + [r])[k] == t[k];
    if t[k].parent.Some? {
      RootStays(t, r, t[k].parent.value);
    }
  }

  /** The part of the table by offsets that belongs to the new register, up to byte `i`. */
  ghost predicate Entered(t: Table, k: nat, before: seq<Option<nat>>, byOffset: seq<Option<nat>>, i: nat)
    requires k < |t|
  {
    forall byte: nat {:trigger At(byOffset, byte)} ::
      At(byOffset, byte) == if t[k].offset <= byte < i then Some(k) else At(before, byte)
  }

  lemma EnteredIsIndexed(t: Table, r: Register, before: seq<Option<nat>>, byOffset: seq<Option<nat>>)
    requires Indexed(t, before) && Entered(t + [r], |t|, before, byOffset, r.offset + r.size)
    ensures Indexed(t + [r], byOffset)
  {
    var t' := t + [r];
    forall byte: nat {:trigger At(byOffset, byte)}
      ensures IsLastAt(t', byte, At(byOffset, byte))
    {
      assert IsLastAt(t, byte, At(before, byte));
      assert Covers(t'[|t|], byte) <==> r.offset <= byte < r.offset + r.size;
      forall j | 0 <= j < |t|
        ensures Covers(t'[j], byte) <==> Covers(t[j], byte)
      {
      }
    }
  }

  /** If the new register agrees with the last one at each of its bytes, it agrees with all. */
  lemma NestedStep(t: Table, r: Register, before: seq<Option<nat>>)
    requires ParentsFirst(t) && ParentsFirst(t + [r]) && Nested(t) && Indexed(t, before)
    requires forall byte: nat {:trigger At(before, byte)} :: Covers(r, byte) && At(before, byte).Some? ==>
               At(before, byte).value < |t| && Root(t + [r], At(before, byte).value) == Root(t + [r], |t|)
    ensures Nested(t + [r])
  {
    var t' := t + [r];
    forall byte: nat, j, k {:trigger Covers(t'[j], byte), Covers(t'[k], byte)} |
      0 <= j < |t'| && 0 <= k < |t'| && Covers(t'[j], byte) && Covers(t'[k], byte)
      ensures Root(t', j) == Root(t', k)
    {
      NestedWith(t, r, before, byte, j);
      NestedWith(t, r, before, byte, k);
      if j < |t| && k < |t| {
        RootStays(t, r, j);
        RootStays(t, r, k);
        assert Covers(t[j], byte) && Covers(t[k], byte);
      }
    }
  }

  lemma NestedWith(t: Table, r: Register, before: seq<Option<nat>>, byte: nat, j: nat)
    requires ParentsFirst(t) && ParentsFirst(t + [r]) && Nested(t) && Indexed(t, before) && j < |t + [r]|
    requires forall byte: nat {:trigger At(before, byte)} :: Covers(r, byte) && At(before, byte).Some? ==>
               At(before, byte).value < |t| && Root(t + [r], At(before, byte).value) == Root(t + [r], |t|)
    ensures Covers(r, byte) && Covers((t + [r])[j], byte) ==> Root(t + [r], j) == Root(t + [r], |t|)
  {
    if j < |t| && Covers(r, byte) && Covers((t + [r])[j], byte) {
      assert IsLastAt(t, byte, At(before, byte)) && Covers(t[j], byte);
      var l := At(before, byte).value;
      assert Covers(t[l], byte);
      RootStays(t, r, j);
      RootStays(t, r, l);
    }
  }

  lemma NamedStep(t: Table, byName: map<string, Option<nat>>, r: Register)
    requires Named(t, byName) && forall k :: 0 <= k < |t| ==> t[k].name != r.name
    ensures r.name !in byName ==> Named(t + [r], byName[r.name := Some(|t|)])
    ensures r.name in byName && byName[r.name] == None ==> Named(t + [r], byName)
  {
  }

  class ArchBase {
    var registers: Table
    var regByName: map<string, Option<nat>>
    var regByOffset: seq<Option<nat>>

    ghost predicate Valid()
      reads this
    {
      ParentsFirst(registers) && Nested(registers) && Indexed(registers, regByOffset) && Named(registers, regByName)
    }

    constructor ()
      ensures Valid() && registers == [] && regByName == map[] && regByOffset == []
    {
      registers, regByName, regByOffset := [], map[], [];
    }

    /** The last register added that covers the byte at `offset`. */
    method RegisterAtStateOffset(offset: nat) returns (res: Option<nat>)
      requires Valid()
      ensures IsLastAt(registers, offset, res)
      ensures res.Some? ==>
                && res.value < |registers|
                && registers[res.value].offset <= offset < registers[res.value].offset + registers[res.value].size
      ensures forall k :: (if res.Some? then res.value + 1 else 0) <= k < |registers| ==>
                !(registers[k].offset <= offset < registers[k].offset + registers[k].size)
    {
      assert IsLastAt(registers, offset, At(regByOffset, offset));
      if offset >= |regByOffset| {
        res := None;
      } else {
        res := regByOffset[offset];
      }
      assert forall k :: 0 <= k < |registers| ==>
               (Covers(registers[k], offset) <==>
                registers[k].offset <= offset < registers[k].offset + registers[k].size);
    }

    /** The outermost register around register `k`. */
    method EnclosingRegister(k: nat) returns (res: nat)
      requires ParentsFirst(registers) && k < |registers|
      ensures res == Root(registers, k) && res < |registers| && registers[res].parent.None?
    {
      res := k;
      while registers[res].parent.Some?
        invariant res < |registers| && Root(registers, res) == Root(registers, k)
        decreases res
      {
        res := registers[res].parent.value;
      }
    }

    /** The register of that name. A name that is asked for before it is known is entered without a register. */
    method RegisterByName(name: string) returns (res: Option<nat>)
      requires Valid()
      modifies `regByName
      ensures Valid() && res == if name in old(regByName) then old(regByName)[name] else None
      ensures LookedUp(old(regByName), regByName, name)
      ensures Served(State(registers, old(regByName)), Lookup(name), State(registers, regByName))
    {
      if name !in regByName {
        regByName := regByName[name := None];
      }
      res := regByName[name];
    }

    /** Adds a register under `name`, unless the name was entered before: then nothing is added, and the result is what
        the name was entered with. `ok` is false exactly when the new register shares a byte with one of another
        outermost register. */
    method AddRegister(name: string, offset: nat, size: nat,
                       parentName: Option<string>) returns (res: Option<nat>, ok: bool)
      requires Valid()
      modifies this
      ensures name in old(regByName) ==> ok && res == old(regByName)[name] && registers == old(registers) && Valid()
                                         && regByName == old(regByName) && regByOffset == old(regByOffset)
      ensures name !in old(regByName) && ok ==>
                Valid() && res == Some(|old(registers)|) &&
                  Added(old(registers), old(regByName), registers, name, offset, size, parentName)
      ensures name !in old(regByName) ==> NamesAdded(old(regByName), regByName, name, parentName, |old(registers)|)
      ensures ok ==> Served(State(old(registers), old(regByName)), Add(name, offset, size, parentName),
                            State(registers, regByName))
      ensures name !in old(regByName) && !ok ==>
                && Added(old(registers), old(regByName), registers, name, offset, size, parentName)
                && ParentsFirst(registers) && !Nested(registers)
    {
      hide Nested, Indexed, Named, Entered, Agrees, NamesAdded, LookedUp;
      ok := true;
      if name in regByName {
        res := regByName[name];
        return;
      }
      ghost var t, before, names := registers, regByOffset, regByName;
      NewName(t, names, name);
      var parent: Option<nat> := None;
      if parentName.Some? {
        parent := RegisterByName(parentName.value);
        NamedBelow(t, names, parentName.value);
      }
      var r := Register(name, offset, size, parent);
      NamedStep(t, regByName, r);
      NamesStep(names, regByName, name, parentName, |t|);
      res := Some(|registers|);
      if name !in regByName {
        regByName := regByName[name := res];
      }
      registers := registers + [r];
      ok := EnterBytes(t, r);
      if ok {
        EnteredIsIndexed(t, r, before, regByOffset);
        NestedStep(t, r, before);
      }
    }

    /** Enters the last register at each of its bytes. */
    method EnterBytes(ghost t: Table, r: Register) returns (ok: bool)
      requires ParentsFirst(t) && ParentsFirst(t + [r]) && registers == t + [r] && Indexed(t, regByOffset)
      modifies `regByOffset
      ensures ok ==> Entered(registers, |t|, old(regByOffset), regByOffset, r.offset + r.size)
      ensures ok ==> Agrees(t, r, old(regByOffset), r.offset + r.size)
      ensures !ok ==> !Nested(registers)
    {
      ghost var before := regByOffset;
      var needed := r.offset + r.size;
      var k := |registers| - 1;
      if needed >= |regByOffset| {
        regByOffset := regByOffset + seq(needed - |regByOffset|, _ => None);
      }
      var root := EnclosingRegister(k);
      for i := r.offset to needed
        invariant registers == t + [r] && |regByOffset| >= needed
        invariant Entered(registers, |t|, before, regByOffset, i) && Agrees(t, r, before, i)
      {
        assert At(regByOffset, i) == At(before, i) && IsLastAt(t, i, At(before, i));
        if regByOffset[i].Some? {
          var other := EnclosingRegister(regByOffset[i].value);
          if other != root {
            ok := false;
            assert Covers(registers[regByOffset[i].value], i) && Covers(registers[k], i);
            return;
          }
        }
        EnterByte(t, r, before, regByOffset, i);
        regByOffset := regByOffset[i := Some(k)];
      }
      ok := true;
    }
  }

  /** The lookup of a name keeps all entries, and enters the name without a register if it is unknown. */
  ghost predicate LookedUp(before: map<string, Option<nat>>, after: map<string, Option<nat>>, name: string) {
    && (forall n :: n in after <==> n in before || n == name)
    && forall n :: n in after ==> after[n] == if n in before then before[n] else None
  }

  /** Every name that was entered before keeps its entry. The name of the parent is entered without a register if it is
      unknown, and then the new name, if it is not that of the parent, with the register `k`. */
  ghost predicate NamesAdded(before: map<string, Option<nat>>, after: map<string, Option<nat>>, name: string,
                             parentName: Option<string>, k: nat) {
    && (forall n :: n in after <==> n in before || n == name || parentName == Some(n))
    && (forall n :: n in before ==> n in after && after[n] == before[n])
    && forall n :: n in after && n !in before ==> after[n] == if parentName != Some(n) then Some(k) else None
  }

  lemma NamedBelow(t: Table, byName: map<string, Option<nat>>, name: string)
    requires Named(t, byName)
    ensures name in byName && byName[name].Some? ==> byName[name].value < |t|
  {
  }

  lemma NamesStep(before: map<string, Option<nat>>, mid: map<string, Option<nat>>, name: string,
                  parentName: Option<string>, k: nat)
    requires name !in before
    requires if parentName.Some? then LookedUp(before, mid, parentName.value) else mid == before
    ensures NamesAdded(before, if name in mid then mid else mid[name := Some(k)], name, parentName, k)
    ensures parentName.Some? ==> parentName.value in mid
    ensures name in mid ==> mid[name] == None
  {
  }

  // ---------------------------------------------------------------------------
  // Runs of calls

  /** What the table and the names are between two calls. */
  datatype State = State(table: Table, byName: map<string, Option<nat>>)

  datatype Request =
    | Lookup(name: string)
    | Add(name: string, offset: nat, size: nat, parentName: Option<string>)

  /** A call that does not fail: a lookup, or the addition of a register under a name that is entered or new. */
  ghost predicate Served(s: State, call: Request, s': State) {
    match call
    case Lookup(name) => s'.table == s.table && LookedUp(s.byName, s'.byName, name)
    case Add(name, offset, size, parentName) =>
      if name in s.byName then s' == s
      else
        && Added(s.table, s.byName, s'.table, name, offset, size, parentName)
        && NamesAdded(s.byName, s'.byName, name, parentName, |s.table|)
  }

  /** The states of an architecture along a run of calls, none of which adds a register as its own parent. */
  ghost predicate IsRun(states: seq<State>, calls: seq<Request>) {
    && |states| == |calls| + 1 && states[0] == State([], map[])
    && (forall i :: 0 <= i < |calls| ==> Served(states[i], calls[i], states[i + 1]))
    && forall i :: 0 <= i < |calls| && calls[i].Add? ==> calls[i].parentName != Some(calls[i].name)
  }

  /** Every register is found under its name, at its own place. */
  ghost predicate Findable(s: State) {
    forall k :: 0 <= k < |s.table| ==> s.table[k].name in s.byName && s.byName[s.table[k].name] == Some(k)
  }

  lemma ServedFindable(s: State, call: Request, s': State)
    requires Findable(s) && Served(s, call, s') && (call.Add? ==> call.parentName != Some(call.name))
    ensures Findable(s')
  {
  }

  /** On every run all registers are found under their names, and a register that was added once stays where it is. */
  lemma {:induction false} RunsFind(states: seq<State>, calls: seq<Request>)
    requires IsRun(states, calls)
    ensures Findable(states[|calls|])
    ensures forall i :: 0 <= i <= |calls| ==> states[i].table <= states[|calls|].table
  {
    var n := |calls|;
    if n > 0 {
      RunsFind(states[..n], calls[..n - 1]);
      ServedFindable(states[n - 1], calls[n - 1], states[n]);
      assert states[..n][n - 1].table <= states[n].table;
      forall i | 0 <= i < n
        ensures states[i].table <= states[n].table
      {
        assert states[..n][i].table <= states[..n][n - 1].table;
      }
    }
  }

  /** A name that is looked up before a register is added under it never gets one. */
  lemma {:induction false} LookedUpFirst(states: seq<State>, calls: seq<Request>, i: nat, name: string)
    requires IsRun(states, calls) && i <= |calls| && name in states[i].byName && states[i].byName[name] == None
    ensures name in states[|calls|].byName && states[|calls|].byName[name] == None
    decreases |calls|
  {
    var n := |calls|;
    if i < n {
      LookedUpFirst(states[..n], calls[..n - 1], i, name);
    }
  }

  /** The table has the new register, whose parent is the register of the parent's name if there is one. */
  ghost predicate Added(t: Table, byName: map<string, Option<nat>>, t': Table, name: string, offset: nat, size: nat,
                        parentName: Option<string>)
  {
    var parent := if parentName.Some? && parentName.value in byName then byName[parentName.value] else None;
    t' == t + [Register(name, offset, size, parent)]
  }

  /** Up to byte `i`, what is entered at the bytes of `r` lies in the outermost register of `r`. */
  ghost predicate Agrees(t: Table, r: Register, before: seq<Option<nat>>, i: nat)
    requires ParentsFirst(t + [r])
  {
    forall byte: nat {:trigger At(before, byte)} :: r.offset <= byte < i && At(before, byte).Some? ==>
      At(before, byte).value < |t| && Root(t + [r], At(before, byte).value) == Root(t + [r], |t|)
  }

  lemma EnterByte(t: Table, r: Register, before: seq<Option<nat>>, byOffset: seq<Option<nat>>, i: nat)
    requires r.offset <= i < |byOffset| && Entered(t + [r], |t|, before, byOffset, i)
    ensures Entered(t + [r], |t|, before, byOffset[i := Some(|t|)], i + 1)
  {
    forall byte: nat {:trigger At(byOffset[i := Some(|t|)], byte)}
      ensures At(byOffset[i := Some(|t|)], byte) == if r.offset <= byte < i + 1 then Some(|t|) else At(before, byte)
    {
      assert At(byOffset, byte) == if r.offset <= byte < i then Some(|t|) else At(before, byte);
    }
  }

  lemma NewName(t: Table, byName: map<string, Option<nat>>, name: string)
    requires Named(t, byName) && name !in byName
    ensures forall k :: 0 <= k < |t| ==> t[k].name != name
  {
  }
}
