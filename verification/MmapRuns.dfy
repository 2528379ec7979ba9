/**
 Sequences of operations on the host's MMAP range: which access mode the live mappings of an address
 have, and which size a mapping reports.
 */
module MmapRuns {
  import opened Prelude
  import opened MmapSpec

  datatype Op =
    | DoRegister(offset: nat, size: nat)
    | DoUnregister(offset: nat)
    | DoCreate(offset: nat, rw: bool, answer: Result<nat, int>)
    | DoRemove(addr: nat)

  /**
   `asked` has the access modes of the successful requests for each address since it was first mapped;
   `sizes` the size of the last successful registration at each offset.
   */
  datatype State = State(t: Table, asked: map<nat, seq<bool>>, sizes: map<nat, nat>)

  /** Offsets and sizes are 32-bit numbers, and the host mapper returns addresses that are not in use. */
  ghost predicate CanDo(s: State, op: Op) {
    match op
    case DoRegister(offset, size) => offset < U32_END && size < U32_END
    case DoCreate(_, _, answer) => answer.Ok? ==> !AddressInUse(s.t, answer.value)
    case _ => true
  }

  function Asked(asked: map<nat, seq<bool>>, addr: nat, rw: bool, first: bool): (r: map<nat, seq<bool>>) {
    asked[addr := (if first || addr !in asked then [] else asked[addr]) + [rw]]
  }

  ghost function Do(s: State, op: Op): (r: State)
    requires TableOk(s.t)
  {
    match op
    case DoRegister(offset, size) =>
      var (t', r) := RegisterAt(s.t, offset, size);
      if r.Ok? then State(t', s.asked, s.sizes[offset := size]) else s
    case DoUnregister(offset) => s.(t := Unregister(s.t, offset).0)
    case DoCreate(offset, rw, answer) =>
      var (t', r, _) := Create(s.t, offset, rw, answer);
      if r.Ok? then s.(t := t', asked := Asked(s.asked, r.value.0, rw, s.t[offset].mapping.None?)) else s
    case DoRemove(addr) =>
      if o :| MappedAt(s.t, o, addr) then s.(t := RemoveAt(s.t, o).0) else s
  }

  /** All requests that led to the mapping had its access mode, and the size is that of the registration. */
  ghost predicate EntryTrue(s: State, o: nat)
    requires o in s.t
  {
    && o in s.sizes && s.t[o].size == s.sizes[o]
    && (s.t[o].mapping.Some? ==>
          var m := s.t[o].mapping.value;
          && m.addr in s.asked && 1 <= m.count <= |s.asked[m.addr]|
          && forall k :: 0 <= k < |s.asked[m.addr]| ==> s.asked[m.addr][k] == m.rw)
  }

  ghost predicate Inv(s: State) {
    TableOk(s.t) && forall o :: o in s.t ==> EntryTrue(s, o)
  }

  lemma RegisterKeepsTruth(s: State, offset: nat, size: nat)
    requires Inv(s) && offset < U32_END && size < U32_END
    ensures Inv(Do(s, DoRegister(offset, size)))
  {
    RegisterKeeps(s.t, offset, size);
    RegisterIsExact(s.t, offset, size);
    var s' := Do(s, DoRegister(offset, size));
    forall o | o in s'.t
      ensures EntryTrue(s', o)
    {
      if o in s.t {
        assert EntryTrue(s, o);
      }
    }
  }

  lemma UnregisterKeepsTruth(s: State, offset: nat)
    requires Inv(s)
    ensures Inv(Do(s, DoUnregister(offset)))
  {
    UnregisterKeeps(s.t, offset);
    var s' := Do(s, DoUnregister(offset));
    forall o | o in s'.t
      ensures EntryTrue(s', o)
    {
      assert EntryTrue(s, o);
    }
  }

  lemma CreateKeepsTruth(s: State, offset: nat, rw: bool, answer: Result<nat, int>)
    requires Inv(s) && (answer.Ok? ==> !AddressInUse(s.t, answer.value))
    ensures Inv(Do(s, DoCreate(offset, rw, answer)))
  {
    CreateIsExact(s.t, offset, rw, answer);
    CreateChanges(s.t, offset, rw, answer);
    var s' := Do(s, DoCreate(offset, rw, answer));
    var r := Create(s.t, offset, rw, answer).1;
    if r.Ok? {
      CreateTableOk(s.t, offset, rw, answer);
      assert EntryTrue(s, offset);
      forall o | o in s'.t
        ensures EntryTrue(s', o)
      {
        assert EntryTrue(s, o);
        assert o != offset && s.t[o].mapping.Some? ==> MappedAt(s.t, o, s.t[o].mapping.value.addr);
        assert s.t[offset].mapping.Some? ==> MappedAt(s.t, offset, s.t[offset].mapping.value.addr);
      }
    }
  }

  lemma RemoveKeepsTruth(s: State, addr: nat)
    requires Inv(s)
    ensures Inv(Do(s, DoRemove(addr)))
  {
    var s' := Do(s, DoRemove(addr));
    if o :| MappedAt(s.t, o, addr) {
      assert forall p :: MappedAt(s.t, p, addr) ==> p == o;
      RemoveTableOk(s.t, o);
      forall p | p in s'.t
        ensures EntryTrue(s', p)
      {
        assert EntryTrue(s, p);
      }
    }
  }

  lemma DoKeeps(s: State, op: Op)
    requires Inv(s) && CanDo(s, op)
    ensures Inv(Do(s, op))
  {
    match op
    case DoRegister(offset, size) => RegisterKeepsTruth(s, offset, size);
    case DoUnregister(offset) => UnregisterKeepsTruth(s, offset);
    case DoCreate(offset, rw, answer) => CreateKeepsTruth(s, offset, rw, answer);
    case DoRemove(addr) => RemoveKeepsTruth(s, addr);
  }

  ghost predicate Run(s: State, ops: seq<Op>)
    decreases |ops|
  {
    TableOk(s.t) && (ops != [] ==> CanDo(s, ops[0]) && Run(Do(s, ops[0]), ops[1..]))
  }

  ghost function After(s: State, ops: seq<Op>): (r: State)
    requires Run(s, ops)
    decreases |ops|
  {
    if ops == [] then s else After(Do(s, ops[0]), ops[1..])
  }

  lemma {:induction false} InvariantOverRuns(s: State, ops: seq<Op>)
    requires Inv(s) && Run(s, ops)
    ensures Inv(After(s, ops))
    decreases |ops|
  {
    if ops != [] {
      DoKeeps(s, ops[0]);
      InvariantOverRuns(Do(s, ops[0]), ops[1..]);
    }
  }

  /**
   Over any operations from an empty range: all requests that the live mappings of an address go back to
   asked for the same access, which is the one that the address is mapped with; and a request that
   succeeds reports the size given at the registration.
   */
  lemma AccessAndSize(ops: seq<Op>, offset: nat, rw: bool, answer: Result<nat, int>)
    requires Run(State(map[], map[], map[]), ops)
    ensures var v := After(State(map[], map[], map[]), ops);
            && (forall o, addr :: MappedAt(v.t, o, addr) ==>
                  && addr in v.asked && v.t[o].mapping.value.count <= |v.asked[addr]|
                  && forall k :: 0 <= k < |v.asked[addr]| ==> v.asked[addr][k] == v.t[o].mapping.value.rw)
            && (Create(v.t, offset, rw, answer).1.Ok? ==>
                  offset in v.sizes && Create(v.t, offset, rw, answer).1.value.1 == v.sizes[offset])
  {
    var s := State(map[], map[], map[]);
    InvariantOverRuns(s, ops);
    var v := After(s, ops);
    CreateIsExact(v.t, offset, rw, answer);
    forall o, addr | MappedAt(v.t, o, addr)
      ensures addr in v.asked && v.t[o].mapping.value.count <= |v.asked[addr]|
      ensures forall k :: 0 <= k < |v.asked[addr]| ==> v.asked[addr][k] == v.t[o].mapping.value.rw
    {
      assert EntryTrue(v, o);
    }
    if Create(v.t, offset, rw, answer).1.Ok? {
      assert EntryTrue(v, offset);
    }
  }
}
