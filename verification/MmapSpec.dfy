/**
 The host's MMAP range as a plain map from offset to buffer, with what each operation of the
 mapping manager does to it, what it answers, and which calls it makes to the host memory mapper.
 */
module MmapSpec {
  import opened Prelude

  const LAST_PAGE: nat := 0xffff_f000

  datatype Result<T, E> = Ok(value: T) | Err(error: E)

  datatype Mapping = Mapping(count: nat, addr: nat, rw: bool)

  datatype Entry = Entry(size: nat, registered: bool, mapping: Option<Mapping>)

  type Table = map<nat, Entry>

  /** A call to the host memory mapper that took effect. */
  datatype MapperCall = Add(addr: nat) | Del(addr: nat)

  /** `OffsetOverflow` stands for the panic at an overflow of the automatic offset. */
  datatype RegisterError = OffsetOccupied | EmptyBuffer | UnalignedOffset | OffsetOverflow

  datatype CreateError =
    | InvalidOffset
    | UnregisteredBuffer
    | SizeOutOfBounds
    | MappingFailure(code: int)
    | NonMatchingPermissions

  datatype RemoveError = NoSuchMapping

  /** Page-aligned 32-bit offsets; an entry stays only while registered or mapped; one address per buffer. */
  ghost predicate TableOk(t: Table) {
    && (forall o :: o in t ==> o <= LAST_PAGE && o % PAGE_SIZE == 0 && EntryOk(t[o]))
    && (forall o, p :: o in t && p in t && o != p && t[o].mapping.Some? && t[p].mapping.Some? ==>
          t[o].mapping.value.addr != t[p].mapping.value.addr)
  }

  predicate EntryOk(e: Entry) {
    && 0 < e.size < U32_END
    && (e.registered || e.mapping.Some?)
    && (e.mapping.Some? ==> e.mapping.value.count >= 1)
  }

  predicate MappedAt(t: Table, o: nat, addr: nat) {
    o in t && t[o].mapping.Some? && t[o].mapping.value.addr == addr
  }

  ghost predicate AddressInUse(t: Table, addr: nat) {
    exists o :: MappedAt(t, o, addr)
  }

  // ----- registration

  ghost predicate IsLast(t: Table, o: nat) {
    o in t && forall p :: p in t ==> p <= o
  }

  /** The offset chosen when the caller asks for none: the page after the last one, or the first page. */
  ghost predicate IsAutoOffset(t: Table, o: nat) {
    if t == map[] then o == 0 else exists last: nat :: IsLast(t, last) && o == last + PAGE_SIZE
  }

  function RegisterAt(t: Table, offset: nat, size: nat): (r: (Table, Result<nat, RegisterError>)) {
    if size == 0 then (t, Err(EmptyBuffer))
    else if offset % PAGE_SIZE != 0 then (t, Err(UnalignedOffset))
    else if offset in t then (t, Err(OffsetOccupied))
    else (t[offset := Entry(size, true, None)], Ok(offset))
  }

  function Unregister(t: Table, offset: nat): (r: (Table, bool)) {
    if offset !in t then (t, false)
    else if t[offset].mapping.None? then (t - {offset}, true)
    else (t[offset := t[offset].(registered := false)], true)
  }

  // ----- mapping

  /** `answer` is what the host mapper replies if it is asked. */
  function Create(t: Table, offset: nat, rw: bool, answer: Result<nat, int>)
    : (r: (Table, Result<(nat, nat), CreateError>, seq<MapperCall>))
  {
    if offset !in t then (t, Err(InvalidOffset), [])
    else
      var e := t[offset];
      if offset + e.size > U32_END then (t, Err(InvalidOffset), [])
      else if !e.registered then (t, Err(UnregisteredBuffer), [])
      else
        match e.mapping
        case None =>
          (match answer
           case Err(code) => (t, Err(MappingFailure(code)), [])
           case Ok(addr) => (t[offset := e.(mapping := Some(Mapping(1, addr, rw)))], Ok((addr, e.size)), [Add(addr)]))
        case Some(m) =>
          if m.rw != rw then (t, Err(NonMatchingPermissions), [])
          else (t[offset := e.(mapping := Some(m.(count := m.count + 1)))], Ok((m.addr, e.size)), [])
  }

  /** One mapping of the buffer at `o` goes away. */
  function RemoveAt(t: Table, o: nat): (r: (Table, bool))
    requires o in t && t[o].mapping.Some? && t[o].mapping.value.count >= 1
  {
    var m := t[o].mapping.value;
    if m.count > 1 then (t[o := t[o].(mapping := Some(m.(count := m.count - 1)))], true)
    else if t[o].registered then (t[o := t[o].(mapping := None)], false)
    else (t - {o}, false)
  }

  /** `r` is the outcome of removing a mapping at `addr` from `t`. */
  ghost predicate Removes(t: Table, addr: nat, t': Table, r: Result<bool, RemoveError>, calls: seq<MapperCall>)
    requires TableOk(t)
  {
    match r
    case Err(_) => !AddressInUse(t, addr) && t' == t && calls == []
    case Ok(more) =>
      exists o :: MappedAt(t, o, addr) && (t', more) == RemoveAt(t, o) && calls == (if more then [] else [Del(addr)])
  }

  // ----- the host mapper's view

  /** The addresses the mapper holds after `calls`, if each call makes sense where it is made. */
  ghost function Held(calls: seq<MapperCall>): (r: Option<set<nat>>) {
    if calls == [] then Some({})
    else
      var n := |calls| - 1;
      match Held(calls[..n])
      case None => None
      case Some(held) =>
        match calls[n]
        case Add(a) => if a in held then None else Some(held + {a})
        case Del(a) => if a in held then Some(held - {a}) else None
  }

  /** The mapper was told of exactly the addresses in use: one add per first mapping, one removal per last. */
  ghost predicate MapperAgrees(t: Table, calls: seq<MapperCall>) {
    && Held(calls).Some?
    && forall a :: a in Held(calls).value <==> AddressInUse(t, a)
  }

  /** An automatic offset that does not overflow always works. */
  lemma AutoOffsetFits(t: Table, o: nat, size: nat)
    requires TableOk(t) && IsAutoOffset(t, o) && o !in t && size > 0
    ensures RegisterAt(t, o, size).1 == Ok(o)
  {
  }

  // ----- when the operations succeed

  /** Each answer of a registration at a given offset, with its exact condition. */
  lemma RegisterIsExact(t: Table, offset: nat, size: nat)
    ensures var (t', r) := RegisterAt(t, offset, size);
            && (r == Err(EmptyBuffer) <==> size == 0)
            && (r == Err(UnalignedOffset) <==> size > 0 && offset % PAGE_SIZE != 0)
            && (r == Err(OffsetOccupied) <==> size > 0 && offset % PAGE_SIZE == 0 && offset in t)
            && (r.Ok? <==> size > 0 && offset % PAGE_SIZE == 0 && offset !in t)
            && (r.Ok? ==> r.value == offset && t' == t[offset := Entry(size, true, None)])
            && (r.Err? ==> t' == t)
  {
  }

  /** The buffer is registered and ends inside the 32-bit range. */
  predicate Mappable(t: Table, offset: nat) {
    offset in t && t[offset].registered && offset + t[offset].size <= U32_END
  }

  /** Each answer of a mapping request, with its exact condition, and what a successful one returns. */
  lemma CreateIsExact(t: Table, offset: nat, rw: bool, answer: Result<nat, int>)
    ensures var r := Create(t, offset, rw, answer).1;
            && (r.Ok? <==>
                  && Mappable(t, offset)
                  && (t[offset].mapping.None? ==> answer.Ok?)
                  && (t[offset].mapping.Some? ==> t[offset].mapping.value.rw == rw))
            && (r.Ok? ==>
                  && r.value.1 == t[offset].size
                  && r.value.0 == (if t[offset].mapping.Some? then t[offset].mapping.value.addr else answer.value))
            && (r == Err(InvalidOffset) <==> offset !in t || offset + t[offset].size > U32_END)
            && (r == Err(UnregisteredBuffer) <==>
                  offset in t && offset + t[offset].size <= U32_END && !t[offset].registered)
            && (r.Err? && r.error.MappingFailure? <==>
                  Mappable(t, offset) && t[offset].mapping.None? && answer.Err?)
            && (r.Err? && r.error.MappingFailure? ==> r.error.code == answer.error)
            && (r == Err(NonMatchingPermissions) <==>
                  Mappable(t, offset) && t[offset].mapping.Some? && t[offset].mapping.value.rw != rw)
  {
  }

  /** What a mapping request leaves of the buffer, and that it leaves the others alone. */
  lemma CreateChanges(t: Table, offset: nat, rw: bool, answer: Result<nat, int>)
    ensures var (t', r, _) := Create(t, offset, rw, answer);
            && (r.Err? ==> t' == t)
            && (r.Ok? ==>
                  && t'.Keys == t.Keys && (forall o :: o in t && o != offset ==> t'[o] == t[o])
                  && t'[offset].size == t[offset].size && t'[offset].registered
                  && var before := if t[offset].mapping.Some? then t[offset].mapping.value.count else 0;
                     t'[offset].mapping == Some(Mapping(before + 1, r.value.0, rw)))
  {
  }

  // ----- what the operations keep

  lemma RegisterKeeps(t: Table, offset: nat, size: nat)
    requires TableOk(t) && offset < U32_END && size < U32_END
    ensures TableOk(RegisterAt(t, offset, size).0)
    ensures forall a :: AddressInUse(RegisterAt(t, offset, size).0, a) <==> AddressInUse(t, a)
  {
    var t' := RegisterAt(t, offset, size).0;
    forall o, a
      ensures MappedAt(t', o, a) <==> MappedAt(t, o, a)
    {
    }
  }

  lemma UnregisterKeeps(t: Table, offset: nat)
    requires TableOk(t)
    ensures TableOk(Unregister(t, offset).0)
    ensures forall a :: AddressInUse(Unregister(t, offset).0, a) <==> AddressInUse(t, a)
  {
    var t' := Unregister(t, offset).0;
    forall o, a
      ensures MappedAt(t', o, a) <==> MappedAt(t, o, a)
    {
    }
  }

  /** Mapping with fresh host addresses keeps the range well formed and the mapper in step. */
  lemma CreateKeeps(t: Table, offset: nat, rw: bool, answer: Result<nat, int>, calls: seq<MapperCall>)
    requires TableOk(t) && MapperAgrees(t, calls)
    requires answer.Ok? ==> !AddressInUse(t, answer.value)
    ensures var (t', r, more) := Create(t, offset, rw, answer);
            TableOk(t') && MapperAgrees(t', calls + more) && r != Err(SizeOutOfBounds)
  {
    var (t', r, more) := Create(t, offset, rw, answer);
    assert more == [] ==> calls + more == calls;
    if more != [] {
      assert (calls + more)[..|calls|] == calls;
      forall o, a
        ensures MappedAt(t', o, a) <==> MappedAt(t, o, a) || (o == offset && a == answer.value)
      {
      }
      assert MappedAt(t', offset, answer.value);
      assert forall o :: o in t && t[o].mapping.Some? ==> MappedAt(t, o, t[o].mapping.value.addr);
    } else {
      forall o, a
        ensures MappedAt(t', o, a) <==> MappedAt(t, o, a)
      {
      }
    }
  }

  lemma CreateTableOk(t: Table, offset: nat, rw: bool, answer: Result<nat, int>)
    requires TableOk(t) && (answer.Ok? ==> !AddressInUse(t, answer.value))
    ensures TableOk(Create(t, offset, rw, answer).0)
  {
    assert forall o :: o in t && t[o].mapping.Some? ==> MappedAt(t, o, t[o].mapping.value.addr);
  }

  lemma RemoveTableOk(t: Table, o: nat)
    requires TableOk(t) && o in t && t[o].mapping.Some?
    ensures TableOk(RemoveAt(t, o).0)
  {
  }

  lemma RemoveKeeps(t: Table, o: nat, addr: nat, calls: seq<MapperCall>)
    requires TableOk(t) && MapperAgrees(t, calls) && MappedAt(t, o, addr)
    ensures var (t', more) := RemoveAt(t, o);
            && TableOk(t')
            && MapperAgrees(t', calls + (if more then [] else [Del(addr)]))
            && (!more <==> !AddressInUse(t', addr))
  {
    var (t', more) := RemoveAt(t, o);
    var calls' := calls + (if more then [] else [Del(addr)]);
    if more {
      assert calls' == calls;
      forall p, a
        ensures MappedAt(t', p, a) <==> MappedAt(t, p, a)
      {
      }
    } else {
      assert calls'[..|calls|] == calls;
      forall p, a
        ensures MappedAt(t', p, a) <==> MappedAt(t, p, a) && p != o
      {
      }
      assert forall p, a :: MappedAt(t, p, a) && p != o ==> a != addr;
    }
  }

  /** Unmapping takes one from the count; a registered buffer outlives its last mapping, another one does not. */
  lemma RemoveChanges(t: Table, o: nat, addr: nat)
    requires TableOk(t) && MappedAt(t, o, addr)
    ensures var (t', more) := RemoveAt(t, o);
            && (more <==> t[o].mapping.value.count > 1)
            && (forall p :: p != o ==> (p in t' <==> p in t) && (p in t ==> t'[p] == t[p]))
            && (o in t' <==> more || t[o].registered)
            && (o in t' ==> t'[o].size == t[o].size && t'[o].registered == t[o].registered)
            && (o in t' ==>
                  if more
                  then && MappedAt(t', o, addr) && t'[o].mapping.value.rw == t[o].mapping.value.rw
                       && t'[o].mapping.value.count == t[o].mapping.value.count - 1
                  else t'[o].mapping.None?)
  {
  }

  // ----- buffers that were unregistered while mapped

  /** The buffer is no longer registered; only its mappings keep it in the range. */
  predicate Orphaned(t: Table, o: nat) {
    o in t && !t[o].registered
  }

  /** The buffers that the range is documented to consist of. */
  function RegisteredPart(t: Table): (r: Table) {
    map o | o in t && t[o].registered :: t[o]
  }

  /**
   Unregistering answers whether a buffer was registered, and an aligned offset is refused as occupied
   whether a buffer is registered there, each if and only if the offset is not orphaned.
   */
  lemma OrphansAreTheException(t: Table, o: nat, size: nat)
    requires size > 0 && o % PAGE_SIZE == 0
    ensures (Unregister(t, o).1 == (o in RegisteredPart(t))) <==> !Orphaned(t, o)
    ensures (RegisterAt(t, o, size).1.Err? == (o in RegisteredPart(t))) <==> !Orphaned(t, o)
  {
  }

  /**
   The automatic offset is the one that follows the registered buffers if and only if the last
   buffer is registered.
   */
  lemma AutoOffsetSkipsOrphans(t: Table, last: nat)
    requires IsLast(t, last)
    ensures (forall o: nat :: IsAutoOffset(t, o) <==> IsAutoOffset(RegisteredPart(t), o)) <==> !Orphaned(t, last)
  {
    var live := RegisteredPart(t);
    assert forall p: nat :: IsLast(t, p) ==> p == last;
    assert IsAutoOffset(t, last + PAGE_SIZE);
    if Orphaned(t, last) {
      assert !IsAutoOffset(live, last + PAGE_SIZE) by {
        assert forall p: nat :: IsLast(live, p) ==> p in t && p != last;
      }
    } else {
      assert IsLast(live, last) && live != map[];
      assert forall p: nat :: IsLast(live, p) ==> p == last;
    }
  }

  /**
   The orphans of a table are exactly the buffers that were unregistered while mapped and have not
   been unmapped since.
   */
  lemma UnregisterOrphans(t: Table, o: nat, p: nat)
    requires TableOk(t)
    ensures Orphaned(Unregister(t, o).0, p) <==> Orphaned(t, p) || (p == o && o in t && t[o].mapping.Some?)
  {
  }

  lemma OnlyUnregisterOrphans(t: Table, o: nat, p: nat, size: nat, rw: bool, answer: Result<nat, int>)
    requires TableOk(t)
    ensures Orphaned(RegisterAt(t, o, size).0, p) <==> Orphaned(t, p)
    ensures Orphaned(Create(t, o, rw, answer).0, p) <==> Orphaned(t, p)
    ensures o in t && t[o].mapping.Some? ==>
              (Orphaned(RemoveAt(t, o).0, p) <==> Orphaned(t, p) && (p != o || t[o].mapping.value.count > 1))
  {
  }

  /** A run: a buffer is registered, mapped, unregistered, and then unregistered and registered again. */
  lemma OrphanStaysOccupied(o: nat, size: nat, rw: bool, addr: nat)
    requires o % PAGE_SIZE == 0 && o + size <= U32_END && size > 0
    ensures var t1 := RegisterAt(map[], o, size).0;
            var t2 := Create(t1, o, rw, Ok(addr)).0;
            var (t3, first) := Unregister(t2, o);
            && first && Orphaned(t3, o)
            && Unregister(t3, o) == (t3, true)
            && RegisterAt(t3, o, size).1 == Err(OffsetOccupied)
  {
    var t1 := RegisterAt(map[], o, size).0;
    var t2 := Create(t1, o, rw, Ok(addr)).0;
    var t3 := Unregister(t2, o).0;
    assert t3[o := t3[o].(registered := false)] == t3;
  }
}
