/**
 The mapping manager itself: a vector kept sorted by offset, searched by bisection, with the
 reference count of each mapping stored in the vector. Its operations are proved to act on the map
 of `MmapSpec` that the vector represents.
 */
module MmapManager {
  import opened Prelude
  import opened MmapSpec

  /** An element of the vector. */
  datatype Buffer = Buffer(offset: nat, size: nat, registered: bool, mapping: Option<Mapping>)

  function EntryOf(b: Buffer): (e: Entry) {
    Entry(b.size, b.registered, b.mapping)
  }

  predicate Sorted(bs: seq<Buffer>) {
    forall i, j :: 0 <= i < j < |bs| ==> bs[i].offset < bs[j].offset
  }

  /** The vector contains the buffer `b`, wherever it is. */
  predicate Has(bs: seq<Buffer>, o: nat, e: Entry) {
    exists i :: 0 <= i < |bs| && bs[i].offset == o && EntryOf(bs[i]) == e
  }

  /** The vector holds exactly the entries of the map. */
  ghost predicate Represents(bs: seq<Buffer>, t: Table) {
    && (forall i :: 0 <= i < |bs| ==> bs[i].offset in t && t[bs[i].offset] == EntryOf(bs[i]))
    && (forall o :: o in t ==> Has(bs, o, t[o]))
  }

  function InsertAt(bs: seq<Buffer>, k: nat, b: Buffer): (r: seq<Buffer>)
    requires k <= |bs|
    ensures |r| == |bs| + 1
    ensures forall i :: 0 <= i < |r| ==> r[i] == if i < k then bs[i] else if i == k then b else bs[i - 1]
  {
    bs[..k] + [b] + bs[k..]
  }

  function RemoveIndex(bs: seq<Buffer>, k: nat): (r: seq<Buffer>)
    requires k < |bs|
    ensures |r| == |bs| - 1
    ensures forall i :: 0 <= i < |r| ==> r[i] == if i < k then bs[i] else bs[i + 1]
  {
    bs[..k] + bs[k + 1..]
  }

  lemma InsertSorted(bs: seq<Buffer>, k: nat, b: Buffer)
    requires Sorted(bs) && k <= |bs|
    requires forall i :: 0 <= i < k ==> bs[i].offset < b.offset
    requires forall i :: k <= i < |bs| ==> b.offset < bs[i].offset
    ensures Sorted(InsertAt(bs, k, b))
  {
  }

  lemma InsertRepresents(bs: seq<Buffer>, t: Table, k: nat, b: Buffer)
    requires Represents(bs, t) && k <= |bs| && b.offset !in t
    ensures Represents(InsertAt(bs, k, b), t[b.offset := EntryOf(b)])
  {
    var bs' := InsertAt(bs, k, b);
    var t' := t[b.offset := EntryOf(b)];
    forall o | o in t'
      ensures Has(bs', o, t'[o])
    {
      if o == b.offset {
        assert bs'[k] == b;
      } else {
        assert Has(bs, o, t[o]);
        var i :| 0 <= i < |bs| && bs[i].offset == o && EntryOf(bs[i]) == t[o];
        var i' := if i < k then i else i + 1;
        assert bs'[i'] == bs[i];
      }
    }
  }

  lemma RemoveSorted(bs: seq<Buffer>, k: nat)
    requires Sorted(bs) && k < |bs|
    ensures Sorted(RemoveIndex(bs, k))
  {
  }

  lemma RemoveHolds(bs: seq<Buffer>, t: Table, k: nat, o: nat)
    requires Represents(bs, t) && k < |bs| && o in t && o != bs[k].offset
    ensures Has(RemoveIndex(bs, k), o, t[o])
  {
    assert Has(bs, o, t[o]);
    var i :| 0 <= i < |bs| && bs[i].offset == o && EntryOf(bs[i]) == t[o];
    var i' := if i < k then i else i - 1;
    assert RemoveIndex(bs, k)[i'] == bs[i];
  }

  lemma RemoveRepresents(bs: seq<Buffer>, t: Table, k: nat)
    requires Sorted(bs) && Represents(bs, t) && k < |bs|
    ensures Sorted(RemoveIndex(bs, k)) && Represents(RemoveIndex(bs, k), t - {bs[k].offset})
  {
    RemoveSorted(bs, k);
    var bs' := RemoveIndex(bs, k);
    var t' := t - {bs[k].offset};
    forall i | 0 <= i < |bs'|
      ensures bs'[i].offset in t' && t'[bs'[i].offset] == EntryOf(bs'[i])
    {
      var j := if i < k then i else i + 1;
      assert bs'[i] == bs[j] && bs[j].offset != bs[k].offset;
    }
    forall o | o in t'
      ensures Has(bs', o, t'[o])
    {
      RemoveHolds(bs, t, k, o);
    }
  }

  lemma UpdateRepresents(bs: seq<Buffer>, t: Table, k: nat, b: Buffer)
    requires Sorted(bs) && Represents(bs, t) && k < |bs| && b.offset == bs[k].offset
    ensures Sorted(bs[k := b]) && Represents(bs[k := b], t[b.offset := EntryOf(b)])
  {
    var bs' := bs[k := b];
    var t' := t[b.offset := EntryOf(b)];
    forall o | o in t'
      ensures Has(bs', o, t'[o])
    {
      if o == b.offset {
        assert bs'[k] == b;
      } else {
        assert Has(bs, o, t[o]);
        var i :| 0 <= i < |bs| && bs[i].offset == o && EntryOf(bs[i]) == t[o];
        assert bs'[i] == bs[i];
      }
    }
  }

  class MmapMappingManager {
    var buffers: seq<Buffer>
    /** The calls made to the host mapper so far. */
    var calls: seq<MapperCall>
    ghost var table: Table
    /** Whether arithmetic overflow panics; otherwise it wraps around. */
    const overflowChecks: bool

    /** The vector is sorted and represents the map. */
    ghost predicate Backed()
      reads this
    {
      Sorted(buffers) && Represents(buffers, table)
    }

    ghost predicate Valid()
      reads this
    {
      Backed() && TableOk(table) && MapperAgrees(table, calls)
    }

    constructor (overflowChecks: bool)
      ensures Valid() && table == map[] && calls == [] && this.overflowChecks == overflowChecks
    {
      buffers, calls, table := [], [], map[];
      this.overflowChecks := overflowChecks;
    }

    // The three ways in which the vector changes.

    method Insert(index: nat, b: Buffer)
      requires Backed() && index <= |buffers| && b.offset !in table
      requires forall i :: 0 <= i < index ==> buffers[i].offset < b.offset
      requires forall i :: index <= i < |buffers| ==> b.offset < buffers[i].offset
      modifies this`buffers, this`table
      ensures Backed() && table == old(table)[b.offset := EntryOf(b)]
    {
      InsertSorted(buffers, index, b);
      InsertRepresents(buffers, table, index, b);
      buffers := InsertAt(buffers, index, b);
      table := table[b.offset := EntryOf(b)];
    }

    method Replace(index: nat, b: Buffer)
      requires Backed() && index < |buffers| && b.offset == buffers[index].offset
      modifies this`buffers, this`table
      ensures Backed() && table == old(table)[b.offset := EntryOf(b)]
      ensures buffers == old(buffers)[index := b]
    {
      UpdateRepresents(buffers, table, index, b);
      buffers := buffers[index := b];
      table := table[b.offset := EntryOf(b)];
    }

    method Remove(index: nat)
      requires Backed() && index < |buffers|
      modifies this`buffers, this`table
      ensures Backed() && table == old(table) - {old(buffers)[index].offset}
    {
      RemoveRepresents(buffers, table, index);
      ghost var t := table - {buffers[index].offset};
      buffers := RemoveIndex(buffers, index);
      table := t;
    }

    /** Bisection: the index of `offset`, or where it would have to be inserted. */
    method BinarySearch(offset: nat) returns (found: bool, index: nat)
      requires Sorted(buffers)
      ensures found ==> index < |buffers| && buffers[index].offset == offset
      ensures !found ==> index <= |buffers|
      ensures !found ==> forall i :: 0 <= i < index ==> buffers[i].offset < offset
      ensures !found ==> forall i :: index <= i < |buffers| ==> offset < buffers[i].offset
    {
      var low, high := 0, |buffers|;
      while low < high
        invariant 0 <= low <= high <= |buffers|
        invariant forall i :: 0 <= i < low ==> buffers[i].offset < offset
        invariant forall i :: high <= i < |buffers| ==> offset < buffers[i].offset
      {
        var mid := low + (high - low) / 2;
        if buffers[mid].offset < offset {
          low := mid + 1;
        } else if offset < buffers[mid].offset {
          high := mid;
        } else {
          return true, mid;
        }
      }
      return false, low;
    }

    /** The search agrees with the map. */
    method Lookup(offset: nat) returns (found: bool, index: nat)
      requires Backed()
      ensures found <==> offset in table
      ensures found ==> index < |buffers| && buffers[index].offset == offset && table[offset] == EntryOf(buffers[index])
      ensures !found ==> index <= |buffers|
      ensures !found ==> forall i :: 0 <= i < index ==> buffers[i].offset < offset
      ensures !found ==> forall i :: index <= i < |buffers| ==> offset < buffers[i].offset
    {
      found, index := BinarySearch(offset);
    }

    method RegisterBufferByOffset(offset: nat, size: nat) returns (r: Result<nat, RegisterError>)
      requires Valid() && offset < U32_END && size < U32_END
      modifies this
      ensures Valid() && calls == old(calls)
      ensures (table, r) == RegisterAt(old(table), offset, size)
      ensures r.Ok? <==> size > 0 && offset % PAGE_SIZE == 0 && offset !in old(table)
    {
      if size == 0 {
        return Err(EmptyBuffer);
      }
      if offset % PAGE_SIZE != 0 {
        return Err(UnalignedOffset);
      }
      var found, index := Lookup(offset);
      if found {
        return Err(OffsetOccupied);
      }
      RegisterKeeps(table, offset, size);
      Insert(index, Buffer(offset, size, true, None));
      r := Ok(offset);
    }

    /**
     Without an offset, the page after the last buffer is used. After the last page of the range the
     offset overflows, before anything else is looked at: a panic, or page 0 again.
     */
    method RegisterBuffer(offset: Option<nat>, size: nat) returns (r: Result<nat, RegisterError>)
      requires Valid() && size < U32_END && (offset.Some? ==> offset.value < U32_END)
      modifies this
      ensures Valid() && calls == old(calls)
      ensures offset.Some? ==> (table, r) == RegisterAt(old(table), offset.value, size)
      ensures offset.None? && !IsLast(old(table), LAST_PAGE) ==>
                exists o ::
                  IsAutoOffset(old(table), o) && o !in old(table) && (table, r) == RegisterAt(old(table), o, size)
      ensures offset.None? && IsLast(old(table), LAST_PAGE) && !overflowChecks ==>
                (table, r) == RegisterAt(old(table), 0, size)
      ensures r == Err(OffsetOverflow) <==> offset.None? && IsLast(old(table), LAST_PAGE) && overflowChecks
      ensures r == Err(OffsetOverflow) ==> table == old(table)
    {
      var chosen := 0;
      match offset {
        case Some(o) => chosen := o;
        case None =>
          if buffers != [] {
            var last := buffers[|buffers| - 1].offset;
            LastIsGreatest();
            if last < LAST_PAGE {
              chosen := last + PAGE_SIZE;
            } else if overflowChecks {
              return Err(OffsetOverflow);
            }
          } else {
            assert table == map[];
          }
          assert !IsLast(table, LAST_PAGE) ==> IsAutoOffset(table, chosen) && chosen !in table;
      }
      r := RegisterBufferByOffset(chosen, size);
    }

    /**
     A buffer at the last page, then two automatic ones: the first panics, whatever its size, or takes
     page 0; then page 0 is taken and the second is refused.
     */
    static method PastLastPage(overflowChecks: bool, size: nat)
      returns (first: Result<nat, RegisterError>, second: Result<nat, RegisterError>)
      requires size < U32_END
      ensures overflowChecks ==> first == second == Err(OffsetOverflow)
      ensures !overflowChecks && size > 0 ==> first == Ok(0) && second == Err(OffsetOccupied)
      ensures !overflowChecks && size == 0 ==> first == second == Err(EmptyBuffer)
    {
      var m := new MmapMappingManager(overflowChecks);
      var last := m.RegisterBuffer(Some(LAST_PAGE), 1);
      assert IsLast(m.table, LAST_PAGE);
      first := m.RegisterBuffer(None, size);
      assert IsLast(m.table, LAST_PAGE);
      second := m.RegisterBuffer(None, size);
    }

    lemma LastIsGreatest()
      requires Valid() && buffers != []
      ensures IsLast(table, buffers[|buffers| - 1].offset)
    {
    }

    method UnregisterBuffer(offset: nat) returns (r: bool)
      requires Valid()
      modifies this
      ensures Valid() && calls == old(calls)
      ensures (table, r) == Unregister(old(table), offset)
    {
      var found, index := Lookup(offset);
      if !found {
        return false;
      }
      UnregisterKeeps(table, offset);
      var b := buffers[index].(registered := false);
      Replace(index, b);
      if b.mapping.None? {
        Remove(index);
        assert table == old(table) - {offset};
      }
      r := true;
    }

    /** `answer` is the host mapper's reply, used only when the buffer has no mapping yet. */
    method CreateMapping(offset: nat, rw: bool, answer: Result<nat, int>) returns (r: Result<(nat, nat), CreateError>)
      requires Valid()
      requires answer.Ok? ==> !AddressInUse(table, answer.value)
      modifies this
      ensures Valid() && r != Err(SizeOutOfBounds)
      ensures var (t', res, more) := Create(old(table), offset, rw, answer);
              table == t' && r == res && calls == old(calls) + more
      ensures r == Err(NonMatchingPermissions) <==>
                && Mappable(old(table), offset) && old(table)[offset].mapping.Some?
                && old(table)[offset].mapping.value.rw != rw
    {
      CreateKeeps(table, offset, rw, answer, calls);
      assert calls + [] == calls;
      var found, index := Lookup(offset);
      if !found {
        return Err(InvalidOffset);
      }
      var b := buffers[index];
      if b.offset + (b.size - 1) >= U32_END {
        return Err(InvalidOffset);
      }
      if !b.registered {
        return Err(UnregisteredBuffer);
      }
      var addr;
      match b.mapping {
        case None =>
          match answer {
            case Err(code) => return Err(MappingFailure(code));
            case Ok(a) =>
              addr := a;
              calls := calls + [Add(a)];
              b := b.(mapping := Some(Mapping(1, a, rw)));
          }
        case Some(m) =>
          if m.rw != rw {
            return Err(NonMatchingPermissions);
          }
          addr := m.addr;
          b := b.(mapping := Some(m.(count := m.count + 1)));
      }
      Replace(index, b);
      r := Ok((addr, b.size));
    }

    /** Scans the vector for the mapping at `addr`. */
    method FindMapping(addr: nat) returns (index: nat)
      requires Valid()
      ensures index <= |buffers|
      ensures index < |buffers| ==>
                MappedAt(table, buffers[index].offset, addr) && table[buffers[index].offset] == EntryOf(buffers[index])
      ensures index == |buffers| ==> !AddressInUse(table, addr)
    {
      index := 0;
      while index < |buffers|
        invariant index <= |buffers|
        invariant forall i :: 0 <= i < index ==> !(buffers[i].mapping.Some? && buffers[i].mapping.value.addr == addr)
      {
        if buffers[index].mapping.Some? && buffers[index].mapping.value.addr == addr {
          return;
        }
        index := index + 1;
      }
    }

    /** Drops one mapping of the buffer at `index`; the buffer goes too when nothing keeps it. */
    method DropMapping(index: nat) returns (more: bool)
      requires Backed() && index < |buffers| && buffers[index].mapping.Some? && buffers[index].mapping.value.count >= 1
      modifies this`buffers, this`table
      ensures Backed() && (table, more) == RemoveAt(old(table), old(buffers)[index].offset)
    {
      var b := buffers[index];
      var m := b.mapping.value;
      if m.count > 1 {
        Replace(index, b.(mapping := Some(m.(count := m.count - 1))));
        return true;
      }
      Replace(index, b.(mapping := None));
      if !b.registered {
        Remove(index);
        assert table == old(table) - {b.offset};
      }
      more := false;
    }

    /** Returns whether other mappings of the buffer remain. */
    method RemoveMapping(addr: nat) returns (r: Result<bool, RemoveError>)
      requires Valid()
      modifies this
      ensures Valid() && old(calls) <= calls
      ensures Removes(old(table), addr, table, r, calls[|old(calls)|..])
    {
      var index := FindMapping(addr);
      if index == |buffers| {
        return Err(NoSuchMapping);
      }
      ghost var o := buffers[index].offset;
      RemoveKeeps(table, o, addr, calls);
      var more := DropMapping(index);
      assert calls + [] == calls;
      if !more {
        calls := calls + [Del(addr)];
      }
      r := Ok(more);
      assert MappedAt(old(table), o, addr) && (table, more) == RemoveAt(old(table), o);
    }

    method IsMapped(offset: nat) returns (r: bool)
      requires Valid()
      ensures r <==> exists addr :: MappedAt(table, offset, addr)
    {
      if offset >= U32_END {
        return false;
      }
      var found, index := Lookup(offset);
      if !found {
        return false;
      }
      r := buffers[index].mapping.Some?;
      assert r ==> MappedAt(table, offset, buffers[index].mapping.value.addr);
    }
  }
}
