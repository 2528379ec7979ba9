/**
 Guest and host together: the driver's mapping objects and exports on one side, the reference
 counts of the host's mapping manager on the other.

 Every command is sent and answered under the device lock, so a method that sends commands is one
 step; dropping a reference to a mapping object happens outside that lock and is a step of its own.
 The host is the mapping manager of `MmapSpec`; it gives fresh addresses.
 */
module MappingConservation {
  import opened Prelude
  import opened MmapSpec
  import opened MmapManager

  const U64_MAX: nat := 0xffff_ffff_ffff_ffff

  /** The shared-memory region that holds the host's mappings. */
  datatype Region = Region(addr: nat, len: nat)

  /** A `virtio_media_mapping`; with no reference left it is about to be closed. */
  datatype MapObject = MapObject(refs: nat, addr: nat)

  /** What EXPBUF is asked for: a plane of a buffer of a session's queue, and the access mode. */
  datatype ExportKey = ExportKey(session: nat, queue: nat, index: nat, plane: nat, mode: nat)

  /** A `virtio_media_export`; `refs` counts the references to its file. With none left it is about to be released. */
  datatype Export = Export(key: ExportKey, addr: nat, refs: nat)

  /** A command sent to the host. */
  datatype Command = SendMmap(offset: nat) | SendMunmap(addr: nat)

  /** What the gate in front of REQBUFS answers. */
  datatype GateReply = NoDevice | Busy | Passed

  function PageAlign(n: nat): (r: nat)
    ensures r >= n && r % PAGE_SIZE == 0 && r < n + PAGE_SIZE
  {
    (n + PAGE_SIZE - 1) / PAGE_SIZE * PAGE_SIZE
  }

  /** The range check on the host's answer to MMAP. */
  predicate ReplyFits(region: Region, addr: nat, len: nat) {
    && len > 0
    && addr % PAGE_SIZE == 0
    && addr <= region.len
    && len <= region.len - addr
    && len <= U64_MAX - (PAGE_SIZE - 1)
    && PageAlign(len) <= region.len - addr
  }

  /** The area fits into the reply's pages, which fit into the region. */
  predicate AreaFits(region: Region, addr: nat, len: nat, vmaLen: nat) {
    ReplyFits(region, addr, len) && region.addr <= U64_MAX - addr && vmaLen <= PageAlign(len)
  }

  /** The pages that the host mapped lie in the region, and their length can be rounded up in 64 bits. */
  predicate RoomFor(region: Region, addr: nat, len: nat) {
    && 0 < len <= U64_MAX - (PAGE_SIZE - 1)
    && addr % PAGE_SIZE == 0
    && addr + (len + PAGE_SIZE - 1) / PAGE_SIZE * PAGE_SIZE <= region.len
  }

  /** The area is no longer than these pages, whose physical address is a 64-bit number. */
  predicate AreaFitsReply(region: Region, reply: (nat, nat), vmaLen: nat) {
    region.addr + reply.0 <= U64_MAX && vmaLen <= (reply.1 + PAGE_SIZE - 1) / PAGE_SIZE * PAGE_SIZE
  }

  /** The driver's comparisons, which avoid overflow, amount to this. */
  lemma ReplyFitsExactly(region: Region, addr: nat, len: nat, vmaLen: nat)
    ensures ReplyFits(region, addr, len) <==> RoomFor(region, addr, len)
    ensures AreaFits(region, addr, len, vmaLen) <==>
              RoomFor(region, addr, len) && AreaFitsReply(region, (addr, len), vmaLen)
  {
  }

  lemma AreaInRegion(region: Region, addr: nat, len: nat, vmaLen: nat)
    requires AreaFits(region, addr, len, vmaLen)
    ensures addr + PageAlign(vmaLen) <= region.len
  {
  }

  // ----- reference counts

  /** How many mappings the host counts at `addr`. */
  ghost function CountAt(t: Table, addr: nat): (n: nat) {
    if o :| MappedAt(t, o, addr) then t[o].mapping.value.count else 0
  }

  lemma CountOf(t: Table, o: nat, addr: nat)
    requires TableOk(t) && MappedAt(t, o, addr)
    ensures CountAt(t, addr) == t[o].mapping.value.count >= 1
  {
  }

  lemma NoCount(t: Table, addr: nat)
    requires !AddressInUse(t, addr)
    ensures CountAt(t, addr) == 0
  {
  }

  lemma AllUncounted(t: Table)
    requires forall o, addr :: !MappedAt(t, o, addr)
    ensures forall addr :: CountAt(t, addr) == 0
  {
  }

  /** A change of one buffer that keeps its address, or frees or takes it, moves one count only. */
  lemma CountsFollow(t: Table, t': Table, offset: nat, addr: nat)
    requires TableOk(t) && TableOk(t')
    requires forall o, a :: o != offset || a != addr ==> (MappedAt(t', o, a) <==> MappedAt(t, o, a))
    requires forall o :: o in t && o in t' && o != offset ==> t'[o] == t[o]
    requires forall a :: a != addr ==> !MappedAt(t, offset, a)
    ensures forall a :: a != addr ==> CountAt(t', a) == CountAt(t, a)
  {
    forall a | a != addr
      ensures CountAt(t', a) == CountAt(t, a)
    {
      if o :| MappedAt(t, o, a) {
        CountOf(t, o, a);
        CountOf(t', o, a);
      } else {
        NoCount(t, a);
        NoCount(t', a);
      }
    }
  }

  /** A successful MMAP adds one to the count of the address it returns and to no other. */
  lemma CreateCounts(t: Table, offset: nat, rw: bool, answer: Result<nat, int>)
    requires TableOk(t) && (answer.Ok? ==> !AddressInUse(t, answer.value))
    ensures var (t', r, _) := Create(t, offset, rw, answer);
            && TableOk(t')
            && (r.Err? ==> t' == t)
            && (r.Ok? ==>
                  && MappedAt(t', offset, r.value.0)
                  && CountAt(t', r.value.0) == CountAt(t, r.value.0) + 1
                  && forall a :: a != r.value.0 ==> CountAt(t', a) == CountAt(t, a))
  {
    var (t', r, _) := Create(t, offset, rw, answer);
    if r.Ok? {
      var addr := r.value.0;
      assert t[offset].mapping.None? ==> !AddressInUse(t, addr);
      assert forall o :: o in t && t[o].mapping.Some? ==> MappedAt(t, o, t[o].mapping.value.addr);
      assert TableOk(t');
      CountsFollow(t, t', offset, addr);
      CountOf(t', offset, addr);
      if t[offset].mapping.Some? {
        CountOf(t, offset, addr);
      } else {
        NoCount(t, addr);
      }
    }
  }

  /** What MUNMAP leaves in the host's table. */
  ghost function Munmapped(t: Table, addr: nat): (r: Table)
    requires TableOk(t)
  {
    if o :| MappedAt(t, o, addr) then RemoveAt(t, o).0 else t
  }

  lemma MunmapCounts(t: Table, addr: nat)
    requires TableOk(t) && CountAt(t, addr) > 0
    ensures var t' := Munmapped(t, addr);
            && TableOk(t')
            && CountAt(t', addr) == CountAt(t, addr) - 1
            && forall a :: a != addr ==> CountAt(t', a) == CountAt(t, a)
  {
    var o :| MappedAt(t, o, addr);
    var t' := RemoveAt(t, o).0;
    CountOf(t, o, addr);
    assert forall p :: MappedAt(t, p, addr) ==> p == o;
    CountsFollow(t, t', o, addr);
    if t[o].mapping.value.count > 1 {
      CountOf(t', o, addr);
    } else {
      NoCount(t', addr);
    }
  }

  /** MUNMAP undoes MMAP: the host is exactly as before. */
  lemma MunmapUndoesMmap(t: Table, offset: nat, rw: bool, answer: Result<nat, int>)
    requires TableOk(t) && (answer.Ok? ==> !AddressInUse(t, answer.value))
    requires Create(t, offset, rw, answer).1.Ok?
    ensures var (t', r, _) := Create(t, offset, rw, answer);
            TableOk(t') && Munmapped(t', r.value.0) == t
  {
    CreateCounts(t, offset, rw, answer);
    var (t', r, _) := Create(t, offset, rw, answer);
    var addr := r.value.0;
    assert MappedAt(t', offset, addr);
    assert forall p :: MappedAt(t', p, addr) ==> p == offset;
    assert RemoveAt(t', offset).0 == t;
  }

  /**
   The commands sent after a call that asks the host to map: MMAP, and one MUNMAP exactly if the host
   mapped and the call fails after all.
   */
  ghost function Logged(log: seq<Command>, t: Table, offset: nat, rw: bool, answer: Result<nat, int>, ok: bool)
    : (r: seq<Command>)
  {
    var reply := Create(t, offset, rw, answer).1;
    var asked := log + [SendMmap(offset)];
    if reply.Ok? && !ok then asked + [SendMunmap(reply.value.0)] else asked
  }

  // ----- the users of an address in the guest

  ghost function ObjectsAt(objects: map<nat, MapObject>, addr: nat): (r: set<nat>) {
    set id | id in objects && objects[id].addr == addr
  }

  ghost function ExportsAt(exports: map<nat, Export>, addr: nat): (r: set<nat>) {
    set id | id in exports && exports[id].addr == addr
  }

  /** The plane has an export whose file is still open. */
  predicate LiveExport(exports: map<nat, Export>, id: nat, key: ExportKey) {
    id in exports && exports[id].key == key && exports[id].refs > 0
  }

  /** No plane has two open exports of the same mode. */
  predicate ExportsOnce(exports: map<nat, Export>) {
    forall i, j :: i in exports && j in exports && i != j && exports[i].refs > 0 && exports[j].refs > 0 ==>
      exports[i].key != exports[j].key
  }

  lemma ObjectAdded(objects: map<nat, MapObject>, id: nat, o: MapObject)
    requires id !in objects
    ensures forall a :: |ObjectsAt(objects[id := o], a)| == |ObjectsAt(objects, a)| + (if a == o.addr then 1 else 0)
    ensures |objects[id := o]| == |objects| + 1
  {
    forall a
      ensures |ObjectsAt(objects[id := o], a)| == |ObjectsAt(objects, a)| + (if a == o.addr then 1 else 0)
    {
      assert ObjectsAt(objects[id := o], a) == ObjectsAt(objects, a) + (if a == o.addr then {id} else {});
    }
  }

  lemma ObjectRemoved(objects: map<nat, MapObject>, id: nat)
    requires id in objects
    ensures forall a ::
              |ObjectsAt(objects, a)| == |ObjectsAt(objects - {id}, a)| + (if a == objects[id].addr then 1 else 0)
    ensures |objects - {id}| == |objects| - 1
  {
    var rest := objects - {id};
    assert objects == rest[id := objects[id]];
    ObjectAdded(rest, id, objects[id]);
  }

  lemma ObjectKept(objects: map<nat, MapObject>, id: nat, refs: nat)
    requires id in objects
    ensures forall a :: ObjectsAt(objects[id := objects[id].(refs := refs)], a) == ObjectsAt(objects, a)
    ensures |objects[id := objects[id].(refs := refs)]| == |objects|
  {
    assert objects[id := objects[id].(refs := refs)].Keys == objects.Keys;
  }

  lemma ExportAdded(exports: map<nat, Export>, id: nat, x: Export)
    requires id !in exports
    ensures forall a :: |ExportsAt(exports[id := x], a)| == |ExportsAt(exports, a)| + (if a == x.addr then 1 else 0)
  {
    forall a
      ensures |ExportsAt(exports[id := x], a)| == |ExportsAt(exports, a)| + (if a == x.addr then 1 else 0)
    {
      assert ExportsAt(exports[id := x], a) == ExportsAt(exports, a) + (if a == x.addr then {id} else {});
    }
  }

  lemma ExportRemoved(exports: map<nat, Export>, id: nat)
    requires id in exports
    ensures forall a ::
              |ExportsAt(exports, a)| == |ExportsAt(exports - {id}, a)| + (if a == exports[id].addr then 1 else 0)
  {
    var rest := exports - {id};
    assert exports == rest[id := exports[id]];
    ExportAdded(rest, id, exports[id]);
  }

  lemma ExportKept(exports: map<nat, Export>, id: nat, refs: nat)
    requires id in exports
    ensures forall a :: ExportsAt(exports[id := exports[id].(refs := refs)], a) == ExportsAt(exports, a)
  {
  }

  function Offsets(s: seq<nat>): (r: set<nat>) {
    set o | o in s
  }

  /** Dropping one more buffer that is not mapped. */
  lemma DropOne(t: Table, gone: set<nat>, o: nat)
    requires forall p, addr :: !MappedAt(t, p, addr)
    ensures Unregister(t - gone, o).0 == t - (gone + {o})
  {
    if o in t - gone && t[o].mapping.Some? {
      assert MappedAt(t, o, t[o].mapping.value.addr);
    }
  }

  class Device {
    const host: MmapMappingManager
    const region: Region
    var objects: map<nat, MapObject>
    var exports: map<nat, Export>
    /** `vv->mappings`. */
    var mappings: int
    var connected: bool
    /** Every command sent so far. */
    ghost var sent: seq<Command>

    ghost function Users(addr: nat): (n: nat)
      reads this
    {
      |ObjectsAt(objects, addr)| + |ExportsAt(exports, addr)|
    }

    /** The host counts, at every address, exactly the guest's mapping objects and exports. */
    ghost predicate Conserved()
      reads this, host
    {
      forall addr :: CountAt(host.table, addr) == Users(addr)
    }

    ghost predicate Valid()
      reads this, host
    {
      && host.Valid()
      && mappings == |objects|
      && ExportsOnce(exports)
      && (connected ==> Conserved())
    }

    constructor (host: MmapMappingManager, region: Region)
      requires host.Valid() && forall addr :: !AddressInUse(host.table, addr)
      ensures Valid() && this.host == host && objects == map[] && exports == map[] && connected && sent == []
    {
      this.host, this.region := host, region;
      objects, exports, mappings, connected, sent := map[], map[], 0, true, [];
      new;
      assert forall addr :: ObjectsAt(objects, addr) == {} && ExportsAt(exports, addr) == {};
      assert forall o, addr :: MappedAt(host.table, o, addr) ==> AddressInUse(host.table, addr);
      AllUncounted(host.table);
    }

    /** `virtio_media_munmap_locked`. */
    method Munmap(addr: nat)
      requires host.Valid()
      modifies host, this`sent
      ensures host.Valid() && host.table == Munmapped(old(host.table), addr) && sent == old(sent) + [SendMunmap(addr)]
    {
      sent := sent + [SendMunmap(addr)];
      var r := host.RemoveMapping(addr);
      assert forall o, p :: MappedAt(old(host.table), o, addr) && MappedAt(old(host.table), p, addr) ==> o == p;
    }

    /** The MMAP command: one more count at the address it returns, which one MUNMAP takes back. */
    method MapOnHost(offset: nat, rw: bool, answer: Result<nat, int>) returns (r: Option<(nat, nat)>)
      requires host.Valid() && (answer.Ok? ==> !AddressInUse(host.table, answer.value))
      modifies host, this`sent
      ensures host.Valid() && sent == old(sent) + [SendMmap(offset)]
      ensures var reply := Create(old(host.table), offset, rw, answer).1;
              if reply.Ok? then r == Some(reply.value) else r == None
      ensures r.None? ==> host.table == old(host.table)
      ensures r.Some? ==>
                && MappedAt(host.table, offset, r.value.0)
                && Munmapped(host.table, r.value.0) == old(host.table)
                && forall a :: CountAt(host.table, a) == CountAt(old(host.table), a) + (if a == r.value.0 then 1 else 0)
    {
      CreateCounts(host.table, offset, rw, answer);
      sent := sent + [SendMmap(offset)];
      var m := host.CreateMapping(offset, rw, answer);
      if m.Err? {
        return None;
      }
      MunmapUndoesMmap(old(host.table), offset, rw, answer);
      r := Some(m.value);
    }

    /**
     `virtio_media_device_mmap`. `answer` is the host mapper's reply if it is asked; `vmaLen` the
     length of the area; `gotMemory` and `remapped` the outcomes of the kernel services; `id` names
     the mapping object. Whatever goes wrong after the host has mapped, one MUNMAP puts it back.
     */
    method Mmap(offset: nat, rw: bool, answer: Result<nat, int>, vmaLen: nat,
                gotMemory: bool, remapped: bool, id: nat) returns (ok: bool)
      requires Valid() && id !in objects
      requires answer.Ok? ==> !AddressInUse(host.table, answer.value)
      modifies this, host
      ensures Valid() && connected == old(connected) && exports == old(exports)
      ensures ok <==>
                && connected && gotMemory && remapped
                && var reply := Create(old(host.table), offset, rw, answer).1;
                reply.Ok? && RoomFor(region, reply.value.0, reply.value.1) && AreaFitsReply(region, reply.value, vmaLen)
      ensures !ok ==> host.table == old(host.table) && objects == old(objects) && mappings == old(mappings)
      ensures sent == if connected then Logged(old(sent), old(host.table), offset, rw, answer, ok) else old(sent)
      ensures ok ==>
                && mappings == old(mappings) + 1
                && id in objects && objects == old(objects)[id := MapObject(1, objects[id].addr)]
                && MappedAt(host.table, offset, objects[id].addr)
                && objects[id].addr + PageAlign(vmaLen) <= region.len
    {
      if !connected {
        return false;
      }
      var r := MapOnHost(offset, rw, answer);
      if r.None? {
        return false;
      }
      var (addr, len) := r.value;
      ReplyFitsExactly(region, addr, len, vmaLen);
      if !AreaFits(region, addr, len, vmaLen) || !gotMemory || !remapped {
        Munmap(addr);
        return false;
      }
      AreaInRegion(region, addr, len, vmaLen);
      AddObject(id, addr);
      ok := true;
    }

    /** One more mapping object, for a mapping that the host counts and no object or export uses yet. */
    method AddObject(id: nat, addr: nat)
      requires host.Valid() && mappings == |objects| && ExportsOnce(exports) && id !in objects
      requires forall a :: CountAt(host.table, a) == Users(a) + (if a == addr then 1 else 0)
      modifies this`objects, this`mappings
      ensures Valid() && objects == old(objects)[id := MapObject(1, addr)] && mappings == old(mappings) + 1
    {
      ObjectAdded(objects, id, MapObject(1, addr));
      objects := objects[id := MapObject(1, addr)];
      mappings := mappings + 1;
    }

    /** `virtio_media_vma_open`. */
    method VmaOpen(id: nat)
      requires Valid() && id in objects && objects[id].refs > 0
      modifies this`objects
      ensures Valid() && objects == old(objects)[id := old(objects)[id].(refs := old(objects)[id].refs + 1)]
    {
      ObjectKept(objects, id, objects[id].refs + 1);
      objects := objects[id := objects[id].(refs := objects[id].refs + 1)];
    }

    /** The first half of `virtio_media_vma_close`, outside the device lock. */
    method DropReference(id: nat) returns (last: bool)
      requires Valid() && id in objects && objects[id].refs > 0
      modifies this`objects
      ensures Valid() && objects == old(objects)[id := old(objects)[id].(refs := old(objects)[id].refs - 1)]
      ensures last <==> objects[id].refs == 0
    {
      ObjectKept(objects, id, objects[id].refs - 1);
      objects := objects[id := objects[id].(refs := objects[id].refs - 1)];
      last := objects[id].refs == 0;
    }

    /** The second half: the object goes, and its mapping with it unless the device is gone. */
    method FinishClose(id: nat)
      requires Valid() && id in objects && objects[id].refs == 0
      modifies this, host
      ensures Valid() && connected == old(connected) && exports == old(exports)
      ensures objects == old(objects) - {id} && mappings == old(mappings) - 1 >= 0
      ensures connected ==> host.table == Munmapped(old(host.table), old(objects)[id].addr)
      ensures !connected ==> host.table == old(host.table)
      ensures sent == if connected then old(sent) + [SendMunmap(old(objects)[id].addr)] else old(sent)
    {
      var addr := objects[id].addr;
      ObjectRemoved(objects, id);
      mappings := mappings - 1;
      if connected {
        assert CountAt(host.table, addr) > 0;
        MunmapCounts(host.table, addr);
        Munmap(addr);
      }
      objects := objects - {id};
    }

    /**
     `virtio_media_expbuf`. An open export of the same plane and mode is used again; otherwise the host
     maps the plane once more. `length` is the plane's length as QUERYBUF reports it, `id` names a new
     export; `used` is the export whose file is handed out.
     */
    method Expbuf(key: ExportKey, offset: nat, rw: bool, answer: Result<nat, int>, length: nat,
                  gotMemory: bool, exported: bool, id: nat) returns (ok: bool, used: nat)
      requires Valid() && id !in exports
      requires answer.Ok? ==> !AddressInUse(host.table, answer.value)
      modifies this, host
      ensures Valid() && connected == old(connected) && objects == old(objects) && mappings == old(mappings)
      ensures ok ==> connected && LiveExport(exports, used, key)
      ensures used == id ==>
                (ok <==>
                  && connected && gotMemory && exported && length > 0
                  && var reply := Create(old(host.table), offset, rw, answer).1;
                  reply.Ok? && RoomFor(region, reply.value.0, reply.value.1) && length <= reply.value.1)
      ensures !ok ==> host.table == old(host.table) && exports == old(exports)
      ensures sent == if !connected || used != id then old(sent)
                      else Logged(old(sent), old(host.table), offset, rw, answer, ok)
      ensures ok && used != id ==>
                && LiveExport(old(exports), used, key) && host.table == old(host.table)
                && exports == old(exports)[used := old(exports)[used].(refs := old(exports)[used].refs + 1)]
      ensures ok && used == id ==>
                && (forall i :: !LiveExport(old(exports), i, key))
                && exports == old(exports)[id := Export(key, exports[id].addr, 1)]
                && MappedAt(host.table, offset, exports[id].addr)
      ensures connected && (exists i :: LiveExport(old(exports), i, key)) ==> ok && used != id
    {
      used := id;
      if !connected {
        return false, id;
      }
      if i :| i in exports && LiveExport(exports, i, key) {
        ExportKept(exports, i, exports[i].refs + 1);
        exports := exports[i := exports[i].(refs := exports[i].refs + 1)];
        return true, i;
      }
      ok := ExportAfresh(key, offset, rw, answer, length, gotMemory && exported, id);
    }

    /** The host maps the plane; whatever goes wrong after that, one MUNMAP puts it back. */
    method ExportAfresh(key: ExportKey, offset: nat, rw: bool, answer: Result<nat, int>, length: nat,
                        exported: bool, id: nat) returns (ok: bool)
      requires Valid() && connected && id !in exports && forall i :: !LiveExport(exports, i, key)
      requires answer.Ok? ==> !AddressInUse(host.table, answer.value)
      modifies this`exports, this`sent, host
      ensures Valid() && sent == Logged(old(sent), old(host.table), offset, rw, answer, ok)
      ensures ok <==>
                && exported && length > 0
                && var reply := Create(old(host.table), offset, rw, answer).1;
                reply.Ok? && RoomFor(region, reply.value.0, reply.value.1) && length <= reply.value.1
      ensures !ok ==> host.table == old(host.table) && exports == old(exports)
      ensures ok ==>
                && id in exports && exports == old(exports)[id := Export(key, exports[id].addr, 1)]
                && MappedAt(host.table, offset, exports[id].addr)
    {
      var r := MapOnHost(offset, rw, answer);
      if r.None? {
        return false;
      }
      var (addr, len) := r.value;
      ReplyFitsExactly(region, addr, len, 0);
      if length == 0 || length > len || !ReplyFits(region, addr, len) || !exported {
        Munmap(addr);
        return false;
      }
      ExportAdded(exports, id, Export(key, addr, 1));
      assert forall i :: i in exports && exports[i].key == key ==> !LiveExport(exports, i, key);
      exports := exports[id := Export(key, addr, 1)];
      ok := true;
    }

    /** A reference to the file of an export is dropped, outside the device lock. */
    method ExportPut(id: nat) returns (last: bool)
      requires Valid() && id in exports && exports[id].refs > 0
      modifies this`exports
      ensures Valid() && exports == old(exports)[id := old(exports)[id].(refs := old(exports)[id].refs - 1)]
      ensures last <==> exports[id].refs == 0
    {
      ExportKept(exports, id, exports[id].refs - 1);
      exports := exports[id := exports[id].(refs := exports[id].refs - 1)];
      last := exports[id].refs == 0;
    }

    /** `virtio_media_export_release`. */
    method ExportRelease(id: nat)
      requires Valid() && id in exports && exports[id].refs == 0
      modifies this, host
      ensures Valid() && connected == old(connected) && objects == old(objects) && mappings == old(mappings)
      ensures exports == old(exports) - {id}
      ensures connected ==> host.table == Munmapped(old(host.table), old(exports)[id].addr)
      ensures !connected ==> host.table == old(host.table)
      ensures sent == if connected then old(sent) + [SendMunmap(old(exports)[id].addr)] else old(sent)
    {
      var addr := exports[id].addr;
      ExportRemoved(exports, id);
      if connected {
        assert CountAt(host.table, addr) > 0;
        MunmapCounts(host.table, addr);
        Munmap(addr);
      }
      exports := exports - {id};
    }

    /** The timeout or removal path: no command is sent from now on. */
    method Disconnect()
      requires Valid()
      modifies this`connected
      ensures Valid() && !connected
    {
      connected := false;
    }

    /**
     A REQBUFS that the EBUSY gate lets through makes the host drop the buffers at `offsets`. None of
     them is mapped, so each of them is really gone afterwards.
     */
    method Reqbufs(offsets: seq<nat>) returns (r: GateReply)
      requires Valid()
      modifies host
      ensures Valid() && (r == NoDevice <==> !connected)
      ensures r == Busy <==> connected && (mappings != 0 || exports != map[])
      ensures r != Passed ==> host.table == old(host.table)
      ensures r == Passed ==>
                && (forall o, addr :: !MappedAt(old(host.table), o, addr))
                && host.table == old(host.table) - Offsets(offsets)
    {
      if !connected {
        return NoDevice;
      }
      if mappings != 0 || exports != map[] {
        return Busy;
      }
      NothingMapped();
      DropBuffers(offsets);
      AllUncounted(host.table);
      r := Passed;
    }

    /** The host's side of REQBUFS, on a range with nothing mapped. */
    method DropBuffers(offsets: seq<nat>)
      requires host.Valid() && forall o, addr :: !MappedAt(host.table, o, addr)
      modifies host
      ensures host.Valid() && host.table == old(host.table) - Offsets(offsets)
      ensures forall o, addr :: !MappedAt(host.table, o, addr)
    {
      for i := 0 to |offsets|
        invariant host.Valid()
        invariant host.table == old(host.table) - Offsets(offsets[..i])
      {
        DropOne(old(host.table), Offsets(offsets[..i]), offsets[i]);
        var gone := host.UnregisterBuffer(offsets[i]);
        assert offsets[..i + 1] == offsets[..i] + [offsets[i]];
        assert Offsets(offsets[..i + 1]) == Offsets(offsets[..i]) + {offsets[i]};
      }
      assert offsets[..|offsets|] == offsets;
      forall o, addr
        ensures !MappedAt(host.table, o, addr)
      {
        assert !MappedAt(old(host.table), o, addr);
      }
    }

    /** The host announces a new buffer; no count changes. */
    method RegisterOnHost(offset: nat, size: nat) returns (r: Result<nat, RegisterError>)
      requires Valid() && offset < U32_END && size < U32_END
      modifies host
      ensures Valid() && (host.table, r) == RegisterAt(old(host.table), offset, size)
    {
      r := host.RegisterBufferByOffset(offset, size);
      forall addr
        ensures CountAt(host.table, addr) == CountAt(old(host.table), addr)
      {
        assert forall o :: MappedAt(host.table, o, addr) <==> MappedAt(old(host.table), o, addr);
        if o :| MappedAt(host.table, o, addr) {
          CountOf(host.table, o, addr);
          CountOf(old(host.table), o, addr);
        }
      }
    }

    /** With no mapping object and no export, the host has nothing mapped. */
    lemma NothingMapped()
      requires Valid() && connected && mappings == 0 && exports == map[]
      ensures forall o, addr :: !MappedAt(host.table, o, addr)
      ensures forall addr :: Users(addr) == 0
    {
      assert objects == map[];
      assert forall addr :: ObjectsAt(objects, addr) == {} && ExportsAt(exports, addr) == {};
      forall o, addr | MappedAt(host.table, o, addr)
        ensures false
      {
        CountOf(host.table, o, addr);
      }
    }
  }
}
