/**
 The DMA-BUF imports of one guest buffer: one import per plane, prepared before QBUF, completed
 when the buffer comes back, released when it changes or the queue goes away.
 */
module Imports {
  import opened Prelude

  /** What the waiters of a fence are told. */
  datatype Outcome = Success | IoError | Cancelled

  /** The fence of an import: none yet, waited for since a successful prepare, or signalled by the completion. */
  datatype Fence = NoFence | Pending | Signalled(outcome: Outcome)

  /** An import of the transport. */
  datatype Import = Import(buffer: nat, length: nat, uuid: int, fence: Fence)

  /** The plane of QBUF that names a DMA-BUF by file descriptor. */
  datatype PlaneArg = PlaneArg(fd: int, length: nat, dataOffset: nat)

  /** How the kernel services answer: descriptor lookup, and per plane import, release and prepare. */
  datatype Services = Services(
    fds: map<int, nat>,
    uuids: seq<int>,
    importOk: seq<bool>,
    releaseOk: seq<bool>,
    prepareOk: seq<bool>)

  predicate Answers(e: Services) {
    |e.uuids| == |e.importOk| == |e.releaseOk| == |e.prepareOk| == VIDEO_MAX_PLANES
  }

  predicate AllSucceed(e: Services)
    requires Answers(e)
  {
    forall i :: 0 <= i < VIDEO_MAX_PLANES ==> e.importOk[i] && e.releaseOk[i] && e.prepareOk[i]
  }

  /** The planes QBUF accepts on a DMABUF capture queue: non-empty, resolvable, pairwise distinct buffers. */
  predicate Importable(planes: seq<PlaneArg>, multi: bool, fds: map<int, nat>) {
    && 0 < |planes| <= VIDEO_MAX_PLANES
    && (forall i :: 0 <= i < |planes| ==> PlaneOk(planes[i], multi, fds))
    && (forall i, j :: 0 <= i < j < |planes| ==> fds[planes[i].fd] != fds[planes[j].fd])
  }

  predicate PlaneOk(p: PlaneArg, multi: bool, fds: map<int, nat>) {
    p.length > 0 && (multi ==> p.dataOffset == 0) && p.fd in fds
  }

  predicate IsFenced(o: Option<Import>) {
    o.Some? && o.value.fence.Pending?
  }

  /** The plane holds an import of the DMA-BUF that `p` names, and `uuid` is the one to send. */
  predicate Holds(o: Option<Import>, uuid: int, p: PlaneArg, fds: map<int, nat>) {
    && p.fd in fds
    && o.Some?
    && o.value.buffer == fds[p.fd]
    && o.value.length == p.length
    && uuid == o.value.uuid
  }

  /** The plane had an import of the same DMA-BUF and length before. */
  predicate HadImport(before: Option<Import>, p: PlaneArg, fds: map<int, nat>) {
    p.fd in fds && before.Some? && before.value.buffer == fds[p.fd] && before.value.length == p.length
  }

  /** The UUID is that of the import the plane had, or else of the new one. */
  predicate RightUuid(before: Option<Import>, p: PlaneArg, fds: map<int, nat>, renewed: int, uuid: int) {
    uuid == if HadImport(before, p, fds) then before.value.uuid else renewed
  }

  /** No plane of `earlier` names the DMA-BUF of `p`. */
  predicate Unnamed(p: PlaneArg, earlier: seq<PlaneArg>, fds: map<int, nat>) {
    forall j :: 0 <= j < |earlier| && p.fd in fds && earlier[j].fd in fds ==> fds[earlier[j].fd] != fds[p.fd]
  }

  /** `complete` of the transport: a pending fence is signalled. */
  function Complete(i: Import, outcome: Outcome): (r: Import) {
    if i.fence.Pending? then i.(fence := Signalled(outcome)) else i
  }

  /** The import is still there, and its fence, if it was pending, says `outcome`. */
  predicate WasCompleted(before: Option<Import>, after: Option<Import>, outcome: Outcome) {
    if IsFenced(before) then after == Some(before.value.(fence := Signalled(outcome))) else after == before
  }

  class BufferImports {
    const imports: array<Option<Import>>
    const uuids: array<int>
    /** References obtained with `dma_buf_get` and not given back. */
    ghost var references: multiset<nat>

    ghost predicate Valid()
      reads this
    {
      imports.Length == uuids.Length == VIDEO_MAX_PLANES
    }

    predicate NoneFenced()
      reads this, imports
    {
      forall i :: 0 <= i < imports.Length ==> !IsFenced(imports[i])
    }

    constructor ()
      ensures Valid() && NoneFenced() && fresh(imports) && fresh(uuids) && references == multiset{}
      ensures forall i :: 0 <= i < imports.Length ==> imports[i] == None
    {
      imports := new Option<Import>[VIDEO_MAX_PLANES](_ => None);
      uuids := new int[VIDEO_MAX_PLANES](_ => 0);
      references := multiset{};
    }

    /** `virtio_media_complete_imports`: every import stays, and every pending fence is signalled. */
    method CompleteImports(outcome: Outcome)
      requires Valid()
      modifies imports
      ensures NoneFenced()
      ensures forall i :: 0 <= i < imports.Length ==> WasCompleted(old(imports[i]), imports[i], outcome)
    {
      for i := 0 to imports.Length
        invariant forall k :: 0 <= k < i ==>
                    !IsFenced(imports[k]) && WasCompleted(old(imports[k]), imports[k], outcome)
        invariant forall k :: i <= k < imports.Length ==> imports[k] == old(imports[k])
      {
        if imports[i].Some? {
          imports[i] := Some(Complete(imports[i].value, outcome));
        }
      }
    }

    /** `virtio_media_release_imports`. */
    method ReleaseImports()
      requires Valid()
      modifies imports
      ensures forall i :: 0 <= i < imports.Length ==> imports[i] == None
    {
      for i := 0 to imports.Length
        invariant forall k :: 0 <= k < i ==> imports[k] == None
      {
        imports[i] := None;
      }
    }

    /** Does an earlier plane import `buffer`? */
    method NamedBefore(i: nat, buffer: nat) returns (named: bool)
      requires Valid() && i <= imports.Length && forall j :: 0 <= j < i ==> imports[j].Some?
      ensures named <==> exists j :: 0 <= j < i && imports[j].value.buffer == buffer
    {
      for j := 0 to i
        invariant forall k :: 0 <= k < j ==> imports[k].value.buffer != buffer
      {
        if imports[j].value.buffer == buffer {
          return true;
        }
      }
      named := false;
    }

    /** Keep the import of plane `i` when it is of the same buffer and length, import afresh otherwise. */
    method ReplaceImport(i: nat, buffer: nat, length: nat, e: Services) returns (ok: bool)
      requires Valid() && Answers(e) && i < VIDEO_MAX_PLANES && !IsFenced(imports[i])
      modifies imports, uuids
      ensures forall k :: 0 <= k < imports.Length && k != i ==>
                imports[k] == old(imports[k]) && uuids[k] == old(uuids[k])
      ensures !IsFenced(imports[i])
      ensures ok ==> imports[i].Some? && imports[i].value.buffer == buffer && imports[i].value.length == length
      ensures ok ==> uuids[i] == imports[i].value.uuid
      ensures var before := old(imports[i]);
              if before.Some? && before.value.buffer == buffer && before.value.length == length
              then ok && imports[i] == before
              else ok ==> imports[i].value.uuid == e.uuids[i]
      ensures e.releaseOk[i] && e.importOk[i] ==> ok
    {
      var current := imports[i];
      if current.Some? && (current.value.buffer != buffer || current.value.length != length) {
        imports[i] := None;
        current := None;
        if !e.releaseOk[i] {
          return false;
        }
      }
      if current.None? {
        if !e.importOk[i] {
          return false;
        }
        current := Some(Import(buffer, length, e.uuids[i], NoFence));
      }
      imports[i] := current;
      uuids[i] := current.value.uuid;
      ok := true;
    }

    /**
     One iteration of the import loop: look up the DMA-BUF of plane `i`, refuse it when an earlier
     plane names it too, keep or replace the import.
     */
    method ImportPlane(i: nat, p: PlaneArg, multi: bool, e: Services, ghost earlier: seq<PlaneArg>)
      returns (ok: bool)
      requires Valid() && Answers(e) && i < VIDEO_MAX_PLANES && |earlier| == i
      requires NoneFenced() && forall j :: 0 <= j < i ==> Holds(imports[j], uuids[j], earlier[j], e.fds)
      modifies this`references, imports, uuids
      ensures references == old(references)
      ensures NoneFenced()
      ensures forall j :: 0 <= j < i ==> Holds(imports[j], uuids[j], earlier[j], e.fds)
      ensures ok ==> Holds(imports[i], uuids[i], p, e.fds) && PlaneOk(p, multi, e.fds)
      ensures ok ==> Unnamed(p, earlier, e.fds)
      ensures ok ==> RightUuid(old(imports[i]), p, e.fds, e.uuids[i], uuids[i])
      ensures forall k :: 0 <= k < imports.Length && k != i ==>
                imports[k] == old(imports[k]) && uuids[k] == old(uuids[k])
      ensures AllSucceed(e) && PlaneOk(p, multi, e.fds) && Unnamed(p, earlier, e.fds) ==> ok
    {
      if p.length == 0 || (multi && p.dataOffset != 0) {
        return false;
      }
      if p.fd !in e.fds {
        return false;
      }
      var buffer := e.fds[p.fd];
      references := references + multiset{buffer};
      var named := NamedBefore(i, buffer);
      if named {
        references := references - multiset{buffer};
        return false;
      }
      ok := ReplaceImport(i, buffer, p.length, e);
      references := references - multiset{buffer};
      assert references == old(references);
    }

    /** The second loop: fence every plane, or none. */
    method FencePlanes(planes: seq<PlaneArg>, e: Services) returns (ok: bool)
      requires Valid() && Answers(e) && |planes| <= VIDEO_MAX_PLANES && NoneFenced()
      requires forall i :: 0 <= i < |planes| ==> Holds(imports[i], uuids[i], planes[i], e.fds)
      modifies imports
      ensures forall i :: 0 <= i < |planes| ==> Holds(imports[i], uuids[i], planes[i], e.fds)
      ensures ok ==> forall i :: 0 <= i < imports.Length ==> (IsFenced(imports[i]) <==> i < |planes|)
      ensures !ok ==> NoneFenced()
      ensures !ok ==> exists n | 0 <= n < |planes| && !e.prepareOk[n] ::
                forall k :: 0 <= k < n ==> imports[k].Some? && imports[k].value.fence == Signalled(Cancelled)
      ensures ok <==> forall i :: 0 <= i < |planes| ==> e.prepareOk[i]
    {
      for i := 0 to |planes|
        invariant forall k :: 0 <= k < |planes| ==> Holds(imports[k], uuids[k], planes[k], e.fds)
        invariant forall k :: 0 <= k < imports.Length ==> (IsFenced(imports[k]) <==> k < i)
        invariant forall k :: 0 <= k < i ==> e.prepareOk[k]
      {
        if !e.prepareOk[i] {
          var j := i;
          while j > 0
            invariant 0 <= j <= i
            invariant forall k :: 0 <= k < |planes| ==> Holds(imports[k], uuids[k], planes[k], e.fds)
            invariant forall k :: 0 <= k < imports.Length ==> (IsFenced(imports[k]) <==> k < j)
            invariant forall k :: j <= k < i ==> imports[k].value.fence == Signalled(Cancelled)
          {
            j := j - 1;
            imports[j] := Some(Complete(imports[j].value, Cancelled));
          }
          return false;
        }
        imports[i] := Some(imports[i].value.(fence := Pending));
      }
      ok := true;
    }

    /**
     `virtio_media_prepare_imports`. Whatever happens the reference counts are balanced; failure
     leaves nothing fenced, success fences exactly the planes of the call, whose DMA-BUFs differ.
     */
    method PrepareImports(planes: seq<PlaneArg>, capture: bool, multi: bool, e: Services) returns (ok: bool)
      requires Valid() && Answers(e) && NoneFenced()
      modifies this`references, imports, uuids
      ensures references == old(references)
      ensures !ok ==> NoneFenced()
      ensures !capture || |planes| == 0 || |planes| > VIDEO_MAX_PLANES ==>
                !ok && forall i :: 0 <= i < imports.Length ==> imports[i] == old(imports[i])
      ensures !ok && capture && 0 < |planes| <= VIDEO_MAX_PLANES ==>
                || (forall i :: 0 <= i < imports.Length ==> imports[i] == None)
                || (&& Importable(planes, multi, e.fds)
                    && (exists i :: 0 <= i < |planes| && !e.prepareOk[i])
                    && forall i :: 0 <= i < |planes| ==> Holds(imports[i], uuids[i], planes[i], e.fds))
      ensures ok ==> capture && Importable(planes, multi, e.fds)
      ensures ok ==>
                && 0 < |planes| <= VIDEO_MAX_PLANES
                && forall i :: 0 <= i < |planes| ==>
                     planes[i].length > 0 && (multi ==> planes[i].dataOffset == 0) && planes[i].fd in e.fds
      ensures ok ==> forall i :: 0 <= i < imports.Length ==> (IsFenced(imports[i]) <==> i < |planes|)
      ensures ok ==> forall i :: 0 <= i < |planes| ==> Holds(imports[i], uuids[i], planes[i], e.fds)
      ensures ok ==> forall i, j :: 0 <= i < j < |planes| ==>
                       imports[i].Some? && imports[j].Some? && imports[i].value.buffer != imports[j].value.buffer
      ensures ok ==> forall i :: 0 <= i < |planes| ==>
                RightUuid(old(imports[i]), planes[i], e.fds, e.uuids[i], uuids[i])
      ensures AllSucceed(e) ==> (ok <==> capture && Importable(planes, multi, e.fds))
      ensures && AllSucceed(e) && capture && 0 < |planes| <= VIDEO_MAX_PLANES
              && (forall i :: 0 <= i < |planes| ==>
                    planes[i].length > 0 && (multi ==> planes[i].dataOffset == 0) && planes[i].fd in e.fds)
              && (forall i, j :: 0 <= i < j < |planes| ==> e.fds[planes[i].fd] != e.fds[planes[j].fd])
              ==> ok
    {
      if !capture || |planes| == 0 || |planes| > VIDEO_MAX_PLANES {
        return false;
      }
      for i := 0 to |planes|
        invariant references == old(references) && NoneFenced()
        invariant forall k :: 0 <= k < i ==>
                  Holds(imports[k], uuids[k], planes[k], e.fds) && PlaneOk(planes[k], multi, e.fds)
        invariant forall j, k :: 0 <= j < k < i ==> e.fds[planes[j].fd] != e.fds[planes[k].fd]
        invariant forall k :: i <= k < imports.Length ==> imports[k] == old(imports[k])
        invariant forall k :: 0 <= k < i ==> RightUuid(old(imports[k]), planes[k], e.fds, e.uuids[k], uuids[k])
      {
        var imported := ImportPlane(i, planes[i], multi, e, planes[..i]);
        if !imported {
          ReleaseImports();
          return false;
        }
      }
      assert Importable(planes, multi, e.fds);
      ok := FencePlanes(planes, e);
    }
  }
}
