/**
 Creating, mapping, unmapping and releasing the chunks of one allocation: the loops of
 `create_and_map` and `unmap_and_release`, with their rollback.
 */
module ChunkMapping {
  import opened Sums
  import opened ChunkPlan
  import opened DeviceMemory
  import opened Driver

  /** `dev` is `dev0` with one new handle of the right size per listed chunk. */
  ghost predicate Created(dev0: Device, dev: Device, sizes: seq<nat>, handles: seq<Handle>) {
    && |handles| <= |sizes| && Distinct(handles)
    && dev == dev0.(live := dev.live)
    && dev.live - Elements(handles) == dev0.live
    && (forall i :: 0 <= i < |handles| ==>
          handles[i] !in dev0.live && handles[i] in dev.live && |dev.live[handles[i]]| == sizes[i])
  }

  /** Chunks `lo` up to `hi` are mapped, each by its own live handle. */
  ghost predicate ChunksMapped(dev: Device, base: nat, sizes: seq<nat>, handles: seq<Handle>, lo: nat, hi: nat) {
    && |handles| == |sizes| && lo <= hi <= |sizes|
    && (forall i :: 0 <= i < |sizes| ==>
          sizes[i] > 0 && handles[i] in dev.live && |dev.live[handles[i]]| == sizes[i])
    && (forall a :: a in Pages(base, sizes, handles, lo, hi) ==>
          a in dev.page && dev.page[a] == Pages(base, sizes, handles, lo, hi)[a])
  }

  lemma ChunkCanUnmap(dev: Device, base: nat, sizes: seq<nat>, handles: seq<Handle>, j: nat, hi: nat)
    requires ChunksMapped(dev, base, sizes, handles, j, hi) && j < hi
    ensures CanUnmap(dev, base + Offset(sizes, j), sizes[j])
  {
    var addr := base + Offset(sizes, j);
    OffsetStep(sizes, j);
    OffsetMono(sizes, j + 1, hi);
    forall a | addr <= a < addr + sizes[j]
      ensures a in dev.page && dev.page[a] == (handles[j], a - addr)
    {
      TranslateChunk(base, sizes, handles, j, a);
      assert a in Pages(base, sizes, handles, j, hi);
    }
  }

  lemma ChunksMappedRest(dev: Device, dev': Device, base: nat, sizes: seq<nat>, handles: seq<Handle>, j: nat, hi: nat)
    requires ChunksMapped(dev, base, sizes, handles, j, hi) && j < hi
    requires dev'.live == dev.live
    requires dev'.page == dev.page || dev'.page == dev.page - Range(base + Offset(sizes, j), sizes[j])
    ensures ChunksMapped(dev', base, sizes, handles, j + 1, hi)
  {
    hide Offset;
    PagesDropFirst(base, sizes, handles, j, hi);
  }

  /** Pages were only removed, and only inside the given range. */
  ghost predicate Shrunk(page0: map<nat, (Handle, nat)>, page: map<nat, (Handle, nat)>, base: nat, size: nat) {
    && (forall a :: !Within(base, size, a) ==> (a in page <==> a in page0))
    && (forall a :: a in page ==> a in page0 && page[a] == page0[a])
  }

  lemma ShrinkStep(page0: map<nat, (Handle, nat)>, page: map<nat, (Handle, nat)>, page': map<nat, (Handle, nat)>,
                   base: nat, off: nat, size: nat, total: nat)
    requires off + size <= total && page' == page - Range(base + off, size)
    ensures Shrunk(page0, page, base, total) ==> Shrunk(page0, page', base, total)
    ensures page == page0 - Range(base, off) ==> page' == page0 - Range(base, off + size)
  {
  }

  /** None of the first `n` chunks can be unmapped: no mapping starts and ends where the chunk does. */
  ghost predicate Barren(dev: Device, base: nat, sizes: seq<nat>, n: nat)
    requires n <= |sizes|
  {
    forall j :: 0 <= j < n ==> !CanUnmap(dev, base + Offset(sizes, j), sizes[j])
  }

  lemma BarrenAt(dev: Device, base: nat, sizes: seq<nat>, n: nat, j: nat)
    requires j < n <= |sizes|
    ensures Barren(dev, base, sizes, n) ==> !CanUnmap(dev, base + Offset(sizes, j), sizes[j])
  {
  }

  /**
   Unmaps the first `n` chunks one by one, remembering the first error. Where nothing can be unmapped
   every call is refused and nothing changes.
   */
  method UnmapChunks(gpu: Gpu, base: nat, sizes: seq<nat>, handles: seq<Handle>, n: nat) returns (firstError: Status)
    requires n <= |sizes| && (ChunksMapped(gpu.dev, base, sizes, handles, 0, n) || Barren(gpu.dev, base, sizes, n))
    modifies gpu`dev, gpu`faults, gpu`calls
    ensures old(ChunksMapped(gpu.dev, base, sizes, handles, 0, n)) ==>
              && gpu.faults == old(gpu.faults) && FirstFailure(gpu, old(gpu.calls), n, firstError)
              && (firstError == OK ==> gpu.dev.page == old(gpu.dev.page) - Range(base, Offset(sizes, n)))
    ensures old(Barren(gpu.dev, base, sizes, n)) ==>
              gpu.dev == old(gpu.dev) && gpu.faults == old(gpu.faults) + n && firstError == if n > 0 then INVALID else OK
    ensures gpu.dev == old(gpu.dev).(page := gpu.dev.page) && gpu.calls == old(gpu.calls) + n
    ensures Shrunk(old(gpu.dev.page), gpu.dev.page, base, Offset(sizes, n))
  {
    hide CanUnmap, Offset, ChunksMapped, Shrunk, Barren, FirstFailure;
    assert FirstFailure(gpu, gpu.calls, 0, OK) by { NoFailure(gpu, gpu.calls); }
    firstError := OK;
    var unmapped := 0;
    OffsetEnds(sizes);
    OffsetMono(sizes, 0, n);
    Untouched(gpu.dev.page, base, Offset(sizes, n));
    ghost var mapped, barren := ChunksMapped(gpu.dev, base, sizes, handles, 0, n), Barren(gpu.dev, base, sizes, n);
    var j := 0;
    while j < n
      invariant 0 <= j <= n && unmapped == Offset(sizes, j) <= Offset(sizes, n)
      invariant mapped ==>
                  && gpu.faults == old(gpu.faults) && ChunksMapped(gpu.dev, base, sizes, handles, j, n)
                  && FirstFailure(gpu, old(gpu.calls), j, firstError)
                  && (firstError == OK ==> gpu.dev.page == old(gpu.dev.page) - Range(base, Offset(sizes, j)))
      invariant barren ==> gpu.dev == old(gpu.dev) && gpu.faults == old(gpu.faults) + j && firstError == if j > 0 then INVALID else OK
      invariant gpu.dev == old(gpu.dev).(page := gpu.dev.page) && gpu.calls == old(gpu.calls) + j
      invariant Shrunk(old(gpu.dev.page), gpu.dev.page, base, Offset(sizes, n))
    {
      OffsetStep(sizes, j);
      ghost var earlier, status := firstError, TeardownStatus(gpu, gpu.calls);
      firstError := UnmapChunk(gpu, base, sizes, handles, n, j, unmapped, firstError, old(gpu.dev.page));
      if mapped { FailsFirst(gpu, old(gpu.calls), j, earlier, status); }
      unmapped := unmapped + sizes[j];
      j := j + 1;
    }
  }

  method UnmapChunk(gpu: Gpu, base: nat, sizes: seq<nat>, handles: seq<Handle>, n: nat, j: nat, offset: nat,
                    earlier: Status, ghost page0: map<nat, (Handle, nat)>) returns (firstError: Status)
    requires j < n <= |sizes| && offset == Offset(sizes, j)
    requires Shrunk(page0, gpu.dev.page, base, Offset(sizes, n))
    modifies gpu`dev, gpu`faults, gpu`calls
    ensures old(ChunksMapped(gpu.dev, base, sizes, handles, j, n)) ==>
              && gpu.faults == old(gpu.faults) && ChunksMapped(gpu.dev, base, sizes, handles, j + 1, n)
              && firstError == (if earlier != OK then earlier else TeardownStatus(gpu, old(gpu.calls)))
              && (firstError == OK && old(gpu.dev.page) == page0 - Range(base, Offset(sizes, j)) ==>
                    gpu.dev.page == page0 - Range(base, Offset(sizes, j + 1)))
    ensures old(Barren(gpu.dev, base, sizes, n)) ==>
              gpu.dev == old(gpu.dev) && gpu.faults == old(gpu.faults) + 1 && firstError == (if earlier != OK then earlier else INVALID)
    ensures firstError == OK ==> earlier == OK
    ensures gpu.dev == old(gpu.dev).(page := gpu.dev.page) && gpu.calls == old(gpu.calls) + 1
    ensures Shrunk(page0, gpu.dev.page, base, Offset(sizes, n))
    ensures Offset(sizes, j + 1) <= Offset(sizes, n)
  {
    hide CanUnmap, Offset, ChunksMapped, Shrunk, Barren, Range;
    ghost var before := gpu.dev;
    BarrenAt(before, base, sizes, n, j);
    OffsetStep(sizes, j);
    OffsetMono(sizes, j + 1, n);
    if ChunksMapped(before, base, sizes, handles, j, n) {
      ChunkCanUnmap(before, base, sizes, handles, j, n);
    }
    var status := gpu.MemUnmap(base + offset, sizes[j]);
    if ChunksMapped(before, base, sizes, handles, j, n) {
      ChunksMappedRest(before, gpu.dev, base, sizes, handles, j, n);
    }
    firstError := earlier;
    if status == OK {
      ShrinkStep(page0, before.page, gpu.dev.page, base, offset, sizes[j], Offset(sizes, n));
    } else if firstError == OK {
      firstError := status;
    }
  }

  /** What a valid teardown call reports. */
  ghost function TeardownStatus(gpu: Gpu, k: nat): (status: Status) {
    if gpu.steadyTeardown || gpu.willing(k) then OK else gpu.Code(k)
  }

  lemma NoFailure(gpu: Gpu, k: nat)
    ensures FirstFailure(gpu, k, 0, OK)
  {
  }

  lemma Untouched(page: map<nat, (Handle, nat)>, base: nat, size: nat)
    ensures Shrunk(page, page, base, size) && page - Range(base, 0) == page
  {
  }

  /** None of the handles can be released: the driver knows none of them. */
  ghost predicate Unreleasable(dev: Device, handles: seq<Handle>) {
    forall i :: 0 <= i < |handles| ==> !CanRelease(dev, handles[i])
  }

  ghost predicate OwnHandles(dev: Device, handles: seq<Handle>) {
    Distinct(handles) && forall i :: 0 <= i < |handles| ==> handles[i] in dev.live
  }

  /**
   Releases the given handles one by one, remembering the first error. Where none can be released every
   call is refused and nothing changes.
   */
  method ReleaseHandles(gpu: Gpu, handles: seq<Handle>) returns (firstError: Status)
    requires OwnHandles(gpu.dev, handles) || Unreleasable(gpu.dev, handles)
    modifies gpu`dev, gpu`faults, gpu`calls
    ensures old(OwnHandles(gpu.dev, handles)) ==>
      && gpu.faults == old(gpu.faults) && FirstFailure(gpu, old(gpu.calls), |handles|, firstError)
      && (firstError == OK ==> gpu.dev.live == old(gpu.dev.live) - Elements(handles))
    ensures old(Unreleasable(gpu.dev, handles)) ==>
      gpu.dev == old(gpu.dev) && gpu.faults == old(gpu.faults) + |handles| && firstError == if handles != [] then INVALID else OK
    ensures gpu.dev == old(gpu.dev).(live := gpu.dev.live) && gpu.calls == old(gpu.calls) + |handles|
    ensures forall h :: h !in handles ==> (h in gpu.dev.live <==> h in old(gpu.dev.live))
    ensures forall h :: h in gpu.dev.live ==> h in old(gpu.dev.live) && gpu.dev.live[h] == old(gpu.dev.live[h])
  {
    hide FirstFailure;
    NoFailure(gpu, gpu.calls);
    ghost var own, stuck := OwnHandles(gpu.dev, handles), Unreleasable(gpu.dev, handles);
    firstError := OK;
    for j := 0 to |handles|
      invariant gpu.dev == old(gpu.dev).(live := gpu.dev.live) && gpu.calls == old(gpu.calls) + j
      invariant own ==> gpu.faults == old(gpu.faults) && FirstFailure(gpu, old(gpu.calls), j, firstError)
      invariant own ==> forall i :: j <= i < |handles| ==> handles[i] in gpu.dev.live
      invariant own && firstError == OK ==> gpu.dev.live == old(gpu.dev.live) - Elements(handles[..j])
      invariant stuck ==> gpu.dev == old(gpu.dev) && gpu.faults == old(gpu.faults) + j && firstError == if j > 0 then INVALID else OK
      invariant forall h :: h !in handles ==> (h in gpu.dev.live <==> h in old(gpu.dev.live))
      invariant forall h :: h in gpu.dev.live ==> h in old(gpu.dev.live) && gpu.dev.live[h] == old(gpu.dev.live[h])
    {
      if own { FailsFirst(gpu, old(gpu.calls), j, firstError, TeardownStatus(gpu, gpu.calls)); }
      var status := gpu.MemRelease(handles[j]);
      if status != OK && firstError == OK {
        firstError := status;
      }
      assert handles[j] in handles;
      assert Elements(handles[..j + 1]) == Elements(handles[..j]) + {handles[j]};
    }
    assert handles[..|handles|] == handles;
  }
}
