/**
 The sleep-mode allocator on ROCm: `my_malloc`, `my_free`, and the sleep and wake entry points,
 together with the table that the Python side keeps of them.
 */
module Cumem {
  import opened Basics
  import opened Sums
  import opened ChunkPlan
  import opened DeviceMemory
  import opened Driver
  import opened Allocations
  import opened ChunkMapping
  import opened Transitions

  /** How far `create_and_map` came. */
  datatype Stage =
    | Complete
    | RolledBack  // creating or mapping some chunk failed
    | Stranded    // setting access or clearing failed after all chunks were mapped
    | Leaked      // an earlier error was still pending, and one created handle is lost

  /**
   How far `create_and_map` comes at one of our reservations: it creates `n` handles and maps them with
   the next `2 * n` calls, then sets access and clears with two more.
   */
  ghost function StageOf(gpu: Gpu, k: nat, n: nat, pending: bool): (stage: Stage) {
    if pending then (if gpu.willing(k) then Leaked else RolledBack)
    else if !Willing(gpu, k, 2 * n) then RolledBack
    else if gpu.steadyAccess || Willing(gpu, k + 2 * n, 2) then Complete
    else Stranded
  }

  /**
   What `reserve_rocm_address` obtains with the next calls from `k` on: what the aligned request is granted,
   or else what an unaligned one is granted if it happens to be aligned.
   */
  ghost function Obtained(gpu: Gpu, dev: Device, k: nat, size: nat, alignment: nat, hint: nat): (addr: Option<nat>) {
    if Grants(gpu, dev, k, size, alignment, hint) then Some(gpu.place(k, size, alignment, hint))
    else if alignment > 0 && Grants(gpu, dev, k + 1, size, 0, hint) && gpu.place(k + 1, size, 0, hint) % alignment == 0 then
      Some(gpu.place(k + 1, size, 0, hint))
    else None
  }

  /** Call number `k` gives an address that was just given up back to us: nobody has taken the range since. */
  ghost predicate Regains(gpu: Gpu, dev: Device, k: nat, p: nat, size: nat) {
    gpu.willing(k) && gpu.place(k, size, 0, p) == p && Reservable(dev.(reserved := dev.reserved - {p}), p, size, 0)
  }

  /** The call by which a sleep reserves its address again: after the copy, the chunks and the free. */
  ghost function SleepCall(k: nat, al: Allocation, offload: bool): (call: nat) {
    k + (if offload then 1 else 0) + 2 * |al.sizes| + 1
  }

  /**
   How far `my_malloc` comes: it asks for the granularity, reserves with one call or two, and then creates and
   maps `n` chunks.
   */
  ghost function MallocStage(gpu: Gpu, dev: Device, k: nat, pending: bool, size: nat, granularity: nat, n: nat): (stage: Stage) {
    if pending || !gpu.willing(k) || Obtained(gpu, dev, k + 1, size, granularity, 0).None? then RolledBack
    else StageOf(gpu, k + if Grants(gpu, dev, k + 1, size, granularity, 0) then 2 else 3, n, false)
  }

  lemma MallocStages(gpu: Gpu, dev: Device, k: nat, pending: bool, size: nat, granularity: nat, n: nat)
    ensures var stage := MallocStage(gpu, dev, k, pending, size, granularity, n);
      var got, first := Obtained(gpu, dev, k + 1, size, granularity, 0), Grants(gpu, dev, k + 1, size, granularity, 0);
      && (pending || !gpu.willing(k) || got.None? ==> stage.RolledBack?)
      && (!pending && gpu.willing(k) && got.Some? ==> stage == StageOf(gpu, k + if first then 2 else 3, n, false))
  {
    hide Obtained, Grants, StageOf;
  }

  /** A driver that does everything gives what is asked for, if the first address that it offers is free. */
  lemma ObligingMalloc(gpu: Gpu, dev: Device, k: nat, size: nat, granularity: nat, n: nat)
    ensures Obliging(gpu, k) && Reservable(dev, gpu.place(k + 1, size, granularity, 0), size, granularity) ==>
              MallocStage(gpu, dev, k, false, size, granularity, n).Complete?
  {
    hide Reservable;
    ObligingStage(gpu, k + 2, n);
  }

  lemma ObligingStage(gpu: Gpu, k: nat, n: nat)
    ensures Obliging(gpu, k) ==> StageOf(gpu, k, n, false).Complete?
  {
  }

  /** One of these calls the driver was not willing to do. */
  ghost predicate Unwilling(gpu: Gpu, from: nat, to: nat) {
    exists k: nat :: from <= k < to && !gpu.willing(k)
  }

  /** An awake allocation whose handles are mapped in its own range only. */
  ghost predicate MineAwake(dev: Device, p: nat, al: Allocation) {
    && Sound(dev, p, al) && !al.asleep
    && (forall a :: a in dev.page && dev.page[a].0 in al.handles ==> Within(p, al.size, a))
  }

  /** Nothing of the entry is there: no chunk to unmap, no handle to release. */
  ghost predicate NotThere(dev: Device, p: nat, al: Allocation) {
    && |al.handles| == |al.sizes| > 0 && al.size == Sum(al.sizes)
    && Barren(dev, p, al.sizes, |al.sizes|) && Unreleasable(dev, al.handles)
  }

  class Allocator {
    const gpu: Gpu
    const granularity: Word
    const env: ChunkEnv

    /** The global that holds the last error until an entry point reports it. */
    var errorCode: Status

    /** `pointer_to_data` of the Python side. */
    var table: Table

    /**
     Entries with nothing behind them: a failed `my_malloc` leaves the entry that it registered, a
     failed sleep leaves the entry of an address that is gone. The source does not tell them from the
     others.
     */
    ghost var stale: set<nat>

    constructor (gpu: Gpu, granularity: Word, env: ChunkEnv)
      requires granularity > 0 && gpu.dev == Device(map[], map[], map[], map[])
      ensures Valid() && errorCode == OK && table == map[] && stale == {}
      ensures this.gpu == gpu && this.granularity == granularity && this.env == env
    {
      this.gpu := gpu;
      this.granularity := granularity;
      this.env := env;
      errorCode := OK;
      table := map[];
      stale := {};
    }

    ghost predicate Valid()
      reads this, gpu
    {
      granularity > 0 && stale <= table.Keys && Consistent(gpu.dev, Held()) && StaleShaped()
    }

    /** Entries with nothing behind them still describe a range and its chunks. */
    ghost predicate StaleShaped()
      reads this
    {
      forall p :: p in stale && p in table ==> Shaped(table[p])
    }

    /** The addresses of the entry are not in use again, nor what its handle cells held. */
    ghost predicate OutOfUse(p: nat)
      reads this, gpu
      requires p in table
    {
      OutOfReach(gpu.dev, p, table[p])
    }

    /** The allocations that exist: the table without the leftovers of failed requests. */
    ghost function Held(): (allocs: Table)
      reads this
    {
      table - stale
    }

    method Check(status: Status)
      modifies `errorCode
      ensures errorCode == if status != OK then status else old(errorCode)
    {
      if status != OK {
        errorCode := status;
      }
    }

    /** First half of `create_and_map`: one handle per chunk, all or none. */
    method CreateHandles(sizes: seq<nat>, cells: seq<Handle>) returns (handles: seq<Handle>)
      requires |cells| == |sizes| > 0 && PagesLive(gpu.dev)
      modifies gpu`dev, gpu`faults, gpu`calls, `errorCode
      ensures |handles| == |sizes| && gpu.faults == old(gpu.faults)
      ensures errorCode == OK ==> old(errorCode) == OK && Created(old(gpu.dev), gpu.dev, sizes, handles)
      ensures old(errorCode) == OK && errorCode != OK && gpu.steadyTeardown ==> gpu.dev == old(gpu.dev)
      ensures old(errorCode) != OK ==> errorCode != OK
      ensures old(errorCode) != OK ==>
                if gpu.willing(old(gpu.calls)) then Created(old(gpu.dev), gpu.dev, sizes, handles[..1])
                else gpu.dev == old(gpu.dev)
      ensures old(errorCode) == OK ==> (errorCode == OK <==> Willing(gpu, old(gpu.calls), |sizes|))
      ensures errorCode == OK ==> gpu.calls == old(gpu.calls) + |sizes|
      ensures gpu.calls > old(gpu.calls)
      ensures old(errorCode) == OK && errorCode != OK ==> Unwilling(gpu, old(gpu.calls), gpu.calls)
    {
      handles := cells;
      var i := 0;
      while i < |sizes|
        invariant 0 <= i <= |sizes| == |handles| && gpu.faults == old(gpu.faults)
        invariant if i == 0 then errorCode == old(errorCode) else errorCode == old(errorCode) == OK
        invariant Created(old(gpu.dev), gpu.dev, sizes, handles[..i])
        invariant gpu.calls == old(gpu.calls) + i && Willing(gpu, old(gpu.calls), i)
      {
        ghost var before := gpu.dev;
        var status, h := gpu.MemCreate(sizes[i]);
        Check(status);
        if status == OK {
          handles := handles[i := h];
          CreatedStep(old(gpu.dev), before, gpu.dev, sizes, handles, i);
        }
        if errorCode != OK {
          ghost var created := gpu.dev;
          assert status != OK || i == 0;
          assert status != OK ==> !gpu.willing(old(gpu.calls) + i);
          PagesKeepOff(old(gpu.dev), handles[..i]);
          var ignored := ReleaseHandles(gpu, handles[..i]);
          return;
        }
        i := i + 1;
      }
      assert handles[..|sizes|] == handles;
    }

    /** Rollback after mapping chunk `i` failed: unmap the earlier chunks, release every handle. */
    method UndoMapping(base: nat, sizes: seq<nat>, handles: seq<Handle>, i: nat, ghost dev0: Device, ghost created: Device)
      requires Clear(dev0, base, sizes) && Created(dev0, created, sizes, handles)
      requires i <= |sizes| == |handles|
      requires gpu.dev == created.(page := created.page + Pages(base, sizes, handles, 0, i))
      modifies gpu`dev, gpu`faults, gpu`calls
      ensures gpu.steadyTeardown ==> gpu.faults == old(gpu.faults) && gpu.dev == dev0
      ensures gpu.calls >= old(gpu.calls)
    {
      PrefixMapped(dev0, created, gpu.dev, base, sizes, handles, i);
      var unmapError := UnmapChunks(gpu, base, sizes, handles, i);
      if unmapError == OK {
        PrefixGone(created.page, base, sizes, handles, i);
        assert gpu.dev.page == created.page;
        PagesKeepOff(dev0, handles);
      }
      var releaseError := ReleaseHandles(gpu, handles);
    }

    /** Second half: the chunks are mapped back to back; if one fails, nothing stays behind. */
    method MapHandles(base: nat, sizes: seq<nat>, handles: seq<Handle>, ghost dev0: Device)
      requires errorCode == OK && Created(dev0, gpu.dev, sizes, handles) && |handles| == |sizes|
      requires Placeable(dev0, base, sizes) || Homeless(dev0, base, sizes)
      modifies gpu`dev, gpu`faults, gpu`calls, `errorCode
      ensures Placeable(dev0, base, sizes) && (gpu.steadyTeardown || errorCode == OK) ==> gpu.faults == old(gpu.faults)
      ensures Placeable(dev0, base, sizes) ==> (errorCode == OK <==> Willing(gpu, old(gpu.calls), |sizes|))
      ensures Homeless(dev0, base, sizes) ==>
                errorCode != OK && (gpu.steadyTeardown ==> gpu.faults == old(gpu.faults) + 1)
      ensures errorCode == OK ==> gpu.calls == old(gpu.calls) + |sizes|
      ensures errorCode == OK ==>
                gpu.dev == old(gpu.dev).(page := old(gpu.dev.page) + Pages(base, sizes, handles, 0, |sizes|))
      ensures errorCode != OK && gpu.steadyTeardown ==> gpu.dev == dev0
      ensures gpu.calls > old(gpu.calls)
      ensures Placeable(dev0, base, sizes) && errorCode != OK ==> Unwilling(gpu, old(gpu.calls), gpu.calls)
    {
      hide Placeable, Homeless, Pages, Offset, Willing, Created;
      ghost var created := gpu.dev;
      WillingNone(gpu, gpu.calls);
      HomelessOrNot(dev0, base, sizes);
      NoPagesYet(created.page, base, sizes, handles);
      var mappedSize := 0;
      var i := 0;
      while i < |sizes|
        invariant 0 <= i <= |sizes| && mappedSize == Offset(sizes, i)
        invariant errorCode == OK && gpu.faults == old(gpu.faults)
        invariant gpu.dev == created.(page := created.page + Pages(base, sizes, handles, 0, i))
        invariant gpu.calls == old(gpu.calls) + i && Willing(gpu, old(gpu.calls), i)
        invariant i > 0 ==> Placeable(dev0, base, sizes)
      {
        WillingNext(gpu, old(gpu.calls), i, |sizes|);
        MapChunk(base, sizes, handles, i, mappedSize, dev0, created);
        if errorCode != OK {
          assert Placeable(dev0, base, sizes) ==> !gpu.willing(old(gpu.calls) + i);
          return;
        }
        mappedSize := mappedSize + sizes[i];
        i := i + 1;
      }
    }

    /** One chunk is mapped after those before it; if that fails, everything is undone. */
    method MapChunk(base: nat, sizes: seq<nat>, handles: seq<Handle>, i: nat, mappedSize: nat, ghost dev0: Device, ghost created: Device)
      requires errorCode == OK && Created(dev0, created, sizes, handles) && i < |handles| == |sizes| && mappedSize == Offset(sizes, i)
      requires Placeable(dev0, base, sizes) || (i == 0 && Homeless(dev0, base, sizes))
      requires gpu.dev == created.(page := created.page + Pages(base, sizes, handles, 0, i))
      modifies gpu`dev, gpu`faults, gpu`calls, `errorCode
      ensures Placeable(dev0, base, sizes) ==> (errorCode == OK <==> gpu.willing(old(gpu.calls)))
      ensures Homeless(dev0, base, sizes) ==> errorCode != OK
      ensures errorCode == OK ==>
                && Placeable(dev0, base, sizes) && gpu.faults == old(gpu.faults) && gpu.calls == old(gpu.calls) + 1
                && gpu.dev == created.(page := created.page + Pages(base, sizes, handles, 0, i + 1))
                && Offset(sizes, i + 1) == mappedSize + sizes[i]
      ensures errorCode != OK && gpu.steadyTeardown ==>
                gpu.dev == dev0 && gpu.faults == old(gpu.faults) + if Placeable(dev0, base, sizes) then 0 else 1
      ensures gpu.calls > old(gpu.calls)
    {
      hide Placeable, Homeless, Pages, Offset, CanMap, ChunkPages, Clear, Created;
      HomelessOrNot(dev0, base, sizes);
      MappableOrNot(dev0, created, gpu.dev, base, sizes, handles, i);
      ghost var before := gpu.dev;
      var status := gpu.MemMap(base + mappedSize, sizes[i], handles[i]);
      Check(status);
      if errorCode != OK {
        UndoMapping(base, sizes, handles, i, dev0, created);
        return;
      }
      PagesGrow(created, before, gpu.dev, base, sizes, handles, i);
    }

    /** `reserve_rocm_address`: if the aligned request fails, accept an unaligned one that happens to fit. */
    method ReserveAddress(size: nat, alignment: nat, hint: nat) returns (status: Status, addr: nat)
      requires PagesReserved(gpu.dev) && RangesApart(gpu.dev)
      modifies gpu`dev, gpu`faults, gpu`calls
      ensures gpu.faults == old(gpu.faults) && gpu.calls > old(gpu.calls)
      ensures var got := Obtained(gpu, old(gpu.dev), old(gpu.calls), size, alignment, hint);
        (status == OK <==> got.Some?) && (status == OK ==> addr == got.value)
      ensures status == OK ==>
                && addr > 0 && size > 0 && addr + size <= WORD && (alignment > 0 ==> addr % alignment == 0)
                && Unreserved(old(gpu.dev), addr, size)
                && gpu.dev == old(gpu.dev).(reserved := old(gpu.dev.reserved)[addr := size])
                && gpu.calls == old(gpu.calls) + if Grants(gpu, old(gpu.dev), old(gpu.calls), size, alignment, hint) then 1 else 2
      ensures status != OK && (gpu.steadyTeardown || alignment == 0) ==> gpu.dev == old(gpu.dev)
      ensures alignment == 0 ==> gpu.calls == old(gpu.calls) + 1
    {
      status, addr := gpu.AddressReserve(size, alignment, hint);
      if status == OK || alignment == 0 {
        return;
      }
      status, addr := gpu.AddressReserve(size, 0, hint);
      if status != OK {
        return;
      }
      if addr % alignment == 0 {
        return;
      }
      UnreservedIsUnmapped(old(gpu.dev), addr, size);
      var ignored := gpu.AddressFree(addr, size);
      assert addr !in old(gpu.dev.reserved);
      assert old(gpu.dev.reserved)[addr := size] - {addr} == old(gpu.dev.reserved);
      status := NOT_SUPPORTED;
    }

    /**
     `unmap_and_release`: every chunk is tried, the first error is reported. Where nothing of the entry is
     there every call is refused and nothing changes.
     */
    method UnmapAndRelease(p: nat, al: Allocation)
      requires MineAwake(gpu.dev, p, al) || NotThere(gpu.dev, p, al)
      modifies gpu`dev, gpu`faults, gpu`calls, `errorCode
      ensures old(MineAwake(gpu.dev, p, al)) ==>
                && Reported(gpu, old(gpu.calls), |al.sizes| + |al.handles|, old(errorCode), errorCode)
                && (gpu.steadyTeardown ==> errorCode == old(errorCode))
                && (errorCode == old(errorCode) == OK || gpu.steadyTeardown ==>
                      gpu.faults == old(gpu.faults) && gpu.dev == Emptied(old(gpu.dev), p, al))
      ensures old(NotThere(gpu.dev, p, al)) ==>
                gpu.dev == old(gpu.dev) && gpu.faults == old(gpu.faults) + 2 * |al.sizes| && errorCode != OK
      ensures SameElsewhere(old(gpu.dev), gpu.dev, p, al.size, Elements(al.handles))
      ensures gpu.dev.reserved == old(gpu.dev.reserved) && gpu.dev.others == old(gpu.dev.others)
      ensures old(errorCode) != OK ==> errorCode != OK
      ensures gpu.calls == old(gpu.calls) + |al.sizes| + |al.handles|
    {
      ghost var mine, before := MineAwake(gpu.dev, p, al), errorCode;
      hide MineAwake, NotThere, Emptied, SameElsewhere, FirstFailure, Reported;
      var firstError := Teardown(p, al);
      if mine { ReportFirst(gpu, old(gpu.calls), |al.sizes| + |al.handles|, before, firstError); }
      if firstError != OK {
        Check(firstError);
      }
    }

    /** The two loops, the second of which runs whatever the first one met. */
    method Teardown(p: nat, al: Allocation) returns (firstError: Status)
      requires MineAwake(gpu.dev, p, al) || NotThere(gpu.dev, p, al)
      modifies gpu`dev, gpu`faults, gpu`calls
      ensures old(MineAwake(gpu.dev, p, al)) ==>
                && FirstFailure(gpu, old(gpu.calls), |al.sizes| + |al.handles|, firstError) && gpu.faults == old(gpu.faults)
                && (firstError == OK ==> gpu.dev == Emptied(old(gpu.dev), p, al))
      ensures old(NotThere(gpu.dev, p, al)) ==>
                gpu.dev == old(gpu.dev) && gpu.faults == old(gpu.faults) + 2 * |al.sizes| && firstError == INVALID
      ensures SameElsewhere(old(gpu.dev), gpu.dev, p, al.size, Elements(al.handles))
      ensures gpu.dev.reserved == old(gpu.dev.reserved) && gpu.dev.others == old(gpu.dev.others)
      ensures gpu.calls == old(gpu.calls) + |al.sizes| + |al.handles|
    {
      hide *;
      ghost var mine, dev0 := MineAwake(gpu.dev, p, al), gpu.dev;
      BeforeTeardown(dev0, p, al);
      firstError := UnmapChunks(gpu, p, al.sizes, al.handles, |al.sizes|);
      ghost var mid := gpu.dev;
      SameHandles(dev0, mid, al.handles);
      var releaseError := ReleaseHandles(gpu, al.handles);
      AfterTeardown(dev0, mid, gpu.dev, p, al);
      if mine { FailuresJoin(gpu, old(gpu.calls), |al.sizes|, |al.handles|, firstError, releaseError); }
      if firstError == OK {
        firstError := releaseError;
      }
    }

    /**
     `create_and_map`: zeroed memory behind the whole range, or an error. How far it comes is decided by
     whether an error is pending and by which calls the driver is willing to do.
     */
    method CreateAndMap(base: nat, sizes: seq<nat>, cells: seq<Handle>) returns (handles: seq<Handle>, ghost stage: Stage)
      requires |cells| == |sizes| && NoAliasing(gpu.dev)
      requires Placeable(gpu.dev, base, sizes) || Homeless(gpu.dev, base, sizes)
      modifies gpu`dev, gpu`faults, gpu`calls, `errorCode
      ensures |handles| == |sizes|
      ensures errorCode == OK <==> stage.Complete?
      ensures stage == if old(Placeable(gpu.dev, base, sizes))
                       then StageOf(gpu, old(gpu.calls), |sizes|, old(errorCode) != OK)
                       else if old(errorCode) != OK && gpu.willing(old(gpu.calls)) then Leaked else RolledBack
      ensures old(Placeable(gpu.dev, base, sizes)) && (stage.Complete? || gpu.steadyTeardown) ==> gpu.faults == old(gpu.faults)
      ensures old(Homeless(gpu.dev, base, sizes)) && gpu.steadyTeardown ==>
                gpu.faults == old(gpu.faults)
                  + if old(errorCode) == OK && Willing(gpu, old(gpu.calls), |sizes|) then 1 else 0
      ensures stage.Complete? ==> Installed(old(gpu.dev), gpu.dev, base, sizes, handles)
      ensures stage.Complete? ==> gpu.dev.others == old(gpu.dev.others)
      ensures stage.Complete? ==> Readable(gpu.dev, base, Sum(sizes))
      ensures stage.Complete? ==> Contents(gpu.dev, base, Sum(sizes)) == Zeros(Sum(sizes))
      ensures stage.RolledBack? && gpu.steadyTeardown ==> gpu.dev == old(gpu.dev)
      ensures stage.Stranded? ==> !gpu.steadyAccess && Installed(old(gpu.dev), gpu.dev, base, sizes, handles)
      ensures stage.Leaked? ==> old(errorCode) != OK && Created(old(gpu.dev), gpu.dev, sizes, handles[..1])
      ensures old(errorCode) != OK ==> stage.Leaked? || (stage.RolledBack? && gpu.dev == old(gpu.dev))
      ensures gpu.calls > old(gpu.calls)
      ensures old(Placeable(gpu.dev, base, sizes)) && old(errorCode) == OK && !stage.Complete? ==>
                Unwilling(gpu, old(gpu.calls), gpu.calls)
    {
      ghost var dev0, n := gpu.dev, |sizes|;
      OffsetEnds(sizes);
      handles := CreateHandles(sizes, cells);
      if errorCode != OK {
        stage := if old(errorCode) != OK && gpu.willing(old(gpu.calls)) then Leaked else RolledBack;
        return;
      }
      ghost var created := gpu.dev;
      MapHandles(base, sizes, handles, dev0);
      if errorCode != OK {
        stage := RolledBack;
        return;
      }
      MoreWilling(gpu, old(gpu.calls), n, n);
      stage := Attach(base, sizes, handles, dev0);
    }

    /** The end of `create_and_map`: access is set and the range is cleared, or the mapping is left behind. */
    method Attach(base: nat, sizes: seq<nat>, handles: seq<Handle>, ghost dev0: Device) returns (ghost stage: Stage)
      requires errorCode == OK && Placeable(dev0, base, sizes) && NoAliasing(dev0)
      requires Installed(dev0, gpu.dev, base, sizes, handles)
      modifies gpu`dev, gpu`faults, gpu`calls, `errorCode
      ensures gpu.faults == old(gpu.faults) && Installed(dev0, gpu.dev, base, sizes, handles)
      ensures errorCode == OK <==> stage.Complete?
      ensures stage == if gpu.steadyAccess || Willing(gpu, old(gpu.calls), 2) then Complete else Stranded
      ensures stage.Complete? ==>
                && gpu.dev.others == dev0.others && Readable(gpu.dev, base, Sum(sizes))
                && Contents(gpu.dev, base, Sum(sizes)) == Zeros(Sum(sizes))
      ensures gpu.calls > old(gpu.calls) && (stage.Stranded? ==> Unwilling(gpu, old(gpu.calls), gpu.calls))
    {
      hide Installed, Placeable, NoAliasing, Readable, Contents, Spared, Willing, PagesLive;
      InstalledPages(dev0, gpu.dev, base, sizes, handles);
      InstalledNoAliasing(dev0, gpu.dev, base, sizes, handles);
      InstalledSame(dev0, gpu.dev, base, sizes, handles);
      WillingTwo(gpu, gpu.calls);
      var status := gpu.MemSetAccess(base, Sum(sizes));
      Check(status);
      if errorCode != OK {
        assert !gpu.willing(old(gpu.calls));
        stage := Stranded;
        return;
      }
      ghost var before := gpu.dev;
      status := gpu.Memset(base, Sum(sizes), 0);
      Check(status);
      if errorCode != OK {
        assert !gpu.willing(old(gpu.calls) + 1);
        stage := Stranded;
        return;
      }
      assert seq<Byte>(Sum(sizes), _ => 0) == Zeros(Sum(sizes));
      InstalledAfterClear(dev0, before, gpu.dev, base, sizes, handles, Zeros(Sum(sizes)));
      InstalledPages(dev0, gpu.dev, base, sizes, handles);
      stage := Complete;
    }

    /** What the callers see: the bytes behind every address that was handed out. */
    ghost function Logical(): (view: map<nat, seq<Byte>>)
      requires Valid()
      reads this, gpu
    {
      View(gpu.dev, Held())
    }

    /**
     `my_malloc`. A returned address is a new zeroed allocation; a null result leaves the device
     exactly as it was, unless the failure came after mapping (`Stranded`). The error stays
     pending, and a pending error makes every later request fail at once.
     */
    method Malloc(size: Word, tag: string) returns (ptr: nat, ghost stage: Stage)
      requires Valid() && gpu.steadyTeardown
      requires AlignUp(size, granularity) > 0 ==>
                 NoWrap(AlignUp(size, granularity), ConfiguredChunk(env), granularity)
      modifies gpu`dev, gpu`faults, gpu`calls, `errorCode, `table, `stale
      ensures stage == MallocStage(gpu, old(gpu.dev), old(gpu.calls), old(errorCode) != OK, AlignUp(size, granularity), granularity,
                                   ChunksNeeded(AlignUp(size, granularity), AlignUp(ConfiguredChunk(env), granularity)))
      ensures ptr != 0 ==>
                Some(ptr) == Obtained(gpu, old(gpu.dev), old(gpu.calls) + 1, AlignUp(size, granularity), granularity, 0)
      ensures var aligned := AlignUp(size, granularity);
        var offered := gpu.place(old(gpu.calls) + 1, aligned, granularity, 0);
        old(errorCode) == OK && Obliging(gpu, old(gpu.calls)) && Reservable(old(gpu.dev), offered, aligned, granularity) ==> ptr != 0
      ensures ptr != 0 <==> stage.Complete?
      ensures ptr != 0 <==> errorCode == OK
      ensures ptr != 0 ==>
                && Valid() && gpu.faults == old(gpu.faults) && gpu.dev.others == old(gpu.dev.others)
                && ptr !in old(Held()) && ptr % granularity == 0
                && ptr in table && Held() == old(Held())[ptr := table[ptr]] && stale == old(stale) - {ptr}
                && Logical() == old(Logical())[ptr := Zeros(table[ptr].size)]
      ensures ptr != 0 ==>
                && table[ptr].tag == tag && !table[ptr].asleep
                && table[ptr].size == AlignUp(size, granularity)
                && Covers(table[ptr].sizes, table[ptr].size, granularity)
      ensures stage.RolledBack? ==>
                && Valid() && gpu.faults == old(gpu.faults)
                && gpu.dev == old(gpu.dev) && Held() == old(Held()) && old(stale) <= stale
      ensures !stage.Leaked?
      ensures stage.Stranded? ==> !gpu.steadyAccess && gpu.faults == old(gpu.faults) + 1
      ensures stage.Stranded? ==> old(gpu.dev.live.Keys) < gpu.dev.live.Keys
      ensures old(errorCode) != OK ==> stage.RolledBack? && table == old(table) && stale == old(stale)
    {
      hide Consistent, View, Shaped, Unreserved, MallocStage, StageOf, Obtained, Grants, ChunksNeeded, AlignUp, NoWrap;
      MallocStages(gpu, gpu.dev, gpu.calls, errorCode != OK, AlignUp(size, granularity), granularity,
                   ChunksNeeded(AlignUp(size, granularity), AlignUp(ConfiguredChunk(env), granularity)));
      ObligingMalloc(gpu, gpu.dev, gpu.calls, AlignUp(size, granularity), granularity,
                     ChunksNeeded(AlignUp(size, granularity), AlignUp(ConfiguredChunk(env), granularity)));
      var query := gpu.GetGranularity();
      Check(query);
      if errorCode != OK {
        return 0, RolledBack;
      }
      var alignedSize := AlignUp(size, granularity);
      var status, p := ReserveOutside(alignedSize);
      Check(status);
      if errorCode != OK {
        return 0, RolledBack;
      }
      AlignUpMultiple(size, granularity);
      var plan := PlanChunks(alignedSize, ConfiguredChunk(env), granularity);
      ptr, stage := MallocAt(p, plan.sizes, tag, old(gpu.dev), old(Held()));
    }

    method ReserveOutside(size: nat) returns (status: Status, p: nat)
      requires Valid() && gpu.steadyTeardown
      modifies gpu`dev, gpu`faults, gpu`calls
      ensures gpu.faults == old(gpu.faults)
      ensures var got := Obtained(gpu, old(gpu.dev), old(gpu.calls), size, granularity, 0);
        (status == OK <==> got.Some?) && (status == OK ==> p == got.value)
      ensures status == OK ==>
                gpu.calls == old(gpu.calls) + if Grants(gpu, old(gpu.dev), old(gpu.calls), size, granularity, 0) then 1 else 2
      ensures status != OK ==> gpu.dev == old(gpu.dev)
      ensures status == OK ==>
                && p > 0 && size > 0 && p % granularity == 0 && Unreserved(old(gpu.dev), p, size)
                && gpu.dev == old(gpu.dev).(reserved := old(gpu.dev.reserved)[p := size])
    {
      PagesLieInReservations(gpu.dev, Held());
      status, p := ReserveAddress(size, granularity, 0);
    }

    /** `my_malloc` from the point where the address is reserved and the chunks are planned. */
    method MallocAt(p: nat, sizes: seq<nat>, tag: string, ghost dev0: Device, ghost held0: Table)
      returns (ptr: nat, ghost stage: Stage)
      requires granularity > 0 && stale <= table.Keys && StaleShaped() && gpu.steadyTeardown && errorCode == OK
      requires Consistent(dev0, held0) && held0 == Held()
      requires p > 0 && Covers(sizes, Sum(sizes), granularity) && Sum(sizes) > 0
      requires Unreserved(dev0, p, Sum(sizes))
      requires gpu.dev == dev0.(reserved := dev0.reserved[p := Sum(sizes)])
      modifies gpu`dev, gpu`faults, gpu`calls, `errorCode, `table, `stale
      ensures ptr == (if stage.Complete? then p else 0) && stage == StageOf(gpu, old(gpu.calls), |sizes|, false)
      ensures stage.Complete? <==> errorCode == OK
      ensures stage.Complete? ==>
                && Valid() && gpu.faults == old(gpu.faults) && gpu.dev.others == dev0.others
                && p !in held0 && p in table && Held() == held0[p := table[p]] && stale == old(stale) - {p}
                && AllSound(dev0, held0) && Logical() == View(dev0, held0)[p := Zeros(Sum(sizes))]
                && table[p] == Allocation(Sum(sizes), sizes, table[p].handles, tag, false, NoBackup)
      ensures stage.RolledBack? ==>
                && Valid() && gpu.faults == old(gpu.faults)
                && gpu.dev == dev0 && Held() == held0 && old(stale) <= stale
                && p in table && table == old(table)[p := table[p]] && stale == old(stale) + {p}
      ensures !stage.Leaked?
      ensures stage.Stranded? ==> !gpu.steadyAccess && gpu.faults == old(gpu.faults) + 1
      ensures stage.Stranded? ==> dev0.live.Keys < gpu.dev.live.Keys
    {
      hide Consistent, Mapped, Shaped, View, Installed, Placeable, Unreserved, Contents, Readable, NoAliasing;
      hide Homeless, Willing, StageOf, Created;
      ghost var reserved := gpu.dev;
      var cells: seq<Handle> := *;
      if |cells| != |sizes| {
        cells := seq(|sizes|, _ => 0);
      }
      ReservedIsPlaceable(dev0, held0, reserved, p, sizes);
      Register(p, sizes, cells, tag);
      var handles;
      handles, stage := CreateAndMap(p, sizes, cells);
      if errorCode != OK {
        NewIsNotForeign(dev0, held0, p, Sum(sizes));
        GiveBack(p, sizes, handles, dev0, stage);
        return 0, stage;
      }
      var al := Allocation(Sum(sizes), sizes, handles, tag, false, NoBackup);
      Settle(p, al, reserved, dev0, held0);
      return p, stage;
    }

    /** The Python callback registers the allocation before it is mapped. */
    method Register(p: nat, sizes: seq<nat>, cells: seq<Handle>, tag: string)
      requires granularity > 0 && stale <= table.Keys && StaleShaped() && p !in Held()
      requires |cells| == |sizes| && Covers(sizes, Sum(sizes), granularity) && Sum(sizes) > 0
      modifies `table, `stale
      ensures table == old(table)[p := Allocation(Sum(sizes), sizes, cells, tag, false, NoBackup)]
      ensures stale == old(stale) + {p} && stale <= table.Keys && StaleShaped() && Held() == old(Held())
    {
      NewShaped(sizes, cells, tag, granularity);
      hide Shaped, Covers;
      table := table[p := Allocation(Sum(sizes), sizes, cells, tag, false, NoBackup)];
      stale := stale + {p};
      Unregistered(old(table), old(stale), p, table[p]);
    }

    /** The registered entry now describes mapped memory. */
    method Settle(p: nat, al: Allocation, ghost reserved: Device, ghost dev0: Device, ghost held0: Table)
      requires granularity > 0 && p in table && p in stale && stale <= table.Keys && StaleShaped() && p !in held0 && Held() == held0
      requires Consistent(dev0, held0) && Unreserved(dev0, p, al.size)
      requires reserved == dev0.(reserved := dev0.reserved[p := al.size])
      requires Placeable(reserved, p, al.sizes) && Installed(reserved, gpu.dev, p, al.sizes, al.handles)
      requires al.size == Sum(al.sizes) && !al.asleep && al.backup.NoBackup?
      requires Readable(gpu.dev, p, al.size) && Contents(gpu.dev, p, al.size) == Zeros(al.size)
      modifies `table, `stale
      ensures Valid() && table == old(table)[p := al] && stale == old(stale) - {p}
      ensures Held() == held0[p := al]
      ensures AllSound(dev0, held0) && Logical() == View(dev0, held0)[p := Zeros(al.size)]
    {
      hide Consistent, Mapped, Shaped, View, Installed, Placeable, Unreserved, Contents, Readable;
      MallocOutcome(dev0, held0, reserved, gpu.dev, p, al);
      Registered(table, stale, p, al);
      table := table[p := al];
      stale := stale - {p};
    }

    /** The end of a failed `my_malloc`: the address can be given back only if nothing is mapped. */
    method GiveBack(p: nat, sizes: seq<nat>, handles: seq<Handle>, ghost dev0: Device, ghost stage: Stage)
      requires gpu.steadyTeardown && errorCode != OK && p !in dev0.reserved && p !in dev0.others
      requires ghost var reserved := dev0.(reserved := dev0.reserved[p := Sum(sizes)]);
        && Placeable(reserved, p, sizes)
        && (stage.RolledBack? ==> gpu.dev == reserved)
        && (stage.Stranded? ==> Installed(reserved, gpu.dev, p, sizes, handles))
      modifies gpu`dev, gpu`faults, gpu`calls, `errorCode
      ensures errorCode != OK
      ensures stage.RolledBack? ==> gpu.dev == dev0 && gpu.faults == old(gpu.faults)
      ensures stage.Stranded? ==> gpu.dev == old(gpu.dev) && gpu.faults == old(gpu.faults) + 1
      ensures stage.Stranded? ==> dev0.live.Keys < gpu.dev.live.Keys
    {
      ghost var reserved := dev0.(reserved := dev0.reserved[p := Sum(sizes)]);
      if stage.Stranded? {
        InstalledPages(reserved, gpu.dev, p, sizes, handles);
        assert p in gpu.dev.page;
        InstalledLeaks(reserved, gpu.dev, p, sizes, handles);
      }
      assert dev0.reserved[p := Sum(sizes)] - {p} == dev0.reserved;
      var status := gpu.AddressFree(p, Sum(sizes));
      Check(status);
    }

    /**
     `my_free`. The entry leaves the table in any case. For an allocation the address is given back exactly
     when the caller's size is the recorded, aligned one. An entry whose address a failed sleep has lost
     makes a single call, which is refused, unless another allocator has reserved exactly that range since:
     then it is that reservation that is given back. For the leftover of a failed request every call is
     refused.
     */
    method Free(p: nat, size: nat)
      requires Valid() && gpu.steadyTeardown && p in table && (p in stale && !table[p].asleep ==> OutOfUse(p))
      modifies gpu`dev, gpu`faults, gpu`calls, `errorCode, `table, `stale
      ensures table == old(table) - {p} && stale == old(stale) - {p}
      ensures p in old(Held()) && size == old(table[p].size) ==>
                && Valid() && gpu.faults == old(gpu.faults) && errorCode == old(errorCode)
                && Held() == old(Held()) - {p} && Logical() == old(Logical()) - {p}
                && p !in gpu.dev.reserved && gpu.dev.others == old(gpu.dev.others)
      ensures p in old(Held()) && size != old(table[p].size) ==>
                && gpu.faults == old(gpu.faults) + 1 && errorCode != OK
                && gpu.dev.reserved == old(gpu.dev.reserved) && p in gpu.dev.reserved
      ensures p in old(stale) ==> Valid() && Held() == old(Held()) && Logical() == old(Logical())
      ensures p in old(stale) && old(table[p].asleep) && old(Theirs(gpu.dev, p, size)) ==>
                && gpu.faults == old(gpu.faults)
                && (if gpu.willing(old(gpu.calls)) then errorCode == old(errorCode) else errorCode != OK)
                && gpu.dev == if gpu.willing(old(gpu.calls)) then old(gpu.dev).(others := old(gpu.dev.others) - {p})
                              else old(gpu.dev)
      ensures p in old(stale) && old(table[p].asleep) && !old(Theirs(gpu.dev, p, size)) ==>
                gpu.faults == old(gpu.faults) + 1 && errorCode != OK && gpu.dev == old(gpu.dev)
      ensures p in old(stale) && !old(table[p].asleep) ==>
                gpu.faults == old(gpu.faults) + 1 + 2 * |old(table[p].sizes)| && errorCode != OK && gpu.dev == old(gpu.dev)
    {
      hide Consistent, Mapped, Shaped, View, MineAwake, NotThere, Unreserved, RangesApart;
      ghost var dev0, held0 := gpu.dev, Held();
      var al := table[p];
      EntryState(gpu.dev, table, stale, p);
      NotForeign(gpu.dev, table, stale, p);
      table := table - {p};
      stale := stale - {p};
      RemovedEntry(old(table), old(stale), p);
      if !al.asleep {
        UnmapAndRelease(p, al);
      }
      var status := gpu.AddressFree(p, size);
      Check(status);
      if p in held0 {
        if size == al.size { FreeOutcome(dev0, held0, gpu.dev, p); }
      } else {
        FewerOthers(dev0, gpu.dev, p);
        OthersOutcome(dev0, held0, gpu.dev);
      }
    }

    /**
     Gives the address back so that the driver reclaims the memory, and reserves it again at once.
     Other allocators may run in between. The same address is held again exactly when the driver is willing to
     reserve, offers it, and nobody has taken it; otherwise an error is set and nothing of the allocation is
     left.
     */
    method Rereserve(p: nat, al: Allocation, ghost dev0: Device, ghost held0: Table)
      requires gpu.steadyTeardown && errorCode == OK
      requires Consistent(dev0, held0) && p in held0 && held0[p] == al && !al.asleep
      requires gpu.dev == Emptied(dev0, p, al)
      modifies gpu`dev, gpu`faults, gpu`calls, `errorCode
      ensures gpu.faults == old(gpu.faults) && old(gpu.calls) + 1 < gpu.calls <= old(gpu.calls) + 3
      ensures errorCode == OK <==> Regains(gpu, gpu.dev, old(gpu.calls) + 1, p, al.size)
      ensures errorCode == OK ==>
                gpu.dev == Emptied(dev0, p, al).(others := gpu.dev.others) && RangesApart(gpu.dev)
      ensures errorCode != OK ==>
                && gpu.dev == Emptied(dev0, p, al).(reserved := dev0.reserved - {p}, others := gpu.dev.others)
                && Consistent(gpu.dev, held0 - {p})
                && AllSound(gpu.dev, held0 - {p}) && AllSound(dev0, held0)
                && View(gpu.dev, held0 - {p}) == View(dev0, held0) - {p}
    {
      hide Consistent, Mapped, Shaped, View, Unreserved, RangesApart, PagesReserved, Regains, Obtained, Grants, Sound, AllSound, Unmapped;
      Vacate(p, al, dev0, held0);
      ghost var raced := gpu.dev;
      RegainsIff(gpu, raced, old(gpu.calls) + 1, p, al.size);
      var status, addr := ReserveAddress(al.size, 0, p);
      Check(status);
      if errorCode == OK {
        ReserveKeepsApart(raced, addr, al.size);
        if addr == p {
          Rejoined(dev0, held0, p);
        } else {
          Decline(addr, al.size, raced);
          assert raced.reserved - {p} == raced.reserved;
        }
      }
    }

    /** Another address than the one asked for is given back, and that is an error. */
    method Decline(addr: nat, size: nat, ghost raced: Device)
      requires gpu.steadyTeardown && PagesReserved(raced) && Unreserved(raced, addr, size) && RangesApart(raced) && size > 0
      requires gpu.dev == raced.(reserved := raced.reserved[addr := size])
      modifies gpu`dev, gpu`faults, gpu`calls, `errorCode
      ensures gpu.dev == raced && gpu.faults == old(gpu.faults) && gpu.calls == old(gpu.calls) + 1 && errorCode == INVALID
    {
      UnreservedIsUnmapped(raced, addr, size);
      assert addr !in raced.reserved;
      assert raced.reserved[addr := size] - {addr} == raced.reserved;
      var ignored := gpu.AddressFree(addr, size);
      errorCode := INVALID;
    }

    /** The address is given back, and other allocators run. */
    method Vacate(p: nat, al: Allocation, ghost dev0: Device, ghost held0: Table)
      requires gpu.steadyTeardown && errorCode == OK
      requires Consistent(dev0, held0) && p in held0 && held0[p] == al && !al.asleep
      requires gpu.dev == Emptied(dev0, p, al)
      modifies gpu`dev, gpu`faults, gpu`calls, `errorCode
      ensures gpu.faults == old(gpu.faults) && errorCode == OK && gpu.calls == old(gpu.calls) + 1
      ensures gpu.dev == Emptied(dev0, p, al).(reserved := dev0.reserved - {p}, others := gpu.dev.others)
      ensures Consistent(gpu.dev, held0 - {p}) && RangesApart(gpu.dev) && PagesReserved(gpu.dev)
      ensures AllSound(gpu.dev, held0 - {p}) && AllSound(dev0, held0)
      ensures View(gpu.dev, held0 - {p}) == View(dev0, held0) - {p}
    {
      hide Consistent, Mapped, Shaped, View, RangesApart, PagesReserved;
      ConsistentParts(dev0, held0);
      assert Sound(dev0, p, al);
      var status := gpu.AddressFree(p, al.size);
      Check(status);
      FreeOutcome(dev0, held0, gpu.dev, p);
      ConsistentParts(gpu.dev, held0 - {p});
      ghost var freed := gpu.dev;
      gpu.OthersRun();
      OthersOutcome(freed, held0 - {p}, gpu.dev);
      PagesLieInReservations(gpu.dev, held0 - {p});
    }

    /**
     Sleep for one entry of the table: the optional copy to the host, then `python_unmap_and_release`. For
     an allocation it ends with the same address held and nothing mapped, or it reports an error. A
     pending error is reported too, but then the address was never given up. For an entry with nothing
     behind it that reaches nothing in use again, the copy or every driver call is refused, and nothing
     changes but its state.
     */
    method Sleep(p: nat, offload: bool) returns (ok: bool)
      requires Valid() && gpu.steadyTeardown && p in table && !table[p].asleep && (p in stale ==> OutOfUse(p))
      modifies gpu`dev, gpu`faults, gpu`calls, `errorCode, `table, `stale
      ensures Valid() && old(stale) <= stale && p in table
      ensures old(errorCode) != OK ==> !ok
      ensures p in old(Held()) ==> errorCode == OK && gpu.faults == old(gpu.faults)
      ensures p in old(Held()) ==>
                var k := SleepCall(old(gpu.calls), old(table[p]), offload);
                && (ok <==> old(errorCode) == OK && Regains(gpu, gpu.dev, k, p, table[p].size))
                && (old(errorCode) == OK ==> k < gpu.calls <= k + 2)
      ensures gpu.calls >= old(gpu.calls)
      ensures p in old(Held()) ==>
                && table == old(table)[p := old(table[p]).(asleep := true, backup := table[p].backup)]
                && (table[p].backup.Saved? <==> offload)
      ensures p in old(Held()) && (ok || old(errorCode) != OK) ==>
                && p in Held() && stale == old(stale)
                && p in gpu.dev.reserved && gpu.dev.reserved[p] == table[p].size
                && Unmapped(gpu.dev, p, table[p].size)
                && Logical() == if offload then old(Logical()) else old(Logical())[p := Zeros(table[p].size)]
      ensures p in old(Held()) && !ok && old(errorCode) == OK ==>
                && p in stale && stale == old(stale) + {p} && p !in gpu.dev.reserved
                && Logical() == old(Logical()) - {p}
      ensures p in old(stale) ==>
                && !ok && gpu.dev == old(gpu.dev) && stale == old(stale) && Held() == old(Held())
                && gpu.faults == old(gpu.faults) + (if offload then 1 else 2 * |table[p].sizes|)
                && errorCode == (if offload then old(errorCode) else OK)
                && table == if offload then old(table) else old(table)[p := old(table[p]).(asleep := true)]
      ensures gpu.dev.reserved.Keys <= old(gpu.dev.reserved.Keys)
      ensures forall q :: q in gpu.dev.reserved ==> gpu.dev.reserved[q] == old(gpu.dev.reserved)[q]
    {
      hide Consistent, Mapped, Shaped, View, Unmapped, RangesApart, MineAwake, NotThere, Unreserved, Readable, Regains, Sound, SameElsewhere;
      ghost var dev0, held0 := gpu.dev, Held();
      var al := table[p];
      ConsistentParts(dev0, held0);
      EntryState(dev0, table, stale, p);
      var backup := al.backup;
      if offload {
        var copied, bytes := gpu.Fetch(p, al.size);
        if copied != OK {
          return false;
        }
        backup := Saved(bytes);
      }
      UnmapAndRelease(p, al);
      ok := Finish(p, al, backup, dev0);
    }

    /** The rest of sleep, once the chunks of an allocation are gone or those of a stale entry were not found. */
    method Finish(p: nat, al: Allocation, backup: Backup, ghost dev0: Device) returns (ok: bool)
      requires granularity > 0 && stale <= table.Keys && StaleShaped() && gpu.steadyTeardown
      requires p in table && table[p] == al && !al.asleep && Consistent(dev0, Held()) && AllSound(dev0, Held())
      requires p !in stale ==>
                 && Readable(dev0, p, al.size) && gpu.dev == Emptied(dev0, p, al)
                 && (if backup.Saved? then backup.bytes == Contents(dev0, p, al.size) else backup == NoBackup)
      requires p in stale ==> gpu.dev == dev0 && errorCode != OK && backup == al.backup
      modifies gpu`dev, gpu`faults, gpu`calls, `errorCode, `table, `stale
      ensures Valid() && errorCode == OK && gpu.faults == old(gpu.faults)
      ensures table == old(table)[p := al.(asleep := true, backup := backup)]
      ensures old(errorCode) != OK ==> !ok && stale == old(stale)
      ensures old(errorCode) == OK ==>
                (ok <==> Regains(gpu, gpu.dev, old(gpu.calls) + 1, p, al.size)) && old(gpu.calls) + 1 < gpu.calls <= old(gpu.calls) + 3
      ensures gpu.calls >= old(gpu.calls)
      ensures p in old(stale) ==> gpu.dev == old(gpu.dev) && Held() == old(Held())
      ensures p !in old(stale) && (ok || old(errorCode) != OK) ==>
                && p in Held() && stale == old(stale)
                && p in gpu.dev.reserved && gpu.dev.reserved[p] == table[p].size
                && Unmapped(gpu.dev, p, table[p].size)
                && Logical() == if backup.Saved? then View(dev0, old(Held())) else View(dev0, old(Held()))[p := Zeros(table[p].size)]
      ensures !ok && old(errorCode) == OK ==>
                && p in stale && stale == old(stale) + {p} && p !in gpu.dev.reserved
                && Logical() == View(dev0, old(Held())) - {p}
      ensures gpu.dev.reserved == dev0.reserved || gpu.dev.reserved == dev0.reserved - {p}
    {
      hide Consistent, Mapped, Shaped, View, Unmapped, RangesApart, Readable, Contents;
      ConsistentParts(dev0, Held());
      var pending := errorCode != OK;
      if errorCode == OK {
        Rereserve(p, al, dev0, Held());
      } else {
        SameRangesApart(dev0, gpu.dev);
      }
      ok := errorCode == OK;
      errorCode := OK;
      MarkAsleep(p, backup, !ok && !pending, dev0);
    }

    /** The bookkeeping after sleep, whether or not the address could be kept. */
    method MarkAsleep(p: nat, backup: Backup, ghost lost: bool, ghost dev0: Device)
      requires granularity > 0 && stale <= table.Keys && StaleShaped() && p in table && !table[p].asleep
      requires Consistent(dev0, Held()) && AllSound(dev0, Held()) && (lost ==> p !in stale)
      requires p in stale ==> gpu.dev == dev0 && backup == table[p].backup
      requires p !in stale ==>
                 Readable(dev0, p, table[p].size) && (backup.Saved? ==> backup.bytes == Contents(dev0, p, table[p].size))
      requires lost ==>
                 && p !in gpu.dev.reserved && Consistent(gpu.dev, Held() - {p}) && AllSound(gpu.dev, Held() - {p})
                 && View(gpu.dev, Held() - {p}) == View(dev0, Held()) - {p}
      requires !lost && p !in stale ==>
                 gpu.dev == Emptied(dev0, p, table[p]).(others := gpu.dev.others) && RangesApart(gpu.dev)
      modifies `table, `stale
      ensures Valid() && stale == if lost then old(stale) + {p} else old(stale)
      ensures table == old(table)[p := old(table[p]).(asleep := true, backup := backup)]
      ensures p in old(stale) ==> Held() == old(Held())
      ensures lost ==> Logical() == View(dev0, old(Held())) - {p}
      ensures !lost && p !in old(stale) ==>
                && p in gpu.dev.reserved && gpu.dev.reserved[p] == table[p].size
                && Unmapped(gpu.dev, p, table[p].size)
                && Logical() == if backup.Saved? then View(dev0, old(Held()))
                                else View(dev0, old(Held()))[p := Zeros(table[p].size)]
    {
      hide Consistent, Mapped, View, RangesApart, Readable, Contents;
      ghost var held0 := Held();
      var al := table[p];
      ghost var al' := al.(asleep := true, backup := backup);
      if p in stale {
        StaleUpdated(table, stale, p, al');
      } else {
        assert Sound(dev0, p, held0[p]);
        if lost {
          Dropped(table, stale, p, al');
        } else {
          SleepOutcome(dev0, held0, gpu.dev, p, backup);
          Updated(table, stale, p, al');
          assert Sound(gpu.dev, p, held0[p := al'][p]);
        }
      }
      table := table[p := al.(asleep := true, backup := backup)];
      if lost {
        stale := stale + {p};
      }
    }

    /**
     Wake for one entry of the table: `python_create_and_map`, then the copy back. What the callers see is
     unchanged, and a failure to create or map leaves the allocation asleep with its address held. At an
     address that a failed sleep has lost, as long as nobody has reserved it since, nothing can be mapped, and
     the device is left as it was.
     */
    method Wake(p: nat) returns (ok: bool, ghost stage: Stage)
      requires Valid() && gpu.steadyTeardown && p in table && table[p].asleep && (p in stale ==> OutOfUse(p))
      modifies gpu`dev, gpu`faults, gpu`calls, `errorCode, `table
      ensures errorCode == OK && (ok <==> stage.Complete?) && p in table
      ensures p in old(Held()) ==>
                && gpu.faults == old(gpu.faults)
                && stage == StageOf(gpu, old(gpu.calls), |old(table[p].sizes)|, old(errorCode) != OK)
      ensures p in stale ==>
                && (stage.RolledBack? || stage.Leaked?)
                && gpu.faults == old(gpu.faults)
                     + if old(errorCode) == OK && Willing(gpu, old(gpu.calls), |old(table[p].sizes)|) then 1 else 0
      ensures ok ==>
                && Valid() && Logical() == old(Logical())
                && table == old(table)[p := Woken(old(table[p]), table[p].handles)]
      ensures !ok ==> table == old(table)[p := old(table[p]).(handles := table[p].handles)]
      ensures stage.RolledBack? ==> Valid() && gpu.dev == old(gpu.dev) && Logical() == old(Logical())
      ensures stage.Stranded? ==> !gpu.steadyAccess && !Unmapped(gpu.dev, p, table[p].size)
      ensures stage.Leaked? ==> old(errorCode) != OK && old(gpu.dev.live.Keys) < gpu.dev.live.Keys
      ensures gpu.dev.reserved == old(gpu.dev.reserved) && gpu.dev.others == old(gpu.dev.others)
      ensures gpu.calls > old(gpu.calls)
      ensures p in old(Held()) && old(errorCode) == OK && !ok ==> Unwilling(gpu, old(gpu.calls), gpu.calls)
      ensures p in old(Held()) && old(errorCode) == OK && Obliging(gpu, old(gpu.calls)) ==> ok
    {
      hide Consistent, Mapped, View, Installed, Placeable, Created, NoAliasing, Contents, Readable, RangesApart, Homeless, Unreserved;
      hide Shaped, Willing, StageOf;
      ghost var dev0, held0 := gpu.dev, Held();
      ConsistentParts(dev0, held0);
      var al := table[p];
      SleeperState(dev0, table, stale, p);
      ObligingStage(gpu, gpu.calls, |al.sizes|);
      var handles;
      handles, stage := CreateAndMap(p, al.sizes, al.handles);
      ok := errorCode == OK;
      errorCode := OK;
      if ok {
        CopyBack(p, handles, dev0);
      } else {
        KeepAsleep(p, handles, dev0, stage);
      }
    }

    /** The end of a failed wake: only the handle cells have changed. */
    method KeepAsleep(p: nat, handles: seq<Handle>, ghost dev0: Device, ghost stage: Stage)
      requires granularity > 0 && stale <= table.Keys && StaleShaped() && p in table && table[p].asleep && !stage.Complete?
      requires Consistent(dev0, Held()) && AllSound(dev0, Held())
      requires |handles| == |table[p].sizes| > 0 && table[p].size == Sum(table[p].sizes)
      requires if p in stale then !stage.Stranded? else Placeable(dev0, p, table[p].sizes)
      requires stage.RolledBack? ==> gpu.dev == dev0
      requires stage.Stranded? ==> Installed(dev0, gpu.dev, p, table[p].sizes, handles)
      requires stage.Leaked? ==> Created(dev0, gpu.dev, table[p].sizes, handles[..1])
      modifies `table
      ensures table == old(table)[p := old(table[p]).(handles := handles)]
      ensures stage.RolledBack? ==> Valid() && Logical() == View(dev0, old(Held()))
      ensures stage.Stranded? ==> !Unmapped(gpu.dev, p, table[p].size)
      ensures stage.Leaked? ==> dev0.live.Keys < gpu.dev.live.Keys
      ensures gpu.dev.reserved == dev0.reserved && gpu.dev.others == dev0.others
    {
      hide Consistent, Mapped, View, Placeable, RangesApart, Sound, Unmapped;
      if p in stale {
        if stage.Leaked? {
          CreatedLeaks(dev0, gpu.dev, table[p].sizes, handles);
        }
        StaleUpdated(table, stale, p, table[p].(handles := handles));
      } else {
        AfterFailedWake(dev0, Held(), gpu.dev, p, handles, stage);
        Updated(table, stale, p, table[p].(handles := handles));
      }
      table := table[p := table[p].(handles := handles)];
    }

    /** The end of a successful wake: the backup, if there is one, is copied into the new chunks. */
    method CopyBack(p: nat, handles: seq<Handle>, ghost dev0: Device)
      requires granularity > 0 && stale <= table.Keys && StaleShaped() && p in Held() && table[p].asleep
      requires Consistent(dev0, Held()) && AllSound(dev0, Held()) && NoAliasing(dev0)
      requires Placeable(dev0, p, table[p].sizes) && Installed(dev0, gpu.dev, p, table[p].sizes, handles)
      requires Readable(gpu.dev, p, table[p].size)
      requires Contents(gpu.dev, p, table[p].size) == Zeros(table[p].size)
      modifies gpu`dev, `table
      ensures Valid() && table == old(table)[p := Woken(old(table[p]), handles)]
      ensures Logical() == View(dev0, old(Held())) && gpu.dev.reserved == dev0.reserved && gpu.dev.others == dev0.others
    {
      hide Consistent, Mapped, View, Placeable, Installed, NoAliasing, Contents, Readable, Spared;
      InstalledSame(dev0, gpu.dev, p, table[p].sizes, handles);
      ghost var held0, mapped := Held(), gpu.dev;
      var al := table[p];
      if al.backup.Saved? {
        assert Sound(dev0, p, held0[p]);
        InstalledPages(dev0, mapped, p, al.sizes, handles);
        InstalledNoAliasing(dev0, mapped, p, al.sizes, handles);
        gpu.Store(p, al.backup.bytes);
      }
      WakeOutcome(dev0, held0, mapped, gpu.dev, p, handles);
      Updated(table, stale, p, Woken(al, handles));
      table := table[p := al.(handles := handles, asleep := false, backup := NoBackup)];
    }

    /** A kernel stores bytes into an awake allocation. */
    method Write(p: nat, i: nat, bytes: seq<Byte>)
      requires Valid() && p in Held() && !table[p].asleep && i + |bytes| <= table[p].size
      modifies gpu`dev
      ensures Valid()
      ensures var was := old(Logical())[p];
        Logical() == old(Logical())[p := was[..i] + bytes + was[i + |bytes|..]]
    {
      hide Consistent, Mapped, Shaped, View;
      ghost var dev0 := gpu.dev;
      AwakeIsReadable(dev0, Held(), p);
      gpu.Store(p + i, bytes);
      WriteOutcome(dev0, Held(), gpu.dev, p, i, bytes);
    }
  }

  /** What is left after a wake that did not complete. */
  lemma AfterFailedWake(dev0: Device, held0: Table, dev: Device, p: nat, handles: seq<Handle>, stage: Stage)
    requires Consistent(dev0, held0) && p in held0 && held0[p].asleep && |handles| == |held0[p].sizes|
    requires Placeable(dev0, p, held0[p].sizes) && held0[p].size == Sum(held0[p].sizes)
    requires stage.RolledBack? ==> dev == dev0
    requires stage.Stranded? ==> Installed(dev0, dev, p, held0[p].sizes, handles)
    requires stage.Leaked? ==> Created(dev0, dev, held0[p].sizes, handles[..1])
    ensures stage.Stranded? ==> !Unmapped(dev, p, held0[p].size)
    ensures stage.Leaked? ==> dev0.live.Keys < dev.live.Keys
    ensures stage.RolledBack? ==>
              var held := held0[p := held0[p].(handles := handles)];
              && Consistent(dev0, held)
              && AllSound(dev0, held0) && AllSound(dev0, held) && View(dev0, held) == View(dev0, held0)
  {
    if stage.Stranded? {
      InstalledPages(dev0, dev, p, held0[p].sizes, handles);
      assert p in dev.page;
    } else if stage.Leaked? {
      assert handles[..1][0] in dev.live && handles[..1][0] !in dev0.live;
      assert forall h :: h in dev0.live ==> h in dev.live - Elements(handles[..1]);
    } else if stage.RolledBack? {
      SleepersHandles(dev0, held0, p, handles);
    }
  }

  /** The handle cells of a sleeping allocation mean nothing. */
  lemma SleepersHandles(dev: Device, allocs: Table, p: nat, handles: seq<Handle>)
    requires Consistent(dev, allocs) && p in allocs && allocs[p].asleep && |handles| == |allocs[p].sizes|
    ensures var allocs' := allocs[p := allocs[p].(handles := handles)];
      && Consistent(dev, allocs')
      && AllSound(dev, allocs) && AllSound(dev, allocs') && View(dev, allocs') == View(dev, allocs)
  {
    hide Consistent, BytesOf, Mapped, Unmapped, RangesApart;
    var allocs' := allocs[p := allocs[p].(handles := handles)];
    ConsistentParts(dev, allocs);
    SleeperBytes(dev, p, allocs[p], handles);
    assert AllSound(dev, allocs');
    SameOwners(dev, allocs, allocs', p);
  }

  lemma SleeperBytes(dev: Device, p: nat, al: Allocation, handles: seq<Handle>)
    requires Sound(dev, p, al) && al.asleep && |handles| == |al.sizes|
    ensures Sound(dev, p, al.(handles := handles)) && BytesOf(dev, p, al.(handles := handles)) == BytesOf(dev, p, al)
  {
  }

  lemma SameOwners(dev: Device, allocs: Table, allocs': Table, p: nat)
    requires Consistent(dev, allocs) && p in allocs && allocs[p].asleep
    requires p in allocs' && allocs' == allocs[p := allocs'[p]] && allocs'[p].asleep && AllSound(dev, allocs')
    ensures Consistent(dev, allocs')
  {
    hide AllSound, RangesApart;
    forall h | h in dev.live ensures exists q :: Owns(allocs', q, h) {
      var q :| Owns(allocs, q, h);
      assert Owns(allocs', q, h);
    }
    forall a | a in dev.page ensures exists q :: Spans(allocs', q, a) {
      var q :| Spans(allocs, q, a);
      assert Spans(allocs', q, a);
    }
    forall q, r, h | Owns(allocs', q, h) && Owns(allocs', r, h) ensures q == r {
      assert Owns(allocs, q, h) && Owns(allocs, r, h);
    }
  }

  /** Registering an entry and counting it as stale adds nothing to the held allocations. */
  lemma Unregistered(table: Table, stale: set<nat>, p: nat, al: Allocation)
    requires p !in table - stale
    ensures table[p := al] - (stale + {p}) == table - stale
  {
  }

  /** A range of ours, or one that nobody has reserved, is no reservation of another allocator. */
  lemma NotForeign(dev: Device, table: Table, stale: set<nat>, p: nat)
    requires Consistent(dev, table - stale) && p in table
    ensures RangesApart(dev)
    ensures p !in stale ==> p !in dev.others
    ensures p in stale && Shaped(table[p]) && Unreserved(dev, p, table[p].size) ==> p !in dev.others
  {
    hide Consistent;
    ConsistentParts(dev, table - stale);
    assert p !in stale ==> Sound(dev, p, (table - stale)[p]);
  }

  lemma NewIsNotForeign(dev: Device, allocs: Table, p: nat, size: nat)
    requires Consistent(dev, allocs) && Unreserved(dev, p, size) && size > 0
    ensures p !in dev.others
  {
    hide Consistent;
    ConsistentParts(dev, allocs);
  }

  lemma FewerOthers(dev0: Device, dev: Device, p: nat)
    requires RangesApart(dev0)
    ensures dev == dev0.(others := dev0.others - {p}) ==> RangesApart(dev)
    ensures dev == dev0 ==> RangesApart(dev)
  {
  }

  /** What can be said of an entry before its chunks are taken away. */
  lemma EntryState(dev: Device, table: Table, stale: set<nat>, p: nat)
    requires Consistent(dev, table - stale) && p in table
    requires p in stale ==> Shaped(table[p]) && (table[p].asleep || OutOfReach(dev, p, table[p]))
    ensures p !in stale ==> Sound(dev, p, table[p]) && p in dev.reserved && dev.reserved[p] == table[p].size
    ensures p !in stale ==> |table[p].handles| == |table[p].sizes| && (!table[p].asleep ==> table[p].backup == NoBackup)
    ensures p !in stale && !table[p].asleep ==>
              MineAwake(dev, p, table[p]) && Readable(dev, p, table[p].size) && AllSound(dev, table - stale)
    ensures p in stale ==> p !in dev.reserved
    ensures p in stale && !table[p].asleep ==>
              NotThere(dev, p, table[p]) && !Readable(dev, p, table[p].size) && Unreserved(dev, p, table[p].size)
  {
    hide Consistent, Mapped;
    ConsistentParts(dev, table - stale);
    if p in stale && !table[p].asleep {
      VacantIsBarren(dev, table - stale, p, table[p]);
    } else if p !in stale {
      assert Sound(dev, p, (table - stale)[p]);
      if !table[p].asleep {
        HandlesStayHome(dev, table - stale, p);
        AwakeReadable(dev, p, table[p]);
      }
    }
  }

  /** What can be said of a sleeping entry before it is mapped again. */
  lemma SleeperState(dev: Device, table: Table, stale: set<nat>, p: nat)
    requires Consistent(dev, table - stale) && p in table && table[p].asleep
    requires p in stale ==> Shaped(table[p]) && OutOfReach(dev, p, table[p])
    ensures |table[p].handles| == |table[p].sizes| > 0 && table[p].size == Sum(table[p].sizes) && NoAliasing(dev)
    ensures p !in stale ==> Placeable(dev, p, table[p].sizes) && !Homeless(dev, p, table[p].sizes)
    ensures p in stale ==> Homeless(dev, p, table[p].sizes) && !Placeable(dev, p, table[p].sizes)
  {
    hide Consistent, Mapped;
    ConsistentParts(dev, table - stale);
    if p in stale {
      VacantIsBarren(dev, table - stale, p, table[p]);
    } else {
      assert Sound(dev, p, (table - stale)[p]);
      AsleepIsPlaceable(dev, table - stale, p);
    }
  }

  /** The address is regained exactly when it is what the reservation obtains. */
  lemma RegainsIff(gpu: Gpu, raced: Device, k: nat, p: nat, size: nat)
    requires p !in raced.reserved
    ensures forall dev: Device :: dev.reserved - {p} == raced.reserved && dev.others == raced.others ==>
              (Regains(gpu, dev, k, p, size) <==> Obtained(gpu, raced, k, size, 0, p) == Some(p))
  {
  }

  lemma Rejoined(dev: Device, allocs: Table, p: nat)
    requires Consistent(dev, allocs) && p in allocs
    ensures (dev.reserved - {p})[p := allocs[p].size] == dev.reserved
  {
    hide Consistent;
    ConsistentParts(dev, allocs);
    assert Sound(dev, p, allocs[p]);
  }

  /** When an address is regained: the driver does the call and offers it, and nobody's reservation overlaps the range. */
  lemma RegainsWhen(gpu: Gpu, dev: Device, k: nat, p: nat, size: nat)
    ensures Regains(gpu, dev, k, p, size) <==>
              && gpu.willing(k) && gpu.place(k, size, 0, p) == p && 0 < p && 0 < size && p + size <= WORD
              && (forall q :: q in dev.reserved && q != p ==> Apart(p, size, q, dev.reserved[q]))
              && (forall q :: q in dev.others ==> Apart(p, size, q, dev.others[q]))
  {
    var rest := dev.(reserved := dev.reserved - {p});
    assert Unreserved(rest, p, size) <==>
      && (forall q :: q in dev.reserved && q != p ==> Apart(p, size, q, dev.reserved[q]))
      && (forall q :: q in dev.others ==> Apart(p, size, q, dev.others[q]))
    by {
      assert forall q :: q in dev.reserved && q != p ==> q in rest.reserved && rest.reserved[q] == dev.reserved[q];
    }
  }

  lemma RemovedEntry(table: Table, stale: set<nat>, p: nat)
    ensures (table - {p}) - (stale - {p}) == (table - stale) - {p}
    ensures p in stale ==> (table - stale) - {p} == table - stale
  {
  }

  lemma StaleUpdated(table: Table, stale: set<nat>, p: nat, al: Allocation)
    requires p in stale
    ensures table[p := al] - stale == table - stale
  {
  }

  lemma CreatedLeaks(dev0: Device, dev: Device, sizes: seq<nat>, handles: seq<Handle>)
    requires |handles| > 0 && Created(dev0, dev, sizes, handles[..1])
    ensures dev0.live.Keys < dev.live.Keys && dev.reserved == dev0.reserved && dev.others == dev0.others
  {
    assert handles[..1][0] in dev.live && handles[..1][0] !in dev0.live;
    assert forall h :: h in dev0.live ==> h in dev.live - Elements(handles[..1]);
  }

  lemma NewShaped(sizes: seq<nat>, cells: seq<Handle>, tag: string, g: nat)
    requires g > 0 && |cells| == |sizes| && Covers(sizes, Sum(sizes), g) && Sum(sizes) > 0
    ensures Shaped(Allocation(Sum(sizes), sizes, cells, tag, false, NoBackup))
  {
  }

  lemma InstalledSame(dev0: Device, dev: Device, base: nat, sizes: seq<nat>, handles: seq<Handle>)
    requires Installed(dev0, dev, base, sizes, handles)
    ensures dev.reserved == dev0.reserved && dev.others == dev0.others
  {
  }

  lemma Updated(table: Table, stale: set<nat>, p: nat, al: Allocation)
    requires p !in stale
    ensures table[p := al] - stale == (table - stale)[p := al]
  {
  }

  lemma Dropped(table: Table, stale: set<nat>, p: nat, al: Allocation)
    ensures table[p := al] - (stale + {p}) == table - stale - {p}
  {
  }

  lemma Registered(table: Table, stale: set<nat>, p: nat, al: Allocation)
    ensures table[p := al] - (stale - {p}) == (table - stale)[p := al]
  {
  }

  lemma AlignUpMultiple(x: Word, g: Word)
    requires g > 0
    ensures AlignUp(x, g) % g == 0
  {
    MultipleOf((x + g - 1) % WORD / g, g);
  }

  lemma InstalledLeaks(dev0: Device, dev: Device, p: nat, sizes: seq<nat>, handles: seq<Handle>)
    requires Installed(dev0, dev, p, sizes, handles) && |sizes| > 0
    ensures dev0.live.Keys < dev.live.Keys
  {
    assert forall h :: h in dev0.live ==> h in dev.live - Elements(handles);
    assert handles[0] in dev.live && handles[0] !in dev0.live;
  }

  lemma ChunkCanMap(dev0: Device, created: Device, dev: Device, base: nat, sizes: seq<nat>, handles: seq<Handle>, i: nat)
    requires Placeable(dev0, base, sizes) && Created(dev0, created, sizes, handles)
    requires i < |sizes| == |handles|
    requires dev == created.(page := created.page + Pages(base, sizes, handles, 0, i))
    ensures CanMap(dev, base + Offset(sizes, i), sizes[i], handles[i])
  {
    OffsetStep(sizes, i);
    OffsetMono(sizes, i + 1, |sizes|);
    OffsetEnds(sizes);
    forall a | a in dev.page ensures dev.page[a].0 != handles[i] {
      if a in Pages(base, sizes, handles, 0, i) {
        var k := ChunkOf(sizes, a - base);
        OtherChunk(sizes, a - base, k, i);
      }
    }
  }

  lemma OtherChunk(sizes: seq<nat>, a: nat, k: nat, i: nat)
    requires k < |sizes| && i < |sizes| && Offset(sizes, k) <= a < Offset(sizes, i)
    ensures k != i
  {
  }

  /** At one of our reservations the next chunk can be mapped, elsewhere the first one cannot. */
  lemma MappableOrNot(dev0: Device, created: Device, dev: Device, base: nat, sizes: seq<nat>, handles: seq<Handle>, i: nat)
    requires Created(dev0, created, sizes, handles) && i < |sizes| == |handles|
    requires Placeable(dev0, base, sizes) || (i == 0 && Homeless(dev0, base, sizes))
    requires dev == created.(page := created.page + Pages(base, sizes, handles, 0, i))
    ensures CanMap(dev, base + Offset(sizes, i), sizes[i], handles[i]) <==> Placeable(dev0, base, sizes)
  {
    HomelessOrNot(dev0, base, sizes);
    if Placeable(dev0, base, sizes) {
      ChunkCanMap(dev0, created, dev, base, sizes, handles, i);
    } else {
      CannotMap(dev0, created, base, sizes, handles[0]);
      NoPagesYet(created.page, base, sizes, handles);
    }
  }

  /** Outside all our reservations the first chunk cannot be mapped. */
  lemma CannotMap(dev0: Device, created: Device, base: nat, sizes: seq<nat>, h: Handle)
    requires Homeless(dev0, base, sizes) && created == dev0.(live := created.live) && |sizes| > 0
    ensures !CanMap(created, base, sizes[0], h)
  {
    OffsetStep(sizes, 0);
    OffsetMono(sizes, 1, |sizes|);
    OffsetEnds(sizes);
  }

  /** What can be said of an entry before its chunks are torn down. */
  lemma BeforeTeardown(dev: Device, p: nat, al: Allocation)
    requires MineAwake(dev, p, al) || NotThere(dev, p, al)
    ensures |al.handles| == |al.sizes| > 0 && Offset(al.sizes, |al.sizes|) == al.size
    ensures MineAwake(dev, p, al) ==> ChunksMapped(dev, p, al.sizes, al.handles, 0, |al.sizes|) && OwnHandles(dev, al.handles)
    ensures NotThere(dev, p, al) ==> Barren(dev, p, al.sizes, |al.sizes|) && Unreleasable(dev, al.handles)
  {
    OffsetEnds(al.sizes);
    if MineAwake(dev, p, al) { AwakeIsMapped(dev, p, al); }
  }

  lemma SameHandles(dev: Device, dev': Device, handles: seq<Handle>)
    requires dev' == dev.(page := dev'.page)
    ensures (OwnHandles(dev, handles) ==> OwnHandles(dev', handles)) && (Unreleasable(dev, handles) ==> Unreleasable(dev', handles))
  {
  }

  /** What the two loops leave. */
  lemma AfterTeardown(dev: Device, mid: Device, dev': Device, p: nat, al: Allocation)
    requires mid == dev.(page := mid.page) && Shrunk(dev.page, mid.page, p, al.size) && dev' == mid.(live := dev'.live)
    requires forall h :: h !in al.handles ==> (h in dev'.live <==> h in mid.live)
    requires forall h :: h in dev'.live ==> h in mid.live && dev'.live[h] == mid.live[h]
    ensures SameElsewhere(dev, dev', p, al.size, Elements(al.handles))
    ensures mid.page == dev.page - Range(p, al.size) && dev'.live == mid.live - Elements(al.handles) ==> dev' == Emptied(dev, p, al)
  {
  }

  lemma FailuresJoin(gpu: Gpu, k: nat, m: nat, n: nat, first: Status, second: Status)
    requires FirstFailure(gpu, k, m, first) && FirstFailure(gpu, k + m, n, second)
    ensures FirstFailure(gpu, k, m + n, if first == OK then second else first)
  {
    MoreWilling(gpu, k, m, n);
    if !gpu.steadyTeardown && first == OK && second != OK {
      var j: nat :| j < n && Willing(gpu, k + m, j) && !gpu.willing(k + m + j) && second == gpu.Code(k + m + j);
      MoreWilling(gpu, k, m, j);
      assert m + j < m + n && k + (m + j) == k + m + j;
    }
  }

  lemma ReportFirst(gpu: Gpu, k: nat, n: nat, before: Status, first: Status)
    requires FirstFailure(gpu, k, n, first)
    ensures Reported(gpu, k, n, before, if first == OK then before else first) && (gpu.steadyTeardown ==> first == OK)
  {
  }

  lemma WillingNone(gpu: Gpu, k: nat)
    ensures Willing(gpu, k, 0)
  {
  }

  lemma WillingTwo(gpu: Gpu, k: nat)
    ensures Willing(gpu, k, 2) <==> gpu.willing(k) && gpu.willing(k + 1)
  {
  }

  lemma WillingNext(gpu: Gpu, k: nat, i: nat, n: nat)
    requires i < n
    ensures Willing(gpu, k, i + 1) <==> Willing(gpu, k, i) && gpu.willing(k + i)
    ensures Willing(gpu, k, n) ==> gpu.willing(k + i)
  {
  }

  lemma HomelessOrNot(dev: Device, base: nat, sizes: seq<nat>)
    ensures !(Placeable(dev, base, sizes) && Homeless(dev, base, sizes))
    ensures Placeable(dev, base, sizes) || Homeless(dev, base, sizes) ==> Clear(dev, base, sizes) && |sizes| > 0
  {
  }

  lemma MoreWilling(gpu: Gpu, k: nat, m: nat, n: nat)
    ensures Willing(gpu, k, m + n) <==> Willing(gpu, k, m) && Willing(gpu, k + m, n)
  {
  }

  lemma PrefixMapped(dev0: Device, created: Device, dev: Device, base: nat, sizes: seq<nat>, handles: seq<Handle>, i: nat)
    requires Clear(dev0, base, sizes) && Created(dev0, created, sizes, handles)
    requires i <= |sizes| == |handles|
    requires dev == created.(page := created.page + Pages(base, sizes, handles, 0, i))
    ensures ChunksMapped(dev, base, sizes, handles, 0, i)
  {
  }

  lemma NoPagesYet(page: map<nat, (Handle, nat)>, base: nat, sizes: seq<nat>, handles: seq<Handle>)
    requires |sizes| == |handles|
    ensures page + Pages(base, sizes, handles, 0, 0) == page
    ensures Offset(sizes, 0) == 0
  {
  }

  lemma PagesGrow(created: Device, before: Device, after: Device, base: nat, sizes: seq<nat>, handles: seq<Handle>, i: nat)
    requires i < |sizes| == |handles|
    requires before == created.(page := created.page + Pages(base, sizes, handles, 0, i))
    requires after == before.(page := before.page + ChunkPages(base + Offset(sizes, i), sizes[i], handles[i]))
    ensures after == created.(page := created.page + Pages(base, sizes, handles, 0, i + 1))
    ensures Offset(sizes, i + 1) == Offset(sizes, i) + sizes[i]
  {
    hide Pages, ChunkPages, Offset;
    PagesAppend(base, sizes, handles, 0, i);
    OffsetStep(sizes, i);
    assert after.page == created.page + Pages(base, sizes, handles, 0, i + 1);
  }

  lemma PrefixGone(page: map<nat, (Handle, nat)>, base: nat, sizes: seq<nat>, handles: seq<Handle>, i: nat)
    requires i <= |sizes| == |handles|
    requires forall a :: base <= a < base + Sum(sizes) ==> a !in page
    ensures page + Pages(base, sizes, handles, 0, i) - Range(base, Offset(sizes, i)) == page
  {
    OffsetMono(sizes, i, |sizes|);
    OffsetEnds(sizes);
  }

  lemma CreatedStep(dev0: Device, dev: Device, dev': Device, sizes: seq<nat>, handles: seq<Handle>, i: nat)
    requires i < |sizes| == |handles| && Created(dev0, dev, sizes, handles[..i])
    requires var h := handles[i]; h !in dev.live && h in dev'.live && |dev'.live[h]| == sizes[i]
    requires dev' == dev.(live := dev.live[handles[i] := dev'.live[handles[i]]])
    ensures Created(dev0, dev', sizes, handles[..i + 1])
  {
    var hs := handles[..i + 1];
    assert hs == handles[..i] + [handles[i]];
    assert Elements(hs) == Elements(handles[..i]) + {handles[i]};
    assert handles[i] !in dev0.live by {
      assert handles[i] !in dev.live - Elements(handles[..i]);
    }
    forall k | 0 <= k < i ensures handles[k] in dev.live && handles[k] != handles[i] {
      assert handles[..i][k] == handles[k];
    }
    assert dev'.live - Elements(hs) == dev.live - Elements(handles[..i]);
  }

  // ----- the two outcomes that leave something behind do occur -----

  /** One chunk at a reservation of ours: it is created and mapped, then access is refused. */
  method StrandedHappens() returns (errorCode: Status, ghost stage: Stage)
    ensures stage.Stranded? && errorCode != OK
  {
    var gpu := new Gpu(k => k < 2, (k, size, alignment, hint) => hint, k => INVALID, true, false);
    var a := new Allocator(gpu, 4096, Unset);
    gpu.dev := Device(map[4096 := 4096], map[], map[], map[]);
    OneChunk(gpu.dev);
    TwoCalls(gpu);
    hide Placeable, Homeless, Installed, Created, NoAliasing, Contents, Readable, StageOf, Willing, Unwilling;
    var handles;
    handles, stage := a.CreateAndMap(4096, [4096], [0]);
    errorCode := a.errorCode;
  }

  lemma TwoCalls(gpu: Gpu)
    requires gpu.willing(0) && gpu.willing(1) && !gpu.willing(2) && !gpu.steadyAccess
    ensures StageOf(gpu, 0, 1, false).Stranded?
  {
    assert Willing(gpu, 0, 2) && !Willing(gpu, 2, 2);
  }

  /** The same with an error pending: the handle is created, and then nobody knows it any more. */
  method LeakedHappens() returns (live: nat, ghost stage: Stage)
    ensures stage.Leaked? && live > 0
  {
    var gpu := new Gpu(k => true, (k, size, alignment, hint) => hint, k => INVALID, true, true);
    var a := new Allocator(gpu, 4096, Unset);
    gpu.dev := Device(map[4096 := 4096], map[], map[], map[]);
    a.errorCode := INVALID;
    OneChunk(gpu.dev);
    var handles;
    handles, stage := a.CreateAndMap(4096, [4096], [0]);
    assert handles[..1][0] in gpu.dev.live;
    live := |gpu.dev.live|;
  }

  lemma OneChunk(dev: Device)
    requires dev == Device(map[4096 := 4096], map[], map[], map[])
    ensures Placeable(dev, 4096, [4096]) && NoAliasing(dev)
  {
    assert Sum([4096]) == 4096 by { OffsetStep([4096], 0); OffsetEnds([4096]); }
  }
}
