/**
 Why each operation of the allocator keeps the invariant: the arguments are about device and
 table values, so the operations themselves only have to establish what they did.
 */
module Transitions {
  import opened Basics
  import opened Sums
  import opened ChunkPlan
  import opened DeviceMemory
  import opened Driver
  import opened Allocations
  import opened ChunkMapping

  /** The range is not empty, and nothing is mapped in it. */
  ghost predicate Clear(dev: Device, base: nat, sizes: seq<nat>) {
    && PagesLive(dev) && Unmapped(dev, base, Sum(sizes)) && Sum(sizes) > 0
    && (forall i :: 0 <= i < |sizes| ==> sizes[i] > 0)
  }

  /** The range is one of our reservations, not empty, and nothing is mapped in it. */
  ghost predicate Placeable(dev: Device, base: nat, sizes: seq<nat>) {
    Clear(dev, base, sizes) && base in dev.reserved && dev.reserved[base] == Sum(sizes)
  }

  /** Nothing of the entry is within reach: nobody has reserved its range, and an awake one's cells hold no live handle. */
  predicate OutOfReach(dev: Device, p: nat, al: Allocation) {
    Unreserved(dev, p, al.size) && (al.asleep || forall i :: 0 <= i < |al.handles| ==> al.handles[i] !in dev.live)
  }

  /** The range is not empty, and no part of it is reserved by anybody. */
  ghost predicate Homeless(dev: Device, base: nat, sizes: seq<nat>) {
    Clear(dev, base, sizes) && Unreserved(dev, base, Sum(sizes))
  }

  /** The device without the allocation's pages and handles. */
  ghost function Emptied(dev: Device, p: nat, al: Allocation): (dev': Device) {
    dev.(page := dev.page - Range(p, al.size), live := dev.live - Elements(al.handles))
  }

  lemma AwakeIsMapped(dev: Device, p: nat, al: Allocation)
    requires Sound(dev, p, al) && !al.asleep
    ensures ChunksMapped(dev, p, al.sizes, al.handles, 0, |al.sizes|)
    ensures Offset(al.sizes, |al.sizes|) == al.size
  {
    OffsetEnds(al.sizes);
  }

  /** `dev` is `dev0` with the whole range mapped by new handles, one per chunk. */
  ghost predicate Installed(dev0: Device, dev: Device, base: nat, sizes: seq<nat>, handles: seq<Handle>) {
    && |handles| == |sizes| && Distinct(handles)
    && dev == dev0.(live := dev.live, page := dev0.page + Pages(base, sizes, handles, 0, |sizes|))
    && dev.live - Elements(handles) == dev0.live
    && (forall i :: 0 <= i < |handles| ==>
          handles[i] !in dev0.live && handles[i] in dev.live && |dev.live[handles[i]]| == sizes[i])
  }

  /** What `Installed` means address by address. */
  lemma InstalledPages(dev0: Device, dev: Device, base: nat, sizes: seq<nat>, handles: seq<Handle>)
    requires Installed(dev0, dev, base, sizes, handles) && Placeable(dev0, base, sizes)
    ensures forall a :: base <= a < base + Sum(sizes) ==>
              && a in dev.page && dev.page[a] == Translate(base, sizes, handles, a)
              && dev.page[a].0 in handles
              && dev.page[a].0 in dev.live && dev.page[a].1 < |dev.live[dev.page[a].0]|
    ensures Readable(dev, base, Sum(sizes)) && PagesLive(dev)
  {
    OffsetEnds(sizes);
    forall a | base <= a < base + Sum(sizes)
      ensures a in dev.page && dev.page[a] == Translate(base, sizes, handles, a)
      ensures dev.page[a].0 in handles
      ensures dev.page[a].0 in dev.live && dev.page[a].1 < |dev.live[dev.page[a].0]|
    {
      assert a in Pages(base, sizes, handles, 0, |sizes|);
      var i := ChunkOf(sizes, a - base);
      assert handles[i] in dev.live;
    }
    forall a | a in dev.page && !(base <= a < base + Sum(sizes))
      ensures dev.page[a].0 in dev.live && dev.page[a].1 < |dev.live[dev.page[a].0]|
    {
      assert a in dev0.page;
      assert dev0.page[a].0 in dev.live - Elements(handles);
    }
  }

  lemma InstalledNoAliasing(dev0: Device, dev: Device, base: nat, sizes: seq<nat>, handles: seq<Handle>)
    requires Installed(dev0, dev, base, sizes, handles) && Placeable(dev0, base, sizes) && NoAliasing(dev0)
    ensures NoAliasing(dev)
  {
    InstalledPages(dev0, dev, base, sizes, handles);
    OffsetEnds(sizes);
    PagesKeepOff(dev0, handles);
    var pages := Pages(base, sizes, handles, 0, |sizes|);
    hide Sum, Offset, Translate, Readable, PagesLive, Pages;
    forall a, b | a in pages && b in pages && a != b ensures pages[a] != pages[b] {
      TranslateInjective(base, sizes, handles, a, b);
      assert pages[a] == dev.page[a] && pages[b] == dev.page[b];
    }
    forall a | a in pages ensures pages[a].0 in handles { assert pages[a] == dev.page[a]; }
    Joined(dev0.page, pages, handles);
  }

  /** Joining page tables that lead to different handles makes no two addresses meet. */
  lemma Joined(before: map<nat, (Handle, nat)>, pages: map<nat, (Handle, nat)>, handles: seq<Handle>)
    requires forall a, b :: a in before && b in before && a != b ==> before[a] != before[b]
    requires forall a, b :: a in pages && b in pages && a != b ==> pages[a] != pages[b]
    requires forall a :: a in before ==> before[a].0 !in handles
    requires forall a :: a in pages ==> pages[a].0 in handles
    ensures forall a, b :: a in before + pages && b in before + pages && a != b ==> (before + pages)[a] != (before + pages)[b]
  {
  }

  /** Clearing the new range touches the new handles only. */
  lemma InstalledAfterClear(dev0: Device, dev: Device, dev': Device, base: nat, sizes: seq<nat>, handles: seq<Handle>, bytes: seq<Byte>)
    requires Installed(dev0, dev, base, sizes, handles) && Placeable(dev0, base, sizes)
    requires Written(dev, dev', base, bytes) && |bytes| == Sum(sizes)
    ensures Installed(dev0, dev', base, sizes, handles)
  {
    InstalledPages(dev0, dev, base, sizes, handles);
    forall h | h in dev0.live
      ensures h in dev'.live && h !in handles && dev'.live[h] == dev0.live[h]
    {
      assert h in dev.live - Elements(handles);
      assert dev.live[h] == dev0.live[h];
    }
    assert dev'.live - Elements(handles) == dev0.live;
  }

  /** Where no part of a range is reserved, nothing is mapped in it. */
  lemma VacantIsUnmapped(dev: Device, allocs: Table, p: nat, size: nat)
    requires Consistent(dev, allocs) && Unreserved(dev, p, size)
    ensures Unmapped(dev, p, size)
  {
    hide Consistent;
    PagesLieInReservations(dev, allocs);
  }

  /** An entry whose range nobody has reserved has nothing to unmap, to map or to copy. */
  lemma VacantIsBarren(dev: Device, allocs: Table, p: nat, al: Allocation)
    requires Consistent(dev, allocs) && Shaped(al) && Unreserved(dev, p, al.size)
    ensures Barren(dev, p, al.sizes, |al.sizes|)
    ensures Homeless(dev, p, al.sizes) && NoAliasing(dev) && |al.sizes| > 0 && !Readable(dev, p, al.size)
  {
    hide Consistent, Unreserved;
    VacantIsUnmapped(dev, allocs, p, al.size);
    NoSharing(dev, allocs);
    NothingUnmappable(dev, p, al);
  }

  lemma NothingUnmappable(dev: Device, p: nat, al: Allocation)
    requires Shaped(al) && Unmapped(dev, p, al.size)
    ensures Barren(dev, p, al.sizes, |al.sizes|) && |al.sizes| > 0 && !Readable(dev, p, al.size)
  {
    OffsetEnds(al.sizes);
    forall j | 0 <= j < |al.sizes| ensures !CanUnmap(dev, p + Offset(al.sizes, j), al.sizes[j]) {
      OffsetStep(al.sizes, j);
      OffsetMono(al.sizes, j + 1, |al.sizes|);
    }
    assert p !in dev.page;
  }

  /**
   An entry whose range is in use again is another matter: if one of its chunks coincides with a chunk
   that is mapped there now, unmapping it takes the memory of somebody else away.
   */
  lemma ReusedRangeBreaks(dev: Device, allocs: Table, addr: nat, size: nat)
    requires Consistent(dev, allocs) && CanUnmap(dev, addr, size)
    ensures !Consistent(dev.(page := dev.page - Range(addr, size)), allocs)
  {
    var q := PageOwner(dev, allocs, addr);
    assert addr in Range(addr, size);
    assert !Sound(dev.(page := dev.page - Range(addr, size)), q, allocs[q]);
  }

  /** Releasing a handle that one of the entry's cells happens to hold takes memory away in the same way. */
  lemma LiveCellBreaks(dev: Device, allocs: Table, h: Handle)
    requires Consistent(dev, allocs) && CanRelease(dev, h)
    ensures !Consistent(dev.(live := dev.live - {h}), allocs)
  {
    var q :| Owns(allocs, q, h);
    assert Sound(dev, q, allocs[q]);
    assert !Sound(dev.(live := dev.live - {h}), q, allocs[q]);
  }

  /** Where another allocator holds the range, a new chunk can be mapped into it, outside all our allocations. */
  lemma ForeignRangeBreaks(dev: Device, allocs: Table, addr: nat, size: nat, h: Handle)
    requires Consistent(dev, allocs) && h !in dev.live && size > 0
    requires exists q :: q in dev.others && q <= addr && addr + size <= q + dev.others[q]
    ensures var created := dev.(live := dev.live[h := Zeros(size)]);
      CanMap(created, addr, size, h) && !Consistent(created.(page := created.page + ChunkPages(addr, size, h)), allocs)
  {
    var created := dev.(live := dev.live[h := Zeros(size)]);
    var q :| q in dev.others && q <= addr && addr + size <= q + dev.others[q];
    NoSharing(dev, allocs);
    PagesLieInReservations(dev, allocs);
    ForeignIsUnmapped(dev, q, addr, size);
    var mapped := created.(page := created.page + ChunkPages(addr, size, h));
    assert h in mapped.live;
    if Consistent(mapped, allocs) {
      var r := PageOwner(mapped, allocs, addr);
    }
  }

  lemma ForeignIsUnmapped(dev: Device, q: nat, addr: nat, size: nat)
    requires RangesApart(dev) && PagesReserved(dev) && q in dev.others && q <= addr && addr + size <= q + dev.others[q]
    ensures Unmapped(dev, addr, size)
  {
  }

  /** New handles are mapped nowhere. */
  lemma PagesKeepOff(dev0: Device, handles: seq<Handle>)
    requires PagesLive(dev0)
    requires forall i :: 0 <= i < |handles| ==> handles[i] !in dev0.live
    ensures forall a :: a in dev0.page ==> dev0.page[a].0 !in handles
  {
  }

  /** An asleep allocation whose range has been mapped again. */
  ghost function Woken(al: Allocation, handles: seq<Handle>): (al': Allocation) {
    al.(handles := handles, asleep := false, backup := NoBackup)
  }

  lemma InstalledIsSound(dev0: Device, dev: Device, p: nat, al: Allocation)
    requires Placeable(dev0, p, al.sizes) && Installed(dev0, dev, p, al.sizes, al.handles)
    requires al.size == Sum(al.sizes) && !al.asleep && al.backup.NoBackup?
    ensures Sound(dev, p, al)
    ensures SameElsewhere(dev0, dev, p, al.size, Elements(al.handles))
  {
    InstalledPages(dev0, dev, p, al.sizes, al.handles);
    InstalledElsewhere(dev0, dev, p, al.sizes, al.handles);
    hide SameElsewhere, PagesLive, Readable;
  }

  lemma InstalledElsewhere(dev0: Device, dev: Device, p: nat, sizes: seq<nat>, handles: seq<Handle>)
    requires Installed(dev0, dev, p, sizes, handles)
    ensures SameElsewhere(dev0, dev, p, Sum(sizes), Elements(handles))
  {
    OffsetEnds(sizes);
    hide Offset, Translate;
    forall h | h !in handles
      ensures h in dev0.live <==> h in dev.live
      ensures h in dev.live ==> dev0.live[h] == dev.live[h]
    {
      assert h in dev.live <==> h in dev.live - Elements(handles);
    }
  }

  lemma ReserveKeepsApart(dev: Device, p: nat, size: nat)
    requires RangesApart(dev) && Unreserved(dev, p, size) && size > 0
    ensures p !in dev.reserved
    ensures RangesApart(dev.(reserved := dev.reserved[p := size]))
  {
  }

  lemma FreeKeepsApart(dev: Device, dev': Device, p: nat)
    requires RangesApart(dev) && dev'.reserved == dev.reserved - {p} && dev'.others == dev.others
    ensures RangesApart(dev')
    ensures forall q :: q != p && q in dev.reserved ==> q in dev'.reserved && dev'.reserved[q] == dev.reserved[q]
  {
  }

  lemma AddedElsewhere(dev: Device, reserved: Device, dev': Device, p: nat, size: nat, own: set<Handle>)
    requires reserved == dev.(reserved := dev.reserved[p := size])
    requires SameElsewhere(reserved, dev', p, size, own)
    ensures SameElsewhere(dev, dev', p, size, own)
  {
  }

  lemma EmptiedElsewhere(dev: Device, dev': Device, p: nat, al: Allocation)
    requires dev'.page == dev.page - Range(p, al.size) && dev'.live == dev.live - Elements(al.handles)
    requires forall q :: q != p && q in dev.reserved ==> q in dev'.reserved && dev'.reserved[q] == dev.reserved[q]
    ensures SameElsewhere(dev, dev', p, al.size, Elements(al.handles))
    ensures Unmapped(dev', p, al.size)
    ensures forall h :: h in al.handles ==> h !in dev'.live
  {
  }

  lemma HandoverIn(allocs: Table, dev': Device, p: nat, al: Allocation)
    requires (p in allocs ==> allocs[p].asleep) && !al.asleep
    ensures Handover(allocs, allocs[p := al], dev', p, Elements(al.handles))
  {
  }

  lemma HandoverOut(allocs: Table, allocs': Table, dev': Device, p: nat)
    requires p in allocs && SameEntries(allocs, allocs', p) && (p in allocs' ==> allocs'[p].asleep)
    requires forall h :: h in allocs[p].handles ==> h !in dev'.live
    ensures Handover(allocs, allocs', dev', p, Elements(allocs[p].handles))
  {
  }

  lemma ConsistentParts(dev: Device, allocs: Table)
    requires Consistent(dev, allocs)
    ensures dev.reserved.Keys == allocs.Keys && RangesApart(dev) && AllSound(dev, allocs)
  {
  }

  /** A freshly reserved range that has been filled with new chunks joins the table. */
  lemma MallocKeeps(dev: Device, allocs: Table, reserved: Device, dev': Device, p: nat, al: Allocation)
    requires Consistent(dev, allocs) && Unreserved(dev, p, al.size)
    requires reserved == dev.(reserved := dev.reserved[p := al.size])
    requires Placeable(reserved, p, al.sizes) && Installed(reserved, dev', p, al.sizes, al.handles)
    requires al.size == Sum(al.sizes) && !al.asleep && al.backup.NoBackup?
    ensures p !in allocs
    ensures Consistent(dev', allocs[p := al]) && Undisturbed(dev, allocs, dev', p)
  {
    hide Consistent, Mapped, Shaped, RangesApart, Undisturbed, Installed, SameElsewhere, Exclusive, Handover, AllSound;
    ConsistentParts(dev, allocs);
    ReserveKeepsApart(dev, p, al.size);
    MallocParts(dev, allocs, reserved, dev', p, al);
    Replace(dev, allocs, dev', allocs[p := al], p, al.size, Elements(al.handles));
  }

  lemma MallocParts(dev: Device, allocs: Table, reserved: Device, dev': Device, p: nat, al: Allocation)
    requires RangesApart(dev) && Unreserved(dev, p, al.size) && p !in allocs
    requires reserved == dev.(reserved := dev.reserved[p := al.size])
    requires Placeable(reserved, p, al.sizes) && Installed(reserved, dev', p, al.sizes, al.handles)
    requires al.size == Sum(al.sizes) && !al.asleep && al.backup.NoBackup?
    ensures Sound(dev', p, al) && RangesApart(dev') && dev'.reserved == reserved.reserved
    ensures SameElsewhere(dev, dev', p, al.size, Elements(al.handles))
    ensures Exclusive(dev, allocs, p, Elements(al.handles))
    ensures Handover(allocs, allocs[p := al], dev', p, Elements(al.handles))
  {
    InstalledIsSound(reserved, dev', p, al);
    ReserveKeepsApart(dev, p, al.size);
    AddedElsewhere(dev, reserved, dev', p, al.size, Elements(al.handles));
    HandoverIn(allocs, dev', p, al);
  }

  /** An allocation that sleeps is mapped again, with new handles, at its own address. */
  lemma WakeKeeps(dev: Device, allocs: Table, dev': Device, p: nat, handles: seq<Handle>)
    requires Consistent(dev, allocs) && p in allocs && allocs[p].asleep
    requires Placeable(dev, p, allocs[p].sizes) && Installed(dev, dev', p, allocs[p].sizes, handles)
    ensures Consistent(dev', allocs[p := Woken(allocs[p], handles)]) && Undisturbed(dev, allocs, dev', p)
  {
    hide Consistent, RangesApart, Undisturbed, SameElsewhere, Handover;
    ConsistentParts(dev, allocs);
    var al := Woken(allocs[p], handles);
    assert Sound(dev, p, allocs[p]);
    InstalledIsSound(dev, dev', p, al);
    HandoverIn(allocs, dev', p, al);
    Replace(dev, allocs, dev', allocs[p := al], p, al.size, Elements(handles));
  }

  /** A sleeping allocation can be mapped again. */
  lemma AsleepIsPlaceable(dev: Device, allocs: Table, p: nat)
    requires Consistent(dev, allocs) && p in allocs && allocs[p].asleep
    ensures Placeable(dev, p, allocs[p].sizes) && NoAliasing(dev)
  {
    assert Sound(dev, p, allocs[p]);
    NoSharing(dev, allocs);
  }

  /** The handles of an awake allocation are mapped inside its own range only. */
  lemma HandlesStayHome(dev: Device, allocs: Table, p: nat)
    requires Consistent(dev, allocs) && p in allocs && !allocs[p].asleep
    ensures forall a :: a in dev.page && dev.page[a].0 in allocs[p].handles ==> Within(p, allocs[p].size, a)
    ensures Exclusive(dev, allocs, p, Elements(allocs[p].handles))
    ensures Sound(dev, p, allocs[p])
  {
    forall a | a in dev.page && dev.page[a].0 in allocs[p].handles
      ensures Within(p, allocs[p].size, a)
    {
      var q := PageOwner(dev, allocs, a);
      assert Owns(allocs, p, dev.page[a].0);
    }
  }

  /** Emptying an awake allocation while its address stays held puts it to sleep. */
  lemma SleepKeeps(dev: Device, allocs: Table, dev': Device, p: nat, backup: Backup)
    requires Consistent(dev, allocs) && p in allocs && !allocs[p].asleep
    requires dev' == Emptied(dev, p, allocs[p]).(others := dev'.others) && RangesApart(dev')
    requires backup.Saved? ==> |backup.bytes| == allocs[p].size
    ensures Consistent(dev', allocs[p := allocs[p].(asleep := true, backup := backup)])
    ensures Undisturbed(dev, allocs, dev', p)
  {
    hide Consistent;
    ConsistentParts(dev, allocs);
    var al := allocs[p];
    var al' := al.(asleep := true, backup := backup);
    HandlesStayHome(dev, allocs, p);
    SleepParts(dev, allocs, dev', p, al');
    var allocs' := allocs[p := al'];
    assert allocs'.Keys == allocs.Keys && allocs'[p] == al';
    assert dev'.reserved == dev.reserved;
    Replace(dev, allocs, dev', allocs', p, al.size, Elements(al.handles));
  }

  lemma SleepParts(dev: Device, allocs: Table, dev': Device, p: nat, al': Allocation)
    requires p in allocs && Sound(dev, p, allocs[p]) && !allocs[p].asleep
    requires dev' == Emptied(dev, p, allocs[p]).(others := dev'.others)
    requires al' == allocs[p].(asleep := true, backup := al'.backup)
    requires al'.backup.Saved? ==> |al'.backup.bytes| == al'.size
    ensures Sound(dev', p, al')
    ensures SameElsewhere(dev, dev', p, al'.size, Elements(al'.handles))
    ensures Handover(allocs, allocs[p := al'], dev', p, Elements(al'.handles))
  {
    EmptiedElsewhere(dev, dev', p, allocs[p]);
    HandoverOut(allocs, allocs[p := al'], dev', p);
  }

  lemma FreeAsleep(dev: Device, allocs: Table, dev': Device, p: nat)
    requires Consistent(dev, allocs) && p in allocs && allocs[p].asleep
    requires dev' == dev.(reserved := dev.reserved - {p})
    ensures Consistent(dev', allocs - {p}) && Undisturbed(dev, allocs, dev', p)
  {
    hide Consistent, Mapped, Shaped, RangesApart, Undisturbed;
    ConsistentParts(dev, allocs);
    assert Sound(dev, p, allocs[p]);
    FreeKeepsApart(dev, dev', p);
    Replace(dev, allocs, dev', allocs - {p}, p, allocs[p].size, {});
  }

  lemma FreeAwake(dev: Device, allocs: Table, dev': Device, p: nat)
    requires Consistent(dev, allocs) && p in allocs && !allocs[p].asleep
    requires dev' == Emptied(dev, p, allocs[p]).(reserved := dev.reserved - {p})
    ensures Consistent(dev', allocs - {p}) && Undisturbed(dev, allocs, dev', p)
  {
    hide Consistent;
    ConsistentParts(dev, allocs);
    var al := allocs[p];
    FreeKeepsApart(dev, dev', p);
    HandlesStayHome(dev, allocs, p);
    EmptiedElsewhere(dev, dev', p, al);
    HandoverOut(allocs, allocs - {p}, dev', p);
    Replace(dev, allocs, dev', allocs - {p}, p, al.size, Elements(al.handles));
  }

  /** An emptied or sleeping allocation whose address is given back leaves the table. */
  lemma FreeKeeps(dev: Device, allocs: Table, dev': Device, p: nat)
    requires Consistent(dev, allocs) && p in allocs
    requires var al := allocs[p];
      dev' == (if al.asleep then dev else Emptied(dev, p, al)).(reserved := dev.reserved - {p})
    ensures Consistent(dev', allocs - {p}) && Undisturbed(dev, allocs, dev', p)
  {
    hide Consistent, Undisturbed;
    if allocs[p].asleep {
      FreeAsleep(dev, allocs, dev', p);
    } else {
      FreeAwake(dev, allocs, dev', p);
    }
  }

  lemma WrittenIsSound(dev: Device, dev': Device, addr: nat, bytes: seq<Byte>, q: nat, al: Allocation)
    requires Sound(dev, q, al) && Written(dev, dev', addr, bytes)
    ensures Sound(dev', q, al)
  {
  }

  lemma WrittenElsewhere(dev: Device, dev': Device, addr: nat, bytes: seq<Byte>, q: nat, al: Allocation)
    requires Sound(dev, q, al) && !al.asleep && Written(dev, dev', addr, bytes)
    requires Apart(addr, |bytes|, q, al.size)
    ensures SameBytes(dev, dev', q, al.size)
  {
    forall a | q <= a < q + al.size
      ensures Readable(dev, a, 1) && Readable(dev', a, 1) && ByteAt(dev', a) == ByteAt(dev, a)
    {
      PageOf(dev, q, al, a);
    }
  }

  /** Storing bytes inside one awake allocation changes no other allocation. */
  lemma WriteKeeps(dev: Device, allocs: Table, dev': Device, p: nat, addr: nat, bytes: seq<Byte>)
    requires Consistent(dev, allocs) && p in allocs && !allocs[p].asleep
    requires p <= addr && addr + |bytes| <= p + allocs[p].size
    requires Written(dev, dev', addr, bytes)
    ensures Consistent(dev', allocs) && Undisturbed(dev, allocs, dev', p)
  {
    hide Consistent, Written;
    WriteUndisturbed(dev, allocs, dev', p, addr, bytes);
    WriteConsistent(dev, allocs, dev', addr, bytes);
  }

  lemma SameRangesApart(dev: Device, dev': Device)
    requires RangesApart(dev) && dev'.reserved == dev.reserved && dev'.others == dev.others
    ensures RangesApart(dev')
  {
  }

  lemma WriteConsistent(dev: Device, allocs: Table, dev': Device, addr: nat, bytes: seq<Byte>)
    requires Consistent(dev, allocs) && Written(dev, dev', addr, bytes)
    ensures Consistent(dev', allocs)
  {
    hide PagesOwned, HandlesOwned, Sound, Spared, RangesApart, Contents, ByteAt;
    OwnedFrame(dev, dev', allocs);
    SameRangesApart(dev, dev');
    forall q | q in allocs ensures Sound(dev', q, allocs[q]) {
      WrittenIsSound(dev, dev', addr, bytes, q, allocs[q]);
    }
  }

  lemma WriteUndisturbed(dev: Device, allocs: Table, dev': Device, p: nat, addr: nat, bytes: seq<Byte>)
    requires Consistent(dev, allocs) && p in allocs && Written(dev, dev', addr, bytes)
    requires p <= addr && addr + |bytes| <= p + allocs[p].size
    ensures Undisturbed(dev, allocs, dev', p)
  {
    hide Consistent, Mapped, Shaped, Written;
    ConsistentParts(dev, allocs);
    assert Sound(dev, p, allocs[p]);
    forall q | q in allocs && q != p && !allocs[q].asleep
      ensures SameBytes(dev, dev', q, allocs[q].size)
    {
      assert Sound(dev, q, allocs[q]);
      WrittenElsewhere(dev, dev', addr, bytes, q, allocs[q]);
    }
  }

  /** The bytes of an awake allocation can be read and written. */
  lemma AwakeIsReadable(dev: Device, allocs: Table, p: nat)
    requires Consistent(dev, allocs) && p in allocs && !allocs[p].asleep
    ensures Readable(dev, p, allocs[p].size) && PagesLive(dev) && NoAliasing(dev)
  {
    assert Sound(dev, p, allocs[p]);
    NoSharing(dev, allocs);
  }

  lemma ReservedIsPlaceable(dev: Device, allocs: Table, reserved: Device, p: nat, sizes: seq<nat>)
    requires Consistent(dev, allocs) && Unreserved(dev, p, Sum(sizes)) && Sum(sizes) > 0
    requires reserved == dev.(reserved := dev.reserved[p := Sum(sizes)])
    requires forall i :: 0 <= i < |sizes| ==> sizes[i] > 0
    ensures p !in allocs && p !in dev.reserved && Placeable(reserved, p, sizes) && NoAliasing(reserved)
  {
    hide Consistent, RangesApart, AllSound, PagesReserved, Sound;
    ConsistentParts(dev, allocs);
    NoSharing(dev, allocs);
    PagesLieInReservations(dev, allocs);
    UnreservedIsUnmapped(dev, p, Sum(sizes));
    ReserveKeepsApart(dev, p, Sum(sizes));
  }

  /** What other allocators reserve does not concern the allocations. */
  lemma OthersKeep(dev: Device, allocs: Table, dev': Device)
    requires Consistent(dev, allocs) && dev' == dev.(others := dev'.others) && RangesApart(dev')
    ensures Consistent(dev', allocs)
    ensures forall p :: Undisturbed(dev, allocs, dev', p)
  {
    forall q | q in allocs
      ensures Sound(dev', q, allocs[q])
      ensures !allocs[q].asleep ==> SameBytes(dev, dev', q, allocs[q].size)
    {
      SoundFrame(dev, dev', q, allocs[q]);
    }
  }

  /** The view after an operation on the allocation at `p`. */
  lemma ViewAfter(dev: Device, allocs: Table, dev': Device, allocs': Table, p: nat)
    requires Consistent(dev, allocs) && Consistent(dev', allocs')
    requires SameEntries(allocs, allocs', p) && Undisturbed(dev, allocs, dev', p)
    ensures AllSound(dev, allocs) && AllSound(dev', allocs')
    ensures p in allocs' ==>
              View(dev', allocs') == View(dev, allocs)[p := BytesOf(dev', p, allocs'[p])]
    ensures p !in allocs' ==> View(dev', allocs') == View(dev, allocs) - {p}
  {
    hide Consistent;
    ConsistentParts(dev, allocs);
    ConsistentParts(dev', allocs');
    ViewElsewhere(dev, allocs, dev', allocs', p);
    ViewUpdate(View(dev, allocs), View(dev', allocs'), p);
  }

  /** A new allocation appears in the view as zeros; nothing else changes. */
  lemma MallocOutcome(dev: Device, allocs: Table, reserved: Device, dev': Device, p: nat, al: Allocation)
    requires Consistent(dev, allocs) && Unreserved(dev, p, al.size)
    requires reserved == dev.(reserved := dev.reserved[p := al.size])
    requires Placeable(reserved, p, al.sizes) && Installed(reserved, dev', p, al.sizes, al.handles)
    requires al.size == Sum(al.sizes) && !al.asleep && al.backup.NoBackup?
    requires Readable(dev', p, al.size) && Contents(dev', p, al.size) == Zeros(al.size)
    ensures p !in allocs && Consistent(dev', allocs[p := al])
    ensures AllSound(dev, allocs) && AllSound(dev', allocs[p := al])
    ensures View(dev', allocs[p := al]) == View(dev, allocs)[p := Zeros(al.size)]
  {
    hide Consistent, Installed, Placeable, Undisturbed, Unreserved, Mapped, Shaped, View;
    MallocKeeps(dev, allocs, reserved, dev', p, al);
    ViewAfter(dev, allocs, dev', allocs[p := al], p);
  }

  /** Freeing removes one entry of the view. */
  lemma FreeOutcome(dev: Device, allocs: Table, dev': Device, p: nat)
    requires Consistent(dev, allocs) && p in allocs
    requires var al := allocs[p];
      dev' == (if al.asleep then dev else Emptied(dev, p, al)).(reserved := dev.reserved - {p})
    ensures Consistent(dev', allocs - {p})
    ensures AllSound(dev, allocs) && AllSound(dev', allocs - {p})
    ensures View(dev', allocs - {p}) == View(dev, allocs) - {p}
  {
    hide Consistent;
    FreeKeeps(dev, allocs, dev', p);
    ViewAfter(dev, allocs, dev', allocs - {p}, p);
  }

  /** Sleeping with a backup changes nothing in the view; without one the bytes become zeros. */
  lemma SleepOutcome(dev: Device, allocs: Table, dev': Device, p: nat, backup: Backup)
    requires Consistent(dev, allocs) && p in allocs && !allocs[p].asleep
    requires dev' == Emptied(dev, p, allocs[p]).(others := dev'.others) && RangesApart(dev')
    requires Readable(dev, p, allocs[p].size)
    requires backup.Saved? ==> backup.bytes == Contents(dev, p, allocs[p].size)
    ensures var allocs' := allocs[p := allocs[p].(asleep := true, backup := backup)];
      && Consistent(dev', allocs')
      && AllSound(dev, allocs) && AllSound(dev', allocs')
      && View(dev', allocs')
         == if backup.Saved? then View(dev, allocs) else View(dev, allocs)[p := Zeros(allocs[p].size)]
  {
    hide Consistent, Mapped, Shaped, RangesApart, Unmapped, Undisturbed, View;
    ConsistentParts(dev, allocs);
    ViewEntry(dev, allocs, p);
    var allocs' := allocs[p := allocs[p].(asleep := true, backup := backup)];
    SleepKeeps(dev, allocs, dev', p, backup);
    ViewAfter(dev, allocs, dev', allocs', p);
    assert Sound(dev, p, allocs[p]);
  }

  /** Waking maps zeros and, if there is a backup, copies it back: the view stays the same. */
  lemma WakeOutcome(dev: Device, allocs: Table, mapped: Device, dev': Device, p: nat, handles: seq<Handle>)
    requires Consistent(dev, allocs) && p in allocs && allocs[p].asleep
    requires Placeable(dev, p, allocs[p].sizes) && Installed(dev, mapped, p, allocs[p].sizes, handles)
    requires Readable(mapped, p, allocs[p].size)
    requires match allocs[p].backup
      case NoBackup => dev' == mapped && Contents(mapped, p, allocs[p].size) == Zeros(allocs[p].size)
      case Saved(bytes) => Written(mapped, dev', p, bytes)
    ensures var allocs' := allocs[p := Woken(allocs[p], handles)];
      && Consistent(dev', allocs')
      && AllSound(dev, allocs) && AllSound(dev', allocs')
      && View(dev', allocs') == View(dev, allocs)
  {
    hide Consistent, Installed, Placeable, Undisturbed, Mapped, Shaped, View, RangesApart, Unmapped;
    ConsistentParts(dev, allocs);
    var al := allocs[p];
    var allocs' := allocs[p := Woken(al, handles)];
    assert Sound(dev, p, al);
    WakeKeeps(dev, allocs, mapped, p, handles);
    ViewAfter(dev, allocs, mapped, allocs', p);
    ViewEntry(dev, allocs, p);
    if al.backup.Saved? {
      RestoreOutcome(mapped, allocs', dev', p, al.backup.bytes);
    }
  }

  lemma ViewEntry(dev: Device, allocs: Table, p: nat)
    requires AllSound(dev, allocs) && p in allocs
    ensures View(dev, allocs) == View(dev, allocs)[p := BytesOf(dev, p, allocs[p])]
  {
  }

  lemma RestoreOutcome(mapped: Device, allocs: Table, dev': Device, p: nat, bytes: seq<Byte>)
    requires Consistent(mapped, allocs) && p in allocs && !allocs[p].asleep && |bytes| == allocs[p].size
    requires Written(mapped, dev', p, bytes)
    ensures Consistent(dev', allocs)
    ensures AllSound(mapped, allocs) && AllSound(dev', allocs)
    ensures View(dev', allocs) == View(mapped, allocs)[p := bytes]
  {
    hide Consistent;
    WriteKeeps(mapped, allocs, dev', p, p, bytes);
    ViewAfter(mapped, allocs, dev', allocs, p);
    assert BytesOf(dev', p, allocs[p]) == bytes;
  }

  /** Storing into an awake allocation changes those bytes of the view. */
  lemma WriteOutcome(dev: Device, allocs: Table, dev': Device, p: nat, i: nat, bytes: seq<Byte>)
    requires Consistent(dev, allocs) && p in allocs && !allocs[p].asleep
    requires i + |bytes| <= allocs[p].size && Written(dev, dev', p + i, bytes)
    ensures Consistent(dev', allocs)
    ensures AllSound(dev, allocs) && AllSound(dev', allocs)
    ensures var was := View(dev, allocs)[p];
      View(dev', allocs) == View(dev, allocs)[p := was[..i] + bytes + was[i + |bytes|..]]
  {
    hide Consistent;
    WriteKeeps(dev, allocs, dev', p, p + i, bytes);
    ViewAfter(dev, allocs, dev', allocs, p);
    var al := allocs[p];
    assert Sound(dev, p, al) && Sound(dev', p, al);
    WrittenBytes(dev, dev', p, al, i, bytes);
  }

  lemma WrittenBytes(dev: Device, dev': Device, p: nat, al: Allocation, i: nat, bytes: seq<Byte>)
    requires Sound(dev, p, al) && Sound(dev', p, al) && !al.asleep
    requires i + |bytes| <= al.size && Written(dev, dev', p + i, bytes)
    ensures BytesOf(dev', p, al) == BytesOf(dev, p, al)[..i] + bytes + BytesOf(dev, p, al)[i + |bytes|..]
  {
    var was, now := BytesOf(dev, p, al), BytesOf(dev', p, al);
    forall k | 0 <= k < al.size
      ensures now[k] == (was[..i] + bytes + was[i + |bytes|..])[k]
    {
      WrittenByte(dev, dev', p, al, i, bytes, k);
    }
    hide BytesOf, Written, Sound;
  }

  lemma WrittenByte(dev: Device, dev': Device, p: nat, al: Allocation, i: nat, bytes: seq<Byte>, k: nat)
    requires Sound(dev, p, al) && Sound(dev', p, al) && !al.asleep && k < al.size
    requires i + |bytes| <= al.size && Written(dev, dev', p + i, bytes)
    ensures BytesOf(dev', p, al)[k] == if i <= k < i + |bytes| then bytes[k - i] else BytesOf(dev, p, al)[k]
  {
    PageOf(dev, p, al, p + k);
    if i <= k < i + |bytes| {
      assert Contents(dev', p + i, |bytes|)[k - i] == bytes[k - i];
    } else {
      assert Readable(dev, p + k, 1);
    }
  }

  /** Other allocators may run while an address is not held; the view stays the same. */
  lemma OthersOutcome(dev: Device, allocs: Table, dev': Device)
    requires Consistent(dev, allocs) && dev' == dev.(others := dev'.others) && RangesApart(dev')
    ensures Consistent(dev', allocs)
    ensures AllSound(dev, allocs) && AllSound(dev', allocs) && View(dev', allocs) == View(dev, allocs)
  {
    hide Consistent, Mapped, Shaped;
    ConsistentParts(dev, allocs);
    OthersKeep(dev, allocs, dev');
    ConsistentParts(dev', allocs);
    forall p | p in allocs ensures View(dev', allocs)[p] == View(dev, allocs)[p] {
      assert Undisturbed(dev, allocs, dev', p + 1);
      SameBytesOf(dev, dev', p, allocs[p]);
    }
  }
}
