/**
 What the allocator's table says about the device, and what every operation keeps of it.
 */
module Allocations {
  import opened Basics
  import opened Sums
  import opened ChunkPlan
  import opened DeviceMemory

  datatype Backup = NoBackup | Saved(bytes: seq<Byte>)

  /** One entry of `pointer_to_data`: the recorded handle list, its tag and its sleep state. */
  datatype Allocation = Allocation(
    size: nat,
    sizes: seq<nat>,
    handles: seq<Handle>,
    tag: string,
    asleep: bool,
    backup: Backup)

  type Table = map<nat, Allocation>

  ghost predicate Shaped(al: Allocation) {
    && |al.handles| == |al.sizes| && al.size == Sum(al.sizes) > 0
    && (forall i :: 0 <= i < |al.sizes| ==> al.sizes[i] > 0)
    && (al.backup.Saved? ==> |al.backup.bytes| == al.size)
  }

  /** The range is mapped by exactly the allocation's own chunk handles, in order. */
  ghost predicate Mapped(dev: Device, p: nat, al: Allocation)
    requires Shaped(al)
  {
    && Distinct(al.handles)
    && (forall i :: 0 <= i < |al.handles| ==>
          al.handles[i] in dev.live && |dev.live[al.handles[i]]| == al.sizes[i])
    && (forall a :: p <= a < p + al.size ==>
          a in dev.page && dev.page[a] == Translate(p, al.sizes, al.handles, a))
  }

  /** The address is held; the range is mapped if awake and empty if asleep. */
  ghost predicate Sound(dev: Device, p: nat, al: Allocation) {
    && Shaped(al)
    && p in dev.reserved && dev.reserved[p] == al.size
    && if al.asleep then Unmapped(dev, p, al.size) else al.backup.NoBackup? && Mapped(dev, p, al)
  }

  predicate Owns(allocs: Table, p: nat, h: Handle) {
    p in allocs && !allocs[p].asleep && h in allocs[p].handles
  }

  predicate Spans(allocs: Table, p: nat, a: nat) {
    p in allocs && !allocs[p].asleep && p <= a < p + allocs[p].size
  }

  /**
   The invariant. Reservations are the allocations' ranges and never overlap; every page belongs
   to an awake allocation; the live handles are exactly the chunks of the awake allocations.
   */
  ghost predicate Consistent(dev: Device, allocs: Table) {
    && dev.reserved.Keys == allocs.Keys
    && RangesApart(dev)
    && AllSound(dev, allocs)
    && PagesOwned(dev, allocs)
    && HandlesOwned(dev, allocs)
  }

  ghost predicate PagesOwned(dev: Device, allocs: Table) {
    forall a :: a in dev.page ==> exists p :: Spans(allocs, p, a)
  }

  ghost predicate HandlesOwned(dev: Device, allocs: Table) {
    && (forall h :: h in dev.live ==> exists p :: Owns(allocs, p, h))
    && (forall p, q, h :: Owns(allocs, p, h) && Owns(allocs, q, h) ==> p == q)
  }

  /** Ownership depends on which pages and handles exist, not on what they hold. */
  lemma OwnedFrame(dev: Device, dev': Device, allocs: Table)
    requires PagesOwned(dev, allocs) && HandlesOwned(dev, allocs)
    requires dev'.page == dev.page && dev'.live.Keys == dev.live.Keys
    ensures PagesOwned(dev', allocs) && HandlesOwned(dev', allocs)
  {
  }

  /** What the page table says inside an awake allocation. */
  lemma PageOf(dev: Device, p: nat, al: Allocation, a: nat)
    requires Sound(dev, p, al) && !al.asleep && p <= a < p + al.size
    ensures a in dev.page && dev.page[a] == Translate(p, al.sizes, al.handles, a)
    ensures dev.page[a].0 in al.handles
    ensures dev.page[a].0 in dev.live && dev.page[a].1 < |dev.live[dev.page[a].0]|
  {
    var i := ChunkOf(al.sizes, a - p);
    assert al.handles[i] in dev.live && |dev.live[al.handles[i]]| == al.sizes[i];
  }

  lemma PageOwner(dev: Device, allocs: Table, a: nat) returns (p: nat)
    requires Consistent(dev, allocs) && a in dev.page
    ensures Spans(allocs, p, a) && Sound(dev, p, allocs[p]) && Owns(allocs, p, dev.page[a].0)
    ensures dev.page[a].0 in dev.live && dev.page[a].1 < |dev.live[dev.page[a].0]|
  {
    p :| Spans(allocs, p, a);
    assert Sound(dev, p, allocs[p]);
    PageOf(dev, p, allocs[p], a);
  }

  /** Pages lead to live bytes, and no physical byte is reachable through two addresses. */
  lemma NoSharing(dev: Device, allocs: Table)
    requires Consistent(dev, allocs)
    ensures PagesLive(dev) && NoAliasing(dev)
  {
    hide Consistent;
    forall a | a in dev.page
      ensures dev.page[a].0 in dev.live && dev.page[a].1 < |dev.live[dev.page[a].0]|
    {
      var p := PageOwner(dev, allocs, a);
    }
    forall a, b | a in dev.page && b in dev.page && a != b
      ensures dev.page[a] != dev.page[b]
    {
      DistinctPages(dev, allocs, a, b);
    }
  }

  lemma DistinctPages(dev: Device, allocs: Table, a: nat, b: nat)
    requires Consistent(dev, allocs) && a in dev.page && b in dev.page && a != b
    ensures dev.page[a] != dev.page[b]
  {
    var p := PageOwner(dev, allocs, a);
    var q := PageOwner(dev, allocs, b);
    if p == q {
      SamePage(dev, p, allocs[p], a, b);
    }
  }

  lemma SamePage(dev: Device, p: nat, al: Allocation, a: nat, b: nat)
    requires Sound(dev, p, al) && !al.asleep && a != b
    requires p <= a < p + al.size && p <= b < p + al.size
    ensures a in dev.page && b in dev.page && dev.page[a] != dev.page[b]
  {
    TranslateInjective(p, al.sizes, al.handles, a, b);
  }

  /** The two device states differ only in what concerns the range and the given handles. */
  ghost predicate SameElsewhere(dev: Device, dev': Device, p: nat, size: nat, own: set<Handle>) {
    && (forall q :: q != p && q in dev.reserved ==> q in dev'.reserved && dev'.reserved[q] == dev.reserved[q])
    && (forall a :: !Within(p, size, a) ==> (a in dev.page <==> a in dev'.page))
    && (forall a :: !Within(p, size, a) && a in dev.page ==> dev'.page[a] == dev.page[a])
    && (forall h :: h !in own ==> (h in dev.live <==> h in dev'.live))
    && (forall h :: h !in own && h in dev.live ==> dev'.live[h] == dev.live[h])
  }

  /** The handles in question belong to nobody but `p`. */
  ghost predicate Exclusive(dev: Device, allocs: Table, p: nat, own: set<Handle>) {
    forall h :: h in own ==> h !in dev.live || Owns(allocs, p, h)
  }

  ghost predicate SameEntries(allocs: Table, allocs': Table, p: nat) {
    && (forall q :: q != p ==> (q in allocs <==> q in allocs'))
    && (forall q :: q != p && q in allocs ==> allocs'[q] == allocs[q])
  }

  /** Entries other than `p` stay, and the given handles are exactly what `p` gives up or takes. */
  ghost predicate Handover(allocs: Table, allocs': Table, dev': Device, p: nat, own: set<Handle>) {
    && SameEntries(allocs, allocs', p)
    && (forall h :: Owns(allocs, p, h) || Owns(allocs', p, h) ==> h in own)
    && (forall h :: h in own && h in dev'.live ==> Owns(allocs', p, h))
  }

  /** Every other awake allocation still holds the same bytes. */
  ghost predicate Undisturbed(dev: Device, allocs: Table, dev': Device, p: nat) {
    forall q :: q in allocs && q != p && !allocs[q].asleep ==> SameBytes(dev, dev', q, allocs[q].size)
  }

  /** Every allocation but `p` is as sound as it was and holds the same bytes. */
  ghost predicate OthersSafe(dev: Device, allocs: Table, dev': Device, p: nat) {
    && (forall q :: q in allocs && q != p ==> Sound(dev', q, allocs[q]))
    && Undisturbed(dev, allocs, dev', p)
  }

  /** Pages exist only inside our reservations. */
  ghost predicate PagesReserved(dev: Device) {
    forall a :: a in dev.page ==> exists p :: p in dev.reserved && Within(p, dev.reserved[p], a)
  }

  lemma UnreservedIsUnmapped(dev: Device, addr: nat, size: nat)
    requires PagesReserved(dev) && Unreserved(dev, addr, size)
    ensures Unmapped(dev, addr, size)
  {
  }

  lemma PagesLieInReservations(dev: Device, allocs: Table)
    requires Consistent(dev, allocs)
    ensures PagesReserved(dev)
  {
    forall a | a in dev.page
      ensures exists p :: p in dev.reserved && Within(p, dev.reserved[p], a)
    {
      var p := PageOwner(dev, allocs, a);
      assert p in dev.reserved && Within(p, dev.reserved[p], a);
    }
  }

  lemma OthersStaySafe(dev: Device, allocs: Table, dev': Device, p: nat, size: nat, own: set<Handle>)
    requires Consistent(dev, allocs)
    requires if p in allocs then allocs[p].size == size else Unreserved(dev, p, size)
    requires SameElsewhere(dev, dev', p, size, own) && Exclusive(dev, allocs, p, own)
    ensures OthersSafe(dev, allocs, dev', p)
  {
    forall q | q in allocs && q != p
      ensures Sound(dev', q, allocs[q])
      ensures !allocs[q].asleep ==> SameBytes(dev, dev', q, allocs[q].size)
    {
      StillSound(dev, allocs, dev', p, size, own, q);
    }
  }

  ghost predicate SameBytes(dev: Device, dev': Device, q: nat, size: nat) {
    && Readable(dev, q, size) && Readable(dev', q, size)
    && Contents(dev', q, size) == Contents(dev, q, size)
  }

  /** An allocation whose reservation, pages and handles are as before is as sound as before. */
  lemma SoundFrame(dev: Device, dev': Device, q: nat, al: Allocation)
    requires Sound(dev, q, al)
    requires q in dev'.reserved && dev'.reserved[q] == dev.reserved[q]
    requires forall a :: q <= a < q + al.size ==> (a in dev.page <==> a in dev'.page)
    requires forall a :: q <= a < q + al.size && a in dev.page ==> dev'.page[a] == dev.page[a]
    requires !al.asleep ==> forall h :: h in al.handles && h in dev.live ==>
               h in dev'.live && dev'.live[h] == dev.live[h]
    ensures Sound(dev', q, al)
    ensures !al.asleep ==> SameBytes(dev, dev', q, al.size)
  {
    if !al.asleep {
      assert forall i :: 0 <= i < |al.handles| ==> al.handles[i] in al.handles;
      assert Mapped(dev', q, al);
      forall a | q <= a < q + al.size
        ensures Readable(dev, a, 1) && Readable(dev', a, 1) && ByteAt(dev', a) == ByteAt(dev, a)
      {
        PageOf(dev, q, al, a);
      }
    }
  }

  lemma OthersHandle(dev: Device, allocs: Table, p: nat, own: set<Handle>, q: nat, h: Handle)
    requires Consistent(dev, allocs) && q != p && Exclusive(dev, allocs, p, own) && Owns(allocs, q, h)
    ensures h in dev.live && h !in own
  {
    assert Sound(dev, q, allocs[q]);
    var i :| 0 <= i < |allocs[q].handles| && allocs[q].handles[i] == h;
    assert allocs[q].handles[i] in dev.live;
  }

  lemma StillSound(dev: Device, allocs: Table, dev': Device, p: nat, size: nat, own: set<Handle>, q: nat)
    requires Consistent(dev, allocs) && q in allocs && q != p
    requires if p in allocs then allocs[p].size == size else Unreserved(dev, p, size)
    requires SameElsewhere(dev, dev', p, size, own) && Exclusive(dev, allocs, p, own)
    ensures Sound(dev', q, allocs[q])
    ensures !allocs[q].asleep ==> SameBytes(dev, dev', q, allocs[q].size)
  {
    var al := allocs[q];
    assert Sound(dev, q, al);
    if p in allocs { assert Sound(dev, p, allocs[p]); }
    assert Apart(p, size, q, al.size);
    assert forall a :: q <= a < q + al.size ==> !Within(p, size, a);
    if !al.asleep {
      forall h | h in al.handles && h in dev.live
        ensures h in dev'.live && dev'.live[h] == dev.live[h]
      {
        OthersHandle(dev, allocs, p, own, q, h);
      }
    }
    SoundFrame(dev, dev', q, al);
  }

  lemma PagesStillOwned(dev: Device, allocs: Table, dev': Device, allocs': Table,
                        p: nat, size: nat, own: set<Handle>)
    requires PagesOwned(dev, allocs) && SameEntries(allocs, allocs', p)
    requires p in allocs ==> allocs[p].size == size
    requires SameElsewhere(dev, dev', p, size, own)
    requires if p in allocs' && !allocs'[p].asleep then allocs'[p].size == size else Unmapped(dev', p, size)
    ensures PagesOwned(dev', allocs')
  {
    forall a | a in dev'.page ensures exists q :: Spans(allocs', q, a) {
      if Within(p, size, a) {
        assert Spans(allocs', p, a);
      } else {
        var q :| Spans(allocs, q, a);
        assert Spans(allocs', q, a);
      }
    }
  }

  lemma NewOwner(dev: Device, allocs: Table, dev': Device, allocs': Table,
                 p: nat, size: nat, own: set<Handle>, h: Handle) returns (q: nat)
    requires Consistent(dev, allocs) && Handover(allocs, allocs', dev', p, own)
    requires SameElsewhere(dev, dev', p, size, own) && Exclusive(dev, allocs, p, own) && h in dev'.live
    ensures Owns(allocs', q, h)
  {
    if h in own {
      q := p;
    } else {
      q :| Owns(allocs, q, h);
    }
  }

  lemma HandlesStillOwned(dev: Device, allocs: Table, dev': Device, allocs': Table,
                          p: nat, size: nat, own: set<Handle>)
    requires Consistent(dev, allocs) && Handover(allocs, allocs', dev', p, own)
    requires SameElsewhere(dev, dev', p, size, own) && Exclusive(dev, allocs, p, own)
    ensures HandlesOwned(dev', allocs')
  {
    forall h | h in dev'.live ensures exists q :: Owns(allocs', q, h) {
      var q := NewOwner(dev, allocs, dev', allocs', p, size, own, h);
    }
    forall q, r, h | Owns(allocs', q, h) && Owns(allocs', r, h)
      ensures q == r
    {
      if q != p { assert Owns(allocs, q, h); OthersHandle(dev, allocs, p, own, q, h); }
      if r != p { assert Owns(allocs, r, h); OthersHandle(dev, allocs, p, own, r, h); }
    }
  }

  /** Replacing, adding or removing one allocation keeps the invariant for all of them. */
  lemma Replace(dev: Device, allocs: Table, dev': Device, allocs': Table,
                p: nat, size: nat, own: set<Handle>)
    requires Consistent(dev, allocs) && Handover(allocs, allocs', dev', p, own)
    requires if p in allocs then allocs[p].size == size else Unreserved(dev, p, size)
    requires p in allocs' ==> allocs'[p].size == size && Sound(dev', p, allocs'[p])
    requires dev'.reserved.Keys == allocs'.Keys && RangesApart(dev')
    requires SameElsewhere(dev, dev', p, size, own) && Exclusive(dev, allocs, p, own)
    requires !(p in allocs' && !allocs'[p].asleep) ==> Unmapped(dev', p, size)
    ensures Consistent(dev', allocs')
    ensures Undisturbed(dev, allocs, dev', p)
  {
    OthersStaySafe(dev, allocs, dev', p, size, own);
    PagesStillOwned(dev, allocs, dev', allocs', p, size, own);
    HandlesStillOwned(dev, allocs, dev', allocs', p, size, own);
  }

  // ----- what the callers see: a map from addresses to bytes -----

  lemma AwakeReadable(dev: Device, p: nat, al: Allocation)
    requires Sound(dev, p, al) && !al.asleep
    ensures Readable(dev, p, al.size)
  {
    forall a | p <= a < p + al.size
      ensures a in dev.page && dev.page[a].0 in dev.live && dev.page[a].1 < |dev.live[dev.page[a].0]|
    {
      PageOf(dev, p, al, a);
    }
  }

  /** The bytes of an allocation: on the device if awake, else what waking it will bring back. */
  ghost function BytesOf(dev: Device, p: nat, al: Allocation): (bytes: seq<Byte>)
    requires Sound(dev, p, al)
    ensures |bytes| == al.size
  {
    if !al.asleep then
      AwakeReadable(dev, p, al);
      Contents(dev, p, al.size)
    else if al.backup.Saved? then al.backup.bytes
    else Zeros(al.size)
  }

  ghost predicate AllSound(dev: Device, allocs: Table) {
    forall p :: p in allocs ==> Sound(dev, p, allocs[p])
  }

  ghost function View(dev: Device, allocs: Table): (view: map<nat, seq<Byte>>)
    requires AllSound(dev, allocs)
    ensures view.Keys == allocs.Keys
    ensures forall p :: p in allocs ==> view[p] == BytesOf(dev, p, allocs[p])
  {
    map p | p in allocs :: BytesOf(dev, p, allocs[p])
  }

  lemma SameBytesOf(dev: Device, dev': Device, q: nat, al: Allocation)
    requires Sound(dev, q, al) && Sound(dev', q, al)
    requires !al.asleep ==> SameBytes(dev, dev', q, al.size)
    ensures BytesOf(dev', q, al) == BytesOf(dev, q, al)
  {
  }

  /** An operation on one allocation changes the view at its address only. */
  lemma ViewElsewhere(dev: Device, allocs: Table, dev': Device, allocs': Table, p: nat)
    requires AllSound(dev, allocs) && AllSound(dev', allocs')
    requires SameEntries(allocs, allocs', p) && Undisturbed(dev, allocs, dev', p)
    ensures View(dev', allocs') - {p} == View(dev, allocs) - {p}
  {
    forall q | q in allocs && q != p
      ensures View(dev', allocs')[q] == View(dev, allocs)[q]
    {
      SameBytesOf(dev, dev', q, allocs[q]);
    }
  }

  lemma ViewUpdate(view: map<nat, seq<Byte>>, view': map<nat, seq<Byte>>, p: nat)
    requires view' - {p} == view - {p}
    ensures p in view' ==> view' == view[p := view'[p]]
    ensures p !in view' ==> view' == view - {p}
  {
    assert forall q :: q != p ==> (q in view <==> q in view - {p});
    assert forall q :: q != p ==> (q in view' <==> q in view' - {p});
    assert forall q :: q != p && q in view ==> view[q] == (view - {p})[q] == (view' - {p})[q];
  }
}
