/**
 The device memory that the allocator's driver calls act on: reserved address ranges, live
 physical handles with their bytes, and the page table that maps each address to a handle
 and an offset in it.
 */
module DeviceMemory {
  import opened Basics
  import opened Sums
  import opened ChunkPlan

  type Handle = nat
  type Byte = x: int | 0 <= x < 256

  /** `others` are ranges that other allocators of the process have reserved. */
  datatype Device = Device(
    reserved: map<nat, nat>,
    others: map<nat, nat>,
    page: map<nat, (Handle, nat)>,
    live: map<Handle, seq<Byte>>)

  predicate Within(addr: nat, size: nat, a: nat) {
    addr <= a < addr + size
  }

  /** A range that overlaps no reservation, ours or foreign. */
  predicate Unreserved(dev: Device, addr: nat, size: nat) {
    && (forall p :: p in dev.reserved ==> Apart(addr, size, p, dev.reserved[p]))
    && (forall p :: p in dev.others ==> Apart(addr, size, p, dev.others[p]))
  }

  ghost predicate RangesApart(dev: Device) {
    && (forall p :: p in dev.reserved ==> dev.reserved[p] > 0)
    && (forall p :: p in dev.others ==> dev.others[p] > 0)
    && (forall p, q :: p in dev.reserved && q in dev.reserved && p != q ==>
          Apart(p, dev.reserved[p], q, dev.reserved[q]))
    && (forall p, q :: p in dev.reserved && q in dev.others ==>
          Apart(p, dev.reserved[p], q, dev.others[q]))
  }

  predicate Unmapped(dev: Device, addr: nat, size: nat) {
    forall a :: addr <= a < addr + size ==> a !in dev.page
  }

  /** Every page leads to a byte of a live handle. */
  ghost predicate PagesLive(dev: Device) {
    forall a :: a in dev.page ==>
      dev.page[a].0 in dev.live && dev.page[a].1 < |dev.live[dev.page[a].0]|
  }

  /** No two addresses share a byte of physical memory. */
  ghost predicate NoAliasing(dev: Device) {
    forall a, b :: a in dev.page && b in dev.page && a != b ==> dev.page[a] != dev.page[b]
  }

  function ByteAt(dev: Device, a: nat): (b: Byte)
    requires a in dev.page && dev.page[a].0 in dev.live && dev.page[a].1 < |dev.live[dev.page[a].0]|
  {
    dev.live[dev.page[a].0][dev.page[a].1]
  }

  predicate Readable(dev: Device, addr: nat, size: nat) {
    forall a :: addr <= a < addr + size ==>
      a in dev.page && dev.page[a].0 in dev.live && dev.page[a].1 < |dev.live[dev.page[a].0]|
  }

  /** The bytes seen through the page table. */
  function Contents(dev: Device, addr: nat, size: nat): (bytes: seq<Byte>)
    requires Readable(dev, addr, size)
    ensures |bytes| == size
    ensures forall i :: 0 <= i < size ==> bytes[i] == ByteAt(dev, addr + i)
  {
    seq<Byte>(size, i requires 0 <= i < size => ByteAt(dev, addr + i))
  }

  function Zeros(size: nat): (bytes: seq<Byte>)
  {
    seq<Byte>(size, _ => 0)
  }

  function Elements(s: seq<Handle>): (r: set<Handle>)
    ensures forall x :: x in r <==> x in s
  {
    set x | x in s
  }

  predicate Distinct(s: seq<Handle>) {
    forall i, j :: 0 <= i < j < |s| ==> s[i] != s[j]
  }

  // ----- the page table of one allocation -----

  /** Where byte `a` of a chunked allocation at `base` is found. */
  function Translate(base: nat, sizes: seq<nat>, handles: seq<Handle>, a: nat): (loc: (Handle, nat))
    requires |handles| == |sizes| && base <= a < base + Sum(sizes)
  {
    var i := ChunkOf(sizes, a - base);
    (handles[i], a - base - Offset(sizes, i))
  }

  /** The pages of chunks `lo` up to `hi`. */
  ghost function Pages(base: nat, sizes: seq<nat>, handles: seq<Handle>, lo: nat, hi: nat)
    : (m: map<nat, (Handle, nat)>)
    requires |handles| == |sizes| && lo <= hi <= |sizes|
    ensures forall a :: a in m <==> base + Offset(sizes, lo) <= a < base + Offset(sizes, hi)
  {
    OffsetMono(sizes, hi, |sizes|);
    OffsetEnds(sizes);
    map a | base + Offset(sizes, lo) <= a < base + Offset(sizes, hi)
      :: Translate(base, sizes, handles, a)
  }

  function ChunkPages(addr: nat, size: nat, h: Handle): (m: map<nat, (Handle, nat)>)
    ensures forall a :: a in m <==> addr <= a < addr + size
  {
    map a | addr <= a < addr + size && Within(addr, size, a) :: (h, a - addr)
  }

  lemma TranslateChunk(base: nat, sizes: seq<nat>, handles: seq<Handle>, i: nat, a: nat)
    requires |handles| == |sizes| && i < |sizes|
    requires base + Offset(sizes, i) <= a < base + Offset(sizes, i) + sizes[i]
    ensures a < base + Sum(sizes)
    ensures Translate(base, sizes, handles, a) == (handles[i], a - base - Offset(sizes, i))
  {
    ChunksTile(sizes, a - base, i, i);
    ChunksTile(sizes, a - base, i, ChunkOf(sizes, a - base));
  }

  /** Pages of one chunk, as the driver maps them. */
  lemma ChunkIsPages(base: nat, sizes: seq<nat>, handles: seq<Handle>, i: nat)
    requires |handles| == |sizes| && i < |sizes|
    ensures ChunkPages(base + Offset(sizes, i), sizes[i], handles[i])
         == Pages(base, sizes, handles, i, i + 1)
  {
    OffsetStep(sizes, i);
    var m := Pages(base, sizes, handles, i, i + 1);
    forall a | a in m
      ensures m[a] == (handles[i], a - base - Offset(sizes, i))
    {
      TranslateChunk(base, sizes, handles, i, a);
    }
  }

  lemma PagesAppend(base: nat, sizes: seq<nat>, handles: seq<Handle>, lo: nat, i: nat)
    requires |handles| == |sizes| && lo <= i < |sizes|
    ensures Pages(base, sizes, handles, lo, i)
              + ChunkPages(base + Offset(sizes, i), sizes[i], handles[i])
         == Pages(base, sizes, handles, lo, i + 1)
  {
    ChunkIsPages(base, sizes, handles, i);
    OffsetMono(sizes, lo, i);
    OffsetStep(sizes, i);
  }

  function Range(addr: nat, size: nat): (r: set<nat>)
    ensures forall a :: a in r <==> addr <= a < addr + size
  {
    set a | addr <= a < addr + size && Within(addr, size, a)
  }

  lemma PagesDropFirst(base: nat, sizes: seq<nat>, handles: seq<Handle>, j: nat, hi: nat)
    requires |handles| == |sizes| && j < hi <= |sizes|
    ensures Pages(base, sizes, handles, j, hi) - Range(base + Offset(sizes, j), sizes[j])
         == Pages(base, sizes, handles, j + 1, hi)
  {
    OffsetStep(sizes, j);
    OffsetMono(sizes, j + 1, hi);
  }

  /** Two bytes of a chunked allocation with distinct handles never share a location. */
  lemma TranslateInjective(base: nat, sizes: seq<nat>, handles: seq<Handle>, a: nat, b: nat)
    requires |handles| == |sizes| && Distinct(handles)
    requires base <= a < base + Sum(sizes) && base <= b < base + Sum(sizes) && a != b
    ensures Translate(base, sizes, handles, a) != Translate(base, sizes, handles, b)
  {
  }
}
