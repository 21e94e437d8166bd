/**
 The driver calls of the virtual memory interface. A call may fail at any time; a call whose
 arguments are not valid always fails and is counted in `faults`.
 */
module Driver {
  import opened DeviceMemory
  import opened Basics
  import opened ChunkPlan

  type Status = nat
  const OK: Status := 0
  const INVALID: Status := 1
  const NOT_SUPPORTED: Status := 801

  class Gpu {
    var dev: Device

    /** How many calls so far named something that is not there or not ours. */
    ghost var faults: nat

    /** Whether the driver is willing to do what call number `k` asks for, if it is valid. */
    const willing: nat -> bool

    /** The address that call number `k` offers for a reservation of this size, alignment and hint. */
    const place: (nat, nat, nat, nat) -> nat

    /** What call number `k` reports if it is valid and the driver is not willing to do it. */
    const codes: nat -> Status

    /** How many calls have been made. */
    var calls: nat

    /** Unmap, release and free succeed whenever their arguments are valid. */
    const steadyTeardown: bool

    /** Setting access and clearing succeed whenever their arguments are valid. */
    const steadyAccess: bool

    constructor (willing: nat -> bool, place: (nat, nat, nat, nat) -> nat, codes: nat -> Status, steadyTeardown: bool, steadyAccess: bool)
      ensures dev == Device(map[], map[], map[], map[]) && faults == 0 && calls == 0
      ensures this.willing == willing && this.place == place && this.codes == codes
      ensures this.steadyTeardown == steadyTeardown && this.steadyAccess == steadyAccess
    {
      dev := Device(map[], map[], map[], map[]);
      faults, calls := 0, 0;
      this.willing := willing;
      this.place := place;
      this.codes := codes;
      this.steadyTeardown := steadyTeardown;
      this.steadyAccess := steadyAccess;
    }

    /** The status of a failing call: never the one that stands for success. */
    function Code(k: nat): (status: Status)
      ensures status != OK
    {
      if codes(k) == OK then INVALID else codes(k)
    }

    /** The smallest granularity of an allocation is asked for. */
    method GetGranularity() returns (status: Status)
      modifies `calls
      ensures calls == old(calls) + 1 && status == if willing(old(calls)) then OK else Code(old(calls))
    {
      calls := calls + 1;
      if willing(calls - 1) {
        status := OK;
      } else {
        status := Code(calls - 1);
      }
    }

    /** A range that overlaps no reservation; the requested address is only a hint. */
    method AddressReserve(size: nat, alignment: nat, hint: nat) returns (status: Status, addr: nat)
      modifies `dev, `calls
      ensures calls == old(calls) + 1 && addr == place(old(calls), size, alignment, hint)
      ensures status == if Grants(this, old(dev), old(calls), size, alignment, hint) then OK else Code(old(calls))
      ensures dev == if status == OK then old(dev).(reserved := old(dev.reserved)[addr := size]) else old(dev)
    {
      addr := place(calls, size, alignment, hint);
      calls := calls + 1;
      if willing(calls - 1) && Reservable(dev, addr, size, alignment) {
        dev := dev.(reserved := dev.reserved[addr := size]);
        status := OK;
      } else {
        status := Code(calls - 1);
      }
    }

    /** Gives a reservation back. The driver does not know who made it. */
    method AddressFree(addr: nat, size: nat) returns (status: Status)
      modifies `dev, `faults, `calls
      ensures calls == old(calls) + 1
      ensures var mine, theirs := CanFree(old(dev), addr, size), Theirs(old(dev), addr, size);
        && (mine && steadyTeardown ==> status == OK)
        && (mine && status == OK ==> dev == old(dev).(reserved := old(dev.reserved) - {addr}))
        && (!mine ==> (status == OK <==> theirs && willing(old(calls))))
        && (!mine && status == OK ==> dev == old(dev).(others := old(dev.others) - {addr}))
        && (status != OK ==> dev == old(dev))
        && faults == old(faults) + if mine || theirs then 0 else 1
    {
      calls := calls + 1;
      if CanFree(dev, addr, size) {
        if steadyTeardown || willing(calls - 1) {
          dev := dev.(reserved := dev.reserved - {addr});
          status := OK;
        } else {
          status := Code(calls - 1);
        }
      } else if Theirs(dev, addr, size) {
        if willing(calls - 1) {
          dev := dev.(others := dev.others - {addr});
          status := OK;
        } else {
          status := Code(calls - 1);
        }
      } else {
        faults := faults + 1;
        status := INVALID;
      }
    }

    /** Physical memory of the given size; what it holds is left over from earlier use. */
    method MemCreate(size: nat) returns (status: Status, h: Handle)
      modifies `dev, `calls
      ensures calls == old(calls) + 1 && (status == OK <==> willing(old(calls)))
      ensures status != OK ==> dev == old(dev)
      ensures status == OK ==>
                && h !in old(dev.live) && h in dev.live && |dev.live[h]| == size
                && dev == old(dev).(live := old(dev.live)[h := dev.live[h]])
    {
      calls := calls + 1;
      h := *;
      if h in dev.live {
        h := Above(dev.live.Keys);
      }
      var bytes: seq<Byte> := *;
      if |bytes| != size {
        bytes := Zeros(size);
      }
      if willing(calls - 1) {
        dev := dev.(live := dev.live[h := bytes]);
        status := OK;
      } else {
        status := Code(calls - 1);
      }
    }

    method MemMap(addr: nat, size: nat, h: Handle) returns (status: Status)
      modifies `dev, `faults, `calls
      ensures calls == old(calls) + 1
      ensures var valid := CanMap(old(dev), addr, size, h);
        && (status == OK <==> valid && willing(old(calls)))
        && (status == OK ==> dev == old(dev).(page := old(dev.page) + ChunkPages(addr, size, h)))
        && (status != OK ==> dev == old(dev))
        && faults == old(faults) + if valid then 0 else 1
    {
      calls := calls + 1;
      if CanMap(dev, addr, size, h) {
        if willing(calls - 1) {
          dev := dev.(page := dev.page + ChunkPages(addr, size, h));
          status := OK;
        } else {
          status := Code(calls - 1);
        }
      } else {
        faults := faults + 1;
        status := INVALID;
      }
    }

    method MemUnmap(addr: nat, size: nat) returns (status: Status)
      modifies `dev, `faults, `calls
      ensures calls == old(calls) + 1
      ensures var valid := CanUnmap(old(dev), addr, size);
        && (valid ==> status == if steadyTeardown || willing(old(calls)) then OK else Code(old(calls)))
        && (!valid ==> status == INVALID)
        && (status == OK ==> valid && dev == old(dev).(page := old(dev.page) - Range(addr, size)))
        && (status != OK ==> dev == old(dev))
        && faults == old(faults) + if valid then 0 else 1
    {
      calls := calls + 1;
      if CanUnmap(dev, addr, size) {
        if steadyTeardown || willing(calls - 1) {
          dev := dev.(page := dev.page - Range(addr, size));
          status := OK;
        } else {
          status := Code(calls - 1);
        }
      } else {
        faults := faults + 1;
        status := INVALID;
      }
    }

    method MemRelease(h: Handle) returns (status: Status)
      modifies `dev, `faults, `calls
      ensures calls == old(calls) + 1
      ensures var valid := CanRelease(old(dev), h);
        && (valid ==> status == if steadyTeardown || willing(old(calls)) then OK else Code(old(calls)))
        && (!valid ==> status == INVALID)
        && (status == OK ==> valid && dev == old(dev).(live := old(dev.live) - {h}))
        && (status != OK ==> dev == old(dev))
        && faults == old(faults) + if valid then 0 else 1
    {
      calls := calls + 1;
      if CanRelease(dev, h) {
        if steadyTeardown || willing(calls - 1) {
          dev := dev.(live := dev.live - {h});
          status := OK;
        } else {
          status := Code(calls - 1);
        }
      } else {
        faults := faults + 1;
        status := INVALID;
      }
    }

    method MemSetAccess(addr: nat, size: nat) returns (status: Status)
      modifies `faults, `calls
      ensures calls == old(calls) + 1
      ensures var valid := Readable(dev, addr, size);
        && (status == OK <==> valid && (steadyAccess || willing(old(calls))))
        && faults == old(faults) + if valid then 0 else 1
    {
      calls := calls + 1;
      if Readable(dev, addr, size) {
        if steadyAccess || willing(calls - 1) {
          status := OK;
        } else {
          status := Code(calls - 1);
        }
      } else {
        faults := faults + 1;
        status := INVALID;
      }
    }

    method Memset(addr: nat, size: nat, value: Byte) returns (status: Status)
      requires Readable(dev, addr, size) && PagesLive(dev) && NoAliasing(dev)
      modifies `dev, `calls
      ensures calls == old(calls) + 1 && (status == OK <==> steadyAccess || willing(old(calls)))
      ensures status != OK ==> dev == old(dev)
      ensures status == OK ==> Written(old(dev), dev, addr, seq(size, _ => value))
    {
      calls := calls + 1;
      if steadyAccess || willing(calls - 1) {
        Store(addr, seq(size, _ => value));
        status := OK;
      } else {
        status := Code(calls - 1);
      }
    }

    /** Copies bytes to the host; addresses without memory behind them are refused. */
    method Fetch(addr: nat, size: nat) returns (status: Status, bytes: seq<Byte>)
      modifies `faults, `calls
      ensures calls == old(calls) + 1
      ensures var valid := Readable(dev, addr, size);
        && (status == OK <==> valid) && (valid ==> bytes == Contents(dev, addr, size))
        && faults == old(faults) + if valid then 0 else 1
    {
      calls := calls + 1;
      if Readable(dev, addr, size) {
        status, bytes := OK, Contents(dev, addr, size);
      } else {
        faults := faults + 1;
        status, bytes := INVALID, [];
      }
    }

    /** Copies bytes to mapped addresses, one page entry at a time. */
    method Store(addr: nat, bytes: seq<Byte>)
      requires Readable(dev, addr, |bytes|) && PagesLive(dev) && NoAliasing(dev)
      modifies `dev
      ensures Written(old(dev), dev, addr, bytes)
    {
      for i := 0 to |bytes|
        invariant Written(old(dev), dev, addr, bytes[..i]) && PagesLive(dev)
      {
        ghost var before := dev;
        var loc := dev.page[addr + i];
        dev := dev.(live := dev.live[loc.0 := dev.live[loc.0][loc.1 := bytes[i]]]);
        WrittenStep(old(dev), before, dev, addr, bytes, i);
      }
      assert bytes[..|bytes|] == bytes;
    }

    /** Other allocators of the process reserve and free ranges of their own. */
    method OthersRun()
      requires RangesApart(dev)
      modifies `dev
      ensures dev == old(dev).(others := dev.others) && RangesApart(dev)
    {
      var others: map<nat, nat> := *;
      if (forall q :: q in others ==> others[q] > 0)
          && forall p, q :: p in dev.reserved && q in others ==> Apart(p, dev.reserved[p], q, others[q]) {
        dev := dev.(others := others);
      }
    }
  }

  /** The driver is willing to do calls `k` up to `k + n`. */
  ghost predicate Willing(gpu: Gpu, k: nat, n: nat) {
    forall i :: k <= i < k + n ==> gpu.willing(i)
  }

  /** From call `k` on the driver is willing to do everything. */
  ghost predicate Obliging(gpu: Gpu, k: nat) {
    forall i: nat :: i >= k ==> gpu.willing(i)
  }

  /** What `n` valid teardown calls from `k` on report together: the first error, if there is one. */
  ghost predicate FirstFailure(gpu: Gpu, k: nat, n: nat, status: Status) {
    if gpu.steadyTeardown || Willing(gpu, k, n) then status == OK
    else exists j: nat :: j < n && Willing(gpu, k, j) && !gpu.willing(k + j) && status == gpu.Code(k + j)
  }

  /** The same as a new value of the global that holds the last error. */
  ghost predicate Reported(gpu: Gpu, k: nat, n: nat, before: Status, after: Status) {
    if gpu.steadyTeardown || Willing(gpu, k, n) then after == before else FirstFailure(gpu, k, n, after)
  }

  lemma FailsFirst(gpu: Gpu, k: nat, n: nat, earlier: Status, status: Status)
    requires FirstFailure(gpu, k, n, earlier)
    requires status == if gpu.steadyTeardown || gpu.willing(k + n) then OK else gpu.Code(k + n)
    ensures FirstFailure(gpu, k, n + 1, if earlier == OK then status else earlier)
  {
    if !gpu.steadyTeardown {
      if earlier == OK {
        assert Willing(gpu, k, n);
        if !gpu.willing(k + n) { assert !Willing(gpu, k, n + 1); }
      } else {
        var j: nat :| j < n && Willing(gpu, k, j) && !gpu.willing(k + j) && earlier == gpu.Code(k + j);
        assert !Willing(gpu, k, n + 1);
      }
    }
  }

  /** The range can be reserved. */
  predicate Reservable(dev: Device, addr: nat, size: nat, alignment: nat) {
    && addr > 0 && size > 0 && addr + size <= WORD && (alignment > 0 ==> addr % alignment == 0)
    && Unreserved(dev, addr, size)
  }

  /** Call number `k` makes the reservation that is asked for. */
  ghost predicate Grants(gpu: Gpu, dev: Device, k: nat, size: nat, alignment: nat, hint: nat) {
    gpu.willing(k) && Reservable(dev, gpu.place(k, size, alignment, hint), size, alignment)
  }

  predicate CanFree(dev: Device, addr: nat, size: nat) {
    addr in dev.reserved && dev.reserved[addr] == size && Unmapped(dev, addr, size)
  }

  /** Exactly this range is a reservation that another allocator made. */
  predicate Theirs(dev: Device, addr: nat, size: nat) {
    addr in dev.others && dev.others[addr] == size
  }

  /** The range lies in a reservation, whoever made it. */
  predicate InReservation(dev: Device, addr: nat, size: nat) {
    || (exists p :: p in dev.reserved && p <= addr && addr + size <= p + dev.reserved[p])
    || (exists p :: p in dev.others && p <= addr && addr + size <= p + dev.others[p])
  }

  /** The target lies in a reservation, is not mapped, and the handle is mapped nowhere. */
  predicate CanMap(dev: Device, addr: nat, size: nat, h: Handle) {
    && size > 0 && h in dev.live && |dev.live[h]| == size && Unmapped(dev, addr, size)
    && InReservation(dev, addr, size)
    && (forall a :: a in dev.page ==> dev.page[a].0 != h)
  }

  /** Exactly one whole mapping is removed. */
  predicate CanUnmap(dev: Device, addr: nat, size: nat) {
    && size > 0 && addr in dev.page
    && dev.page[addr].0 in dev.live && |dev.live[dev.page[addr].0]| == size
    && (forall a :: addr <= a < addr + size ==> a in dev.page && dev.page[a] == (dev.page[addr].0, a - addr))
  }

  /** A handle can be released once, mapped or not. */
  predicate CanRelease(dev: Device, h: Handle) {
    h in dev.live
  }

  /** `dev'` is `dev` with `bytes` stored at `addr` and every other mapped byte as it was. */
  ghost predicate Written(dev: Device, dev': Device, addr: nat, bytes: seq<Byte>) {
    && dev' == dev.(live := dev'.live)
    && dev'.live.Keys == dev.live.Keys
    && (forall h :: h in dev.live ==> |dev'.live[h]| == |dev.live[h]|)
    && Readable(dev, addr, |bytes|)
    && Contents(dev', addr, |bytes|) == bytes
    && (forall a :: a in dev.page && Readable(dev, a, 1) && !(addr <= a < addr + |bytes|) ==>
          ByteAt(dev', a) == ByteAt(dev, a))
    && Spared(dev, dev', addr, |bytes|)
  }

  /** Handles that are not mapped in the range are as they were. */
  ghost predicate Spared(dev: Device, dev': Device, addr: nat, size: nat)
    requires Readable(dev, addr, size) && dev'.live.Keys == dev.live.Keys
  {
    forall h :: h in dev.live && (forall a :: addr <= a < addr + size ==> dev.page[a].0 != h) ==>
      dev'.live[h] == dev.live[h]
  }

  /** Changing one physical byte is seen at one address only. */
  lemma OneByte(dev: Device, dev': Device, at: nat, value: Byte, cell: seq<Byte>)
    requires PagesLive(dev) && NoAliasing(dev) && at in dev.page
    requires cell == dev.live[dev.page[at].0][dev.page[at].1 := value]
    requires dev' == dev.(live := dev.live[dev.page[at].0 := cell])
    ensures PagesLive(dev') && dev'.live.Keys == dev.live.Keys
    ensures forall h :: h in dev.live ==> |dev'.live[h]| == |dev.live[h]|
    ensures forall h :: h in dev.live && h != dev.page[at].0 ==> dev'.live[h] == dev.live[h]
    ensures ByteAt(dev', at) == value
    ensures forall a :: a in dev.page && a != at ==> ByteAt(dev', a) == ByteAt(dev, a)
  {
    forall a | a in dev.page && a != at ensures ByteAt(dev', a) == ByteAt(dev, a) {
      assert dev.page[a] != dev.page[at];
    }
  }

  lemma WrittenStep(dev0: Device, dev: Device, dev': Device, addr: nat, bytes: seq<Byte>, i: nat)
    requires i < |bytes| && PagesLive(dev) && NoAliasing(dev) && PagesLive(dev0)
    requires Readable(dev0, addr, |bytes|)
    requires Written(dev0, dev, addr, bytes[..i])
    requires var loc := dev.page[addr + i];
      dev' == dev.(live := dev.live[loc.0 := dev.live[loc.0][loc.1 := bytes[i]]])
    ensures PagesLive(dev') && Written(dev0, dev', addr, bytes[..i + 1])
  {
    OneByte(dev, dev', addr + i, bytes[i], dev'.live[dev.page[addr + i].0]);
    hide NoAliasing, Spared, Contents;
    WrittenPrefix(dev, dev', addr, bytes, i);
    SparedHandles(dev0, dev, dev', addr, i);
    assert bytes[..i + 1][..i] == bytes[..i];
  }

  /** The last clause of `Written`, one byte further. */
  lemma SparedHandles(dev0: Device, dev: Device, dev': Device, addr: nat, i: nat)
    requires Readable(dev0, addr, i + 1) && dev.live.Keys == dev0.live.Keys == dev'.live.Keys
    requires Spared(dev0, dev, addr, i)
    requires forall h :: h in dev.live && h != dev0.page[addr + i].0 ==> dev'.live[h] == dev.live[h]
    ensures Spared(dev0, dev', addr, i + 1)
  {
    forall h | h in dev0.live && (forall a :: addr <= a < addr + (i + 1) ==> dev0.page[a].0 != h)
      ensures dev'.live[h] == dev0.live[h]
    {
      assert dev0.page[addr + i].0 != h;
    }
  }

  lemma WrittenPrefix(dev: Device, dev': Device, addr: nat, bytes: seq<Byte>, i: nat)
    requires i < |bytes| && Readable(dev, addr, i + 1) && Readable(dev', addr, i + 1)
    requires Contents(dev, addr, i) == bytes[..i] && ByteAt(dev', addr + i) == bytes[i]
    requires forall a :: addr <= a < addr + i ==> ByteAt(dev', a) == ByteAt(dev, a)
    ensures Contents(dev', addr, i + 1) == bytes[..i + 1]
  {
    var now := Contents(dev', addr, i + 1);
    forall k | 0 <= k < i + 1 ensures now[k] == bytes[k] {
      if k < i {
        assert ByteAt(dev, addr + k) == Contents(dev, addr, i)[k] == bytes[..i][k];
      }
    }
  }
}
