/**
 The Python side of sleep mode, `sleep` and `wake_up` over the whole table, and whole runs of the
 allocator.
 */
module SleepMode {
  import opened Basics
  import opened Sums
  import opened ChunkPlan
  import opened DeviceMemory
  import opened Driver
  import opened Allocations
  import opened Transitions
  import opened Cumem

  type Memory = map<nat, seq<Byte>>

  /** What is left of the bytes when the awake allocations outside the offloaded tags are discarded. */
  ghost function Kept(view: Memory, allocs: Table, offload: set<string>): (kept: Memory)
    requires view.Keys == allocs.Keys
  {
    map p | p in view :: if allocs[p].asleep || allocs[p].tag in offload then view[p] else Zeros(allocs[p].size)
  }

  /** The entry keeps its size and tag. */
  ghost predicate SameShape(al: Allocation, al': Allocation) {
    al'.size == al.size && al'.sizes == al.sizes && al'.tag == al.tag
  }

  ghost predicate Ready(a: Allocator)
    reads a, a.gpu
  {
    a.Valid() && a.gpu.steadyTeardown
  }

  ghost function Seen(a: Allocator): (view: Memory)
    requires Ready(a)
    reads a, a.gpu
    ensures view.Keys == a.Held().Keys
  {
    a.Logical()
  }

  /** An entry with nothing behind it that counts as awake: the leftover of a failed `my_malloc`. */
  ghost predicate Leftover(table: Table, stale: set<nat>, p: nat) {
    p in stale && p in table && !table[p].asleep
  }

  /** The entry is an allocation, or nothing that it names is in use again. */
  predicate Settled(dev: Device, table: Table, p: nat) {
    p in table && p !in dev.reserved ==> OutOfReach(dev, p, table[p])
  }

  /** The entries with nothing behind them are those whose address is not reserved by us. */
  lemma StaleIsUnreserved(a: Allocator, p: nat)
    requires a.Valid() && p in a.table
    ensures p in a.stale <==> p !in a.gpu.dev.reserved
    ensures Settled(a.gpu.dev, a.table, p) ==> (p in a.stale ==> a.OutOfUse(p))
  {
    hide Consistent;
    ConsistentParts(a.gpu.dev, a.Held());
  }

  /**
   `CuMemAllocator.sleep`: every allocation ends up asleep, and what waking will bring back is the
   old bytes for the offloaded tags and zeros for the others. The first error ends the loop. Invalid
   driver calls are made exactly when the loop meets the leftover of a failed request. If what that
   leftover names is in use again, by us or by another allocator, the model ends here (`clash`). Otherwise
   it fails only on an error that was pending, or because the last reservation did not give an address back.
   */
  method SleepAll(a: Allocator, offload: set<string>) returns (ok: bool, clash: bool, ghost met: bool)
    requires Ready(a)
    modifies a, a.gpu
    ensures a.Valid()
    ensures met <==> a.gpu.faults != old(a.gpu.faults)
    ensures met || clash ==> !ok && exists p :: Leftover(old(a.table), old(a.stale), p)
    ensures clash ==> exists p :: Leftover(a.table, a.stale, p) && !Settled(a.gpu.dev, a.table, p)
    ensures a.gpu.calls >= old(a.gpu.calls)
    ensures ok ==>
              && Ready(a) && a.stale == old(a.stale) && a.errorCode == old(a.errorCode) && a.Held().Keys == old(a.Held().Keys)
              && (forall p :: p in a.table ==> a.table[p].asleep)
              && (forall p :: p in a.Held() ==> SameShape(old(a.Held())[p], a.Held()[p]))
              && Seen(a) == Kept(old(Seen(a)), old(a.Held()), offload)
    ensures ok ==> forall p :: !Leftover(old(a.table), old(a.stale), p)
    ensures !ok && !met && !clash ==> a.errorCode == OK
    ensures !ok && !met && !clash ==>
              exists p :: p in old(a.Held()) && FailedSleep(a, old(a.gpu.calls), old(a.errorCode) != OK, old(a.table)[p], p)
  {
    hide Consistent, View, Kept, Partly, SleepProgress, Seen, SameShape, Settled, FailedSleep;
    ghost var table0, held0, view0, stale0 := a.table, a.Held(), Seen(a), a.stale;
    ProgressStart(view0, held0, offload, a.table.Keys);
    var todo := a.table.Keys;
    ok, clash, met := true, false, false;
    while todo != {}
      invariant todo <= table0.Keys == a.table.Keys && a.stale == stale0
      invariant ok && !clash && !met && Ready(a) && a.Valid() && a.gpu.faults == old(a.gpu.faults) && a.errorCode == old(a.errorCode)
      invariant SleepProgress(a.Held(), Seen(a), view0, held0, offload, todo) && a.gpu.calls >= old(a.gpu.calls)
      invariant forall p :: p in table0 && p !in todo ==> a.table[p].asleep && !Leftover(table0, stale0, p)
      invariant forall p :: p in todo ==> a.table[p] == table0[p]
      decreases todo
    {
      var p :| p in todo;
      ghost var held, view, calls := a.Held(), Seen(a), a.gpu.calls;
      ok, clash, met := SleepEntry(a, p, offload);
      if !ok {
        assert met || clash ==> Leftover(table0, stale0, p);
        StillFailed(a, old(a.gpu.calls), calls, old(a.errorCode) != OK, table0[p], p);
        return;
      }
      if p in stale0 {
        ProgressSkip(held, view, view0, held0, offload, todo, p);
      } else {
        ProgressStep(held, view, a.Held(), Seen(a), view0, held0, offload, todo, p);
      }
      todo := todo - {p};
    }
    ProgressEnd(a.Held(), Seen(a), view0, held0, offload);
  }

  /** The last reservation that was tried, one of the last two calls, did not give the address back. */
  ghost predicate Denied(gpu: Gpu, from: nat, p: nat, size: nat)
    reads gpu
  {
    exists k: nat :: from < k && gpu.calls - 2 <= k < gpu.calls && !Regains(gpu, gpu.dev, k, p, size)
  }

  /** The allocation was to be put to sleep, and an error was pending or its address is lost. */
  ghost predicate FailedSleep(a: Allocator, from: nat, pending: bool, al: Allocation, p: nat)
    reads a, a.gpu
  {
    && !al.asleep && p in a.table && a.table[p].asleep
    && (!pending ==> p in a.stale && Denied(a.gpu, from, p, al.size))
  }

  lemma StillFailed(a: Allocator, from: nat, mid: nat, pending: bool, al: Allocation, p: nat)
    requires from <= mid
    ensures FailedSleep(a, mid, pending, al, p) ==> FailedSleep(a, from, pending, al, p)
  {
  }

  /** One round of the loop: an entry that already sleeps is skipped. */
  method SleepEntry(a: Allocator, p: nat, offload: set<string>) returns (ok: bool, clash: bool, ghost met: bool)
    requires Ready(a) && p in a.table
    modifies a, a.gpu
    ensures a.Valid() && (met <==> a.gpu.faults != old(a.gpu.faults))
    ensures met || clash <==> Leftover(old(a.table), old(a.stale), p)
    ensures met || clash ==> !ok
    ensures clash ==> a.table == old(a.table) && a.stale == old(a.stale) && !Settled(a.gpu.dev, a.table, p)
    ensures ok ==>
              && Ready(a) && p in a.table && a.table == old(a.table)[p := a.table[p]] && a.stale == old(a.stale)
              && a.errorCode == old(a.errorCode)
              && a.table[p].asleep && (p in a.stale ==> a.Held() == old(a.Held()) && Seen(a) == old(Seen(a)))
    ensures ok && p !in old(a.stale) ==>
              && p in old(a.Held()) && p in a.Held() && a.Held() == old(a.Held())[p := a.Held()[p]]
              && a.Held()[p].asleep && SameShape(old(a.Held())[p], a.Held()[p])
              && Seen(a) == old(Seen(a))[p := Kept(old(Seen(a)), old(a.Held()), offload)[p]]
    ensures a.gpu.calls >= old(a.gpu.calls)
    ensures !ok && !met && !clash ==>
              && a.errorCode == OK && p in old(a.Held())
              && FailedSleep(a, old(a.gpu.calls), old(a.errorCode) != OK, old(a.table)[p], p)
  {
    hide Consistent, View, Unreserved, Regains;
    met, clash := false, false;
    ghost var table, stale := a.table, a.stale;
    StaleIsUnreserved(a, p);
    if a.table[p].asleep {
      if p !in a.stale {
        assert Kept(Seen(a), a.Held(), offload)[p] == Seen(a)[p];
      }
      ok := true;
    } else if !Settled(a.gpu.dev, a.table, p) {
      ok, clash := false, true;
    } else {
      met := p in a.stale;
      ok := a.Sleep(p, a.table[p].tag in offload);
      if ok {
        Updated(table, stale, p, a.table[p]);
      } else if p !in stale {
        ghost var k := SleepCall(old(a.gpu.calls), table[p], table[p].tag in offload);
        assert old(a.errorCode) == OK ==> !Regains(a.gpu, a.gpu.dev, k, p, table[p].size);
      }
    }
  }

  ghost predicate SleepProgress(table: Table, view: Memory, view0: Memory, table0: Table, offload: set<string>, todo: set<nat>) {
    && table.Keys == table0.Keys == view0.Keys
    && (forall p :: p in todo && p in table0 ==> table[p] == table0[p])
    && (forall p :: p in table0 && p !in todo ==> table[p].asleep && SameShape(table0[p], table[p]))
    && view == Partly(view0, table0, offload, todo)
  }

  lemma ProgressStart(view0: Memory, table0: Table, offload: set<string>, todo: set<nat>)
    requires view0.Keys == table0.Keys <= todo
    ensures SleepProgress(table0, view0, view0, table0, offload, todo)
  {
    assert Partly(view0, table0, offload, todo) == view0;
  }

  /** An entry that is no allocation changes nothing. */
  lemma ProgressSkip(held: Table, view: Memory, view0: Memory, held0: Table, offload: set<string>, todo: set<nat>, p: nat)
    requires SleepProgress(held, view, view0, held0, offload, todo) && p !in held0
    ensures SleepProgress(held, view, view0, held0, offload, todo - {p})
  {
    assert Partly(view0, held0, offload, todo - {p}) == Partly(view0, held0, offload, todo);
  }

  lemma ProgressStep(table: Table, view: Memory, table': Table, view': Memory,
                     view0: Memory, table0: Table, offload: set<string>, todo: set<nat>, p: nat)
    requires SleepProgress(table, view, view0, table0, offload, todo) && p in todo && p in table0
    requires view.Keys == table.Keys && p in table'
    requires table' == table[p := table'[p]] && table'[p].asleep && SameShape(table[p], table'[p])
    requires view' == view[p := Kept(view, table, offload)[p]]
    ensures SleepProgress(table', view', view0, table0, offload, todo - {p})
  {
    PartlyStep(view0, table0, offload, todo, p);
    KeptAt(view, table, view0, table0, offload, p);
    ProgressTable(table, table', table0, todo, p);
    hide Partly, Kept, SameShape;
  }

  lemma ProgressTable(table: Table, table': Table, table0: Table, todo: set<nat>, p: nat)
    requires table.Keys == table0.Keys && p in todo && p in table0 && p in table'
    requires forall q :: q in todo && q in table0 ==> table[q] == table0[q]
    requires forall q :: q in table0 && q !in todo ==> table[q].asleep && SameShape(table0[q], table[q])
    requires table' == table[p := table'[p]] && table'[p].asleep && SameShape(table[p], table'[p])
    ensures table'.Keys == table0.Keys
    ensures forall q :: q in todo - {p} && q in table0 ==> table'[q] == table0[q]
    ensures forall q :: q in table0 && q !in todo - {p} ==> table'[q].asleep && SameShape(table0[q], table'[q])
  {
  }

  lemma KeptAt(view: Memory, table: Table, view0: Memory, table0: Table, offload: set<string>, p: nat)
    requires view.Keys == table.Keys && view0.Keys == table0.Keys && p in view && p in view0
    requires view[p] == view0[p] && table[p] == table0[p]
    ensures Kept(view, table, offload)[p] == Kept(view0, table0, offload)[p]
  {
  }

  lemma ProgressEnd(table: Table, view: Memory, view0: Memory, table0: Table, offload: set<string>)
    requires SleepProgress(table, view, view0, table0, offload, {})
    ensures table.Keys == table0.Keys && view0.Keys == table0.Keys
    ensures forall p :: p in table ==> table[p].asleep && SameShape(table0[p], table[p])
    ensures view == Kept(view0, table0, offload)
  {
    PartlyDone(view0, table0, offload);
  }

  /** The view while the loop has `todo` left. */
  ghost function Partly(view: Memory, table: Table, offload: set<string>, todo: set<nat>): (v: Memory)
    requires view.Keys == table.Keys
    ensures v.Keys == view.Keys
  {
    map p | p in view :: if p in todo then view[p] else Kept(view, table, offload)[p]
  }

  lemma PartlyStep(view: Memory, table: Table, offload: set<string>, todo: set<nat>, p: nat)
    requires view.Keys == table.Keys && p in todo && p in table
    ensures p in Kept(view, table, offload)
    ensures Partly(view, table, offload, todo - {p})
         == Partly(view, table, offload, todo)[p := Kept(view, table, offload)[p]]
    ensures Partly(view, table, offload, todo)[p] == view[p]
  {
  }

  lemma PartlyDone(view: Memory, table: Table, offload: set<string>)
    requires view.Keys == table.Keys
    ensures Partly(view, table, offload, {}) == Kept(view, table, offload)
  {
  }

  /** Which tags `wake_up` is asked for; `Everything` is the Python `None`. */
  datatype Tags = Everything | Only(tags: set<string>)

  predicate Selected(tags: Tags, tag: string) {
    tags.Everything? || tag in tags.tags
  }

  ghost predicate Roused(held0: Table, held: Table, tags: Tags, todo: set<nat>) {
    && held.Keys == held0.Keys
    && (forall p :: p in held0 ==> SameShape(held0[p], held[p]))
    && (forall p :: p in held0 && p in todo ==> held[p] == held0[p])
    && (forall p :: p in held0 && p !in todo ==>
          (held[p].asleep <==> held0[p].asleep && tags.Only? && held0[p].tag !in tags.tags))
  }

  /** An entry whose address is lost, and that `wake_up` is asked to map again. */
  ghost predicate Lost(table: Table, stale: set<nat>, tags: Tags, p: nat) {
    p in stale && p in table && table[p].asleep && Selected(tags, table[p].tag)
  }

  /**
   `CuMemAllocator.wake_up`: the selected allocations are mapped again at their old addresses. No
   byte that the callers can see changes, whether or not some allocation could not be mapped. Invalid
   driver calls are made only if the loop meets an entry whose address is lost, and that ends it; if
   that address is in use again, the model ends here (`clash`). An error that was pending when the
   first entry is woken ends it too, and may lose a handle (`leaked`). Otherwise it fails only on a call that
   the driver was not willing to do.
   */
  method WakeUp(a: Allocator, tags: Tags) returns (ok: bool, clash: bool, ghost met: bool, ghost leaked: bool)
    requires Ready(a) && a.gpu.steadyAccess
    modifies a, a.gpu
    ensures leaked ==> !ok && old(a.errorCode) != OK
    ensures !leaked ==> Ready(a) && Seen(a) == old(Seen(a)) && a.stale == old(a.stale)
    ensures a.errorCode == OK || (a.errorCode == old(a.errorCode) && a.table == old(a.table))
    ensures a.gpu.faults != old(a.gpu.faults) ==> met
    ensures met || clash ==> !ok && exists p :: Lost(old(a.table), old(a.stale), tags, p)
    ensures ok ==> Roused(old(a.Held()), a.Held(), tags, {}) && forall p :: !Lost(old(a.table), old(a.stale), tags, p)
    ensures a.gpu.calls >= old(a.gpu.calls) && (!ok && !clash ==> a.errorCode == OK && a.gpu.calls > old(a.gpu.calls))
    ensures !ok && !met && !clash ==>
              && (exists p :: p in old(a.Held()) && old(a.table)[p].asleep && Selected(tags, old(a.table)[p].tag))
              && (old(a.errorCode) == OK ==> Unwilling(a.gpu, old(a.gpu.calls), a.gpu.calls))
  {
    hide Consistent, View, Roused, Seen, SameShape, Selected, Settled, Unwilling;
    ghost var table0, held0, view0, stale0 := a.table, a.Held(), Seen(a), a.stale;
    RousedStart(held0, tags, a.table.Keys);
    var todo := a.table.Keys;
    ok, clash, met, leaked := true, false, false, false;
    while todo != {}
      invariant todo <= table0.Keys == a.table.Keys && a.stale == stale0
      invariant ok && !clash && !met && !leaked && Ready(a) && a.gpu.faults == old(a.gpu.faults) && Seen(a) == view0
      invariant a.errorCode == OK || (a.errorCode == old(a.errorCode) && a.table == table0)
      invariant a.errorCode != OK ==> old(a.errorCode) != OK
      invariant Roused(held0, a.Held(), tags, todo) && a.gpu.calls >= old(a.gpu.calls)
      invariant forall p :: p in table0 && p !in todo ==> !Lost(table0, stale0, tags, p)
      invariant forall p :: p in todo ==> a.table[p] == table0[p]
      decreases todo
    {
      var p :| p in todo;
      ghost var held, calls := a.Held(), a.gpu.calls;
      ok, clash, met, leaked := WakeEntry(a, p, tags);
      if !ok {
        assert met || clash ==> Lost(table0, stale0, tags, p);
        StillUnwilling(a.gpu, old(a.gpu.calls), calls, a.gpu.calls);
        return;
      }
      if p in stale0 {
        RousedSkip(held0, held, tags, todo, p);
      } else {
        RousedStep(held0, held, a.Held(), tags, todo, p);
      }
      todo := todo - {p};
    }
  }

  lemma StillUnwilling(gpu: Gpu, from: nat, mid: nat, to: nat)
    requires from <= mid
    ensures Unwilling(gpu, mid, to) ==> Unwilling(gpu, from, to)
  {
  }

  /** One round of the loop of `wake_up`. */
  method WakeEntry(a: Allocator, p: nat, tags: Tags) returns (ok: bool, clash: bool, ghost met: bool, ghost leaked: bool)
    requires Ready(a) && a.gpu.steadyAccess && p in a.table
    modifies a, a.gpu
    ensures leaked ==> !ok && old(a.errorCode) != OK
    ensures !leaked ==> Ready(a) && Seen(a) == old(Seen(a)) && a.stale == old(a.stale)
    ensures a.errorCode == OK || (a.errorCode == old(a.errorCode) && a.table == old(a.table))
    ensures met || clash <==> Lost(old(a.table), old(a.stale), tags, p)
    ensures met || clash ==> !ok
    ensures !met ==> a.gpu.faults == old(a.gpu.faults)
    ensures clash ==> !Settled(a.gpu.dev, a.table, p)
    ensures p in a.table && a.table == old(a.table)[p := a.table[p]]
    ensures ok && p in a.stale ==> a.Held() == old(a.Held())
    ensures ok && p !in a.stale ==>
              && p in old(a.Held()) && p in a.Held() && a.Held() == old(a.Held())[p := a.Held()[p]]
              && SameShape(old(a.Held())[p], a.Held()[p])
              && (a.Held()[p].asleep <==> old(a.Held())[p].asleep && !Selected(tags, old(a.Held())[p].tag))
    ensures a.gpu.calls >= old(a.gpu.calls) && (!ok && !clash ==> a.errorCode == OK && a.gpu.calls > old(a.gpu.calls))
    ensures !ok && !met && !clash ==>
              && p in old(a.Held()) && old(a.table)[p].asleep && Selected(tags, old(a.table)[p].tag)
              && (old(a.errorCode) == OK ==> Unwilling(a.gpu, old(a.gpu.calls), a.gpu.calls))
  {
    hide Consistent, View, Willing, Unmapped, Unreserved, Unwilling;
    met, clash, leaked := false, false, false;
    ghost var table, stale := a.table, a.stale;
    ok := true;
    StaleIsUnreserved(a, p);
    if a.table[p].asleep && Selected(tags, a.table[p].tag) {
      if !Settled(a.gpu.dev, a.table, p) {
        assert a.table[p := a.table[p]] == a.table;
        return false, true, false, false;
      }
      met := p in a.stale;
      ghost var stage;
      ok, stage := a.Wake(p);
      leaked := stage.Leaked?;
      if p in stale {
        StaleUpdated(table, stale, p, a.table[p]);
      } else {
        Updated(table, stale, p, a.table[p]);
      }
    } else {
      assert a.table[p := a.table[p]] == a.table;
      if p !in stale { assert a.Held()[p := a.Held()[p]] == a.Held(); }
    }
  }

  lemma RousedStart(held: Table, tags: Tags, todo: set<nat>)
    requires held.Keys <= todo
    ensures Roused(held, held, tags, todo)
  {
  }

  lemma RousedSkip(held0: Table, held: Table, tags: Tags, todo: set<nat>, p: nat)
    requires Roused(held0, held, tags, todo) && p !in held0
    ensures Roused(held0, held, tags, todo - {p})
  {
  }

  lemma RousedStep(held0: Table, held: Table, held': Table, tags: Tags, todo: set<nat>, p: nat)
    requires Roused(held0, held, tags, todo) && p in todo && p in held0 && p in held'
    requires held' == held[p := held'[p]] && SameShape(held[p], held'[p])
    requires held'[p].asleep <==> held[p].asleep && !Selected(tags, held[p].tag)
    ensures Roused(held0, held', tags, todo - {p})
  {
  }

  /**
   The round trip: after sleeping and waking everything, each allocation is awake at its old
   address; the offloaded tags hold their old bytes, the other ones are zeroed. It succeeds only on a
   table without leftovers, and then without an invalid driver call.
   */
  method SleepThenWake(a: Allocator, offload: set<string>) returns (ok: bool)
    requires Ready(a) && a.errorCode == OK && a.gpu.steadyAccess
    modifies a, a.gpu
    ensures a.Valid()
    ensures ok ==>
              && Ready(a) && a.gpu.faults == old(a.gpu.faults) && a.stale == old(a.stale) == {}
              && a.Held().Keys == old(a.Held().Keys) && (forall p :: p in a.Held() ==> !a.Held()[p].asleep)
              && Seen(a) == Kept(old(Seen(a)), old(a.Held()), offload)
    ensures old(a.stale) == {} ==> a.gpu.faults == old(a.gpu.faults)
    ensures old(a.stale) == {} && !ok ==>
              || (exists p :: p in old(a.Held()) && Denied(a.gpu, old(a.gpu.calls), p, old(a.table)[p].size))
              || Unwilling(a.gpu, old(a.gpu.calls), a.gpu.calls)
    ensures && old(a.stale) == {} && Obliging(a.gpu, old(a.gpu.calls))
            && (forall p :: p in old(a.Held()) ==>
                  Hinted(a.gpu, old(a.gpu.calls), p, old(a.table)[p].size) && Untaken(a.gpu.dev, p, old(a.table)[p].size))
            ==> ok
  {
    hide Consistent, View, Seen, Kept, Settled, Denied, Unwilling, Obliging, Hinted, Untaken;
    var clash;
    ghost var met, leaked;
    ok, clash, met := SleepAll(a, offload);
    if ok {
      ghost var table, stale, calls := a.table, a.stale, a.gpu.calls;
      assert forall p :: p in stale ==> Lost(table, stale, Everything, p);
      ok, clash, met, leaked := WakeUp(a, Everything);
      StillUnwilling(a.gpu, old(a.gpu.calls), calls, a.gpu.calls);
      NeverUnwilling(a.gpu, old(a.gpu.calls), a.gpu.calls);
    }
    forall p | && p in old(a.Held()) && Obliging(a.gpu, old(a.gpu.calls))
               && Hinted(a.gpu, old(a.gpu.calls), p, old(a.table)[p].size) && Untaken(a.gpu.dev, p, old(a.table)[p].size)
      ensures !Denied(a.gpu, old(a.gpu.calls), p, old(a.table)[p].size)
    {
      NeverDenied(a.gpu, old(a.gpu.calls), p, old(a.table)[p].size);
    }
  }

  /** Nobody has taken the range: it could be reserved, were it not ours. */
  ghost predicate Untaken(dev: Device, p: nat, size: nat) {
    Reservable(dev.(reserved := dev.reserved - {p}), p, size, 0)
  }

  /** From call `k` on the driver offers the address that it is asked for. */
  ghost predicate Hinted(gpu: Gpu, k: nat, p: nat, size: nat) {
    forall i: nat :: i >= k ==> gpu.place(i, size, 0, p) == p
  }

  lemma NeverDenied(gpu: Gpu, from: nat, p: nat, size: nat)
    ensures Obliging(gpu, from) && Hinted(gpu, from, p, size) && Untaken(gpu.dev, p, size) ==> !Denied(gpu, from, p, size)
  {
    hide Reservable;
  }

  lemma NeverUnwilling(gpu: Gpu, from: nat, to: nat)
    ensures Obliging(gpu, from) ==> !Unwilling(gpu, from, to)
  {
  }

  // ----- what a failed operation leaves behind -----

  /**
   The owner of an allocation whose sleep failed still frees it. The address is gone, so the driver
   refuses and the refusal stays pending as an error; unless another allocator holds exactly that range
   by now, whose reservation the driver then gives back if it is willing.
   */
  method FreeAfterFailedSleep(a: Allocator, p: nat, offload: bool) returns (lost: bool, ghost theirs: bool)
    requires Ready(a) && a.errorCode == OK && p in a.Held() && !a.table[p].asleep
    modifies a, a.gpu
    ensures a.Valid() && (lost <==> p !in a.table) && (theirs ==> lost)
    ensures lost ==> a.Held() == old(a.Held()) - {p}
    ensures lost && !theirs ==> a.gpu.faults == old(a.gpu.faults) + 1 && a.errorCode != OK
    ensures theirs ==> a.gpu.faults == old(a.gpu.faults) && (a.errorCode == OK <==> p !in a.gpu.dev.others)
    ensures !lost ==> a.gpu.faults == old(a.gpu.faults) && a.errorCode == OK
    ensures !theirs ==>
              (lost <==> !Regains(a.gpu, a.gpu.dev, SleepCall(old(a.gpu.calls), old(a.table[p]), offload), p, old(a.table[p].size)))
  {
    hide Consistent, View, Unmapped, Regains;
    ghost var table, stale := a.table, a.stale;
    var size := a.table[p].size;
    var ok := a.Sleep(p, offload);
    lost, theirs := !ok, false;
    if lost {
      Dropped(table, stale, p, a.table[p]);
      theirs := Theirs(a.gpu.dev, p, size);
      a.Free(p, size);
    }
  }

  // ----- whole runs -----

  /** `Overwrite` is the host reusing the freed handle cells of a leftover, `Foreign` other allocators at work. */
  datatype Command =
    | Allocate(size: Word, tag: string)
    | Release(p: nat)
    | PutToSleep(p: nat, offload: bool)
    | Rouse(p: nat)
    | Store(p: nat, i: nat, bytes: seq<Byte>)
    | Overwrite(p: nat, cells: seq<Handle>)
    | Foreign

  /** One allocation as its owner knows it: the bytes it holds, or will hold once awake. */
  datatype Block = Block(bytes: seq<Byte>, asleep: bool)

  type World = map<nat, Block>

  ghost function WorldOf(view: Memory, allocs: Table): (w: World) {
    map p | p in allocs && p in view :: Block(view[p], allocs[p].asleep)
  }

  /**
   What a command means for the owners, `ok` being the outcome that it reports and `pending` whether an
   error was pending before it. Only a new address is left open.
   */
  ghost predicate MemoryStep(g: Word, w: World, c: Command, ok: bool, pending: bool, w': World)
    requires g > 0
  {
    match c
    case Allocate(size, _) =>
      if ok then exists p: nat :: p !in w && w' == w[p := Block(Zeros(AlignUp(size, g)), false)] else w' == w
    case Release(p) => w' == w - {p}
    case PutToSleep(p, offload) =>
      if p in w && !w[p].asleep then
        var slept := w[p := Block(if offload then w[p].bytes else Zeros(|w[p].bytes|), true)];
        w' == if ok || pending then slept else w - {p}
      else w' == w
    case Rouse(p) => w' == if p in w && ok then w[p := w[p].(asleep := false)] else w
    case Store(p, i, bytes) =>
      w' == if p in w && !w[p].asleep && i + |bytes| <= |w[p].bytes|
            then w[p := Block(w[p].bytes[..i] + bytes + w[p].bytes[i + |bytes|..], false)] else w
    case Overwrite(_, _) => w' == w
    case Foreign => w' == w
  }

  /** The command names an entry with nothing behind it, in the state in which it acts on it. */
  ghost predicate Touches(table: Table, stale: set<nat>, c: Command) {
    match c
    case Release(p) => p in stale && p in table
    case PutToSleep(p, _) => p in stale && p in table && !table[p].asleep
    case Rouse(p) => p in stale && p in table && table[p].asleep
    case _ => false
  }

  /** The command frees a lost address that another allocator has reserved since. */
  ghost predicate TakesForeign(a: Allocator, c: Command)
    reads a, a.gpu
  {
    c.Release? && c.p in a.stale && c.p in a.table && a.table[c.p].asleep && Theirs(a.gpu.dev, c.p, a.table[c.p].size)
  }

  /** The driver calls that are refused because the command names an entry with nothing behind it. */
  ghost function Refused(a: Allocator, c: Command): (n: nat)
    reads a, a.gpu
  {
    if !Touches(a.table, a.stale, c) then 0
    else match c
      case Release(p) => if TakesForeign(a, c) then 0 else 1 + if a.table[p].asleep then 0 else 2 * |a.table[p].sizes|
      case PutToSleep(p, offload) => if offload then 1 else 2 * |a.table[p].sizes|
      case Rouse(p) => if a.errorCode == OK && Willing(a.gpu, a.gpu.calls, |a.table[p].sizes|) then 1 else 0
      case _ => 0
  }

  /** The chunk sizes of every request can be computed without wrap-around. */
  ghost predicate Computable(a: Allocator, cmds: seq<Command>) {
    a.granularity > 0 &&
    forall k :: 0 <= k < |cmds| && cmds[k].Allocate? && AlignUp(cmds[k].size, a.granularity) > 0 ==>
      NoWrap(AlignUp(cmds[k].size, a.granularity), ConfiguredChunk(a.env), a.granularity)
  }

  ghost function Snapshot(a: Allocator): (w: World)
    requires a.Valid()
    reads a, a.gpu
  {
    WorldOf(a.Logical(), a.Held())
  }

  lemma WorldUpdate(view: Memory, allocs: Table, p: nat, bytes: seq<Byte>, al: Allocation)
    ensures WorldOf(view[p := bytes], allocs[p := al]) == WorldOf(view, allocs)[p := Block(bytes, al.asleep)]
  {
  }

  lemma WorldRemove(view: Memory, allocs: Table, p: nat)
    ensures WorldOf(view - {p}, allocs - {p}) == WorldOf(view, allocs) - {p}
  {
  }

  /** The owners' bytes of an allocation have its recorded size. */
  lemma SizesAgree(a: Allocator, p: nat)
    requires a.Valid() && p in a.Held()
    ensures p in a.Logical() && p in Snapshot(a) && Snapshot(a)[p] == Block(a.Logical()[p], a.table[p].asleep)
    ensures |Snapshot(a)[p].bytes| == a.table[p].size
    ensures a.Logical()[p := a.Logical()[p]] == a.Logical()
  {
    hide View;
    assert Sound(a.gpu.dev, p, a.Held()[p]);
    ghost var view := a.Logical();
    hide Consistent, Sound;
    WorldAt(view, a.Held(), p);
  }

  lemma WorldAt(view: Memory, allocs: Table, p: nat)
    requires p in view && p in allocs
    ensures p in WorldOf(view, allocs) && WorldOf(view, allocs)[p] == Block(view[p], allocs[p].asleep)
    ensures view[p := view[p]] == view
  {
  }

  lemma NotOurs(view: Memory, allocs: Table, p: nat)
    requires p !in allocs
    ensures p !in WorldOf(view, allocs) && WorldOf(view, allocs) - {p} == WorldOf(view, allocs)
  {
  }

  lemma NotAwake(view: Memory, allocs: Table, p: nat)
    requires p in allocs ==> allocs[p].asleep
    ensures p in WorldOf(view, allocs) ==> WorldOf(view, allocs)[p].asleep
  {
  }

  lemma NotAsleep(view: Memory, allocs: Table, p: nat)
    requires p in allocs ==> !allocs[p].asleep
    ensures var w := WorldOf(view, allocs); p in w ==> w[p := w[p].(asleep := false)] == w
  {
  }

  /** Other allocators of the process run. */
  method Interfere(a: Allocator)
    requires a.Valid()
    modifies a.gpu`dev
    ensures a.Valid() && Snapshot(a) == old(Snapshot(a))
  {
    hide Consistent, View, WorldOf;
    ghost var dev0 := a.gpu.dev;
    ConsistentParts(dev0, a.Held());
    a.gpu.OthersRun();
    OthersOutcome(dev0, a.Held(), a.gpu.dev);
  }

  /**
   Nothing but the named entry is at stake: an entry with nothing behind it names nothing that is in use
   again, and an owner stores only to memory that it holds.
   */
  predicate Harmless(dev: Device, table: Table, c: Command) {
    match c
    case Release(p) => p in table && !table[p].asleep ==> Settled(dev, table, p)
    case PutToSleep(p, _) => p in table && !table[p].asleep ==> Settled(dev, table, p)
    case Rouse(p) => p in table && table[p].asleep ==> Settled(dev, table, p)
    case Store(p, _, _) => p in table ==> p in dev.reserved
    case _ => true
  }

  method ExecuteSleep(a: Allocator, p: nat, offload: bool) returns (ok: bool)
    requires a.Valid() && a.gpu.steadyTeardown && p in a.table && !a.table[p].asleep && (p in a.stale ==> a.OutOfUse(p))
    modifies a, a.gpu
    ensures a.Valid() && a.gpu.faults == old(a.gpu.faults) + old(Refused(a, PutToSleep(p, offload)))
    ensures MemoryStep(a.granularity, old(Snapshot(a)), PutToSleep(p, offload), ok, old(a.errorCode) != OK, Snapshot(a))
    ensures ok <==> Succeeds(a, old(Now(a)), Now(a), PutToSleep(p, offload))
  {
    hide Consistent, View, WorldOf, Unreserved, Unmapped, Shaped, Regains;
    ghost var view, table, stale := a.Logical(), a.table, a.stale;
    if p !in stale { SizesAgree(a, p); } else { NotOurs(view, a.Held(), p); }
    ok := a.Sleep(p, offload);
    ghost var al := a.table[p];
    if p !in stale {
      if p in a.stale {
        Dropped(table, stale, p, al);
        WorldRemove(view, table - stale, p);
      } else {
        Updated(table, stale, p, al);
        WorldUpdate(view, table - stale, p, if offload then view[p] else Zeros(al.size), al);
      }
    }
  }

  method ExecuteWake(a: Allocator, p: nat) returns (ok: bool)
    requires a.Valid() && a.gpu.steadyTeardown && a.gpu.steadyAccess && a.errorCode == OK
    requires p in a.table && a.table[p].asleep && (p in a.stale ==> a.OutOfUse(p))
    modifies a, a.gpu
    ensures a.Valid() && a.gpu.faults == old(a.gpu.faults) + old(Refused(a, Rouse(p)))
    ensures MemoryStep(a.granularity, old(Snapshot(a)), Rouse(p), ok, false, Snapshot(a))
    ensures ok <==> Succeeds(a, old(Now(a)), Now(a), Rouse(p))
  {
    hide Consistent, View, WorldOf, Unreserved, Unmapped, Shaped, Willing, StageOf;
    ghost var view, table, stale := a.Logical(), a.table, a.stale;
    if p !in stale { SizesAgree(a, p); } else { NotOurs(view, a.Held(), p); }
    ghost var stage;
    ok, stage := a.Wake(p);
    if p !in stale {
      Updated(table, stale, p, a.table[p]);
      WorldUpdate(view, table - stale, p, view[p], a.table[p]);
    } else {
      StaleUpdated(table, stale, p, a.table[p]);
    }
  }

  method ExecuteFree(a: Allocator, p: nat)
    requires a.Valid() && a.gpu.steadyTeardown && p in a.table && (p in a.stale && !a.table[p].asleep ==> a.OutOfUse(p))
    modifies a, a.gpu
    ensures a.Valid() && a.gpu.faults == old(a.gpu.faults) + old(Refused(a, Release(p)))
    ensures MemoryStep(a.granularity, old(Snapshot(a)), Release(p), true, old(a.errorCode) != OK, Snapshot(a))
  {
    hide Consistent, View, WorldOf, Unreserved, Shaped;
    ghost var view, held := a.Logical(), a.Held();
    if p in a.stale { NotOurs(view, held, p); }
    a.Free(p, a.table[p].size);
    if p in held { WorldRemove(view, held, p); }
  }

  /** One command, applied when it names an entry in the right state, whatever is behind the entry. */
  method Execute(a: Allocator, c: Command) returns (ok: bool)
    requires a.Valid() && a.gpu.steadyTeardown && a.gpu.steadyAccess && Computable(a, [c])
    requires Harmless(a.gpu.dev, a.table, c)
    requires c.Rouse? ==> a.errorCode == OK
    modifies a, a.gpu
    ensures a.Valid() && a.gpu.faults == old(a.gpu.faults) + old(Refused(a, c))
    ensures MemoryStep(a.granularity, old(Snapshot(a)), c, ok, old(a.errorCode) != OK, Snapshot(a))
    ensures ok <==> Succeeds(a, old(Now(a)), Now(a), c)
  {
    hide Consistent, View, NoWrap, Covers, WorldOf, Unreserved, Shaped, Willing, Regains, MallocStage, StageOf, ChunksNeeded, Obtained;
    ghost var view, held := a.Logical(), a.Held();
    ok := true;
    match c
    case Allocate(size, tag) =>
      assert [c][0] == c;
      ghost var stage;
      var p;
      p, stage := a.Malloc(size, tag);
      ok := p != 0;
      if ok {
        WorldUpdate(view, held, p, Zeros(a.table[p].size), a.table[p]);
        NotOurs(view, held, p);
      }
    case Release(p) =>
      if p in a.table {
        StaleIsUnreserved(a, p);
        ExecuteFree(a, p);
      } else {
        NotOurs(view, held, p);
      }
    case PutToSleep(p, offload) =>
      if p in a.table && !a.table[p].asleep {
        StaleIsUnreserved(a, p);
        ok := ExecuteSleep(a, p, offload);
      } else {
        NotAwake(view, held, p);
      }
    case Rouse(p) =>
      if p in a.table && a.table[p].asleep {
        StaleIsUnreserved(a, p);
        ok := ExecuteWake(a, p);
      } else {
        NotAsleep(view, held, p);
      }
    case Store(p, i, bytes) =>
      ExecuteStore(a, p, i, bytes);
    case Overwrite(p, cells) =>
      ExecuteOverwrite(a, p, cells);
    case Foreign =>
      Interfere(a);
  }

  /** The cells of an entry with nothing behind it belong to the host again, which puts other values there. */
  method ExecuteOverwrite(a: Allocator, p: nat, cells: seq<Handle>)
    requires a.Valid()
    modifies a`table
    ensures a.Valid() && Snapshot(a) == old(Snapshot(a))
  {
    hide Consistent, View, WorldOf;
    if p in a.table && p !in a.gpu.dev.reserved && |cells| == |a.table[p].sizes| {
      StaleIsUnreserved(a, p);
      StaleUpdated(a.table, a.stale, p, a.table[p].(handles := cells));
      a.table := a.table[p := a.table[p].(handles := cells)];
    }
  }

  /** An owner stores bytes into an awake allocation. */
  method ExecuteStore(a: Allocator, p: nat, i: nat, bytes: seq<Byte>)
    requires a.Valid() && (p in a.table ==> p in a.gpu.dev.reserved)
    modifies a.gpu`dev
    ensures a.Valid() && MemoryStep(a.granularity, old(Snapshot(a)), Store(p, i, bytes), true, a.errorCode != OK, Snapshot(a))
  {
    hide Consistent, View, WorldOf;
    ghost var view, held := a.Logical(), a.Held();
    if p in a.table {
      StaleIsUnreserved(a, p);
      SizesAgree(a, p);
      if !a.table[p].asleep && i + |bytes| <= a.table[p].size {
        a.Write(p, i, bytes);
        WorldUpdate(view, held, p, a.Logical()[p], a.table[p]);
        assert held[p := a.table[p]] == held;
      }
    } else {
      NotOurs(view, held, p);
    }
  }

  /** What decides the outcome of a command, before it or after it. */
  datatype Moment = Moment(dev: Device, calls: nat, errorCode: Status, table: Table, stale: set<nat>)

  ghost function Now(a: Allocator): (m: Moment)
    reads a, a.gpu
  {
    Moment(a.gpu.dev, a.gpu.calls, a.errorCode, a.table, a.stale)
  }

  /**
   When a command succeeds. A request does if no error is pending and the driver does every call; a sleep if no
   error is pending and its address is regained; a wake if the driver does every call; the last two never at
   an entry with nothing behind it. The other commands, and those that find nothing to do, report no failure.
   */
  ghost predicate Succeeds(a: Allocator, before: Moment, after: Moment, c: Command)
    requires a.granularity > 0
  {
    match c
    case Allocate(size, _) =>
      MallocStage(a.gpu, before.dev, before.calls, before.errorCode != OK, AlignUp(size, a.granularity), a.granularity,
                  ChunksNeeded(AlignUp(size, a.granularity), AlignUp(ConfiguredChunk(a.env), a.granularity))).Complete?
    case PutToSleep(p, offload) =>
      p in before.table && !before.table[p].asleep ==>
        && p !in before.stale && before.errorCode == OK
        && Regains(a.gpu, after.dev, SleepCall(before.calls, before.table[p], offload), p, before.table[p].size)
    case Rouse(p) =>
      p in before.table && before.table[p].asleep ==>
        p !in before.stale && StageOf(a.gpu, before.calls, |before.table[p].sizes|, false).Complete?
    case _ => true
  }

  /** With a driver that does everything: requests, sleeps that nobody gets in the way of, and wakes succeed. */
  lemma ObligingSucceeds(a: Allocator, before: Moment, after: Moment, c: Command)
    requires a.granularity > 0 && Obliging(a.gpu, before.calls) && before.errorCode == OK
    ensures c.Allocate? ==>
              var g := a.granularity;
              var size := AlignUp(c.size, g);
              Reservable(before.dev, a.gpu.place(before.calls + 1, size, g, 0), size, g) ==> Succeeds(a, before, after, c)
    ensures c.PutToSleep? && c.p in before.table && c.p !in before.stale ==>
              var size := before.table[c.p].size;
              Hinted(a.gpu, before.calls, c.p, size) && Untaken(after.dev, c.p, size) ==> Succeeds(a, before, after, c)
    ensures c.Rouse? && c.p in before.table && c.p !in before.stale ==> Succeeds(a, before, after, c)
  {
    hide MallocStage, StageOf, Reservable, ChunksNeeded, AlignUp;
    match c
    case Allocate(size, _) =>
      ObligingMalloc(a.gpu, before.dev, before.calls, AlignUp(size, a.granularity), a.granularity,
                     ChunksNeeded(AlignUp(size, a.granularity), AlignUp(ConfiguredChunk(a.env), a.granularity)));
    case Rouse(p) =>
      if p in before.table { ObligingStage(a.gpu, before.calls, |before.table[p].sizes|); }
    case _ =>
  }

  ghost predicate Behaviour(a: Allocator, trace: seq<World>, moments: seq<Moment>, cmds: seq<Command>, oks: seq<bool>)
    requires a.granularity > 0
  {
    && |trace| == |moments| == |oks| + 1 <= |cmds| + 1
    && forall k :: 0 <= k < |oks| ==>
         && MemoryStep(a.granularity, trace[k], cmds[k], oks[k], moments[k].errorCode != OK, trace[k + 1])
         && (oks[k] <==> Succeeds(a, moments[k], moments[k + 1], cmds[k]))
  }

  /** What a command has to do with entries that have nothing behind them. */
  datatype Touch = Nothing | Names | Takes

  ghost function TouchOf(a: Allocator, c: Command): (t: Touch)
    reads a, a.gpu
  {
    if TakesForeign(a, c) then Takes else if Touches(a.table, a.stale, c) then Names else Nothing
  }

  /**
   A command is refused driver calls only if it names an entry with nothing behind it, and always if it
   frees one or puts one to sleep, except for the free that gives back a foreign reservation instead.
   */
  ghost predicate Accounted(cmds: seq<Command>, refused: seq<nat>, touched: seq<Touch>) {
    && |refused| == |touched| <= |cmds|
    && forall k :: 0 <= k < |refused| ==>
         && (refused[k] > 0 ==> touched[k].Names?)
         && (touched[k].Names? && !cmds[k].Rouse? ==> refused[k] > 0)
  }

  lemma {:induction false} NoRefusals(refused: seq<nat>)
    ensures Sum(refused) == 0 <==> forall k :: 0 <= k < |refused| ==> refused[k] == 0
  {
    if refused != [] {
      var n := |refused| - 1;
      NoRefusals(refused[..n]);
      assert forall k :: 0 <= k < n ==> refused[..n][k] == refused[k];
    }
  }

  /** A run makes an invalid driver call if it frees an entry without memory or puts one to sleep, and only if it touches one. */
  lemma RefusalsNeedLeftovers(cmds: seq<Command>, refused: seq<nat>, touched: seq<Touch>)
    requires Accounted(cmds, refused, touched)
    ensures (forall k :: 0 <= k < |touched| ==> !touched[k].Names?) ==> Sum(refused) == 0
    ensures Sum(refused) == 0 ==> forall k :: 0 <= k < |touched| && !cmds[k].Rouse? ==> !touched[k].Names?
  {
    NoRefusals(refused);
  }

  /**
   Every run. The invariant holds at its end, what the owners know of their memory went through exactly
   the steps that the commands and their outcomes describe, each command succeeded exactly when the driver and
   the other allocators allow it, and the driver calls that were refused as
   invalid are exactly those of commands that name an entry with nothing behind it. The run stops early
   only before a wake that would find the error of a failed request still pending, or before a command
   on such an entry that would reach something in use again, by us or by another allocator.
   */
  method Run(a: Allocator, cmds: seq<Command>)
    returns (oks: seq<bool>, ghost trace: seq<World>, ghost moments: seq<Moment>, ghost refused: seq<nat>, ghost touched: seq<Touch>)
    requires a.Valid() && a.gpu.steadyTeardown && a.gpu.steadyAccess && Computable(a, cmds)
    modifies a, a.gpu
    ensures a.Valid() && a.gpu.faults == old(a.gpu.faults) + Sum(refused)
    ensures Behaviour(a, trace, moments, cmds, oks) && |refused| == |oks| && Accounted(cmds, refused, touched)
    ensures trace[0] == old(Snapshot(a)) && trace[|oks|] == Snapshot(a) && moments[0] == old(Now(a)) && moments[|oks|] == Now(a)
    ensures |oks| < |cmds| ==>
              (cmds[|oks|].Rouse? && a.errorCode != OK) || !Harmless(a.gpu.dev, a.table, cmds[|oks|])
  {
    hide Consistent, View, NoWrap, MemoryStep, WorldOf, Harmless, Refused, TouchOf, Sum, Succeeds;
    oks, trace, moments, refused, touched := [], [Snapshot(a)], [Now(a)], [], [];
    SumNone();
    while |oks| < |cmds|
      invariant a.Valid() && a.gpu.faults == old(a.gpu.faults) + Sum(refused)
      invariant Behaviour(a, trace, moments, cmds, oks) && |refused| == |oks| && Accounted(cmds, refused, touched)
      invariant trace[0] == old(Snapshot(a)) && trace[|oks|] == Snapshot(a) && moments[0] == old(Now(a)) && moments[|oks|] == Now(a)
      decreases |cmds| - |oks|
    {
      var c := cmds[|oks|];
      if (c.Rouse? && a.errorCode != OK) || !Harmless(a.gpu.dev, a.table, c) {
        return;
      }
      ghost var n, t := Refused(a, c), TouchOf(a, c);
      RefusedIff(a, c);
      var ok := Execute(a, c);
      SumAppend(refused, n);
      trace, moments := trace + [Snapshot(a)], moments + [Now(a)];
      refused, touched := refused + [n], touched + [t];
      oks := oks + [ok];
    }
  }

  lemma RefusedIff(a: Allocator, c: Command)
    requires a.Valid()
    ensures Refused(a, c) > 0 ==> TouchOf(a, c).Names?
    ensures TouchOf(a, c).Names? && !c.Rouse? ==> Refused(a, c) > 0
  {
    if c.PutToSleep? && Touches(a.table, a.stale, c) {
      assert Shaped(a.table[c.p]);
      OffsetEnds(a.table[c.p].sizes);
    }
  }

  lemma SumNone()
    ensures Sum([]) == 0
  {
  }

  lemma SumAppend(s: seq<nat>, n: nat)
    ensures Sum(s + [n]) == Sum(s) + n
  {
    assert (s + [n])[..|s|] == s;
  }
}
