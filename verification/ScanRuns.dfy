/**
 Prefix caching over whole runs: any number of requests, launches of any batches of them in any
 interleaving, requests that take over the blocks of others, and requests that replace others.
 */
module ScanRuns {
  import opened Basics
  import opened Sums
  import opened ScanSpec
  import opened ScanClosed
  import opened ScanKernel
  import opened ScanChunks
  import opened ScanProgram
  import opened ScanPrefix
  import opened ScanGrid
  import opened ScanLaunch

  /** A request: its block table row, the tokens computed so far, and its tokens in each dimension. */
  datatype Sequence = Sequence(row: seq<nat>, computed: nat, toks: seq<seq<Token>>)

  datatype Setup = Setup(Ps: seq<Params>, size: nat, dims: nat, slots: nat)

  datatype Cache = Cache(reqs: seq<Sequence>, ssm: seq<State>)

  /** A launch: the requests `who` of the batch, what the kernel is given, and how its programs are interleaved. */
  datatype Launched = Launched(
    who: seq<nat>, q: Batch, lens: seq<seq<nat>>, ins: seq<seq<Inputs>>, before: Memory, schedule: seq<nat>, after: Memory)

  datatype Event =
    | Kernel(l: Launched)
    | Hit(r: nat, from: nat, blocks: nat)
    | Admit(r: nat, next: Sequence)

  // ----- the invariant -----

  ghost predicate Proper(g: Setup) {
    && g.size > 0 && g.dims > 0 && |g.Ps| == g.dims
    && forall d, e :: 0 <= d < g.dims && 0 <= e < g.dims ==> |g.Ps[d].A| == |g.Ps[e].A|
  }

  /** In every dimension the cache holds what it promises for the request. */
  ghost predicate HoldsFor(g: Setup, ssm: seq<State>, r: Sequence)
    requires |ssm| == g.slots * g.dims && |g.Ps| == g.dims
  {
    |r.toks| == g.dims && forall d :: 0 <= d < g.dims ==>
      CacheHolds(g.Ps[d], r.toks[d], r.computed, g.size, r.row, Column(ssm, g.slots, g.dims, d))
  }

  /** Two requests share only slots of blocks that both have completed. */
  ghost predicate Shares(size: nat, a: Sequence, b: Sequence)
    requires size > 0
  {
    forall i, j :: 0 <= i < |a.row| && 0 <= j < |b.row| && a.row[i] == b.row[j] ==>
      i < a.computed / size && j < b.computed / size
  }

  ghost predicate Inv(g: Setup, c: Cache) {
    && Proper(g) && |c.ssm| == g.slots * g.dims && (forall d :: 0 <= d < g.dims ==> StatesFit(g.Ps[d], c.ssm))
    && (forall r :: 0 <= r < |c.reqs| ==> HoldsFor(g, c.ssm, c.reqs[r]))
    && (forall r, s :: 0 <= r < |c.reqs| && 0 <= s < |c.reqs| && r != s ==> Shares(g.size, c.reqs[r], c.reqs[s]))
  }

  // ----- the events -----

  /** The batch consists of the requests `who`, then padding that the null block marks. */
  ghost predicate Gives(g: Setup, c: Cache, l: Launched) {
    && l.q.size == g.size && l.q.dims == g.dims && |l.who| <= |l.q.reqs|
    && Scheduled(l.q, l.lens, g.slots) && Supplied(l.q, g.Ps, l.ins) && Furnished(l.q, g.slots, g.Ps, l.before)
    && l.before.ssm == c.ssm
    && (forall b :: 0 <= b < |l.who| ==> l.who[b] < |c.reqs| && !OnNull(l.q, b) && GivesAt(c, l, b))
    && (forall b :: |l.who| <= b < |l.q.reqs| ==> OnNull(l.q, b))
    && (forall b, d :: 0 <= b < |l.who| && 0 <= d < g.dims ==> FedAt(g, c, l, b, d))
    && (forall a, b :: 0 <= a < b < |l.who| ==> l.who[a] != l.who[b])
  }

  /** The slot that the request would load is the null block. */
  ghost predicate OnNull(q: Batch, b: nat)
    requires b < |q.reqs| && q.size > 0
  {
    var r := q.reqs[b];
    BlockComputed(r.computed, q.size) < |r.row| && r.row[BlockComputed(r.computed, q.size)] == q.nullBlock
  }

  /** The kernel goes on with exactly the requests of the batch. */
  lemma WhoIsActive(g: Setup, c: Cache, l: Launched, b: nat)
    requires Gives(g, c, l) && b < |l.q.reqs|
    ensures l.q.size > 0 && (Active(l.q, b) <==> b < |l.who|)
  {
    assert ScheduledAt(l.q, l.lens, g.slots, b);
    assert b < |l.who| ==> !OnNull(l.q, b);
    assert b >= |l.who| ==> OnNull(l.q, b);
  }

  ghost predicate GivesAt(c: Cache, l: Launched, b: nat)
    requires b < |l.who| <= |l.q.reqs| && l.who[b] < |c.reqs|
  {
    l.q.reqs[b] == Request(c.reqs[l.who[b]].row, c.reqs[l.who[b]].computed)
  }

  /** The buffers hold the next tokens of the request. */
  ghost predicate FedAt(g: Setup, c: Cache, l: Launched, b: nat, d: nat)
    requires b < |l.who| <= |l.q.reqs| && d < g.dims == l.q.dims && Scheduled(l.q, l.lens, g.slots)
    requires Supplied(l.q, g.Ps, l.ins) && Furnished(l.q, g.slots, g.Ps, l.before) && l.who[b] < |c.reqs|
  {
    ProgramFits(l.q, l.lens, g.slots, g.Ps, l.ins, l.before, b, d);
    var r, t := c.reqs[l.who[b]], TokensOf(l.q.queryStart, b);
    d < |r.toks| && r.computed + t <= |r.toks[d]|
    && Tokens(ProgramOf(l.q, l.lens, g.slots, g.Ps, l.ins, b, d), l.before) == r.toks[d][r.computed..r.computed + t]
  }

  ghost predicate Finishes(g: Setup, l: Launched)
    requires Scheduled(l.q, l.lens, g.slots) && Supplied(l.q, g.Ps, l.ins)
  {
    Completes(Programs(l.q, l.lens, g.slots, g.Ps, l.ins), l.before, l.schedule, l.after)
  }

  /** The requests of the batch have computed their tokens; the others are as they were. */
  ghost predicate Advanced(c: Cache, l: Launched, c': Cache)
    requires |l.who| < |l.q.queryStart| && Increasing(l.q.queryStart)
  {
    && |c'.reqs| == |c.reqs| && c'.ssm == l.after.ssm
    && (forall b :: 0 <= b < |l.who| ==> l.who[b] < |c.reqs|)
    && (forall b :: 0 <= b < |l.who| ==>
          c'.reqs[l.who[b]] == c.reqs[l.who[b]].(computed := c.reqs[l.who[b]].computed + TokensOf(l.q.queryStart, b)))
    && (forall r :: 0 <= r < |c.reqs| && r !in l.who ==> c'.reqs[r] == c.reqs[r])
  }

  ghost predicate Step(g: Setup, c: Cache, e: Event, c': Cache)
    requires g.size > 0
  {
    match e
    case Kernel(l) => Gives(g, c, l) && Finishes(g, l) && Advanced(c, l, c')
    case Hit(r, from, k) =>
      && r < |c.reqs| && from < |c.reqs| && r != from && Matches(g, c.reqs[r], c.reqs[from], k)
      && c' == c.(reqs := c.reqs[r := TakenOver(g, c.reqs[r], c.reqs[from], k)])
    case Admit(r, next) =>
      && r < |c.reqs| && c' == c.(reqs := c.reqs[r := next]) && Fresh(g, next)
      && forall s :: 0 <= s < |c.reqs| && s != r ==> Shares(g.size, next, c.reqs[s])
  }

  /** A new request with the same first `k` blocks as another one that has computed them. */
  ghost predicate Matches(g: Setup, r: Sequence, from: Sequence, k: nat)
    requires g.size > 0
  {
    && r.computed == 0 && k * g.size <= from.computed && k <= |r.row| && k <= |from.row| && |r.toks| == |from.toks|
    && forall d :: 0 <= d < |r.toks| ==>
         k * g.size <= |r.toks[d]| && k * g.size <= |from.toks[d]| && r.toks[d][..k * g.size] == from.toks[d][..k * g.size]
  }

  ghost function TakenOver(g: Setup, r: Sequence, from: Sequence, k: nat): (r': Sequence)
    requires k <= |r.row| && k <= |from.row|
  {
    r.(row := from.row[..k] + r.row[k..], computed := k * g.size)
  }

  /** Nothing computed yet, and a slot for every block. */
  ghost predicate Fresh(g: Setup, r: Sequence) {
    && r.computed == 0 && |r.toks| == g.dims && DistinctRow(r.row, g.slots)
    && |g.Ps| == g.dims && forall d :: 0 <= d < g.dims ==> AllFit(g.Ps[d], r.toks[d])
  }

  // ----- a launch keeps the invariant -----

  /** What a request of the batch stores to lies behind its completed blocks, so in nobody else's row. */
  lemma StoresSpare(g: Setup, c: Cache, l: Launched, b: nat, r: nat)
    requires Inv(g, c) && Gives(g, c, l) && b < |l.who| && r < |c.reqs| && l.who[b] != r
    ensures Spares(Stores(l.q, l.lens, g.slots, b), c.reqs[r].row)
  {
    var slots, me := Stores(l.q, l.lens, g.slots, b), c.reqs[l.who[b]];
    StoresAre(l.q, l.lens, g.slots, b);
    assert GivesAt(c, l, b) && Shares(g.size, me, c.reqs[r]);
    hide Scheduled, Supplied, Furnished, Stores, HoldsFor, Inv, FedAt;
    var first := me.computed / g.size;
    forall k | 0 <= k < |slots| ensures slots[k] !in c.reqs[r].row {
      assert slots[k] == me.row[first + k];
    }
  }

  lemma PaddingStoresNothing(g: Setup, c: Cache, l: Launched, b: nat)
    requires Gives(g, c, l) && |l.who| <= b < |l.q.reqs|
    ensures Stores(l.q, l.lens, g.slots, b) == []
  {
    WhoIsActive(g, c, l, b);
  }

  /** So the programs of the launch are exclusive. */
  lemma LaunchReady(g: Setup, c: Cache, l: Launched)
    requires Inv(g, c) && Gives(g, c, l)
    ensures Ready(l.q, l.lens, g.slots, g.Ps, l.ins, l.before)
  {
    assert l.q.size > 0;
    hide Scheduled, Supplied, Furnished, Stores, HoldsFor, FedAt, Inv;
    forall a, b | 0 <= a < |l.q.reqs| && 0 <= b < |l.q.reqs| && a != b && Active(l.q, b)
      ensures Spares(Stores(l.q, l.lens, g.slots, a), l.q.reqs[b].row)
    {
      WhoIsActive(g, c, l, b);
      assert GivesAt(c, l, b);
      if a < |l.who| {
        assert l.who[a] != l.who[b];
        StoresSpare(g, c, l, a, l.who[b]);
      } else {
        PaddingStoresNothing(g, c, l, a);
      }
    }
  }

  /** What the launch leaves for one program. */
  lemma LaunchLeaves(g: Setup, c: Cache, l: Launched)
    requires Inv(g, c) && Gives(g, c, l) && Finishes(g, l)
    ensures Ready(l.q, l.lens, g.slots, g.Ps, l.ins, l.before)
    ensures |l.after.ssm| == |c.ssm| && RestKept(Programs(l.q, l.lens, g.slots, g.Ps, l.ins), l.before, l.after)
    ensures forall b, d :: 0 <= b < |l.q.reqs| && 0 <= d < g.dims ==> After(l.q, l.lens, g.slots, g.Ps, l.ins, l.before, l.after, b, d)
  {
    LaunchReady(g, c, l);
    LaunchDone(l.q, l.lens, g.slots, g.Ps, l.ins, l.before, l.schedule, l.after);
    hide Scheduled, Supplied, Furnished, Stores, HoldsFor, FedAt, Done, RestKept, Programs, ProgramOf, Fitting, Completes;
  }

  /** A request of the batch: the cache then holds what it promises for its longer prefix. */
  lemma BatchHolds(g: Setup, c: Cache, l: Launched, c': Cache, b: nat)
    requires Inv(g, c) && Gives(g, c, l) && Finishes(g, l) && Advanced(c, l, c') && b < |l.who|
    ensures |c'.ssm| == g.slots * g.dims && HoldsFor(g, c'.ssm, c'.reqs[l.who[b]])
  {
    LaunchLeaves(g, c, l);
    var r, t := c.reqs[l.who[b]], TokensOf(l.q.queryStart, b);
    assert HoldsFor(g, c.ssm, r);
    hide Scheduled, Supplied, Furnished, CacheHolds, Finishes, Ready, After, RestKept, Programs, Shares, StatesFit;
    forall d | 0 <= d < g.dims
      ensures CacheHolds(g.Ps[d], r.toks[d], r.computed + t, g.size, r.row, Column(c'.ssm, g.slots, g.dims, d))
    {
      DimensionHolds(g, c, l, b, d);
    }
  }

  lemma DimensionHolds(g: Setup, c: Cache, l: Launched, b: nat, d: nat)
    requires Inv(g, c) && Gives(g, c, l) && Finishes(g, l) && b < |l.who| && d < g.dims
    ensures |l.after.ssm| == g.slots * g.dims && d < |c.reqs[l.who[b]].toks|
    ensures var r, t := c.reqs[l.who[b]], TokensOf(l.q.queryStart, b);
      CacheHolds(g.Ps[d], r.toks[d], r.computed + t, g.size, r.row, Column(l.after.ssm, g.slots, g.dims, d))
  {
    hide Scheduled, Supplied, Furnished, CacheHolds, Finishes, Ready, After, RestKept, Programs, Shares, StatesFit, HoldsFor, FedAt, Continues, Inv;
    GivenAt(g, c, l, b);
    LaunchLeaves(g, c, l);
    BatchContinues(g, c, l, b, d);
    hide Gives;
    LaunchServes(l.q, l.lens, g.slots, g.Ps, l.ins, l.before, l.after, b, d, c.reqs[l.who[b]].toks[d]);
  }

  lemma GivenAt(g: Setup, c: Cache, l: Launched, b: nat)
    requires Inv(g, c) && Gives(g, c, l) && b < |l.who|
    ensures l.q.size == g.size > 0 && l.q.dims == g.dims && |l.who| <= |l.q.reqs| && l.who[b] < |c.reqs|
    ensures l.q.reqs[b] == Request(c.reqs[l.who[b]].row, c.reqs[l.who[b]].computed)
    ensures |c.ssm| == g.slots * g.dims && |g.Ps| == g.dims
  {
    assert GivesAt(c, l, b);
  }

  lemma BatchContinues(g: Setup, c: Cache, l: Launched, b: nat, d: nat)
    requires Inv(g, c) && Gives(g, c, l) && b < |l.who| && d < g.dims && Ready(l.q, l.lens, g.slots, g.Ps, l.ins, l.before)
    ensures d < |c.reqs[l.who[b]].toks|
    ensures Continues(l.q, l.lens, g.slots, g.Ps, l.ins, l.before, b, d, c.reqs[l.who[b]].toks[d])
  {
    WhoIsActive(g, c, l, b);
    assert HoldsFor(g, c.ssm, c.reqs[l.who[b]]) && GivesAt(c, l, b) && FedAt(g, c, l, b, d);
    hide Scheduled, Supplied, Furnished, Stores, Shares, Ready, Exclusive, CacheHolds, ProgramOf, Tokens;
  }

  /** A request outside the batch: nobody stores to its row. */
  lemma OthersHold(g: Setup, c: Cache, l: Launched, r: nat)
    requires Inv(g, c) && Gives(g, c, l) && Finishes(g, l) && r < |c.reqs| && r !in l.who
    ensures |l.after.ssm| == g.slots * g.dims && HoldsFor(g, l.after.ssm, c.reqs[r])
  {
    LaunchLeaves(g, c, l);
    assert HoldsFor(g, c.ssm, c.reqs[r]);
    forall b | 0 <= b < |l.q.reqs| ensures Spares(Stores(l.q, l.lens, g.slots, b), c.reqs[r].row) {
      if b < |l.who| { StoresSpare(g, c, l, b, r); } else { PaddingStoresNothing(g, c, l, b); }
    }
    hide Scheduled, Supplied, Furnished, Stores, Shares, After, RestKept, Programs, CacheHolds, Finishes, Exclusive, Spares;
    forall d | 0 <= d < g.dims
      ensures CacheHolds(g.Ps[d], c.reqs[r].toks[d], c.reqs[r].computed, g.size, c.reqs[r].row, Column(l.after.ssm, g.slots, g.dims, d))
    {
      LaunchSpares(l.q, l.lens, g.slots, g.Ps, l.ins, l.before, l.after, d, c.reqs[r].toks[d], c.reqs[r].computed, c.reqs[r].row);
    }
  }

  lemma NoPrograms(progs: seq<Program>, m0: Memory, schedule: seq<nat>, m: Memory)
    requires Completes(progs, m0, schedule, m) && |progs| == 0
    ensures m == m0
  {
  }

  /** The state vectors keep their length. */
  lemma StatesStayFit(g: Setup, c: Cache, l: Launched, d: nat)
    requires Inv(g, c) && Gives(g, c, l) && Finishes(g, l) && d < g.dims
    ensures StatesFit(g.Ps[d], l.after.ssm)
  {
    LaunchLeaves(g, c, l);
    if l.q.reqs != [] {
      assert After(l.q, l.lens, g.slots, g.Ps, l.ins, l.before, l.after, 0, d);
      ProgramFits(l.q, l.lens, g.slots, g.Ps, l.ins, l.before, 0, d);
    } else {
      NoPrograms(Programs(l.q, l.lens, g.slots, g.Ps, l.ins), l.before, l.schedule, l.after);
    }
  }

  /** Requests that have computed more share no more than before. */
  lemma SharesOn(size: nat, a: Sequence, b: Sequence, a': Sequence, b': Sequence)
    requires size > 0 && Shares(size, a, b) && a'.row == a.row && b'.row == b.row
    requires a.computed <= a'.computed && b.computed <= b'.computed
    ensures Shares(size, a', b')
  {
    DivMono(a.computed, a'.computed, size);
    DivMono(b.computed, b'.computed, size);
  }

  lemma SizeStays(g: Setup, c: Cache, l: Launched)
    requires Inv(g, c) && Gives(g, c, l) && Finishes(g, l)
    ensures |l.after.ssm| == |c.ssm| && |l.who| < |l.q.queryStart| && Increasing(l.q.queryStart)
  {
    LaunchLeaves(g, c, l);
  }

  lemma RequestHolds(g: Setup, c: Cache, l: Launched, c': Cache, r: nat)
    requires Inv(g, c) && Gives(g, c, l) && Finishes(g, l) && Advanced(c, l, c') && r < |c.reqs|
    ensures |c'.ssm| == g.slots * g.dims && HoldsFor(g, c'.ssm, c'.reqs[r])
    ensures c'.reqs[r].row == c.reqs[r].row && c.reqs[r].computed <= c'.reqs[r].computed
  {
    hide Supplied, Furnished, HoldsFor, Shares, StatesFit, Finishes, FedAt, Inv;
    if r in l.who {
      var b :| 0 <= b < |l.who| && l.who[b] == r;
      BatchHolds(g, c, l, c', b);
    } else {
      OthersHold(g, c, l, r);
    }
  }

  lemma KernelKeeps(g: Setup, c: Cache, l: Launched, c': Cache)
    requires Inv(g, c) && Gives(g, c, l) && Finishes(g, l) && Advanced(c, l, c')
    ensures Inv(g, c')
  {
    hide Scheduled, Supplied, Furnished, HoldsFor, Shares, StatesFit, After, RestKept, Programs, Finishes, Ready, Gives;
    SizeStays(g, c, l);
    forall d | 0 <= d < g.dims ensures StatesFit(g.Ps[d], c'.ssm) { StatesStayFit(g, c, l, d); }
    forall r | 0 <= r < |c'.reqs|
      ensures HoldsFor(g, c'.ssm, c'.reqs[r]) && c'.reqs[r].row == c.reqs[r].row && c.reqs[r].computed <= c'.reqs[r].computed
    {
      RequestHolds(g, c, l, c', r);
    }
    forall r, s | 0 <= r < |c'.reqs| && 0 <= s < |c'.reqs| && r != s ensures Shares(g.size, c'.reqs[r], c'.reqs[s]) {
      SharesOn(g.size, c.reqs[r], c.reqs[s], c'.reqs[r], c'.reqs[s]);
    }
  }

  // ----- the other events keep it -----

  lemma HitDistinct(g: Setup, r: Sequence, from: Sequence, k: nat)
    requires g.size > 0 && Matches(g, r, from, k) && Shares(g.size, r, from)
    requires DistinctRow(r.row, g.slots) && DistinctRow(from.row, g.slots)
    ensures DistinctRow(TakenOver(g, r, from, k).row, g.slots)
  {
    var row := TakenOver(g, r, from, k).row;
    forall i, j | 0 <= i < j < |row| ensures row[i] != row[j] {
      assert i < k ==> row[i] == from.row[i];
      assert i >= k ==> row[i] == r.row[i];
      assert j < k ==> row[j] == from.row[j];
      assert j >= k ==> row[j] == r.row[j];
    }
  }

  /** After taking over, the blocks of the other request are complete for the new one too. */
  lemma HitHolds(g: Setup, ssm: seq<State>, r: Sequence, from: Sequence, k: nat)
    requires Proper(g) && |ssm| == g.slots * g.dims && HoldsFor(g, ssm, r) && HoldsFor(g, ssm, from)
    requires Matches(g, r, from, k) && Shares(g.size, r, from)
    ensures HoldsFor(g, ssm, TakenOver(g, r, from, k))
  {
    var r' := TakenOver(g, r, from, k);
    assert CacheHolds(g.Ps[0], r.toks[0], r.computed, g.size, r.row, Column(ssm, g.slots, g.dims, 0));
    assert CacheHolds(g.Ps[0], from.toks[0], from.computed, g.size, from.row, Column(ssm, g.slots, g.dims, 0));
    HitDistinct(g, r, from, k);
    forall d | 0 <= d < g.dims
      ensures CacheHolds(g.Ps[d], r'.toks[d], r'.computed, g.size, r'.row, Column(ssm, g.slots, g.dims, d))
    {
      var col := Column(ssm, g.slots, g.dims, d);
      HoldsParts(g.Ps[d], r.toks[d], r.computed, g.size, r.row, col);
      assert r'.row[..k] == from.row[..k];
      hide CacheHolds, Shares;
      PrefixHit(g.Ps[d], from.toks[d], from.computed, from.row, r.toks[d], r'.row, g.size, col, k);
    }
  }

  lemma HitShares(g: Setup, r: Sequence, from: Sequence, k: nat, s: Sequence)
    requires g.size > 0 && Matches(g, r, from, k) && Shares(g.size, r, s) && Shares(g.size, from, s)
    ensures Shares(g.size, TakenOver(g, r, from, k), s)
  {
    var r' := TakenOver(g, r, from, k);
    BlocksOf(k, g.size);
    assert forall i :: 0 <= i < k ==> r'.row[i] == from.row[i];
    assert forall i :: k <= i < |r'.row| ==> r'.row[i] == r.row[i];
  }

  lemma BlocksOf(k: nat, size: nat)
    requires size > 0
    ensures k * size / size == k && 0 / size == 0
  {
    QuotientIs(k * size, k, size);
    QuotientIs(0, 0, size);
  }

  lemma HitSharesFrom(g: Setup, r: Sequence, from: Sequence, k: nat)
    requires g.size > 0 && Matches(g, r, from, k) && Shares(g.size, r, from) && DistinctRow(from.row, g.slots)
    ensures Shares(g.size, TakenOver(g, r, from, k), from)
  {
    var r' := TakenOver(g, r, from, k);
    BlocksOf(k, g.size);
    DivMono(k * g.size, from.computed, g.size);
    assert forall i :: 0 <= i < k ==> r'.row[i] == from.row[i];
    assert forall i :: k <= i < |r'.row| ==> r'.row[i] == r.row[i];
  }

  lemma SharesBack(size: nat, a: Sequence, b: Sequence)
    requires size > 0 && Shares(size, a, b)
    ensures Shares(size, b, a)
  {
  }

  lemma FreshHolds(g: Setup, ssm: seq<State>, r: Sequence)
    requires Proper(g) && |ssm| == g.slots * g.dims && Fresh(g, r)
    ensures HoldsFor(g, ssm, r)
  {
    forall d | 0 <= d < g.dims
      ensures CacheHolds(g.Ps[d], r.toks[d], 0, g.size, r.row, Column(ssm, g.slots, g.dims, d))
    {
      NothingCached(g.Ps[d], r.toks[d], g.size, r.row, Column(ssm, g.slots, g.dims, d));
    }
  }

  /** One request is replaced by another that holds and shares as it should. */
  lemma ReplaceKeeps(g: Setup, c: Cache, r: nat, next: Sequence)
    requires Inv(g, c) && r < |c.reqs| && HoldsFor(g, c.ssm, next)
    requires forall s :: 0 <= s < |c.reqs| && s != r ==> Shares(g.size, next, c.reqs[s])
    ensures Inv(g, c.(reqs := c.reqs[r := next]))
  {
    hide HoldsFor, Shares, StatesFit;
    var c' := c.(reqs := c.reqs[r := next]);
    forall a, b | 0 <= a < |c'.reqs| && 0 <= b < |c'.reqs| && a != b ensures Shares(g.size, c'.reqs[a], c'.reqs[b]) {
      if b == r { SharesBack(g.size, next, c.reqs[a]); }
    }
  }

  lemma HitKeeps(g: Setup, c: Cache, r: nat, from: nat, k: nat)
    requires Inv(g, c) && r < |c.reqs| && from < |c.reqs| && r != from && Matches(g, c.reqs[r], c.reqs[from], k)
    ensures Inv(g, c.(reqs := c.reqs[r := TakenOver(g, c.reqs[r], c.reqs[from], k)]))
  {
    var me, other := c.reqs[r], c.reqs[from];
    assert HoldsFor(g, c.ssm, me) && HoldsFor(g, c.ssm, other) && Shares(g.size, me, other);
    assert CacheHolds(g.Ps[0], other.toks[0], other.computed, g.size, other.row, Column(c.ssm, g.slots, g.dims, 0));
    HitHolds(g, c.ssm, me, other, k);
    hide HoldsFor, TakenOver, StatesFit, Matches, CacheHolds;
    forall s | 0 <= s < |c.reqs| && s != r ensures Shares(g.size, TakenOver(g, me, other, k), c.reqs[s]) {
      if s == from {
        HitSharesFrom(g, me, other, k);
      } else {
        assert Shares(g.size, me, c.reqs[s]) && Shares(g.size, other, c.reqs[s]);
        HitShares(g, me, other, k, c.reqs[s]);
      }
    }
    ReplaceKeeps(g, c, r, TakenOver(g, me, other, k));
  }

  lemma StepKeeps(g: Setup, c: Cache, e: Event, c': Cache)
    requires Inv(g, c) && Step(g, c, e, c')
    ensures Inv(g, c')
  {
    hide Gives, Finishes, Advanced, HoldsFor, Shares, StatesFit, Fresh, Matches, TakenOver;
    match e
    case Kernel(l) => KernelKeeps(g, c, l, c');
    case Hit(r, from, k) => HitKeeps(g, c, r, from, k);
    case Admit(r, next) =>
      FreshHolds(g, c.ssm, next);
      ReplaceKeeps(g, c, r, next);
  }

  // ----- every run -----

  ghost predicate IsRun(g: Setup, trace: seq<Cache>, events: seq<Event>) {
    && g.size > 0 && |trace| == |events| + 1
    && forall i :: 0 <= i < |events| ==> Step(g, trace[i], events[i], trace[i + 1])
  }

  /** At the start no request has computed anything, and no two have a slot in common. */
  ghost predicate Initial(g: Setup, c: Cache) {
    && Proper(g) && |c.ssm| == g.slots * g.dims && (forall d :: 0 <= d < g.dims ==> StatesFit(g.Ps[d], c.ssm))
    && (forall r :: 0 <= r < |c.reqs| ==> Fresh(g, c.reqs[r]))
    && (forall r, s :: 0 <= r < |c.reqs| && 0 <= s < |c.reqs| && r != s ==> Shares(g.size, c.reqs[r], c.reqs[s]))
  }

  /** In every run the cache holds, for every request and dimension, the state after each completed block. */
  lemma {:induction false} EveryRun(g: Setup, trace: seq<Cache>, events: seq<Event>, k: nat)
    requires IsRun(g, trace, events) && Initial(g, trace[0]) && k <= |events|
    ensures Inv(g, trace[k])
  {
    hide Step, HoldsFor, Shares, Fresh, StatesFit;
    if k == 0 {
      forall r | 0 <= r < |trace[0].reqs| ensures HoldsFor(g, trace[0].ssm, trace[0].reqs[r]) {
        FreshHolds(g, trace[0].ssm, trace[0].reqs[r]);
      }
    } else {
      EveryRun(g, trace, events, k - 1);
      StepKeeps(g, trace[k - 1], events[k - 1], trace[k]);
    }
  }

  /**
   In every run every launch puts out, for every request of its batch and every dimension, that
   stretch of one scan of all the request's tokens from the zero state.
   */
  lemma EveryLaunch(g: Setup, trace: seq<Cache>, events: seq<Event>, k: nat, b: nat, d: nat)
    requires IsRun(g, trace, events) && Initial(g, trace[0]) && k < |events| && events[k].Kernel?
    requires b < |events[k].l.who| && d < g.dims
    ensures var l := events[k].l;
      && |l.q.queryStart| == |l.q.reqs| + 1 && Increasing(l.q.queryStart) && |l.who| <= |l.q.reqs| && |g.Ps| == g.dims
      && l.who[b] < |trace[k].reqs| && d < |trace[k].reqs[l.who[b]].toks|
      && AllFit(g.Ps[d], trace[k].reqs[l.who[b]].toks[d])
      && Written(l.q, g.Ps[d], l.after, b, d, trace[k].reqs[l.who[b]].toks[d])
  {
    var l := events[k].l;
    EveryRun(g, trace, events, k);
    assert Step(g, trace[k], events[k], trace[k + 1]);
    LaunchLeaves(g, trace[k], l);
    BatchContinues(g, trace[k], l, b, d);
    hide Supplied, Furnished, HoldsFor, Shares, After, RestKept, Programs, Finishes, FedAt, Written, Continues, Inv, Exclusive;
    LaunchOutputs(l.q, l.lens, g.slots, g.Ps, l.ins, l.before, l.after, b, d, trace[k].reqs[l.who[b]].toks[d]);
  }

  /**
   In closed form: in every run the cell of every new token holds its row of `C` applied to the inputs of
   all tokens of its request so far, each decayed since, and the skip term.
   */
  lemma EveryOutput(g: Setup, trace: seq<Cache>, events: seq<Event>, k: nat, b: nat, d: nat, j: nat)
    requires IsRun(g, trace, events) && Initial(g, trace[0]) && k < |events| && events[k].Kernel?
    requires b < |events[k].l.who| && d < g.dims
    ensures var l := events[k].l;
      && |l.q.queryStart| == |l.q.reqs| + 1 && Increasing(l.q.queryStart) && |l.who| <= |l.q.reqs| && |g.Ps| == g.dims
      && l.who[b] < |trace[k].reqs| && d < |trace[k].reqs[l.who[b]].toks|
      && var r, p, z := trace[k].reqs[l.who[b]], Base(l.q.arr, l.q.queryStart, b, d), Base(l.q.zArr, l.q.queryStart, b, d);
      var n := l.q.reqs[b].computed + j;
      && AllFit(g.Ps[d], r.toks[d])
      && (j < TokensOf(l.q.queryStart, b) ==>
            && n < |r.toks[d]| && p + j < |l.after.delta| && l.after.delta[p + j] == ZeroOutput(g.Ps[d], r.toks[d], n)
            && (l.q.hasZ ==> z + j < |l.after.z| && l.after.z[z + j] == Gate(g.Ps[d], ZeroOutput(g.Ps[d], r.toks[d], n), r.toks[d][n].z)))
  {
    EveryLaunch(g, trace, events, k, b, d);
    hide IsRun, Initial, Base;
    var l := events[k].l;
    if j < TokensOf(l.q.queryStart, b) {
      WrittenAt(l.q, g.Ps[d], l.after, b, d, trace[k].reqs[l.who[b]].toks[d], j);
    }
  }

  lemma WrittenAt(q: Batch, P: Params, m: Memory, b: nat, d: nat, all: seq<Token>, j: nat)
    requires AllFit(P, all) && b + 1 < |q.queryStart| && b < |q.reqs| && Increasing(q.queryStart)
    requires Written(q, P, m, b, d, all) && j < TokensOf(q.queryStart, b)
    ensures var n, p, z := q.reqs[b].computed + j, Base(q.arr, q.queryStart, b, d), Base(q.zArr, q.queryStart, b, d);
      && n < |all| && p + j < |m.delta| && m.delta[p + j] == ZeroOutput(P, all, n)
      && (q.hasZ ==> z + j < |m.z| && m.z[z + j] == Gate(P, ZeroOutput(P, all, n), all[n].z))
  {
    hide *;
    var i, t := q.reqs[b].computed, TokensOf(q.queryStart, b);
    var p, z := Base(q.arr, q.queryStart, b, d), Base(q.zArr, q.queryStart, b, d);
    WrittenParts(q, P, m, b, d, all);
    OutputFromRest(P, all, i + j);
    GatedAt(P, Rest(|P.A|), all, i + j);
    StretchAt(m.delta, p, Outputs(P, Rest(|P.A|), all), i, t, j);
    if q.hasZ { StretchAt(m.z, z, GatedOutputs(P, Rest(|P.A|), all), i, t, j); }
  }

  lemma WrittenParts(q: Batch, P: Params, m: Memory, b: nat, d: nat, all: seq<Token>)
    requires AllFit(P, all) && b + 1 < |q.queryStart| && b < |q.reqs| && Increasing(q.queryStart) && Written(q, P, m, b, d, all)
    ensures var i, t := q.reqs[b].computed, TokensOf(q.queryStart, b);
      var p, z := Base(q.arr, q.queryStart, b, d), Base(q.zArr, q.queryStart, b, d);
      && |Rest(|P.A|)| == |P.A| && i + t <= |all| && p + t <= |m.delta| && m.delta[p..p + t] == Outputs(P, Rest(|P.A|), all)[i..i + t]
      && (q.hasZ ==> z + t <= |m.z| && m.z[z..z + t] == GatedOutputs(P, Rest(|P.A|), all)[i..i + t])
  {
    hide Outputs, GatedOutputs, Base, TokensOf;
  }

  lemma StretchAt(a: seq<real>, p: nat, b: seq<real>, i: nat, t: nat, j: nat)
    requires p + t <= |a| && i + t <= |b| && a[p..p + t] == b[i..i + t] && j < t
    ensures a[p + j] == b[i + j]
  {
    assert a[p..p + t][j] == b[i..i + t][j];
  }

  // ----- runs exist -----

  /** The requests after the launch. */
  ghost function Onwards(c: Cache, l: Launched): (reqs: seq<Sequence>)
    requires |l.who| < |l.q.queryStart| && Increasing(l.q.queryStart)
    requires forall a, b :: 0 <= a < b < |l.who| ==> l.who[a] != l.who[b]
    ensures |reqs| == |c.reqs|
    ensures forall b :: 0 <= b < |l.who| && l.who[b] < |c.reqs| ==>
      reqs[l.who[b]] == c.reqs[l.who[b]].(computed := c.reqs[l.who[b]].computed + TokensOf(l.q.queryStart, b))
    ensures forall r :: 0 <= r < |c.reqs| && r !in l.who ==> reqs[r] == c.reqs[r]
  {
    seq(|c.reqs|, r requires 0 <= r < |c.reqs| =>
      if r in l.who then
        var b :| 0 <= b < |l.who| && l.who[b] == r;
        c.reqs[r].(computed := c.reqs[r].computed + TokensOf(l.q.queryStart, b))
      else c.reqs[r])
  }

  /** No launch gets stuck: whatever the kernel is given, with turns enough for every program the launch is a step. */
  lemma LaunchIsStep(g: Setup, c: Cache, l: Launched, schedule: seq<nat>)
    requires Inv(g, c) && Gives(g, c, l) && Fair(Programs(l.q, l.lens, g.slots, g.Ps, l.ins), schedule)
    ensures exists after, c' :: Step(g, c, Kernel(l.(schedule := schedule, after := after)), c')
  {
    LaunchReady(g, c, l);
    LaunchDisjoint(l.q, l.lens, g.slots, g.Ps, l.ins);
    LaunchSane(l.q, l.lens, g.slots, g.Ps, l.ins, l.before);
    var progs := Programs(l.q, l.lens, g.slots, g.Ps, l.ins);
    var after := Interleave(progs, Launch(progs), l.before, schedule).1;
    var l' := l.(schedule := schedule, after := after);
    FairCompletes(progs, l.before, schedule);
    hide Scheduled, Supplied, Furnished, Fair, Programs, Completes, Inv, Exclusive, Sane, Disjoint, Interleave;
    SameGives(g, c, l, l');
    var c' := Cache(Onwards(c, l'), after.ssm);
    hide Onwards;
    assert Step(g, c, Kernel(l'), c');
  }

  lemma SameGives(g: Setup, c: Cache, l: Launched, l': Launched)
    requires Gives(g, c, l) && l' == l.(schedule := l'.schedule, after := l'.after)
    ensures Gives(g, c, l') && |l.who| < |l.q.queryStart| && Increasing(l.q.queryStart)
  {
    assert l'.q == l.q && l'.ins == l.ins && l'.lens == l.lens && l'.before == l.before && l'.who == l.who;
    forall b | 0 <= b < |l'.who| ensures l'.who[b] < |c.reqs| && !OnNull(l'.q, b) && GivesAt(c, l', b) {
      assert GivesAt(c, l, b);
    }
    hide Furnished, OnNull;
    forall b, d | 0 <= b < |l'.who| && 0 <= d < g.dims ensures FedAt(g, c, l', b, d) {
      assert FedAt(g, c, l, b, d);
    }
  }

  /** One request of one token, with slot 1 of a cache of two slots, where slot 0 is the null block. */
  function OneParams(): (P: Params) { Params(_ => 1.0, _ => 0.0, [0.0], None, None, false) }

  const ONE_TOKEN := Token(1.0, 1.0, 0.0, [1.0], [1.0])

  function OneSetup(): (g: Setup) { Setup([OneParams()], 2, 1, 2) }

  function OneCache(): (c: Cache) { Cache([Sequence([1], 0, [[ONE_TOKEN]])], [[0.0], [0.0]]) }

  function OneLaunch(): (l: Launched) {
    var m := Memory([1.0], [], [[0.0], [0.0]]);
    Launched([0], Batch([Request([1], 0)], [0, 1], 1, 2, 0, Packed(1), Packed(1), false), [[1]],
             [[Inputs([1.0], [[1.0]], [[1.0]])]], m, [], m)
  }

  lemma OneInitial()
    ensures Initial(OneSetup(), OneCache())
  {
  }

  lemma OneScheduled()
    ensures var g, l := OneSetup(), OneLaunch(); Scheduled(l.q, l.lens, g.slots) && Active(l.q, 0)
  {
    var g, l := OneSetup(), OneLaunch();
    assert BlockComputed(0, 2) == 0 && Active(l.q, 0);
    OneChunkIsGood();
    hide Sum, Offset, GoodChunks, Active, BlockComputed;
    assert ScheduledAt(l.q, l.lens, g.slots, 0);
  }

  lemma OneChunkIsGood()
    ensures GoodChunks([1], 0, 1, 2)
  {
    OffsetStep([1], 0);
    OffsetEnds([1]);
    hide Sum, Offset;
  }

  lemma OneSupplied()
    ensures var g, l := OneSetup(), OneLaunch(); Supplied(l.q, g.Ps, l.ins) && Furnished(l.q, g.slots, g.Ps, l.before)
  {
  }

  lemma OneFed()
    requires var g, l := OneSetup(), OneLaunch();
      Scheduled(l.q, l.lens, g.slots) && Active(l.q, 0) && Supplied(l.q, g.Ps, l.ins) && Furnished(l.q, g.slots, g.Ps, l.before)
    ensures FedAt(OneSetup(), OneCache(), OneLaunch(), 0, 0)
  {
    var g, l := OneSetup(), OneLaunch();
    ProgramFits(l.q, l.lens, g.slots, g.Ps, l.ins, l.before, 0, 0);
    hide Scheduled, Supplied, Furnished, Active, Fitting, Stores, Cell;
    assert Tokens(ProgramOf(l.q, l.lens, g.slots, g.Ps, l.ins, 0, 0), l.before) == [ONE_TOKEN];
  }

  lemma OneGiven()
    ensures Gives(OneSetup(), OneCache(), OneLaunch())
  {
    OneScheduled();
    OneSupplied();
    OneFed();
    hide Scheduled, Supplied, Furnished, Active, FedAt;
    assert GivesAt(OneCache(), OneLaunch(), 0);
  }

  lemma SomeStep(g: Setup, c: Cache, l: Launched)
    requires Inv(g, c) && Gives(g, c, l)
    ensures exists schedule, after, c' :: Step(g, c, Kernel(l.(schedule := schedule, after := after)), c')
  {
    var progs := Programs(l.q, l.lens, g.slots, g.Ps, l.ins);
    InOrderIsFair(progs);
    hide *;
    LaunchIsStep(g, c, l, InOrder(progs));
  }

  lemma OneEvent(g: Setup, c: Cache, e: Event, c': Cache)
    requires g.size > 0 && Step(g, c, e, c')
    ensures IsRun(g, [c, c'], [e])
  {
    hide Step;
  }

  /** From the start, any launch that is given its requests' tokens makes a run. */
  lemma RunOf(g: Setup, c: Cache, l: Launched)
    requires Initial(g, c) && Gives(g, c, l)
    ensures exists trace: seq<Cache>, events: seq<Event> ::
      IsRun(g, trace, events) && |events| == 1 && trace[0] == c && events[0].Kernel? && events[0].l.q == l.q && events[0].l.who == l.who
  {
    StartHolds(g, c);
    SomeStep(g, c, l);
    hide *;
    var schedule, after, c' :| Step(g, c, Kernel(l.(schedule := schedule, after := after)), c');
    var e := Kernel(l.(schedule := schedule, after := after));
    OneEvent(g, c, e, c');
    OneRun(g, c, e, c', l);
  }

  lemma StartHolds(g: Setup, c: Cache)
    requires Initial(g, c)
    ensures Inv(g, c) && g.size > 0
  {
    assert IsRun(g, [c], []);
    EveryRun(g, [c], [], 0);
  }

  lemma OneRun(g: Setup, c: Cache, e: Event, c': Cache, l: Launched)
    requires IsRun(g, [c, c'], [e]) && e.Kernel? && e.l.q == l.q && e.l.who == l.who
    ensures exists trace: seq<Cache>, events: seq<Event> ::
      IsRun(g, trace, events) && |events| == 1 && trace[0] == c && events[0].Kernel? && events[0].l.q == l.q && events[0].l.who == l.who
  {
    hide *;
    var trace, events := [c, c'], [e];
    assert IsRun(g, trace, events) && |events| == 1 && trace[0] == c && events[0] == e;
  }

  /** There is a run with a launch that serves a request. */
  lemma RunExists()
    ensures exists trace: seq<Cache>, events: seq<Event> ::
      IsRun(OneSetup(), trace, events) && Initial(OneSetup(), trace[0]) && |events| == 1 && events[0].Kernel? && events[0].l.who == [0]
  {
    OneInitial();
    OneGiven();
    hide Initial, Gives, IsRun;
    RunOf(OneSetup(), OneCache(), OneLaunch());
  }
}
