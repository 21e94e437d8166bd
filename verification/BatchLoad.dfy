/**
 `batch_load_block`: acquiring the destination buffers, loading block after block up to the first
 failure, and releasing the buffers on every path.
 */
module BatchLoad {
  import opened Basics

  /** What the file system does with one block. */
  datatype Outcome =
    | OpenFails(errno: nat)
    | ReadFails(errno: nat)
    | Short(got: seq<int>)
    | Full(block: seq<int>)

  predicate Possible(o: Outcome, size: nat) {
    match o
    case OpenFails(e) => e > 0
    case ReadFails(e) => e > 0
    case Short(got) => |got| < size
    case Full(block) => |block| == size
  }

  function ErrnoOf(o: Outcome): (e: nat) {
    match o
    case OpenFails(e) => e
    case ReadFails(e) => e
    case Short(_) => EIO
    case Full(_) => 0
  }

  datatype Result =
    | LengthMismatch
    | NotAcquired
    | Complete
    | Failed(numSucceeded: nat, errno: nat)

  /** The destination buffers of one call, and how often each one is currently held. */
  class Buffers {
    const bufs: seq<array<int>>

    /** Whether the object at this place of the list gives its buffer for writing. */
    const writable: nat -> bool

    var held: seq<nat>

    constructor (bufs: seq<array<int>>, writable: nat -> bool)
      ensures this.bufs == bufs && this.writable == writable && held == seq(|bufs|, _ => 0)
    {
      this.bufs := bufs;
      this.writable := writable;
      held := seq(|bufs|, _ => 0);
    }

    ghost predicate Valid()
      reads this
    {
      |held| == |bufs|
    }

    /** The counts with the first `n` raised by one. */
    static function Raised(held: seq<nat>, n: nat): (r: seq<nat>)
      requires n <= |held|
      ensures |r| == |held|
      ensures forall i :: 0 <= i < |held| ==> r[i] == if i < n then held[i] + 1 else held[i]
    {
      seq<nat>(|held|, i requires 0 <= i < |held| => if i < n then held[i] + 1 else held[i])
    }

    /** `extract_buffer_list`: all buffers, or none if one of them is refused. */
    method Acquire() returns (ok: bool)
      requires Valid()
      modifies this
      ensures Valid()
      ensures held == if ok then Raised(old(held), |bufs|) else old(held)
      ensures ok <==> forall i :: 0 <= i < |bufs| ==> writable(i)
    {
      for i := 0 to |bufs|
        invariant |held| == |bufs| && held == Raised(old(held), i)
        invariant forall k :: 0 <= k < i ==> writable(k)
      {
        if !writable(i) {
          for j := 0 to i
            invariant |held| == |bufs|
            invariant forall k :: 0 <= k < |held| ==>
                        held[k] == if j <= k < i then old(held)[k] + 1 else old(held)[k]
          {
            held := held[j := held[j] - 1];
          }
          return false;
        }
        held := held[i := held[i] + 1];
      }
      ok := true;
    }

    /** `release_buffer_list`. */
    method ReleaseAll(ghost before: seq<nat>)
      requires Valid() && |before| == |bufs| && held == Raised(before, |bufs|)
      modifies this
      ensures Valid() && held == before
    {
      for j := 0 to |bufs|
        invariant |held| == |bufs|
        invariant forall k :: 0 <= k < |held| ==> held[k] == if k < j then before[k] else before[k] + 1
      {
        held := held[j := held[j] - 1];
      }
    }
  }

  /** `_load_block` as seen by the batch: a short file still leaves its bytes in the buffer. */
  method LoadBlock(dst: array<int>, o: Outcome) returns (err: nat)
    requires Possible(o, dst.Length)
    modifies dst
    ensures err == ErrnoOf(o)
    ensures dst[..] == match o
      case OpenFails(_) => old(dst[..])
      case ReadFails(_) => old(dst[..])
      case Short(got) => got + old(dst[|got|..])
      case Full(block) => block
  {
    match o
    case OpenFails(e) => err := e;
    case ReadFails(e) => err := e;
    case Short(got) =>
      Fill(dst, got);
      err := EIO;
    case Full(block) =>
      Fill(dst, block);
      err := 0;
  }

  /** The read call puts `bytes` at the start of the buffer. */
  method Fill(dst: array<int>, bytes: seq<int>)
    requires |bytes| <= dst.Length
    modifies dst
    ensures dst[..] == bytes + old(dst[|bytes|..])
  {
    for i := 0 to |bytes|
      invariant forall k :: 0 <= k < i ==> dst[k] == bytes[k]
      invariant forall k :: i <= k < dst.Length ==> dst[k] == old(dst[k])
    {
      dst[i] := bytes[i];
    }
    assert dst[|bytes|..] == old(dst[|bytes|..]);
  }

  /** The last of the first `n` blocks that goes to the same buffer as block `i`. */
  function Last(bufs: seq<array<int>>, i: nat, n: nat): (j: nat)
    requires i < n <= |bufs|
    ensures i <= j < n && bufs[j] == bufs[i]
    ensures forall k :: j < k < n ==> bufs[k] != bufs[i]
  {
    if bufs[n - 1] == bufs[i] then n - 1 else Last(bufs, i, n - 1)
  }

  /** What every buffer of the list holds. */
  ghost function Contents(bufs: seq<array<int>>): (c: seq<seq<int>>)
    reads bufs
    ensures |c| == |bufs| && forall i :: 0 <= i < |bufs| ==> c[i] == bufs[i][..]
  {
    seq(|bufs|, i requires 0 <= i < |bufs| reads bufs => bufs[i][..])
  }

  /** The first `n` blocks were read in full, and each buffer not in `but` holds the last one that went to it. */
  ghost predicate Loaded(bufs: seq<array<int>>, outcomes: seq<Outcome>, n: nat, but: set<array<int>>, c: seq<seq<int>>)
    requires n <= |bufs| == |outcomes| == |c|
  {
    forall i :: 0 <= i < n ==>
      && outcomes[i].Full? && outcomes[Last(bufs, i, n)].Full?
      && (bufs[i] !in but ==> c[i] == outcomes[Last(bufs, i, n)].block)
  }

  /** Buffers that none of the first `n` blocks goes to are as they were. */
  ghost predicate Spared(bufs: seq<array<int>>, n: nat, c0: seq<seq<int>>, c: seq<seq<int>>)
    requires n <= |bufs| == |c0| == |c|
  {
    forall i :: 0 <= i < |bufs| && (forall j :: 0 <= j < n ==> bufs[j] != bufs[i]) ==> c[i] == c0[i]
  }

  /** With a buffer for every block, each of the first `n` buffers holds its own block. */
  lemma DistinctHold(bufs: seq<array<int>>, outcomes: seq<Outcome>, n: nat, but: set<array<int>>, c: seq<seq<int>>)
    requires n <= |bufs| == |outcomes| == |c| && Loaded(bufs, outcomes, n, but, c)
    requires forall i, j :: 0 <= i < j < |bufs| ==> bufs[i] != bufs[j]
    requires forall i :: 0 <= i < n ==> bufs[i] !in but
    ensures forall i :: 0 <= i < n ==> outcomes[i].Full? && c[i] == outcomes[i].block
  {
    forall i | 0 <= i < n ensures outcomes[i].Full? && c[i] == outcomes[i].block {
      assert Last(bufs, i, n) == i;
    }
  }

  /** In general a buffer holds its own block exactly when the last block loaded into it is the same. */
  lemma SharedHold(bufs: seq<array<int>>, outcomes: seq<Outcome>, n: nat, but: set<array<int>>, c: seq<seq<int>>, i: nat)
    requires n <= |bufs| == |outcomes| == |c| && Loaded(bufs, outcomes, n, but, c) && i < n && bufs[i] !in but
    ensures outcomes[i].Full? && outcomes[Last(bufs, i, n)].Full?
    ensures c[i] == outcomes[i].block <==> outcomes[Last(bufs, i, n)].block == outcomes[i].block
  {
  }

  /** One more block, of which the buffer at `n` then holds `bytes`. */
  lemma LoadedStep(bufs: seq<array<int>>, outcomes: seq<Outcome>, n: nat, c0: seq<seq<int>>, c: seq<seq<int>>, c': seq<seq<int>>)
    requires n < |bufs| == |outcomes| == |c0| == |c| == |c'|
    requires Loaded(bufs, outcomes, n, {}, c) && Spared(bufs, n, c0, c)
    requires forall k :: 0 <= k < |bufs| ==> c'[k] == if bufs[k] == bufs[n] then c'[n] else c[k]
    ensures Spared(bufs, n + 1, c0, c')
    ensures Loaded(bufs, outcomes, n, {bufs[n]}, c')
    ensures outcomes[n].Full? && c'[n] == outcomes[n].block ==> Loaded(bufs, outcomes, n + 1, {}, c')
  {
    SparedStep(bufs, n, c0, c, c');
    OtherBuffers(bufs, outcomes, n, c, c');
    if outcomes[n].Full? && c'[n] == outcomes[n].block {
      LoadedMore(bufs, outcomes, n, n + 1, c, c');
    }
  }

  /** Buffer `i` holds the last of the first `n` blocks that went to it. */
  ghost predicate HoldsLast(bufs: seq<array<int>>, outcomes: seq<Outcome>, n: nat, c: seq<seq<int>>, i: nat)
    requires i < n <= |bufs| == |outcomes| == |c|
  {
    outcomes[i].Full? && outcomes[Last(bufs, i, n)].Full? && c[i] == outcomes[Last(bufs, i, n)].block
  }

  lemma LoadedMore(bufs: seq<array<int>>, outcomes: seq<Outcome>, n: nat, m: nat, c: seq<seq<int>>, c': seq<seq<int>>)
    requires m == n + 1 <= |bufs| == |outcomes| == |c| == |c'| && Loaded(bufs, outcomes, n, {}, c)
    requires forall k :: 0 <= k < |bufs| ==> c'[k] == if bufs[k] == bufs[n] then c'[n] else c[k]
    requires outcomes[n].Full? && c'[n] == outcomes[n].block
    ensures Loaded(bufs, outcomes, m, {}, c')
  {
    forall i | 0 <= i < m ensures HoldsLast(bufs, outcomes, m, c', i) {
      LastStep(bufs, i, n);
      assert i < n && bufs[i] != bufs[n] ==> c'[i] == c[i] && c[i] == outcomes[Last(bufs, i, n)].block;
    }
  }

  lemma LastStep(bufs: seq<array<int>>, i: nat, n: nat)
    requires i <= n < |bufs|
    ensures Last(bufs, i, n + 1) == if bufs[n] == bufs[i] then n else Last(bufs, i, n)
  {
  }

  lemma SparedStep(bufs: seq<array<int>>, n: nat, c0: seq<seq<int>>, c: seq<seq<int>>, c': seq<seq<int>>)
    requires n < |bufs| == |c0| == |c| == |c'| && Spared(bufs, n, c0, c)
    requires forall k :: 0 <= k < |bufs| ==> c'[k] == if bufs[k] == bufs[n] then c'[n] else c[k]
    ensures Spared(bufs, n + 1, c0, c')
  {
  }

  lemma OtherBuffers(bufs: seq<array<int>>, outcomes: seq<Outcome>, n: nat, c: seq<seq<int>>, c': seq<seq<int>>)
    requires n < |bufs| == |outcomes| == |c| == |c'| && Loaded(bufs, outcomes, n, {}, c)
    requires forall k :: 0 <= k < |bufs| ==> c'[k] == if bufs[k] == bufs[n] then c'[n] else c[k]
    ensures Loaded(bufs, outcomes, n, {bufs[n]}, c')
  {
  }

  /**
   The reported count is exactly the length of the prefix of blocks that were read in full, each
   buffer holds the last one that went to it, buffers that no attempted block goes to are untouched,
   and every acquired buffer has been released. A buffer may be named any number of times.
   */
  method Load(b: Buffers, outcomes: seq<Outcome>) returns (r: Result)
    requires b.Valid()
    requires |outcomes| == |b.bufs| ==> forall i :: 0 <= i < |b.bufs| ==> Possible(outcomes[i], b.bufs[i].Length)
    modifies b, b.bufs
    ensures b.Valid() && b.held == old(b.held)
    ensures r.LengthMismatch? <==> |outcomes| != |b.bufs|
    ensures r.NotAcquired? <==> |outcomes| == |b.bufs| && exists i :: 0 <= i < |b.bufs| && !b.writable(i)
    ensures r.LengthMismatch? || r.NotAcquired? ==> Contents(b.bufs) == old(Contents(b.bufs))
    ensures r.Complete? ==> Loaded(b.bufs, outcomes, |b.bufs|, {}, Contents(b.bufs))
    ensures r.Failed? ==>
              r.numSucceeded < |b.bufs| && !outcomes[r.numSucceeded].Full? && r.errno == ErrnoOf(outcomes[r.numSucceeded]) > 0
    ensures r.Failed? ==>
              Loaded(b.bufs, outcomes, r.numSucceeded,
                     if outcomes[r.numSucceeded].Short? then {b.bufs[r.numSucceeded]} else {}, Contents(b.bufs))
    ensures r.Failed? ==> Spared(b.bufs, r.numSucceeded + 1, old(Contents(b.bufs)), Contents(b.bufs))
  {
    if |outcomes| != |b.bufs| {
      return LengthMismatch;
    }
    var ok := b.Acquire();
    if !ok {
      return NotAcquired;
    }
    var failedIndex, failureErrno := LoadAll(b.bufs, outcomes);
    hide Loaded, Spared;
    b.ReleaseAll(old(b.held));
    if failedIndex >= 0 {
      return Failed(failedIndex, failureErrno);
    }
    return Complete;
  }

  /** The loop: block after block up to the first failure. */
  method LoadAll(bufs: seq<array<int>>, outcomes: seq<Outcome>) returns (failedIndex: int, failureErrno: nat)
    requires |outcomes| == |bufs| && forall i :: 0 <= i < |bufs| ==> Possible(outcomes[i], bufs[i].Length)
    modifies bufs
    ensures -1 <= failedIndex < |bufs|
    ensures failedIndex == -1 ==> Loaded(bufs, outcomes, |bufs|, {}, Contents(bufs))
    ensures failedIndex >= 0 ==> !outcomes[failedIndex].Full? && failureErrno == ErrnoOf(outcomes[failedIndex]) > 0
    ensures failedIndex >= 0 ==>
              Loaded(bufs, outcomes, failedIndex, if outcomes[failedIndex].Short? then {bufs[failedIndex]} else {}, Contents(bufs))
    ensures failedIndex >= 0 ==> Spared(bufs, failedIndex + 1, old(Contents(bufs)), Contents(bufs))
  {
    hide Loaded, Spared;
    failedIndex, failureErrno := -1, 0;
    NoneLoaded(bufs, outcomes, Contents(bufs));
    for i := 0 to |bufs|
      invariant Loaded(bufs, outcomes, i, {}, Contents(bufs))
      invariant Spared(bufs, i, old(Contents(bufs)), Contents(bufs))
    {
      ghost var before := Contents(bufs);
      var err := LoadBlock(bufs[i], outcomes[i]);
      LoadedStep(bufs, outcomes, i, old(Contents(bufs)), before, Contents(bufs));
      if err != 0 {
        assert !outcomes[i].Short? ==> Contents(bufs) == before;
        return i, err;
      }
    }
  }

  lemma NoneLoaded(bufs: seq<array<int>>, outcomes: seq<Outcome>, c: seq<seq<int>>)
    requires |bufs| == |outcomes| == |c|
    ensures Loaded(bufs, outcomes, 0, {}, c) && Spared(bufs, 0, c, c)
  {
  }
}
