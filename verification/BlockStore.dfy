/**
 Storing and loading blocks as files: the single steps of `_store_block` and `_load_block`, taken
 by any number of threads in any order, with failing calls and crashes.

 Names lead to inodes, and an open file keeps its inode whatever happens to its name. `open` with
 `O_EXCL` and `rename` are atomic, as section 3 of the System Interfaces volume of IEEE Std
 1003.1-2017 requires.
 */
module BlockStore {
  import opened Basics

  type Path = string
  type Inode = nat
  type Bytes = seq<int>

  datatype Files = Files(names: map<Path, Inode>, data: map<Inode, Bytes>)

  datatype StorePc =
    | CheckDest
    | MakeDirs
    | OpenTmp
    | Writing(file: Inode)
    | Closing(file: Inode)
    | Renaming(file: Inode)
    | Unlinking(file: Inode, err: nat)

  datatype LoadPc =
    | OpenSource
    | Reading(file: Inode)
    | UnlinkShort

  datatype Thread =
    | Idle
    | Storing(tmp: Path, dest: Path, src: Bytes, spc: StorePc)
    | Loading(path: Path, lpc: LoadPc)
    | Stored(dest: Path, err: nat)
    | Loaded(path: Path, err: nat, bytes: Bytes)

  /** `offered` records every buffer that was ever passed to a store for a path. */
  datatype System = System(files: Files, threads: seq<Thread>, offered: set<(Path, Bytes)>)

  /** What happens next: one thread takes a step, or the process crashes. */
  datatype Event =
    | BeginStore(t: nat, tmp: Path, dest: Path, src: Bytes)
    | BeginLoad(t: nat, path: Path)
    | Proceed(t: nat)
    | Fail(t: nat, errno: nat)       // the system call of this step fails
    | WriteSome(t: nat, count: nat)  // part of the write reaches the file
    | ShortWrite(t: nat)             // the write call returns early
    | ShortRead(t: nat)              // the read call returns early, whatever the length of the file
    | Crash

  /** The paths that hold blocks, and the length of every block. */
  datatype Config = Config(dests: set<Path>, size: nat)

  predicate Owner(th: Thread) {
    th.Storing? && (th.spc.Writing? || th.spc.Closing? || th.spc.Renaming? || th.spc.Unlinking?)
  }

  function FreshInode(data: map<Inode, Bytes>): (i: Inode)
    ensures i !in data
  {
    Above(data.Keys)
  }

  /** One step of `_store_block`. */
  function StoreStep(f: Files, th: Thread): (r: (Files, Thread))
    requires th.Storing?
  {
    match th.spc
    case CheckDest =>
      if th.dest in f.names then (f, Stored(th.dest, 0)) else (f, th.(spc := MakeDirs))
    case MakeDirs => (f, th.(spc := OpenTmp))
    case OpenTmp =>
      if th.tmp in f.names then (f, Stored(th.dest, 17))
      else
        var i := FreshInode(f.data);
        (Files(f.names[th.tmp := i], f.data[i := []]), th.(spc := Writing(i)))
    case Writing(i) => (f.(data := f.data[i := th.src]), th.(spc := Closing(i)))
    case Closing(i) => (f, th.(spc := Renaming(i)))
    case Renaming(i) =>
      if th.tmp in f.names
      then (f.(names := (f.names - {th.tmp})[th.dest := f.names[th.tmp]]), Stored(th.dest, 0))
      else (f, th.(spc := Unlinking(i, 2)))
    case Unlinking(_, err) => (f.(names := f.names - {th.tmp}), Stored(th.dest, err))
  }

  /** A failing call in `_store_block`: before the file is opened it ends the store, later it cleans up. */
  function StoreFail(f: Files, th: Thread, errno: nat): (r: (Files, Thread))
    requires th.Storing? && errno > 0
  {
    match th.spc
    case CheckDest => (f, th.(spc := MakeDirs))
    case MakeDirs => (f, Stored(th.dest, errno))
    case OpenTmp => (f, Stored(th.dest, errno))
    case Writing(i) => (f, th.(spc := Unlinking(i, errno)))
    case Closing(i) => (f, th.(spc := Unlinking(i, errno)))
    case Renaming(i) => (f, th.(spc := Unlinking(i, errno)))
    case Unlinking(_, err) => (f, Stored(th.dest, err))
  }

  /** One step of `_load_block`: a file that is too short is unlinked by name. */
  function LoadStep(c: Config, f: Files, th: Thread): (r: (Files, Thread))
    requires th.Loading?
  {
    match th.lpc
    case OpenSource =>
      if th.path in f.names then (f, th.(lpc := Reading(f.names[th.path]))) else (f, Loaded(th.path, 2, []))
    case Reading(i) =>
      if i in f.data && |f.data[i]| >= c.size then (f, Loaded(th.path, 0, f.data[i][..c.size]))
      else (f, th.(lpc := UnlinkShort))
    case UnlinkShort => (f.(names := f.names - {th.path}), Loaded(th.path, EIO, []))
  }

  function LoadFail(f: Files, th: Thread, errno: nat): (r: (Files, Thread))
    requires th.Loading? && errno > 0
  {
    match th.lpc
    case OpenSource => (f, Loaded(th.path, errno, []))
    case Reading(_) => (f, Loaded(th.path, errno, []))
    case UnlinkShort => (f, Loaded(th.path, EIO, []))
  }

  predicate Enabled(c: Config, s: System, e: Event) {
    match e
    case BeginStore(t, tmp, dest, src) =>
      t < |s.threads| && !s.threads[t].Storing? && !s.threads[t].Loading?
      && dest in c.dests && tmp !in c.dests && |src| == c.size
    case BeginLoad(t, path) =>
      t < |s.threads| && !s.threads[t].Storing? && !s.threads[t].Loading? && path in c.dests
    case Proceed(t) => t < |s.threads| && (s.threads[t].Storing? || s.threads[t].Loading?)
    case Fail(t, errno) => t < |s.threads| && errno > 0 && (s.threads[t].Storing? || s.threads[t].Loading?)
    case WriteSome(t, count) =>
      t < |s.threads| && s.threads[t].Storing? && s.threads[t].spc.Writing? && count <= |s.threads[t].src|
    case ShortWrite(t) => t < |s.threads| && s.threads[t].Storing? && s.threads[t].spc.Writing?
    case ShortRead(t) => t < |s.threads| && s.threads[t].Loading? && s.threads[t].lpc.Reading?
    case Crash => true
  }

  function Put(s: System, t: nat, r: (Files, Thread)): (s': System)
    requires t < |s.threads|
  {
    s.(files := r.0, threads := s.threads[t := r.1])
  }

  function Next(c: Config, s: System, e: Event): (s': System)
    requires Enabled(c, s, e)
  {
    match e
    case BeginStore(t, tmp, dest, src) =>
      s.(threads := s.threads[t := Storing(tmp, dest, src, CheckDest)], offered := s.offered + {(dest, src)})
    case BeginLoad(t, path) => s.(threads := s.threads[t := Loading(path, OpenSource)])
    case Proceed(t) =>
      Put(s, t, if s.threads[t].Storing? then StoreStep(s.files, s.threads[t]) else LoadStep(c, s.files, s.threads[t]))
    case Fail(t, errno) =>
      Put(s, t, if s.threads[t].Storing? then StoreFail(s.files, s.threads[t], errno)
                else LoadFail(s.files, s.threads[t], errno))
    case WriteSome(t, count) =>
      var th := s.threads[t];
      s.(files := s.files.(data := s.files.data[th.spc.file := th.src[..count]]))
    case ShortWrite(t) =>
      var th := s.threads[t];
      s.(threads := s.threads[t := th.(spc := Unlinking(th.spc.file, EIO))])
    case ShortRead(t) => s.(threads := s.threads[t := s.threads[t].(lpc := UnlinkShort)])
    case Crash => s.(threads := seq(|s.threads|, _ => Idle))
  }

  // ----- the invariant -----

  /** The file holds one complete buffer that was offered for the path. */
  ghost predicate Complete(c: Config, s: System, p: Path, i: Inode) {
    i in s.files.data && |s.files.data[i]| == c.size && (p, s.files.data[i]) in s.offered
  }

  ghost predicate NamesSound(s: System) {
    && (forall p :: p in s.files.names ==> s.files.names[p] in s.files.data)
    && (forall p, q :: p in s.files.names && q in s.files.names && p != q ==> s.files.names[p] != s.files.names[q])
  }

  /** What a thread in the middle of a call relies on. */
  ghost predicate ThreadSound(c: Config, s: System, th: Thread) {
    match th
    case Idle => true
    case Storing(tmp, dest, src, pc) =>
      && dest in c.dests && tmp !in c.dests && |src| == c.size && (dest, src) in s.offered
      && (Owner(th) ==>
            && tmp in s.files.names && s.files.names[tmp] == pc.file
            && pc.file in s.files.data
            && (pc.Closing? || pc.Renaming? ==> s.files.data[pc.file] == src)
            && (pc.Unlinking? ==> pc.err > 0))
    case Loading(path, pc) =>
      path in c.dests && (pc.Reading? ==> Complete(c, s, path, pc.file))
    case Stored(dest, _) => dest in c.dests
    case Loaded(path, err, bytes) => err == 0 ==> |bytes| == c.size && (path, bytes) in s.offered
  }

  /** Two writers never share a temporary file, and no writer's file is being read. */
  ghost predicate Exclusive(th: Thread, th': Thread) {
    && (Owner(th) && Owner(th') ==> th.tmp != th'.tmp)
    && (Owner(th) && th'.Loading? && th'.lpc.Reading? ==> th.spc.file != th'.lpc.file)
  }

  ghost predicate Inv(c: Config, s: System) {
    && NamesSound(s)
    && DestsSound(c, s)
    && (forall t :: 0 <= t < |s.threads| ==> ThreadSound(c, s, s.threads[t]))
    && (forall t, u :: 0 <= t < |s.threads| && 0 <= u < |s.threads| && t != u ==> Exclusive(s.threads[t], s.threads[u]))
  }

  ghost predicate DestsSound(c: Config, s: System) {
    forall p :: p in c.dests && p in s.files.names ==> Complete(c, s, p, s.files.names[p])
  }

  /** What an event may change for the threads that do not take part in it. */
  ghost predicate Harmless(c: Config, s: System, s': System, th: Thread) {
    && s.offered <= s'.offered
    && (Owner(th) && th.tmp in s.files.names ==> th.tmp in s'.files.names && s'.files.names[th.tmp] == s.files.names[th.tmp])
    && (Owner(th) && th.spc.file in s.files.data ==> th.spc.file in s'.files.data && s'.files.data[th.spc.file] == s.files.data[th.spc.file])
    && (th.Loading? && th.lpc.Reading? && th.lpc.file in s.files.data ==>
          th.lpc.file in s'.files.data && s'.files.data[th.lpc.file] == s.files.data[th.lpc.file])
  }

  lemma HarmlessKeeps(c: Config, s: System, s': System, th: Thread)
    requires ThreadSound(c, s, th) && Harmless(c, s, s', th)
    ensures ThreadSound(c, s', th)
  {
  }

  /** An event of thread `t` that keeps the parts of the invariant keeps all of it. */
  lemma Assemble(c: Config, s: System, s': System, t: nat)
    requires Inv(c, s) && t < |s.threads| == |s'.threads|
    requires forall u :: 0 <= u < |s.threads| && u != t ==> s'.threads[u] == s.threads[u] && Harmless(c, s, s', s.threads[u])
    requires NamesSound(s') && DestsSound(c, s') && ThreadSound(c, s', s'.threads[t])
    requires forall u :: 0 <= u < |s.threads| && u != t ==>
               Exclusive(s'.threads[t], s.threads[u]) && Exclusive(s.threads[u], s'.threads[t])
    ensures Inv(c, s')
  {
    hide Harmless, NamesSound, Complete;
    forall u | 0 <= u < |s'.threads| ensures ThreadSound(c, s', s'.threads[u]) {
      if u != t { HarmlessKeeps(c, s, s', s.threads[u]); }
    }
    hide ThreadSound;
    forall u, v | 0 <= u < |s'.threads| && 0 <= v < |s'.threads| && u != v
      ensures Exclusive(s'.threads[u], s'.threads[v])
    {
      if u != t && v != t { assert Exclusive(s.threads[u], s.threads[v]); }
    }
  }

  /** Steps that leave all files alone, and open nothing. */
  lemma QuietKeeps(c: Config, s: System, s': System, t: nat)
    requires Inv(c, s) && t < |s.threads| && s'.files == s.files && s.offered <= s'.offered
    requires |s'.threads| == |s.threads| && s'.threads == s.threads[t := s'.threads[t]]
    requires ThreadSound(c, s', s'.threads[t])
    requires Owner(s'.threads[t]) ==> Owner(s.threads[t]) && s'.threads[t].tmp == s.threads[t].tmp
                                      && s'.threads[t].spc.file == s.threads[t].spc.file
    requires !(s'.threads[t].Loading? && s'.threads[t].lpc.Reading?)
    ensures Inv(c, s')
  {
    forall u | 0 <= u < |s.threads| && u != t
      ensures Exclusive(s'.threads[t], s.threads[u]) && Exclusive(s.threads[u], s'.threads[t])
    {
      assert Exclusive(s.threads[t], s.threads[u]) && Exclusive(s.threads[u], s.threads[t]);
    }
    hide ThreadSound;
    Assemble(c, s, s', t);
  }

  /** Opening the temporary file. */
  lemma OpenKeeps(c: Config, s: System, t: nat)
    requires Inv(c, s) && t < |s.threads| && s.threads[t].Storing? && s.threads[t].spc.OpenTmp?
    requires s.threads[t].tmp !in s.files.names
    ensures Inv(c, Put(s, t, StoreStep(s.files, s.threads[t])))
  {
    var s' := Put(s, t, StoreStep(s.files, s.threads[t]));
    var th := s.threads[t];
    assert ThreadSound(c, s, th);
    forall u | 0 <= u < |s.threads| && u != t
      ensures Harmless(c, s, s', s.threads[u])
      ensures Exclusive(s'.threads[t], s.threads[u]) && Exclusive(s.threads[u], s'.threads[t])
    {
      assert ThreadSound(c, s, s.threads[u]);
    }
    Assemble(c, s, s', t);
  }

  /** Writing to the temporary file. */
  lemma WriteKeeps(c: Config, s: System, t: nat, bytes: Bytes, pc: StorePc)
    requires Inv(c, s) && t < |s.threads| && s.threads[t].Storing? && s.threads[t].spc.Writing?
    requires pc == Writing(s.threads[t].spc.file) || (pc == Closing(s.threads[t].spc.file) && bytes == s.threads[t].src)
    ensures var th := s.threads[t];
      Inv(c, Put(s, t, (s.files.(data := s.files.data[th.spc.file := bytes]), th.(spc := pc))))
  {
    var th := s.threads[t];
    var s' := Put(s, t, (s.files.(data := s.files.data[th.spc.file := bytes]), th.(spc := pc)));
    assert ThreadSound(c, s, th);
    forall u | 0 <= u < |s.threads| && u != t
      ensures Harmless(c, s, s', s.threads[u])
      ensures Exclusive(s'.threads[t], s.threads[u]) && Exclusive(s.threads[u], s'.threads[t])
    {
      assert ThreadSound(c, s, s.threads[u]);
      assert Exclusive(th, s.threads[u]) && Exclusive(s.threads[u], th);
    }
    forall p | p in c.dests && p in s'.files.names ensures Complete(c, s', p, s'.files.names[p]) {
      assert Complete(c, s, p, s.files.names[p]);
    }
    Assemble(c, s, s', t);
  }

  /** The rename: the complete file appears under the destination in one step. */
  lemma RenameKeeps(c: Config, s: System, t: nat)
    requires Inv(c, s) && t < |s.threads| && s.threads[t].Storing? && s.threads[t].spc.Renaming?
    ensures Inv(c, Put(s, t, StoreStep(s.files, s.threads[t])))
  {
    var th := s.threads[t];
    var s' := Put(s, t, StoreStep(s.files, s.threads[t]));
    assert ThreadSound(c, s, th);
    forall u | 0 <= u < |s.threads| && u != t
      ensures Harmless(c, s, s', s.threads[u])
      ensures Exclusive(s'.threads[t], s.threads[u]) && Exclusive(s.threads[u], s'.threads[t])
    {
      assert ThreadSound(c, s, s.threads[u]);
      assert Exclusive(th, s.threads[u]) && Exclusive(s.threads[u], th);
    }
    forall p | p in c.dests && p in s'.files.names ensures Complete(c, s', p, s'.files.names[p]) {
      if p != th.dest { assert Complete(c, s, p, s.files.names[p]); }
    }
    Assemble(c, s, s', t);
  }

  lemma UnlinkKeeps(c: Config, s: System, t: nat)
    requires Inv(c, s) && t < |s.threads| && s.threads[t].Storing? && s.threads[t].spc.Unlinking?
    ensures Inv(c, Put(s, t, StoreStep(s.files, s.threads[t])))
  {
    var th := s.threads[t];
    var s' := Put(s, t, StoreStep(s.files, s.threads[t]));
    assert ThreadSound(c, s, th);
    forall u | 0 <= u < |s.threads| && u != t
      ensures Harmless(c, s, s', s.threads[u])
      ensures Exclusive(s'.threads[t], s.threads[u]) && Exclusive(s.threads[u], s'.threads[t])
    {
      assert ThreadSound(c, s, s.threads[u]);
      assert Exclusive(th, s.threads[u]) && Exclusive(s.threads[u], th);
    }
    forall p | p in c.dests && p in s'.files.names ensures Complete(c, s', p, s'.files.names[p]) {
      assert Complete(c, s, p, s.files.names[p]);
    }
    Assemble(c, s, s', t);
  }

  /** Opening a block for reading. */
  lemma ReadOpenKeeps(c: Config, s: System, t: nat)
    requires Inv(c, s) && t < |s.threads| && s.threads[t].Loading? && s.threads[t].lpc.OpenSource?
    ensures Inv(c, Put(s, t, LoadStep(c, s.files, s.threads[t])))
  {
    var th := s.threads[t];
    var s' := Put(s, t, LoadStep(c, s.files, s.threads[t]));
    assert ThreadSound(c, s, th);
    forall u | 0 <= u < |s.threads| && u != t
      ensures Harmless(c, s, s', s.threads[u])
      ensures Exclusive(s'.threads[t], s.threads[u]) && Exclusive(s.threads[u], s'.threads[t])
    {
      assert ThreadSound(c, s, s.threads[u]);
    }
    Assemble(c, s, s', t);
  }

  /** A load that got too few bytes unlinks the block by name. */
  lemma UnlinkBlockKeeps(c: Config, s: System, t: nat)
    requires Inv(c, s) && t < |s.threads| && s.threads[t].Loading? && s.threads[t].lpc.UnlinkShort?
    ensures Inv(c, Put(s, t, LoadStep(c, s.files, s.threads[t])))
  {
    var th := s.threads[t];
    var s' := Put(s, t, LoadStep(c, s.files, s.threads[t]));
    assert ThreadSound(c, s, th);
    forall u | 0 <= u < |s.threads| && u != t
      ensures Harmless(c, s, s', s.threads[u])
      ensures Exclusive(s'.threads[t], s.threads[u]) && Exclusive(s.threads[u], s'.threads[t])
    {
      assert ThreadSound(c, s, s.threads[u]);
    }
    forall p | p in c.dests && p in s'.files.names ensures Complete(c, s', p, s'.files.names[p]) {
      assert Complete(c, s, p, s.files.names[p]);
    }
    Assemble(c, s, s', t);
  }

  lemma StoreKeeps(c: Config, s: System, t: nat)
    requires Inv(c, s) && t < |s.threads| && s.threads[t].Storing?
    ensures Inv(c, Put(s, t, StoreStep(s.files, s.threads[t])))
  {
    var th := s.threads[t];
    assert ThreadSound(c, s, th);
    match th.spc
    case CheckDest => QuietKeeps(c, s, Put(s, t, StoreStep(s.files, th)), t);
    case MakeDirs => QuietKeeps(c, s, Put(s, t, StoreStep(s.files, th)), t);
    case OpenTmp =>
      if th.tmp in s.files.names {
        QuietKeeps(c, s, Put(s, t, StoreStep(s.files, th)), t);
      } else {
        OpenKeeps(c, s, t);
      }
    case Writing(i) => WriteKeeps(c, s, t, th.src, Closing(i));
    case Closing(_) => QuietKeeps(c, s, Put(s, t, StoreStep(s.files, th)), t);
    case Renaming(_) => RenameKeeps(c, s, t);
    case Unlinking(_, _) => UnlinkKeeps(c, s, t);
  }

  lemma LoadKeeps(c: Config, s: System, t: nat)
    requires Inv(c, s) && t < |s.threads| && s.threads[t].Loading?
    ensures Inv(c, Put(s, t, LoadStep(c, s.files, s.threads[t])))
  {
    var th := s.threads[t];
    assert ThreadSound(c, s, th);
    if th.lpc.OpenSource? {
      ReadOpenKeeps(c, s, t);
    } else if th.lpc.UnlinkShort? {
      UnlinkBlockKeeps(c, s, t);
    } else {
      assert s.files.data[th.lpc.file][..c.size] == s.files.data[th.lpc.file];
      QuietKeeps(c, s, Put(s, t, LoadStep(c, s.files, th)), t);
    }
  }

  /** Every event keeps the invariant. */
  lemma EventKeeps(c: Config, s: System, e: Event)
    requires Inv(c, s) && Enabled(c, s, e)
    ensures Inv(c, Next(c, s, e))
  {
    match e
    case BeginStore(t, tmp, dest, src) =>
      assert ThreadSound(c, s, s.threads[t]);
      QuietKeeps(c, s, Next(c, s, e), t);
    case BeginLoad(t, path) => QuietKeeps(c, s, Next(c, s, e), t);
    case Proceed(t) => if s.threads[t].Storing? { StoreKeeps(c, s, t); } else { LoadKeeps(c, s, t); }
    case Fail(t, errno) =>
      assert ThreadSound(c, s, s.threads[t]);
      QuietKeeps(c, s, Next(c, s, e), t);
    case WriteSome(t, count) =>
      WriteKeeps(c, s, t, s.threads[t].src[..count], s.threads[t].spc);
      assert s.threads[t := s.threads[t]] == s.threads;
    case ShortWrite(t) =>
      assert ThreadSound(c, s, s.threads[t]);
      QuietKeeps(c, s, Next(c, s, e), t);
    case ShortRead(t) =>
      assert ThreadSound(c, s, s.threads[t]);
      QuietKeeps(c, s, Next(c, s, e), t);
    case Crash =>
  }

  // ----- whole runs -----

  /** Nothing is going on, and every block that exists has full length. */
  ghost predicate Init(c: Config, s: System) {
    && NamesSound(s) && DestsSound(c, s)
    && forall t :: 0 <= t < |s.threads| ==> s.threads[t].Idle?
  }

  ghost predicate IsRun(c: Config, trace: seq<System>, events: seq<Event>) {
    && |trace| == |events| + 1
    && forall k :: 0 <= k < |events| ==> Enabled(c, trace[k], events[k]) && trace[k + 1] == Next(c, trace[k], events[k])
  }

  lemma {:induction false} RunKeeps(c: Config, trace: seq<System>, events: seq<Event>, k: nat)
    requires IsRun(c, trace, events) && Init(c, trace[0]) && k < |trace|
    ensures Inv(c, trace[k])
  {
    if k > 0 {
      RunKeeps(c, trace, events, k - 1);
      assert trace[k - 1 + 1] == Next(c, trace[k - 1], events[k - 1]);
      EventKeeps(c, trace[k - 1], events[k - 1]);
    }
  }

  /**
   In every run, early reads included: a destination that exists holds one store's complete buffer,
   and a load that succeeded got one store's complete buffer.
   */
  lemma EveryRunIsSafe(c: Config, trace: seq<System>, events: seq<Event>, k: nat)
    requires IsRun(c, trace, events) && Init(c, trace[0]) && k < |trace|
    ensures forall p :: p in c.dests && p in trace[k].files.names ==> Complete(c, trace[k], p, trace[k].files.names[p])
    ensures forall t :: 0 <= t < |trace[k].threads| ==>
              var th := trace[k].threads[t];
              th.Loaded? && th.err == 0 ==> |th.bytes| == c.size && (th.path, th.bytes) in trace[k].offered
  {
    RunKeeps(c, trace, events, k);
    forall t | 0 <= t < |trace[k].threads|
      ensures ThreadSound(c, trace[k], trace[k].threads[t])
    {
    }
  }

  // ----- whether blocks stay -----

  /** No load is about to unlink a block, a load in progress has its block in place, and what was stored is there. */
  ghost predicate Steady(s: System) {
    forall t :: 0 <= t < |s.threads| ==> Settled(s, s.threads[t])
  }

  ghost predicate Settled(s: System, th: Thread) {
    && (th.Loading? ==> !th.lpc.UnlinkShort? && (th.lpc.Reading? ==> th.path in s.files.names))
    && (th.Stored? && th.err == 0 ==> th.dest in s.files.names)
  }

  predicate NoShortRead(events: seq<Event>, n: nat)
    requires n <= |events|
  {
    forall i :: 0 <= i < n ==> !events[i].ShortRead?
  }

  lemma SteadyStep(c: Config, s: System, e: Event)
    requires Inv(c, s) && Steady(s) && Enabled(c, s, e) && !e.ShortRead?
    ensures Steady(Next(c, s, e))
    ensures forall p :: p in c.dests && p in s.files.names ==> p in Next(c, s, e).files.names
  {
    var s' := Next(c, s, e);
    if !e.Crash? {
      assert ThreadSound(c, s, s.threads[e.t]) && Settled(s, s.threads[e.t]);
      hide Inv, DestsSound, NamesSound;
      forall u | 0 <= u < |s'.threads| ensures Settled(s', s'.threads[u]) {
        if u != e.t { OthersSettled(c, s, s', s.threads[u]); }
      }
    }
  }

  lemma OthersSettled(c: Config, s: System, s': System, th: Thread)
    requires ThreadSound(c, s, th) && Settled(s, th)
    requires forall p :: p in c.dests && p in s.files.names ==> p in s'.files.names
    ensures Settled(s', th)
  {
  }

  lemma {:induction false} RunSteady(c: Config, trace: seq<System>, events: seq<Event>, k: nat)
    requires IsRun(c, trace, events) && Init(c, trace[0]) && k < |trace| && NoShortRead(events, k)
    ensures Steady(trace[k])
  {
    if k > 0 {
      RunSteady(c, trace, events, k - 1);
      RunKeeps(c, trace, events, k - 1);
      hide Inv, Next, Init, Enabled, Steady;
      assert trace[k - 1 + 1] == Next(c, trace[k - 1], events[k - 1]);
      SteadyStep(c, trace[k - 1], events[k - 1]);
    }
  }

  /** As long as no read returns early, a block that is there stays, whatever stores, loads, failures and crashes follow. */
  lemma {:induction false} BlocksStay(c: Config, trace: seq<System>, events: seq<Event>, p: Path, j: nat, k: nat)
    requires IsRun(c, trace, events) && Init(c, trace[0]) && j <= k < |trace| && NoShortRead(events, k)
    requires p in c.dests && p in trace[j].files.names
    ensures p in trace[k].files.names
    ensures forall t :: 0 <= t < |trace[k].threads| ==> Settled(trace[k], trace[k].threads[t])
  {
    RunSteady(c, trace, events, k);
    if j < k {
      BlocksStay(c, trace, events, p, j, k - 1);
      RunKeeps(c, trace, events, k - 1);
      hide Inv, Next, Init, Enabled;
      assert trace[k - 1 + 1] == Next(c, trace[k - 1], events[k - 1]);
      SteadyStep(c, trace[k - 1], events[k - 1]);
    }
  }

  // ----- the first block stays -----

  /** No store for the path has got past its check. */
  ghost predicate NoWriter(s: System, p: Path) {
    forall t :: 0 <= t < |s.threads| ==> AtCheck(s.threads[t], p)
  }

  predicate AtCheck(th: Thread, p: Path) { th.Storing? && th.dest == p ==> th.spc.CheckDest? }

  /** The system call by which a store looks for its destination fails. */
  predicate CheckFails(s: System, e: Event, p: Path) {
    e.Fail? && e.t < |s.threads| && s.threads[e.t].Storing? && s.threads[e.t].dest == p && s.threads[e.t].spc.CheckDest?
  }

  ghost predicate SameBlock(s: System, s': System, p: Path) {
    && p in s.files.names && s.files.names[p] in s.files.data
    && p in s'.files.names && s'.files.names[p] == s.files.names[p] && s.files.names[p] in s'.files.data
    && s'.files.data[s.files.names[p]] == s.files.data[s.files.names[p]]
  }

  lemma BlockStep(c: Config, s: System, e: Event, p: Path)
    requires Inv(c, s) && Steady(s) && Enabled(c, s, e) && !e.ShortRead? && !CheckFails(s, e, p)
    requires p in c.dests && p in s.files.names && NoWriter(s, p)
    ensures NoWriter(Next(c, s, e), p) && SameBlock(s, Next(c, s, e), p)
  {
    var s' := Next(c, s, e);
    if !e.Crash? {
      assert ThreadSound(c, s, s.threads[e.t]) && Settled(s, s.threads[e.t]) && AtCheck(s.threads[e.t], p);
      hide Inv, DestsSound, Steady, Complete;
      forall u | 0 <= u < |s'.threads| ensures AtCheck(s'.threads[u], p) {
        if u != e.t { assert s'.threads[u] == s.threads[u] && AtCheck(s.threads[u], p); }
      }
    }
  }

  /** No existence check of the path fails from event `j` up to event `k`. */
  predicate ChecksSucceed(trace: seq<System>, events: seq<Event>, p: Path, j: nat, k: nat)
    requires k <= |events| <= |trace|
  {
    forall i :: j <= i < k ==> !CheckFails(trace[i], events[i], p)
  }

  /**
   The first block stays: once a destination exists and no store for it is past its check, every later
   store finds it, reports success and changes no file, so its contents stay the same.
   */
  lemma {:induction false} FirstBlockStays(c: Config, trace: seq<System>, events: seq<Event>, p: Path, j: nat, k: nat)
    requires IsRun(c, trace, events) && Init(c, trace[0]) && j <= k < |trace| && NoShortRead(events, k)
    requires p in c.dests && p in trace[j].files.names && NoWriter(trace[j], p) && ChecksSucceed(trace, events, p, j, k)
    ensures SameBlock(trace[j], trace[k], p) && NoWriter(trace[k], p)
    ensures forall t :: 0 <= t < |trace[k].threads| && trace[k].threads[t].Storing? && trace[k].threads[t].dest == p ==>
              Next(c, trace[k], Proceed(t)) == trace[k].(threads := trace[k].threads[t := Stored(p, 0)])
  {
    RunKeeps(c, trace, events, k);
    if j == k {
      assert SameBlock(trace[j], trace[j], p);
    } else {
      EventAt(c, trace, events, p, j, k - 1);
      hide *;
      FirstBlockStays(c, trace, events, p, j, k - 1);
      RunKeeps(c, trace, events, k - 1);
      RunSteady(c, trace, events, k - 1);
      StillThere(trace[j], trace[k - 1], p);
      BlockStep(c, trace[k - 1], events[k - 1], p);
      SameOn(trace[j], trace[k - 1], trace[k], p);
    }
    hide *;
    StillThere(trace[j], trace[k], p);
    StoresFindIt(c, trace[k], p);
  }

  lemma EventAt(c: Config, trace: seq<System>, events: seq<Event>, p: Path, j: nat, k: nat)
    requires IsRun(c, trace, events) && j <= k < |events| && NoShortRead(events, k + 1) && ChecksSucceed(trace, events, p, j, k + 1)
    ensures NoShortRead(events, k) && ChecksSucceed(trace, events, p, j, k)
    ensures Enabled(c, trace[k], events[k]) && trace[k + 1] == Next(c, trace[k], events[k])
    ensures !events[k].ShortRead? && !CheckFails(trace[k], events[k], p)
  {
    hide Enabled, Next, CheckFails;
  }

  lemma StillThere(s: System, s': System, p: Path)
    requires SameBlock(s, s', p)
    ensures p in s'.files.names
  {
  }

  lemma SameOn(s: System, s1: System, s2: System, p: Path)
    requires SameBlock(s, s1, p) && SameBlock(s1, s2, p)
    ensures SameBlock(s, s2, p)
  {
  }

  lemma StoresFindIt(c: Config, s: System, p: Path)
    requires p in s.files.names && NoWriter(s, p)
    ensures forall t :: 0 <= t < |s.threads| && s.threads[t].Storing? && s.threads[t].dest == p ==>
              Next(c, s, Proceed(t)) == s.(threads := s.threads[t := Stored(p, 0)])
  {
    forall t | 0 <= t < |s.threads| && s.threads[t].Storing? && s.threads[t].dest == p
      ensures Next(c, s, Proceed(t)) == s.(threads := s.threads[t := Stored(p, 0)])
    {
      assert AtCheck(s.threads[t], p);
    }
  }

  /** The condition is needed: a store that is past its check replaces the block, with its own buffer. */
  lemma LateStoreReplaces(c: Config, s: System, t: nat)
    requires Inv(c, s) && t < |s.threads| && s.threads[t].Storing? && s.threads[t].spc.Renaming?
    requires s.threads[t].dest in s.files.names
    ensures var p, s' := s.threads[t].dest, Next(c, s, Proceed(t));
      && p in s'.files.names && s'.files.names[p] != s.files.names[p]
      && s'.files.names[p] in s'.files.data && s'.files.data[s'.files.names[p]] == s.threads[t].src
      && s'.threads[t] == Stored(p, 0)
  {
    assert ThreadSound(c, s, s.threads[t]);
  }

  /** So is the other one: a store whose check fails takes the block for missing, and replaces it. */
  lemma BlindStoreReplaces(c: Config, s: System, t: nat, d: Path, tmp: Path, src: Bytes, errno: nat) returns (trace: seq<System>, events: seq<Event>)
    requires t < |s.threads| && Free(s.threads[t]) && d in c.dests && d in s.files.names && s.files.names[d] in s.files.data
    requires tmp !in c.dests && tmp !in s.files.names && |src| == c.size && errno > 0
    ensures IsRun(c, trace, events) && trace[0] == s && |events| == 7 && CheckFails(trace[1], events[1], d)
    ensures trace[7].threads == s.threads[t := Stored(d, 0)] && d in trace[7].files.names
    ensures trace[7].files.names[d] !in s.files.data && trace[7].files.data == s.files.data[trace[7].files.names[d] := src]
  {
    hide AboveFrom;
    var i := FreshInode(s.files.data);
    var s1 := Next(c, s, BeginStore(t, tmp, d, src));
    var s2 := Next(c, s1, Fail(t, errno));
    var s3 := Next(c, s2, Proceed(t));
    var s4 := Next(c, s3, Proceed(t));
    assert s4.threads[t] == Storing(tmp, d, src, Writing(i));
    var s5 := Next(c, s4, Proceed(t));
    var s6 := Next(c, s5, Proceed(t));
    var s7 := Next(c, s6, Proceed(t));
    assert s7.files.names[d] == i;
    assert s7.files.data == s.files.data[i := src];
    trace := [s, s1, s2, s3, s4, s5, s6, s7];
    events := [BeginStore(t, tmp, d, src), Fail(t, errno), Proceed(t), Proceed(t), Proceed(t), Proceed(t), Proceed(t)];
  }

  // ----- failures are reported -----

  /**
   A call that fails in a store, other than the check and the clean-up, decides what the store reports: at once,
   or after the clean-up, whether or not that fails too. No destination changes.
   */
  lemma StoreReports(c: Config, s: System, t: nat, errno: nat, cleanup: Event)
    requires Inv(c, s) && t < |s.threads| && s.threads[t].Storing? && errno > 0
    requires !s.threads[t].spc.CheckDest? && !s.threads[t].spc.Unlinking?
    requires cleanup == Proceed(t) || (cleanup.Fail? && cleanup.t == t && cleanup.errno > 0)
    ensures var d, s1 := s.threads[t].dest, Next(c, s, Fail(t, errno));
      && s1.files == s.files
      && if Owner(s.threads[t]) then
           var s2 := Next(c, s1, cleanup);
           s2.threads[t] == Stored(d, errno) && forall p :: p in c.dests ==>
             (p in s2.files.names <==> p in s.files.names) && (p in s.files.names ==> s2.files.names[p] == s.files.names[p])
         else s1.threads[t] == Stored(d, errno)
  {
    assert ThreadSound(c, s, s.threads[t]);
  }

  /** A call that fails in a load is reported at once and leaves every file alone. */
  lemma LoadReports(c: Config, s: System, t: nat, errno: nat)
    requires t < |s.threads| && s.threads[t].Loading? && !s.threads[t].lpc.UnlinkShort? && errno > 0
    ensures Next(c, s, Fail(t, errno)) == s.(threads := s.threads[t := Loaded(s.threads[t].path, errno, [])])
  {
  }

  /** A missing block, and a temporary file that exists already, are reported as such. */
  lemma MissingIsReported(c: Config, s: System, t: nat)
    requires t < |s.threads|
    ensures s.threads[t].Loading? && s.threads[t].lpc.OpenSource? && s.threads[t].path !in s.files.names ==>
              Next(c, s, Proceed(t)) == s.(threads := s.threads[t := Loaded(s.threads[t].path, 2, [])])
    ensures s.threads[t].Storing? && s.threads[t].spc.OpenTmp? && s.threads[t].tmp in s.files.names ==>
              Next(c, s, Proceed(t)) == s.(threads := s.threads[t := Stored(s.threads[t].dest, 17)])
  {
  }

  // ----- temporary files do not pile up -----

  /** Every name is a destination, one of those that were there before, or the temporary file of a store in progress. */
  ghost predicate Tidy(c: Config, s: System, before: set<Path>) {
    forall p :: p in s.files.names ==> p in c.dests || p in before || Owned(s, p)
  }

  ghost predicate Owned(s: System, p: Path) {
    exists t :: 0 <= t < |s.threads| && Owner(s.threads[t]) && s.threads[t].tmp == p
  }

  /** The process stops, or the last clean-up call of a store fails. */
  predicate Litters(s: System, e: Event) {
    e.Crash? || (e.Fail? && e.t < |s.threads| && s.threads[e.t].Storing? && s.threads[e.t].spc.Unlinking?)
  }

  lemma TidyStep(c: Config, s: System, e: Event, before: set<Path>)
    requires Inv(c, s) && Enabled(c, s, e) && !Litters(s, e) && Tidy(c, s, before)
    ensures Tidy(c, Next(c, s, e), before)
  {
    var s' := Next(c, s, e);
    assert ThreadSound(c, s, s.threads[e.t]);
    hide Inv, DestsSound, Complete, NamesSound;
    forall p | p in s'.files.names && p !in c.dests && p !in before ensures Owned(s', p) {
      if p in s.files.names {
        var t :| 0 <= t < |s.threads| && Owner(s.threads[t]) && s.threads[t].tmp == p;
        if t != e.t {
          assert s'.threads[t] == s.threads[t];
        } else {
          assert Owner(s'.threads[t]) && s'.threads[t].tmp == p;
        }
      } else {
        assert Owner(s'.threads[e.t]) && s'.threads[e.t].tmp == p;
      }
    }
  }

  /** A run without crashes in which no clean-up fails leaves no temporary file behind. */
  lemma {:induction false} EveryRunIsTidy(c: Config, trace: seq<System>, events: seq<Event>, k: nat)
    requires IsRun(c, trace, events) && Init(c, trace[0]) && k < |trace|
    requires forall i :: 0 <= i < k ==> !Litters(trace[i], events[i])
    ensures Tidy(c, trace[k], trace[0].files.names.Keys)
    ensures (forall t :: 0 <= t < |trace[k].threads| ==> !trace[k].threads[t].Storing?) ==>
              forall p :: p in trace[k].files.names && p !in c.dests ==> p in trace[0].files.names
  {
    if k > 0 {
      EveryRunIsTidy(c, trace, events, k - 1);
      RunKeeps(c, trace, events, k - 1);
      assert trace[k - 1 + 1] == Next(c, trace[k - 1], events[k - 1]) && !Litters(trace[k - 1], events[k - 1]);
      hide Inv, Init, Next, Enabled, Litters;
      TidyStep(c, trace[k - 1], events[k - 1], trace[0].files.names.Keys);
    }
  }

  // ----- undisturbed calls -----

  predicate Free(th: Thread) { !th.Storing? && !th.Loading? }

  /** A store that nobody disturbs succeeds: its buffer appears under the destination, and nothing else changes. */
  lemma OneStore(c: Config, s: System, t: nat, d: Path, tmp: Path, src: Bytes) returns (trace: seq<System>, events: seq<Event>)
    requires t < |s.threads| && Free(s.threads[t]) && d in c.dests && d !in s.files.names
    requires tmp !in c.dests && tmp !in s.files.names && |src| == c.size
    ensures IsRun(c, trace, events) && trace[0] == s && |events| == 7
    ensures trace[7].threads == s.threads[t := Stored(d, 0)] && trace[7].offered == s.offered + {(d, src)}
    ensures d in trace[7].files.names && trace[7].files.names == s.files.names[d := trace[7].files.names[d]]
    ensures trace[7].files.names[d] !in s.files.data && trace[7].files.data == s.files.data[trace[7].files.names[d] := src]
  {
    hide AboveFrom;
    var i := FreshInode(s.files.data);
    var s1 := Next(c, s, BeginStore(t, tmp, d, src));
    var s2 := Next(c, s1, Proceed(t));
    var s3 := Next(c, s2, Proceed(t));
    var s4 := Next(c, s3, Proceed(t));
    assert s4.threads[t] == Storing(tmp, d, src, Writing(i));
    var s5 := Next(c, s4, Proceed(t));
    var s6 := Next(c, s5, Proceed(t));
    var s7 := Next(c, s6, Proceed(t));
    assert s7.files.names[d] == i && s7.files.data[i] == src;
    assert s.files.names[tmp := i] - {tmp} == s.files.names;
    assert s7.files.data == s.files.data[i := src];
    trace := [s, s1, s2, s3, s4, s5, s6, s7];
    events := [BeginStore(t, tmp, d, src), Proceed(t), Proceed(t), Proceed(t), Proceed(t), Proceed(t), Proceed(t)];
  }

  /** A load that nobody disturbs gets the block that is there, and changes no file. */
  lemma OneLoad(c: Config, s: System, t: nat, d: Path) returns (trace: seq<System>, events: seq<Event>)
    requires t < |s.threads| && Free(s.threads[t]) && d in c.dests && d in s.files.names
    requires s.files.names[d] in s.files.data && |s.files.data[s.files.names[d]]| == c.size
    ensures IsRun(c, trace, events) && trace[0] == s && |events| == 3
    ensures trace[3] == s.(threads := s.threads[t := Loaded(d, 0, s.files.data[s.files.names[d]])])
  {
    var s1 := Next(c, s, BeginLoad(t, d));
    var s2 := Next(c, s1, Proceed(t));
    var s3 := Next(c, s2, Proceed(t));
    var bytes := s.files.data[s.files.names[d]];
    assert bytes[..c.size] == bytes;
    trace, events := [s, s1, s2, s3], [BeginLoad(t, d), Proceed(t), Proceed(t)];
  }

  /** Before anything is stored. */
  lemma NothingStored(c: Config, n: nat)
    ensures Init(c, System(Files(map[], map[]), seq(n, _ => Idle), {}))
  {
  }

  /** The round trip: what a store has put there is what a load gets. */
  lemma StoreThenLoad(c: Config, s: System, t: nat, u: nat, d: Path, tmp: Path, src: Bytes) returns (trace: seq<System>, events: seq<Event>)
    requires t < |s.threads| && u < |s.threads| && Free(s.threads[t]) && Free(s.threads[u]) && d in c.dests && d !in s.files.names
    requires tmp !in c.dests && tmp !in s.files.names && |src| == c.size
    ensures IsRun(c, trace, events) && trace[0] == s && |events| == 10
    ensures u < |trace[10].threads| && trace[10].threads[u] == Loaded(d, 0, src)
  {
    var t1, e1 := OneStore(c, s, t, d, tmp, src);
    var t2, e2 := OneLoad(c, t1[7], u, d);
    hide Next, Enabled;
    JoinRuns(c, t1, e1, t2, e2);
    trace, events := t1 + t2[1..], e1 + e2;
    assert trace[7 + 3] == t2[3];
  }

  // ----- what an early read does -----

  /**
   The first read that returns early is enough: the load's next step unlinks a block that was
   complete. So blocks stay in a run and in all its continuations exactly when no read returns early.
   */
  lemma EarlyReadUnlinks(c: Config, trace: seq<System>, events: seq<Event>, k: nat)
    returns (trace': seq<System>, events': seq<Event>, p: Path)
    requires IsRun(c, trace, events) && Init(c, trace[0]) && k < |events|
    requires NoShortRead(events, k) && events[k].ShortRead?
    ensures events' == events[..k + 1] + [Proceed(events[k].t)] && IsRun(c, trace', events') && trace'[..k + 2] == trace[..k + 2]
    ensures p in c.dests && p in trace'[k].files.names && Complete(c, trace'[k], p, trace'[k].files.names[p])
    ensures p !in trace'[k + 2].files.names
  {
    RunSteady(c, trace, events, k);
    RunKeeps(c, trace, events, k);
    var t := events[k].t;
    assert ThreadSound(c, trace[k], trace[k].threads[t]) && Settled(trace[k], trace[k].threads[t]);
    p := trace[k].threads[t].path;
    var s := trace[k + 1];
    assert trace[k + 1] == Next(c, trace[k], events[k]);
    assert s.threads[t] == Loading(p, UnlinkShort) && s.files == trace[k].files;
    events' := events[..k + 1] + [Proceed(t)];
    trace' := trace[..k + 2] + [Next(c, s, Proceed(t))];
    Extend(c, trace, events, k + 1, Proceed(t));
  }

  /** A prefix of a run, followed by one more event, is a run. */
  lemma Extend(c: Config, trace: seq<System>, events: seq<Event>, n: nat, e: Event)
    requires IsRun(c, trace, events) && n <= |events| && Enabled(c, trace[n], e)
    ensures IsRun(c, trace[..n + 1] + [Next(c, trace[n], e)], events[..n] + [e])
  {
    hide Enabled, Next;
  }

  lemma JoinRuns(c: Config, trace: seq<System>, events: seq<Event>, trace': seq<System>, events': seq<Event>)
    requires IsRun(c, trace, events) && IsRun(c, trace', events') && trace'[0] == trace[|events|]
    ensures IsRun(c, trace + trace'[1..], events + events')
    ensures (trace + trace'[1..])[0] == trace[0]
    ensures forall k :: 0 <= k <= |events'| ==> (trace + trace'[1..])[|events| + k] == trace'[k]
  {
    hide Enabled, Next;
    var all, evs := trace + trace'[1..], events + events';
    forall k | 0 <= k < |evs| ensures Enabled(c, all[k], evs[k]) && all[k + 1] == Next(c, all[k], evs[k]) {
      if k >= |events| {
        assert all[k] == trace'[k - |events|] && all[k + 1] == trace'[k - |events| + 1];
        assert evs[k] == events'[k - |events|];
      }
    }
  }

  /** One load opens a short file; another one reads it, and unlinks it. */
  lemma TwoLoads(c: Config, s: System, d: Path) returns (trace: seq<System>, events: seq<Event>)
    requires NamesSound(s) && s.threads == [Idle, Idle, Idle]
    requires d in c.dests && d in s.files.names && |s.files.data[s.files.names[d]]| < c.size
    ensures IsRun(c, trace, events) && trace[0] == s && |events| == 6
    ensures trace[6] == s.(files := s.files.(names := s.files.names - {d}),
                           threads := [Loading(d, Reading(s.files.names[d])), Loaded(d, EIO, []), Idle])
  {
    var s1 := Next(c, s, BeginLoad(0, d));
    var s2 := Next(c, s1, Proceed(0));
    var s3 := Next(c, s2, BeginLoad(1, d));
    var s4 := Next(c, s3, Proceed(1));
    var s5 := Next(c, s4, Proceed(1));
    var s6 := Next(c, s5, Proceed(1));
    assert s6.threads == [Loading(d, Reading(s.files.names[d])), Loaded(d, EIO, []), Idle];
    trace := [s, s1, s2, s3, s4, s5, s6];
    events := [BeginLoad(0, d), Proceed(0), BeginLoad(1, d), Proceed(1), Proceed(1), Proceed(1)];
  }

  /** The first load reads its short file and unlinks what has the name now. */
  lemma LateUnlink(c: Config, s: System, d: Path, short: Inode) returns (trace: seq<System>, events: seq<Event>)
    requires |s.threads| == 3 && s.threads[0] == Loading(d, Reading(short))
    requires short in s.files.data && |s.files.data[short]| < c.size
    ensures IsRun(c, trace, events) && trace[0] == s && |events| == 2 && events[1] == Proceed(0)
    ensures trace[1].files == s.files && trace[1].offered == s.offered && |trace[1].threads| == 3
    ensures trace[1].threads[0] == Loading(d, UnlinkShort) && d !in trace[2].files.names
  {
    var s1 := Next(c, s, Proceed(0));
    var s2 := Next(c, s1, Proceed(0));
    trace := [s, s1, s2];
    events := [Proceed(0), Proceed(0)];
  }

  /**
   The starting condition is needed. If a destination holds a short file, two loads and a store can
   interleave so that the second load unlinks the complete block that the store has just put there.
   */
  lemma ShortFileRace(c: Config, s: System, d: Path, tmp: Path, src: Bytes) returns (trace: seq<System>, events: seq<Event>)
    requires NamesSound(s) && s.threads == [Idle, Idle, Idle]
    requires d in c.dests && d in s.files.names && |s.files.data[s.files.names[d]]| < c.size
    requires tmp !in c.dests && tmp !in s.files.names && |src| == c.size
    ensures IsRun(c, trace, events) && trace[0] == s && |events| == 15
    ensures d in trace[14].files.names && Complete(c, trace[14], d, trace[14].files.names[d])
    ensures |trace[14].threads| == 3 && trace[14].threads[0] == Loading(d, UnlinkShort) && events[14] == Proceed(0)
    ensures d !in trace[15].files.names
  {
    hide Next, Enabled, IsRun;
    var t1, e1 := TwoLoads(c, s, d);
    RunLength(c, t1, e1);
    var t2, e2 := OneStore(c, t1[6], 2, d, tmp, src);
    RunLength(c, t2, e2);
    var t3, e3 := LateUnlink(c, t2[7], d, s.files.names[d]);
    RunLength(c, t3, e3);
    JoinRuns(c, t1, e1, t2, e2);
    var t12, e12 := t1 + t2[1..], e1 + e2;
    RunLength(c, t12, e12);
    assert t12[6 + 7] == t2[7];
    JoinRuns(c, t12, e12, t3, e3);
    trace, events := t12 + t3[1..], e12 + e3;
    assert trace[13 + 1] == t3[1] && trace[13 + 2] == t3[2];
  }

  lemma RunLength(c: Config, trace: seq<System>, events: seq<Event>)
    requires IsRun(c, trace, events)
    ensures |trace| == |events| + 1
  {
  }
}
