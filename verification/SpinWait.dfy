/**
 The wait loop over a shared buffer with the monitor/wait instructions, interleaved with a writer.
 The callback reads the shared cells one by one, so a store may fall between any two of its reads.
 The monitor watches one aligned line, the one that holds the start of the buffer.
 */
module SpinWait {
  import opened Sums

  const WORD: nat := 0x1_0000_0000

  /**
   The callback reads `cells` cells, of which the first `length` are the buffer that is passed; the
   buffer starts `offset` cells into its line of `line` cells. `monitorx` says that the processor has
   the instructions.
   */
  datatype Config = Config(
    cells: nat, length: nat, offset: nat, line: nat, monitorx: bool, timeout: real, start: real, ready: seq<int> -> bool)

  /** The wait instruction is used: only the length of the buffer is looked at, not where it starts. */
  predicate Hardware(c: Config) { c.monitorx && c.length <= c.line }

  /** A store to cell `k` falls into the line that the monitor watches. */
  predicate Watched(c: Config, k: nat) { c.offset + k < c.line }

  datatype Monitor = Off | Armed | Triggered

  /**
   Where the waiter is: `Poll` and `Recheck` are the two callbacks with the cells read so far,
   `Check` reads the clock, `Bump` counts the iteration, and `Wait` is the wait instruction, after a
   callback that has read `seen`.
   */
  datatype Place =
    | Poll(seen: seq<int>) | Check | Bump | Arm | Recheck(seen: seq<int>) | Wait(seen: seq<int>) | Pause
    | Returned(seen: seq<int>) | TimedOut | Failed

  /** `late` counts the iterations begun after the deadline has passed. */
  datatype State = State(at: Place, iteration: nat, cells: seq<int>, monitor: Monitor, now: real, late: nat)

  /**
   A store, a spurious trigger of the monitor, the passing of time, or a step of the waiter. A step of
   the waiter fails when the callback raises or the clock cannot be read; `expire` ends a wait.
   */
  datatype Event = Store(cell: nat, value: int) | Spurious | Tick(dt: real) | Waiter(fails: bool, expire: bool)

  predicate HasTimeout(c: Config) { c.timeout > 0.000000001 }

  predicate Expired(c: Config, s: State) { HasTimeout(c) && s.now - c.start >= c.timeout }

  predicate Done(s: State) { s.at.Returned? || s.at.TimedOut? || s.at.Failed? }

  predicate Enabled(c: Config, s: State, e: Event) {
    match e
    case Store(k, _) => k < |s.cells|
    case Spurious => true
    case Tick(dt) => dt >= 0.0
    case Waiter(_, expire) => !Done(s) && (s.at.Wait? ==> s.monitor != Armed || expire)
  }

  function Touched(m: Monitor): (m': Monitor) { if m == Armed then Triggered else m }

  function Next(c: Config, s: State, e: Event): (s': State)
    requires Enabled(c, s, e)
  {
    match e
    case Store(k, v) => s.(cells := s.cells[k := v], monitor := if Watched(c, k) then Touched(s.monitor) else s.monitor)
    case Spurious => s.(monitor := Touched(s.monitor))
    case Tick(dt) => s.(now := s.now + dt)
    case Waiter(fails, _) => Move(c, s, fails)
  }

  /** One step of the loop body. */
  function Move(c: Config, s: State, fails: bool): (s': State)
    requires !Done(s)
  {
    match s.at
    case Poll(seen) =>
      if fails then s.(at := Failed)
      else if |seen| < |s.cells| then s.(at := Poll(seen + [s.cells[|seen|]]))
      else if c.ready(seen) then s.(at := Returned(seen)) else s.(at := Check)
    case Check =>
      if HasTimeout(c) && s.iteration % 16 == 0 then
        if fails then s.(at := Failed) else if Expired(c, s) then s.(at := TimedOut) else s.(at := Bump)
      else s.(at := Bump)
    case Bump =>
      s.(iteration := (s.iteration + 1) % WORD, late := if Expired(c, s) then s.late + 1 else s.late,
         at := if Hardware(c) then Arm else Pause)
    case Arm => s.(monitor := Armed, at := Recheck([]))
    case Recheck(seen) =>
      if fails then s.(at := Failed)
      else if |seen| < |s.cells| then s.(at := Recheck(seen + [s.cells[|seen|]]))
      else if c.ready(seen) then s.(at := Returned(seen)) else s.(at := Wait(seen))
    case Wait(_) => s.(monitor := Off, at := Poll([]))
    case Pause => s.(at := Poll([]))
  }

  predicate Initial(c: Config, s: State) {
    s.at == Poll([]) && s.iteration == 0 && |s.cells| == c.cells && s.monitor == Off && s.now == c.start && s.late == 0
  }

  ghost predicate IsRun(c: Config, trace: seq<State>, events: seq<Event>) {
    && |trace| == |events| + 1
    && forall i :: 0 <= i < |events| ==> Enabled(c, trace[i], events[i]) && trace[i + 1] == Next(c, trace[i], events[i])
  }

  // ----- what every step keeps -----

  /** How many iterations are begun before the clock is read again. */
  function Until(s: State): (n: nat)
    ensures n <= 16
  {
    var m := s.iteration % 16;
    if s.at.Bump? then 16 - m else if m == 0 then 0 else 16 - m
  }

  /** The cells that the monitor watches are as the callback has read them. */
  predicate Agrees(c: Config, seen: seq<int>, cells: seq<int>) {
    |seen| <= |cells| && forall k :: 0 <= k < |seen| && Watched(c, k) ==> seen[k] == cells[k]
  }

  /**
   While the monitor is armed and untouched the watched cells are those that the second callback has
   read, and the waiter is in the wait only after a callback that was false of what it read.
   */
  predicate Inv(c: Config, s: State) {
    && |s.cells| == c.cells && s.iteration < WORD
    && (s.at.Poll? || s.at.Recheck? ==> |s.at.seen| <= |s.cells|)
    && (s.at.Wait? ==> |s.at.seen| == |s.cells| && !c.ready(s.at.seen))
    && ((s.at.Recheck? || s.at.Wait?) && s.monitor == Armed ==> Agrees(c, s.at.seen, s.cells))
    && (s.at.Recheck? || s.at.Wait? ==> s.monitor != Off)
    && (s.at.Returned? ==> |s.at.seen| == c.cells && c.ready(s.at.seen))
    && (s.at.TimedOut? ==> Expired(c, s) && s.iteration % 16 == 0)
    && (!Expired(c, s) ==> s.late == 0)
    && (HasTimeout(c) && !Done(s) ==> s.late + Until(s) <= 16)
    && s.late <= 16
  }

  lemma StoreKeeps(c: Config, s: State, k: nat, v: int)
    requires Inv(c, s) && k < |s.cells|
    ensures Inv(c, Next(c, s, Store(k, v)))
  {
  }

  lemma MoveKeeps(c: Config, s: State, fails: bool, expire: bool)
    requires Inv(c, s) && Enabled(c, s, Waiter(fails, expire))
    ensures Inv(c, Move(c, s, fails))
  {
    assert s.cells[..|s.cells|] == s.cells;
    if s.at.Bump? {
      Counts(s.iteration);
    } else {
      hide HasTimeout;
    }
  }

  /** Wrapping the counter keeps its last four bits in step. */
  lemma Counts(i: nat)
    ensures (i + 1) % WORD % 16 == (i % 16 + 1) % 16
  {
  }

  lemma StepKeeps(c: Config, s: State, e: Event)
    requires Inv(c, s) && Enabled(c, s, e)
    ensures Inv(c, Next(c, s, e))
  {
    match e
    case Store(k, v) => StoreKeeps(c, s, k, v);
    case Spurious =>
    case Tick(dt) =>
    case Waiter(fails, expire) => MoveKeeps(c, s, fails, expire);
  }

  lemma {:induction false} RunKeeps(c: Config, trace: seq<State>, events: seq<Event>, k: nat)
    requires IsRun(c, trace, events) && Inv(c, trace[0]) && k <= |events|
    ensures Inv(c, trace[k])
  {
    if k > 0 {
      RunKeeps(c, trace, events, k - 1);
      StepKeeps(c, trace[k - 1], events[k - 1]);
    }
  }

  /**
   In every interleaving: at most 16 iterations begin after the deadline, the loop returns true only
   after a true callback, times out only after the deadline of a timeout above a nanosecond and in every
   sixteenth iteration, and fails only
   if the callback or the clock does; and a wait can always be ended.
   */
  lemma EveryRun(c: Config, trace: seq<State>, events: seq<Event>, k: nat)
    requires IsRun(c, trace, events) && Initial(c, trace[0]) && k <= |events|
    ensures trace[k].late <= 16
    ensures trace[k].at.Returned? ==> c.ready(trace[k].at.seen)
    ensures trace[k].at.TimedOut? ==>
              c.timeout > 0.000000001 && trace[k].now - c.start >= c.timeout && trace[k].iteration % 16 == 0
    ensures trace[k].at.Failed? ==> exists i :: 0 <= i < k && events[i].Waiter? && events[i].fails
    ensures !Done(trace[k]) ==> Enabled(c, trace[k], Waiter(false, true))
  {
    RunKeeps(c, trace, events, k);
    if trace[k].at.Failed? { FailedOnce(c, trace, events, k); }
  }

  lemma {:induction false} FailedOnce(c: Config, trace: seq<State>, events: seq<Event>, k: nat)
    requires IsRun(c, trace, events) && Initial(c, trace[0]) && k <= |events| && trace[k].at.Failed?
    ensures exists i :: 0 <= i < k && events[i].Waiter? && events[i].fails
  {
    if k > 0 {
      if trace[k - 1].at.Failed? {
        FailedOnce(c, trace, events, k - 1);
      } else {
        assert events[k - 1].Waiter? && events[k - 1].fails;
      }
    }
  }

  // ----- lost wake-ups -----

  /** The waiter sits in the wait, the callback is true of the cells, and the monitor has not noticed. */
  predicate Missed(c: Config, s: State) { s.at.Wait? && s.monitor == Armed && c.ready(s.cells) }

  /** A store outside the watched line that makes the callback true. */
  predicate Unnoticed(c: Config, cells: seq<int>, k: nat, v: int) {
    |cells| == c.cells && k < |cells| && !Watched(c, k) && !c.ready(cells) && c.ready(cells[k := v])
  }

  /** There is no such store. */
  ghost predicate Heard(c: Config) {
    forall cells: seq<int>, k: nat, v: int :: !Unnoticed(c, cells, k, v)
  }

  /** All cells that the callback reads lie in the watched line. */
  predicate InLine(c: Config) { c.offset + c.cells <= c.line }

  /** Replacing cells outside the line one by one never makes the callback true. */
  lemma {:induction false} StillFalse(c: Config, seen: seq<int>, cells: seq<int>, k: nat)
    requires Heard(c) && |seen| == |cells| == c.cells && Agrees(c, seen, cells) && !c.ready(seen) && k <= |cells|
    ensures !c.ready(cells[..k] + seen[k..])
  {
    if k == 0 {
      assert cells[..0] + seen[0..] == seen;
    } else {
      StillFalse(c, seen, cells, k - 1);
      var mixed := cells[..k - 1] + seen[k - 1..];
      assert cells[..k] + seen[k..] == mixed[k - 1 := cells[k - 1]];
      assert !Unnoticed(c, mixed, k - 1, cells[k - 1]);
      assert Watched(c, k - 1) ==> mixed[k - 1] == cells[k - 1];
      assert mixed[k - 1 := mixed[k - 1]] == mixed;
    }
  }

  lemma HeardNeverMisses(c: Config, s: State)
    requires Heard(c) && Inv(c, s)
    ensures !Missed(c, s)
  {
    if s.at.Wait? && s.monitor == Armed {
      StillFalse(c, s.at.seen, s.cells, |s.cells|);
      assert s.cells[..|s.cells|] + s.at.seen[|s.cells|..] == s.cells;
    }
  }

  /** With the wait instruction, some run misses a store that makes the callback true. */
  lemma UnheardIsMissed(c: Config) returns (trace: seq<State>, events: seq<Event>)
    requires Hardware(c) && !Heard(c)
    ensures IsRun(c, trace, events) && Initial(c, trace[0]) && Missed(c, trace[|events|])
  {
    var cells: seq<int>, k: nat, v: int :| Unnoticed(c, cells, k, v);
    trace, events := ReachWait(c, cells);
    var s := trace[|events|];
    Extend(c, trace, events, Store(k, v));
    trace, events := trace + [Next(c, s, Store(k, v))], events + [Store(k, v)];
  }

  ghost predicate NeverMisses(c: Config) {
    forall trace, events :: IsRun(c, trace, events) && Initial(c, trace[0]) ==> !Missed(c, trace[|events|])
  }

  /** When wake-ups are lost: exactly when a store outside the watched line can make the callback true. */
  lemma NeverMissesIff(c: Config)
    ensures NeverMisses(c) <==> !(c.monitorx && c.length <= c.line) || Heard(c)
  {
    if Hardware(c) && !Heard(c) {
      var trace, events := UnheardIsMissed(c);
    } else {
      forall trace, events | IsRun(c, trace, events) && Initial(c, trace[0]) ensures !Missed(c, trace[|events|]) {
        RunKeeps(c, trace, events, |events|);
        if Heard(c) {
          HeardNeverMisses(c, trace[|events|]);
        } else {
          NoWait(c, trace, events, |events|);
        }
      }
    }
  }

  lemma {:induction false} NoWait(c: Config, trace: seq<State>, events: seq<Event>, k: nat)
    requires IsRun(c, trace, events) && Initial(c, trace[0]) && !(c.monitorx && c.length <= c.line) && k <= |events|
    ensures !trace[k].at.Wait? && !trace[k].at.Arm? && !trace[k].at.Recheck?
  {
    if k > 0 { NoWait(c, trace, events, k - 1); }
  }

  /** A buffer whose cells all lie in the line is safe for every callback, and only such a buffer is. */
  lemma InLineIff(c: Config)
    ensures InLine(c) || c.cells == 0 <==> forall ready: seq<int> -> bool :: Heard(c.(ready := ready))
  {
    if !InLine(c) && c.cells > 0 {
      var last := c.cells - 1;
      var ready := (cells: seq<int>) => |cells| == c.cells && cells[last] == 1;
      var zeros := seq(c.cells, _ => 0);
      var c' := c.(ready := ready);
      assert Unnoticed(c', zeros, last, 1);
    }
  }

  // ----- the two callers -----

  function Flags(cells: seq<int>): (n: int) {
    if cells == [] then 0 else Flags(cells[..|cells| - 1]) + cells[|cells| - 1]
  }

  /** A writer waits until its block is not written or every one of `n` readers has read it. */
  predicate WriterReady(n: nat, cells: seq<int>) {
    !(|cells| == n + 1 && cells[0] != 0 && Flags(cells[1..]) != n)
  }

  /** The writer's call: the written flag and all read flags, passed as they are. */
  ghost predicate Writer(c: Config, n: nat) {
    c.cells == c.length == n + 1 && forall cells :: c.ready(cells) <==> WriterReady(n, cells)
  }

  lemma {:induction false} AllRead(n: nat)
    ensures Flags(seq(n, _ => 1)) == n
  {
    if n > 0 {
      AllRead(n - 1);
      assert seq(n, _ => 1)[..n - 1] == seq(n - 1, _ => 1);
    }
  }

  /** For a writer the condition is exactly that its flags lie in one line. */
  lemma WriterIff(c: Config, n: nat)
    requires Writer(c, n) && n > 0
    ensures Heard(c) <==> InLine(c)
  {
    if !InLine(c) {
      var read := seq(n - 1, _ => 1);
      var cells := [1] + read + [0];
      var done := cells[n := 1];
      AllRead(n - 1);
      AllRead(n);
      assert cells[1..][..n - 1] == read && done[1..] == seq(n, _ => 1);
      assert Unnoticed(c, cells, n, 1);
    }
  }

  /**
   Eight readers, the metadata of chunk 7 at bytes 63 to 71, and lines of 64 bytes: the buffer is short
   enough for the wait instruction, but all read flags lie behind the line.
   */
  lemma ChunkSeven(c: Config) returns (trace: seq<State>, events: seq<Event>)
    requires c.monitorx && Writer(c, 8) && c.offset == 7 * (1 + 8) % 64 && c.line == 64
    ensures Hardware(c) && !InLine(c) && forall k :: 1 <= k < c.cells ==> !Watched(c, k)
    ensures IsRun(c, trace, events) && Initial(c, trace[0]) && Missed(c, trace[|events|])
  {
    WriterIff(c, 8);
    trace, events := UnheardIsMissed(c);
  }

  /**
   The call of the reader with the given rank: it waits until the block is written and not yet read by
   itself, and passes a buffer that ends before its own read flag.
   */
  ghost predicate Reader(c: Config, rank: nat) {
    && c.cells == rank + 2 && c.length == rank + 1
    && forall cells :: c.ready(cells) <==> |cells| == rank + 2 && cells[0] != 0 && cells[rank + 1] == 0
  }

  /** A reader's flag is cleared only while its block is not marked as written. */
  ghost predicate ClearsFirst(trace: seq<State>, events: seq<Event>, rank: nat)
    requires |trace| == |events| + 1
  {
    forall i :: 0 <= i < |events| && events[i].Store? && events[i].cell == rank + 1 && events[i].value == 0 ==>
      |trace[i].cells| > 0 && trace[i].cells[0] == 0
  }

  /** What a reader that has seen its flag set while the block is written can rely on. */
  predicate StillSet(s: State, rank: nat) {
    (s.at.Recheck? || s.at.Wait?) && s.monitor == Armed && |s.cells| == |s.at.seen| == rank + 2 ==>
      (s.cells[0] != 0 && s.at.seen[rank + 1] != 0 ==> s.cells[rank + 1] != 0)
  }

  lemma FlagStep(c: Config, rank: nat, s: State, e: Event)
    requires Inv(c, s) && Enabled(c, s, e) && c.cells == rank + 2 && c.offset < c.line && StillSet(s, rank)
    requires e.Store? && e.cell == rank + 1 && e.value == 0 ==> s.cells[0] == 0
    ensures StillSet(Next(c, s, e), rank)
  {
    hide Expired, Until, Agrees;
    assert Watched(c, 0);
  }

  lemma {:induction false} FlagStays(c: Config, rank: nat, trace: seq<State>, events: seq<Event>, k: nat)
    requires IsRun(c, trace, events) && Initial(c, trace[0]) && Reader(c, rank) && c.offset < c.line
    requires ClearsFirst(trace, events, rank) && k <= |events|
    ensures StillSet(trace[k], rank)
  {
    if k > 0 {
      FlagStays(c, rank, trace, events, k - 1);
      RunKeeps(c, trace, events, k - 1);
      hide Inv, StillSet, Next;
      FlagStep(c, rank, trace[k - 1], events[k - 1]);
    }
  }

  /** For a reader it is enough that its buffer starts in the line, given a writer that clears the flags first. */
  lemma ReaderNeverMisses(c: Config, rank: nat, trace: seq<State>, events: seq<Event>)
    requires IsRun(c, trace, events) && Initial(c, trace[0]) && Reader(c, rank) && c.offset < c.line
    requires ClearsFirst(trace, events, rank)
    ensures !Missed(c, trace[|events|])
  {
    RunKeeps(c, trace, events, |events|);
    FlagStays(c, rank, trace, events, |events|);
    assert Watched(c, 0);
  }

  // ----- reaching the wait -----

  /** A run followed by one more event. */
  lemma Extend(c: Config, trace: seq<State>, events: seq<Event>, e: Event)
    requires IsRun(c, trace, events) && Enabled(c, trace[|events|], e)
    ensures IsRun(c, trace + [Next(c, trace[|events|], e)], events + [e])
  {
    hide Enabled, Next;
  }

  /** A callback reads all cells, nobody interfering. */
  lemma ReadAll(c: Config, trace: seq<State>, events: seq<Event>) returns (trace': seq<State>, events': seq<Event>)
    requires IsRun(c, trace, events)
    requires var s := trace[|events|]; (s.at.Poll? || s.at.Recheck?) && Fresh(s)
    ensures IsRun(c, trace', events') && trace'[0] == trace[0]
    ensures var s := trace[|events|];
      trace'[|events'|] == s.(at := if s.at.Poll? then Poll(s.cells) else Recheck(s.cells))
    decreases var s := trace[|events|]; if s.at.Poll? || s.at.Recheck? then |s.cells| - |s.at.seen| else 0
  {
    var s := trace[|events|];
    assert s.cells[..|s.cells|] == s.cells;
    if |s.at.seen| == |s.cells| {
      trace', events' := trace, events;
    } else {
      var e := Waiter(false, false);
      Extend(c, trace, events, e);
      assert s.cells[..|s.at.seen| + 1] == s.cells[..|s.at.seen|] + [s.cells[|s.at.seen|]];
      trace', events' := ReadAll(c, trace + [Next(c, s, e)], events + [e]);
    }
  }

  /** With the wait instruction a waiter whose callback stays false comes to the wait. */
  lemma ReachWait(c: Config, cells: seq<int>) returns (trace: seq<State>, events: seq<Event>)
    requires Hardware(c) && |cells| == c.cells && !c.ready(cells)
    ensures IsRun(c, trace, events) && Initial(c, trace[0])
    ensures var s := trace[|events|]; s.at == Wait(cells) && s.cells == cells && s.monitor == Armed
  {
    var e := Waiter(false, false);
    trace, events := [State(Poll([]), 0, cells, Off, c.start, 0)], [];
    trace, events := ReadAll(c, trace, events);
    trace, events := Go(c, trace, events);
    trace, events := Go(c, trace, events);
    trace, events := Go(c, trace, events);
    assert trace[|events|].at.Arm?;
    trace, events := Go(c, trace, events);
    trace, events := ReadAll(c, trace, events);
    trace, events := Go(c, trace, events);
  }

  lemma Go(c: Config, trace: seq<State>, events: seq<Event>) returns (trace': seq<State>, events': seq<Event>)
    requires IsRun(c, trace, events) && !Done(trace[|events|]) && !trace[|events|].at.Wait?
    ensures IsRun(c, trace', events') && trace'[0] == trace[0]
    ensures trace'[|events'|] == Move(c, trace[|events|], false)
  {
    Extend(c, trace, events, Waiter(false, false));
    trace' := trace + [Next(c, trace[|events|], Waiter(false, false))];
    events' := events + [Waiter(false, false)];
  }

  // ----- how soon the loop returns -----

  function WaiterSteps(events: seq<Event>): (n: nat) {
    if events == [] then 0
    else WaiterSteps(events[..|events| - 1]) + if events[|events| - 1].Waiter? then 1 else 0
  }

  function Lap(c: Config): (n: nat) { 2 * c.cells + 7 }

  /** The steps to the next count of the iteration. */
  function Rest(c: Config, at: Place): (n: int) {
    match at
    case Arm => 2 * c.cells + 6
    case Recheck(seen) => 2 * c.cells - |seen| + 5
    case Wait(_) => c.cells + 4
    case Pause => c.cells + 4
    case Poll(seen) => c.cells - |seen| + 3
    case Check => 2
    case Bump => 1
    case _ => 0
  }

  function Left(c: Config, s: State): (n: int) {
    if Done(s) then 0 else Until(s) * Lap(c) + Rest(c, s.at)
  }

  lemma UntilStep(c: Config, s: State, fails: bool)
    requires Inv(c, s) && Expired(c, s) && !Done(s) && !Done(Move(c, s, fails))
    ensures Until(Move(c, s, fails)) == Until(s) - if s.at.Bump? then 1 else 0
  {
    if s.at.Bump? { Counts(s.iteration); }
  }

  lemma RestStep(c: Config, s: State, fails: bool)
    requires Inv(c, s) && !Done(s) && !Done(Move(c, s, fails))
    ensures Rest(c, Move(c, s, fails).at) <= if s.at.Bump? then Lap(c) - 1 else Rest(c, s.at) - 1
    ensures Rest(c, s.at) > 0 && Rest(c, Move(c, s, fails).at) > 0
  {
  }

  lemma OneLap(n: nat, lap: nat)
    ensures (n + 1) * lap == n * lap + lap
  {
  }

  /** After the deadline every step of the waiter brings the return nearer, and no other step takes it away. */
  lemma LateStep(c: Config, s: State, e: Event)
    requires Inv(c, s) && Expired(c, s) && Enabled(c, s, e)
    ensures Expired(c, Next(c, s, e))
    ensures 0 <= Left(c, Next(c, s, e)) <= Left(c, s) - if e.Waiter? then 1 else 0
  {
    if e.Waiter? {
      LateMove(c, s, e.fails);
    } else {
      hide Until, Rest;
      assert Until(Next(c, s, e)) == Until(s) && Next(c, s, e).at == s.at by { SameUntil(c, s, e); }
      LeftPositive(c, s);
    }
  }

  lemma SameUntil(c: Config, s: State, e: Event)
    requires Enabled(c, s, e) && !e.Waiter?
    ensures Until(Next(c, s, e)) == Until(s) && Next(c, s, e).at == s.at
  {
  }

  lemma LeftPositive(c: Config, s: State)
    requires Inv(c, s)
    ensures if Done(s) then Left(c, s) == 0 else Left(c, s) >= Rest(c, s.at) > 0
  {
    assert 0 <= Until(s) * Lap(c);
  }

  lemma LateMove(c: Config, s: State, fails: bool)
    requires Inv(c, s) && Expired(c, s) && !Done(s)
    ensures Expired(c, Move(c, s, fails))
    ensures 0 <= Left(c, Move(c, s, fails)) < Left(c, s)
  {
    LeftPositive(c, s);
    var s' := Move(c, s, fails);
    assert s'.now == s.now;
    if !Done(s') {
      UntilStep(c, s, fails);
      RestStep(c, s, fails);
      hide Until, Rest, Move, Lap, Inv;
      if s.at.Bump? { OneLap(Until(s'), Lap(c)); }
      assert 0 <= Until(s') * Lap(c);
    }
  }

  lemma {:induction false} LateRun(c: Config, trace: seq<State>, events: seq<Event>)
    requires IsRun(c, trace, events) && Inv(c, trace[0]) && Expired(c, trace[0])
    ensures Expired(c, trace[|events|])
    ensures WaiterSteps(events) + Left(c, trace[|events|]) <= Left(c, trace[0])
    ensures 0 <= Left(c, trace[|events|])
    decreases |events|
  {
    if events == [] {
      LeftPositive(c, trace[0]);
    } else {
      var n := |events| - 1;
      LateRun(c, trace[..n + 1], events[..n]);
      RunKeeps(c, trace, events, n);
      LateStep(c, trace[n], events[n]);
    }
  }

  lemma LeftBound(c: Config, s: State)
    requires Inv(c, s)
    ensures Left(c, s) <= 17 * Lap(c)
  {
    MulMono(Lap(c), Until(s), 16);
  }

  /** Once the deadline has passed the loop returns within 17 laps of the waiter, whatever the writer does. */
  lemma DeadlineBound(c: Config, trace: seq<State>, events: seq<Event>)
    requires IsRun(c, trace, events) && Inv(c, trace[0]) && c.timeout > 0.000000001 && trace[0].now - c.start >= c.timeout
    ensures WaiterSteps(events) <= 17 * Lap(c)
  {
    LateRun(c, trace, events);
    LeftBound(c, trace[0]);
    hide Left, Inv;
  }

  // ----- how soon a true callback is seen -----

  ghost predicate Fresh(s: State)
    requires s.at.Poll? || s.at.Recheck?
  {
    |s.at.seen| <= |s.cells| && s.at.seen == s.cells[..|s.at.seen|]
  }

  /** The steps to the return when the callback is true of the buffer and the buffer stays as it is. */
  ghost function ToReturn(c: Config, s: State): (n: int) {
    match s.at
    case Poll(seen) => c.cells - |seen| + (if Fresh(s) then 1 else c.cells + 5)
    case Recheck(seen) => c.cells - |seen| + (if Fresh(s) then 1 else c.cells + 4)
    case Check => c.cells + 4
    case Bump => c.cells + 3
    case Arm => c.cells + 2
    case Wait(_) => c.cells + 2
    case Pause => c.cells + 2
    case _ => 0
  }

  lemma ReadyStep(c: Config, s: State, e: Event)
    requires Inv(c, s) && c.ready(s.cells) && Enabled(c, s, e) && !e.Store?
    ensures Next(c, s, e).cells == s.cells
    ensures 0 <= ToReturn(c, Next(c, s, e)) <= ToReturn(c, s) - if e.Waiter? then 1 else 0
  {
    assert s.cells[..|s.cells|] == s.cells && s.cells[..0] == [];
    if (s.at.Recheck? || s.at.Poll?) && |s.at.seen| < |s.cells| && Fresh(s) {
      assert s.cells[..|s.at.seen| + 1] == s.cells[..|s.at.seen|] + [s.cells[|s.at.seen|]];
    }
  }

  /**
   Once the callback is true of the cells, and stays so, the waiter returns within two callbacks. If the
   stores to the cells are heard it never has to sit out a wait.
   */
  lemma {:induction false} ReadyBound(c: Config, trace: seq<State>, events: seq<Event>)
    requires IsRun(c, trace, events) && Inv(c, trace[0]) && c.ready(trace[0].cells)
    requires forall i :: 0 <= i < |events| ==> !events[i].Store?
    ensures trace[|events|].cells == trace[0].cells && 0 <= ToReturn(c, trace[|events|])
    ensures WaiterSteps(events) + ToReturn(c, trace[|events|]) <= ToReturn(c, trace[0]) <= 2 * c.cells + 5
    ensures !Done(trace[|events|]) ==> Enabled(c, trace[|events|], Waiter(false, true))
    ensures !Done(trace[|events|]) && Heard(c) ==> Enabled(c, trace[|events|], Waiter(false, false))
    decreases |events|
  {
    RunKeeps(c, trace, events, |events|);
    if Heard(c) { HeardNeverMisses(c, trace[|events|]); }
    if events != [] {
      var n := |events| - 1;
      ReadyBound(c, trace[..n + 1], events[..n]);
      RunKeeps(c, trace, events, n);
      ReadyStep(c, trace[n], events[n]);
    }
  }
}
