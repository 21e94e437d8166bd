/**
 Clients that take prompts from one queue until each has taken a sentinel, interleaved in every way.
 The engine always finishes a request; what it computes is a function of the prompt.
 */
module PromptQueue {
  import opened Sums

  datatype Item = Prompt(idx: nat, tokens: seq<int>) | Sentinel

  datatype Row = Row(request: nat, tokens: nat, mean: real)

  /** A client that waits for an item, for the engine, or for its consumer thread; or has left the loop. */
  datatype Client = Ready | Generating(idx: nat, tokens: seq<int>) | Consuming(row: Row) | Exited

  datatype Config = Config(prompts: seq<seq<int>>, clients: nat, mean: seq<int> -> real)

  /** `unfinished` is the queue's count of items whose `task_done` is still to come. */
  datatype State = State(queue: seq<Item>, clients: seq<Client>, results: seq<Row>, unfinished: int)

  /** The queue as set up: the prompts in order, then one sentinel per client. */
  function Filled(c: Config): (q: seq<Item>)
    ensures |q| == |c.prompts| + c.clients
  {
    seq(|c.prompts| + c.clients, i requires 0 <= i < |c.prompts| + c.clients =>
      if i < |c.prompts| then Prompt(i, c.prompts[i]) else Sentinel)
  }

  method Fill(c: Config) returns (queue: seq<Item>)
    ensures queue == Filled(c)
  {
    queue := [];
    for idx := 0 to |c.prompts|
      invariant queue == Filled(c)[..idx]
    {
      queue := queue + [Prompt(idx, c.prompts[idx])];
    }
    for k := 0 to c.clients
      invariant queue == Filled(c)[..|c.prompts| + k]
    {
      queue := queue + [Sentinel];
    }
  }

  predicate Enabled(s: State, i: nat) {
    i < |s.clients| && !s.clients[i].Exited? && (s.clients[i].Ready? ==> s.queue != [])
  }

  /** Client `i` runs to its next await. */
  function Next(c: Config, s: State, i: nat): (s': State)
    requires Enabled(s, i)
  {
    match s.clients[i]
    case Ready =>
      (match s.queue[0]
       case Sentinel =>
         s.(queue := s.queue[1..], clients := s.clients[i := Exited], unfinished := s.unfinished - 1)
       case Prompt(idx, tokens) =>
         s.(queue := s.queue[1..], clients := s.clients[i := Generating(idx, tokens)]))
    case Generating(idx, tokens) =>
      s.(clients := s.clients[i := Consuming(Row(idx, |tokens|, c.mean(tokens)))])
    case Consuming(row) =>
      s.(clients := s.clients[i := Ready], results := s.results + [row], unfinished := s.unfinished - 1)
  }

  predicate Initial(c: Config, s: State) {
    && s.queue == Filled(c) && s.results == [] && s.unfinished == |s.queue|
    && |s.clients| == c.clients && forall i :: 0 <= i < c.clients ==> s.clients[i] == Ready
  }

  ghost predicate IsRun(c: Config, trace: seq<State>, who: seq<nat>) {
    && |trace| == |who| + 1
    && forall i :: 0 <= i < |who| ==> Enabled(trace[i], who[i]) && trace[i + 1] == Next(c, trace[i], who[i])
  }

  // ----- what every step keeps -----

  predicate Busy(k: Client) { k.Generating? || k.Consuming? }

  function Request(k: Client): (idx: nat)
    requires Busy(k)
  {
    if k.Generating? then k.idx else k.row.request
  }

  function RowOf(c: Config, idx: nat): (r: Row)
    requires idx < |c.prompts|
  {
    Row(idx, |c.prompts[idx]|, c.mean(c.prompts[idx]))
  }

  /** How many items have been taken. */
  function Taken(c: Config, s: State): (d: int) { |c.prompts| + c.clients - |s.queue| }

  /** Prompt `idx` has been taken. */
  predicate Dequeued(c: Config, s: State, idx: nat) { idx < |c.prompts| && idx < Taken(c, s) }

  /** What each client and each row works on is its own prompt. */
  predicate Right(c: Config, s: State) {
    && (forall i :: 0 <= i < |s.clients| && Busy(s.clients[i]) ==> Dequeued(c, s, Request(s.clients[i])))
    && (forall i :: 0 <= i < |s.clients| && s.clients[i].Generating? ==> s.clients[i].tokens == c.prompts[s.clients[i].idx])
    && (forall i :: 0 <= i < |s.clients| && s.clients[i].Consuming? ==>
          s.clients[i].row == RowOf(c, s.clients[i].row.request))
    && (forall k :: 0 <= k < |s.results| ==>
          Dequeued(c, s, s.results[k].request) && s.results[k] == RowOf(c, s.results[k].request))
  }

  ghost predicate HasRow(s: State, idx: nat) { exists k :: 0 <= k < |s.results| && s.results[k].request == idx }

  ghost predicate HasClient(s: State, idx: nat) {
    exists i :: 0 <= i < |s.clients| && Busy(s.clients[i]) && Request(s.clients[i]) == idx
  }

  /** Every prompt taken is in one place: with one client or in one row. */
  ghost predicate Once(c: Config, s: State) {
    && (forall i, j :: 0 <= i < j < |s.clients| && Busy(s.clients[i]) && Busy(s.clients[j]) ==>
          Request(s.clients[i]) != Request(s.clients[j]))
    && (forall k, l :: 0 <= k < l < |s.results| ==> s.results[k].request != s.results[l].request)
    && (forall i, k :: 0 <= i < |s.clients| && Busy(s.clients[i]) && 0 <= k < |s.results| ==>
          Request(s.clients[i]) != s.results[k].request)
    && (forall idx: nat :: Dequeued(c, s, idx) ==> HasRow(s, idx) || HasClient(s, idx))
  }

  function Those(s: State, f: Client -> bool): (r: set<nat>) {
    set i | 0 <= i < |s.clients| && f(s.clients[i])
  }

  function Gone(s: State): (r: set<nat>) { Those(s, (k: Client) => k.Exited?) }

  function Working(s: State): (r: set<nat>) { Those(s, (k: Client) => Busy(k)) }

  /** The queue is what is left of the initial one, and its sentinels went to the exited clients, one each. */
  ghost predicate Counted(c: Config, s: State) {
    && |s.clients| == c.clients && |s.queue| <= |c.prompts| + c.clients
    && s.queue == Filled(c)[Taken(c, s)..]
    && |Gone(s)| == (if Taken(c, s) <= |c.prompts| then 0 else Taken(c, s) - |c.prompts|)
    && s.unfinished == |s.queue| + |Working(s)|
  }

  ghost predicate Inv(c: Config, s: State) { Right(c, s) && Once(c, s) && Counted(c, s) }

  lemma Head(c: Config, s: State)
    requires Counted(c, s) && s.queue != []
    ensures s.queue[0] == (if Taken(c, s) < |c.prompts| then Prompt(Taken(c, s), c.prompts[Taken(c, s)]) else Sentinel)
    ensures s.queue[1..] == Filled(c)[Taken(c, s) + 1..]
  {
  }

  lemma ThoseUpdate(s: State, s': State, i: nat, k: Client, f: Client -> bool)
    requires i < |s.clients| && s'.clients == s.clients[i := k]
    ensures Those(s', f) == if f(k) then Those(s, f) + {i} else Those(s, f) - {i}
  {
  }

  lemma CountedKept(c: Config, s: State, i: nat)
    requires Counted(c, s) && Enabled(s, i)
    ensures Counted(c, Next(c, s, i))
  {
    var s' := Next(c, s, i);
    SetsAfter(c, s, i);
    hide Those, Filled, Gone, Working;
    if s.clients[i].Ready? { Head(c, s); }
  }

  lemma SetsAfter(c: Config, s: State, i: nat)
    requires Enabled(s, i)
    ensures var s' := Next(c, s, i);
      && |Gone(s')| == |Gone(s)| + (if s'.clients[i].Exited? then 1 else 0)
      && |Working(s')| == |Working(s)| + (if Busy(s'.clients[i]) then 1 else 0) - (if Busy(s.clients[i]) then 1 else 0)
  {
    var s' := Next(c, s, i);
    ThoseUpdate(s, s', i, s'.clients[i], (k: Client) => k.Exited?);
    ThoseUpdate(s, s', i, s'.clients[i], (k: Client) => Busy(k));
    Membership(s, i);
    hide Those;
  }

  lemma Membership(s: State, i: nat)
    requires i < |s.clients|
    ensures i in Gone(s) <==> s.clients[i].Exited?
    ensures i in Working(s) <==> Busy(s.clients[i])
  {
  }

  lemma RightKept(c: Config, s: State, i: nat)
    requires Right(c, s) && Counted(c, s) && Enabled(s, i)
    ensures Right(c, Next(c, s, i))
  {
    hide Counted;
    HeadOf(c, s);
  }

  /** The next item, when there is one. */
  lemma HeadOf(c: Config, s: State)
    requires Counted(c, s)
    ensures Taken(c, s) >= 0
    ensures s.queue != [] ==>
      s.queue[0] == (if Taken(c, s) < |c.prompts| then Prompt(Taken(c, s), c.prompts[Taken(c, s)]) else Sentinel)
  {
    if s.queue != [] { Head(c, s); }
  }

  lemma OnceKept(c: Config, s: State, i: nat)
    requires Inv(c, s) && Enabled(s, i)
    ensures Once(c, Next(c, s, i))
  {
    hide Counted;
    HeadOf(c, s);
    var s' := Next(c, s, i);
    match s.clients[i] {
      case Ready => OnceTaken(c, s, i);
      case Generating(_, _) =>
        forall idx: nat | Dequeued(c, s', idx) ensures HasRow(s', idx) || HasClient(s', idx) {
          StillHeld(s, s', i, idx);
        }
      case Consuming(row) =>
        assert s'.results[|s.results|] == row;
        forall idx: nat | Dequeued(c, s', idx) ensures HasRow(s', idx) || HasClient(s', idx) {
          if idx != row.request { StillHeld(s, s', i, idx); }
        }
    }
  }

  /** A prompt that client `i` does not drop stays where it was. */
  lemma StillHeld(s: State, s': State, i: nat, idx: nat)
    requires i < |s.clients| && |s'.clients| == |s.clients| && s.results <= s'.results
    requires forall j :: 0 <= j < |s.clients| && j != i ==> s'.clients[j] == s.clients[j]
    requires Busy(s.clients[i]) && Request(s.clients[i]) == idx ==> Busy(s'.clients[i]) && Request(s'.clients[i]) == idx
    requires HasRow(s, idx) || HasClient(s, idx)
    ensures HasRow(s', idx) || HasClient(s', idx)
  {
    if HasRow(s, idx) {
      var k :| 0 <= k < |s.results| && s.results[k].request == idx;
      assert s'.results[k].request == idx;
    } else {
      var j :| 0 <= j < |s.clients| && Busy(s.clients[j]) && Request(s.clients[j]) == idx;
      assert Busy(s'.clients[j]) && Request(s'.clients[j]) == idx;
    }
  }

  lemma OnceTaken(c: Config, s: State, i: nat)
    requires Inv(c, s) && Enabled(s, i) && s.clients[i].Ready?
    ensures Once(c, Next(c, s, i))
  {
    hide Counted;
    HeadOf(c, s);
    var s' := Next(c, s, i);
    forall idx: nat | Dequeued(c, s', idx) ensures HasRow(s', idx) || HasClient(s', idx) {
      if idx == Taken(c, s) {
        assert Busy(s'.clients[i]) && Request(s'.clients[i]) == idx;
      } else {
        StillHeld(s, s', i, idx);
      }
    }
  }

  lemma StepKeeps(c: Config, s: State, i: nat)
    requires Inv(c, s) && Enabled(s, i)
    ensures Inv(c, Next(c, s, i))
  {
    hide Right, Once, Counted;
    RightKept(c, s, i);
    OnceKept(c, s, i);
    CountedKept(c, s, i);
  }

  lemma InitialHolds(c: Config, s: State)
    requires Initial(c, s)
    ensures Inv(c, s)
  {
    assert Gone(s) == {} && Working(s) == {};
    assert s.queue == Filled(c)[0..];
  }

  lemma {:induction false} RunKeeps(c: Config, trace: seq<State>, who: seq<nat>, k: nat)
    requires IsRun(c, trace, who) && Initial(c, trace[0]) && k <= |who|
    ensures Inv(c, trace[k])
  {
    hide Inv, Next, Initial;
    if k == 0 {
      InitialHolds(c, trace[0]);
    } else {
      RunKeeps(c, trace, who, k - 1);
      StepKeeps(c, trace[k - 1], who[k - 1]);
    }
  }

  // ----- what holds in every run -----

  ghost predicate AllExited(s: State) { forall i :: 0 <= i < |s.clients| ==> s.clients[i].Exited? }

  lemma ExitedCount(c: Config, s: State)
    requires Counted(c, s)
    ensures AllExited(s) <==> |Gone(s)| == c.clients
    ensures |Gone(s)| <= c.clients
  {
    FullBelow(c.clients, Gone(s));
    forall i | 0 <= i < c.clients ensures i in Gone(s) <==> s.clients[i].Exited? { Membership(s, i); }
  }

  /** No client leaves while a prompt is in the queue, and as many have left as sentinels were taken. */
  lemma NobodyLeavesEarly(c: Config, s: State, i: nat)
    requires Inv(c, s) && i < |s.clients| && s.clients[i].Exited?
    ensures forall k :: 0 <= k < |s.queue| ==> s.queue[k].Sentinel?
    ensures |s.queue| + |Gone(s)| == c.clients
  {
    Membership(s, i);
    assert |Gone(s)| > 0;
  }

  /** When all clients have left, the queue is empty and every prompt has exactly one row, its own. */
  lemma EveryPromptAnswered(c: Config, s: State)
    requires Inv(c, s) && AllExited(s) && c.clients >= 1
    ensures s.queue == [] && s.unfinished == 0
    ensures forall k :: 0 <= k < |s.results| ==>
      s.results[k].request < |c.prompts| && s.results[k] == RowOf(c, s.results[k].request)
    ensures forall k, l :: 0 <= k < l < |s.results| ==> s.results[k].request != s.results[l].request
    ensures forall idx: nat :: idx < |c.prompts| ==> HasRow(s, idx)
  {
    ExitedCount(c, s);
    assert Working(s) == {};
    forall idx: nat | idx < |c.prompts| ensures HasRow(s, idx) {
      assert Dequeued(c, s, idx);
      assert !HasClient(s, idx);
    }
  }

  /** Until all have left, some client can go on: nobody waits on an empty queue. */
  lemma NoDeadlock(c: Config, s: State)
    requires Inv(c, s) && !AllExited(s)
    ensures exists i :: Enabled(s, i)
  {
    ExitedCount(c, s);
    var i :| 0 <= i < |s.clients| && !s.clients[i].Exited?;
    assert s.queue != [];
    assert Enabled(s, i);
  }

  // ----- termination -----

  function Effort(k: Client): (n: nat) {
    match k
    case Generating(_, _) => 2
    case Consuming(_) => 1
    case _ => 0
  }

  function Efforts(ks: seq<Client>): (n: nat) {
    if ks == [] then 0 else Efforts(ks[..|ks| - 1]) + Effort(ks[|ks| - 1])
  }

  lemma {:induction false} EffortsUpdate(ks: seq<Client>, i: nat, k: Client)
    requires i < |ks|
    ensures Efforts(ks[i := k]) == Efforts(ks) - Effort(ks[i]) + Effort(k)
  {
    var n := |ks| - 1;
    if i == n {
      assert ks[i := k][..n] == ks[..n];
    } else {
      assert ks[i := k][..n] == ks[..n][i := k];
      EffortsUpdate(ks[..n], i, k);
    }
  }

  function Measure(s: State): (n: nat) { 3 * |s.queue| + Efforts(s.clients) }

  lemma StepsDecrease(c: Config, s: State, i: nat)
    requires Enabled(s, i)
    ensures Measure(Next(c, s, i)) < Measure(s)
  {
    EffortsUpdate(s.clients, i, Next(c, s, i).clients[i]);
  }

  lemma {:induction false} NoEffort(ks: seq<Client>)
    requires forall i :: 0 <= i < |ks| ==> ks[i] == Ready
    ensures Efforts(ks) == 0
  {
    if ks != [] { NoEffort(ks[..|ks| - 1]); }
  }

  lemma {:induction false} RunDecreases(c: Config, trace: seq<State>, who: seq<nat>, k: nat)
    requires IsRun(c, trace, who) && k <= |who|
    ensures Measure(trace[k]) + k <= Measure(trace[0])
  {
    if k > 0 {
      RunDecreases(c, trace, who, k - 1);
      StepsDecrease(c, trace[k - 1], who[k - 1]);
    }
  }

  /**
   Every run ends within three steps per item; and a run that cannot go on has answered every prompt
   exactly once, with the row that is its own.
   */
  lemma EveryRunAnswers(c: Config, trace: seq<State>, who: seq<nat>)
    requires IsRun(c, trace, who) && Initial(c, trace[0]) && c.clients >= 1
    ensures |who| <= 3 * (|c.prompts| + c.clients)
    ensures var s := trace[|who|];
      (forall i :: !Enabled(s, i)) ==>
        AllExited(s) && s.queue == [] && (forall idx: nat :: idx < |c.prompts| ==> HasRow(s, idx))
        && (forall k :: 0 <= k < |s.results| ==>
              s.results[k].request < |c.prompts| && s.results[k] == RowOf(c, s.results[k].request))
        && (forall k, l :: 0 <= k < l < |s.results| ==> s.results[k].request != s.results[l].request)
  {
    RunDecreases(c, trace, who, |who|);
    NoEffort(trace[0].clients);
    RunKeeps(c, trace, who, |who|);
    var s := trace[|who|];
    if forall i :: !Enabled(s, i) {
      hide Inv, Enabled;
      if !AllExited(s) { NoDeadlock(c, s); }
      EveryPromptAnswered(c, s);
    }
  }

  /** Such a run exists: from any state that is in order the clients can go on until all have left. */
  lemma {:induction false} RunToEnd(c: Config, s: State) returns (trace: seq<State>, who: seq<nat>)
    requires Inv(c, s)
    ensures IsRun(c, trace, who) && trace[0] == s && AllExited(trace[|who|])
    decreases Measure(s)
  {
    trace, who := [s], [];
    if !AllExited(s) {
      NoDeadlock(c, s);
      var i: nat :| Enabled(s, i);
      StepKeeps(c, s, i);
      StepsDecrease(c, s, i);
      hide *;
      var rest, others := RunToEnd(c, Next(c, s, i));
      Prepend(c, s, i, rest, others);
      trace, who := [s] + rest, [i] + others;
    }
  }

  lemma Prepend(c: Config, s: State, i: nat, trace: seq<State>, who: seq<nat>)
    requires Enabled(s, i) && IsRun(c, trace, who) && trace[0] == Next(c, s, i)
    ensures IsRun(c, [s] + trace, [i] + who) && ([s] + trace)[|who| + 1] == trace[|who|]
  {
    hide Enabled, Next;
  }

  /** From the start there is a run that answers every prompt. */
  lemma SomeRunAnswers(c: Config) returns (trace: seq<State>, who: seq<nat>)
    ensures IsRun(c, trace, who) && Initial(c, trace[0]) && AllExited(trace[|who|])
  {
    var s := State(Filled(c), seq(c.clients, _ => Ready), [], |c.prompts| + c.clients);
    InitialHolds(c, s);
    trace, who := RunToEnd(c, s);
  }
}
