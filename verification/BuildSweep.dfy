/**
 The sweep over the start and stop times of parallel build steps that gives each step its weighted
 time. Times are the integral milliseconds of the log, weighted times exact reals.
 */
module BuildSweep {

  datatype Step = Step(start: nat, end: nat)

  datatype Event = Event(time: nat, stop: bool, task: nat)

  // ----- the meaning, tick by tick -----

  /** The steps that run during the tick from `t` to `t + 1`. */
  function Running(steps: seq<Step>, t: nat): (s: set<nat>) {
    set i | 0 <= i < |steps| && steps[i].start <= t < steps[i].end
  }

  /** One tick is shared equally by the steps that run in it. */
  function Share(steps: seq<Step>, t: nat): (r: real)
    ensures 0.0 <= r <= 1.0
  {
    var n := |Running(steps, t)|;
    if n == 0 then 0.0 else 1.0 / n as real
  }

  /** The shares of all ticks before `t`. */
  function Weight(steps: seq<Step>, t: nat): (r: real) {
    if t == 0 then 0.0 else Weight(steps, t - 1) + Share(steps, t - 1)
  }

  /** A step's weighted time: the shares of the ticks in which it runs. */
  function WeightOf(steps: seq<Step>, i: nat): (r: real)
    requires i < |steps|
  {
    Weight(steps, steps[i].end) - Weight(steps, steps[i].start)
  }

  /** How many ticks before `t` have at least one running step: the measure of the union. */
  function Busy(steps: seq<Step>, t: nat): (n: nat)
    ensures n <= t
  {
    if t == 0 then 0 else Busy(steps, t - 1) + if Running(steps, t - 1) == {} then 0 else 1
  }

  lemma {:induction false} WeightBounds(steps: seq<Step>, a: nat, b: nat)
    requires a <= b
    ensures 0.0 <= Weight(steps, b) - Weight(steps, a) <= (b - a) as real
    decreases b
  {
    if a < b {
      WeightBounds(steps, a, b - 1);
    }
  }

  /** While the same steps run, weighted time grows at a constant rate. */
  lemma {:induction false} ConstantRate(steps: seq<Step>, a: nat, b: nat, s: set<nat>)
    requires a <= b && forall t :: a <= t < b ==> Running(steps, t) == s
    ensures s == {} ==> Weight(steps, b) == Weight(steps, a)
    ensures s != {} ==> Weight(steps, b) == Weight(steps, a) + (b - a) as real / |s| as real
    decreases b
  {
    if a < b {
      ConstantRate(steps, a, b - 1, s);
      assert Running(steps, b - 1) == s;
      if s != {} {
        var n := |s| as real;
        assert (b - 1 - a) as real / n + 1.0 / n == (b - a) as real / n;
      }
    }
  }

  // ----- the weighted times add up to the busy time -----

  /** The shares of the ticks before `t` in which step `i` runs. */
  function Part(steps: seq<Step>, i: nat, t: nat): (r: real)
    requires i < |steps|
  {
    if t == 0 then 0.0
    else Part(steps, i, t - 1) + if i in Running(steps, t - 1) then Share(steps, t - 1) else 0.0
  }

  lemma {:induction false} PartIsWeight(steps: seq<Step>, i: nat, t: nat)
    requires i < |steps| && steps[i].start <= steps[i].end
    ensures Part(steps, i, t) ==
      if t <= steps[i].start then 0.0
      else if t <= steps[i].end then Weight(steps, t) - Weight(steps, steps[i].start)
      else WeightOf(steps, i)
  {
    if t > 0 {
      PartIsWeight(steps, i, t - 1);
    }
  }

  function SumParts(steps: seq<Step>, n: nat, t: nat): (r: real)
    requires n <= |steps|
  {
    if n == 0 then 0.0 else SumParts(steps, n - 1, t) + Part(steps, n - 1, t)
  }

  function SumWeights(steps: seq<Step>, n: nat): (r: real)
    requires n <= |steps|
  {
    if n == 0 then 0.0 else SumWeights(steps, n - 1) + WeightOf(steps, n - 1)
  }

  function Below(s: set<nat>, n: nat): (r: set<nat>) {
    set i | i in s && i < n
  }

  /** One more tick adds its share once for every step that runs in it. */
  lemma {:induction false} SumPartsTick(steps: seq<Step>, n: nat, t: nat)
    requires n <= |steps| && t > 0
    ensures SumParts(steps, n, t)
         == SumParts(steps, n, t - 1) + |Below(Running(steps, t - 1), n)| as real * Share(steps, t - 1)
  {
    hide Running, Share, Below;
    var s, x := Running(steps, t - 1), Share(steps, t - 1);
    BelowStep(s, n);
    if n > 0 {
      SumPartsTick(steps, n - 1, t);
      AddOne(|Below(s, n - 1)|, x);
    }
  }

  lemma BelowStep(s: set<nat>, n: nat)
    ensures n == 0 ==> |Below(s, n)| == 0
    ensures n > 0 ==> |Below(s, n)| == |Below(s, n - 1)| + if n - 1 in s then 1 else 0
  {
    if n == 0 {
      assert Below(s, 0) == {};
    } else if n - 1 in s {
      assert Below(s, n) == Below(s, n - 1) + {n - 1};
    } else {
      assert Below(s, n) == Below(s, n - 1);
    }
  }

  lemma AddOne(k: nat, x: real)
    ensures (k + 1) as real * x == k as real * x + x
  {
  }

  lemma {:induction false} PartsAreBusy(steps: seq<Step>, t: nat)
    ensures SumParts(steps, |steps|, t) == Busy(steps, t) as real
  {
    if t == 0 {
      NoParts(steps, |steps|);
    } else {
      PartsAreBusy(steps, t - 1);
      SumPartsTick(steps, |steps|, t);
      var s := Running(steps, t - 1);
      assert Below(s, |steps|) == s;
      WholeTick(steps, t - 1);
    }
  }

  lemma WholeTick(steps: seq<Step>, t: nat)
    ensures |Running(steps, t)| as real * Share(steps, t) == if Running(steps, t) == {} then 0.0 else 1.0
  {
    var n := |Running(steps, t)|;
    if n > 0 { assert n as real * (1.0 / n as real) == 1.0; }
  }

  lemma {:induction false} NoParts(steps: seq<Step>, n: nat)
    requires n <= |steps|
    ensures SumParts(steps, n, 0) == 0.0
  {
    if n > 0 { NoParts(steps, n - 1); }
  }

  predicate Ordered(steps: seq<Step>) {
    forall i :: 0 <= i < |steps| ==> steps[i].start <= steps[i].end
  }

  lemma {:induction false} SumsAgree(steps: seq<Step>, n: nat, t: nat)
    requires n <= |steps| && Ordered(steps) && forall i :: 0 <= i < |steps| ==> steps[i].end <= t
    ensures SumWeights(steps, n) == SumParts(steps, n, t)
  {
    if n > 0 {
      SumsAgree(steps, n - 1, t);
      PartIsWeight(steps, n - 1, t);
      if steps[n - 1].end == steps[n - 1].start { assert WeightOf(steps, n - 1) == 0.0; }
    }
  }

  /** The weighted times of all steps sum to the measure of the union of their intervals. */
  lemma WeightsSumToBusy(steps: seq<Step>, t: nat)
    requires Ordered(steps) && forall i :: 0 <= i < |steps| ==> steps[i].end <= t
    ensures SumWeights(steps, |steps|) == Busy(steps, t) as real
  {
    SumsAgree(steps, |steps|, t);
    PartsAreBusy(steps, t);
  }

  /** A weighted time is never negative and never longer than the step itself. */
  lemma WeightedAtMostDuration(steps: seq<Step>, i: nat)
    requires i < |steps| && steps[i].start <= steps[i].end
    ensures 0.0 <= WeightOf(steps, i) <= (steps[i].end - steps[i].start) as real
  {
    WeightBounds(steps, steps[i].start, steps[i].end);
  }

  // ----- the sweep -----

  /** The order of the sort keys: by time, and "start" before "stop". */
  predicate NotAfter(e: Event, f: Event) {
    e.time < f.time || (e.time == f.time && (!e.stop || f.stop))
  }

  /** `events` lists the two events of every step, each once, in the order of the keys. */
  ghost predicate Schedule(steps: seq<Step>, events: seq<Event>) {
    && (forall i, j :: 0 <= i < j < |events| ==> NotAfter(events[i], events[j]) && events[i] != events[j])
    && (forall e :: e in events <==> IsEvent(steps, e))
  }

  predicate IsEvent(steps: seq<Step>, e: Event) {
    e.task < |steps| && e.time == if e.stop then steps[e.task].end else steps[e.task].start
  }

  function StartOf(steps: seq<Step>, i: nat): (e: Event)
    requires i < |steps|
  {
    Event(steps[i].start, false, i)
  }

  function StopOf(steps: seq<Step>, i: nat): (e: Event)
    requires i < |steps|
  {
    Event(steps[i].end, true, i)
  }

  /** The steps whose start, respectively stop, is among the first `k` events. */
  ghost function Started(steps: seq<Step>, events: seq<Event>, k: nat): (s: set<nat>)
    requires k <= |events|
  {
    set i | 0 <= i < |steps| && StartOf(steps, i) in events[..k]
  }

  ghost function Stopped(steps: seq<Step>, events: seq<Event>, k: nat): (s: set<nat>)
    requires k <= |events|
  {
    set i | 0 <= i < |steps| && StopOf(steps, i) in events[..k]
  }

  lemma PositionOf(events: seq<Event>, e: Event) returns (p: nat)
    requires e in events
    ensures p < |events| && events[p] == e
  {
    p :| 0 <= p < |events| && events[p] == e;
  }

  /** Between two events at different times, the tasks in the running table are the running steps. */
  lemma GapIsSteady(steps: seq<Step>, events: seq<Event>, k: nat, t: nat)
    requires Schedule(steps, events) && 0 < k < |events| && events[k - 1].time <= t < events[k].time
    ensures Running(steps, t) == Started(steps, events, k) - Stopped(steps, events, k)
  {
    forall i | 0 <= i < |steps|
      ensures i in Running(steps, t) <==> i in Started(steps, events, k) && i !in Stopped(steps, events, k)
    {
      TaskInGap(steps, events, k, t, i);
    }
  }

  lemma TaskInGap(steps: seq<Step>, events: seq<Event>, k: nat, t: nat, i: nat)
    requires Schedule(steps, events) && 0 < k < |events| && events[k - 1].time <= t < events[k].time && i < |steps|
    ensures steps[i].start <= t <==> StartOf(steps, i) in events[..k]
    ensures steps[i].end <= t <==> StopOf(steps, i) in events[..k]
  {
    EventInGap(steps, events, k, t, StartOf(steps, i));
    EventInGap(steps, events, k, t, StopOf(steps, i));
  }

  lemma EventInGap(steps: seq<Step>, events: seq<Event>, k: nat, t: nat, e: Event)
    requires Schedule(steps, events) && 0 < k < |events| && events[k - 1].time <= t < events[k].time
    requires IsEvent(steps, e)
    ensures e.time <= t <==> e in events[..k]
  {
    var p := PositionOf(events, e);
    if p < k {
      assert events[..k][p] == e;
      assert p < k - 1 ==> NotAfter(events[p], events[k - 1]);
    } else {
      assert p > k ==> NotAfter(events[k], events[p]);
    }
  }

  /** If a step's stop comes at position `k`, its start has been seen exactly when it is ordered. */
  lemma StopFindsStart(steps: seq<Step>, events: seq<Event>, k: nat)
    requires Schedule(steps, events) && k < |events| && events[k].stop
    ensures events[k].task < |steps|
    ensures events[k].task in Started(steps, events, k) <==> steps[events[k].task].start <= steps[events[k].task].end
    ensures events[k].task !in Stopped(steps, events, k)
  {
    assert events[k] in events;
    var i := events[k].task;
    var p := PositionOf(events, StartOf(steps, i));
    if p < k {
      assert events[..k][p] == StartOf(steps, i);
      assert NotAfter(events[p], events[k]);
    } else {
      assert NotAfter(events[k], events[p]);
    }
  }

  lemma NextStarted(steps: seq<Step>, events: seq<Event>, k: nat)
    requires Schedule(steps, events) && k < |events|
    ensures events[k].task < |steps|
    ensures Started(steps, events, k + 1) == Started(steps, events, k) + if events[k].stop then {} else {events[k].task}
    ensures Stopped(steps, events, k + 1) == Stopped(steps, events, k) + if events[k].stop then {events[k].task} else {}
    ensures !events[k].stop ==> events[k].task !in Started(steps, events, k)
  {
    assert events[k] in events;
    assert events[..k + 1] == events[..k] + [events[k]];
    assert events[k] == if events[k].stop then StopOf(steps, events[k].task) else StartOf(steps, events[k].task);
  }

  lemma AllSeen(steps: seq<Step>, events: seq<Event>)
    requires Schedule(steps, events)
    ensures Started(steps, events, |events|) == Stopped(steps, events, |events|)
    ensures forall i :: 0 <= i < |steps| ==> i in Stopped(steps, events, |events|)
  {
    assert events[..|events|] == events;
    forall i | 0 <= i < |steps| ensures StartOf(steps, i) in events && StopOf(steps, i) in events {
      assert IsEvent(steps, StartOf(steps, i)) && IsEvent(steps, StopOf(steps, i));
    }
  }

  // ----- what has been added up so far -----

  function SumIn(steps: seq<Step>, n: nat, s: set<nat>): (r: real)
    requires n <= |steps|
  {
    if n == 0 then 0.0 else SumIn(steps, n - 1, s) + if n - 1 in s then WeightOf(steps, n - 1) else 0.0
  }

  lemma {:induction false} SumInAdd(steps: seq<Step>, n: nat, s: set<nat>, i: nat)
    requires n <= |steps| && i < |steps| && i !in s
    ensures SumIn(steps, n, s + {i}) == SumIn(steps, n, s) + if i < n then WeightOf(steps, i) else 0.0
  {
    if n > 0 { SumInAdd(steps, n - 1, s, i); }
  }

  lemma {:induction false} SumInNone(steps: seq<Step>, n: nat)
    requires n <= |steps|
    ensures SumIn(steps, n, {}) == 0.0
  {
    if n > 0 { SumInNone(steps, n - 1); }
  }

  lemma {:induction false} SumInAll(steps: seq<Step>, n: nat, s: set<nat>)
    requires n <= |steps| && forall i :: 0 <= i < n ==> i in s
    ensures SumIn(steps, n, s) == SumWeights(steps, n)
  {
    if n > 0 { SumInAll(steps, n - 1, s); }
  }

  // ----- one step of the sweep -----

  /** Nothing runs before the first event. */
  lemma NothingBefore(steps: seq<Step>, events: seq<Event>)
    requires Schedule(steps, events) && |events| > 0
    ensures Weight(steps, events[0].time) == 0.0
  {
    forall t: nat | t < events[0].time ensures Running(steps, t) == {} {
      forall i | 0 <= i < |steps| ensures i !in Running(steps, t) {
        assert IsEvent(steps, StartOf(steps, i));
        var p := PositionOf(events, StartOf(steps, i));
        assert p > 0 ==> NotAfter(events[0], events[p]);
      }
    }
    ConstantRate(steps, 0, events[0].time, {});
  }

  datatype Outcome = EmptyInput | KeyError(task: nat) | Done(total: real)

  /** The running table after `k` events: who runs, and the weighted time at which each one started. */
  ghost predicate Tracks(steps: seq<Step>, events: seq<Event>, k: nat, running: map<nat, real>)
    requires k <= |events|
  {
    && running.Keys == Started(steps, events, k) - Stopped(steps, events, k)
    && (forall i :: i in running.Keys ==> i < |steps| && running[i] == Weight(steps, steps[i].start))
  }

  /** The tasks stopped by the first `k` events have their weighted times. */
  ghost predicate Recorded(steps: seq<Step>, events: seq<Event>, k: nat, weighted: seq<real>)
    requires k <= |events| && |weighted| == |steps|
  {
    forall i :: i in Stopped(steps, events, k) ==>
      0 <= i < |steps| && steps[i].start <= steps[i].end && weighted[i] == WeightOf(steps, i)
  }

  /** Up to event `k`, weighted time advances by the elapsed time over the number of running tasks. */
  lemma Advance(steps: seq<Step>, events: seq<Event>, k: nat, running: map<nat, real>, last: nat)
    requires Schedule(steps, events) && k < |events| && Tracks(steps, events, k, running)
    requires last == if k == 0 then events[0].time else events[k - 1].time
    ensures last <= events[k].time
    ensures Weight(steps, events[k].time) == Weight(steps, last)
      + if |running| == 0 then 0.0 else (events[k].time - last) as real / |running| as real
  {
    hide Started, Stopped, Running, Weight;
    var b := events[k].time;
    if k > 0 {
      assert NotAfter(events[k - 1], events[k]);
      forall t: nat | last <= t < b ensures Running(steps, t) == running.Keys {
        GapIsSteady(steps, events, k, t);
      }
      ConstantRate(steps, last, b, running.Keys);
    }
  }

  lemma StartEvent(steps: seq<Step>, events: seq<Event>, k: nat, running: map<nat, real>, weighted: seq<real>)
    requires Schedule(steps, events) && k < |events| && !events[k].stop && Tracks(steps, events, k, running)
    requires |weighted| == |steps| && Recorded(steps, events, k, weighted)
    ensures events[k].task < |steps|
    ensures Tracks(steps, events, k + 1, running[events[k].task := Weight(steps, events[k].time)])
    ensures Stopped(steps, events, k + 1) == Stopped(steps, events, k)
    ensures Recorded(steps, events, k + 1, weighted)
  {
    NextStarted(steps, events, k);
    StartBeforeStop(steps, events, k);
    assert events[k] in events;
  }

  lemma StartBeforeStop(steps: seq<Step>, events: seq<Event>, k: nat)
    requires Schedule(steps, events) && k < |events| && !events[k].stop
    ensures events[k].task < |steps|
    ensures steps[events[k].task].start <= steps[events[k].task].end ==> events[k].task !in Stopped(steps, events, k)
  {
    assert events[k] in events;
    var i := events[k].task;
    if i in Stopped(steps, events, k) {
      var q := PositionOf(events[..k], StopOf(steps, i));
      assert NotAfter(events[q], events[k]);
    }
  }

  lemma StopEvent(steps: seq<Step>, events: seq<Event>, k: nat, running: map<nat, real>)
    requires Schedule(steps, events) && k < |events| && events[k].stop && Tracks(steps, events, k, running)
    ensures events[k].task < |steps| && events[k].task !in Stopped(steps, events, k)
    ensures events[k].task in running <==> steps[events[k].task].start <= steps[events[k].task].end
    ensures Tracks(steps, events, k + 1, running - {events[k].task})
    ensures Stopped(steps, events, k + 1) == Stopped(steps, events, k) + {events[k].task}
    ensures events[k].task in running ==>
      WeightOf(steps, events[k].task) == Weight(steps, events[k].time) - running[events[k].task]
  {
    NextStarted(steps, events, k);
    StopFindsStart(steps, events, k);
    assert events[k] in events;
  }

  /**
   The scan over the sorted events. `weighted[i]` is the weighted duration of target `i`; the lookup
   of a stopping target fails exactly when some step ends before it starts.
   */
  method Sweep(steps: seq<Step>, events: seq<Event>, weighted: array<real>) returns (r: Outcome)
    requires Schedule(steps, events) && weighted.Length == |steps|
    modifies weighted
    ensures r.EmptyInput? <==> steps == []
    ensures r.KeyError? <==> !Ordered(steps)
    ensures r.KeyError? ==> r.task < |steps| && steps[r.task].end < steps[r.task].start
    ensures r.Done? ==> r.total == SumWeights(steps, |steps|)
    ensures r.Done? ==> forall i :: 0 <= i < |steps| ==> weighted[i] == WeightOf(steps, i)
  {
    hide Schedule, Started, Stopped, Running, WeightOf, Weight, Tracks, Recorded, SumIn, SumWeights, IsEvent;
    if |events| == 0 {
      NoEvents(steps, events);
      return EmptyInput;
    }
    var running: map<nat, real> := map[];
    var lastTime, lastWeighted, total := events[0].time, 0.0, 0.0;
    NothingSeen(steps, events);
    for k := 0 to |events|
      invariant lastTime == if k == 0 then events[0].time else events[k - 1].time
      invariant lastWeighted == Weight(steps, lastTime)
      invariant Tracks(steps, events, k, running)
      invariant Recorded(steps, events, k, weighted[..])
      invariant total == SumIn(steps, |steps|, Stopped(steps, events, k))
    {
      var e := events[k];
      Advance(steps, events, k, running, lastTime);
      if |running| > 0 {
        lastWeighted := lastWeighted + (e.time - lastTime) as real / |running| as real;
      }
      if !e.stop {
        StartEvent(steps, events, k, running, weighted[..]);
        running := running[e.task := lastWeighted];
      } else {
        StopEvent(steps, events, k, running);
        if e.task !in running { return KeyError(e.task); }
        var duration := lastWeighted - running[e.task];
        RecordStop(steps, events, k, weighted[..], duration);
        weighted[e.task] := duration;
        SumInAdd(steps, |steps|, Stopped(steps, events, k), e.task);
        total := total + duration;
        running := running - {e.task};
      }
      lastTime := e.time;
    }
    AllRecorded(steps, events, running, weighted[..]);
    assert running == map[];
    return Done(total);
  }

  lemma RecordStop(steps: seq<Step>, events: seq<Event>, k: nat, weighted: seq<real>, duration: real)
    requires Schedule(steps, events) && k < |events| && events[k].stop && |weighted| == |steps|
    requires Recorded(steps, events, k, weighted) && events[k].task < |steps|
    requires steps[events[k].task].start <= steps[events[k].task].end && duration == WeightOf(steps, events[k].task)
    ensures Recorded(steps, events, k + 1, weighted[events[k].task := duration])
  {
    NextStarted(steps, events, k);
  }

  lemma AllRecorded(steps: seq<Step>, events: seq<Event>, running: map<nat, real>, weighted: seq<real>)
    requires Schedule(steps, events) && |weighted| == |steps| && Recorded(steps, events, |events|, weighted)
    requires Tracks(steps, events, |events|, running)
    ensures running == map[]
    ensures Ordered(steps) && forall i :: 0 <= i < |steps| ==> weighted[i] == WeightOf(steps, i)
    ensures SumIn(steps, |steps|, Stopped(steps, events, |events|)) == SumWeights(steps, |steps|)
  {
    AllSeen(steps, events);
    SumInAll(steps, |steps|, Stopped(steps, events, |events|));
  }

  lemma NoEvents(steps: seq<Step>, events: seq<Event>)
    requires Schedule(steps, events)
    ensures events == [] <==> steps == []
  {
    if steps != [] { assert IsEvent(steps, StartOf(steps, 0)); }
    if events != [] { assert events[0] in events; }
  }

  lemma NothingSeen(steps: seq<Step>, events: seq<Event>)
    requires Schedule(steps, events) && events != []
    ensures steps != []
    ensures Tracks(steps, events, 0, map[])
    ensures forall w :: |w| == |steps| ==> Recorded(steps, events, 0, w)
    ensures SumIn(steps, |steps|, Stopped(steps, events, 0)) == 0.0
    ensures Weight(steps, events[0].time) == 0.0
  {
    NoEvents(steps, events);
    NothingBefore(steps, events);
    assert Stopped(steps, events, 0) == {};
    SumInNone(steps, |steps|);
  }

  // ----- the events of the entries, and the length of the build -----

  /** The list before sorting: start and stop of each entry in turn. */
  function Listed(steps: seq<Step>, n: nat): (l: seq<Event>)
    requires n <= |steps|
  {
    if n == 0 then [] else Listed(steps, n - 1) + [StartOf(steps, n - 1), StopOf(steps, n - 1)]
  }

  function Times(l: seq<Event>, e: Event): (n: nat) {
    multiset(l)[e]
  }

  lemma {:induction false} CountTwo(l: seq<Event>, a: Event, b: Event, e: Event)
    ensures Times(l + [a, b], e) == Times(l, e) + (if e == a then 1 else 0) + (if e == b then 1 else 0)
  {
    assert l + [a, b] == (l + [a]) + [b];
    assert multiset(l + [a]) == multiset(l) + multiset{a};
    assert multiset((l + [a]) + [b]) == multiset(l + [a]) + multiset{b};
  }

  lemma EventOfTask(steps: seq<Step>, i: nat, e: Event)
    requires i < |steps|
    ensures e == StartOf(steps, i) || e == StopOf(steps, i) <==> IsEvent(steps, e) && e.task == i
    ensures StartOf(steps, i) != StopOf(steps, i)
  {
  }

  lemma {:induction false} ListedStep(steps: seq<Step>, n: nat, e: Event)
    requires 0 < n <= |steps|
    ensures Times(Listed(steps, n), e)
         == Times(Listed(steps, n - 1), e) + if IsEvent(steps, e) && e.task == n - 1 then 1 else 0
  {
    hide StartOf, StopOf, IsEvent, Times;
    var l, a, b := Listed(steps, n - 1), StartOf(steps, n - 1), StopOf(steps, n - 1);
    CountTwo(l, a, b, e);
    EventOfTask(steps, n - 1, e);
  }

  lemma ListedNone(steps: seq<Step>, e: Event)
    ensures Times(Listed(steps, 0), e) == 0
  {
    assert Listed(steps, 0) == [];
  }

  lemma {:induction false} ListedCounts(steps: seq<Step>, n: nat, e: Event)
    requires n <= |steps|
    ensures Times(Listed(steps, n), e) == if IsEvent(steps, e) && e.task < n then 1 else 0
  {
    hide *;
    if n == 0 {
      ListedNone(steps, e);
    } else {
      ListedCounts(steps, n - 1, e);
      ListedStep(steps, n, e);
    }
  }

  function AllEvents(steps: seq<Step>): (l: seq<Event>) {
    Listed(steps, |steps|)
  }

  /** Any order a sort by (time, action) may leave behind, ties broken at will. */
  ghost predicate SortOf(listed: seq<Event>, events: seq<Event>) {
    && multiset(events) == multiset(listed)
    && forall i, j :: 0 <= i < j < |events| ==> NotAfter(events[i], events[j])
  }

  lemma {:induction false} SortedIsSchedule(steps: seq<Step>, events: seq<Event>)
    requires SortOf(AllEvents(steps), events)
    ensures Schedule(steps, events)
  {
    forall e ensures e in events <==> IsEvent(steps, e) {
      ListedCounts(steps, |steps|, e);
      assert e in events <==> e in multiset(events);
    }
    forall i, j | 0 <= i < j < |events|
      ensures NotAfter(events[i], events[j]) && events[i] != events[j]
    {
      ListedCounts(steps, |steps|, events[i]);
      CountTwice(events, i, j);
    }
  }

  lemma {:induction false} CountTwice(events: seq<Event>, i: nat, j: nat)
    requires i < j < |events|
    ensures events[i] == events[j] ==> multiset(events)[events[i]] >= 2
  {
    assert events == events[..j] + events[j..];
    assert events[..j][i] == events[i] && events[j..][0] == events[j];
    assert events[i] in multiset(events[..j]) && events[j] in multiset(events[j..]);
  }

  /** Every tick from `a` to `b` has a running step. */
  ghost predicate NoIdle(steps: seq<Step>, a: nat, b: nat) {
    forall t :: a <= t < b ==> Running(steps, t) != {}
  }

  lemma {:induction false} BusyBetween(steps: seq<Step>, a: nat, b: nat)
    requires a <= b
    ensures 0 <= Busy(steps, b) - Busy(steps, a) <= b - a
    ensures Busy(steps, b) - Busy(steps, a) == b - a <==> NoIdle(steps, a, b)
    decreases b
  {
    if a < b {
      BusyBetween(steps, a, b - 1);
      assert NoIdle(steps, a, b) <==> NoIdle(steps, a, b - 1) && Running(steps, b - 1) != {};
    }
  }

  lemma {:induction false} IdleBefore(steps: seq<Step>, t: nat)
    requires forall i :: 0 <= i < |steps| ==> t <= steps[i].start
    ensures Busy(steps, t) == 0
  {
    if t > 0 {
      IdleBefore(steps, t - 1);
      assert Running(steps, t - 1) == {};
    }
  }

  /** The first pass over the entries. `earliest` is -1 until there is an entry. */
  method Collect(steps: seq<Step>) returns (listed: seq<Event>, earliest: int, latest: nat)
    ensures listed == AllEvents(steps)
    ensures steps == [] ==> earliest == -1 && latest == 0
    ensures forall i :: 0 <= i < |steps| ==> 0 <= earliest <= steps[i].start && steps[i].end <= latest
    ensures steps != [] ==> exists i :: 0 <= i < |steps| && steps[i].start == earliest
    ensures latest > 0 ==> exists i :: 0 <= i < |steps| && steps[i].end == latest
  {
    listed, earliest, latest := [], -1, 0;
    for k := 0 to |steps|
      invariant listed == Listed(steps, k)
      invariant k == 0 ==> earliest == -1 && latest == 0
      invariant forall i :: 0 <= i < k ==> 0 <= earliest <= steps[i].start && steps[i].end <= latest
      invariant k > 0 ==> exists i :: 0 <= i < k && steps[i].start == earliest
      invariant latest > 0 ==> exists i :: 0 <= i < k && steps[i].end == latest
    {
      var s := steps[k];
      if earliest < 0 || s.start < earliest { earliest := s.start; }
      if s.end > latest { latest := s.end; }
      listed := listed + [StartOf(steps, k), StopOf(steps, k)];
    }
  }

  /** What the weighted times add up to: at most the length of the build, and all of it exactly without idle time. */
  lemma TotalIsBusyTime(steps: seq<Step>, earliest: nat, latest: nat)
    requires steps != [] && Ordered(steps)
    requires forall i :: 0 <= i < |steps| ==> earliest <= steps[i].start && steps[i].end <= latest
    ensures SumWeights(steps, |steps|) == Busy(steps, latest) as real
    ensures SumWeights(steps, |steps|) <= (latest - earliest) as real
    ensures SumWeights(steps, |steps|) == (latest - earliest) as real <==> NoIdle(steps, earliest, latest)
  {
    assert steps[0].start <= steps[0].end;
    WeightsSumToBusy(steps, latest);
    IdleBefore(steps, earliest);
    BusyBetween(steps, earliest, latest);
  }

  /** `length` is the elapsed time of a build that starts at `first`. */
  ghost predicate Spans(steps: seq<Step>, first: nat, length: int) {
    && (forall i :: 0 <= i < |steps| ==> first <= steps[i].start && steps[i].end <= first + length)
    && (exists i :: 0 <= i < |steps| && steps[i].start == first)
    && (exists i :: 0 <= i < |steps| && steps[i].end == first + length)
  }

  /** Both passes over the entries, for any order the sort may leave the events in. */
  method Summarize(steps: seq<Step>, sorted: seq<Event>, weighted: array<real>)
    returns (r: Outcome, length: int, ghost first: nat)
    requires SortOf(AllEvents(steps), sorted) && weighted.Length == |steps|
    modifies weighted
    ensures r.EmptyInput? <==> steps == []
    ensures r.KeyError? <==> !Ordered(steps)
    ensures r.Done? ==> Spans(steps, first, length)
    ensures r.Done? ==> r.total == Busy(steps, first + length) as real <= length as real
    ensures r.Done? ==> (r.total == length as real <==> NoIdle(steps, first, first + length))
    ensures r.Done? ==> forall i :: 0 <= i < |steps| ==>
      weighted[i] == WeightOf(steps, i) && 0.0 <= weighted[i] <= (steps[i].end - steps[i].start) as real
  {
    hide NoIdle, Busy, WeightOf, SumWeights, SortOf, AllEvents, Schedule;
    var listed, earliest, latest := Collect(steps);
    length := latest - earliest;
    first := if earliest < 0 then 0 else earliest;
    SortedIsSchedule(steps, sorted);
    r := Sweep(steps, sorted, weighted);
    if r.Done? {
      assert steps[0].start <= steps[0].end;
      LatestIsAnEnd(steps, latest);
      TotalIsBusyTime(steps, first, latest);
      forall i | 0 <= i < |steps| ensures 0.0 <= weighted[i] <= (steps[i].end - steps[i].start) as real {
        WeightedAtMostDuration(steps, i);
      }
    }
  }

  lemma LatestIsAnEnd(steps: seq<Step>, latest: nat)
    requires steps != [] && forall i :: 0 <= i < |steps| ==> steps[i].end <= latest
    requires latest > 0 ==> exists i :: 0 <= i < |steps| && steps[i].end == latest
    ensures exists i :: 0 <= i < |steps| && steps[i].end == latest
  {
    assert steps[0].end <= latest;
  }
}
