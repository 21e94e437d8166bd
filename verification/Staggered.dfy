/**
 Admission of requests to a running engine once the first request has produced enough tokens. The
 engine is any step function that keeps its side of `Faithful`; requests are named by their index.
 */
module Staggered {
  import opened Sums

  /** Requests in the engine with the tokens each has produced; `internal` is whatever else it keeps. */
  datatype Engine = Engine(pending: map<nat, nat>, internal: nat)

  datatype Output = Output(request: nat, count: nat, finished: bool)

  datatype Config = Config(
    maxTokens: nat,
    add: (Engine, nat) -> Engine,
    step: Engine -> (Engine, seq<Output>),
    rank: Engine -> nat)

  /** An admission, with the number of tokens request 0 had produced. */
  datatype Admission = Admission(request: nat, seen: nat)

  datatype Result =
    | AssertionError | IndexError | ValueError | KeyError
    | Rows(admissions: seq<Admission>, arrivals: seq<seq<nat>>)

  // ----- what is asked of the engine -----

  /** The outputs of one step name different unfinished requests and count all their tokens so far. */
  predicate GoodOutputs(max: nat, pending: map<nat, nat>, outs: seq<Output>) {
    && (forall k, l :: 0 <= k < l < |outs| ==> outs[k].request != outs[l].request)
    && (forall k :: 0 <= k < |outs| ==>
          && outs[k].request in pending && pending[outs[k].request] <= outs[k].count <= max
          && (outs[k].finished <==> outs[k].count == max))
  }

  /** The requests after the first `n` outputs. */
  function Absorbed(pending: map<nat, nat>, outs: seq<Output>, n: nat): (r: map<nat, nat>)
    requires n <= |outs|
  {
    if n == 0 then pending
    else
      var p, o := Absorbed(pending, outs, n - 1), outs[n - 1];
      if o.finished then p - {o.request} else p[o.request := o.count]
  }

  predicate Within(max: nat, pending: map<nat, nat>) { forall r :: r in pending ==> pending[r] <= max }

  /** Every step with a request to serve brings its end nearer, and requests end with all their tokens. */
  ghost predicate Faithful(c: Config) {
    && (forall e, r :: c.add(e, r).pending == e.pending[r := 0])
    && (forall e: Engine :: e.pending != map[] && Within(c.maxTokens, e.pending) ==>
          && GoodOutputs(c.maxTokens, e.pending, c.step(e).1)
          && c.step(e).0.pending == Absorbed(e.pending, c.step(e).1, |c.step(e).1|)
          && c.rank(c.step(e).0) < c.rank(e))
  }

  // ----- the bookkeeping -----

  function Get(m: map<nat, nat>, k: nat): (v: nat) { if k in m then m[k] else 0 }

  function Arrived(log: seq<Admission>): (s: set<nat>) { set k | 0 <= k < |log| :: log[k].request }

  ghost predicate Logged(thresholds: seq<int>, log: seq<Admission>) {
    && (forall k :: 0 <= k < |log| ==> log[k].request < |thresholds| && thresholds[log[k].request] <= log[k].seen)
    && (forall k, l :: 0 <= k < l < |log| ==> log[k].request != log[l].request)
  }

  ghost predicate Increasing(s: seq<nat>) { forall i, j :: 0 <= i < j < |s| ==> s[i] < s[j] }

  /** The counts seen at each arrival grow up to `last`. */
  ghost predicate Complete(counts: seq<nat>, last: nat) {
    counts != [] && Increasing(counts) && counts[|counts| - 1] == last
  }

  /** Every admission saw a count that request 0 really had: none, or one of its arrivals. */
  ghost predicate Seen(log: seq<Admission>, first: seq<nat>) {
    forall k :: 0 <= k < |log| ==> log[k].seen == 0 || log[k].seen in first
  }

  /** What the four dictionaries say of request `r`. */
  ghost predicate Booked(max: nat, pending: map<nat, nat>, completed: set<nat>, counts: map<nat, nat>,
                         arrivals: map<nat, seq<nat>>, r: nat)
  {
    && (r in pending ==> Get(counts, r) == pending[r] <= max)
    && (r in completed ==> Get(counts, r) == max)
    && (r in arrivals <==> Get(counts, r) > 0)
    && (r in arrivals ==> Complete(arrivals[r], Get(counts, r)))
  }

  ghost predicate Books(max: nat, log: seq<Admission>, pending: map<nat, nat>, completed: set<nat>,
                        counts: map<nat, nat>, arrivals: map<nat, seq<nat>>)
  {
    && pending.Keys !! completed && pending.Keys + completed == Arrived(log)
    && counts.Keys <= Arrived(log)
    && (forall r :: r in Arrived(log) ==> Booked(max, pending, completed, counts, arrivals, r))
    && (forall r :: r in arrivals ==> r in Arrived(log))
  }

  lemma {:induction false} ArrivedAppend(log: seq<Admission>, a: Admission)
    ensures Arrived(log + [a]) == Arrived(log) + {a.request}
  {
    var all := log + [a];
    assert all[|log|] == a;
    forall r | r in Arrived(log) ensures r in Arrived(all) {
      var k :| 0 <= k < |log| && log[k].request == r;
      assert all[k].request == r;
    }
  }

  lemma AdmitBooks(max: nat, log: seq<Admission>, a: Admission, pending: map<nat, nat>, completed: set<nat>,
                   counts: map<nat, nat>, arrivals: map<nat, seq<nat>>)
    requires Books(max, log, pending, completed, counts, arrivals) && a.request !in Arrived(log)
    ensures Books(max, log + [a], pending[a.request := 0], completed, counts, arrivals)
  {
    hide Arrived;
    ArrivedAppend(log, a);
    forall r | r in Arrived(log + [a]) ensures Booked(max, pending[a.request := 0], completed, counts, arrivals, r) {
      if r in Arrived(log) {
        assert Booked(max, pending, completed, counts, arrivals, r);
      }
    }
  }

  /** Admits every request whose threshold request 0 has reached. */
  method Admit(c: Config, thresholds: seq<int>, engine: Engine, log: seq<Admission>, ghost completed: set<nat>,
               counts: map<nat, nat>, ghost arrivals: map<nat, seq<nat>>)
    returns (engine': Engine, log': seq<Admission>)
    requires Faithful(c) && Logged(thresholds, log)
    requires Books(c.maxTokens, log, engine.pending, completed, counts, arrivals)
    ensures log <= log' && Logged(thresholds, log') && (log' == log ==> engine' == engine)
    ensures Books(c.maxTokens, log', engine'.pending, completed, counts, arrivals)
    ensures forall i :: 0 <= i < |thresholds| && thresholds[i] <= Get(counts, 0) ==> i in Arrived(log')
    ensures forall k :: |log| <= k < |log'| ==> log'[k].seen == Get(counts, 0)
  {
    hide Arrived, Books;
    engine', log' := engine, log;
    for i := 0 to |thresholds|
      invariant log <= log' && Logged(thresholds, log') && (log' == log ==> engine' == engine)
      invariant Books(c.maxTokens, log', engine'.pending, completed, counts, arrivals)
      invariant forall j :: 0 <= j < i && thresholds[j] <= Get(counts, 0) ==> j in Arrived(log')
      invariant forall k :: |log| <= k < |log'| ==> log'[k].seen == Get(counts, 0)
    {
      if i !in Arrived(log') && thresholds[i] <= Get(counts, 0) {
        var a := Admission(i, Get(counts, 0));
        ArrivedAppend(log', a);
        NewRequest(log', i);
        AdmitBooks(c.maxTokens, log', a, engine'.pending, completed, counts, arrivals);
        engine', log' := c.add(engine', i), log' + [a];
      }
    }
  }

  lemma NewRequest(log: seq<Admission>, i: nat)
    requires i !in Arrived(log)
    ensures forall k :: 0 <= k < |log| ==> log[k].request != i
  {
  }

  /** Such engines exist: this one serves its requests one by one, each in a single step. */
  lemma FaithfulEngine(max: nat) returns (c: Config)
    ensures Faithful(c) && c.maxTokens == max
  {
    c := Config(
      max,
      (e: Engine, r: nat) => Engine(e.pending[r := 0], e.internal),
      (e: Engine) => if e.pending == map[] then (e, []) else
        var r := Any(e.pending.Keys); (Engine(e.pending - {r}, e.internal), [Output(r, max, true)]),
      (e: Engine) => |e.pending|);
    forall e: Engine | e.pending != map[] && Within(max, e.pending)
      ensures GoodOutputs(max, e.pending, c.step(e).1)
           && c.step(e).0.pending == Absorbed(e.pending, c.step(e).1, |c.step(e).1|)
           && c.rank(c.step(e).0) < c.rank(e)
    {
      var r := Any(e.pending.Keys);
      assert e.pending.Keys == (e.pending - {r}).Keys + {r};
      assert Absorbed(e.pending, c.step(e).1, 0) == e.pending;
    }
  }

  ghost function Any(s: set<nat>): (r: nat)
    requires s != {}
    ensures r in s
  {
    var r :| r in s; r
  }

  // ----- the outputs of a step -----

  /** The dictionaries after `n` outputs, seen from request `r`, are in order and `r` is where it should be. */
  lemma OutputBooks(max: nat, log: seq<Admission>, pending: map<nat, nat>, completed: set<nat>,
                    counts: map<nat, nat>, arrivals: map<nat, seq<nat>>, o: Output)
    requires Books(max, log, pending, completed, counts, arrivals)
    requires o.request in pending && pending[o.request] <= o.count <= max && (o.finished <==> o.count == max)
    ensures Books(max, log,
      if o.finished then pending - {o.request} else pending[o.request := o.count],
      if o.finished then completed + {o.request} else completed,
      counts[o.request := o.count], Noted(counts, arrivals, o))
  {
    hide Arrived;
    var pending' := if o.finished then pending - {o.request} else pending[o.request := o.count];
    var completed' := if o.finished then completed + {o.request} else completed;
    var counts', arrivals' := counts[o.request := o.count], Noted(counts, arrivals, o);
    assert o.request in Arrived(log);
    assert Booked(max, pending, completed, counts, arrivals, o.request);
    forall r | r in Arrived(log) ensures Booked(max, pending', completed', counts', arrivals', r) {
      assert Booked(max, pending, completed, counts, arrivals, r);
    }
  }

  /** The list of token arrivals of a request grows when its count does. */
  function Noted(counts: map<nat, nat>, arrivals: map<nat, seq<nat>>, o: Output): (r: map<nat, seq<nat>>) {
    if o.count > Get(counts, o.request)
    then arrivals[o.request := (if o.request in arrivals then arrivals[o.request] else []) + [o.count]]
    else arrivals
  }

  lemma {:induction false} AbsorbedKeeps(max: nat, pending: map<nat, nat>, outs: seq<Output>, n: nat)
    requires GoodOutputs(max, pending, outs) && n <= |outs|
    ensures forall k :: n <= k < |outs| ==>
      outs[k].request in Absorbed(pending, outs, n) && Absorbed(pending, outs, n)[outs[k].request] == pending[outs[k].request]
  {
    if n > 0 { AbsorbedKeeps(max, pending, outs, n - 1); }
  }

  method Absorb(max: nat, outs: seq<Output>, ghost log: seq<Admission>, ghost pending: map<nat, nat>,
                completed: set<nat>, counts: map<nat, nat>, arrivals: map<nat, seq<nat>>)
    returns (completed': set<nat>, counts': map<nat, nat>, arrivals': map<nat, seq<nat>>)
    requires GoodOutputs(max, pending, outs) && Books(max, log, pending, completed, counts, arrivals)
    ensures Books(max, log, Absorbed(pending, outs, |outs|), completed', counts', arrivals')
    ensures forall r :: r in arrivals ==> r in arrivals' && arrivals[r] <= arrivals'[r]
  {
    hide Books, Arrived;
    completed', counts', arrivals' := completed, counts, arrivals;
    for k := 0 to |outs|
      invariant Books(max, log, Absorbed(pending, outs, k), completed', counts', arrivals')
      invariant forall r :: r in arrivals ==> r in arrivals' && arrivals[r] <= arrivals'[r]
    {
      var o := outs[k];
      AbsorbedKeeps(max, pending, outs, k);
      OutputBooks(max, log, Absorbed(pending, outs, k), completed', counts', arrivals', o);
      if o.count > Get(counts', o.request) {
        arrivals' := arrivals'[o.request := (if o.request in arrivals' then arrivals'[o.request] else []) + [o.count]];
      }
      counts' := counts'[o.request := o.count];
      if o.finished { completed' := completed' + {o.request}; }
    }
  }

  // ----- the loop -----

  predicate Acceptable(thresholds: seq<int>, max: nat) {
    thresholds != [] && thresholds[0] == 0 && forall i :: 0 <= i < |thresholds| ==> thresholds[i] <= max
  }

  lemma Bounded(thresholds: seq<int>, log: seq<Admission>)
    requires Logged(thresholds, log)
    ensures |log| <= |thresholds| && (|log| == |thresholds| <==> forall i :: 0 <= i < |thresholds| ==> i in Arrived(log))
    ensures |log| == |Arrived(log)|
  {
    ArrivedSize(log);
    FullBelow(|thresholds|, Arrived(log));
  }

  lemma {:induction false} ArrivedSize(log: seq<Admission>)
    requires forall k, l :: 0 <= k < l < |log| ==> log[k].request != log[l].request
    ensures |Arrived(log)| == |log|
  {
    if log == [] {
      assert Arrived(log) == {};
    } else {
      var front, a := log[..|log| - 1], log[|log| - 1];
      ArrivedSize(front);
      ArrivedAppend(front, a);
      assert log == front + [a];
    }
  }

  /** After admission with requests left to complete, the engine has something to do. */
  lemma NeverIdle(thresholds: seq<int>, max: nat, log: seq<Admission>, pending: map<nat, nat>, completed: set<nat>,
                  counts: map<nat, nat>, arrivals: map<nat, seq<nat>>)
    requires Acceptable(thresholds, max) && Logged(thresholds, log)
    requires Books(max, log, pending, completed, counts, arrivals) && |completed| < |thresholds|
    requires forall i :: 0 <= i < |thresholds| && thresholds[i] <= Get(counts, 0) ==> i in Arrived(log)
    ensures pending != map[]
  {
    Bounded(thresholds, log);
    assert 0 in Arrived(log);
    assert Booked(max, pending, completed, counts, arrivals, 0);
    assert pending == map[] ==> completed == Arrived(log);
  }

  /** The requests in the order of admission, once each, none before its threshold; and their token arrivals. */
  ghost predicate Served(thresholds: seq<int>, max: nat, r: Result) {
    && r.Rows? && Logged(thresholds, r.admissions)
    && |r.admissions| == |thresholds| == |r.arrivals|
    && (forall i :: 0 <= i < |thresholds| ==> i in Arrived(r.admissions))
    && (forall i :: 0 <= i < |thresholds| ==> Complete(r.arrivals[i], max))
    && (thresholds != [] ==> Seen(r.admissions, r.arrivals[0]))
  }

  method GenerateStaggered(c: Config, thresholds: seq<int>, engine: Engine) returns (r: Result, final: Engine)
    requires Faithful(c) && c.maxTokens >= 1
    ensures r.AssertionError? <==> engine.pending != map[]
    ensures r.IndexError? <==> engine.pending == map[] && thresholds == []
    ensures r.ValueError? <==>
              && engine.pending == map[] && thresholds != []
              && (thresholds[0] != 0 || exists i :: 0 <= i < |thresholds| && thresholds[i] > c.maxTokens)
    ensures engine.pending == map[] && Acceptable(thresholds, c.maxTokens) ==> Served(thresholds, c.maxTokens, r)
    ensures !r.KeyError?
    ensures engine.pending == map[] ==> final.pending == map[]
  {
    hide Books, Arrived, Complete;
    final := engine;
    if engine.pending != map[] { return AssertionError, final; }
    if thresholds == [] { return IndexError, final; }
    if thresholds[0] != 0 || exists i :: 0 <= i < |thresholds| && thresholds[i] > c.maxTokens {
      return ValueError, final;
    }
    var log: seq<Admission>, completed: set<nat> := [], {};
    var counts: map<nat, nat>, arrivals: map<nat, seq<nat>> := map[], map[];
    NothingBooked(c.maxTokens, thresholds);
    while |completed| < |thresholds|
      invariant Logged(thresholds, log) && |log| <= |thresholds|
      invariant Books(c.maxTokens, log, final.pending, completed, counts, arrivals)
      invariant Seen(log, Of(arrivals, 0))
      decreases |thresholds| - |log|, c.rank(final)
    {
      ghost var log0 := log;
      final, log := Admit(c, thresholds, final, log, completed, counts, arrivals);
      SeenNow(c.maxTokens, |log0|, log, final.pending, completed, counts, arrivals);
      NeverIdle(thresholds, c.maxTokens, log, final.pending, completed, counts, arrivals);
      Bounded(thresholds, log);
      PendingWithin(c.maxTokens, log, final.pending, completed, counts, arrivals);
      ghost var before := final;
      var (next, outs) := c.step(final);
      completed, counts, arrivals := Absorb(c.maxTokens, outs, log, before.pending, completed, counts, arrivals);
      final := next;
      assert |log| > |log0| || log == log0;
    }
    AllServed(thresholds, c.maxTokens, log, final.pending, completed, counts, arrivals);
    var rows: seq<seq<nat>> := [];
    for i := 0 to |thresholds|
      invariant |rows| == i && forall j :: 0 <= j < i ==> rows[j] == arrivals[j]
    {
      if i !in completed || i !in arrivals { return KeyError, final; }
      rows := rows + [arrivals[i]];
    }
    r := Rows(log, rows);
  }

  function Of(arrivals: map<nat, seq<nat>>, r: nat): (s: seq<nat>) { if r in arrivals then arrivals[r] else [] }

  lemma SeenNow(max: nat, before: nat, log: seq<Admission>, pending: map<nat, nat>, completed: set<nat>,
                counts: map<nat, nat>, arrivals: map<nat, seq<nat>>)
    requires Books(max, log, pending, completed, counts, arrivals) && before <= |log|
    requires Seen(log[..before], Of(arrivals, 0))
    requires forall k :: before <= k < |log| ==> log[k].seen == Get(counts, 0)
    ensures Seen(log, Of(arrivals, 0))
  {
    assert 0 in counts ==> Booked(max, pending, completed, counts, arrivals, 0);
    forall k | 0 <= k < |log| ensures log[k].seen == 0 || log[k].seen in Of(arrivals, 0) {
      assert k < before ==> log[..before][k] == log[k];
    }
  }

  lemma NothingBooked(max: nat, thresholds: seq<int>)
    ensures Books(max, [], map[], {}, map[], map[]) && Logged(thresholds, [])
  {
  }

  lemma PendingWithin(max: nat, log: seq<Admission>, pending: map<nat, nat>, completed: set<nat>,
                      counts: map<nat, nat>, arrivals: map<nat, seq<nat>>)
    requires Books(max, log, pending, completed, counts, arrivals)
    ensures Within(max, pending)
  {
    forall r | r in pending ensures pending[r] <= max {
      assert r in Arrived(log);
      assert Booked(max, pending, completed, counts, arrivals, r);
    }
  }

  /** When as many requests are complete as there are, all are, with all their tokens, and the engine is idle. */
  lemma AllServed(thresholds: seq<int>, max: nat, log: seq<Admission>, pending: map<nat, nat>, completed: set<nat>,
                  counts: map<nat, nat>, arrivals: map<nat, seq<nat>>)
    requires Logged(thresholds, log) && max >= 1
    requires Books(max, log, pending, completed, counts, arrivals) && |completed| >= |thresholds|
    ensures pending == map[]
    ensures forall i :: 0 <= i < |thresholds| ==> i in completed && i in arrivals
    ensures |log| == |thresholds| && forall i :: 0 <= i < |thresholds| ==> i in Arrived(log) && Complete(arrivals[i], max)
  {
    hide Arrived;
    Bounded(thresholds, log);
    Whole(completed, Arrived(log));
    forall i | 0 <= i < |thresholds| ensures i in completed && i in arrivals && Complete(arrivals[i], max) {
      assert Booked(max, pending, completed, counts, arrivals, i);
    }
    assert pending.Keys == {};
  }

  lemma Whole(part: set<nat>, all: set<nat>)
    requires part <= all && |part| >= |all|
    ensures part == all
  {
    assert all == part + (all - part);
  }
}
