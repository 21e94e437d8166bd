/**
 Reading the build log: the records of the last build, grouped into one target per command hash.
 A line is modelled by what splitting it at tabs and converting its two numbers gives.
 */
module BuildLog {

  datatype Record = Record(start: int, end: int, name: string, hash: string)

  /** `Corrupt` does not have five fields; `BadNumber` has, but a time is not a number. */
  datatype Line = Corrupt | BadNumber | Fields(rec: Record)

  datatype Target = Target(start: int, end: int, targets: seq<string>)

  datatype Result = BadHeader | ValueError | Targets(list: seq<Target>)

  const HEADER: string := "# ninja log v5\n"

  // ----- the meaning: records, builds, groups -----

  /** The well-formed records, in order. */
  function Records(lines: seq<Line>): (rs: seq<Record>) {
    if lines == [] then []
    else
      var front := Records(lines[..|lines| - 1]);
      var l := lines[|lines| - 1];
      if l.Fields? then front + [l.rec] else front
  }

  /** Two records of one build, `a` written before `b`. */
  predicate Agree(a: Record, b: Record) {
    a.end <= b.end && (a.hash == b.hash ==> a.start == b.start && a.end == b.end)
  }

  /** Records that may come from one build. */
  ghost predicate OneBuild(rs: seq<Record>) {
    forall i, j :: 0 <= i < j < |rs| ==> Agree(rs[i], rs[j])
  }

  /** Where the last build starts when every build is taken to last as long as its records agree. */
  ghost function LastBuild(rs: seq<Record>): (cut: nat)
    ensures cut <= |rs| && (rs != [] ==> cut < |rs|)
  {
    if rs == [] then 0
    else
      var cut := LastBuild(rs[..|rs| - 1]);
      if OneBuild(rs[cut..]) then cut else |rs| - 1
  }

  /** The command hashes, in order of first appearance. */
  function Hashes(rs: seq<Record>): (hs: seq<string>)
    ensures forall i, j :: 0 <= i < j < |hs| ==> hs[i] != hs[j]
    ensures forall h :: h in hs <==> exists i :: 0 <= i < |rs| && rs[i].hash == h
  {
    if rs == [] then []
    else
      var front, r := Hashes(rs[..|rs| - 1]), rs[|rs| - 1];
      assert forall i :: 0 <= i < |rs| - 1 ==> rs[..|rs| - 1][i] == rs[i];
      if r.hash in front then front else front + [r.hash]
  }

  /** The outputs of one command, in order. */
  function NamesOf(rs: seq<Record>, h: string): (names: seq<string>) {
    if rs == [] then []
    else
      var front, r := NamesOf(rs[..|rs| - 1], h), rs[|rs| - 1];
      if r.hash == h then front + [r.name] else front
  }

  /** The first record of a command. */
  function FirstOf(rs: seq<Record>, h: string): (r: Record)
    requires h in Hashes(rs)
    ensures r in rs && r.hash == h
  {
    if rs[0].hash == h then rs[0] else
      assert forall i :: 1 <= i < |rs| ==> rs[1..][i - 1] == rs[i];
      FirstOf(rs[1..], h)
  }

  function TargetOf(rs: seq<Record>, h: string): (t: Target)
    requires h in Hashes(rs)
  {
    var r := FirstOf(rs, h);
    Target(r.start, r.end, NamesOf(rs, h))
  }

  function Grouped(rs: seq<Record>): (ts: seq<Target>) {
    var hs := Hashes(rs);
    seq(|hs|, i requires 0 <= i < |hs| => TargetOf(rs, hs[i]))
  }

  /** The records that are shown. */
  ghost function Kept(rs: seq<Record>, showAll: bool): (kept: seq<Record>) {
    if showAll then rs else rs[LastBuild(rs)..]
  }

  // ----- what the last build is -----

  lemma {:induction false} LastBuildAgrees(rs: seq<Record>)
    ensures OneBuild(rs[LastBuild(rs)..])
  {
    if rs != [] && !OneBuild(rs[LastBuild(rs[..|rs| - 1])..]) {
      assert |rs[LastBuild(rs)..]| == 1;
    }
  }

  /** A log whose records all agree is shown whole, and only such a log is. */
  lemma {:induction false} WholeLog(rs: seq<Record>)
    ensures LastBuild(rs) == 0 <==> OneBuild(rs)
  {
    LastBuildAgrees(rs);
    assert rs[0..] == rs;
    if rs != [] && OneBuild(rs) {
      var front := rs[..|rs| - 1];
      assert OneBuild(front) by {
        forall i, j | 0 <= i < j < |front| ensures Agree(front[i], front[j]) { assert Agree(rs[i], rs[j]); }
      }
      WholeLog(front);
    }
  }

  lemma Breaks(build: seq<Record>, r: Record) returns (j: nat)
    requires OneBuild(build) && !OneBuild(build + [r])
    ensures j < |build| && !Agree(build[j], r)
  {
    var all := build + [r];
    var i, k :| 0 <= i < k < |all| && !Agree(all[i], all[k]);
    assert k == |build| && all[k] == r && all[i] == build[i];
    j := i;
  }

  /** The first record shown disagrees with a record of the build just before it. */
  ghost predicate EndsBuild(rs: seq<Record>, cut: nat) {
    cut < |rs| && exists from, j :: 0 <= from <= j < cut && OneBuild(rs[from..cut]) && !Agree(rs[j], rs[cut])
  }

  lemma {:induction false} CutIsNeeded(rs: seq<Record>)
    requires LastBuild(rs) > 0
    ensures EndsBuild(rs, LastBuild(rs))
  {
    hide EndsBuild, OneBuild;
    var front, r := rs[..|rs| - 1], rs[|rs| - 1];
    var from := LastBuild(front);
    assert rs == front + [r];
    assert rs[from..] == front[from..] + [r];
    if OneBuild(rs[from..]) {
      CutIsNeeded(front);
      EndsBuildAppend(front, r, from);
    } else {
      LastBuildAgrees(front);
      BreakEndsBuild(front, from, r);
    }
  }

  lemma BreakEndsBuild(rs: seq<Record>, from: nat, r: Record)
    requires from <= |rs| && OneBuild(rs[from..]) && !OneBuild(rs[from..] + [r])
    ensures EndsBuild(rs + [r], |rs|)
  {
    var all := rs + [r];
    var j := Breaks(rs[from..], r);
    assert all[from..|rs|] == rs[from..] && all[from + j] == rs[from..][j] && all[|rs|] == r;
  }

  lemma EndsBuildAppend(rs: seq<Record>, r: Record, cut: nat)
    requires EndsBuild(rs, cut)
    ensures EndsBuild(rs + [r], cut)
  {
    var from, j :| 0 <= from <= j < cut && OneBuild(rs[from..cut]) && !Agree(rs[j], rs[cut]);
    assert (rs + [r])[from..cut] == rs[from..cut];
    assert (rs + [r])[j] == rs[j] && (rs + [r])[cut] == rs[cut];
  }

  // ----- the groups partition the records -----

  lemma {:induction false} HashesAppend(rs: seq<Record>, r: Record)
    ensures Hashes(rs + [r]) == if r.hash in Hashes(rs) then Hashes(rs) else Hashes(rs) + [r.hash]
  {
    assert (rs + [r])[..|rs|] == rs;
  }

  lemma {:induction false} NamesAppend(rs: seq<Record>, r: Record, h: string)
    ensures NamesOf(rs + [r], h) == if r.hash == h then NamesOf(rs, h) + [r.name] else NamesOf(rs, h)
  {
    assert (rs + [r])[..|rs|] == rs;
  }

  lemma {:induction false} NoNames(rs: seq<Record>, h: string)
    requires h !in Hashes(rs)
    ensures NamesOf(rs, h) == []
  {
    if rs != [] {
      var front := rs[..|rs| - 1];
      assert rs == front + [rs[|rs| - 1]];
      HashesAppend(front, rs[|rs| - 1]);
      NoNames(front, h);
    }
  }

  lemma {:induction false} FirstAppend(rs: seq<Record>, r: Record, h: string)
    requires h in Hashes(rs) || h == r.hash
    ensures h in Hashes(rs + [r])
    ensures FirstOf(rs + [r], h) == if h in Hashes(rs) then FirstOf(rs, h) else r
  {
    HashesAppend(rs, r);
    if rs == [] {
      assert (rs + [r])[0] == r;
    } else {
      assert (rs + [r])[0] == rs[0];
      if rs[0].hash != h {
        assert (rs + [r])[1..] == rs[1..] + [r];
        assert h in Hashes(rs) <==> h in Hashes(rs[1..]) by {
          assert forall i :: 1 <= i < |rs| ==> rs[1..][i - 1] == rs[i];
        }
        FirstAppend(rs[1..], r, h);
      }
    }
  }

  /** All records of one command in one build share the times of its target. */
  lemma GroupShares(rs: seq<Record>, i: nat)
    requires OneBuild(rs) && i < |rs|
    ensures rs[i].hash in Hashes(rs)
    ensures rs[i].start == TargetOf(rs, rs[i].hash).start && rs[i].end == TargetOf(rs, rs[i].hash).end
  {
    var f := FirstOf(rs, rs[i].hash);
    var k :| 0 <= k < |rs| && rs[k] == f;
    assert k < i ==> Agree(rs[k], rs[i]);
    assert i < k ==> Agree(rs[i], rs[k]);
  }

  function Count(rs: seq<Record>, hs: seq<string>): (n: nat) {
    if hs == [] then 0 else Count(rs, hs[..|hs| - 1]) + |NamesOf(rs, hs[|hs| - 1])|
  }

  /** No record is lost and none is counted twice. */
  lemma {:induction false} NothingLost(rs: seq<Record>)
    ensures Count(rs, Hashes(rs)) == |rs|
  {
    if rs != [] {
      var front, r := rs[..|rs| - 1], rs[|rs| - 1];
      assert rs == front + [r];
      NothingLost(front);
      HashesAppend(front, r);
      CountAppend(front, r, Hashes(front));
      if r.hash !in Hashes(front) {
        var hs := Hashes(rs);
        assert hs[..|hs| - 1] == Hashes(front);
        NamesAppend(front, r, r.hash);
        NoNames(front, r.hash);
      }
    }
  }

  lemma {:induction false} CountAppend(rs: seq<Record>, r: Record, hs: seq<string>)
    requires forall i, j :: 0 <= i < j < |hs| ==> hs[i] != hs[j]
    ensures Count(rs + [r], hs) == Count(rs, hs) + if r.hash in hs then 1 else 0
  {
    if hs != [] {
      var front := hs[..|hs| - 1];
      CountAppend(rs, r, front);
      NamesAppend(rs, r, hs[|hs| - 1]);
      assert hs == front + [hs[|hs| - 1]];
    }
  }

  // ----- the lines behind the targets -----

  ghost predicate Increasing(at: seq<nat>) {
    forall j, k :: 0 <= j < k < |at| ==> at[j] < at[k]
  }

  /** The records are those of the well-formed lines from line `from` on, in order and each once; `at` says where. */
  ghost predicate Lists(lines: seq<Line>, from: nat, rs: seq<Record>, at: seq<nat>) {
    && |at| == |rs| && Increasing(at)
    && (forall k :: 0 <= k < |at| ==> from <= at[k] < |lines| && lines[at[k]] == Fields(rs[k]))
    && (forall i :: from <= i < |lines| && lines[i].Fields? ==> i in at)
  }

  lemma ListsAppend(lines: seq<Line>, l: Line, rs: seq<Record>, at: seq<nat>)
    requires Lists(lines, 0, rs, at)
    ensures l.Fields? ==> Lists(lines + [l], 0, rs + [l.rec], at + [|lines|])
    ensures !l.Fields? ==> Lists(lines + [l], 0, rs, at)
  {
    var lines', at' := lines + [l], at + [|lines|];
    assert at'[|at|] == |lines| && forall i :: i in at ==> i in at';
    assert forall i :: 0 <= i < |lines| ==> lines'[i] == lines[i];
  }

  /** Every well-formed line gives one record, and no other line gives any. */
  lemma {:induction false} RecordsAreLines(lines: seq<Line>) returns (at: seq<nat>)
    ensures Lists(lines, 0, Records(lines), at)
  {
    hide Lists;
    if lines == [] {
      at := [];
      NoLines();
    } else {
      var n := |lines| - 1;
      assert lines == lines[..n] + [lines[n]];
      at := RecordsAreLines(lines[..n]);
      ListsAppend(lines[..n], lines[n], Records(lines[..n]), at);
      if lines[n].Fields? { at := at + [n]; }
    }
  }

  lemma NoLines()
    ensures Lists([], 0, [], [])
  {
  }

  /** The records from `cut` on are those of the lines from the line of record `cut` on. */
  lemma ListsFrom(lines: seq<Line>, rs: seq<Record>, at: seq<nat>, cut: nat)
    requires Lists(lines, 0, rs, at) && cut < |rs|
    ensures Lists(lines, at[cut], rs[cut..], at[cut..])
  {
    forall i | at[cut] <= i < |lines| && lines[i].Fields? ensures i in at[cut..] {
      var k :| 0 <= k < |at| && at[k] == i;
      assert k >= cut;
      assert at[cut..][k - cut] == i;
    }
  }

  /** The names of one command and the records they come from. */
  ghost predicate NamesFrom(rs: seq<Record>, h: string, names: seq<string>, js: seq<nat>) {
    && |js| == |names| && Increasing(js)
    && (forall k :: 0 <= k < |js| ==> js[k] < |rs| && rs[js[k]].hash == h && rs[js[k]].name == names[k])
    && (forall j :: 0 <= j < |rs| && rs[j].hash == h ==> j in js)
  }

  lemma NamesFromAppend(rs: seq<Record>, r: Record, h: string, names: seq<string>, js: seq<nat>)
    requires NamesFrom(rs, h, names, js)
    ensures r.hash == h ==> NamesFrom(rs + [r], h, names + [r.name], js + [|rs|])
    ensures r.hash != h ==> NamesFrom(rs + [r], h, names, js)
  {
    var js' := js + [|rs|];
    assert js'[|js|] == |rs| && forall j :: j in js ==> j in js';
  }

  lemma {:induction false} NamesAt(rs: seq<Record>, h: string) returns (js: seq<nat>)
    ensures NamesFrom(rs, h, NamesOf(rs, h), js)
  {
    js := [];
    if rs != [] {
      var n := |rs| - 1;
      assert rs == rs[..n] + [rs[n]];
      js := NamesAt(rs[..n], h);
      hide NamesFrom;
      NamesFromAppend(rs[..n], rs[n], h, NamesOf(rs[..n], h), js);
      if rs[n].hash == h { js := js + [n]; }
    }
  }

  /** The record that a target's times come from is the first of its command. */
  lemma {:induction false} FirstIsFirst(rs: seq<Record>, h: string) returns (j: nat)
    requires h in Hashes(rs)
    ensures j < |rs| && FirstOf(rs, h) == rs[j] && rs[j].hash == h && forall i :: 0 <= i < j ==> rs[i].hash != h
  {
    if rs[0].hash == h {
      j := 0;
    } else {
      assert forall i :: 1 <= i < |rs| ==> rs[1..][i - 1] == rs[i];
      j := FirstIsFirst(rs[1..], h);
      j := j + 1;
    }
  }

  lemma RecordOf(rs: seq<Record>, h: string) returns (i: nat)
    requires h in Hashes(rs)
    ensures i < |rs| && rs[i].hash == h
  {
    i :| 0 <= i < |rs| && rs[i].hash == h;
  }

  /** The commands are in the order of their first records. */
  lemma {:induction false} HashesInOrder(rs: seq<Record>, a: nat, b: nat, j: nat) returns (i: nat)
    requires a < b < |Hashes(rs)| && j < |rs| && rs[j].hash == Hashes(rs)[b]
    ensures i < j && rs[i].hash == Hashes(rs)[a]
  {
    var n := |rs| - 1;
    var front := rs[..n];
    assert rs == front + [rs[n]];
    HashesAppend(front, rs[n]);
    if j < n { HashKnown(front, j); }
    hide Hashes;
    if j < n && b < |Hashes(front)| {
      i := HashesInOrder(front, a, b, j);
    } else {
      assert j == n && a < |Hashes(front)|;
      i := RecordOf(front, Hashes(front)[a]);
    }
  }

  lemma HashKnown(rs: seq<Record>, j: nat)
    requires j < |rs|
    ensures rs[j].hash in Hashes(rs)
  {
  }

  /** The lines of one command from line `from` on, in order: all of them, and their names. */
  ghost predicate Picks(lines: seq<Line>, from: nat, h: string, names: seq<string>, at: seq<nat>) {
    && |at| == |names| && Increasing(at)
    && (forall k :: 0 <= k < |at| ==>
          from <= at[k] < |lines| && lines[at[k]].Fields? && lines[at[k]].rec.hash == h && lines[at[k]].rec.name == names[k])
    && (forall i :: from <= i < |lines| && lines[i].Fields? && lines[i].rec.hash == h ==> i in at)
  }

  /** One target: the names of its command's lines, and the times of the first. */
  ghost predicate ShowsCommand(lines: seq<Line>, from: nat, h: string, t: Target, at: seq<nat>) {
    && Picks(lines, from, h, t.targets, at) && at != []
    && t.start == lines[at[0]].rec.start && t.end == lines[at[0]].rec.end
  }

  /** The targets show the lines from `from` on: one target per command, in the order of their first lines. */
  ghost predicate Shows(lines: seq<Line>, from: nat, list: seq<Target>, hs: seq<string>, picks: seq<seq<nat>>) {
    && |list| == |hs| == |picks|
    && (forall a :: 0 <= a < |list| ==> ShowsCommand(lines, from, hs[a], list[a], picks[a]))
    && (forall a, b :: 0 <= a < b < |list| ==> picks[a][0] < picks[b][0])
    && (forall i :: from <= i < |lines| && lines[i].Fields? ==> lines[i].rec.hash in hs)
  }

  function Through(at: seq<nat>, js: seq<nat>): (picked: seq<nat>)
    requires forall k :: 0 <= k < |js| ==> js[k] < |at|
    ensures |picked| == |js| && forall k :: 0 <= k < |js| ==> picked[k] == at[js[k]]
  {
    seq(|js|, k requires 0 <= k < |js| => at[js[k]])
  }

  lemma ThroughIncreases(at: seq<nat>, js: seq<nat>)
    requires Increasing(at) && Increasing(js) && forall k :: 0 <= k < |js| ==> js[k] < |at|
    ensures Increasing(Through(at, js))
  {
  }

  lemma PicksFrom(lines: seq<Line>, from: nat, rs: seq<Record>, at: seq<nat>, h: string, names: seq<string>, js: seq<nat>)
    requires Lists(lines, from, rs, at) && NamesFrom(rs, h, names, js)
    ensures Picks(lines, from, h, names, Through(at, js))
  {
    ThroughIncreases(at, js);
    EachPicked(lines, from, rs, at, h, names, js);
    AllPicked(lines, from, rs, at, h, names, js);
    hide Increasing, Through;
  }

  lemma EachPicked(lines: seq<Line>, from: nat, rs: seq<Record>, at: seq<nat>, h: string, names: seq<string>, js: seq<nat>)
    requires Lists(lines, from, rs, at) && NamesFrom(rs, h, names, js)
    ensures var picked := Through(at, js);
      forall k :: 0 <= k < |js| ==> from <= picked[k] < |lines| && lines[picked[k]].Fields?
                                    && lines[picked[k]].rec.hash == h && lines[picked[k]].rec.name == names[k]
  {
    hide Increasing, Through;
    forall k | 0 <= k < |js| ensures from <= at[js[k]] < |lines| && lines[at[js[k]]] == Fields(rs[js[k]]) {
    }
  }

  lemma AllPicked(lines: seq<Line>, from: nat, rs: seq<Record>, at: seq<nat>, h: string, names: seq<string>, js: seq<nat>)
    requires Lists(lines, from, rs, at) && NamesFrom(rs, h, names, js)
    ensures var picked := Through(at, js);
      forall i :: from <= i < |lines| && lines[i].Fields? && lines[i].rec.hash == h ==> i in picked
  {
    hide Increasing, Through;
    var picked := Through(at, js);
    forall i | from <= i < |lines| && lines[i].Fields? && lines[i].rec.hash == h ensures i in picked {
      var k :| 0 <= k < |at| && at[k] == i;
      var m :| 0 <= m < |js| && js[m] == k;
      assert picked[m] == i;
    }
  }

  lemma FirstPick(rs: seq<Record>, h: string, names: seq<string>, js: seq<nat>, j: nat)
    requires NamesFrom(rs, h, names, js) && IsFirst(rs, h, j)
    ensures js != [] && js[0] == j
  {
    var m :| 0 <= m < |js| && js[m] == j;
    assert js[0] <= js[m];
  }

  lemma TargetShows(lines: seq<Line>, from: nat, rs: seq<Record>, at: seq<nat>, h: string) returns (picked: seq<nat>, j: nat)
    requires Lists(lines, from, rs, at) && h in Hashes(rs)
    ensures ShowsCommand(lines, from, h, TargetOf(rs, h), picked)
    ensures IsFirst(rs, h, j) && picked[0] == at[j]
  {
    hide Hashes, NamesOf, FirstOf, Picks;
    var js := NamesAt(rs, h);
    j := FirstIsFirst(rs, h);
    FirstPick(rs, h, NamesOf(rs, h), js, j);
    PicksFrom(lines, from, rs, at, h, NamesOf(rs, h), js);
    picked := Through(at, js);
  }

  /** The targets of the first commands, and where their first records are. */
  ghost predicate SomeShown(lines: seq<Line>, from: nat, rs: seq<Record>, at: seq<nat>, picks: seq<seq<nat>>, firsts: seq<nat>)
    requires |at| == |rs|
  {
    && |picks| == |firsts| <= |Hashes(rs)|
    && forall a :: 0 <= a < |picks| ==> OneShown(lines, from, rs, at, Hashes(rs)[a], picks[a], firsts[a])
  }

  ghost predicate OneShown(lines: seq<Line>, from: nat, rs: seq<Record>, at: seq<nat>, h: string, picked: seq<nat>, first: nat)
    requires |at| == |rs|
  {
    && h in Hashes(rs) && ShowsCommand(lines, from, h, TargetOf(rs, h), picked)
    && IsFirst(rs, h, first) && picked[0] == at[first]
  }

  lemma ShowMore(lines: seq<Line>, from: nat, rs: seq<Record>, at: seq<nat>, picks: seq<seq<nat>>, firsts: seq<nat>, picked: seq<nat>, j: nat)
    requires |at| == |rs| && SomeShown(lines, from, rs, at, picks, firsts) && |picks| < |Hashes(rs)|
    requires OneShown(lines, from, rs, at, Hashes(rs)[|picks|], picked, j)
    ensures SomeShown(lines, from, rs, at, picks + [picked], firsts + [j])
  {
    hide OneShown, Hashes;
  }

  lemma {:induction false} ShowSome(lines: seq<Line>, from: nat, rs: seq<Record>, at: seq<nat>, n: nat) returns (picks: seq<seq<nat>>, firsts: seq<nat>)
    requires |at| == |rs| && Lists(lines, from, rs, at) && n <= |Hashes(rs)|
    ensures SomeShown(lines, from, rs, at, picks, firsts) && |picks| == n
  {
    picks, firsts := [], [];
    if n > 0 {
      hide Hashes, Lists, SomeShown;
      picks, firsts := ShowSome(lines, from, rs, at, n - 1);
      var picked, j := TargetShows(lines, from, rs, at, Hashes(rs)[n - 1]);
      ShowMore(lines, from, rs, at, picks, firsts, picked, j);
      picks, firsts := picks + [picked], firsts + [j];
    }
  }

  /** The targets of a group of records show the lines that the records come from. */
  lemma GroupedShows(lines: seq<Line>, from: nat, rs: seq<Record>, at: seq<nat>) returns (picks: seq<seq<nat>>)
    requires Lists(lines, from, rs, at)
    ensures Shows(lines, from, Grouped(rs), Hashes(rs), picks)
  {
    var hs := Hashes(rs);
    ghost var firsts;
    picks, firsts := ShowSome(lines, from, rs, at, |hs|);
    hide Hashes, TargetOf, ShowsCommand;
    forall a, b | 0 <= a < b < |hs| ensures picks[a][0] < picks[b][0] {
      assert OneShown(lines, from, rs, at, hs[a], picks[a], firsts[a]) && OneShown(lines, from, rs, at, hs[b], picks[b], firsts[b]);
      var i := HashesInOrder(rs, a, b, firsts[b]);
    }
    forall i | from <= i < |lines| && lines[i].Fields? ensures lines[i].rec.hash in hs {
      var k :| 0 <= k < |at| && at[k] == i;
      HashKnown(rs, k);
    }
    forall a | 0 <= a < |hs| ensures ShowsCommand(lines, from, hs[a], Grouped(rs)[a], picks[a]) {
      assert OneShown(lines, from, rs, at, hs[a], picks[a], firsts[a]);
    }
  }

  ghost predicate IsFirst(rs: seq<Record>, h: string, j: nat) {
    j < |rs| && rs[j].hash == h && forall i :: 0 <= i < j ==> rs[i].hash != h
  }

  /** The well-formed lines from `from` up to `to` may come from one build. */
  ghost predicate LinesAgree(lines: seq<Line>, from: nat, to: nat)
    requires to <= |lines|
  {
    forall i, j :: from <= i < j < to && lines[i].Fields? && lines[j].Fields? ==>
      var a, b := lines[i].rec, lines[j].rec; a.end <= b.end && (a.hash == b.hash ==> a.start == b.start && a.end == b.end)
  }

  /** The later record ends earlier, or is the same command at another time. */
  predicate Contradicts(a: Record, b: Record) {
    b.end < a.end || (a.hash == b.hash && (a.start != b.start || a.end != b.end))
  }

  /** Two records contradict each other exactly when they cannot come from one build in this order. */
  lemma ContradictsIff(a: Record, b: Record)
    ensures Contradicts(a, b) <==> !OneBuild([a, b])
  {
    var both := [a, b];
    assert OneBuild(both) <==> Agree(both[0], both[1]);
  }

  /** A new build starts at line `from`: it disagrees with a line of the build before it. */
  ghost predicate StartsBuild(lines: seq<Line>, from: nat) {
    && from < |lines| && lines[from].Fields?
    && exists first, j :: 0 <= first <= j < from && lines[j].Fields? && LinesAgree(lines, first, from)
                          && Contradicts(lines[j].rec, lines[from].rec)
  }

  /** What is reported: the whole log, or its last build. */
  ghost predicate Reported(lines: seq<Line>, showAll: bool, list: seq<Target>) {
    exists from, hs, picks :: Shows(lines, from, list, hs, picks) && ShownFrom(lines, showAll, from)
  }

  ghost predicate ShownFrom(lines: seq<Line>, showAll: bool, from: nat) {
    if showAll then from == 0 else LinesAgree(lines, from, |lines|) && (from == 0 || StartsBuild(lines, from))
  }

  /** With `show_all` every well-formed line is reported: its name is in a target that starts with a line of its command. */
  lemma LineIsReported(lines: seq<Line>, list: seq<Target>, i: nat)
    requires Reported(lines, true, list) && i < |lines| && lines[i].Fields?
    ensures exists t, k, j :: t in list && InTarget(lines, t, k, i) && StartsTarget(lines, t, j, i)
  {
    var from, hs, picks :| Shows(lines, from, list, hs, picks) && ShownFrom(lines, true, from);
    var a :| 0 <= a < |hs| && hs[a] == lines[i].rec.hash;
    assert ShowsCommand(lines, from, hs[a], list[a], picks[a]);
    hide *;
    var k, j := InCommand(lines, from, list[a], picks[a], i);
  }

  lemma InCommand(lines: seq<Line>, from: nat, t: Target, at: seq<nat>, i: nat) returns (k: nat, j: nat)
    requires from <= i < |lines| && lines[i].Fields? && ShowsCommand(lines, from, lines[i].rec.hash, t, at)
    ensures InTarget(lines, t, k, i) && StartsTarget(lines, t, j, i)
  {
    k :| 0 <= k < |at| && at[k] == i;
    j := at[0];
    assert k > 0 ==> at[0] < at[k];
  }

  /** Name `k` of the target is that of line `i`. */
  predicate InTarget(lines: seq<Line>, t: Target, k: nat, i: nat)
    requires i < |lines| && lines[i].Fields?
  {
    k < |t.targets| && t.targets[k] == lines[i].rec.name
  }

  /** The target has the times of line `j`, which is not after line `i` and of the same command. */
  predicate StartsTarget(lines: seq<Line>, t: Target, j: nat, i: nat)
    requires i < |lines| && lines[i].Fields?
  {
    j <= i < |lines| && lines[j].Fields? && lines[j].rec.hash == lines[i].rec.hash && t.start == lines[j].rec.start && t.end == lines[j].rec.end
  }

  lemma BuildLines(lines: seq<Line>, rs: seq<Record>, at: seq<nat>, lo: nat, hi: nat, from: nat, to: nat)
    requires Lists(lines, 0, rs, at) && lo <= hi <= |rs| && OneBuild(rs[lo..hi]) && to <= |lines|
    requires (lo > 0 ==> lo < |rs| && from >= at[lo]) && (hi < |rs| ==> to <= at[hi])
    ensures LinesAgree(lines, from, to)
  {
    forall i, j | from <= i < j < to && lines[i].Fields? && lines[j].Fields? ensures Agree(lines[i].rec, lines[j].rec) {
      var a :| 0 <= a < |at| && at[a] == i;
      var b :| 0 <= b < |at| && at[b] == j;
      assert lo <= a < b < hi;
      assert rs[lo..hi][a - lo] == rs[a] && rs[lo..hi][b - lo] == rs[b];
    }
  }

  lemma CutStartsBuild(lines: seq<Line>, rs: seq<Record>, at: seq<nat>, cut: nat)
    requires Lists(lines, 0, rs, at) && EndsBuild(rs, cut)
    ensures StartsBuild(lines, at[cut])
  {
    var from, j :| 0 <= from <= j < cut && OneBuild(rs[from..cut]) && !Agree(rs[j], rs[cut]);
    BuildLines(lines, rs, at, from, cut, at[from], at[cut]);
    assert lines[at[j]] == Fields(rs[j]) && at[from] <= at[j] < at[cut];
  }

  lemma ListsSize(lines: seq<Line>, rs: seq<Record>, at: seq<nat>)
    requires Lists(lines, 0, rs, at)
    ensures |at| == |rs|
  {
  }

  /** The targets are those of the lines of the whole log, or of its last build. */
  lemma TargetsAreLines(lines: seq<Line>, showAll: bool)
    ensures Reported(lines, showAll, Grouped(Kept(Records(lines), showAll)))
  {
    hide Grouped, Shows, Records, Lists, LinesAgree, StartsBuild, OneBuild, EndsBuild, Hashes;
    var rs := Records(lines);
    var at := RecordsAreLines(lines);
    ListsSize(lines, rs, at);
    var cut := if showAll then 0 else LastBuild(rs);
    var kept := rs[cut..];
    assert rs[0..] == rs;
    if cut == 0 {
      var picks := GroupedShows(lines, 0, rs, at);
      if !showAll {
        LastBuildAgrees(rs);
        assert rs[0..|rs|] == rs;
        BuildLines(lines, rs, at, 0, |rs|, 0, |lines|);
      }
      assert Shows(lines, 0, Grouped(kept), Hashes(rs), picks) && ShownFrom(lines, showAll, 0);
    } else {
      ListsFrom(lines, rs, at, cut);
      var picks := GroupedShows(lines, at[cut], kept, at[cut..]);
      LastBuildAgrees(rs);
      assert rs[cut..|rs|] == kept;
      BuildLines(lines, rs, at, cut, |rs|, at[cut], |lines|);
      CutIsNeeded(rs);
      CutStartsBuild(lines, rs, at, cut);
      assert Shows(lines, at[cut], Grouped(kept), Hashes(kept), picks) && ShownFrom(lines, showAll, at[cut]);
    }
  }

  // ----- the dictionary -----

  /** The dictionary after reading `rs`: `order` is its insertion order. */
  ghost predicate Holds(rs: seq<Record>, order: seq<string>, dict: map<string, Target>) {
    && order == Hashes(rs)
    && (forall h :: h in dict <==> h in order)
    && (forall h :: h in order ==> dict[h] == TargetOf(rs, h))
  }

  lemma AddToTarget(rs: seq<Record>, order: seq<string>, dict: map<string, Target>, r: Record)
    requires Holds(rs, order, dict) && r.hash in dict
    ensures Holds(rs + [r], order, dict[r.hash := dict[r.hash].(targets := dict[r.hash].targets + [r.name])])
  {
    hide Hashes, TargetOf;
    HashesAppend(rs, r);
    forall h | h in order ensures h in Hashes(rs + [r])
      && TargetOf(rs + [r], h) == (if h == r.hash then dict[h].(targets := dict[h].targets + [r.name]) else dict[h])
    {
      TargetAppend(rs, r, h);
    }
  }

  lemma TargetAppend(rs: seq<Record>, r: Record, h: string)
    requires h in Hashes(rs)
    ensures h in Hashes(rs + [r])
    ensures TargetOf(rs + [r], h)
         == var t := TargetOf(rs, h); if h == r.hash then t.(targets := t.targets + [r.name]) else t
  {
    FirstAppend(rs, r, h);
    NamesAppend(rs, r, h);
  }

  lemma AddTarget(rs: seq<Record>, order: seq<string>, dict: map<string, Target>, r: Record)
    requires Holds(rs, order, dict) && r.hash !in dict
    ensures Holds(rs + [r], order + [r.hash], dict[r.hash := Target(r.start, r.end, [r.name])])
  {
    hide Hashes, TargetOf;
    HashesAppend(rs, r);
    forall h | h in order + [r.hash] ensures h in Hashes(rs + [r])
      && TargetOf(rs + [r], h) == (if h == r.hash then Target(r.start, r.end, [r.name]) else dict[h])
    {
      if h == r.hash { NewTarget(rs, r); } else { TargetAppend(rs, r, h); }
    }
  }

  lemma NewTarget(rs: seq<Record>, r: Record)
    requires r.hash !in Hashes(rs)
    ensures r.hash in Hashes(rs + [r]) && TargetOf(rs + [r], r.hash) == Target(r.start, r.end, [r.name])
  {
    hide Hashes;
    FirstAppend(rs, r, r.hash);
    NamesAppend(rs, r, r.hash);
    NoNames(rs, r.hash);
  }

  /** The two tests of the loop decide whether the next record belongs to the same build. */
  lemma SameBuild(rs: seq<Record>, r: Record)
    requires OneBuild(rs) && rs != []
    ensures OneBuild(rs + [r]) <==>
      rs[|rs| - 1].end <= r.end
      && (r.hash in Hashes(rs) ==> FirstOf(rs, r.hash).start == r.start && FirstOf(rs, r.hash).end == r.end)
  {
    var all := rs + [r];
    if OneBuild(all) {
      assert Agree(all[|rs| - 1], all[|rs|]);
      if r.hash in Hashes(rs) {
        var k :| 0 <= k < |rs| && rs[k] == FirstOf(rs, r.hash);
        assert Agree(all[k], all[|rs|]);
      }
    } else {
      var i, j :| 0 <= i < j < |all| && !Agree(all[i], all[j]);
      assert j == |rs| && all[j] == r && all[i] == rs[i];
      assert i < |rs| - 1 ==> Agree(rs[i], rs[|rs| - 1]);
      if rs[i].hash == r.hash { GroupShares(rs, i); }
    }
  }

  lemma NextRecord(rs: seq<Record>, r: Record)
    ensures Kept(rs + [r], true) == Kept(rs, true) + [r]
    ensures Kept(rs + [r], false) == if OneBuild(Kept(rs, false) + [r]) then Kept(rs, false) + [r] else [r]
  {
    var all, cut := rs + [r], LastBuild(rs);
    assert all[..|all| - 1] == rs;
    assert all[cut..] == rs[cut..] + [r];
  }

  /** One well-formed line, after the records `rs`. */
  method ReadRecord(order: seq<string>, dict: map<string, Target>, rec: Record, showAll: bool, lastEnd: int, ghost rs: seq<Record>)
    returns (order': seq<string>, dict': map<string, Target>)
    requires Holds(Kept(rs, showAll), order, dict)
    requires rs != [] ==> lastEnd == rs[|rs| - 1].end
    ensures Holds(Kept(rs + [rec], showAll), order', dict')
  {
    hide Holds, Kept;
    Decide(rs, rec, showAll, order, dict, lastEnd);
    NothingRead();
    order', dict' := order, dict;
    ghost var kept := Kept(rs, showAll);
    if !showAll && rec.end < lastEnd {
      order', dict', kept := [], map[], [];
    }
    if rec.hash in dict' && !showAll && (dict'[rec.hash].start != rec.start || dict'[rec.hash].end != rec.end) {
      order', dict', kept := [], map[], [];
    }
    assert Kept(rs + [rec], showAll) == kept + [rec];
    if rec.hash in dict' {
      AddToTarget(kept, order', dict', rec);
      dict' := dict'[rec.hash := dict'[rec.hash].(targets := dict'[rec.hash].targets + [rec.name])];
    } else {
      AddTarget(kept, order', dict', rec);
      order', dict' := order' + [rec.hash], dict'[rec.hash := Target(rec.start, rec.end, [rec.name])];
    }
  }

  /** Reads the log: the targets show the well-formed lines, all of them or those of the last build. */
  method ReadTargets(header: string, lines: seq<Line>, showAll: bool) returns (r: Result)
    ensures r.BadHeader? <==> header != "# ninja log v5\n"
    ensures r.ValueError? <==> header == "# ninja log v5\n" && BadNumber in lines
    ensures r.Targets? ==> r.list == Grouped(Kept(Records(lines), showAll)) && Reported(lines, showAll, r.list)
  {
    hide Hashes, TargetOf, Holds, Kept, Grouped, Reported;
    if header != HEADER { return BadHeader; }
    var order: seq<string>, dict: map<string, Target>, lastEnd := [], map[], 0;
    NothingRead();
    ghost var rs: seq<Record> := [];
    for k := 0 to |lines|
      invariant rs == Records(lines[..k]) && BadNumber !in lines[..k]
      invariant rs != [] ==> lastEnd == rs[|rs| - 1].end
      invariant Holds(Kept(rs, showAll), order, dict)
    {
      assert lines[..k + 1][..k] == lines[..k];
      match lines[k] {
        case Corrupt =>
        case BadNumber => return ValueError;
        case Fields(rec) =>
          order, dict := ReadRecord(order, dict, rec, showAll, lastEnd, rs);
          lastEnd := rec.end;
          rs := rs + [rec];
      }
    }
    assert lines[..|lines|] == lines;
    Values(Kept(rs, showAll), order, dict);
    TargetsAreLines(lines, showAll);
    r := Targets(seq(|order|, i requires 0 <= i < |order| => dict[order[i]]));
  }

  lemma Values(rs: seq<Record>, order: seq<string>, dict: map<string, Target>)
    requires Holds(rs, order, dict)
    ensures forall i :: 0 <= i < |order| ==> order[i] in dict
    ensures Grouped(rs) == seq(|order|, i requires 0 <= i < |order| => dict[order[i]])
  {
  }

  lemma NothingRead()
    ensures Holds([], [], map[]) && forall showAll :: Kept([], showAll) == []
  {
  }

  predicate Differs(dict: map<string, Target>, r: Record, lastEnd: int) {
    r.end < lastEnd || (r.hash in dict && (dict[r.hash].start != r.start || dict[r.hash].end != r.end))
  }

  lemma Decide(rs: seq<Record>, r: Record, showAll: bool, order: seq<string>, dict: map<string, Target>, lastEnd: int)
    requires Holds(Kept(rs, showAll), order, dict)
    requires rs != [] ==> lastEnd == rs[|rs| - 1].end
    ensures rs == [] ==> Kept(rs, showAll) == [] && dict == map[]
    ensures showAll ==> Kept(rs + [r], showAll) == Kept(rs, showAll) + [r]
    ensures !showAll && rs != [] && Differs(dict, r, lastEnd) ==> Kept(rs + [r], false) == [r]
    ensures !showAll && !(rs != [] && Differs(dict, r, lastEnd)) ==> Kept(rs + [r], false) == Kept(rs, false) + [r]
  {
    NextRecord(rs, r);
    var kept := Kept(rs, showAll);
    if kept != [] { assert kept[0].hash in Hashes(kept); }
    if !showAll && rs != [] {
      LastBuildAgrees(rs);
      SameBuild(kept, r);
      assert kept[|kept| - 1] == rs[|rs| - 1];
    }
  }
}
