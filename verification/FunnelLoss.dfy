/** Exactly when the pull has lost an event for good, and runs that lose one. */
module FunnelLoss {

  import opened Text
  import opened PostHogPages
  import opened FunnelPull
  import opened FunnelSecond
  import opened FunnelProgress

  // ---- out of reach ------------------------------------------------------------------------

  /** The events strictly inside the second that starts at `s`, as far as they come before `ts`. */
  function CrowdBefore(table: set<Event>, s: int, ts: int): set<Event> {
    set e | e in table && s < e.ts < s + SECOND && e.ts < ts
  }

  /** A crowded second between the watermark and the event: no page gets past it. */
  predicate Blocks(table: set<Event>, watermark: int, e: Event, s: int) {
    FloorSec(s) == s && FloorSec(watermark) <= s && |CrowdBefore(table, s, e.ts)| >= PAGE_SIZE
  }

  /** No series of pages from this watermark holds the event. */
  ghost predicate OutOfReach(table: set<Event>, watermark: int, e: Event) {
    e.ts <= FloorSec(watermark) || exists s :: Blocks(table, watermark, e, s)
  }

  /** For the next run to begin: it starts at the stored watermark, or anywhere without one. */
  ghost predicate NextRunOut(w: World, e: Event) {
    if w.kv.Some? then OutOfReach(w.table, w.kv.value, e) else forall start :: OutOfReach(w.table, start, e)
  }

  /** For a run under way: not in what it still sends, and not from the watermark it will store. */
  ghost predicate RunOut(table: set<Event>, run: Run, e: Event) {
    if run.Polling? then OutOfReach(table, run.watermark, e)
    else
      && (forall i :: run.done <= i < |run.rows| ==> run.rows[i] != e)
      && (Stores(run) ==> OutOfReach(table, FloorMs(Last(run.rows)), e))
  }

  ghost predicate OutOfAllReach(w: World, e: Event) {
    NextRunOut(w, e) && forall r :: r in w.runs ==> RunOut(w.table, w.runs[r], e)
  }

  /** Whatever follows, runs overlapping, crashing and beginning as they like, it is never sent. */
  ghost predicate NeverSent(w: World, e: Event) {
    forall steps :: AllPossible(w, steps) ==> e !in RunSteps(w, steps).sent
  }

  // ---- what is out of reach stays so -------------------------------------------------------

  lemma StaysBlocked(table: set<Event>, x: Event, watermark: int, e: Event)
    requires OutOfReach(table, watermark, e)
    ensures OutOfReach(table + {x}, watermark, e)
  {
    hide FloorSec;
    if !(e.ts <= FloorSec(watermark)) {
      var s :| Blocks(table, watermark, e, s);
      SubsetSize(CrowdBefore(table, s, e.ts), CrowdBefore(table + {x}, s, e.ts));
      assert Blocks(table + {x}, watermark, e, s);
    }
  }

  /** Everything of the window before a row of a page is on the page. */
  lemma RowsBefore(table: set<Event>, since: int, cutoff: int, rows: seq<Event>, i: nat)
    requires PageOf(table, since, cutoff, rows) && i < |rows|
    ensures |Before(table, since, rows[i].ts)| < PAGE_SIZE
  {
    assert InWindow(table, since, cutoff, rows[i]);
    forall x | x in Before(table, since, rows[i].ts) ensures x in Elements(rows[..i]) {
      assert InWindow(table, since, cutoff, x);
      assert rows[i].ts <= rows[|rows| - 1].ts;
      assert x in rows;
      var j :| 0 <= j < |rows| && rows[j] == x;
      assert j < i && rows[..i][j] == x;
    }
    CountElements(rows[..i]);
    SubsetSize(Before(table, since, rows[i].ts), Elements(rows[..i]));
  }

  /** A page from a watermark that cannot reach the event neither holds it nor ends where it can be reached. */
  lemma PageOut(table: set<Event>, watermark: int, cutoff: int, rows: seq<Event>, e: Event)
    requires PageOf(table, FloorSec(watermark), cutoff, rows) && OutOfReach(table, watermark, e)
    ensures e !in rows && (rows != [] ==> OutOfReach(table, FloorMs(Last(rows)), e))
  {
    hide FloorMs, FloorSec;
    if rows != [] {
      RowsBound(table, FloorSec(watermark), cutoff, rows);
      SecondOfStored(Last(rows));
      if e.ts <= FloorSec(watermark) {
        FloorFacts(Last(rows), watermark);
      } else {
        var s :| Blocks(table, watermark, e, s);
        BlockedPage(table, watermark, cutoff, rows, e, s);
      }
    }
  }

  lemma BlockedPage(table: set<Event>, watermark: int, cutoff: int, rows: seq<Event>, e: Event, s: int)
    requires PageOf(table, FloorSec(watermark), cutoff, rows) && rows != [] && Blocks(table, watermark, e, s)
    ensures e !in rows && Blocks(table, FloorMs(Last(rows)), e, s)
  {
    var since := FloorSec(watermark);
    SecondOfStored(Last(rows));
    hide FloorMs, PageOf;
    if i :| 0 <= i < |rows| && rows[i] == e {
      RowsBefore(table, since, cutoff, rows, i);
      SubsetSize(CrowdBefore(table, s, e.ts), Before(table, since, e.ts));
    }
    RowsBefore(table, since, cutoff, rows, |rows| - 1);
    if Last(rows) >= s + SECOND {
      SubsetSize(CrowdBefore(table, s, e.ts), Before(table, since, Last(rows)));
    }
    BelowNextSecond(Last(rows), s);
  }

  lemma OutQuery(w: World, r: nat, cutoff: int, rows: seq<Event>, e: Event)
    requires OutOfAllReach(w, e) && Possible(w, Query(r, cutoff, rows)) && r in w.runs && w.runs[r].Polling?
    ensures OutOfAllReach(Next(w, Query(r, cutoff, rows)), e)
  {
    PageOut(w.table, w.runs[r].watermark, cutoff, rows, e);
    hide OutOfReach, PageOf, FloorSec, FloorMs;
  }

  lemma OutArrival(w: World, x: Event, e: Event)
    requires OutOfAllReach(w, e)
    ensures OutOfAllReach(w.(table := w.table + {x}), e)
  {
    forall m | OutOfReach(w.table, m, e) ensures OutOfReach(w.table + {x}, m, e) {
      StaysBlocked(w.table, x, m, e);
    }
    hide OutOfReach, FloorMs;
  }

  lemma OutStep(w: World, step: Step, e: Event)
    requires OutOfAllReach(w, e) && e !in w.sent && Possible(w, step)
    ensures OutOfAllReach(Next(w, step), e) && e !in Next(w, step).sent
  {
    hide OutOfReach, PageOf, FloorSec, FloorMs;
    match step
    case Arrive(x) => OutArrival(w, x, e);
    case Query(r, cutoff, rows) =>
      if r in w.runs && w.runs[r].Polling? { OutQuery(w, r, cutoff, rows, e); }
    case _ =>
  }

  lemma {:induction false} OutRun(w: World, steps: seq<Step>, e: Event)
    requires OutOfAllReach(w, e) && e !in w.sent && AllPossible(w, steps)
    ensures e !in RunSteps(w, steps).sent
    decreases |steps|
  {
    hide OutOfAllReach, Next, Possible;
    if steps != [] {
      OutStep(w, steps[0], e);
      OutRun(Next(w, steps[0]), steps[1..], e);
    }
  }

  // ---- what is in reach can be sent --------------------------------------------------------

  /** A page under way can be sent to its end. */
  lemma {:induction false} SendRest(w: World, r: nat) returns (steps: seq<Step>)
    requires r in w.runs && w.runs[r].Sending? && w.runs[r].done <= |w.runs[r].rows|
    ensures AllPossible(w, steps)
    ensures var run := w.runs[r];
            RunSteps(w, steps) == w.(sent := w.sent + Elements(run.rows[run.done..]), runs := w.runs[r := run.(done := |run.rows|)])
    decreases |w.runs[r].rows| - w.runs[r].done
  {
    var run := w.runs[r];
    if run.done == |run.rows| {
      steps := [];
      AllSent(w, r);
    } else {
      var v := Next(w, Send(r));
      ChunkSent(w, r);
      hide Next, Possible;
      var rest := SendRest(v, r);
      steps := [Send(r)] + rest;
      assert v.runs[r := run.(done := |run.rows|)] == w.runs[r := run.(done := |run.rows|)];
      assert steps[0] == Send(r) && steps[1..] == rest;
      SendIsPossible(w, r);
    }
  }

  lemma SendIsPossible(w: World, r: nat)
    ensures Possible(w, Send(r)) && Possible(w, Finish(r)) && Possible(w, Begin(r, 0))
  {
  }

  lemma AllSent(w: World, r: nat)
    requires r in w.runs && w.runs[r].Sending? && w.runs[r].done == |w.runs[r].rows|
    ensures var run := w.runs[r];
            w == w.(sent := w.sent + Elements(run.rows[run.done..]), runs := w.runs[r := run.(done := |run.rows|)])
  {
    var run := w.runs[r];
    assert run.rows[run.done..] == [] && run.(done := |run.rows|) == run;
    assert w.sent + Elements([]) == w.sent && w.runs[r := run] == w.runs;
  }

  lemma ChunkSent(w: World, r: nat)
    requires r in w.runs && w.runs[r].Sending? && w.runs[r].done < |w.runs[r].rows|
    ensures var v, run := Next(w, Send(r)), w.runs[r];
            && r in v.runs && v.runs[r].Sending? && run.done < v.runs[r].done <= |run.rows|
            && v.runs[r] == run.(done := v.runs[r].done)
            && v == w.(sent := v.sent, runs := v.runs)
            && v.sent + Elements(run.rows[v.runs[r].done..]) == w.sent + Elements(run.rows[run.done..])
            && v.runs == w.runs[r := v.runs[r]]
  {
    var v, run := Next(w, Send(r)), w.runs[r];
    var d, n := run.done, v.runs[r].done;
    assert run.rows[d..] == run.rows[d..n] + run.rows[n..];
  }

  /** A page that ends with the time of the event and holds it. */
  lemma PageWith(table: set<Event>, since: int, e: Event) returns (rows: seq<Event>)
    requires e in table && since < e.ts && |Before(table, since, e.ts)| < PAGE_SIZE
    ensures PageOf(table, since, e.ts + 1, rows) && e in rows
  {
    rows := PageExists(table, since, e.ts + 1);
    PageReaches(table, since, rows, e);
    if e !in rows {
      rows := LastReplaced(table, since, rows, e);
    }
  }

  /** Ties come in any order, so the last row of a full page may be another of the same time. */
  lemma LastReplaced(table: set<Event>, since: int, rows: seq<Event>, e: Event) returns (other: seq<Event>)
    requires PageOf(table, since, e.ts + 1, rows) && rows != [] && Last(rows) == e.ts
    requires e in table && since < e.ts && e !in rows
    ensures PageOf(table, since, e.ts + 1, other) && e in other
  {
    var n := |rows| - 1;
    other := rows[..n] + [e];
    assert other[n] == e && forall i :: 0 <= i < n ==> other[i] == rows[i] && rows[i] in other;
    assert InWindow(table, since, e.ts + 1, e);
    forall x | InWindow(table, since, e.ts + 1, x) && x !in other ensures |other| == PAGE_SIZE && other[n].ts <= x.ts {
      assert x in rows ==> x == rows[n];
    }
  }

  lemma Joined(w: World, step: Step, rest: seq<Step>)
    requires Possible(w, step) && AllPossible(Next(w, step), rest)
    ensures AllPossible(w, [step] + rest) && RunSteps(w, [step] + rest) == RunSteps(Next(w, step), rest)
  {
    hide Possible, Next;
    assert ([step] + rest)[0] == step && ([step] + rest)[1..] == rest;
  }

  lemma Appended(w: World, a: seq<Step>, b: seq<Step>)
    requires AllPossible(w, a) && AllPossible(RunSteps(w, a), b)
    ensures AllPossible(w, a + b) && RunSteps(w, a + b) == RunSteps(RunSteps(w, a), b)
  {
    hide *;
    Concat(w, a, b);
  }

  /** A polling run whose next page can hold the event. */
  lemma ReachNow(w: World, r: nat, e: Event) returns (steps: seq<Step>)
    requires r in w.runs && w.runs[r].Polling? && e in w.table && FloorSec(w.runs[r].watermark) < e.ts
    requires |Before(w.table, FloorSec(w.runs[r].watermark), e.ts)| < PAGE_SIZE
    ensures AllPossible(w, steps) && e in RunSteps(w, steps).sent
  {
    hide AllPossible, RunSteps, PageOf, FloorSec, Before;
    var rows := PageWith(w.table, FloorSec(w.runs[r].watermark), e);
    var step := Query(r, e.ts + 1, rows);
    var rest := SendRest(Next(w, step), r);
    Joined(w, step, rest);
    steps := [step] + rest;
    assert rows[0..] == rows;
  }

  /** A full page of earlier events moves the second up, when no crowded second is in the way. */
  lemma EarlierPage(table: set<Event>, watermark: int, e: Event) returns (rows: seq<Event>)
    requires e in table && !OutOfReach(table, watermark, e)
    requires |Before(table, FloorSec(watermark), e.ts)| >= PAGE_SIZE
    ensures PageOf(table, FloorSec(watermark), e.ts, rows) && |rows| == PAGE_SIZE
    ensures var next := FloorMs(Last(rows));
            && next != watermark && FloorSec(watermark) < FloorSec(next) && !OutOfReach(table, next, e)
            && |Before(table, FloorSec(next), e.ts)| < |Before(table, FloorSec(watermark), e.ts)|
  {
    rows := PageExists(table, FloorSec(watermark), e.ts);
    FullWindow(table, FloorSec(watermark), e.ts, rows);
    PageMovesUp(table, watermark, e, rows);
  }

  lemma PageMovesUp(table: set<Event>, watermark: int, e: Event, rows: seq<Event>)
    requires !OutOfReach(table, watermark, e) && PageOf(table, FloorSec(watermark), e.ts, rows) && |rows| == PAGE_SIZE
    ensures var next := FloorMs(Last(rows));
            && next != watermark && FloorSec(watermark) < FloorSec(next) && !OutOfReach(table, next, e)
            && |Before(table, FloorSec(next), e.ts)| < |Before(table, FloorSec(watermark), e.ts)|
  {
    var next, s := FloorMs(Last(rows)), FloorSec(Last(rows));
    SecondOfStored(Last(rows));
    WholeSecond(Last(rows));
    FloorFacts(Last(rows), watermark);
    InsideSecond(Last(rows));
    hide FloorSec, FloorMs;
    RowsBound(table, FloorSec(watermark), e.ts, rows);
    assert InWindow(table, FloorSec(watermark), e.ts, rows[|rows| - 1]);
    assert !Blocks(table, watermark, e, s);
    if s < rows[0].ts {
      PageInOneSecond(table, rows, e, s);
    }
    StillReached(table, watermark, next, e);
    var a, b := Before(table, s, e.ts), Before(table, FloorSec(watermark), e.ts);
    assert rows[0].ts <= rows[|rows| - 1].ts;
    assert rows[0] in b && a <= b - {rows[0]};
    SubsetSize(a, b - {rows[0]});
  }

  lemma PageInOneSecond(table: set<Event>, rows: seq<Event>, e: Event, s: int)
    requires rows != [] && s < rows[0].ts && Last(rows) < s + SECOND && Last(rows) < e.ts
    requires forall i, j :: 0 <= i < j < |rows| ==> rows[i] != rows[j] && rows[i].ts <= rows[j].ts
    requires forall i :: 0 <= i < |rows| ==> rows[i] in table && rows[i].ts <= Last(rows)
    ensures |rows| <= |CrowdBefore(table, s, e.ts)|
  {
    forall x | x in Elements(rows) ensures x in CrowdBefore(table, s, e.ts) {
      var i :| 0 <= i < |rows| && rows[i] == x;
      assert i > 0 ==> rows[0].ts <= rows[i].ts;
    }
    CountElements(rows);
    SubsetSize(Elements(rows), CrowdBefore(table, s, e.ts));
  }

  lemma StillReached(table: set<Event>, watermark: int, next: int, e: Event)
    requires !OutOfReach(table, watermark, e) && FloorSec(watermark) <= FloorSec(next) < e.ts
    ensures !OutOfReach(table, next, e)
  {
    hide FloorSec;
    forall s ensures !Blocks(table, next, e, s) {
      assert !Blocks(table, watermark, e, s);
    }
  }

  /** One full page on: the run, or the one that begins after it, polls from its end. */
  lemma PageOn(w: World, r: nat, cutoff: int, rows: seq<Event>) returns (steps: seq<Step>)
    requires r in w.runs && w.runs[r].Polling? && Possible(w, Query(r, cutoff, rows)) && rows != []
    requires FloorMs(Last(rows)) != w.runs[r].watermark
    ensures AllPossible(w, steps)
    ensures var v := RunSteps(w, steps);
            v.table == w.table && r in v.runs && v.runs[r].Polling? && v.runs[r].watermark == FloorMs(Last(rows))
  {
    hide AllPossible, RunSteps, Possible, FloorMs;
    var step := Query(r, cutoff, rows);
    var send := SendRest(Next(w, step), r);
    var u := RunSteps(Next(w, step), send);
    var v := Next(u, Finish(r));
    var last := if r in v.runs then [Finish(r)] else [Finish(r), Begin(r, 0)];
    SendIsPossible(u, r);
    SendIsPossible(v, r);
    OneOrTwo(u, r);
    Appended(Next(w, step), send, last);
    Joined(w, step, send + last);
    steps := [step] + (send + last);
  }

  lemma OneOrTwo(u: World, r: nat)
    ensures AllPossible(u, [Finish(r)]) && RunSteps(u, [Finish(r)]) == Next(u, Finish(r))
    ensures AllPossible(u, [Finish(r), Begin(r, 0)])
    ensures RunSteps(u, [Finish(r), Begin(r, 0)]) == Next(Next(u, Finish(r)), Begin(r, 0))
  {
    var v := Next(u, Finish(r));
    SendIsPossible(u, r);
    SendIsPossible(v, r);
    NothingFollows(v);
    NothingFollows(Next(v, Begin(r, 0)));
    hide *;
    Joined(v, Begin(r, 0), []);
    Joined(u, Finish(r), []);
    Joined(u, Finish(r), [Begin(r, 0)] + []);
    assert [Finish(r)] + ([Begin(r, 0)] + []) == [Finish(r), Begin(r, 0)] && [Finish(r)] + [] == [Finish(r)];
  }

  lemma NothingFollows(w: World)
    ensures AllPossible(w, []) && RunSteps(w, []) == w
  {
  }

  lemma {:induction false} ReachPolling(w: World, r: nat, e: Event) returns (steps: seq<Step>)
    requires r in w.runs && w.runs[r].Polling? && e in w.table && !OutOfReach(w.table, w.runs[r].watermark, e)
    ensures AllPossible(w, steps) && e in RunSteps(w, steps).sent
    decreases |Before(w.table, FloorSec(w.runs[r].watermark), e.ts)|
  {
    var watermark := w.runs[r].watermark;
    hide AllPossible, RunSteps, PageOf, FloorSec, FloorMs, Before, Next;
    if |Before(w.table, FloorSec(watermark), e.ts)| < PAGE_SIZE {
      steps := ReachNow(w, r, e);
    } else {
      hide OutOfReach;
      var rows := EarlierPage(w.table, watermark, e);
      var first := PageOn(w, r, e.ts, rows);
      var rest := ReachPolling(RunSteps(w, first), r, e);
      Appended(w, first, rest);
      steps := first + rest;
    }
  }

  /** From a run under way: it still sends the event, or its end is a watermark that reaches it. */
  lemma ReachRun(w: World, r: nat, e: Event) returns (steps: seq<Step>)
    requires r in w.runs && e in w.table && !RunOut(w.table, w.runs[r], e)
    requires w.runs[r].Sending? ==> w.runs[r].done <= |w.runs[r].rows|
    ensures AllPossible(w, steps) && e in RunSteps(w, steps).sent
  {
    hide AllPossible, RunSteps, OutOfReach, FloorMs;
    var run := w.runs[r];
    if run.Polling? {
      steps := ReachPolling(w, r, e);
    } else {
      steps := SendRest(w, r);
      if forall i :: run.done <= i < |run.rows| ==> run.rows[i] != e {
        var u := RunSteps(w, steps);
        var v := Next(u, Finish(r));
        var last := if r in v.runs then [Finish(r)] else [Finish(r), Begin(r, 0)];
        OneOrTwo(u, r);
        Appended(w, steps, last);
        var rest := ReachPolling(RunSteps(u, last), r, e);
        Appended(w, steps + last, rest);
        steps := steps + last + rest;
      } else {
        var i :| run.done <= i < |run.rows| && run.rows[i] == e;
        assert run.rows[run.done..][i - run.done] == e;
      }
    }
  }

  lemma ReachNext(w: World, e: Event) returns (steps: seq<Step>)
    requires e in w.table && !NextRunOut(w, e)
    ensures AllPossible(w, steps) && e in RunSteps(w, steps).sent
  {
    hide AllPossible, RunSteps, OutOfReach;
    var r := FreeNumber(w.runs.Keys);
    var start: int := if w.kv.Some? then w.kv.value else 0;
    if w.kv.None? {
      start :| !OutOfReach(w.table, start, e);
    }
    var begin := Begin(r, start + DAY);
    assert r !in w.runs;
    var rest := ReachPolling(Next(w, begin), r, e);
    BeginIsPossible(w, r, start + DAY);
    Joined(w, begin, rest);
    steps := [begin] + rest;
  }

  lemma BeginIsPossible(w: World, r: nat, now: int)
    ensures Possible(w, Begin(r, now))
  {
  }

  /** Main result: after any history, an event of the source that has not been sent is never sent, in
      any continuation whatever, exactly when it is out of reach of every run under way and of the next. */
  lemma LostExactlyWhen(w0: World, history: seq<Step>, e: Event)
    requires Fresh(w0) && AllPossible(w0, history)
    requires var w := RunSteps(w0, history); e in w.table && e !in w.sent
    ensures var w := RunSteps(w0, history); NeverSent(w, e) <==> OutOfAllReach(w, e)
  {
    hide RunSteps, AllPossible, NextRunOut, RunOut;
    FreshIsSettled(w0);
    SettledRun(w0, history);
    var w := RunSteps(w0, history);
    if OutOfAllReach(w, e) {
      forall steps | AllPossible(w, steps) ensures e !in RunSteps(w, steps).sent {
        OutRun(w, steps, e);
      }
    } else if !NextRunOut(w, e) {
      var steps := ReachNext(w, e);
    } else {
      var r :| r in w.runs && !RunOut(w.table, w.runs[r], e);
      var steps := ReachRun(w, r, e);
    }
  }

  // ---- losing the rest of a tie ------------------------------------------------------------

  /** An unsent event of a tie on a whole second that a page cut, once the page is finished, is never
      sent again, unless another run under way can still reach it. */
  lemma TieCutLosesForever(w: World, r: nat, e: Event, steps: seq<Step>)
    requires Settled(w) && r in w.runs && w.runs[r].Sending? && w.runs[r].done == |w.runs[r].rows| > 0
    requires e !in w.sent && e.ts == Last(w.runs[r].rows) == FloorSec(e.ts)
    requires forall q :: q in w.runs && q != r ==> RunOut(w.table, w.runs[q], e)
    requires AllPossible(FinishPage(w, r), steps)
    ensures e !in RunSteps(FinishPage(w, r), steps).sent
  {
    var run, v := w.runs[r], FinishPage(w, r);
    var n := |run.rows| - 1;
    assert FloorSec(run.watermark) < run.rows[n].ts;
    WholeEndIsStored(run);
    SecondOfStored(e.ts);
    hide FloorSec, FloorMs, RunSteps, AllPossible, Settled;
    assert OutOfReach(v.table, FloorMs(e.ts), e);
    hide OutOfReach;
    assert OutOfAllReach(v, e);
    OutRun(v, steps, e);
  }

  /** A page that ends on a whole second is never the page of its own watermark. */
  lemma WholeEndIsStored(run: Run)
    requires run.Sending? && run.rows != [] && FloorSec(run.watermark) < Last(run.rows) == FloorSec(Last(run.rows))
    ensures Stores(run)
  {
    SecondOfStored(Last(run.rows));
    hide FloorSec;
  }

  // ---- runs that lose events ---------------------------------------------------------------

  /** The first page of the first run, sent. */
  lemma FirstPage(w0: World, cutoff: int, rows: seq<Event>) returns (front: seq<Step>)
    requires Fresh(w0) && PageOf(w0.table, 0, cutoff, rows)
    ensures AllPossible(w0, front)
    ensures RunSteps(w0, front) == World(w0.table, None, Elements(rows), Some(0), if w0.horizon < cutoff then cutoff else w0.horizon,
                                         map[0 := Sending(0, 0, cutoff, rows, |rows|)])
  {
    hide AllPossible, RunSteps, PageOf;
    var w1 := Next(w0, Begin(0, DAY));
    var w2 := Next(w1, Query(0, cutoff, rows));
    var send := SendRest(w2, 0);
    assert rows[0..] == rows && {} + Elements(rows) == Elements(rows);
    BeginIsPossible(w0, 0, DAY);
    Joined(w1, Query(0, cutoff, rows), send);
    Joined(w0, Begin(0, DAY), [Query(0, cutoff, rows)] + send);
    front := [Begin(0, DAY)] + ([Query(0, cutoff, rows)] + send);
  }

  /** The rest of a tie is lost: 10,001 events on one whole second, of which the first page holds 10,000. */
  lemma TieLost() returns (w0: World, history: seq<Step>, e: Event)
    ensures Fresh(w0) && AllPossible(w0, history)
    ensures var v := RunSteps(w0, history);
            && e in v.table && v.kv.Some? && v.origin.Some? && v.origin.value < e.ts <= FloorSec(v.kv.value)
            && e !in v.sent && !Whole(v) && NeverSent(v, e)
  {
    var rows := Ties(PAGE_SIZE, TIE);
    e := Tied(PAGE_SIZE, TIE);
    w0 := World(Elements(Ties(PAGE_SIZE + 1, TIE)), None, {}, None, 0, map[]);
    TiedPage({}, PAGE_SIZE + 1, TIE, TIE + 1);
    assert w0.table + {} == w0.table;
    var front := FirstPage(w0, TIE + 1, rows);
    TieIsLeft(rows, e);
    hide AllPossible, RunSteps, PageOf, Ties, Tied;
    var u := RunSteps(w0, front);
    OneOrTwo(u, 0);
    Appended(w0, front, [Finish(0)]);
    history := front + [Finish(0)];
    TieBehind(u, rows, e);
    forall steps | AllPossible(FinishPage(u, 0), steps) ensures e !in RunSteps(FinishPage(u, 0), steps).sent {
      TieCutLosesForever(u, 0, e, steps);
    }
  }

  lemma TieBehind(u: World, rows: seq<Event>, e: Event)
    requires u == World(u.table, None, Elements(rows), Some(0), TIE + 1, map[0 := Sending(0, 0, TIE + 1, rows, |rows|)])
    requires |rows| == PAGE_SIZE && Last(rows) == TIE == e.ts && e !in rows && e in u.table
    requires FloorSec(TIE) == TIE == FloorMs(TIE) && forall i :: 0 <= i < |rows| ==> 0 < rows[i].ts < TIE + 1
    ensures Settled(u) && e !in u.sent
    ensures var v := FinishPage(u, 0);
            v == Next(u, Finish(0)) && v.table == u.table && v.sent == u.sent && v.kv == Some(TIE) && v.origin == Some(0) && !Whole(v)
  {
    assert u.runs[0].done == |u.runs[0].rows|;
    hide PageOf;
  }

  const LATER: Event := Event("later", TIE + 2 * SECOND)

  /** And a crowded second stops the pull: 10,000 events strictly inside it, and one later on that is
      never sent. */
  lemma StallReached() returns (w0: World, history: seq<Step>)
    ensures Fresh(w0) && AllPossible(w0, history)
    ensures var v := RunSteps(w0, history);
            Stalled(v, TIE) && LATER in v.table && LATER !in v.sent && NeverSent(v, LATER)
  {
    var rows := Ties(PAGE_SIZE, TIE + 1);
    w0 := World(Elements(rows) + {LATER}, None, {}, None, 0, map[]);
    TiedPage({LATER}, PAGE_SIZE, TIE + 1, TIE + SECOND);
    var front := FirstPage(w0, TIE + SECOND, rows);
    CrowdedRows(rows);
    hide AllPossible, RunSteps, PageOf, Ties, Tied;
    var u := RunSteps(w0, front);
    OneOrTwo(u, 0);
    Appended(w0, front, [Finish(0)]);
    history := front + [Finish(0)];
    StallHere(u, rows);
    forall steps | AllPossible(Next(u, Finish(0)), steps) ensures LATER !in RunSteps(Next(u, Finish(0)), steps).sent {
      OutRun(Next(u, Finish(0)), steps, LATER);
    }
  }

  lemma CrowdedRows(rows: seq<Event>)
    requires rows == Ties(PAGE_SIZE, TIE + 1)
    ensures |rows| == |Elements(rows)| == PAGE_SIZE && forall i :: 0 <= i < |rows| ==> rows[i].ts == TIE + 1
    ensures FloorSec(TIE) == TIE == FloorMs(TIE + 1)
  {
    TiesDiffer(PAGE_SIZE, TIE + 1);
    CountElements(rows);
  }

  lemma StallHere(u: World, rows: seq<Event>)
    requires u == World(Elements(rows) + {LATER}, None, Elements(rows), Some(0), TIE + SECOND,
                        map[0 := Sending(0, 0, TIE + SECOND, rows, |rows|)])
    requires |rows| == |Elements(rows)| == PAGE_SIZE && forall i :: 0 <= i < |rows| ==> rows[i].ts == TIE + 1
    requires FloorSec(TIE) == TIE == FloorMs(TIE + 1)
    ensures var v := Next(u, Finish(0));
            Stalled(v, TIE) && OutOfAllReach(v, LATER) && LATER in v.table && LATER !in v.sent
  {
    var v := Next(u, Finish(0));
    assert u.runs[0].done == |u.runs[0].rows|;
    hide FloorSec, FloorMs;
    assert Elements(rows) <= Crowd(v.table, TIE) && Elements(rows) <= CrowdBefore(v.table, TIE, LATER.ts);
    SubsetSize(Elements(rows), Crowd(v.table, TIE));
    SubsetSize(Elements(rows), CrowdBefore(v.table, TIE, LATER.ts));
    assert Blocks(v.table, TIE, LATER, TIE);
  }
}
