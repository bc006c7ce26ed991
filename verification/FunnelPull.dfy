/** The paged pull loop: whole-second windows, page limit, and a watermark kept between runs. */
module FunnelPull {

  import opened Text
  import opened PostHogPages

  const DAY: int := 86_400 * SECOND
  const MAX_PAGES: nat := 20
  const SEND_CHUNK: nat := 1000

  /** Where a run is in the paging loop. */
  datatype Run =
    | Polling(watermark: int, pages: nat)
    | Sending(watermark: int, pages: nat, cutoff: int, rows: seq<Event>, done: nat)

  /** `origin` is the latest start of a run that found no watermark; `horizon` the latest cutoff queried. */
  datatype World = World(
    table: set<Event>, kv: Option<int>, sent: set<Event>, origin: Option<int>, horizon: int, runs: map<nat, Run>)

  datatype Step =
    | Arrive(event: Event)
    | Begin(run: nat, now: int)
    | Query(run: nat, cutoff: int, rows: seq<Event>)
    | Send(run: nat)
    | Finish(run: nat)
    | Crash(run: nat)

  // ---- steps -------------------------------------------------------------------------------

  function MaxOrigin(origin: Option<int>, start: int): Option<int> {
    if origin.Some? && origin.value >= start then origin else Some(start)
  }

  /** After a page: no rows or no progress ends the run; otherwise the watermark moves and is stored. */
  function FinishPage(w: World, r: nat): World
    requires r in w.runs && w.runs[r].Sending?
  {
    var run := w.runs[r];
    if run.rows == [] || FloorMs(Last(run.rows)) == run.watermark then w.(runs := w.runs - {r})
    else
      var next := FloorMs(Last(run.rows));
      w.(kv := Some(next),
         runs := if |run.rows| < PAGE_SIZE || run.pages + 1 == MAX_PAGES then w.runs - {r}
                 else w.runs[r := Polling(next, run.pages + 1)])
  }

  function SendChunk(w: World, r: nat): World
    requires r in w.runs && w.runs[r].Sending? && w.runs[r].done <= |w.runs[r].rows|
  {
    var run := w.runs[r];
    var upto := if run.done + SEND_CHUNK < |run.rows| then run.done + SEND_CHUNK else |run.rows|;
    w.(sent := w.sent + Elements(run.rows[run.done..upto]), runs := w.runs[r := run.(done := upto)])
  }

  function Next(w: World, step: Step): World {
    match step
    case Arrive(e) => w.(table := w.table + {e})
    case Begin(r, now) =>
      if r in w.runs then w
      else if w.kv.Some? then w.(runs := w.runs[r := Polling(w.kv.value, 0)])
      else w.(origin := MaxOrigin(w.origin, FloorSec(now - DAY)), runs := w.runs[r := Polling(now - DAY, 0)])
    case Query(r, cutoff, rows) =>
      if r in w.runs && w.runs[r].Polling? then
        w.(horizon := if w.horizon < cutoff then cutoff else w.horizon,
           runs := w.runs[r := Sending(w.runs[r].watermark, w.runs[r].pages, cutoff, rows, 0)])
      else w
    case Send(r) =>
      if r in w.runs && w.runs[r].Sending? && w.runs[r].done <= |w.runs[r].rows| then SendChunk(w, r) else w
    case Finish(r) =>
      if r in w.runs && w.runs[r].Sending? && w.runs[r].done == |w.runs[r].rows| then FinishPage(w, r) else w
    case Crash(r) => w.(runs := w.runs - {r})
  }

  function RunSteps(w: World, steps: seq<Step>): World
    decreases |steps|
  {
    if steps == [] then w else RunSteps(Next(w, steps[0]), steps[1..])
  }

  /** Events reach the table before the cutoff passes them (the safety lag), and a query gets a page. */
  ghost predicate Possible(w: World, step: Step) {
    match step
    case Arrive(e) => w.horizon <= e.ts
    case Query(r, cutoff, rows) =>
      r in w.runs && w.runs[r].Polling? ==> PageOf(w.table, FloorSec(w.runs[r].watermark), cutoff, rows)
    case _ => true
  }

  ghost predicate NoTieCut(w: World, step: Step) {
    step.Query? && step.run in w.runs && w.runs[step.run].Polling? ==>
      !CutInTie(w.table, FloorSec(w.runs[step.run].watermark), step.cutoff, step.rows)
  }

  ghost predicate AllPossible(w: World, steps: seq<Step>)
    decreases |steps|
  {
    steps == [] || (Possible(w, steps[0]) && AllPossible(Next(w, steps[0]), steps[1..]))
  }

  ghost predicate NoTieCuts(w: World, steps: seq<Step>)
    decreases |steps|
  {
    steps == [] || (NoTieCut(w, steps[0]) && NoTieCuts(Next(w, steps[0]), steps[1..]))
  }

  /** Nothing pulled yet, whatever the source already holds. */
  predicate Fresh(w: World) {
    w.kv.None? && w.origin.None? && w.sent == {} && w.runs == map[]
  }

  // ---- nothing is skipped ------------------------------------------------------------------

  /** Every event after the origin, up to the whole second of the watermark, has been sent. */
  ghost predicate Covered(w: World, watermark: int) {
    && w.origin.Some?
    && (FloorSec(watermark) < w.horizon || FloorSec(watermark) <= w.origin.value)
    && (forall e :: e in w.table && w.origin.value < e.ts <= FloorSec(watermark) ==> e in w.sent)
  }

  ghost predicate RunFits(w: World, run: Run) {
    && Covered(w, run.watermark)
    && (run.Sending? ==>
          && run.cutoff <= w.horizon && run.done <= |run.rows|
          && PageOf(w.table, FloorSec(run.watermark), run.cutoff, run.rows)
          && (forall i :: 0 <= i < run.done ==> run.rows[i] in w.sent))
  }

  ghost predicate Inv(w: World) {
    && (w.kv.Some? ==> Covered(w, w.kv.value))
    && (forall r :: r in w.runs ==> RunFits(w, w.runs[r]))
  }

  /** An unsent event of the tie that a page on a whole second ends in, later than the origin. */
  predicate UnsentTie(w: World, rows: seq<Event>, e: Event)
    requires rows != []
  {
    e in w.table && e !in w.sent && e.ts == Last(rows) == FloorSec(Last(rows))
    && w.origin.Some? && w.origin.value < e.ts
  }

  /** The step finishes a page, stores its end, and leaves such an event behind. */
  predicate LeavesTie(w: World, step: Step) {
    && step.Finish? && step.run in w.runs && w.runs[step.run].Sending?
    && var run := w.runs[step.run];
       run.done == |run.rows| && run.rows != [] && FloorMs(Last(run.rows)) != run.watermark
       && exists e :: e in w.table && UnsentTie(w, run.rows, e)
  }

  /** A sent page covers everything up to the whole second of its last row, but for the rest of a tie. */
  lemma PageCovers(w: World, run: Run)
    requires RunFits(w, run) && run.Sending? && run.done == |run.rows| && run.rows != []
    ensures Covered(w, FloorMs(Last(run.rows))) <==> !exists e :: e in w.table && UnsentTie(w, run.rows, e)
  {
    var last := Last(run.rows);
    FloorFacts(last, run.watermark);
    PageHolds(w, run);
    hide FloorMs, PageOf;
    RowInWindow(w, run, |run.rows| - 1);
    hide FloorSec;
    if exists e :: e in w.table && UnsentTie(w, run.rows, e) {
      var e :| e in w.table && UnsentTie(w, run.rows, e);
    } else {
      forall e | e in w.table && w.origin.value < e.ts <= FloorSec(FloorMs(last)) ensures e in w.sent {
        assert !UnsentTie(w, run.rows, e);
      }
    }
  }

  lemma RowInWindow(w: World, run: Run, i: nat)
    requires RunFits(w, run) && run.Sending? && i < |run.rows|
    ensures InWindow(w.table, FloorSec(run.watermark), run.cutoff, run.rows[i])
  {
    hide FloorSec, Covered;
  }

  /** Everything before the last row of a sent page has been sent. */
  lemma PageHolds(w: World, run: Run)
    requires RunFits(w, run) && run.Sending? && run.done == |run.rows| && run.rows != []
    ensures w.origin.Some? && forall e :: e in w.table && w.origin.value < e.ts < Last(run.rows) ==> e in w.sent
  {
    hide FloorSec;
    RowInWindow(w, run, |run.rows| - 1);
    forall e | e in w.table && w.origin.value < e.ts < Last(run.rows) ensures e in w.sent {
      if FloorSec(run.watermark) < e.ts {
        assert InWindow(w.table, FloorSec(run.watermark), run.cutoff, e);
        assert e in run.rows;
        var i :| 0 <= i < |run.rows| && run.rows[i] == e;
      }
    }
  }

  /** More sent, a later origin, a later horizon: what is covered stays covered. */
  lemma CoveredGrows(w: World, v: World, watermark: int)
    requires Covered(w, watermark)
    requires v.table == w.table && w.sent <= v.sent && w.horizon <= v.horizon
    requires v.origin.Some? && w.origin.value <= v.origin.value
    ensures Covered(v, watermark)
  {
  }

  lemma RunGrows(w: World, v: World, run: Run)
    requires RunFits(w, run)
    requires v.table == w.table && w.sent <= v.sent && w.horizon <= v.horizon
    requires v.origin.Some? && w.origin.value <= v.origin.value
    ensures RunFits(v, run)
  {
  }

  lemma CoveredHasOrigin(w: World, watermark: int)
    requires Covered(w, watermark)
    ensures w.origin.Some?
  {
  }

  /** An event that arrives behind every cutoff is in nobody's window and below nobody's watermark. */
  lemma ArrivalKeeps(w: World, e: Event)
    requires Inv(w) && w.horizon <= e.ts
    ensures Inv(w.(table := w.table + {e}))
  {
    hide FloorSec;
    var v := w.(table := w.table + {e});
    forall watermark | Covered(w, watermark) ensures Covered(v, watermark) {}
    forall r | r in v.runs ensures RunFits(v, v.runs[r]) {
      var run := w.runs[r];
      assert RunFits(w, run);
      if run.Sending? {
        forall x ensures InWindow(v.table, FloorSec(run.watermark), run.cutoff, x)
                     <==> InWindow(w.table, FloorSec(run.watermark), run.cutoff, x) {}
      }
    }
  }

  lemma BeginKeeps(w: World, r: nat, now: int)
    requires Inv(w)
    ensures Inv(Next(w, Begin(r, now)))
  {
    hide PageOf, CutInTie;
    FloorFacts(now - DAY, now);
    hide FloorSec;
    var v := Next(w, Begin(r, now));
    if r !in w.runs {
      forall k | k in v.runs ensures RunFits(v, v.runs[k]) {
        if k in w.runs {
          CoveredHasOrigin(w, w.runs[k].watermark);
          RunGrows(w, v, w.runs[k]);
        }
      }
    }
  }

  lemma QueryKeeps(w: World, r: nat, cutoff: int, rows: seq<Event>)
    requires Inv(w) && Possible(w, Query(r, cutoff, rows))
    ensures Inv(Next(w, Query(r, cutoff, rows)))
  {
    hide PageOf, CutInTie, FloorSec;
    var v := Next(w, Query(r, cutoff, rows));
    if r in w.runs && w.runs[r].Polling? {
      forall k | k in v.runs ensures RunFits(v, v.runs[k]) {
        CoveredHasOrigin(w, w.runs[k].watermark);
        RunGrows(w, v, w.runs[k]);
      }
      if w.kv.Some? {
        CoveredGrows(w, v, w.kv.value);
      }
    }
  }

  lemma SendKeeps(w: World, r: nat)
    requires Inv(w) && r in w.runs && w.runs[r].Sending? && w.runs[r].done <= |w.runs[r].rows|
    ensures Inv(SendChunk(w, r))
  {
    hide PageOf, CutInTie, FloorSec;
    var v := SendChunk(w, r);
    var rows, upto := v.runs[r].rows, v.runs[r].done;
    forall i | 0 <= i < upto ensures rows[i] in v.sent {
      var done := w.runs[r].done;
      assert RunFits(w, w.runs[r]);
      assert done <= i ==> rows[done..upto][i - done] == rows[i];
    }
    forall k | k in v.runs ensures RunFits(v, v.runs[k]) {
      CoveredHasOrigin(w, w.runs[k].watermark);
      RunGrows(w, v, w.runs[k]);
    }
    if w.kv.Some? {
      CoveredGrows(w, v, w.kv.value);
    }
  }

  /** A finish that leaves no tie keeps the invariant; one that does leaves the watermark uncovered. */
  lemma FinishKeeps(w: World, r: nat)
    requires Inv(w) && r in w.runs && w.runs[r].Sending? && w.runs[r].done == |w.runs[r].rows|
    ensures !LeavesTie(w, Finish(r)) ==> Inv(FinishPage(w, r))
    ensures LeavesTie(w, Finish(r)) ==> !Whole(FinishPage(w, r))
  {
    hide PageOf, FloorSec, FloorMs, UnsentTie;
    var v := FinishPage(w, r);
    var run := w.runs[r];
    assert RunFits(w, run);
    if run.rows != [] {
      PageCovers(w, run);
      SameCover(w, v, FloorMs(Last(run.rows)));
    }
    forall k | k in v.runs && k != r ensures RunFits(v, v.runs[k]) {
      CoveredHasOrigin(w, w.runs[k].watermark);
      RunGrows(w, v, w.runs[k]);
    }
    if w.kv.Some? {
      SameCover(w, v, w.kv.value);
    }
    hide Covered;
  }

  lemma SameCover(w: World, v: World, watermark: int)
    requires v.table == w.table && v.sent == w.sent && v.origin == w.origin && v.horizon == w.horizon
    ensures Covered(v, watermark) <==> Covered(w, watermark)
  {
    hide FloorSec;
  }

  /** Nothing is skipped: the stored watermark is covered. */
  ghost predicate Whole(w: World) {
    w.kv.Some? ==> Covered(w, w.kv.value)
  }

  /** One step, exactly: from a state in order, a step skips something if and only if it finishes a
      page and leaves an unsent event of the tie the page ends in; otherwise all stays in order. */
  lemma StepSkipsExactlyWhen(w: World, step: Step)
    requires Inv(w) && Possible(w, step)
    ensures Whole(Next(w, step)) <==> !LeavesTie(w, step)
    ensures !LeavesTie(w, step) ==> Inv(Next(w, step))
  {
    hide LeavesTie;
    OnlyFinishes(w, step);
    match step
    case Arrive(e) =>
      hide RunFits, Covered, PageOf;
      ArrivalKeeps(w, e);
    case Begin(r, now) => BeginKeeps(w, r, now); hide Covered, RunFits;
    case Query(r, cutoff, rows) => QueryKeeps(w, r, cutoff, rows); hide Covered, RunFits;
    case Send(r) =>
      hide PageOf, Covered, RunFits;
      if r in w.runs && w.runs[r].Sending? && w.runs[r].done <= |w.runs[r].rows| { SendKeeps(w, r); }
    case Finish(r) =>
      hide PageOf, Covered, RunFits;
      if r in w.runs && w.runs[r].Sending? && w.runs[r].done == |w.runs[r].rows| { FinishKeeps(w, r); }
    case Crash(r) =>
      hide FloorSec, PageOf, Possible;
      forall k | k in w.runs && k != r ensures RunFits(Next(w, step), w.runs[k]) {
        CoveredHasOrigin(w, w.runs[k].watermark);
        RunGrows(w, Next(w, step), w.runs[k]);
      }
  }

  lemma OnlyFinishes(w: World, step: Step)
    ensures LeavesTie(w, step) ==>
              step.Finish? && step.run in w.runs && w.runs[step.run].Sending?
              && w.runs[step.run].done == |w.runs[step.run].rows|
  {
    hide UnsentTie;
  }

  /** No finish along the steps leaves an unsent tie event. */
  ghost predicate NoTieLeft(w: World, steps: seq<Step>)
    decreases |steps|
  {
    steps == [] || (!LeavesTie(w, steps[0]) && NoTieLeft(Next(w, steps[0]), steps[1..]))
  }

  /** At every moment along the steps, nothing is skipped. */
  ghost predicate AlwaysWhole(w: World, steps: seq<Step>)
    decreases |steps|
  {
    Whole(w) && (steps == [] || AlwaysWhole(Next(w, steps[0]), steps[1..]))
  }

  lemma {:induction false} AlwaysWholeFrom(w: World, steps: seq<Step>)
    requires Inv(w) && AllPossible(w, steps)
    ensures AlwaysWhole(w, steps) <==> NoTieLeft(w, steps)
    ensures NoTieLeft(w, steps) ==> Inv(RunSteps(w, steps))
    decreases |steps|
  {
    InvIsWhole(w);
    hide Inv, Next, Possible, LeavesTie, Whole;
    if steps != [] {
      StepSkipsExactlyWhen(w, steps[0]);
      if LeavesTie(w, steps[0]) {
        assert !Whole(Next(w, steps[0]));
      } else {
        AlwaysWholeFrom(Next(w, steps[0]), steps[1..]);
      }
    }
  }

  lemma InvIsWhole(w: World)
    requires Inv(w)
    ensures Whole(w)
  {
    hide Covered, RunFits;
  }

  /** Main result: however runs overlap, page and crash, at every moment every event after the latest
      unwatermarked start, up to the whole second of the stored watermark, has been sent, exactly when
      no finish leaves an unsent event of a tie that its page ended in. */
  lemma NothingSkippedExactlyWhen(w: World, steps: seq<Step>)
    requires Fresh(w) && AllPossible(w, steps)
    ensures AlwaysWhole(w, steps) <==> NoTieLeft(w, steps)
  {
    hide AlwaysWhole, NoTieLeft, AllPossible;
    FreshFits(w);
    AlwaysWholeFrom(w, steps);
  }

  lemma FreshFits(w: World)
    requires Fresh(w)
    ensures Inv(w) && UncutRuns(w)
  {
  }

  // ---- when no page is cut -----------------------------------------------------------------

  /** No page under way ends inside a tie on a whole second. */
  ghost predicate UncutRuns(w: World) {
    forall r :: r in w.runs && w.runs[r].Sending? ==>
      !CutInTie(w.table, FloorSec(w.runs[r].watermark), w.runs[r].cutoff, w.runs[r].rows)
  }

  lemma UncutStep(w: World, step: Step)
    requires Inv(w) && UncutRuns(w) && Possible(w, step) && NoTieCut(w, step)
    ensures UncutRuns(Next(w, step))
  {
    hide FloorSec, FloorMs, PageOf, Covered;
    if step.Arrive? {
      var v := Next(w, step);
      forall r | r in v.runs && v.runs[r].Sending?
        ensures !CutInTie(v.table, FloorSec(v.runs[r].watermark), v.runs[r].cutoff, v.runs[r].rows)
      {
        assert RunFits(w, w.runs[r]);
        ArrivalCutsNone(w.table, step.event, FloorSec(w.runs[r].watermark), w.runs[r].cutoff, w.runs[r].rows);
      }
    }
    hide CutInTie;
  }

  lemma ArrivalCutsNone(table: set<Event>, e: Event, since: int, cutoff: int, rows: seq<Event>)
    requires cutoff <= e.ts && !CutInTie(table, since, cutoff, rows)
    ensures !CutInTie(table + {e}, since, cutoff, rows)
  {
    hide FloorSec;
    forall x | InWindow(table + {e}, since, cutoff, x) ensures InWindow(table, since, cutoff, x) {}
  }

  lemma UncutLeavesNone(w: World, step: Step)
    requires Inv(w) && UncutRuns(w)
    ensures !LeavesTie(w, step)
  {
    hide FloorSec, FloorMs, PageOf, Covered;
    if LeavesTie(w, step) {
      TieWasCut(w, step.run);
    }
  }

  lemma TieWasCut(w: World, r: nat)
    requires Inv(w) && LeavesTie(w, Finish(r))
    ensures CutInTie(w.table, FloorSec(w.runs[r].watermark), w.runs[r].cutoff, w.runs[r].rows)
  {
    hide FloorSec, FloorMs, PageOf, Covered;
    var run := w.runs[r];
    assert RunFits(w, run);
    RowInWindow(w, run, |run.rows| - 1);
    var e :| e in w.table && UnsentTie(w, run.rows, e);
    assert InWindow(w.table, FloorSec(run.watermark), run.cutoff, e) && e !in run.rows;
  }

  lemma {:induction false} UncutRun(w: World, steps: seq<Step>)
    requires Inv(w) && UncutRuns(w) && AllPossible(w, steps) && NoTieCuts(w, steps)
    ensures NoTieLeft(w, steps)
    decreases |steps|
  {
    hide Inv, UncutRuns, Next, Possible, NoTieCut, LeavesTie;
    if steps != [] {
      UncutLeavesNone(w, steps[0]);
      UncutStep(w, steps[0]);
      StepSkipsExactlyWhen(w, steps[0]);
      UncutRun(Next(w, steps[0]), steps[1..]);
    }
  }

  /** However runs overlap, page and crash, every event after the latest unwatermarked start, up to the
      whole second of the stored watermark, has been sent, if no page ended inside a tie on a whole second. */
  lemma NothingSkipped(w: World, steps: seq<Step>, e: Event)
    requires Fresh(w) && AllPossible(w, steps) && NoTieCuts(w, steps)
    ensures var v := RunSteps(w, steps);
            v.kv.Some? ==> v.origin.Some?
                           && (e in v.table && v.origin.value < e.ts <= FloorSec(v.kv.value) ==> e in v.sent)
  {
    hide RunSteps, AllPossible, NoTieCuts, NoTieLeft, AlwaysWhole, FloorSec;
    FreshFits(w);
    UncutRun(w, steps);
    AlwaysWholeFrom(w, steps);
  }

  // ---- runs that do not overlap ------------------------------------------------------------

  /** A run begins only when no other is under way. */
  predicate Serial(w: World, step: Step) {
    step.Begin? ==> w.runs == map[]
  }

  ghost predicate AllSerial(w: World, steps: seq<Step>)
    decreases |steps|
  {
    steps == [] || (Serial(w, steps[0]) && AllSerial(Next(w, steps[0]), steps[1..]))
  }

  /** The one run there may be holds the stored watermark. */
  ghost predicate InStep(w: World) {
    && (forall r, q :: r in w.runs && q in w.runs ==> r == q)
    && (forall r :: r in w.runs && w.kv.Some? ==> w.runs[r].watermark == w.kv.value)
    && (forall r :: r in w.runs && w.runs[r].Sending? ==>
          forall i :: 0 <= i < |w.runs[r].rows| ==> FloorSec(w.runs[r].watermark) < w.runs[r].rows[i].ts)
  }

  ghost predicate NotBelow(kv: Option<int>, second: int) {
    kv.Some? && second <= FloorSec(kv.value)
  }

  lemma SerialStep(w: World, step: Step)
    requires InStep(w) && Possible(w, step) && Serial(w, step)
    ensures InStep(Next(w, step))
    ensures w.kv.Some? ==> NotBelow(Next(w, step).kv, FloorSec(w.kv.value))
  {
    match step
    case Finish(r) =>
      if r in w.runs && w.runs[r].Sending? && w.runs[r].rows != [] {
        var run := w.runs[r];
        assert FloorSec(run.watermark) < run.rows[|run.rows| - 1].ts;
        FloorFacts(Last(run.rows), run.watermark);
      }
      hide FloorSec, FloorMs;
    case Query(r, cutoff, rows) =>
      hide FloorSec, FloorMs;
      if r in w.runs && w.runs[r].Polling? {
        forall i | 0 <= i < |rows| ensures FloorSec(w.runs[r].watermark) < rows[i].ts {
          assert InWindow(w.table, FloorSec(w.runs[r].watermark), cutoff, rows[i]);
        }
      }
    case _ =>
      hide FloorSec, FloorMs;
  }

  lemma {:induction false} SerialRun(w: World, steps: seq<Step>, second: int)
    requires InStep(w) && AllPossible(w, steps) && AllSerial(w, steps)
    ensures InStep(RunSteps(w, steps))
    ensures NotBelow(w.kv, second) ==> NotBelow(RunSteps(w, steps).kv, second)
    decreases |steps|
  {
    hide InStep, Next, Possible, Serial, FloorSec;
    if steps != [] {
      SerialStep(w, steps[0]);
      NextNotBelow(w, steps[0], second);
      SerialRun(Next(w, steps[0]), steps[1..], second);
    }
  }

  lemma NextNotBelow(w: World, step: Step, second: int)
    requires w.kv.Some? ==> NotBelow(Next(w, step).kv, FloorSec(w.kv.value))
    ensures NotBelow(w.kv, second) ==> NotBelow(Next(w, step).kv, second)
  {
  }

  /** Main result: over runs that do not overlap, from the first on, the whole second of the stored
      watermark never decreases. */
  lemma SecondNeverDecreases(w: World, steps: seq<Step>, more: seq<Step>)
    requires Fresh(w) && AllPossible(w, steps + more) && AllSerial(w, steps + more)
    ensures var u, v := RunSteps(w, steps).kv, RunSteps(w, steps + more).kv;
            u.Some? ==> v.Some? && FloorSec(u.value) <= FloorSec(v.value)
  {
    hide InStep, RunSteps, AllPossible, AllSerial, FloorSec;
    FreshIsInStep(w);
    Concat(w, steps, more);
    SerialRun(w, steps, 0);
    var u := RunSteps(w, steps);
    if u.kv.Some? {
      SerialRun(u, more, FloorSec(u.kv.value));
    }
  }

  const EARLY: Event := Event("a", SECOND + SECOND / 2)
  const LATE: Event := Event("b", 10 * SECOND)

  /** Two runs of which the one with the older page finishes last. */
  const OVERLAP: seq<Step> :=
    [Begin(0, DAY), Query(0, 2 * SECOND, [EARLY]), Send(0),
     Begin(1, DAY), Query(1, 11 * SECOND, [EARLY, LATE]), Send(1), Finish(1)]

  /** Not so for overlapping runs: the slower one can store a lower second over a higher one. */
  lemma OverlapCanRegress()
    ensures var w0 := World({EARLY, LATE}, None, {}, None, 0, map[]);
            && Fresh(w0) && AllPossible(w0, OVERLAP + [Finish(0)])
            && RunSteps(w0, OVERLAP).kv == Some(10 * SECOND)
            && RunSteps(w0, OVERLAP + [Finish(0)]).kv == Some(SECOND + SECOND / 2)
  {
    var w0 := World({EARLY, LATE}, None, {}, None, 0, map[]);
    var w3 := World({EARLY, LATE}, None, {EARLY}, Some(0), 2 * SECOND, map[0 := Sending(0, 0, 2 * SECOND, [EARLY], 1)]);
    var w7 := World({EARLY, LATE}, Some(10 * SECOND), {EARLY, LATE}, Some(0), 11 * SECOND, w3.runs);
    FirstRun(w0, w3);
    SecondRun(w3, w7);
    assert OVERLAP == OVERLAP[..3] + OVERLAP[3..];
    hide RunSteps, AllPossible;
    Concat(w0, OVERLAP[..3], OVERLAP[3..]);
    OneMore(w0, OVERLAP, Finish(0));
  }

  lemma {:induction false} Concat(w: World, a: seq<Step>, b: seq<Step>)
    ensures RunSteps(w, a + b) == RunSteps(RunSteps(w, a), b)
    ensures AllPossible(w, a + b) <==> AllPossible(w, a) && AllPossible(RunSteps(w, a), b)
    ensures AllSerial(w, a + b) <==> AllSerial(w, a) && AllSerial(RunSteps(w, a), b)
    decreases |b|
  {
    hide Next, Possible, Serial;
    if b == [] {
      assert a + b == a;
    } else {
      var rest := b[1..];
      OneMore(w, a, b[0]);
      Concat(w, a + [b[0]], rest);
      assert a + b == a + [b[0]] + rest;
    }
  }

  lemma FirstRun(w0: World, w3: World)
    requires w0 == World({EARLY, LATE}, None, {}, None, 0, map[])
    requires w3 == World({EARLY, LATE}, None, {EARLY}, Some(0), 2 * SECOND, map[0 := Sending(0, 0, 2 * SECOND, [EARLY], 1)])
    ensures AllPossible(w0, OVERLAP[..3]) && RunSteps(w0, OVERLAP[..3]) == w3
  {
    var w1, w2 := Next(w0, OVERLAP[0]), Next(Next(w0, OVERLAP[0]), OVERLAP[1]);
    assert PageOf(w1.table, 0, 2 * SECOND, [EARLY]);
    assert [EARLY][0..1] == [EARLY] && w2.sent + Elements([EARLY]) == {EARLY};
    hide PageOf;
    OneMore(w0, [], OVERLAP[0]);
    OneMore(w0, [OVERLAP[0]], OVERLAP[1]);
    OneMore(w0, [OVERLAP[0], OVERLAP[1]], OVERLAP[2]);
    assert [] + [OVERLAP[0]] == [OVERLAP[0]] && [OVERLAP[0]] + [OVERLAP[1]] == [OVERLAP[0], OVERLAP[1]];
    assert OVERLAP[..3] == [OVERLAP[0], OVERLAP[1]] + [OVERLAP[2]];
  }

  lemma SecondRun(w3: World, w7: World)
    requires w3 == World({EARLY, LATE}, None, {EARLY}, Some(0), 2 * SECOND, map[0 := Sending(0, 0, 2 * SECOND, [EARLY], 1)])
    requires w7 == World({EARLY, LATE}, Some(10 * SECOND), {EARLY, LATE}, Some(0), 11 * SECOND, w3.runs)
    ensures AllPossible(w3, OVERLAP[3..]) && RunSteps(w3, OVERLAP[3..]) == w7
  {
    var s := OVERLAP[3..];
    SecondPage();
    var w6 := SecondSteps(w3, w7);
    hide PageOf, Next, Possible;
    OneMore(w3, [], s[0]);
    OneMore(w3, [s[0]], s[1]);
    OneMore(w3, [s[0], s[1]], s[2]);
    OneMore(w3, [s[0], s[1], s[2]], s[3]);
    assert [] + [s[0]] == [s[0]] && [s[0]] + [s[1]] == [s[0], s[1]] && [s[0], s[1]] + [s[2]] == [s[0], s[1], s[2]];
    assert s == [s[0], s[1], s[2]] + [s[3]];
  }

  lemma SecondPage()
    ensures PageOf({EARLY, LATE}, 0, 11 * SECOND, [EARLY, LATE])
  {
  }

  lemma SecondSteps(w3: World, w7: World) returns (w6: World)
    requires w3 == World({EARLY, LATE}, None, {EARLY}, Some(0), 2 * SECOND, map[0 := Sending(0, 0, 2 * SECOND, [EARLY], 1)])
    requires w7 == World({EARLY, LATE}, Some(10 * SECOND), {EARLY, LATE}, Some(0), 11 * SECOND, w3.runs)
    ensures var w4 := Next(w3, OVERLAP[3]);
            var w5 := Next(w4, OVERLAP[4]);
            && w6 == Next(w5, OVERLAP[5]) && Next(w6, OVERLAP[6]) == w7
            && Possible(w3, OVERLAP[3]) && Possible(w4, OVERLAP[4]) && Possible(w5, OVERLAP[5]) && Possible(w6, OVERLAP[6])
  {
    SecondPage();
    hide PageOf;
    var w4 := Next(w3, OVERLAP[3]);
    var w5 := Next(w4, OVERLAP[4]);
    assert w4.runs[1] == Polling(0, 0);
    assert w5.runs[1] == Sending(0, 0, 11 * SECOND, [EARLY, LATE], 0);
    w6 := Next(w5, OVERLAP[5]);
    assert [EARLY, LATE][0..2] == [EARLY, LATE];
    assert w6.runs[1] == Sending(0, 0, 11 * SECOND, [EARLY, LATE], 2);
    assert w6.sent == {EARLY, LATE};
    assert Next(w6, OVERLAP[6]).runs == w3.runs;
  }

  lemma FreshIsInStep(w: World)
    requires Fresh(w)
    ensures InStep(w)
  {
  }

  // ---- the loop ----------------------------------------------------------------------------

  lemma {:induction false} OneMore(w: World, steps: seq<Step>, step: Step)
    ensures RunSteps(w, steps + [step]) == Next(RunSteps(w, steps), step)
    ensures AllPossible(w, steps + [step]) <==> AllPossible(w, steps) && Possible(RunSteps(w, steps), step)
    ensures AllSerial(w, steps + [step]) <==> AllSerial(w, steps) && Serial(RunSteps(w, steps), step)
    decreases |steps|
  {
    hide Next, Possible, Serial;
    if steps == [] {
      assert steps + [step] == [step] && [step][1..] == [];
      assert RunSteps(w, [step]) == RunSteps(Next(w, step), []);
    } else {
      assert (steps + [step])[0] == steps[0] && (steps + [step])[1..] == steps[1..] + [step];
      OneMore(Next(w, steps[0]), steps[1..], step);
    }
  }

  class Puller {
    var table: seq<Event>       // the source, in the order of its query
    var kv: Option<int>
    var sent: set<Event>

    /** The world this object is in, with no run under way. */
    ghost predicate Shows(w: World)
      reads this
    {
      w.table == Elements(table) && w.kv == kv && w.sent == sent
    }

    /** The sends of one page, in chunks. */
    method SendAll(rows: seq<Event>, ghost w0: World, ghost steps0: seq<Step>, ghost at: World)
      returns (ghost steps: seq<Step>, ghost w: World)
      requires Shows(at) && at == RunSteps(w0, steps0) && AllPossible(w0, steps0) && AllSerial(w0, steps0)
      requires 0 in at.runs && at.runs[0].Sending? && at.runs[0].rows == rows && at.runs[0].done == 0
      requires NoCrash(steps0)
      modifies this`sent
      ensures sent == old(sent) + Elements(rows) && NoCrash(steps)
      ensures Shows(w) && w == RunSteps(w0, steps) && AllPossible(w0, steps) && AllSerial(w0, steps)
      ensures w.runs == at.runs[0 := at.runs[0].(done := |rows|)]
    {
      hide Possible, PageOf, FloorSec, RunSteps, AllPossible, AllSerial;
      steps, w := steps0, at;
      var i := 0;
      while i < |rows|
        invariant 0 <= i <= |rows|
        invariant Shows(w) && w == RunSteps(w0, steps)
        invariant AllPossible(w0, steps) && AllSerial(w0, steps)
        invariant w.runs == at.runs[0 := at.runs[0].(done := i)]
        invariant sent == old(sent) + Elements(rows[..i]) && NoCrash(steps)
      {
        var upto := if i + SEND_CHUNK < |rows| then i + SEND_CHUNK else |rows|;
        sent := sent + Elements(rows[i..upto]);
        assert rows[..upto] == rows[..i] + rows[i..upto];
        steps, w := Step1(w0, steps, w, Send(0));
        i := upto;
      }
      assert rows[..|rows|] == rows;
    }

    /** One cron tick. `cutoffs` are the clock readings (less the lag) of its queries. */
    method Ingest(now: int, cutoffs: seq<int>, ghost w0: World)
      returns (count: nat, pages: nat, watermark: int, ghost steps: seq<Step>, ghost drawn: seq<seq<Event>>)
      requires Ordered(table) && Shows(w0) && w0.runs == map[] && |cutoffs| == MAX_PAGES
      modifies this`kv, this`sent
      ensures AllPossible(w0, steps) && AllSerial(w0, steps)
      ensures Shows(RunSteps(w0, steps)) && RunSteps(w0, steps).runs == map[]
      ensures pages <= MAX_PAGES && count <= MAX_PAGES * PAGE_SIZE
      ensures NoCrash(steps)
      ensures var start := if old(kv).Some? then old(kv).value else now - DAY;
              && |drawn| <= MAX_PAGES && Chain(Elements(table), start, cutoffs[..|drawn|], drawn)
              && Ended(start, drawn, MAX_PAGES)
              && watermark == AfterAll(start, drawn)
              && kv == (if After(start, drawn[0]) == start then old(kv) else Some(watermark))
      ensures sent == old(sent) + EventsOf(drawn) && count == RowsIn(drawn)
      ensures pages == PassedPages(if old(kv).Some? then old(kv).value else now - DAY, drawn)
    {
      hide Possible, PageOf, FloorSec, FloorMs, RunSteps, AllPossible, AllSerial, Chain, AfterAll, GoesOn, Ended, EventsOf, RowsIn, NoCrash, Next, PassedPages;
      watermark := if kv.Some? then kv.value else now - DAY;
      ghost var start := watermark;
      drawn := [];
      NoPages(Elements(table), start);
      ghost var w := Next(w0, Begin(0, now));
      steps := [Begin(0, now)];
      count, pages := 0, 0;
      Beginning(w0, now);
      while pages < MAX_PAGES
        invariant Shows(w) && w == RunSteps(w0, steps)
        invariant AllPossible(w0, steps) && AllSerial(w0, steps)
        invariant pages <= MAX_PAGES && count <= pages * PAGE_SIZE
        invariant w.runs == if pages < MAX_PAGES then map[0 := Polling(watermark, pages)] else map[]
        invariant kv == if drawn == [] then old(kv) else Some(watermark)
        invariant drawn != [] ==> After(start, drawn[0]) != start
        invariant sent == old(sent) + EventsOf(drawn) && count == RowsIn(drawn)
        invariant GoesOn(start, drawn) && NoCrash(steps) && pages == PassedPages(start, drawn)
        invariant pages == MAX_PAGES ==> Ended(start, drawn, MAX_PAGES)
        invariant |drawn| == pages && Chain(Elements(table), start, cutoffs[..pages], drawn)
        invariant watermark == AfterAll(start, drawn)
      {
        var rows := QueryPage(table, FloorSec(watermark), cutoffs[pages]);
        ChainGrows(Elements(table), start, cutoffs[..pages], drawn, cutoffs[pages], rows);
        assert cutoffs[..pages] + [cutoffs[pages]] == cutoffs[..pages + 1];
        DrawnMore(start, drawn, rows, MAX_PAGES);
        drawn := drawn + [rows];
        QueryIsPossible(w, cutoffs[pages], rows);
        TickQuery(w, watermark, pages, cutoffs[pages], rows);
        steps, w := Step1(w0, steps, w, Query(0, cutoffs[pages], rows));
        if rows == [] {
          TickFinish(w, watermark, pages, cutoffs[pages], rows);
          steps, w := Step1(w0, steps, w, Finish(0));
          assert w.runs == map[];
          break;
        }
        steps, w := SendAll(rows, w0, steps, w);
        count := count + |rows|;
        TickFinish(w, watermark, pages, cutoffs[pages], rows);
        steps, w := Step1(w0, steps, w, Finish(0));
        var iso := FloorMs(rows[|rows| - 1].ts);
        if iso == watermark {
          assert w.runs == map[];
          break;
        }
        watermark := iso;
        kv := Some(watermark);
        if |rows| < PAGE_SIZE {
          assert w.runs == map[];
          break;
        }
        pages := pages + 1;
      }
    }
  }

  lemma NoPages(table: set<Event>, start: int)
    ensures Chain(table, start, [], []) && AfterAll(start, []) == start
    ensures GoesOn(start, []) && EventsOf([]) == {} && RowsIn([]) == 0 && PassedPages(start, []) == 0
  {
  }

  /** No run dies along the steps. */
  predicate NoCrash(steps: seq<Step>) {
    forall step :: step in steps ==> !step.Crash?
  }

  lemma Beginning(w0: World, now: int)
    requires w0.runs == map[]
    ensures AllPossible(w0, [Begin(0, now)]) && AllSerial(w0, [Begin(0, now)])
    ensures RunSteps(w0, [Begin(0, now)]) == Next(w0, Begin(0, now))
    ensures var w := Next(w0, Begin(0, now));
            w.runs == map[0 := Polling(if w0.kv.Some? then w0.kv.value else now - DAY, 0)]
            && w.table == w0.table && w.kv == w0.kv && w.sent == w0.sent
    ensures NoCrash([Begin(0, now)])
  {
  }

  lemma TickQuery(w: World, watermark: int, pages: nat, cutoff: int, rows: seq<Event>)
    requires w.runs == map[0 := Polling(watermark, pages)]
    ensures var v := Next(w, Query(0, cutoff, rows));
            v.runs == map[0 := Sending(watermark, pages, cutoff, rows, 0)] && v.table == w.table && v.kv == w.kv && v.sent == w.sent
  {
  }

  lemma TickFinish(w: World, watermark: int, pages: nat, cutoff: int, rows: seq<Event>)
    requires w.runs == map[0 := Sending(watermark, pages, cutoff, rows, |rows|)]
    ensures var v := Next(w, Finish(0));
            v.table == w.table && v.sent == w.sent
            && if rows == [] || FloorMs(Last(rows)) == watermark then v.kv == w.kv && v.runs == map[]
               else v.kv == Some(FloorMs(Last(rows)))
                    && v.runs == if |rows| < PAGE_SIZE || pages + 1 == MAX_PAGES then map[] else map[0 := Polling(FloorMs(Last(rows)), pages + 1)]
  {
    hide FloorMs;
    assert w.runs - {0} == map[];
  }

  lemma QueryIsPossible(w: World, cutoff: int, rows: seq<Event>)
    requires 0 in w.runs && PageOf(w.table, FloorSec(w.runs[0].watermark), cutoff, rows)
    ensures Possible(w, Query(0, cutoff, rows))
  {
  }

  lemma NonQueryIsPossible(w: World, step: Step)
    requires step.Send? || step.Finish?
    ensures Possible(w, step)
  {
  }

  /** Appends one allowed step to a run. */
  lemma Step1(w0: World, steps: seq<Step>, w: World, step: Step) returns (more: seq<Step>, next: World)
    requires w == RunSteps(w0, steps) && AllPossible(w0, steps) && AllSerial(w0, steps)
    requires step.Query? ==> Possible(w, step)
    requires step.Query? || step.Send? || step.Finish?
    ensures more == steps + [step] && next == Next(w, step) == RunSteps(w0, more)
    ensures AllPossible(w0, more) && AllSerial(w0, more)
    ensures NoCrash(steps) ==> NoCrash(more)
  {
    if !step.Query? { NonQueryIsPossible(w, step); }
    OneMore(w0, steps, step);
    more, next := steps + [step], Next(w, step);
  }
}
