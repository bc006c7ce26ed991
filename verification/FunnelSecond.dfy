/** Exactly when the stored whole second of the pull can decrease. */
module FunnelSecond {

  import opened Text
  import opened PostHogPages
  import opened FunnelPull

  /** The stored second is lower afterwards, or gone. */
  predicate Lower(before: Option<int>, after: Option<int>) {
    before.Some? && (after.None? || FloorSec(after.value) < FloorSec(before.value))
  }

  /** Finishing the page stores something. */
  predicate Stores(run: Run)
    requires run.Sending?
  {
    run.rows != [] && FloorMs(Last(run.rows)) != run.watermark
  }

  /** The page ends before the stored second. */
  predicate EndsBefore(kv: Option<int>, run: Run)
    requires run.Sending?
  {
    kv.Some? && Stores(run) && FloorSec(Last(run.rows)) < FloorSec(kv.value)
  }

  /** A finish that stores a page ending before the stored second. */
  predicate FinishBehind(w: World, step: Step) {
    step.Finish? && step.run in w.runs && w.runs[step.run].Sending?
    && w.runs[step.run].done == |w.runs[step.run].rows| && EndsBefore(w.kv, w.runs[step.run])
  }

  // ---- one step, and whole runs ------------------------------------------------------------

  lemma SecondOfStored(t: int)
    ensures FloorSec(FloorMs(t)) == FloorSec(t)
  {
    FloorFacts(t, t);
  }

  /** One step lowers the stored second exactly when it finishes such a page. */
  lemma StepLowersExactlyWhen(w: World, step: Step)
    ensures Lower(w.kv, Next(w, step).kv) <==> FinishBehind(w, step)
  {
    if step.Finish? && step.run in w.runs && w.runs[step.run].Sending? && w.runs[step.run].rows != [] {
      SecondOfStored(Last(w.runs[step.run].rows));
    }
    hide FloorSec, FloorMs;
  }

  lemma LowerChain(a: Option<int>, b: Option<int>, c: Option<int>)
    requires !Lower(a, b) && !Lower(b, c)
    ensures !Lower(a, c)
  {
    hide FloorSec;
  }

  lemma NextPrefix(w: World, steps: seq<Step>, i: nat)
    requires i < |steps|
    ensures RunSteps(w, steps[..i + 1]) == Next(RunSteps(w, steps[..i]), steps[i])
  {
    hide Next, RunSteps;
    OneMore(w, steps[..i], steps[i]);
    assert steps[..i + 1] == steps[..i] + [steps[i]];
  }

  ghost predicate NoneBehind(w: World, steps: seq<Step>) {
    forall i :: 0 <= i < |steps| ==> !FinishBehind(RunSteps(w, steps[..i]), steps[i])
  }

  /** Nowhere along the steps is the stored second lower than at an earlier moment. */
  ghost predicate NeverLower(w: World, steps: seq<Step>) {
    forall i, j :: 0 <= i <= j <= |steps| ==> !Lower(RunSteps(w, steps[..i]).kv, RunSteps(w, steps[..j]).kv)
  }

  lemma {:induction false} KeptBetween(w: World, steps: seq<Step>, i: nat, j: nat)
    requires NoneBehind(w, steps) && i <= j <= |steps|
    ensures !Lower(RunSteps(w, steps[..i]).kv, RunSteps(w, steps[..j]).kv)
    decreases j - i
  {
    hide Next, RunSteps, FinishBehind, FloorSec;
    if i < j {
      KeptBetween(w, steps, i, j - 1);
      NextPrefix(w, steps, j - 1);
      StepLowersExactlyWhen(RunSteps(w, steps[..j - 1]), steps[j - 1]);
      LowerChain(RunSteps(w, steps[..i]).kv, RunSteps(w, steps[..j - 1]).kv, RunSteps(w, steps[..j]).kv);
    }
  }

  /** Main result: along any steps, overlapping runs included, the stored second never decreases
      exactly when no page is finished behind it. */
  lemma NeverLowerExactlyWhen(w: World, steps: seq<Step>)
    ensures NeverLower(w, steps) <==> NoneBehind(w, steps)
  {
    hide Next, RunSteps, FinishBehind, Lower;
    if NoneBehind(w, steps) {
      forall i, j | 0 <= i <= j <= |steps| ensures !Lower(RunSteps(w, steps[..i]).kv, RunSteps(w, steps[..j]).kv) {
        KeptBetween(w, steps, i, j);
      }
    }
    if NeverLower(w, steps) {
      forall i | 0 <= i < |steps| ensures !FinishBehind(RunSteps(w, steps[..i]), steps[i]) {
        NextPrefix(w, steps, i);
        StepLowersExactlyWhen(RunSteps(w, steps[..i]), steps[i]);
        assert !Lower(RunSteps(w, steps[..i]).kv, RunSteps(w, steps[..i + 1]).kv);
      }
    }
  }

  // ---- what a state allows -----------------------------------------------------------------

  function Before(table: set<Event>, since: int, ts: int): set<Event> {
    set e | e in table && since < e.ts < ts
  }

  /** An event that a page from this watermark can end with, before the stored second. */
  predicate EarlyEvent(table: set<Event>, kv: int, watermark: int, e: Event) {
    && e in table && FloorSec(watermark) < e.ts < FloorSec(kv) && FloorMs(e.ts) != watermark
    && |Before(table, FloorSec(watermark), e.ts)| < PAGE_SIZE
  }

  /** The run can come to store a lower second: its page does, or its next page may. */
  predicate Behind(w: World, run: Run) {
    if run.Sending? then EndsBefore(w.kv, run)
    else w.kv.Some? && exists e :: e in w.table && EarlyEvent(w.table, w.kv.value, run.watermark, e)
  }

  /** The events strictly inside the second that starts at `s`. */
  function Crowd(table: set<Event>, s: int): set<Event> {
    set e | e in table && s < e.ts < s + SECOND
  }

  /** A time that the page of this run ends with and is then stored, or that its next page may. */
  predicate CanHold(table: set<Event>, run: Run, t: int) {
    if run.Sending? then Stores(run) && Last(run.rows) == t
    else
      && (exists e :: e in table && e.ts == t)
      && FloorSec(run.watermark) < t && FloorMs(t) != run.watermark && |Before(table, FloorSec(run.watermark), t)| < PAGE_SIZE
  }

  /** That page is full, so that the run polls again, and the second it ends in does not fill another. */
  predicate Passes(table: set<Event>, run: Run, t: int) {
    && (if run.Sending? then |run.rows| >= PAGE_SIZE else |Before(table, FloorSec(run.watermark), t + 1)| >= PAGE_SIZE)
    && run.pages + 1 != MAX_PAGES && |Crowd(table, FloorSec(t))| < PAGE_SIZE
  }

  /** Two runs can hold pages of which the one ends before the other, or before what the other goes on to. */
  predicate HoldApart(table: set<Event>, slow: Run, fast: Run, a: int, b: int) {
    && CanHold(table, slow, a) && CanHold(table, fast, b)
    && (FloorSec(a) < FloorSec(b) || (FloorSec(a) == FloorSec(b) && Passes(table, fast, b)))
  }

  ghost predicate Clash(table: set<Event>, slow: Run, fast: Run) {
    exists a, b :: HoldApart(table, slow, fast, a, b)
  }

  predicate MayArrive(w: World, more: set<Event>) {
    forall x :: x in more ==> w.horizon <= x.ts
  }

  /** No two live runs clash, whatever arrives before their next pages. */
  ghost predicate NoClash(w: World) {
    forall more, r, q :: MayArrive(w, more) && r in w.runs && q in w.runs && r != q ==>
      !Clash(w.table + more, w.runs[r], w.runs[q])
  }

  /** Whatever follows, as long as runs begin one at a time, the stored second never decreases. */
  ghost predicate Steady(w: World) {
    forall steps :: AllPossible(w, steps) && AllSerial(w, steps) ==> NeverLower(w, steps)
  }

  /** Pages lie after their watermark, and all they hold lies before the horizon. */
  ghost predicate Settled(w: World) {
    && (w.kv.Some? ==> FloorSec(w.kv.value) <= w.horizon)
    && (forall r :: r in w.runs && w.runs[r].Sending? ==>
          w.runs[r].done <= |w.runs[r].rows|
          && forall i :: 0 <= i < |w.runs[r].rows| ==> FloorSec(w.runs[r].watermark) < w.runs[r].rows[i].ts < w.horizon)
  }

  lemma SettledQuery(w: World, r: nat, cutoff: int, rows: seq<Event>)
    requires Settled(w) && Possible(w, Query(r, cutoff, rows)) && r in w.runs && w.runs[r].Polling?
    ensures Settled(Next(w, Query(r, cutoff, rows)))
  {
    hide FloorSec;
    var v := Next(w, Query(r, cutoff, rows));
    forall i | 0 <= i < |rows| ensures FloorSec(w.runs[r].watermark) < rows[i].ts < v.horizon {
      assert InWindow(w.table, FloorSec(w.runs[r].watermark), cutoff, rows[i]);
    }
  }

  lemma SettledStep(w: World, step: Step)
    requires Settled(w) && Possible(w, step)
    ensures Settled(Next(w, step))
  {
    hide FloorMs, PageOf;
    match step
    case Query(r, cutoff, rows) =>
      if r in w.runs && w.runs[r].Polling? { SettledQuery(w, r, cutoff, rows); }
    case Finish(r) =>
      if r in w.runs && w.runs[r].Sending? && w.runs[r].rows != [] {
        SecondOfStored(Last(w.runs[r].rows));
        WholeSecond(Last(w.runs[r].rows));
        var last := w.runs[r].rows[|w.runs[r].rows| - 1];
        assert last.ts < w.horizon;
      }
      hide FloorSec;
    case _ => hide FloorSec;
  }

  lemma {:induction false} SettledRun(w: World, steps: seq<Step>)
    requires Settled(w) && AllPossible(w, steps)
    ensures Settled(RunSteps(w, steps))
    decreases |steps|
  {
    hide Settled, Possible, Next;
    if steps != [] {
      SettledStep(w, steps[0]);
      SettledRun(Next(w, steps[0]), steps[1..]);
    }
  }

  ghost predicate OnTrack(w: World) {
    Settled(w) && NoRunBehind(w) && NoClash(w)
  }

  ghost predicate NoRunBehind(w: World) {
    forall r :: r in w.runs ==> !Behind(w, w.runs[r])
  }

  /** The last row of a page is an event its watermark can end with. */
  lemma LastIsReached(table: set<Event>, since: int, cutoff: int, rows: seq<Event>)
    requires PageOf(table, since, cutoff, rows) && rows != []
    ensures var e := rows[|rows| - 1]; e in table && since < e.ts < cutoff && |Before(table, since, e.ts)| < PAGE_SIZE
  {
    var n := |rows| - 1;
    var e := rows[n];
    assert InWindow(table, since, cutoff, e);
    forall x | x in Before(table, since, e.ts) ensures x in Elements(rows[..n]) {
      assert InWindow(table, since, cutoff, x);
      var i :| 0 <= i < |rows| && rows[i] == x;
      assert i < n && rows[..n][i] == x;
    }
    CountElements(rows[..n]);
    SubsetSize(Before(table, since, e.ts), Elements(rows[..n]));
  }

  lemma {:induction false} CountElements(rows: seq<Event>)
    ensures |Elements(rows)| <= |rows|
    ensures (forall i, j :: 0 <= i < j < |rows| ==> rows[i] != rows[j]) ==> |Elements(rows)| == |rows|
  {
    if rows != [] {
      var front, e := rows[..|rows| - 1], rows[|rows| - 1];
      CountElements(front);
      assert Elements(rows) == Elements(front) + {e};
    }
  }

  lemma SubsetSize<T>(a: set<T>, b: set<T>)
    requires a <= b
    ensures |a| <= |b|
  {
    assert b == a + (b - a);
  }

  /** What a run holds after its query, it could hold before. */
  lemma QueriedHold(table: set<Event>, more: set<Event>, watermark: int, pages: nat, cutoff: int, rows: seq<Event>, t: int)
    requires PageOf(table, FloorSec(watermark), cutoff, rows) && forall x :: x in more ==> cutoff <= x.ts
    requires CanHold(table + more, Sending(watermark, pages, cutoff, rows, 0), t)
    ensures CanHold(table + more, Polling(watermark, pages), t)
    ensures Passes(table + more, Sending(watermark, pages, cutoff, rows, 0), t) ==> Passes(table + more, Polling(watermark, pages), t)
  {
    var since, T := FloorSec(watermark), table + more;
    LastIsReached(table, since, cutoff, rows);
    assert rows[|rows| - 1] in T;
    assert Before(T, since, t) == Before(table, since, t);
    forall x | x in Elements(rows) ensures x in Before(T, since, t + 1) {
      var i :| 0 <= i < |rows| && rows[i] == x;
      assert InWindow(table, since, cutoff, rows[i]);
    }
    CountElements(rows);
    SubsetSize(Elements(rows), Before(T, since, t + 1));
  }

  lemma QueryClash(w: World, r: nat, cutoff: int, rows: seq<Event>)
    requires NoClash(w) && Possible(w, Query(r, cutoff, rows)) && r in w.runs && w.runs[r].Polling?
    ensures NoClash(Next(w, Query(r, cutoff, rows)))
  {
    hide FloorSec, FloorMs, PageOf, CanHold, Passes;
    var v := Next(w, Query(r, cutoff, rows));
    forall more, p, q | MayArrive(v, more) && p in v.runs && q in v.runs && p != q
      ensures !Clash(v.table + more, v.runs[p], v.runs[q])
    {
      assert !Clash(w.table + more, w.runs[p], w.runs[q]);
      forall a, b ensures !HoldApart(v.table + more, v.runs[p], v.runs[q], a, b) {
        assert !HoldApart(w.table + more, w.runs[p], w.runs[q], a, b);
        if p == r && CanHold(v.table + more, v.runs[p], a) {
          QueriedHold(w.table, more, w.runs[r].watermark, w.runs[r].pages, cutoff, rows, a);
        }
        if q == r && CanHold(v.table + more, v.runs[q], b) {
          QueriedHold(w.table, more, w.runs[r].watermark, w.runs[r].pages, cutoff, rows, b);
        }
      }
    }
  }

  lemma QueryOnTrack(w: World, r: nat, cutoff: int, rows: seq<Event>)
    requires OnTrack(w) && Possible(w, Query(r, cutoff, rows)) && r in w.runs && w.runs[r].Polling?
    ensures OnTrack(Next(w, Query(r, cutoff, rows)))
  {
    SettledQuery(w, r, cutoff, rows);
    QueryClash(w, r, cutoff, rows);
    var v, W := Next(w, Query(r, cutoff, rows)), w.runs[r].watermark;
    hide FloorSec, FloorMs, PageOf, Settled, EarlyEvent, NoClash;
    if EndsBefore(v.kv, v.runs[r]) {
      EndIsEarly(w.table, w.kv.value, W, cutoff, rows);
    }
  }

  lemma EndIsEarly(table: set<Event>, kv: int, watermark: int, cutoff: int, rows: seq<Event>)
    requires PageOf(table, FloorSec(watermark), cutoff, rows) && rows != []
    requires FloorMs(Last(rows)) != watermark && FloorSec(Last(rows)) < FloorSec(kv)
    ensures EarlyEvent(table, kv, watermark, rows[|rows| - 1])
  {
    LastIsReached(table, FloorSec(watermark), cutoff, rows);
    SecondsApart(Last(rows), kv);
    hide FloorSec, FloorMs, PageOf;
  }

  lemma SecondsApart(t: int, u: int)
    ensures FloorSec(t) < FloorSec(u) <==> t < FloorSec(u)
  {
  }

  /** A run that holds the stored watermark is not behind. */
  lemma InStepNotBehind(w: World, watermark: int, pages: nat)
    requires w.kv.Some? ==> w.kv.value == watermark
    ensures !Behind(w, Polling(watermark, pages))
  {
    hide FloorSec, FloorMs, Before;
  }

  lemma ArrivalOnTrack(w: World, e: Event)
    requires OnTrack(w) && w.horizon <= e.ts
    ensures OnTrack(w.(table := w.table + {e}))
  {
    hide FloorSec, FloorMs, EarlyEvent, Clash;
    var v := w.(table := w.table + {e});
    forall r | r in v.runs ensures !Behind(v, v.runs[r]) {
      var run := w.runs[r];
      assert !Behind(w, run);
      if run.Polling? && v.kv.Some? {
        forall x | x in v.table ensures !EarlyEvent(v.table, v.kv.value, run.watermark, x) {
          if EarlyEvent(v.table, v.kv.value, run.watermark, x) {
            EarlyBeforeArrival(w.table, e, v.kv.value, run.watermark, x);
          }
        }
      }
    }
    hide Behind, Settled;
    forall more, r, q | MayArrive(v, more) && r in v.runs && q in v.runs && r != q
      ensures !Clash(v.table + more, v.runs[r], v.runs[q])
    {
      assert v.table + more == w.table + ({e} + more) && MayArrive(w, {e} + more);
    }
  }

  lemma EarlyBeforeArrival(table: set<Event>, e: Event, kv: int, watermark: int, x: Event)
    requires EarlyEvent(table + {e}, kv, watermark, x) && FloorSec(kv) <= e.ts
    ensures x in table && EarlyEvent(table, kv, watermark, x)
  {
    hide FloorSec, FloorMs;
    assert Before(table + {e}, FloorSec(watermark), x.ts) == Before(table, FloorSec(watermark), x.ts);
  }

  /** A clash of the run after it has stored its page was one before. */
  lemma FinishedClash(table: set<Event>, was: Run, run: Run, other: Run, t: int)
    requires was.Sending? && CanHold(table, was, t) && |was.rows| >= PAGE_SIZE && was.pages + 1 != MAX_PAGES
    requires run == Polling(FloorMs(t), was.pages + 1)
    ensures Clash(table, other, run) ==> Clash(table, was, other) || Clash(table, other, was)
    ensures Clash(table, run, other) ==> Clash(table, was, other) || Clash(table, other, was)
  {
    SecondOfStored(t);
    hide FloorMs;
    forall b | CanHold(table, run, b)
      ensures FloorSec(t) <= FloorSec(b)
      ensures FloorSec(t) < FloorSec(b) || Passes(table, run, b) ==> Passes(table, was, t)
    {
      LaterEnd(table, t, b);
    }
    hide FloorSec, CanHold, Passes;
    if a, b :| HoldApart(table, other, run, a, b) {
      assert HoldApart(table, was, other, t, a) || HoldApart(table, other, was, a, t);
    }
    if a, b :| HoldApart(table, run, other, a, b) {
      assert HoldApart(table, was, other, t, b);
    }
  }

  lemma LaterEnd(table: set<Event>, t: int, b: int)
    requires FloorSec(t) < b
    ensures FloorSec(t) <= FloorSec(b)
    ensures FloorSec(t) < FloorSec(b) ==> |Crowd(table, FloorSec(t))| <= |Before(table, FloorSec(t), b)|
  {
    FloorFacts(b, t);
    if FloorSec(t) < FloorSec(b) {
      NextSecondStarts(t, b);
      hide FloorSec;
      SubsetSize(Crowd(table, FloorSec(t)), Before(table, FloorSec(t), b));
    }
  }

  lemma NextSecondStarts(t: int, b: int)
    requires FloorSec(t) < FloorSec(b)
    ensures FloorSec(t) + SECOND <= FloorSec(b) <= b
  {
  }

  lemma FinishClash(w: World, r: nat)
    requires NoClash(w) && r in w.runs && w.runs[r].Sending? && w.runs[r].done == |w.runs[r].rows|
    ensures NoClash(FinishPage(w, r))
  {
    hide FloorSec, FloorMs, Clash, Passes;
    var v := FinishPage(w, r);
    forall more, p, q | MayArrive(v, more) && p in v.runs && q in v.runs && p != q
      ensures !Clash(v.table + more, v.runs[p], v.runs[q])
    {
      assert !Clash(w.table + more, w.runs[p], w.runs[q]) && !Clash(w.table + more, w.runs[q], w.runs[p]);
      if p == r {
        FinishedClash(w.table + more, w.runs[r], v.runs[r], w.runs[q], Last(w.runs[r].rows));
      } else if q == r {
        FinishedClash(w.table + more, w.runs[r], v.runs[r], w.runs[p], Last(w.runs[r].rows));
      }
    }
  }

  /** A run behind the second just stored had clashed with the run that stored it. */
  lemma BehindClashed(w: World, kv: int, r: nat, run: Run)
    requires r in w.runs && w.runs[r].Sending? && w.runs[r].rows != [] && CanHold(w.table, w.runs[r], Last(w.runs[r].rows))
    requires kv == FloorMs(Last(w.runs[r].rows))
    requires if run.Sending? then EndsBefore(Some(kv), run) else exists e :: e in w.table && EarlyEvent(w.table, kv, run.watermark, e)
    ensures Clash(w.table, run, w.runs[r])
  {
    var t := Last(w.runs[r].rows);
    SecondOfStored(t);
    hide FloorMs;
    if run.Sending? {
      assert HoldApart(w.table, run, w.runs[r], Last(run.rows), t);
    } else {
      var e :| e in w.table && EarlyEvent(w.table, kv, run.watermark, e);
      SecondsApart(e.ts, kv);
      hide FloorSec;
      assert HoldApart(w.table, run, w.runs[r], e.ts, t);
    }
  }

  lemma FinishBehindNone(w: World, r: nat)
    requires NoRunBehind(w) && NoClash(w) && r in w.runs && w.runs[r].Sending? && w.runs[r].done == |w.runs[r].rows|
    ensures NoRunBehind(FinishPage(w, r))
  {
    hide FloorSec, FloorMs, EarlyEvent, Clash, MayArrive;
    NoneClashNow(w, r);
    var v := FinishPage(w, r);
    forall q | q in v.runs ensures !Behind(v, v.runs[q]) {
      assert !Behind(w, w.runs[q]);
      if q == r {
        InStepNotBehind(v, v.runs[r].watermark, v.runs[r].pages);
      } else if v.kv != w.kv && Behind(v, v.runs[q]) {
        BehindClashed(w, v.kv.value, r, w.runs[q]);
      }
    }
  }

  lemma NoneClashNow(w: World, r: nat)
    requires NoClash(w) && r in w.runs
    ensures forall q :: q in w.runs && q != r ==> !Clash(w.table, w.runs[q], w.runs[r])
  {
    hide Clash;
    assert MayArrive(w, {}) && w.table + {} == w.table;
  }

  lemma FinishOnTrack(w: World, r: nat)
    requires OnTrack(w) && r in w.runs && w.runs[r].Sending? && w.runs[r].done == |w.runs[r].rows|
    ensures OnTrack(FinishPage(w, r))
  {
    SettledStep(w, Finish(r));
    FinishBehindNone(w, r);
    hide NoClash, NoRunBehind;
    FinishClash(w, r);
  }

  predicate SamePage(run: Run, other: Run) {
    other == run || (run.Sending? && other.Sending? && other == run.(done := other.done))
  }

  /** Fewer runs, or the same pages further sent: no more is held than before. */
  lemma FewerClash(w: World, v: World)
    requires NoClash(w) && v.table == w.table && v.horizon == w.horizon
    requires forall r :: r in v.runs ==> r in w.runs && SamePage(w.runs[r], v.runs[r])
    ensures NoClash(v)
  {
    hide FloorSec, FloorMs;
    forall more, p, q | MayArrive(v, more) && p in v.runs && q in v.runs && p != q
      ensures !Clash(v.table + more, v.runs[p], v.runs[q])
    {
      assert !Clash(w.table + more, w.runs[p], w.runs[q]);
      hide NoClash;
      forall a, b ensures !HoldApart(v.table + more, v.runs[p], v.runs[q], a, b) {
        assert !HoldApart(w.table + more, w.runs[p], w.runs[q], a, b);
      }
    }
  }

  lemma SendOnTrack(w: World, step: Step)
    requires OnTrack(w) && (step.Send? || step.Crash?)
    ensures OnTrack(Next(w, step))
  {
    SettledStep(w, step);
    hide FloorSec, FloorMs, Settled, EarlyEvent, NoClash;
    FewerClash(w, Next(w, step));
  }

  lemma BeginOnTrack(w: World, r: nat, now: int)
    requires OnTrack(w) && w.runs == map[]
    ensures OnTrack(Next(w, Begin(r, now)))
  {
    SettledStep(w, Begin(r, now));
    var v := Next(w, Begin(r, now));
    InStepNotBehind(v, v.runs[r].watermark, 0);
    hide FloorSec, FloorMs, Settled, Behind, Clash, MayArrive;
  }

  lemma TrackStep(w: World, step: Step)
    requires OnTrack(w) && Possible(w, step) && Serial(w, step)
    ensures OnTrack(Next(w, step)) && !FinishBehind(w, step)
  {
    match step
    case Arrive(e) => hide OnTrack; ArrivalOnTrack(w, e);
    case Begin(r, now) => hide OnTrack; BeginOnTrack(w, r, now);
    case Query(r, cutoff, rows) =>
      hide OnTrack, PageOf;
      if r in w.runs && w.runs[r].Polling? { QueryOnTrack(w, r, cutoff, rows); }
    case Finish(r) =>
      hide FloorSec, FloorMs, Settled, NoClash;
      if r in w.runs && w.runs[r].Sending? && w.runs[r].done == |w.runs[r].rows| { FinishOnTrack(w, r); }
    case _ => hide OnTrack; SendOnTrack(w, step);
  }

  lemma {:induction false} TrackRun(w: World, steps: seq<Step>, i: nat)
    requires OnTrack(w) && AllPossible(w, steps) && AllSerial(w, steps) && i <= |steps|
    ensures OnTrack(RunSteps(w, steps[..i]))
    ensures i < |steps| ==> !FinishBehind(RunSteps(w, steps[..i]), steps[i])
    decreases |steps|
  {
    hide OnTrack, Next, Possible, Serial, FinishBehind;
    if i == 0 {
      if steps != [] { TrackStep(w, steps[0]); }
    } else {
      TrackStep(w, steps[0]);
      TrackRun(Next(w, steps[0]), steps[1..], i - 1);
      assert steps[..i][0] == steps[0] && steps[..i][1..] == steps[1..][..i - 1];
    }
  }

  lemma OnTrackIsSteady(w: World)
    requires OnTrack(w)
    ensures Steady(w)
  {
    hide OnTrack, FinishBehind, NeverLower, RunSteps, AllPossible, AllSerial;
    forall steps | AllPossible(w, steps) && AllSerial(w, steps) ensures NeverLower(w, steps) {
      forall i | 0 <= i < |steps| ensures !FinishBehind(RunSteps(w, steps[..i]), steps[i]) {
        TrackRun(w, steps, i);
      }
      NeverLowerExactlyWhen(w, steps);
    }
  }

  // ---- a run that is behind does lower it --------------------------------------------------

  lemma {:induction false} LatestOf(s: set<Event>) returns (e: Event)
    requires s != {}
    ensures e in s && forall x :: x in s ==> x.ts <= e.ts
    decreases s
  {
    var x :| x in s;
    if s == {x} {
      e := x;
    } else {
      e := LatestOf(s - {x});
      assert forall y :: y in s ==> y == x || y in s - {x};
      e := if e.ts < x.ts then x else e;
    }
  }

  lemma {:induction false} SortedOf(s: set<Event>) returns (q: seq<Event>)
    ensures Ordered(q) && Elements(q) == s
    decreases s
  {
    if s == {} {
      q := [];
    } else {
      var e := LatestOf(s);
      var front := SortedOf(s - {e});
      q := front + [e];
      forall i | 0 <= i < |front| ensures front[i] in s - {e} {
        assert front[i] in Elements(front);
      }
      assert Elements(q) == Elements(front) + {e};
    }
  }

  /** Every query has an answer. */
  lemma PageExists(table: set<Event>, since: int, cutoff: int) returns (rows: seq<Event>)
    ensures PageOf(table, since, cutoff, rows)
  {
    var q := SortedOf(Before(table, since, cutoff));
    rows := if |q| <= PAGE_SIZE then q else q[..PAGE_SIZE];
    forall i | 0 <= i < |rows| ensures InWindow(table, since, cutoff, rows[i]) {
      assert q[i] in Elements(q);
    }
    assert forall i :: 0 <= i < |rows| ==> rows[i] == q[i] && q[i] in rows;
    forall e | InWindow(table, since, cutoff, e) && e !in rows ensures |rows| == PAGE_SIZE && rows[|rows| - 1].ts <= e.ts {
      assert e in Elements(q);
      var i :| 0 <= i < |q| && q[i] == e;
    }
  }

  /** A query cut off right behind an early event ends with its time. */
  lemma PageReaches(table: set<Event>, since: int, rows: seq<Event>, e: Event)
    requires PageOf(table, since, e.ts + 1, rows) && e in table && since < e.ts && |Before(table, since, e.ts)| < PAGE_SIZE
    ensures rows != [] && Last(rows) == e.ts
  {
    assert InWindow(table, since, e.ts + 1, e);
    assert rows != [];
    assert InWindow(table, since, e.ts + 1, rows[|rows| - 1]);
    assert e in rows ==> e.ts <= Last(rows);
    if Last(rows) < e.ts {
      EarlierRows(table, since, rows, e);
    }
  }

  lemma EarlierRows(table: set<Event>, since: int, rows: seq<Event>, e: Event)
    requires PageOf(table, since, e.ts + 1, rows) && rows != [] && Last(rows) < e.ts
    ensures |rows| <= |Before(table, since, e.ts)|
  {
    forall x | x in Elements(rows) ensures x in Before(table, since, e.ts) {
      var i :| 0 <= i < |rows| && rows[i] == x;
      assert InWindow(table, since, e.ts + 1, rows[i]) && rows[i].ts <= Last(rows);
    }
    CountElements(rows);
    SubsetSize(Elements(rows), Before(table, since, e.ts));
  }

  // ---- states that follow ------------------------------------------------------------------

  /** Some steps, with runs beginning one at a time, lead from one state to the other. */
  ghost predicate Reaches(w: World, v: World) {
    exists steps :: AllPossible(w, steps) && AllSerial(w, steps) && RunSteps(w, steps) == v
  }

  lemma ReachStep(w: World, step: Step)
    requires Possible(w, step) && Serial(w, step)
    ensures Reaches(w, Next(w, step))
  {
    hide Next, Possible, Serial;
    assert [step][1..] == [];
    assert RunSteps(w, [step]) == RunSteps(Next(w, step), []);
    assert AllPossible(w, [step]) && AllSerial(w, [step]);
  }

  lemma ReachTrans(w: World, v: World, u: World)
    requires Reaches(w, v) && Reaches(v, u)
    ensures Reaches(w, u)
  {
    hide AllPossible, AllSerial, RunSteps;
    var a :| AllPossible(w, a) && AllSerial(w, a) && RunSteps(w, a) == v;
    var b :| AllPossible(v, b) && AllSerial(v, b) && RunSteps(v, b) == u;
    Concat(w, a, b);
    assert AllPossible(w, a + b) && AllSerial(w, a + b) && RunSteps(w, a + b) == u;
  }

  lemma ReachSelf(w: World)
    ensures Reaches(w, w)
  {
    assert AllPossible(w, []) && AllSerial(w, []) && RunSteps(w, []) == w;
  }

  /** A lower second at a later state is one along the steps. */
  lemma NotSteady(w: World, u: World, v: World)
    requires Reaches(w, u) && Reaches(u, v) && Lower(u.kv, v.kv)
    ensures !Steady(w)
  {
    hide Lower, RunSteps, AllPossible, AllSerial;
    var a :| AllPossible(w, a) && AllSerial(w, a) && RunSteps(w, a) == u;
    var b :| AllPossible(u, b) && AllSerial(u, b) && RunSteps(u, b) == v;
    Concat(w, a, b);
    var steps := a + b;
    assert steps[..|a|] == a && steps[..|steps|] == steps;
    assert Lower(RunSteps(w, steps[..|a|]).kv, RunSteps(w, steps[..|steps|]).kv);
    assert !NeverLower(w, steps);
  }

  lemma {:induction false} ArriveAll(w: World, more: set<Event>)
    requires MayArrive(w, more)
    ensures Reaches(w, w.(table := w.table + more))
    decreases more
  {
    if more == {} {
      assert w.table + more == w.table;
      ReachSelf(w);
    } else {
      var e :| e in more;
      var v := w.(table := w.table + {e});
      ReachStep(w, Arrive(e));
      ArriveAll(v, more - {e});
      assert v.table + (more - {e}) == w.table + more;
      ReachTrans(w, v, w.(table := w.table + more));
    }
  }

  /** A page under way is sent to its end. */
  lemma {:induction false} SendPage(w: World, r: nat) returns (v: World)
    requires r in w.runs && w.runs[r].Sending? && w.runs[r].done <= |w.runs[r].rows|
    ensures Reaches(w, v) && v == w.(sent := v.sent, runs := w.runs[r := w.runs[r].(done := |w.runs[r].rows|)])
    decreases |w.runs[r].rows| - w.runs[r].done
  {
    if w.runs[r].done == |w.runs[r].rows| {
      v := w;
      ReachSelf(w);
    } else {
      var u := Next(w, Send(r));
      SentMore(w, r);
      ReachStep(w, Send(r));
      hide Next, Reaches;
      v := SendPage(u, r);
      ReachTrans(w, u, v);
    }
  }

  lemma SentMore(w: World, r: nat)
    requires r in w.runs && w.runs[r].Sending? && w.runs[r].done < |w.runs[r].rows|
    ensures var v, run := Next(w, Send(r)), w.runs[r];
            && r in v.runs && v.runs[r].Sending? && run.done < v.runs[r].done <= |run.rows|
            && v == w.(sent := v.sent, runs := w.runs[r := run.(done := v.runs[r].done)])
  {
  }

  /** A run that has sent a page ending at `t`, which it will store. */
  predicate Holding(w: World, r: nat, t: int) {
    r in w.runs && w.runs[r].Sending? && w.runs[r].done == |w.runs[r].rows| && Stores(w.runs[r]) && Last(w.runs[r].rows) == t
  }

  /** What a run can hold it comes to hold, nothing else changing but what is sent. */
  lemma Hold(w: World, r: nat, t: int) returns (v: World)
    requires r in w.runs && CanHold(w.table, w.runs[r], t)
    requires w.runs[r].Sending? ==> w.runs[r].done <= |w.runs[r].rows|
    ensures Reaches(w, v) && Holding(v, r, t) && v.runs[r].pages == w.runs[r].pages
    ensures v == w.(sent := v.sent, horizon := v.horizon, runs := w.runs[r := v.runs[r]])
    ensures Passes(w.table, w.runs[r], t) ==> |v.runs[r].rows| >= PAGE_SIZE
  {
    if w.runs[r].Sending? {
      v := SendPage(w, r);
    } else {
      var since := FloorSec(w.runs[r].watermark);
      var rows := PageExists(w.table, since, t + 1);
      var e :| e in w.table && e.ts == t;
      PageReaches(w.table, since, rows, e);
      if |Before(w.table, since, t + 1)| >= PAGE_SIZE {
        FullWindow(w.table, since, t + 1, rows);
      }
      var step := Query(r, t + 1, rows);
      ReachStep(w, step);
      hide Reaches, FloorSec, FloorMs, PageOf;
      v := SendPage(Next(w, step), r);
      ReachTrans(w, Next(w, step), v);
    }
  }

  lemma FullWindow(table: set<Event>, since: int, cutoff: int, rows: seq<Event>)
    requires PageOf(table, since, cutoff, rows) && |Before(table, since, cutoff)| >= PAGE_SIZE
    ensures |rows| == PAGE_SIZE
  {
    if |rows| < PAGE_SIZE {
      forall x | x in Before(table, since, cutoff) ensures x in Elements(rows) {
        assert InWindow(table, since, cutoff, x);
      }
      CountElements(rows);
      SubsetSize(Before(table, since, cutoff), Elements(rows));
    }
  }

  lemma StoreHeld(w: World, r: nat, t: int)
    requires Holding(w, r, t)
    ensures Reaches(w, FinishPage(w, r)) && FinishPage(w, r).kv == Some(FloorMs(t))
  {
    ReachStep(w, Finish(r));
  }

  /** A run that has stored a second it does not fill can go on to hold a later one. */
  lemma GoOn(w: World, r: nat) returns (v: World, t: int)
    requires r in w.runs && w.runs[r].Polling? && |Crowd(w.table, FloorSec(w.runs[r].watermark))| < PAGE_SIZE
    ensures Reaches(w, v) && Holding(v, r, t) && FloorSec(w.runs[r].watermark) < FloorSec(t)
    ensures v.runs == w.runs[r := v.runs[r]]
  {
    var W := w.runs[r].watermark;
    var s := FloorSec(W);
    var e := Event("", if w.horizon < s + SECOND then s + SECOND else w.horizon);
    var u := w.(table := w.table + {e});
    ReachStep(w, Arrive(e));
    var rows := PageExists(u.table, s, e.ts + 1);
    LatePage(w.table, W, e, rows);
    var step := Query(r, e.ts + 1, rows);
    ReachStep(u, step);
    t := Last(rows);
    hide Reaches, FloorSec, FloorMs, PageOf;
    v := SendPage(Next(u, step), r);
    ReachTrans(w, u, Next(u, step));
    ReachTrans(w, Next(u, step), v);
  }

  lemma LatePage(table: set<Event>, watermark: int, e: Event, rows: seq<Event>)
    requires PageOf(table + {e}, FloorSec(watermark), e.ts + 1, rows)
    requires FloorSec(watermark) + SECOND <= e.ts && |Crowd(table, FloorSec(watermark))| < PAGE_SIZE
    ensures rows != [] && FloorSec(watermark) < FloorSec(Last(rows)) && FloorMs(Last(rows)) != watermark
  {
    var s := FloorSec(watermark);
    assert InWindow(table + {e}, s, e.ts + 1, e);
    if rows == [] || Last(rows) < s + SECOND {
      EarlyPage(table, s, e, rows);
    }
    LaterSecond(watermark, Last(rows));
  }

  lemma EarlyPage(table: set<Event>, s: int, e: Event, rows: seq<Event>)
    requires PageOf(table + {e}, s, e.ts + 1, rows) && s + SECOND <= e.ts && rows != [] && Last(rows) < s + SECOND
    ensures |rows| <= |Crowd(table, s)|
  {
    forall x | x in Elements(rows) ensures x in Crowd(table, s) {
      var i :| 0 <= i < |rows| && rows[i] == x;
      assert InWindow(table + {e}, s, e.ts + 1, rows[i]) && rows[i].ts <= Last(rows);
    }
    CountElements(rows);
    SubsetSize(Elements(rows), Crowd(table, s));
  }

  lemma LaterSecond(u: int, t: int)
    requires FloorSec(u) + SECOND <= t
    ensures FloorSec(u) < FloorSec(t) && FloorMs(t) != u
  {
    FloorFacts(t, t);
  }

  lemma LowerSeconds(a: int, b: int)
    requires FloorSec(a) < FloorSec(b)
    ensures Lower(Some(FloorMs(b)), Some(FloorMs(a)))
  {
    SecondOfStored(a);
    SecondOfStored(b);
    hide FloorSec, FloorMs;
  }

  /** The faster run stores its page, then the slower one stores an earlier second. */
  lemma StoreApart(w: World, slow: nat, fast: nat, a: int, b: int)
    requires slow != fast && Holding(w, slow, a) && Holding(w, fast, b) && FloorSec(a) < FloorSec(b)
    ensures !Steady(w)
  {
    hide Reaches, Steady, FloorSec, FloorMs;
    var u := FinishPage(w, fast);
    StoreHeld(w, fast, b);
    StoreHeld(u, slow, a);
    LowerSeconds(a, b);
    NotSteady(w, u, FinishPage(u, slow));
  }

  lemma LaterNotSteady(w: World, v: World)
    requires Reaches(w, v) && !Steady(v)
    ensures !Steady(w)
  {
    hide Lower, RunSteps, AllPossible, AllSerial;
    var steps :| AllPossible(v, steps) && AllSerial(v, steps) && !NeverLower(v, steps);
    var i, j :| 0 <= i <= j <= |steps| && Lower(RunSteps(v, steps[..i]).kv, RunSteps(v, steps[..j]).kv);
    Between(v, steps, i, j);
    hide Reaches, Steady;
    ReachTrans(w, v, RunSteps(v, steps[..i]));
    NotSteady(w, RunSteps(v, steps[..i]), RunSteps(v, steps[..j]));
  }

  lemma Between(w: World, steps: seq<Step>, i: nat, j: nat)
    requires AllPossible(w, steps) && AllSerial(w, steps) && i <= j <= |steps|
    ensures Reaches(w, RunSteps(w, steps[..i])) && Reaches(RunSteps(w, steps[..i]), RunSteps(w, steps[..j]))
  {
    hide RunSteps, AllPossible, AllSerial;
    assert steps == steps[..i] + steps[i..] && steps[i..] == steps[i..j] + steps[j..] && steps[..j] == steps[..i] + steps[i..j];
    Concat(w, steps[..i], steps[i..]);
    Concat(RunSteps(w, steps[..i]), steps[i..j], steps[j..]);
    Concat(w, steps[..i], steps[i..j]);
  }

  /** Both in the same second: the faster run stores it and goes on to a later one. */
  lemma StoreSame(w: World, slow: nat, fast: nat, a: int, b: int)
    requires slow != fast && Holding(w, slow, a) && Holding(w, fast, b) && FloorSec(a) == FloorSec(b)
    requires |w.runs[fast].rows| >= PAGE_SIZE && w.runs[fast].pages + 1 != MAX_PAGES && |Crowd(w.table, FloorSec(b))| < PAGE_SIZE
    ensures !Steady(w)
  {
    SecondOfStored(b);
    hide Reaches, Steady, FloorSec, FloorMs;
    var u := FinishPage(w, fast);
    StoreHeld(w, fast, b);
    var v, t := GoOn(u, fast);
    StoreApart(v, slow, fast, a, t);
    ReachTrans(w, u, v);
    LaterNotSteady(w, v);
  }

  lemma ClashLowers(w: World, more: set<Event>, slow: nat, fast: nat)
    requires Settled(w) && MayArrive(w, more) && slow in w.runs && fast in w.runs && slow != fast
    requires Clash(w.table + more, w.runs[slow], w.runs[fast])
    ensures !Steady(w)
  {
    hide Reaches, Steady, FloorSec, FloorMs, CanHold, Before;
    var a, b :| HoldApart(w.table + more, w.runs[slow], w.runs[fast], a, b);
    var w1 := w.(table := w.table + more);
    ArriveAll(w, more);
    var w2 := Hold(w1, slow, a);
    var w3 := Hold(w2, fast, b);
    ReachTrans(w, w1, w2);
    ReachTrans(w, w2, w3);
    if FloorSec(a) < FloorSec(b) {
      StoreApart(w3, slow, fast, a, b);
    } else {
      StoreSame(w3, slow, fast, a, b);
    }
    LaterNotSteady(w, w3);
  }

  /** A run that is behind stores a page before the second stored now. */
  lemma BehindLowers(w: World, r: nat)
    requires Settled(w) && r in w.runs && Behind(w, w.runs[r])
    ensures !Steady(w)
  {
    hide Reaches, Steady, FloorMs;
    var t := BehindHolds(w, r);
    var v := Hold(w, r, t);
    StoreHeld(v, r, t);
    SecondOfStored(t);
    ReachSelf(w);
    ReachTrans(w, v, FinishPage(v, r));
    hide FloorSec;
    NotSteady(w, w, FinishPage(v, r));
  }

  lemma BehindHolds(w: World, r: nat) returns (t: int)
    requires r in w.runs && Behind(w, w.runs[r])
    ensures CanHold(w.table, w.runs[r], t) && w.kv.Some? && FloorSec(t) < FloorSec(w.kv.value)
  {
    hide FloorMs;
    if w.runs[r].Sending? {
      t := Last(w.runs[r].rows);
    } else {
      var e :| e in w.table && EarlyEvent(w.table, w.kv.value, w.runs[r].watermark, e);
      SecondsApart(e.ts, w.kv.value);
      t := e.ts;
    }
  }

  /** Main result: after any history, overlapping runs included, the stored second is kept from then on
      exactly when no live run is behind it, and no two of them clash in the pages they hold next. */
  lemma SteadyExactlyWhen(w0: World, history: seq<Step>)
    requires Fresh(w0) && AllPossible(w0, history)
    ensures var w := RunSteps(w0, history);
            Steady(w) <==> NoRunBehind(w) && NoClash(w)
  {
    hide Steady, Behind, Settled, RunSteps, AllPossible, Clash;
    FreshIsSettled(w0);
    SettledRun(w0, history);
    var w := RunSteps(w0, history);
    if NoRunBehind(w) && NoClash(w) {
      OnTrackIsSteady(w);
    } else if r :| r in w.runs && Behind(w, w.runs[r]) {
      BehindLowers(w, r);
    } else {
      var more, r, q :| MayArrive(w, more) && r in w.runs && q in w.runs && r != q && Clash(w.table + more, w.runs[r], w.runs[q]);
      ClashLowers(w, more, r, q);
    }
  }

  lemma FreshIsSettled(w: World)
    requires Fresh(w)
    ensures Settled(w)
  {
  }

  /** With at most one live run, only whether it is behind matters. */
  lemma OneRunSteadyExactlyWhen(w0: World, history: seq<Step>)
    requires Fresh(w0) && AllPossible(w0, history)
    requires forall r, q :: r in RunSteps(w0, history).runs && q in RunSteps(w0, history).runs ==> r == q
    ensures Steady(RunSteps(w0, history)) <==> NoRunBehind(RunSteps(w0, history))
  {
    hide Steady, NoRunBehind, RunSteps, AllPossible, Clash, MayArrive;
    SteadyExactlyWhen(w0, history);
  }

  /** With two live runs no run need be behind: here nothing is stored yet, and two finishes lower it. */
  lemma TwoRunsLower()
    ensures var w0 := World({EARLY, LATE}, None, {}, None, 0, map[]);
            var w := RunSteps(w0, OVERLAP[..6]);
            && Fresh(w0) && AllPossible(w0, OVERLAP[..6]) && NoRunBehind(w)
            && AllPossible(w, [Finish(1), Finish(0)]) && AllSerial(w, [Finish(1), Finish(0)])
            && !NeverLower(w, [Finish(1), Finish(0)])
  {
    var w0 := World({EARLY, LATE}, None, {}, None, 0, map[]);
    var w, steps := RunSteps(w0, OVERLAP[..6]), [Finish(1), Finish(0)];
    OverlapCanRegress();
    NothingStored(w0, OVERLAP[..6]);
    hide RunSteps, AllPossible, Next, Possible;
    assert OVERLAP == OVERLAP[..6] + [Finish(1)] && OVERLAP + [Finish(0)] == OVERLAP[..6] + steps;
    Concat(w0, OVERLAP[..6], steps);
    Concat(w0, OVERLAP[..6], [Finish(1)]);
    assert steps[..1] == [Finish(1)] && steps[..2] == steps;
    assert Lower(RunSteps(w, steps[..1]).kv, RunSteps(w, steps[..2]).kv);
    FinishesAreSerial(w);
  }

  lemma FinishesAreSerial(w: World)
    ensures AllSerial(w, [Finish(1), Finish(0)])
  {
  }

  lemma {:induction false} NothingStored(w: World, steps: seq<Step>)
    requires w.kv.None? && forall i :: 0 <= i < |steps| ==> !steps[i].Finish?
    ensures RunSteps(w, steps).kv.None?
    decreases |steps|
  {
    if steps != [] {
      NothingStored(Next(w, steps[0]), steps[1..]);
    }
  }
}
