/** Whether the pull comes to the end of its source, and where it stops for good. */
module FunnelProgress {

  import opened PostHogPages
  import opened FunnelPull
  import opened FunnelSecond

  // ---- the pages of successive ticks -------------------------------------------------------

  /** What a page leaves of the source: the events after its second. */
  function Rest(table: set<Event>, since: int): set<Event> {
    set e | e in table && since < e.ts
  }

  lemma RowsBound(table: set<Event>, since: int, cutoff: int, rows: seq<Event>)
    requires PageOf(table, since, cutoff, rows) && rows != []
    ensures since < Last(rows) && (forall i :: 0 <= i < |rows| ==> since < rows[i].ts <= Last(rows) && rows[i] in table)
  {
    forall i | 0 <= i < |rows| ensures since < rows[i].ts <= Last(rows) && rows[i] in table {
      assert InWindow(table, since, cutoff, rows[i]);
    }
  }

  /** A full page that ends in a second with room for it leaves some row behind that second. */
  lemma FullPageMoves(table: set<Event>, since: int, cutoff: int, rows: seq<Event>)
    requires PageOf(table, since, cutoff, rows) && |rows| == PAGE_SIZE && FloorSec(since) == since
    requires |Crowd(table, FloorSec(Last(rows)))| < PAGE_SIZE
    ensures rows[0] in table && since < rows[0].ts <= FloorSec(Last(rows))
  {
    RowsBound(table, since, cutoff, rows);
    InsideSecond(Last(rows));
    hide PageOf, FloorSec;
    var s := FloorSec(Last(rows));
    if s < rows[0].ts {
      PageInCrowd(table, rows, s);
    }
  }

  lemma InsideSecond(t: int)
    ensures FloorSec(t) <= t < FloorSec(t) + SECOND
  {
  }

  lemma PageInCrowd(table: set<Event>, rows: seq<Event>, s: int)
    requires rows != [] && s < rows[0].ts && Last(rows) < s + SECOND
    requires forall i, j :: 0 <= i < j < |rows| ==> rows[i] != rows[j] && rows[i].ts <= rows[j].ts
    requires forall i :: 0 <= i < |rows| ==> rows[i] in table && rows[i].ts <= Last(rows)
    ensures |rows| <= |Crowd(table, s)|
  {
    forall x | x in Elements(rows) ensures x in Crowd(table, s) {
      var i :| 0 <= i < |rows| && rows[i] == x;
      assert i > 0 ==> rows[0].ts <= rows[i].ts;
    }
    CountElements(rows);
    SubsetSize(Elements(rows), Crowd(table, s));
  }

  ghost predicate NoCrowd(table: set<Event>, from: int) {
    forall s :: FloorSec(s) == s && from <= s ==> |Crowd(table, s)| < PAGE_SIZE
  }

  /** Without crowded seconds every full page shrinks what is left. */
  lemma FullPageShrinks(table: set<Event>, watermark: int, cutoff: int, rows: seq<Event>)
    requires PageOf(table, FloorSec(watermark), cutoff, rows) && |rows| == PAGE_SIZE && NoCrowd(table, FloorSec(watermark))
    ensures var next := FloorMs(Last(rows));
            && FloorSec(watermark) <= FloorSec(next)
            && |Rest(table, FloorSec(next))| < |Rest(table, FloorSec(watermark))|
  {
    var next := FloorMs(Last(rows));
    RowsBound(table, FloorSec(watermark), cutoff, rows);
    FloorFacts(Last(rows), watermark);
    WholeSecond(watermark);
    WholeSecond(Last(rows));
    hide FloorSec, FloorMs;
    FullPageMoves(table, FloorSec(watermark), cutoff, rows);
    var a, b := Rest(table, FloorSec(next)), Rest(table, FloorSec(watermark));
    assert a <= b - {rows[0]} && rows[0] in b;
    SubsetSize(a, b - {rows[0]});
  }

  /** After the first of a chain of pages, the rest is a chain from its watermark. */
  lemma ChainTail(table: set<Event>, watermark: int, cutoffs: seq<int>, pages: seq<seq<Event>>)
    requires Chain(table, watermark, cutoffs, pages) && pages != []
    ensures PageOf(table, FloorSec(watermark), cutoffs[0], pages[0])
    ensures Chain(table, After(watermark, pages[0]), cutoffs[1..], pages[1..])
  {
  }

  lemma {:induction false} FullChainShrinks(table: set<Event>, watermark: int, cutoffs: seq<int>, pages: seq<seq<Event>>)
    requires Chain(table, watermark, cutoffs, pages) && NoCrowd(table, FloorSec(watermark))
    requires forall i :: 0 <= i < |pages| ==> |pages[i]| == PAGE_SIZE
    ensures |pages| <= |Rest(table, FloorSec(watermark))|
    decreases |pages|
  {
    hide FloorSec, FloorMs, PageOf, Rest, Crowd;
    if pages != [] {
      ChainTail(table, watermark, cutoffs, pages);
      FullPageShrinks(table, watermark, cutoffs[0], pages[0]);
      FullChainShrinks(table, After(watermark, pages[0]), cutoffs[1..], pages[1..]);
    }
  }

  // ---- a crowded second ---------------------------------------------------------------------

  /** In front of a crowded second every page is full and ends no later than in that second. */
  lemma CrowdStops(table: set<Event>, watermark: int, cutoff: int, rows: seq<Event>, s: int)
    requires PageOf(table, FloorSec(watermark), cutoff, rows) && FloorSec(s) == s && FloorSec(watermark) <= s
    requires |Crowd(table, s)| >= PAGE_SIZE && s + SECOND <= cutoff
    ensures |rows| == PAGE_SIZE && FloorSec(FloorMs(Last(rows))) <= s && Last(rows) < s + SECOND
  {
    hide FloorMs;
    var e := CrowdBehind(table, FloorSec(watermark), cutoff, rows, s);
    SecondOfStored(Last(rows));
    BelowNextSecond(Last(rows), s);
  }

  lemma BelowNextSecond(t: int, s: int)
    requires FloorSec(s) == s && t < s + SECOND
    ensures FloorSec(t) <= s
  {
  }

  lemma CrowdBehind(table: set<Event>, since: int, cutoff: int, rows: seq<Event>, s: int) returns (e: Event)
    requires PageOf(table, since, cutoff, rows) && since <= s && s + SECOND <= cutoff && |Crowd(table, s)| >= PAGE_SIZE
    ensures e in Crowd(table, s) && |rows| == PAGE_SIZE && Last(rows) <= e.ts
  {
    var crowd := Crowd(table, s);
    forall x | x in crowd ensures InWindow(table, since, cutoff, x) {}
    CountElements(rows);
    if crowd <= Elements(rows) {
      SubsetSize(crowd, Elements(rows));
      SameSize(crowd, Elements(rows));
      e := rows[|rows| - 1];
      assert e in Elements(rows);
    } else {
      e :| e in crowd && e !in Elements(rows);
    }
  }

  lemma SameSize(a: set<Event>, b: set<Event>)
    requires a <= b && |b| <= |a|
    ensures a == b
  {
    assert b == a + (b - a) && |b - a| == 0;
  }

  lemma {:induction false} CrowdKeepsFull(table: set<Event>, watermark: int, cutoffs: seq<int>, pages: seq<seq<Event>>, s: int)
    requires Chain(table, watermark, cutoffs, pages) && FloorSec(s) == s && FloorSec(watermark) <= s
    requires |Crowd(table, s)| >= PAGE_SIZE && forall i :: 0 <= i < |cutoffs| ==> s + SECOND <= cutoffs[i]
    ensures forall i :: 0 <= i < |pages| ==> |pages[i]| == PAGE_SIZE
    decreases |pages|
  {
    hide FloorSec, FloorMs, PageOf, Crowd;
    if pages != [] {
      ChainTail(table, watermark, cutoffs, pages);
      CrowdStops(table, watermark, cutoffs[0], pages[0], s);
      CrowdKeepsFull(table, After(watermark, pages[0]), cutoffs[1..], pages[1..], s);
    }
  }

  lemma {:induction false} ChainExists(table: set<Event>, watermark: int, cutoffs: seq<int>) returns (pages: seq<seq<Event>>)
    ensures Chain(table, watermark, cutoffs, pages)
    decreases |cutoffs|
  {
    hide FloorSec, FloorMs, PageOf;
    if cutoffs == [] {
      pages := [];
    } else {
      var rows := PageExists(table, FloorSec(watermark), cutoffs[0]);
      var rest := ChainExists(table, After(watermark, rows), cutoffs[1..]);
      pages := [rows] + rest;
      assert pages[1..] == rest;
    }
  }

  /** Main result: once the clock has passed the whole source by a second, every run of enough pages
      reaches a page that is not full, and so the end, exactly when no second from the watermark on
      holds a full page of events strictly inside it. */
  lemma DrainsExactlyWhen(table: set<Event>, watermark: int, cutoffs: seq<int>)
    requires |cutoffs| > |table| && forall i, e :: 0 <= i < |cutoffs| && e in table ==> e.ts + SECOND <= cutoffs[i]
    ensures (forall pages :: Chain(table, watermark, cutoffs, pages) ==> exists i :: 0 <= i < |pages| && |pages[i]| < PAGE_SIZE)
       <==> NoCrowd(table, FloorSec(watermark))
  {
    hide FloorSec, FloorMs, PageOf, Rest, Chain;
    if NoCrowd(table, FloorSec(watermark)) {
      forall pages | Chain(table, watermark, cutoffs, pages) ensures exists i :: 0 <= i < |pages| && |pages[i]| < PAGE_SIZE {
        ChainSizes(table, watermark, cutoffs, pages);
        if forall i :: 0 <= i < |pages| ==> |pages[i]| == PAGE_SIZE {
          FullChainShrinks(table, watermark, cutoffs, pages);
          RestIsPart(table, FloorSec(watermark));
        }
      }
    } else {
      var s :| FloorSec(s) == s && FloorSec(watermark) <= s && |Crowd(table, s)| >= PAGE_SIZE;
      var pages := ChainExists(table, watermark, cutoffs);
      CrowdPast(table, s, cutoffs);
      CrowdKeepsFull(table, watermark, cutoffs, pages, s);
    }
  }

  lemma RestIsPart(table: set<Event>, since: int)
    ensures |Rest(table, since)| <= |table|
  {
    SubsetSize(Rest(table, since), table);
  }

  lemma CrowdPast(table: set<Event>, s: int, cutoffs: seq<int>)
    requires |Crowd(table, s)| > 0 && forall i, e :: 0 <= i < |cutoffs| && e in table ==> e.ts + SECOND <= cutoffs[i]
    ensures forall i :: 0 <= i < |cutoffs| ==> s + SECOND <= cutoffs[i]
  {
    var e :| e in Crowd(table, s);
    assert e in table;
  }

  lemma ChainSizes(table: set<Event>, watermark: int, cutoffs: seq<int>, pages: seq<seq<Event>>)
    requires Chain(table, watermark, cutoffs, pages)
    ensures |pages| == |cutoffs| && forall i :: 0 <= i < |pages| ==> |pages[i]| <= PAGE_SIZE
    decreases |pages|
  {
    hide FloorSec, FloorMs;
    if pages != [] {
      ChainTail(table, watermark, cutoffs, pages);
      ChainSizes(table, After(watermark, pages[0]), cutoffs[1..], pages[1..]);
    }
  }

  lemma {:induction false} EndHoldsAll(table: set<Event>, watermark: int, cutoffs: seq<int>, pages: seq<seq<Event>>, k: nat, e: Event)
    requires Chain(table, watermark, cutoffs, pages) && NoCuts(table, watermark, cutoffs, pages)
    requires k < |pages| && |pages[k]| < PAGE_SIZE
    requires e in Rest(table, FloorSec(watermark)) && forall i :: 0 <= i < |cutoffs| ==> e.ts < cutoffs[i]
    ensures exists i :: 0 <= i < |pages| && e in pages[i]
    decreases |pages|
  {
    ChainTail(table, watermark, cutoffs, pages);
    if e in pages[0] {
    } else {
      assert InWindow(table, FloorSec(watermark), cutoffs[0], e);
      assert pages[0] != [] && k > 0;
      PageExtends(table, watermark, cutoffs[0], pages[0]);
      hide PageOf, FloorSec, FloorMs, CutInTie;
      EndHoldsAll(table, After(watermark, pages[0]), cutoffs[1..], pages[1..], k - 1, e);
      var i :| 0 <= i < |pages[1..]| && e in pages[1..][i];
      assert e in pages[i + 1];
    }
  }

  /** Without crowded seconds and cut ties, enough pages hold every event after the watermark. */
  lemma DrainsAll(table: set<Event>, watermark: int, cutoffs: seq<int>, pages: seq<seq<Event>>, e: Event)
    requires |cutoffs| > |table| && forall i, x :: 0 <= i < |cutoffs| && x in table ==> x.ts + SECOND <= cutoffs[i]
    requires NoCrowd(table, FloorSec(watermark)) && Chain(table, watermark, cutoffs, pages)
    requires NoCuts(table, watermark, cutoffs, pages) && e in table && FloorSec(watermark) < e.ts
    ensures exists i :: 0 <= i < |pages| && e in pages[i]
  {
    hide FloorSec, PageOf, Chain, NoCuts, NoCrowd;
    DrainsExactlyWhen(table, watermark, cutoffs);
    var k :| 0 <= k < |pages| && |pages[k]| < PAGE_SIZE;
    EndHoldsAll(table, watermark, cutoffs, pages, k, e);
  }

  /** In front of no crowded second a full page never ends a tick. */
  lemma FullPageGoesOn(table: set<Event>, watermark: int, cutoff: int, rows: seq<Event>)
    requires PageOf(table, FloorSec(watermark), cutoff, rows) && |rows| == PAGE_SIZE && NoCrowd(table, FloorSec(watermark))
    ensures !Stops(watermark, rows)
  {
    hide FloorSec, FloorMs, PageOf, NoCrowd, Rest;
    FullPageShrinks(table, watermark, cutoff, rows);
  }

  /** Where a chain of full pages gets to is still in front of no crowded second. */
  lemma {:induction false} StaysUncrowded(table: set<Event>, watermark: int, cutoffs: seq<int>, pages: seq<seq<Event>>, k: nat)
    requires Chain(table, watermark, cutoffs, pages) && NoCrowd(table, FloorSec(watermark)) && k < |pages|
    ensures var at := AfterAll(watermark, pages[..k]);
            PageOf(table, FloorSec(at), cutoffs[k], pages[k]) && NoCrowd(table, FloorSec(at))
    decreases k
  {
    hide FloorSec, FloorMs, PageOf, Crowd;
    ChainTail(table, watermark, cutoffs, pages);
    if k > 0 {
      PageKeepsSecond(table, watermark, cutoffs[0], pages[0]);
      StaysUncrowded(table, After(watermark, pages[0]), cutoffs[1..], pages[1..], k - 1);
      assert pages[..k][1..] == pages[1..][..k - 1] && pages[..k][0] == pages[0];
    }
  }

  lemma PageKeepsSecond(table: set<Event>, watermark: int, cutoff: int, rows: seq<Event>)
    requires PageOf(table, FloorSec(watermark), cutoff, rows)
    ensures FloorSec(watermark) <= FloorSec(After(watermark, rows))
  {
    if rows != [] {
      RowsBound(table, FloorSec(watermark), cutoff, rows);
      FloorFacts(Last(rows), watermark);
    }
  }

  /** Main result for a tick, and for a run of the workflow's adapter, which draws the same pages with
      another limit: in front of no crowded second, with no tie cut, when it stays below its page limit, or
      its last page is not full, it has drawn everything from its watermark up to its clock. */
  lemma TickDrains(table: set<Event>, start: int, cutoffs: seq<int>, drawn: seq<seq<Event>>, limit: nat, e: Event)
    requires Chain(table, start, cutoffs, drawn) && Ended(start, drawn, limit)
    requires NoCrowd(table, FloorSec(start)) && NoCuts(table, start, cutoffs, drawn)
    requires |drawn| < limit || |drawn[|drawn| - 1]| < PAGE_SIZE
    requires e in table && FloorSec(start) < e.ts && forall i :: 0 <= i < |cutoffs| ==> e.ts < cutoffs[i]
    ensures e in EventsOf(drawn)
  {
    hide FloorSec, FloorMs, PageOf, NoCrowd, NoCuts, Chain, AfterAll, EventsOf, Stops, GoesOn;
    var n := |drawn| - 1;
    ChainSizes(table, start, cutoffs, drawn);
    if |drawn[n]| == PAGE_SIZE {
      StaysUncrowded(table, start, cutoffs, drawn, n);
      FullPageGoesOn(table, AfterAll(start, drawn[..n]), cutoffs[n], drawn[n]);
    }
    EndHoldsAll(table, start, cutoffs, drawn, n, e);
    EventsOfPages(drawn, e);
  }

  /** And successive ticks over a source that does not change draw one chain, so that enough of them
      reach the end exactly when `DrainsExactlyWhen` says so. */
  lemma TicksJoin(table: set<Event>, start: int, cutoffs: seq<int>, drawn: seq<seq<Event>>, cutoffs2: seq<int>, drawn2: seq<seq<Event>>)
    requires Chain(table, start, cutoffs, drawn) && Chain(table, AfterAll(start, drawn), cutoffs2, drawn2)
    ensures Chain(table, start, cutoffs + cutoffs2, drawn + drawn2)
  {
    hide *;
    ChainJoins(table, start, cutoffs, drawn, cutoffs2, drawn2);
  }

  // ---- stopped for good --------------------------------------------------------------------

  /** A crowded second, with the stored watermark and every run no later than in it. */
  ghost predicate Stalled(w: World, s: int) {
    && FloorSec(s) == s && |Crowd(w.table, s)| >= PAGE_SIZE
    && w.kv.Some? && FloorSec(w.kv.value) <= s
    && (forall r :: r in w.runs ==>
          && FloorSec(w.runs[r].watermark) <= s
          && (w.runs[r].Sending? ==> forall i :: 0 <= i < |w.runs[r].rows| ==> w.runs[r].rows[i].ts < s + SECOND))
  }

  /** The clock has passed the crowded second. */
  predicate PastSecond(w: World, step: Step, s: int) {
    step.Query? ==> s + SECOND <= step.cutoff
  }

  ghost predicate AllPastSecond(w: World, steps: seq<Step>, s: int)
    decreases |steps|
  {
    steps == [] || (PastSecond(w, steps[0], s) && AllPastSecond(Next(w, steps[0]), steps[1..], s))
  }

  lemma CrowdGrows(table: set<Event>, e: Event, s: int)
    ensures |Crowd(table, s)| <= |Crowd(table + {e}, s)|
  {
    SubsetSize(Crowd(table, s), Crowd(table + {e}, s));
  }

  lemma StalledQuery(w: World, r: nat, cutoff: int, rows: seq<Event>, s: int)
    requires Stalled(w, s) && Possible(w, Query(r, cutoff, rows)) && s + SECOND <= cutoff && r in w.runs && w.runs[r].Polling?
    ensures Stalled(Next(w, Query(r, cutoff, rows)), s)
  {
    hide FloorSec, FloorMs, Crowd;
    CrowdStops(w.table, w.runs[r].watermark, cutoff, rows, s);
    RowsBound(w.table, FloorSec(w.runs[r].watermark), cutoff, rows);
    hide PageOf;
  }

  lemma StalledFinish(w: World, r: nat, s: int)
    requires Stalled(w, s) && r in w.runs && w.runs[r].Sending?
    ensures Stalled(FinishPage(w, r), s)
  {
    var run := w.runs[r];
    if run.rows != [] {
      SecondOfStored(Last(run.rows));
      assert run.rows[|run.rows| - 1].ts < s + SECOND;
      BelowNextSecond(Last(run.rows), s);
    }
    hide FloorSec, FloorMs, Crowd;
  }

  lemma StalledStep(w: World, step: Step, s: int)
    requires Stalled(w, s) && Possible(w, step) && PastSecond(w, step, s)
    ensures Stalled(Next(w, step), s)
    ensures forall e :: e in Next(w, step).sent && e.ts >= s + SECOND ==> e in w.sent
  {
    hide FloorSec, FloorMs, Crowd, PageOf;
    match step
    case Arrive(e) => CrowdGrows(w.table, e, s);
    case Query(r, cutoff, rows) =>
      if r in w.runs && w.runs[r].Polling? { StalledQuery(w, r, cutoff, rows, s); }
    case Finish(r) =>
      if r in w.runs && w.runs[r].Sending? { StalledFinish(w, r, s); }
    case _ =>
  }

  /** Main result: nothing behind a crowded second is ever sent, however ticks overlap or crash and
      whatever else arrives, and the stored watermark never gets past it. */
  lemma {:induction false} StallsForever(w: World, steps: seq<Step>, s: int)
    requires Stalled(w, s) && AllPossible(w, steps) && AllPastSecond(w, steps, s)
    ensures var v := RunSteps(w, steps);
            && v.kv.Some? && FloorSec(v.kv.value) <= s
            && forall e :: e in v.sent && e.ts >= s + SECOND ==> e in w.sent
    decreases |steps|
  {
    hide Next, Possible, PastSecond, FloorSec, Crowd;
    if steps != [] {
      StalledStep(w, steps[0], s);
      StallsForever(Next(w, steps[0]), steps[1..], s);
    }
  }
}
