/** A run of the workflow that loses the rest of a tie. */
module EtlLoss {

  import opened Text
  import opened PostHogPages
  import opened CursorStore
  import opened EtlWorkflow
  import opened EtlRun

  /** The first three steps of a first run, by a dispatcher. */
  lemma Dispatched(w0: World)
    requires Fresh(w0)
    ensures Leads(w0, w0.(row := Some(CursorRow(None, Some(0), None, None, true)), instances := map[0 := Reading]))
  {
    var w2 := Next(Next(w0, ReadRow(0, 0)), Mark(0, 0));
    LeadTwo(w0, ReadRow(0, 0), Mark(0, 0));
    LeadStep(w2, Create(0, 0, true));
    assert w2.dispatchers - {0} == map[];
    assert Next(w2, Create(0, 0, true)) == w0.(row := Some(CursorRow(None, Some(0), None, None, true)), instances := map[0 := Reading]);
    hide Leads, Next;
    LeadTrans(w0, w2, Next(w2, Create(0, 0, true)));
  }

  /** One uninterrupted run over a source that is a tie. */
  lemma OneRun(w0: World, rows: seq<Event>) returns (v: World)
    requires Fresh(w0) && w0.horizon <= TIE && rows != [] && Elements(rows) <= w0.source && FloorSec(TIE) == TIE
    requires forall x :: x in w0.source ==> x.ts == TIE
    ensures Leads(w0, v) && v.source == w0.source && v.origin == Some(0) && v.table == Dedup(rows) && WatermarkOf(v.row) == Some(TIE)
  {
    TiePulled(w0, rows);
    hide Leads, Dedup, FloorSec, Holds;
    var w := w0.(row := Some(CursorRow(None, Some(0), None, None, true)), instances := map[0 := Reading]);
    Dispatched(w0);
    RunIsSteps(w, 0, DAY, TIE + 1, rows, TIE);
    v := EtlRun.Finished(Queried(w, None, DAY, TIE + 1).(buffered := w.buffered + rows), 0, rows, TIE);
    assert w.staging + (w.buffered + rows) == rows;
    LeadTrans(w0, w, v);
  }

  lemma TiePulled(w: World, rows: seq<Event>)
    requires rows != [] && Elements(rows) <= w.source && FloorSec(TIE) == TIE && forall x :: x in w.source ==> x.ts == TIE
    ensures Extracted(w, 0, TIE + 1, rows, TIE) && FloorSec(0) == 0
  {
    assert rows[0] in Elements(rows);
    assert FloorSec(0) == 0;
    hide FloorSec;
    forall x | x in w.source ensures TiedWith(rows, x) {
      assert rows[0].ts == x.ts;
    }
  }

  lemma TieRemains(v: World, rows: seq<Event>, e: Event)
    requires e in v.source && e !in rows && e.ts == TIE == FloorSec(TIE)
    requires v.origin == Some(0) && v.table == Dedup(rows) && WatermarkOf(v.row) == Some(TIE)
    ensures e !in v.table && !Whole(v)
  {
    DedupSpec(rows);
    hide Dedup, FloorSec;
  }

  /** It does happen: 10,001 events on one whole second, of which the first page holds 10,000. One
      uninterrupted run stores their second and leaves the last one out of the table. */
  lemma TieLost() returns (w0: World, steps: seq<Step>, rows: seq<Event>, e: Event)
    ensures Fresh(w0) && Keyed(w0.source) && AllPossible(w0, steps)
    ensures PageOf(w0.source, 0, TIE + 1, rows) && |rows| == PAGE_SIZE && Last(rows) == TIE
    ensures var v := RunSteps(w0, steps);
            && WatermarkOf(v.row) == Some(TIE) && v.origin == Some(0) && e in v.source && 0 < e.ts <= FloorSec(TIE)
            && v.table == Dedup(rows) && e !in v.table && !Whole(v)
  {
    rows, e := Ties(PAGE_SIZE, TIE), Tied(PAGE_SIZE, TIE);
    w0 := World(Elements(Ties(PAGE_SIZE + 1, TIE)), 0, [], [], [], None, None, map[], map[]);
    TiedPage({}, PAGE_SIZE + 1, TIE, TIE + 1);
    assert w0.source + {} == w0.source;
    TieIsLeft(rows, e);
    TiesKeyed(PAGE_SIZE + 1);
    hide AllPossible, RunSteps, Ties, Tied, Dedup, FloorSec, Whole, Keyed;
    RowsOfPage(w0.source, rows);
    hide PageOf;
    var v := OneRun(w0, rows);
    steps :| AllPossible(w0, steps) && RunSteps(w0, steps) == v;
    TieRemains(v, rows, e);
  }

  lemma RowsOfPage(source: set<Event>, rows: seq<Event>)
    requires PageOf(source, 0, TIE + 1, rows)
    ensures Elements(rows) <= source
  {
    forall x | x in rows ensures x in source {
      var i :| 0 <= i < |rows| && rows[i] == x;
      assert InWindow(source, 0, TIE + 1, rows[i]);
    }
  }

  lemma TiesKeyed(n: nat)
    ensures Keyed(Elements(Ties(n, TIE))) && forall x :: x in Elements(Ties(n, TIE)) ==> x.ts == TIE
  {
    TiesDiffer(n, TIE);
    forall x, y | x in Elements(Ties(n, TIE)) && y in Elements(Ties(n, TIE)) && x.uuid == y.uuid ensures x == y {
      var i :| 0 <= i < n && Ties(n, TIE)[i] == x;
      var j :| 0 <= j < n && Ties(n, TIE)[j] == y;
      assert |x.uuid| == i + 1 && |y.uuid| == j + 1;
    }
  }
}
