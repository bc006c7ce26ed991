/** One page of the source's event query: whole-second windows, earliest first, at most a page. */
module PostHogPages {

  /** A source event; times are in microseconds. */
  datatype Event = Event(uuid: string, ts: int)

  const SECOND: int := 1_000_000
  const PAGE_SIZE: nat := 10_000

  /** What the query sees of a watermark: its millis and zone are cut off. */
  function FloorSec(t: int): int { t - t % SECOND }

  /** What the watermark keeps of a timestamp: ISO strings carry milliseconds. */
  function FloorMs(t: int): int { t - t % 1000 }

  /** The whole second a time is in: the last one not after it. */
  lemma SecondRoundsDown(t: int)
    ensures FloorSec(t) == 1_000_000 * (t / 1_000_000) && FloorSec(t) <= t < FloorSec(t) + 1_000_000
  {
  }

  /** And its whole millisecond. */
  lemma MilliRoundsDown(t: int)
    ensures FloorMs(t) == 1_000 * (t / 1_000) && FloorMs(t) <= t < FloorMs(t) + 1_000
  {
  }

  predicate InWindow(table: set<Event>, since: int, cutoff: int, e: Event) {
    e in table && since < e.ts < cutoff
  }

  /** The answers a query may get: the earliest rows of the window, ties in any order, at most a page. */
  ghost predicate PageOf(table: set<Event>, since: int, cutoff: int, rows: seq<Event>) {
    && |rows| <= PAGE_SIZE
    && (forall i :: 0 <= i < |rows| ==> InWindow(table, since, cutoff, rows[i]))
    && (forall i, j :: 0 <= i < j < |rows| ==> rows[i] != rows[j] && rows[i].ts <= rows[j].ts)
    && (forall e :: InWindow(table, since, cutoff, e) && e !in rows ==>
          |rows| == PAGE_SIZE && rows[|rows| - 1].ts <= e.ts)
  }

  function Last(rows: seq<Event>): int
    requires rows != []
  {
    rows[|rows| - 1].ts
  }

  /** The watermark after a page: an empty one leaves it. */
  function After(watermark: int, rows: seq<Event>): int {
    if rows == [] then watermark else FloorMs(Last(rows))
  }

  /** Successive pages over one source, each starting at the second of the watermark so far. */
  ghost predicate Chain(table: set<Event>, watermark: int, cutoffs: seq<int>, pages: seq<seq<Event>>)
    decreases |pages|
  {
    |pages| == |cutoffs|
    && (pages == [] || (PageOf(table, FloorSec(watermark), cutoffs[0], pages[0])
                        && Chain(table, After(watermark, pages[0]), cutoffs[1..], pages[1..])))
  }

  function AfterAll(watermark: int, pages: seq<seq<Event>>): int
    decreases |pages|
  {
    if pages == [] then watermark else AfterAll(After(watermark, pages[0]), pages[1..])
  }

  lemma {:induction false} ChainGrows(table: set<Event>, watermark: int, cutoffs: seq<int>, pages: seq<seq<Event>>,
                                      cutoff: int, rows: seq<Event>)
    requires Chain(table, watermark, cutoffs, pages) && PageOf(table, FloorSec(AfterAll(watermark, pages)), cutoff, rows)
    ensures Chain(table, watermark, cutoffs + [cutoff], pages + [rows])
    ensures AfterAll(watermark, pages + [rows]) == After(AfterAll(watermark, pages), rows)
    decreases |pages|
  {
    hide FloorSec, FloorMs, PageOf;
    if pages != [] {
      ChainGrows(table, After(watermark, pages[0]), cutoffs[1..], pages[1..], cutoff, rows);
      assert (pages + [rows])[1..] == pages[1..] + [rows] && (cutoffs + [cutoff])[1..] == cutoffs[1..] + [cutoff];
    }
  }

  /** Pages drawn one after another join into one chain. */
  lemma {:induction false} ChainJoins(table: set<Event>, watermark: int, cutoffs: seq<int>, pages: seq<seq<Event>>,
                                      cutoffs2: seq<int>, pages2: seq<seq<Event>>)
    requires Chain(table, watermark, cutoffs, pages) && Chain(table, AfterAll(watermark, pages), cutoffs2, pages2)
    ensures Chain(table, watermark, cutoffs + cutoffs2, pages + pages2)
    ensures AfterAll(watermark, pages + pages2) == AfterAll(AfterAll(watermark, pages), pages2)
    decreases |pages|
  {
    hide FloorSec, FloorMs, PageOf;
    if pages == [] {
      assert pages + pages2 == pages2 && cutoffs + cutoffs2 == cutoffs2;
    } else {
      ChainJoins(table, After(watermark, pages[0]), cutoffs[1..], pages[1..], cutoffs2, pages2);
      assert (pages + pages2)[1..] == pages[1..] + pages2 && (cutoffs + cutoffs2)[1..] == cutoffs[1..] + cutoffs2;
    }
  }

  // ---- how a series of pages ends ----------------------------------------------------------

  /** The pages end here: nothing was found, the watermark stays, or the source is drained. */
  predicate Stops(watermark: int, rows: seq<Event>) {
    rows == [] || FloorMs(Last(rows)) == watermark || |rows| < PAGE_SIZE
  }

  ghost predicate GoesOn(start: int, pages: seq<seq<Event>>) {
    forall i :: 0 <= i < |pages| ==> !Stops(AfterAll(start, pages[..i]), pages[i])
  }

  /** The series ends with its last page and not before: it stops there, or is at the limit. */
  ghost predicate Ended(start: int, pages: seq<seq<Event>>, limit: nat) {
    && 0 < |pages| <= limit && GoesOn(start, pages[..|pages| - 1])
    && (|pages| == limit || Stops(AfterAll(start, pages[..|pages| - 1]), pages[|pages| - 1]))
  }

  lemma PageGoesOn(start: int, pages: seq<seq<Event>>, rows: seq<Event>)
    requires GoesOn(start, pages)
    ensures !Stops(AfterAll(start, pages), rows) ==> GoesOn(start, pages + [rows])
    ensures (pages + [rows])[..|pages|] == pages && (pages + [rows])[|pages|] == rows
  {
    hide Stops, AfterAll;
    var longer := pages + [rows];
    assert longer[..|pages|] == pages;
    forall i | 0 <= i < |pages| ensures longer[..i] == pages[..i] && longer[i] == pages[i] {}
  }

  /** The events of all the pages, and how many rows they have. */
  function EventsOf(pages: seq<seq<Event>>): set<Event> {
    if pages == [] then {} else EventsOf(pages[..|pages| - 1]) + Elements(pages[|pages| - 1])
  }

  function RowsIn(pages: seq<seq<Event>>): nat {
    if pages == [] then 0 else RowsIn(pages[..|pages| - 1]) + |pages[|pages| - 1]|
  }

  lemma {:induction false} EventsOfPages(pages: seq<seq<Event>>, e: Event)
    ensures e in EventsOf(pages) <==> exists i :: 0 <= i < |pages| && e in pages[i]
  {
    if pages != [] {
      var n := |pages| - 1;
      EventsOfPages(pages[..n], e);
      assert forall i :: 0 <= i < n ==> pages[..n][i] == pages[i];
    }
  }

  /** The page count a tick reports leaves out a page it stopped at. */
  function PassedPages(start: int, pages: seq<seq<Event>>): nat {
    if pages == [] then 0
    else |pages| - (if Stops(AfterAll(start, pages[..|pages| - 1]), pages[|pages| - 1]) then 1 else 0)
  }

  /** One page more. */
  lemma DrawnMore(start: int, pages: seq<seq<Event>>, rows: seq<Event>, limit: nat)
    requires GoesOn(start, pages)
    ensures !Stops(AfterAll(start, pages), rows) ==> GoesOn(start, pages + [rows])
    ensures |pages| < limit && (Stops(AfterAll(start, pages), rows) || |pages| + 1 == limit) ==>
              Ended(start, pages + [rows], limit)
    ensures EventsOf(pages + [rows]) == EventsOf(pages) + Elements(rows)
    ensures RowsIn(pages + [rows]) == RowsIn(pages) + |rows|
    ensures PassedPages(start, pages + [rows]) == |pages| + (if Stops(AfterAll(start, pages), rows) then 0 else 1)
  {
    PageGoesOn(start, pages, rows);
    hide GoesOn, Stops, AfterAll;
  }

  /** The page ends inside a tie on an exact whole second. */
  ghost predicate CutInTie(table: set<Event>, since: int, cutoff: int, rows: seq<Event>) {
    && rows != [] && FloorSec(Last(rows)) == Last(rows)
    && exists e :: InWindow(table, since, cutoff, e) && e !in rows && e.ts == Last(rows)
  }

  /** No page of the chain ends inside a tie on a whole second. */
  ghost predicate NoCuts(table: set<Event>, watermark: int, cutoffs: seq<int>, pages: seq<seq<Event>>)
    requires |pages| == |cutoffs|
    decreases |pages|
  {
    pages == [] || (!CutInTie(table, FloorSec(watermark), cutoffs[0], pages[0])
                    && NoCuts(table, After(watermark, pages[0]), cutoffs[1..], pages[1..]))
  }

  lemma {:induction false} NoCutsGrows(table: set<Event>, watermark: int, cutoffs: seq<int>, pages: seq<seq<Event>>,
                                       cutoff: int, rows: seq<Event>)
    requires |pages| == |cutoffs|
    ensures NoCuts(table, watermark, cutoffs + [cutoff], pages + [rows])
       <==> NoCuts(table, watermark, cutoffs, pages) && !CutInTie(table, FloorSec(AfterAll(watermark, pages)), cutoff, rows)
    decreases |pages|
  {
    hide FloorSec, FloorMs, CutInTie;
    if pages != [] {
      NoCutsGrows(table, After(watermark, pages[0]), cutoffs[1..], pages[1..], cutoff, rows);
      assert (pages + [rows])[1..] == pages[1..] + [rows] && (cutoffs + [cutoff])[1..] == cutoffs[1..] + [cutoff];
    } else {
      assert (pages + [rows])[1..] == [] && (cutoffs + [cutoff])[1..] == [];
    }
  }

  function Elements(rows: seq<Event>): set<Event> { set e | e in rows }

  lemma FloorFacts(t: int, u: int)
    ensures FloorSec(t) <= FloorMs(t) <= t && FloorSec(FloorMs(t)) == FloorSec(t)
    ensures FloorSec(FloorSec(t)) == FloorSec(t)
    ensures FloorSec(u) < t ==> FloorSec(u) <= FloorMs(t) && FloorSec(u) <= FloorSec(t)
  {
    SecondOrder(t, t);
    SecondOrder(u, t);
    SecondOrder(FloorMs(t), t);
    SecondOrder(t, FloorMs(t));
    WholeSecond(t);
  }

  /** A whole second at or before t is at or before its millisecond and its second. */
  lemma SecondOrder(u: int, t: int)
    ensures FloorMs(t) <= t
    ensures FloorSec(u) <= t ==> FloorSec(u) <= FloorMs(t) && FloorSec(u) <= FloorSec(t)
  {
  }

  lemma WholeSecond(t: int)
    ensures FloorSec(FloorSec(t)) == FloorSec(t) <= t
  {
  }

  /** A page without a cut holds everything up to the whole second of its last row. */
  lemma PageExtends(table: set<Event>, watermark: int, cutoff: int, rows: seq<Event>)
    requires PageOf(table, FloorSec(watermark), cutoff, rows) && rows != []
    requires !CutInTie(table, FloorSec(watermark), cutoff, rows)
    ensures var next := FloorMs(Last(rows));
            && FloorSec(watermark) <= FloorSec(next) < cutoff
            && (forall e :: e in table && FloorSec(watermark) < e.ts <= FloorSec(next) ==> e in rows)
  {
    var last := Last(rows);
    FloorFacts(last, watermark);
    hide FloorSec, FloorMs;
    assert InWindow(table, FloorSec(watermark), cutoff, rows[|rows| - 1]);
    forall e | e in table && FloorSec(watermark) < e.ts <= FloorSec(last) ensures e in rows {
      assert InWindow(table, FloorSec(watermark), cutoff, e);
    }
  }

  // ---- answering the query -----------------------------------------------------------------

  ghost predicate Ordered(table: seq<Event>) {
    forall i, j :: 0 <= i < j < |table| ==> table[i] != table[j] && table[i].ts <= table[j].ts
  }

  /** The rows picked from the first events of the table, and where each stood. */
  ghost predicate Picked(front: seq<Event>, since: int, cutoff: int, rows: seq<Event>, at: seq<nat>) {
    && |at| == |rows| <= PAGE_SIZE
    && (forall k :: 0 <= k < |at| ==> at[k] < |front| && rows[k] == front[at[k]] && since < rows[k].ts < cutoff)
    && (forall k, l :: 0 <= k < l < |at| ==> at[k] < at[l])
    && (forall i :: 0 <= i < |front| && since < front[i].ts < cutoff ==>
          i in at || (|rows| == PAGE_SIZE && at[|at| - 1] < i))
  }

  lemma PickNext(front: seq<Event>, e: Event, since: int, cutoff: int, rows: seq<Event>, at: seq<nat>)
    requires Picked(front, since, cutoff, rows, at)
    ensures if since < e.ts < cutoff && |rows| < PAGE_SIZE then Picked(front + [e], since, cutoff, rows + [e], at + [|front|])
            else Picked(front + [e], since, cutoff, rows, at)
  {
    var l := front + [e];
    forall k | 0 <= k < |at| ensures at[k] < |front| && l[at[k]] == front[at[k]] {}
    forall i | 0 <= i < |front| ensures l[i] == front[i] {}
    if since < e.ts < cutoff && |rows| < PAGE_SIZE {
      var at2 := at + [|front|];
      assert at2[|at|] == |front|;
      forall i | 0 <= i < |front| && since < front[i].ts < cutoff ensures i in at2 {
        assert i in at;
      }
    }
  }

  lemma PickedIsPage(table: seq<Event>, since: int, cutoff: int, rows: seq<Event>, at: seq<nat>)
    requires Picked(table, since, cutoff, rows, at)
    requires forall i, j :: 0 <= i < j < |table| ==> table[i] != table[j] && table[i].ts <= table[j].ts
    ensures PageOf(Elements(table), since, cutoff, rows)
  {
    forall e | InWindow(Elements(table), since, cutoff, e) && e !in rows
      ensures |rows| == PAGE_SIZE && rows[|rows| - 1].ts <= e.ts
    {
      var i :| 0 <= i < |table| && table[i] == e;
    }
  }

  /** One page: the earliest rows after `since` and before `cutoff`. */
  method QueryPage(table: seq<Event>, since: int, cutoff: int) returns (rows: seq<Event>)
    requires Ordered(table)
    ensures PageOf(Elements(table), since, cutoff, rows) && |rows| <= PAGE_SIZE
  {
    hide PageOf;
    rows := [];
    ghost var at: seq<nat> := [];
    for i := 0 to |table|
      invariant Picked(table[..i], since, cutoff, rows, at)
    {
      assert table[..i + 1] == table[..i] + [table[i]];
      PickNext(table[..i], table[i], since, cutoff, rows, at);
      if since < table[i].ts < cutoff && |rows| < PAGE_SIZE {
        rows := rows + [table[i]];
        at := at + [i];
      }
    }
    assert table[..|table|] == table;
    PickedIsPage(table, since, cutoff, rows, at);
  }

  // ---- a page that cuts a tie --------------------------------------------------------------

  /** Events of one time, told apart by the length of their uuids. */
  function Tied(i: nat, ts: int): Event {
    Event(seq(i + 1, _ => 'e'), ts)
  }

  function Ties(n: nat, ts: int): seq<Event> {
    seq(n, i requires 0 <= i < n => Tied(i, ts))
  }

  lemma TiesDiffer(n: nat, ts: int)
    ensures forall i, j :: 0 <= i < j < n ==> Ties(n, ts)[i] != Ties(n, ts)[j]
  {
    forall i, j | 0 <= i < j < n ensures Ties(n, ts)[i] != Ties(n, ts)[j] {
      assert |Tied(i, ts).uuid| == i + 1 && |Tied(j, ts).uuid| == j + 1;
    }
  }

  const TIE: int := 10 * SECOND

  lemma TiedPage(extra: set<Event>, n: nat, ts: int, cutoff: int)
    requires n >= PAGE_SIZE && 0 < ts < cutoff && forall x :: x in extra ==> cutoff <= x.ts
    ensures PageOf(Elements(Ties(n, ts)) + extra, 0, cutoff, Ties(PAGE_SIZE, ts))
  {
    var table, rows := Elements(Ties(n, ts)) + extra, Ties(PAGE_SIZE, ts);
    TiesDiffer(PAGE_SIZE, ts);
    forall i | 0 <= i < PAGE_SIZE ensures InWindow(table, 0, cutoff, rows[i]) {
      assert rows[i] == Ties(n, ts)[i];
    }
  }

  lemma TieIsLeft(rows: seq<Event>, e: Event)
    requires rows == Ties(PAGE_SIZE, TIE) && e == Tied(PAGE_SIZE, TIE)
    ensures |rows| == PAGE_SIZE && Last(rows) == TIE == e.ts && e !in rows && e in Elements(Ties(PAGE_SIZE + 1, TIE))
    ensures FloorSec(TIE) == TIE == FloorMs(TIE)
    ensures forall i :: 0 <= i < |rows| ==> 0 < rows[i].ts < TIE + 1
  {
    TiesDiffer(PAGE_SIZE + 1, TIE);
    assert Ties(PAGE_SIZE + 1, TIE)[PAGE_SIZE] == e;
    forall i | 0 <= i < |rows| ensures rows[i] != e {
      assert rows[i] == Ties(PAGE_SIZE + 1, TIE)[i];
    }
  }
}
