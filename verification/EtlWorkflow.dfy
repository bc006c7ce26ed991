/** The ETL workflow: any number of instances of one pipeline, each a series of retried steps. */
module EtlWorkflow {

  import opened Text
  import opened PostHogPages
  import opened CursorStore

  const DAY: int := 86_400 * SECOND
  const MAX_PAGES: nat := 5
  const STREAM_CHUNK: nat := 1000

  // ---- extract -----------------------------------------------------------------------------

  ghost predicate DistinctUuids(rows: seq<Event>) {
    forall i, j :: 0 <= i < j < |rows| ==> rows[i].uuid != rows[j].uuid
  }

  /** Another of these events has the same time, an exact whole second. */
  ghost predicate TiedWith(events: seq<Event>, e: Event) {
    FloorSec(e.ts) == e.ts && exists f :: f in events && f.ts == e.ts
  }

  /** Everything of the source after the second of `start` and up to the second of `next`, or all of it
      but the rest of such ties. */
  ghost predicate Holds(source: set<Event>, start: int, records: seq<Event>, next: int, whole: bool) {
    forall e :: e in source && FloorSec(start) < e.ts <= FloorSec(next) ==> e in records || (!whole && TiedWith(records, e))
  }

  /** The pull adapter: the pages drawn from the cursor (a day back without one) until they end, each
      event once. */
  method Extract(table: seq<Event>, cursor: Option<int>, now: int, cutoffs: seq<int>)
    returns (records: seq<Event>, next: Option<int>, ghost drawn: seq<seq<Event>>)
    requires Ordered(table) && DistinctUuids(table) && |cutoffs| == MAX_PAGES
    ensures DistinctUuids(records) && Elements(records) == EventsOf(drawn) && Elements(records) <= Elements(table)
    ensures var start := if cursor.Some? then cursor.value else now - DAY;
            && |drawn| <= MAX_PAGES && Chain(Elements(table), start, cutoffs[..|drawn|], drawn) && Ended(start, drawn, MAX_PAGES)
            && next == (if records == [] then cursor else Some(AfterAll(start, drawn)))
            && (records == [] <==> forall e :: e in table ==> !(FloorSec(start) < e.ts < cutoffs[0]))
            && (records != [] ==>
                  && FloorSec(start) <= FloorSec(next.value)
                  && (exists k :: 0 <= k < MAX_PAGES && FloorSec(next.value) < cutoffs[k])
                  && Holds(Elements(table), start, records, next.value, false)
                  && (NoCuts(Elements(table), start, cutoffs[..|drawn|], drawn) ==>
                        Holds(Elements(table), start, records, next.value, true)))
  {
    hide PageOf, FloorSec, FloorMs, CutInTie, Holds, Chain, AfterAll, GoesOn, Ended, EventsOf, RowsIn, PassedPages, NoCuts;
    var watermark := if cursor.Some? then cursor.value else now - DAY;
    ghost var start := watermark;
    records, drawn := [], [];
    NothingHeld(Elements(table), start);
    NoneDrawn(Elements(table), start);
    var page := 0;
    while page < MAX_PAGES
      invariant 0 <= page <= MAX_PAGES && |drawn| == page
      invariant DistinctUuids(records) && (forall i :: 0 <= i < |records| ==> records[i] in table)
      invariant FloorSec(start) <= FloorSec(watermark)
      invariant records == [] ==> watermark == start && page == 0
      invariant records != [] ==> exists k :: 0 <= k < MAX_PAGES && FloorSec(watermark) < cutoffs[k]
      invariant Holds(Elements(table), start, records, watermark, false)
      invariant NoCuts(Elements(table), start, cutoffs[..page], drawn) ==> Holds(Elements(table), start, records, watermark, true)
      invariant Elements(records) == EventsOf(drawn) && watermark == AfterAll(start, drawn)
      invariant Chain(Elements(table), start, cutoffs[..page], drawn) && GoesOn(start, drawn)
      invariant page == MAX_PAGES ==> Ended(start, drawn, MAX_PAGES)
      invariant drawn != [] ==> records != []
    {
      var results := QueryPage(table, FloorSec(watermark), cutoffs[page]);
      DrawOne(Elements(table), start, cutoffs, drawn, results);
      drawn := drawn + [results];
      if results == [] { break; }
      ghost var before := records;
      records := AddUnseen(table, records, results, FloorSec(watermark), cutoffs[page]);
      NextWatermark(Elements(table), watermark, cutoffs[page], results);
      var iso := FloorMs(Last(results));
      PageHolds(Elements(table), start, watermark, cutoffs[page], before, results, records);
      if iso == watermark { break; }
      watermark := iso;
      if |results| < PAGE_SIZE { break; }
      page := page + 1;
    }
    next := if records != [] then Some(watermark) else cursor;
    assert records != [] ==> records[0] in Elements(records);
    FirstPageEmpty(table, start, cutoffs, drawn);
  }

  lemma NoneDrawn(table: set<Event>, start: int)
    ensures Chain(table, start, [], []) && AfterAll(start, []) == start && GoesOn(start, []) && EventsOf([]) == {}
    ensures NoCuts(table, start, [], [])
  {
  }

  /** One page more of the chain. */
  lemma DrawOne(table: set<Event>, start: int, cutoffs: seq<int>, drawn: seq<seq<Event>>, rows: seq<Event>)
    requires |drawn| < |cutoffs| == MAX_PAGES && Chain(table, start, cutoffs[..|drawn|], drawn) && GoesOn(start, drawn)
    requires PageOf(table, FloorSec(AfterAll(start, drawn)), cutoffs[|drawn|], rows)
    ensures var at, more := AfterAll(start, drawn), drawn + [rows];
            && Chain(table, start, cutoffs[..|more|], more) && AfterAll(start, more) == After(at, rows)
            && (!Stops(at, rows) ==> GoesOn(start, more))
            && (Stops(at, rows) || |more| == MAX_PAGES ==> Ended(start, more, MAX_PAGES))
            && EventsOf(more) == EventsOf(drawn) + Elements(rows)
            && (NoCuts(table, start, cutoffs[..|more|], more)
                <==> NoCuts(table, start, cutoffs[..|drawn|], drawn) && !CutInTie(table, FloorSec(at), cutoffs[|drawn|], rows))
  {
    hide *;
    var n := |drawn|;
    assert cutoffs[..n] + [cutoffs[n]] == cutoffs[..n + 1];
    ChainGrows(table, start, cutoffs[..n], drawn, cutoffs[n], rows);
    DrawnMore(start, drawn, rows, MAX_PAGES);
    NoCutsGrows(table, start, cutoffs[..n], drawn, cutoffs[n], rows);
  }

  /** Nothing is drawn exactly when the first window is empty. */
  lemma FirstPageEmpty(table: seq<Event>, start: int, cutoffs: seq<int>, drawn: seq<seq<Event>>)
    requires |drawn| <= |cutoffs| == MAX_PAGES && Chain(Elements(table), start, cutoffs[..|drawn|], drawn)
    requires Ended(start, drawn, MAX_PAGES)
    ensures EventsOf(drawn) == {} <==> forall e :: e in table ==> !(FloorSec(start) < e.ts < cutoffs[0])
  {
    hide FloorSec, EventsOf, FloorMs;
    EventsOfPagesEmpty(drawn);
    var first := drawn[0];
    assert PageOf(Elements(table), FloorSec(start), cutoffs[0], first);
    if first == [] {
      FirstPageStops(start, drawn);
      forall e | e in table ensures !(FloorSec(start) < e.ts < cutoffs[0]) {
        assert !InWindow(Elements(table), FloorSec(start), cutoffs[0], e);
      }
    } else {
      assert InWindow(Elements(table), FloorSec(start), cutoffs[0], first[0]);
    }
  }

  lemma FirstPageStops(start: int, drawn: seq<seq<Event>>)
    requires Ended(start, drawn, MAX_PAGES)
    ensures |drawn| > 1 ==> drawn[0] != []
  {
    if |drawn| > 1 {
      var front := drawn[..|drawn| - 1];
      assert front[0] == drawn[0] && !Stops(AfterAll(start, front[..0]), front[0]);
    }
  }

  lemma EventsOfPagesEmpty(drawn: seq<seq<Event>>)
    requires drawn != []
    ensures drawn[0] != [] ==> EventsOf(drawn) != {}
    ensures drawn == [[]] ==> EventsOf(drawn) == {}
  {
    if drawn[0] != [] {
      EventsOfPages(drawn, drawn[0][0]);
    }
  }

  lemma NothingHeld(table: set<Event>, start: int)
    ensures Holds(table, start, [], start, true) && Holds(table, start, [], start, false)
  {
  }

  /** One page more: what it cuts off is tied with its last row. */
  lemma PageHolds(table: set<Event>, start: int, watermark: int, cutoff: int, before: seq<Event>, rows: seq<Event>, records: seq<Event>)
    requires PageOf(table, FloorSec(watermark), cutoff, rows) && rows != []
    requires forall e :: e in before || e in rows ==> e in records
    ensures var next := FloorMs(Last(rows));
            && (Holds(table, start, before, watermark, false) ==> Holds(table, start, records, next, false))
            && (Holds(table, start, before, watermark, true) && !CutInTie(table, FloorSec(watermark), cutoff, rows)
                ==> Holds(table, start, records, next, true))
  {
    var next := FloorMs(Last(rows));
    SecondKept(Last(rows));
    if !CutInTie(table, FloorSec(watermark), cutoff, rows) {
      PageExtends(table, watermark, cutoff, rows);
    }
    hide FloorMs, CutInTie;
    assert rows[|rows| - 1] in rows;
    assert InWindow(table, FloorSec(watermark), cutoff, rows[|rows| - 1]);
    hide FloorSec;
    forall e | e in table && FloorSec(watermark) < e.ts <= FloorSec(next)
      ensures e in records || (e.ts == Last(rows) == FloorSec(Last(rows)) && TiedWith(records, e))
    {
      if e !in rows {
        assert InWindow(table, FloorSec(watermark), cutoff, e);
      }
    }
    hide PageOf;
    assert forall e :: TiedWith(before, e) ==> TiedWith(records, e);
  }

  lemma SecondKept(t: int)
    ensures FloorSec(FloorMs(t)) == FloorSec(t) <= t
  {
    FloorFacts(t, t);
    WholeSecond(t);
  }

  lemma NextWatermark(table: set<Event>, watermark: int, cutoff: int, rows: seq<Event>)
    requires PageOf(table, FloorSec(watermark), cutoff, rows) && rows != []
    ensures FloorSec(watermark) <= FloorSec(FloorMs(Last(rows))) < cutoff
  {
    FloorFacts(Last(rows), watermark);
    hide FloorSec, FloorMs;
    assert InWindow(table, FloorSec(watermark), cutoff, rows[|rows| - 1]);
  }

  /** Appends the rows whose uuid has not been seen in this run. */
  method AddUnseen(table: seq<Event>, records: seq<Event>, results: seq<Event>, ghost since: int, ghost cutoff: int)
    returns (more: seq<Event>)
    requires DistinctUuids(table) && DistinctUuids(records) && PageOf(Elements(table), since, cutoff, results)
    requires forall i :: 0 <= i < |records| ==> records[i] in table
    ensures DistinctUuids(more) && (forall i :: 0 <= i < |more| ==> more[i] in table)
    ensures forall e :: e in more <==> e in records || e in results
    ensures results != [] ==> more != []
  {
    RowsInTable(table, since, cutoff, results);
    hide PageOf;
    more := records;
    for i := 0 to |results|
      invariant DistinctUuids(more) && (forall k :: 0 <= k < |more| ==> more[k] in table)
      invariant forall e :: e in more <==> e in records || e in results[..i]
    {
      assert results[i] in table;
      assert forall k :: 0 <= k < |more| && more[k].uuid == results[i].uuid ==> more[k] == results[i];
      if !SeenUuid(more, results[i].uuid) {
        more := more + [results[i]];
      }
    }
    assert results[..|results|] == results;
    if results != [] {
      assert results[0] in more;
    }
  }

  lemma RowsInTable(table: seq<Event>, since: int, cutoff: int, rows: seq<Event>)
    requires PageOf(Elements(table), since, cutoff, rows)
    ensures forall i :: 0 <= i < |rows| ==> rows[i] in table
  {
    forall i | 0 <= i < |rows| ensures rows[i] in table {
      assert InWindow(Elements(table), since, cutoff, rows[i]);
    }
  }

  predicate SeenUuid(rows: seq<Event>, uuid: string) {
    exists k :: 0 <= k < |rows| && rows[k].uuid == uuid
  }

  // ---- the load ----------------------------------------------------------------------------

  /** Where the row of a uuid stands, |table| if there is none. */
  function Place(table: seq<Event>, uuid: string): (k: nat)
    ensures k <= |table| && (k < |table| ==> table[k].uuid == uuid)
    ensures forall j :: 0 <= j < k ==> table[j].uuid != uuid
  {
    if table == [] || table[0].uuid == uuid then 0 else 1 + Place(table[1..], uuid)
  }

  /** row_number() over (partition by uuid order by timestamp desc) = 1, a row at a time. */
  function Merged(table: seq<Event>, e: Event): seq<Event> {
    var k := Place(table, e.uuid);
    if k == |table| then table + [e] else if table[k].ts < e.ts then table[k := e] else table
  }

  function Dedup(rows: seq<Event>): seq<Event> {
    if rows == [] then [] else Merged(Dedup(rows[..|rows| - 1]), rows[|rows| - 1])
  }

  /** The table has a row of this uuid, no older than `ts`. */
  predicate HasRow(table: seq<Event>, uuid: string, ts: int) {
    Place(table, uuid) < |table| && ts <= table[Place(table, uuid)].ts
  }

  lemma MergedSpec(table: seq<Event>, e: Event)
    requires DistinctUuids(table)
    ensures DistinctUuids(Merged(table, e))
    ensures forall i :: 0 <= i < |Merged(table, e)| ==> Merged(table, e)[i] in table || Merged(table, e)[i] == e
  {
  }

  lemma MergedKeeps(table: seq<Event>, e: Event, uuid: string, ts: int)
    requires DistinctUuids(table) && (HasRow(table, uuid, ts) || (uuid == e.uuid && ts <= e.ts))
    ensures HasRow(Merged(table, e), uuid, ts)
  {
    MergedSpec(table, e);
    var m, k := Merged(table, e), Place(table, uuid);
    assert forall j :: 0 <= j < |table| ==> m[j].uuid == table[j].uuid;
    assert k < |m| && m[k].uuid == uuid;
    assert Place(m, uuid) == k;
  }

  /** The loaded table: one row per staged uuid, the latest. */
  lemma {:induction false} DedupSpec(rows: seq<Event>)
    ensures DistinctUuids(Dedup(rows))
    ensures forall i :: 0 <= i < |Dedup(rows)| ==> Dedup(rows)[i] in rows
    ensures forall j :: 0 <= j < |rows| ==> HasRow(Dedup(rows), rows[j].uuid, rows[j].ts)
  {
    hide Merged, HasRow;
    if rows != [] {
      var front, e := rows[..|rows| - 1], rows[|rows| - 1];
      DedupSpec(front);
      MergedSpec(Dedup(front), e);
      forall j | 0 <= j < |rows| ensures HasRow(Dedup(rows), rows[j].uuid, rows[j].ts) {
        assert j < |front| ==> front[j] == rows[j];
        MergedKeeps(Dedup(front), e, rows[j].uuid, rows[j].ts);
      }
    }
  }

  /** When a uuid determines its event, the load keeps every staged event. */
  lemma DedupKeeps(rows: seq<Event>, source: set<Event>, e: Event)
    requires e in rows && Keyed(source) && (forall x :: x in rows ==> x in source)
    ensures e in Dedup(rows)
  {
    hide Dedup;
    DedupSpec(rows);
    var j :| 0 <= j < |rows| && rows[j] == e;
    var y := Dedup(rows)[Place(Dedup(rows), e.uuid)];
    assert y in source && e in source;
  }

  // ---- the machine -------------------------------------------------------------------------

  datatype Instance =
    | Reading
    | Extracting(cursor: Option<int>)
    | Sending(cursor: Option<int>, start: int, records: seq<Event>, next: int, done: nat)
    | Settling(start: int, records: seq<Event>, next: int)
    | Loading(start: int, records: seq<Event>, next: int)
    | Advancing(next: int, sent: nat)
    | Clearing(reached: Option<int>, sent: nat)

  /** A dispatcher between its awaited calls: past the guard, or past the mark as well. */
  datatype Dispatcher = ToMark | ToCreate

  /** `buffered` is sent but not yet readable; `origin` is the latest start of an extract without a cursor. */
  datatype World = World(
    source: set<Event>, horizon: int, buffered: seq<Event>, staging: seq<Event>, table: seq<Event>,
    row: Option<CursorRow>, origin: Option<int>, instances: map<nat, Instance>, dispatchers: map<nat, Dispatcher>)

  datatype Step =
    | Arrive(event: Event)
    | Roll(count: nat)                                  // the sink makes the oldest sends readable
    | ReadRow(d: nat, now: int)                         // a dispatcher reads the row; guarded, it goes away
    | Mark(d: nat, now: int)
    | Create(d: nat, id: nat, works: bool)
    | Drop(d: nat)                                      // a dispatcher dies
    | ReadCursor(id: nat)
    | Pull(id: nat, now: int, cutoff: int, records: seq<Event>, next: int)
    | SendChunk(id: nat)
    | Retry(id: nat, reread: bool)                      // extract-buffer fails or is re-run
    | Wake(id: nat)                                     // the settle sleep is over
    | Load(id: nat, recorded: bool)                     // the build; unrecorded, it will run again
    | Advance(id: nat)
    | Clear(id: nat, recorded: bool)
    | Fail(id: nat)                                     // the error path frees the flag
    | Vanish(id: nat)

  function MaxOrigin(origin: Option<int>, start: int): Option<int> {
    if origin.Some? && origin.value >= start then origin else Some(start)
  }

  function WatermarkOf(row: Option<CursorRow>): Option<int> {
    if row.Some? then row.value.watermark else None
  }

  function At(w: World, id: nat, instance: Instance): World {
    w.(instances := w.instances[id := instance])
  }

  predicate Waits(w: World, d: nat, stage: Dispatcher) {
    d in w.dispatchers && w.dispatchers[d] == stage
  }

  function PullStep(w: World, id: nat, now: int, cutoff: int, records: seq<Event>, next: int): World
    requires id in w.instances && w.instances[id].Extracting?
  {
    var cursor := w.instances[id].cursor;
    var start := if cursor.Some? then cursor.value else now - DAY;
    var v := w.(horizon := if w.horizon < cutoff then cutoff else w.horizon,
                origin := if cursor.Some? then w.origin else MaxOrigin(w.origin, FloorSec(start)));
    At(v, id, if records == [] then Clearing(None, 0) else Sending(cursor, start, records, next, 0))
  }

  function SendStep(w: World, id: nat): World
    requires id in w.instances && w.instances[id].Sending? && w.instances[id].done <= |w.instances[id].records|
  {
    var i := w.instances[id];
    if i.done == |i.records| then At(w, id, Settling(i.start, i.records, i.next))
    else
      var upto := if i.done + STREAM_CHUNK < |i.records| then i.done + STREAM_CHUNK else |i.records|;
      At(w.(buffered := w.buffered + i.records[i.done..upto]), id, i.(done := upto))
  }

  function InstanceStep(w: World, step: Step, id: nat): World
    requires id in w.instances
  {
    var i := w.instances[id];
    match step
    case ReadCursor(_) => if i.Reading? then At(w, id, Extracting(WatermarkOf(w.row))) else w
    case Pull(_, now, cutoff, records, next) => if i.Extracting? then PullStep(w, id, now, cutoff, records, next) else w
    case SendChunk(_) => if i.Sending? && i.done <= |i.records| then SendStep(w, id) else w
    case Retry(_, reread) =>
      if i.Sending? || i.Extracting? then At(w, id, if reread then Reading else Extracting(i.cursor)) else w
    case Wake(_) => if i.Settling? then At(w, id, Loading(i.start, i.records, i.next)) else w
    case Load(_, recorded) =>
      if i.Loading? then
        var v := w.(table := Dedup(w.staging));
        if recorded then At(v, id, Advancing(i.next, |i.records|)) else v
      else w
    case Advance(_) =>
      if i.Advancing? then At(w.(row := Advanced(w.row, i.next)), id, Clearing(Some(i.next), i.sent)) else w
    case Clear(_, recorded) =>
      if i.Clearing? then
        var v := w.(row := Cleared(w.row, "ok", Some(i.sent)));
        if recorded then v.(instances := v.instances - {id})
        else if i.reached.Some? then At(v, id, Advancing(i.reached.value, i.sent)) else v
      else w
    case Fail(_) => w.(row := Cleared(w.row, "error", None), instances := w.instances - {id})
    case Vanish(_) => w.(instances := w.instances - {id})
    case _ => w
  }

  function Next(w: World, step: Step): World {
    match step
    case Arrive(e) => w.(source := w.source + {e})
    case Roll(n) =>
      if n <= |w.buffered| then w.(staging := w.staging + w.buffered[..n], buffered := w.buffered[n..]) else w
    case ReadRow(d, now) =>
      if d in w.dispatchers || Guarded(w.row, now) then w else w.(dispatchers := w.dispatchers[d := ToMark])
    case Mark(d, now) =>
      if Waits(w, d, ToMark)
      then w.(row := MarkedRunning(w.row, now), dispatchers := w.dispatchers[d := ToCreate]) else w
    case Create(d, id, works) =>
      if !Waits(w, d, ToCreate) then w
      else
        var v := w.(dispatchers := w.dispatchers - {d});
        if works && id !in w.instances then At(v, id, Reading) else v
    case Drop(d) => w.(dispatchers := w.dispatchers - {d})
    case _ => if step.id in w.instances then InstanceStep(w, step, step.id) else w
  }

  function RunSteps(w: World, steps: seq<Step>): World
    decreases |steps|
  {
    if steps == [] then w else RunSteps(Next(w, steps[0]), steps[1..])
  }

  /** A uuid names one event. */
  ghost predicate Keyed(source: set<Event>) {
    forall e, f :: e in source && f in source && e.uuid == f.uuid ==> e == f
  }

  function PullStart(w: World, id: nat, now: int): int
    requires id in w.instances && w.instances[id].Extracting?
  {
    var cursor := w.instances[id].cursor;
    if cursor.Some? then cursor.value else now - DAY
  }

  /** What the run relies on: fresh uuids that arrive before the lag passes them, an adapter that holds
      its window but for cut ties, and a settle sleep that outlasts the roll of what the instance sent. */
  ghost predicate Possible(w: World, step: Step) {
    match step
    case Arrive(e) => w.horizon <= e.ts && forall f :: f in w.source ==> f.uuid != e.uuid
    case Pull(id, now, cutoff, records, next) =>
      id in w.instances && w.instances[id].Extracting? ==>
        Elements(records) <= w.source && FloorSec(next) < cutoff && Holds(w.source, PullStart(w, id, now), records, next, false)
    case Wake(id) =>
      id in w.instances && w.instances[id].Settling? ==> Elements(w.instances[id].records) <= Elements(w.staging)
    case _ => true
  }

  ghost predicate AllPossible(w: World, steps: seq<Step>)
    decreases |steps|
  {
    steps == [] || (Possible(w, steps[0]) && AllPossible(Next(w, steps[0]), steps[1..]))
  }

  /** The adapter cut no tie. */
  ghost predicate Uncut(w: World, step: Step) {
    step.Pull? && step.id in w.instances && w.instances[step.id].Extracting? ==>
      Holds(w.source, PullStart(w, step.id, step.now), step.records, step.next, true)
  }

  ghost predicate AllUncut(w: World, steps: seq<Step>)
    decreases |steps|
  {
    steps == [] || (Uncut(w, steps[0]) && AllUncut(Next(w, steps[0]), steps[1..]))
  }

  predicate Fresh(w: World) {
    w.buffered == [] && w.staging == [] && w.table == [] && w.row.None? && w.origin.None? && w.instances == map[]
    && w.dispatchers == map[]
  }

  // ---- safety ------------------------------------------------------------------------------

  /** Every event after the origin, up to the second of `mark`, is in the loaded table, or all of them
      but the rest of ties. */
  ghost predicate Loaded(w: World, mark: int, whole: bool) {
    && w.origin.Some?
    && (FloorSec(mark) < w.horizon || FloorSec(mark) <= w.origin.value)
    && (forall e :: e in w.source && w.origin.value < e.ts <= FloorSec(mark) ==>
          e in w.table || (!whole && TiedWith(w.table, e)))
  }

  ghost predicate Pulled(w: World, start: int, records: seq<Event>, next: int, whole: bool) {
    && Loaded(w, start, true) && FloorSec(next) < w.horizon
    && Elements(records) <= w.source && Holds(w.source, start, records, next, whole)
  }

  ghost predicate InstanceFits(w: World, i: Instance, whole: bool) {
    match i
    case Reading => true
    case Extracting(cursor) => cursor.Some? ==> Loaded(w, cursor.value, true)
    case Sending(cursor, start, records, next, done) =>
      && Pulled(w, start, records, next, whole) && done <= |records|
      && (cursor.Some? ==> Loaded(w, cursor.value, true))
    case Settling(start, records, next) => Pulled(w, start, records, next, whole)
    case Loading(start, records, next) => Pulled(w, start, records, next, whole) && Elements(records) <= Elements(w.staging)
    case Advancing(next, _) => Loaded(w, next, whole)
    case Clearing(next, _) => next.Some? ==> Loaded(w, next.value, whole)
  }

  ghost predicate Flows(w: World) {
    && Keyed(w.source)
    && Elements(w.buffered) <= w.source && Elements(w.staging) <= w.source
    && Elements(w.table) <= Elements(w.staging) && DistinctUuids(w.table)
  }

  ghost predicate Inv(w: World, whole: bool) {
    && Flows(w)
    && (WatermarkOf(w.row).Some? ==> Loaded(w, WatermarkOf(w.row).value, true))
    && (forall id :: id in w.instances ==> InstanceFits(w, w.instances[id], whole))
  }

  /** A whole-second event that is not in the table, while one of the same time is. */
  ghost predicate Unloaded(w: World, mark: int, e: Event) {
    e in w.source && w.origin.Some? && w.origin.value < e.ts <= FloorSec(mark) && e !in w.table && TiedWith(w.table, e)
  }

  /** The step stores a watermark, and leaves such an event behind. */
  ghost predicate LeavesTie(w: World, step: Step) {
    && step.Advance? && step.id in w.instances && w.instances[step.id].Advancing?
    && var next := w.instances[step.id].next;
       WatermarkOf(Advanced(w.row, next)) == Some(next) && exists e :: Unloaded(w, next, e)
  }

  /** Nothing is skipped: all of the source up to the second of the stored watermark is loaded. */
  ghost predicate Whole(w: World) {
    WatermarkOf(w.row).Some? ==> Loaded(w, WatermarkOf(w.row).value, true)
  }

  /** Progress of the pieces that `Loaded` looks at. */
  ghost predicate Grows(w: World, v: World) {
    && v.source == w.source && w.horizon <= v.horizon
    && Elements(w.staging) <= Elements(v.staging) && Elements(w.table) <= Elements(v.table)
    && (w.origin.Some? ==> v.origin.Some? && w.origin.value <= v.origin.value)
  }

  lemma LoadedGrows(w: World, v: World, mark: int, whole: bool)
    requires Loaded(w, mark, whole) && Grows(w, v)
    ensures Loaded(v, mark, whole)
  {
    hide FloorSec;
    forall e | e in w.table ensures e in v.table {
      assert e in Elements(w.table);
    }
    assert forall e :: TiedWith(w.table, e) ==> TiedWith(v.table, e);
  }

  lemma InstanceGrows(w: World, v: World, i: Instance, whole: bool)
    requires InstanceFits(w, i, whole) && Grows(w, v)
    ensures InstanceFits(v, i, whole)
  {
    hide Loaded, FloorSec, Holds;
    match i
    case Extracting(cursor) => if cursor.Some? { LoadedGrows(w, v, cursor.value, true); }
    case Sending(cursor, start, _, _, _) =>
      LoadedGrows(w, v, start, true);
      if cursor.Some? { LoadedGrows(w, v, cursor.value, true); }
    case Settling(start, _, _) => LoadedGrows(w, v, start, true);
    case Loading(start, _, _) => LoadedGrows(w, v, start, true);
    case Advancing(next, _) => LoadedGrows(w, v, next, whole);
    case Clearing(next, _) => if next.Some? { LoadedGrows(w, v, next.value, whole); }
    case Reading =>
  }

  /** A step that only grows the world and rewrites one instance keeps the invariant. */
  lemma StepKeeps(w: World, v: World, id: nat, whole: bool)
    requires Inv(w, whole) && Grows(w, v) && Flows(v)
    requires WatermarkOf(v.row) == WatermarkOf(w.row) || (WatermarkOf(v.row).Some? && Loaded(v, WatermarkOf(v.row).value, true))
    requires forall k :: k in v.instances && k != id ==> k in w.instances && v.instances[k] == w.instances[k]
    requires id in v.instances ==> InstanceFits(v, v.instances[id], whole)
    ensures Inv(v, whole)
  {
    hide Grows, Flows, Loaded, InstanceFits;
    if WatermarkOf(v.row) == WatermarkOf(w.row) && WatermarkOf(w.row).Some? {
      LoadedGrows(w, v, WatermarkOf(w.row).value, true);
    }
    forall k | k in v.instances && k != id ensures InstanceFits(v, v.instances[k], whole) {
      InstanceGrows(w, v, w.instances[k], whole);
    }
  }

  lemma ArrivalKeeps(w: World, e: Event, whole: bool)
    requires Inv(w, whole) && Possible(w, Arrive(e))
    ensures Inv(w.(source := w.source + {e}), whole)
  {
    hide FloorSec, Flows;
    var v := w.(source := w.source + {e});
    assert Flows(v) by { ArrivalFlows(w, e); }
    forall mark, all | Loaded(w, mark, all) ensures Loaded(v, mark, all) {}
    forall id | id in v.instances ensures InstanceFits(v, v.instances[id], whole) {
      assert InstanceFits(w, w.instances[id], whole);
    }
  }

  lemma ArrivalFlows(w: World, e: Event)
    requires Flows(w) && forall f :: f in w.source ==> f.uuid != e.uuid
    ensures Flows(w.(source := w.source + {e}))
  {
  }

  /** The build: its table holds everything that was staged. */
  lemma LoadKeeps(w: World, id: nat, recorded: bool, whole: bool)
    requires Inv(w, whole) && id in w.instances && w.instances[id].Loading?
    ensures Inv(InstanceStep(w, Load(id, recorded), id), whole)
  {
    hide *;
    var v, i := InstanceStep(w, Load(id, recorded), id), w.instances[id];
    LoadShape(w, id, recorded);
    InvParts(w, id, whole);
    DedupSpec(w.staging);
    StagedIsBuilt(w);
    BuildGrows(w, v);
    LoadingFits(w, v, i, whole);
    StepKeeps(w, v, id, whole);
  }

  lemma LoadShape(w: World, id: nat, recorded: bool)
    requires id in w.instances && w.instances[id].Loading?
    ensures var v, i := InstanceStep(w, Load(id, recorded), id), w.instances[id];
            && v.table == Dedup(w.staging) && v.source == w.source && v.buffered == w.buffered && v.staging == w.staging
            && v.horizon == w.horizon && v.origin == w.origin && WatermarkOf(v.row) == WatermarkOf(w.row)
            && v.instances == w.instances[id := if recorded then Advancing(i.next, |i.records|) else i]
  {
    hide Dedup;
    assert w.instances[id := w.instances[id]] == w.instances;
  }

  lemma InvParts(w: World, id: nat, whole: bool)
    requires Inv(w, whole) && id in w.instances
    ensures Flows(w) && InstanceFits(w, w.instances[id], whole)
  {
  }

  /** An instance that loads is still in order after the build, and so it is when it advances. */
  lemma LoadingFits(w: World, v: World, i: Instance, whole: bool)
    requires InstanceFits(w, i, whole) && i.Loading? && Grows(w, v) && forall e :: e in w.staging ==> e in v.table
    ensures InstanceFits(v, i, whole) && InstanceFits(v, Advancing(i.next, |i.records|), whole)
  {
    hide FloorSec, Holds, DistinctUuids;
    InstanceGrows(w, v, i, whole);
    forall e | e in i.records ensures e in v.table {
      assert e in Elements(w.staging);
    }
    WindowLoaded(v, i.start, i.records, i.next, whole);
  }

  lemma StagedIsBuilt(w: World)
    requires Flows(w)
    ensures forall e :: e in w.staging ==> e in Dedup(w.staging)
  {
    hide Dedup, DistinctUuids;
    assert forall x :: x in w.staging ==> x in Elements(w.staging);
    forall e | e in w.staging ensures e in Dedup(w.staging) {
      DedupKeeps(w.staging, w.source, e);
    }
  }

  lemma BuildGrows(w: World, v: World)
    requires Flows(w) && v.source == w.source && v.buffered == w.buffered && v.staging == w.staging
    requires v.horizon == w.horizon && v.origin == w.origin && DistinctUuids(v.table)
    requires forall i :: 0 <= i < |v.table| ==> v.table[i] in w.staging
    requires forall e :: e in w.staging ==> e in v.table
    ensures Grows(w, v) && Flows(v)
  {
    forall e | e in Elements(w.table) ensures e in Elements(v.table) {
      assert e in Elements(w.staging);
    }
  }

  /** A loaded window extends what is loaded. */
  lemma WindowLoaded(v: World, start: int, records: seq<Event>, next: int, whole: bool)
    requires Pulled(v, start, records, next, whole)
    requires forall e :: e in records ==> e in v.table
    ensures Loaded(v, next, whole)
  {
    hide FloorSec;
    assert forall e :: TiedWith(records, e) ==> TiedWith(v.table, e);
    hide TiedWith;
  }

  lemma PullKeeps(w: World, id: nat, now: int, cutoff: int, records: seq<Event>, next: int, whole: bool)
    requires Inv(w, whole) && Possible(w, Pull(id, now, cutoff, records, next)) && id in w.instances && w.instances[id].Extracting?
    requires whole ==> Uncut(w, Pull(id, now, cutoff, records, next))
    ensures Inv(PullStep(w, id, now, cutoff, records, next), whole)
  {
    var v := PullStep(w, id, now, cutoff, records, next);
    var cursor := w.instances[id].cursor;
    var start := if cursor.Some? then cursor.value else now - DAY;
    assert InstanceFits(w, w.instances[id], whole);
    FloorFacts(start, start);
    hide FloorSec, Holds, DistinctUuids;
    assert Grows(w, v) && Flows(v);
    if cursor.Some? {
      LoadedGrows(w, v, cursor.value, true);
    } else {
      assert Loaded(v, start, true);
    }
    StepKeeps(w, v, id, whole);
  }

  lemma SendKeeps(w: World, id: nat, whole: bool)
    requires Inv(w, whole) && id in w.instances && w.instances[id].Sending? && w.instances[id].done <= |w.instances[id].records|
    ensures Inv(SendStep(w, id), whole)
  {
    var v, i := SendStep(w, id), w.instances[id];
    assert InstanceFits(w, i, whole);
    hide FloorSec, Holds, DistinctUuids, Loaded;
    forall e | e in Elements(v.buffered) ensures e in w.source {
      assert e in Elements(w.buffered) || e in Elements(i.records);
    }
    assert Grows(w, v) && Flows(v);
    LoadedGrows(w, v, i.start, true);
    if i.cursor.Some? { LoadedGrows(w, v, i.cursor.value, true); }
    StepKeeps(w, v, id, whole);
  }

  lemma RollKeeps(w: World, n: nat, whole: bool)
    requires Inv(w, whole) && n <= |w.buffered|
    ensures Inv(Next(w, Roll(n)), whole)
  {
    var v := Next(w, Roll(n));
    hide FloorSec, InstanceFits, Loaded, DistinctUuids;
    forall e | e in Elements(w.staging) ensures e in Elements(v.staging) {}
    forall e | e in Elements(v.staging) ensures e in w.source {
      assert e in Elements(w.staging) || e in Elements(w.buffered);
    }
    forall e | e in Elements(v.buffered) ensures e in Elements(w.buffered) {}
    assert Grows(w, v) && Flows(v);
    AllKeep(w, v, whole);
  }

  lemma AllKeep(w: World, v: World, whole: bool)
    requires Inv(w, whole) && Grows(w, v) && Flows(v) && WatermarkOf(v.row) == WatermarkOf(w.row) && v.instances == w.instances
    ensures Inv(v, whole)
  {
    hide Grows, Flows, Loaded, InstanceFits;
    if WatermarkOf(w.row).Some? {
      LoadedGrows(w, v, WatermarkOf(w.row).value, true);
    }
    forall k | k in v.instances ensures InstanceFits(v, v.instances[k], whole) {
      InstanceGrows(w, v, w.instances[k], whole);
    }
  }

  lemma RowStepGrows(w: World, step: Step)
    requires Flows(w) && !Dispatching(step)
    requires !step.Arrive? && !step.Roll? && !step.Pull? && !step.SendChunk? && !step.Load?
    ensures Grows(w, Next(w, step)) && Flows(Next(w, step))
  {
  }

  predicate Dispatching(step: Step) {
    step.ReadRow? || step.Mark? || step.Create? || step.Drop?
  }

  /** A dispatcher leaves the watermark alone; what it creates has read nothing yet. */
  lemma DispatcherKeeps(w: World, step: Step, whole: bool)
    requires Inv(w, whole) && Dispatching(step)
    ensures Inv(Next(w, step), whole)
  {
    var v := Next(w, step);
    assert Grows(w, v) && Flows(v);
    hide Flows, Grows, Loaded, Guarded;
    if v.instances == w.instances {
      AllKeep(w, v, whole);
    } else {
      StepKeeps(w, v, step.id, whole);
    }
  }

  /** Steps that only touch the cursor row and one instance. */
  lemma RowStepKeeps(w: World, step: Step, whole: bool)
    requires Inv(w, whole) && Possible(w, step) && !Dispatching(step) && !LeavesTie(w, step)
    requires !step.Arrive? && !step.Roll? && !step.Pull? && !step.SendChunk? && !step.Load?
    ensures Inv(Next(w, step), whole)
  {
    hide FloorSec, DistinctUuids, Holds, Dedup, Guarded, Grows, Flows, Loaded, Pulled, InstanceFits, InstanceStep, Possible;
    if step.id in w.instances {
      var v := Next(w, step);
      RowStepGrows(w, step);
      RowStepFits(w, step, whole);
      if WatermarkOf(w.row).Some? {
        LoadedGrows(w, v, WatermarkOf(w.row).value, true);
      }
      StepKeeps(w, v, step.id, whole);
    }
  }

  /** What the step makes of its instance, and of the watermark. */
  lemma RowStepFits(w: World, step: Step, whole: bool)
    requires Inv(w, whole) && Possible(w, step) && !Dispatching(step) && !LeavesTie(w, step)
    requires !step.Arrive? && !step.Roll? && !step.Pull? && !step.SendChunk? && !step.Load?
    requires step.id in w.instances && Grows(w, InstanceStep(w, step, step.id))
    ensures var v := InstanceStep(w, step, step.id);
            && (WatermarkOf(v.row) == WatermarkOf(w.row) || (WatermarkOf(v.row).Some? && Loaded(v, WatermarkOf(v.row).value, true)))
            && (forall k :: k in v.instances && k != step.id ==> k in w.instances && v.instances[k] == w.instances[k])
            && (step.id in v.instances ==> InstanceFits(v, v.instances[step.id], whole))
  {
    hide FloorSec, DistinctUuids, Holds, Dedup, Grows, Flows, Loaded, Pulled, Unloaded;
    var v := InstanceStep(w, step, step.id);
    if WatermarkOf(w.row).Some? {
      LoadedGrows(w, v, WatermarkOf(w.row).value, true);
    }
    assert InstanceFits(w, w.instances[step.id], whole);
    InstanceGrows(w, v, w.instances[step.id], whole);
    if step.Advance? && w.instances[step.id].Advancing? {
      AdvanceLoads(w, w.instances[step.id].next, whole);
      if Loaded(w, w.instances[step.id].next, true) {
        LoadedGrows(w, v, w.instances[step.id].next, true);
      }
    }
  }

  lemma NextKeeps(w: World, step: Step, whole: bool)
    requires Inv(w, whole) && Possible(w, step) && (whole ==> Uncut(w, step)) && !LeavesTie(w, step)
    ensures Inv(Next(w, step), whole)
  {
    hide Inv, Possible, PullStep, SendStep;
    match step
    case Arrive(e) => ArrivalKeeps(w, e, whole);
    case Roll(n) => if n <= |w.buffered| { RollKeeps(w, n, whole); }
    case Pull(id, now, cutoff, records, next) =>
      if id in w.instances && w.instances[id].Extracting? { PullKeeps(w, id, now, cutoff, records, next, whole); }
    case SendChunk(id) =>
      if id in w.instances && w.instances[id].Sending? && w.instances[id].done <= |w.instances[id].records| { SendKeeps(w, id, whole); }
    case Load(id, recorded) =>
      if id in w.instances && w.instances[id].Loading? { LoadKeeps(w, id, recorded, whole); }
    case _ => if Dispatching(step) { DispatcherKeeps(w, step, whole); } else { RowStepKeeps(w, step, whole); }
  }

  lemma AdvanceLoads(w: World, next: int, whole: bool)
    requires Loaded(w, next, whole)
    ensures Loaded(w, next, true) <==> !exists e :: Unloaded(w, next, e)
    ensures whole ==> Loaded(w, next, true)
  {
    hide TiedWith, FloorSec;
    if !exists e :: Unloaded(w, next, e) {
      forall e | e in w.source && w.origin.value < e.ts <= FloorSec(next) ensures e in w.table {
        assert !Unloaded(w, next, e);
      }
    }
  }

  /** One step, exactly: from a state in order, a step skips something if and only if it stores a
      watermark and leaves a tie half loaded behind it; otherwise all stays in order. */
  lemma StepSkipsExactlyWhen(w: World, step: Step)
    requires Inv(w, false) && Possible(w, step)
    ensures Whole(Next(w, step)) <==> !LeavesTie(w, step)
    ensures !LeavesTie(w, step) ==> Inv(Next(w, step), false)
  {
    hide Next, Loaded, Unloaded, InstanceFits, Flows, Possible;
    if LeavesTie(w, step) {
      TieSkips(w, step);
    } else {
      NextKeeps(w, step, false);
    }
  }

  lemma TieSkips(w: World, step: Step)
    requires Inv(w, false) && LeavesTie(w, step)
    ensures !Whole(Next(w, step))
  {
    hide Flows, TiedWith, FloorSec;
    var next := w.instances[step.id].next;
    var v := Next(w, step);
    var e :| Unloaded(w, next, e);
    assert WatermarkOf(v.row) == Some(next) && e in v.source && e !in v.table && v.origin == w.origin;
  }

  /** No advance along the steps leaves a tie half loaded. */
  ghost predicate NoTieLeft(w: World, steps: seq<Step>)
    decreases |steps|
  {
    steps == [] || (!LeavesTie(w, steps[0]) && NoTieLeft(Next(w, steps[0]), steps[1..]))
  }

  ghost predicate AlwaysWhole(w: World, steps: seq<Step>)
    decreases |steps|
  {
    Whole(w) && (steps == [] || AlwaysWhole(Next(w, steps[0]), steps[1..]))
  }

  lemma InvIsWhole(w: World, whole: bool)
    requires Inv(w, whole)
    ensures Whole(w)
  {
  }

  lemma {:induction false} AlwaysWholeFrom(w: World, steps: seq<Step>)
    requires Inv(w, false) && AllPossible(w, steps)
    ensures AlwaysWhole(w, steps) <==> NoTieLeft(w, steps)
    ensures NoTieLeft(w, steps) ==> Inv(RunSteps(w, steps), false)
    decreases |steps|
  {
    InvIsWhole(w, false);
    hide Inv, Next, Possible, LeavesTie, Whole;
    if steps != [] {
      StepSkipsExactlyWhen(w, steps[0]);
      if !LeavesTie(w, steps[0]) {
        AlwaysWholeFrom(Next(w, steps[0]), steps[1..]);
      } else {
        assert !Whole(Next(w, steps[0]));
      }
    }
  }

  /** Main result: with any number of overlapping, retried, replayed or failing instances, at every
      moment all of the source from the origin on, up to the second of the stored watermark, is in the
      loaded table, exactly when no advance leaves a tie on a whole second half loaded. */
  lemma NothingSkippedExactlyWhen(w: World, steps: seq<Step>)
    requires Fresh(w) && Keyed(w.source) && AllPossible(w, steps)
    ensures AlwaysWhole(w, steps) <==> NoTieLeft(w, steps)
  {
    hide AlwaysWhole, NoTieLeft;
    AlwaysWholeFrom(w, steps);
  }

  lemma UncutLeavesNone(w: World, step: Step)
    requires Inv(w, true)
    ensures !LeavesTie(w, step)
  {
    hide Loaded, Unloaded, Flows;
    if step.Advance? && step.id in w.instances && w.instances[step.id].Advancing? {
      assert InstanceFits(w, w.instances[step.id], true);
      AdvanceLoads(w, w.instances[step.id].next, true);
    }
  }

  /** While the adapter cuts no tie, none is left half loaded. */
  lemma {:induction false} RunKeeps(w: World, steps: seq<Step>)
    requires Inv(w, true) && AllPossible(w, steps) && AllUncut(w, steps)
    ensures Inv(RunSteps(w, steps), true)
    decreases |steps|
  {
    hide Inv, Next, Possible, Uncut, LeavesTie;
    if steps != [] {
      UncutLeavesNone(w, steps[0]);
      NextKeeps(w, steps[0], true);
      RunKeeps(Next(w, steps[0]), steps[1..]);
    }
  }

  /** Main result: with any number of overlapping, retried, replayed or failing instances, every event
      after the origin and up to the second of the stored watermark has been staged, and the loaded
      table holds it, once, if the adapter cut no tie. */
  lemma EtlSafety(w: World, steps: seq<Step>, e: Event)
    requires Fresh(w) && Keyed(w.source) && AllPossible(w, steps) && AllUncut(w, steps)
    ensures var v := RunSteps(w, steps);
            var mark := WatermarkOf(v.row);
            var at := Place(v.table, e.uuid);
            && (mark.Some? ==> v.origin.Some?)
            && (mark.Some? && e in v.source && v.origin.value < e.ts <= FloorSec(mark.value) ==>
                  && e in v.staging && at < |v.table| && v.table[at] == e
                  && (forall i :: 0 <= i < |v.table| && v.table[i].uuid == e.uuid ==> i == at))
  {
    hide RunSteps, AllPossible, AllUncut, FloorSec;
    RunKeeps(w, steps);
    var v := RunSteps(w, steps);
    if e in v.table {
      var i :| 0 <= i < |v.table| && v.table[i] == e;
      assert e in Elements(v.table) && e in Elements(v.staging);
    }
  }

  /** Main result: no step of any instance, in any order, lowers the stored watermark. */
  lemma {:induction false} WatermarkNeverDecreases(w: World, steps: seq<Step>)
    ensures var before, after := WatermarkOf(w.row), WatermarkOf(RunSteps(w, steps).row);
            before.Some? ==> after.Some? && before.value <= after.value
    decreases |steps|
  {
    hide Dedup, Guarded;
    if steps != [] {
      WatermarkNeverDecreases(Next(w, steps[0]), steps[1..]);
    }
  }

  // ---- the overlap guard -------------------------------------------------------------------

  /** Somebody has marked the row and not yet freed it: a live instance, or a dispatcher about to create one. */
  predicate Claimed(w: World) {
    w.instances != map[] || exists d :: d in w.dispatchers && Waits(w, d, ToCreate)
  }

  predicate RunningFlag(w: World) {
    w.row.Some? && w.row.value.running
  }

  /** No claim outlives the stale limit, and no finished clear is re-run. */
  predicate Timely(w: World, step: Step) {
    match step
    case ReadRow(_, now) => Claimed(w) && RunningFlag(w) ==> !IsStaleRunning(w.row.value.lastRunAt, now)
    case Clear(_, recorded) => recorded
    case _ => true
  }

  /** No dispatcher passes the guard while another is between the guard and its mark. */
  predicate Apart(w: World, step: Step) {
    step.ReadRow? && !Guarded(w.row, step.now) ==> forall d :: d in w.dispatchers && d != step.d ==> !Waits(w, d, ToMark)
  }

  ghost predicate AllTimely(w: World, steps: seq<Step>)
    decreases |steps|
  {
    steps == [] || (Timely(w, steps[0]) && AllTimely(Next(w, steps[0]), steps[1..]))
  }

  ghost predicate AllApart(w: World, steps: seq<Step>)
    decreases |steps|
  {
    steps == [] || (Apart(w, steps[0]) && AllApart(Next(w, steps[0]), steps[1..]))
  }

  predicate AtMostOne(w: World) {
    forall i, j :: i in w.instances && j in w.instances ==> i == j
  }

  /** One instance or one dispatcher at most, and the flag is up from its mark on. */
  predicate Exclusive(w: World) {
    && AtMostOne(w)
    && (forall d, e :: d in w.dispatchers && e in w.dispatchers ==> d == e)
    && (w.instances == map[] || w.dispatchers == map[])
    && (Claimed(w) ==> RunningFlag(w))
  }

  lemma InstanceStepExclusive(w: World, step: Step)
    requires Exclusive(w) && Timely(w, step) && !Dispatching(step)
    ensures Exclusive(Next(w, step))
  {
    hide Dedup, FloorSec;
    var v := Next(w, step);
    assert v.dispatchers == w.dispatchers;
    if !step.Arrive? && !step.Roll? && step.id in w.instances {
      assert forall k :: k in v.instances ==> k == step.id;
      assert v.instances != map[] ==> RunningFlag(v);
    }
  }

  lemma DispatcherExclusive(w: World, step: Step)
    requires Exclusive(w) && Timely(w, step) && Apart(w, step) && Dispatching(step)
    ensures Exclusive(Next(w, step))
  {
    hide IsStaleRunning;
    var v := Next(w, step);
    match step
    case ReadRow(d, now) =>
      if d !in w.dispatchers && !Guarded(w.row, now) {
        assert !Claimed(w);
        NobodyElse(w, d);
        assert v.dispatchers == map[d := ToMark];
      }
    case Mark(d, now) =>
      if Waits(w, d, ToMark) { assert v.dispatchers == map[d := ToCreate]; }
    case Create(d, id, works) =>
      if Waits(w, d, ToCreate) { assert Claimed(w) && v.dispatchers == map[]; }
    case Drop(d) => assert v.dispatchers == map[] || v == w;
  }

  lemma NobodyElse(w: World, d: nat)
    requires !Claimed(w) && d !in w.dispatchers && forall e :: e in w.dispatchers && e != d ==> !Waits(w, e, ToMark)
    ensures w.dispatchers == map[]
  {
    forall e ensures e !in w.dispatchers {
      assert !Waits(w, e, ToCreate) && (e != d ==> !Waits(w, e, ToMark));
    }
  }

  /** Main result: while claims are timely and dispatchers pass the guard apart, the guard keeps the
      instances apart. */
  lemma {:induction false} OneAtATime(w: World, steps: seq<Step>)
    requires Exclusive(w) && AllTimely(w, steps) && AllApart(w, steps)
    ensures Exclusive(RunSteps(w, steps))
    decreases |steps|
  {
    hide Exclusive, Timely, Apart, Next;
    if steps != [] {
      if Dispatching(steps[0]) { DispatcherExclusive(w, steps[0]); } else { InstanceStepExclusive(w, steps[0]); }
      OneAtATime(Next(w, steps[0]), steps[1..]);
    }
  }

  // ---- exactly when one instance is kept ---------------------------------------------------

  /** Whatever timely steps follow, with dispatchers passing the guard apart, one instance at most. */
  ghost predicate StaysOne(w: World) {
    forall steps :: AllTimely(w, steps) && AllApart(w, steps) ==> AtMostOne(RunSteps(w, steps))
  }

  lemma TwoLive(w: World)
    requires !AtMostOne(w)
    ensures !StaysOne(w)
  {
    hide AtMostOne;
    assert AllTimely(w, []) && AllApart(w, []) && RunSteps(w, []) == w;
  }

  lemma StepBack(w: World, step: Step)
    requires Timely(w, step) && Apart(w, step) && !StaysOne(Next(w, step))
    ensures !StaysOne(w)
  {
    hide AtMostOne, Timely, Apart, Next;
    var v := Next(w, step);
    var steps :| AllTimely(v, steps) && AllApart(v, steps) && !AtMostOne(RunSteps(v, steps));
    var all := [step] + steps;
    assert all[0] == step && all[1..] == steps;
    assert AllTimely(w, all) && AllApart(w, all) && RunSteps(w, all) == RunSteps(v, steps);
  }

  lemma LiveAndToCreate(w: World, id: nat, d: nat)
    requires id in w.instances && Waits(w, d, ToCreate)
    ensures !StaysOne(w)
  {
    var n := FreeNumber(w.instances.Keys);
    var step := Create(d, n, true);
    var v := Next(w, step);
    assert id in v.instances && n in v.instances && n != id;
    TwoLive(v);
    StepBack(w, step);
  }

  lemma LiveAndDispatcher(w: World, id: nat, d: nat)
    requires id in w.instances && d in w.dispatchers
    ensures !StaysOne(w)
  {
    hide StaysOne;
    if w.dispatchers[d].ToMark? {
      LiveAndToCreate(Next(w, Mark(d, 0)), id, d);
      StepBack(w, Mark(d, 0));
    } else {
      LiveAndToCreate(w, id, d);
    }
  }

  lemma ToCreateAndOther(w: World, d: nat, e: nat)
    requires d != e && Waits(w, d, ToCreate) && e in w.dispatchers
    ensures !StaysOne(w)
  {
    hide StaysOne;
    var n := FreeNumber(w.instances.Keys);
    LiveAndDispatcher(Next(w, Create(d, n, true)), n, e);
    StepBack(w, Create(d, n, true));
  }

  lemma TwoDispatchers(w: World, d: nat, e: nat)
    requires d != e && d in w.dispatchers && e in w.dispatchers
    ensures !StaysOne(w)
  {
    hide StaysOne;
    if w.dispatchers[d].ToMark? {
      ToCreateAndOther(Next(w, Mark(d, 0)), d, e);
      StepBack(w, Mark(d, 0));
    } else {
      ToCreateAndOther(w, d, e);
    }
  }

  /** A claim whose flag is down lets the next tick in. */
  lemma ClaimWithoutFlag(w: World)
    requires Claimed(w) && !RunningFlag(w)
    requires forall d, e :: d in w.dispatchers && e in w.dispatchers ==> d == e
    requires w.instances == map[] || w.dispatchers == map[]
    ensures !StaysOne(w)
  {
    hide StaysOne;
    var n := FreeNumber(w.dispatchers.Keys);
    var step := ReadRow(n, 0);
    var v := Next(w, step);
    assert v.dispatchers == w.dispatchers[n := ToMark];
    if w.instances != map[] {
      var id :| id in w.instances;
      LiveAndDispatcher(v, id, n);
    } else {
      var d :| d in w.dispatchers && Waits(w, d, ToCreate);
      assert d in v.dispatchers && n in v.dispatchers && d != n;
      TwoDispatchers(v, d, n);
    }
    StepBack(w, step);
  }

  /** Main result: a state keeps one instance for good exactly when it holds at most one instance or
      dispatcher in all, with the flag up once the row is marked. */
  lemma StaysOneExactlyWhen(w: World)
    ensures StaysOne(w) <==> Exclusive(w)
  {
    hide Timely, Apart, Next, RunningFlag, Claimed, AtMostOne;
    if Exclusive(w) {
      forall steps | AllTimely(w, steps) && AllApart(w, steps) ensures AtMostOne(RunSteps(w, steps)) {
        OneAtATime(w, steps);
      }
    } else if !AtMostOne(w) {
      TwoLive(w);
    } else if d, e :| d in w.dispatchers && e in w.dispatchers && d != e {
      TwoDispatchers(w, d, e);
    } else if w.instances != map[] && w.dispatchers != map[] {
      var id :| id in w.instances;
      var d :| d in w.dispatchers;
      LiveAndDispatcher(w, id, d);
    } else {
      ClaimWithoutFlag(w);
    }
  }

  /** A mark is safe exactly when no instance lives and no other dispatcher is on its way. */
  lemma MarkKeepsOneExactlyWhen(w: World, d: nat, now: int)
    requires Waits(w, d, ToMark)
    ensures StaysOne(Next(w, Mark(d, now))) <==> w.instances == map[] && w.dispatchers.Keys == {d}
  {
    hide StaysOne;
    var v := Next(w, Mark(d, now));
    StaysOneExactlyWhen(v);
    assert v.dispatchers.Keys == w.dispatchers.Keys && v.instances == w.instances && RunningFlag(v) && Waits(v, d, ToCreate);
    assert w.dispatchers.Keys == {d} ==> forall e :: e in v.dispatchers ==> e == d;
    assert d in v.dispatchers;
  }

  /** Passing the guard is safe exactly when no instance lives and no dispatcher is on its way. */
  lemma GuardKeepsOneExactlyWhen(w: World, d: nat, now: int)
    requires d !in w.dispatchers && !Guarded(w.row, now)
    ensures StaysOne(Next(w, ReadRow(d, now))) <==> w.instances == map[] && w.dispatchers == map[]
  {
    hide StaysOne;
    var v := Next(w, ReadRow(d, now));
    StaysOneExactlyWhen(v);
    assert v.dispatchers == w.dispatchers[d := ToMark] && v.instances == w.instances && d in v.dispatchers;
    if w.dispatchers == map[] {
      assert forall e :: e in v.dispatchers ==> e == d && v.dispatchers[e] == ToMark;
    } else {
      var e :| e in w.dispatchers;
      assert e in v.dispatchers && e != d;
    }
  }

  /** Two ticks that both read before either marks: each step is timely, and two instances live. */
  lemma RacingDispatch(w: World, now: int)
    requires Fresh(w)
    ensures var steps := [ReadRow(0, now), ReadRow(1, now), Mark(0, now), Mark(1, now), Create(0, 0, true), Create(1, 1, true)];
            AllTimely(w, steps) && RunSteps(w, steps).instances.Keys == {0, 1}
  {
    var late := [Mark(0, now), Mark(1, now), Create(0, 0, true), Create(1, 1, true)];
    var steps := [ReadRow(0, now), ReadRow(1, now)] + late;
    assert steps == [ReadRow(0, now), ReadRow(1, now), Mark(0, now), Mark(1, now), Create(0, 0, true), Create(1, 1, true)];
    var v := Next(w, ReadRow(0, now));
    var u := Next(v, ReadRow(1, now));
    assert steps[1..] == [ReadRow(1, now)] + late && steps[1..][1..] == late;
    BothPassed(u, now);
  }

  lemma BothPassed(w: World, now: int)
    requires Waits(w, 0, ToMark) && Waits(w, 1, ToMark) && w.instances == map[]
    ensures var late := [Mark(0, now), Mark(1, now), Create(0, 0, true), Create(1, 1, true)];
            AllTimely(w, late) && RunSteps(w, late).instances.Keys == {0, 1}
  {
    var made := [Create(0, 0, true), Create(1, 1, true)];
    var late := [Mark(0, now), Mark(1, now), Create(0, 0, true), Create(1, 1, true)];
    assert late[1..] == [Mark(1, now)] + made && late[1..][1..] == made;
    BothMarked(Next(Next(w, Mark(0, now)), Mark(1, now)));
  }

  lemma BothMarked(w: World)
    requires Waits(w, 0, ToCreate) && Waits(w, 1, ToCreate) && w.instances == map[]
    ensures var made := [Create(0, 0, true), Create(1, 1, true)];
            AllTimely(w, made) && RunSteps(w, made).instances.Keys == {0, 1}
  {
    var made := [Create(0, 0, true), Create(1, 1, true)];
    assert made[1..] == [Create(1, 1, true)] && made[1..][1..] == [];
    assert RunSteps(w, made) == Next(Next(w, made[0]), made[1]);
  }

  /** A dispatch that nothing interrupts is the one call of the dispatcher. */
  lemma DispatchRun(w: World, d: nat, id: nat, now: int, works: bool)
    requires d !in w.dispatchers
    ensures var v := Next(Next(Next(w, ReadRow(d, now)), Mark(d, now)), Create(d, id, works));
            && v.dispatchers == w.dispatchers
            && v.row == (if Guarded(w.row, now) then w.row else MarkedRunning(w.row, now))
            && v.instances == (if !Guarded(w.row, now) && works && id !in w.instances then w.instances[id := Reading] else w.instances)
  {
    hide MarkedRunning, Guarded;
    var v := Next(Next(Next(w, ReadRow(d, now)), Mark(d, now)), Create(d, id, works));
    assert v.dispatchers == w.dispatchers;
  }

  // ---- one run -----------------------------------------------------------------------------

  /** The fact build, a row at a time. */
  method BuildTable(rows: seq<Event>) returns (table: seq<Event>)
    ensures table == Dedup(rows)
  {
    table := [];
    for i := 0 to |rows|
      invariant table == Dedup(rows[..i])
    {
      assert rows[..i + 1][..i] == rows[..i];
      var k := Place(table, rows[i].uuid);
      if k == |table| {
        table := table + [rows[i]];
      } else if table[k].ts < rows[i].ts {
        table := table[k := rows[i]];
      }
    }
    assert rows[..|rows|] == rows;
  }

  /** What was pulled is in the table that is built. */
  lemma RecordsLoaded(staging: seq<Event>, known: set<Event>, records: seq<Event>)
    requires (forall x :: x in staging ==> x in known) && forall x :: x in records ==> x in staging
    ensures Keyed(known) ==> forall e :: e in Elements(records) ==> e in Dedup(staging)
  {
    hide Dedup;
    if Keyed(known) {
      forall e | e in Elements(records) ensures e in Dedup(staging) {
        DedupKeeps(staging, known, e);
      }
    }
  }

  /** A pipeline with its stream, staging area, loaded table and cursor row. */
  class Pipeline {
    const id: string
    const store: Store
    var buffered: seq<Event>
    var staging: seq<Event>
    var table: seq<Event>

    constructor (id: string, store: Store)
      ensures this.id == id && this.store == store && buffered == staging == table == []
    {
      this.id := id;
      this.store := store;
      buffered, staging, table := [], [], [];
    }

    /** The sends of the extract step, in chunks. */
    method SendAll(records: seq<Event>)
      modifies this`buffered
      ensures buffered == old(buffered) + records
    {
      var i := 0;
      while i < |records|
        invariant 0 <= i <= |records| && buffered == old(buffered) + records[..i]
      {
        var upto := if i + STREAM_CHUNK < |records| then i + STREAM_CHUNK else |records|;
        buffered := buffered + records[i..upto];
        assert records[..i] + records[i..upto] == records[..upto];
        i := upto;
      }
      assert records[..|records|] == records;
    }

    /** An uninterrupted run over a source; the settle sleep outlasts the roll of everything sent. */
    method Run(source: seq<Event>, now: int, cutoffs: seq<int>)
      returns (records: seq<Event>, next: Option<int>, ghost drawn: seq<seq<Event>>)
      requires Ordered(source) && DistinctUuids(source) && |cutoffs| == MAX_PAGES
      modifies this, store
      ensures records == [] ==>
                && buffered == old(buffered) && staging == old(staging) && table == old(table)
                && store.Row(id) == Cleared(old(store.Row(id)), "ok", Some(0))
      ensures records != [] ==>
                && next.Some? && buffered == [] && staging == old(staging) + old(buffered) + records
                && table == Dedup(staging)
                && store.Row(id) == Cleared(Advanced(old(store.Row(id)), next.value), "ok", Some(|records|))
      ensures var cursor := WatermarkOf(old(store.Row(id)));
              var start := if cursor.Some? then cursor.value else now - DAY;
              && |drawn| <= MAX_PAGES && Chain(Elements(source), start, cutoffs[..|drawn|], drawn) && Ended(start, drawn, MAX_PAGES)
              && Elements(records) == EventsOf(drawn) && (records != [] ==> next == Some(AfterAll(start, drawn)))
              && (records == [] <==> forall e :: e in source ==> !(FloorSec(start) < e.ts < cutoffs[0]))
      ensures Keyed(Elements(source) + Elements(old(buffered)) + Elements(old(staging))) ==>
                forall e :: e in EventsOf(drawn) ==> e in table
      ensures store.OnlyRow(id)
    {
      hide Dedup, Holds, FloorSec, DistinctUuids, Chain, Ended, AfterAll, EventsOf, NoCuts, Keyed;
      var cursor := WatermarkOf(store.Row(id));
      records, next, drawn := Extract(source, cursor, now, cutoffs);
      ghost var known := Elements(source) + Elements(buffered) + Elements(staging);
      SendAll(records);
      if |records| == 0 {
        store.ClearRunning(id, "ok", Some(0));
        return;
      }
      staging := staging + buffered;
      buffered := [];
      table := BuildTable(staging);
      RecordsLoaded(staging, known, records);
      store.Advance(id, next.value);
      store.ClearRunning(id, "ok", Some(|records|));
    }
  }
}
