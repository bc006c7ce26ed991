/** The cursor row of a pipeline, and the dispatcher's overlap guard. */
module CursorStore {

  import opened Text

  /** Times and watermarks as numbers; ISO strings of one format compare the same way. */
  datatype CursorRow = CursorRow(
    watermark: Option<int>, lastRunAt: Option<int>, lastStatus: Option<string>, rows: Option<nat>, running: bool)

  const STALE_RUNNING: int := 21_600_000_000   // six hours, in microseconds

  function MarkedRunning(row: Option<CursorRow>, now: int): Option<CursorRow> {
    match row
    case None => Some(CursorRow(None, Some(now), None, None, true))
    case Some(r) => Some(r.(lastRunAt := Some(now), running := true))
  }

  function Cleared(row: Option<CursorRow>, status: string, rows: Option<nat>): Option<CursorRow> {
    match row
    case None => None
    case Some(r) => Some(r.(running := false, lastStatus := Some(status), rows := rows))
  }

  function Advanced(row: Option<CursorRow>, watermark: int): Option<CursorRow> {
    if row.Some? && (row.value.watermark.None? || row.value.watermark.value < watermark)
    then Some(row.value.(watermark := Some(watermark)))
    else row
  }

  predicate IsStaleRunning(lastRunAt: Option<int>, now: int) {
    lastRunAt.None? || now - lastRunAt.value > STALE_RUNNING
  }

  /** A tick is skipped while an earlier run is marked running and not stale. */
  predicate Guarded(row: Option<CursorRow>, now: int) {
    row.Some? && row.value.running && !IsStaleRunning(row.value.lastRunAt, now)
  }

  const BLANK: CursorRow := CursorRow(None, None, None, None, false)

  predicate SameOutcome(a: CursorRow, b: CursorRow) {
    a.lastStatus == b.lastStatus && a.rows == b.rows
  }

  /** An earlier run that was marked running and began at most six hours before. */
  predicate Underway(row: CursorRow, now: int) {
    row.running && row.lastRunAt.Some? && now <= row.lastRunAt.value + 6 * 3_600 * 1_000_000
  }

  /** The guard stops a tick exactly while an earlier run is underway. */
  lemma GuardedIsUnderway(row: Option<CursorRow>, now: int)
    ensures Guarded(row, now) <==> row.Some? && Underway(row.value, now)
  {
  }

  datatype Dispatched = Created | Skipped | Unknown

  /** The cursor table, one row per pipeline. */
  class Store {
    var cursors: map<string, CursorRow>

    constructor ()
      ensures cursors == map[]
    {
      cursors := map[];
    }

    function Row(id: string): Option<CursorRow>
      reads this
    {
      if id in cursors then Some(cursors[id]) else None
    }

    /** What every method leaves alone: the rows of the other pipelines. */
    twostate predicate OnlyRow(id: string)
      reads this
    {
      forall other :: other != id ==> Row(other) == old(Row(other))
    }

    method MarkRunning(id: string, now: int)
      modifies this
      ensures Row(id) == MarkedRunning(old(Row(id)), now) && OnlyRow(id)
      ensures id in cursors && cursors[id].running && cursors[id].lastRunAt == Some(now)
      ensures if id in old(cursors) then SameOutcome(old(cursors)[id], cursors[id]) && cursors[id].watermark == old(cursors)[id].watermark
              else SameOutcome(BLANK, cursors[id]) && cursors[id].watermark == None
    {
      if id in cursors {
        cursors := cursors[id := cursors[id].(lastRunAt := Some(now), running := true)];
      } else {
        cursors := cursors[id := CursorRow(None, Some(now), None, None, true)];
      }
    }

    method ClearRunning(id: string, status: string, rows: Option<nat>)
      modifies this
      ensures Row(id) == Cleared(old(Row(id)), status, rows) && OnlyRow(id)
      ensures id in cursors <==> id in old(cursors)
      ensures id in cursors ==>
                && !cursors[id].running && cursors[id].lastStatus == Some(status) && cursors[id].rows == rows
                && cursors[id].watermark == old(cursors)[id].watermark && cursors[id].lastRunAt == old(cursors)[id].lastRunAt
    {
      if id in cursors {
        cursors := cursors[id := cursors[id].(running := false, lastStatus := Some(status), rows := rows)];
      }
    }

    /** UPDATE ... WHERE watermark IS NULL OR watermark < ?. */
    method Advance(id: string, watermark: int)
      modifies this
      ensures Row(id) == Advanced(old(Row(id)), watermark) && OnlyRow(id)
      ensures id in cursors <==> id in old(cursors)
      ensures id in cursors ==>
                var was := old(cursors)[id].watermark;
                && cursors[id].watermark == Some(if was.Some? && was.value > watermark then was.value else watermark)
                && SameOutcome(old(cursors)[id], cursors[id])
                && cursors[id].running == old(cursors)[id].running && cursors[id].lastRunAt == old(cursors)[id].lastRunAt
    {
      if id in cursors && (cursors[id].watermark.None? || cursors[id].watermark.value < watermark) {
        cursors := cursors[id := cursors[id].(watermark := Some(watermark))];
      }
    }

    /** One dispatch; `createWorks` is whether the workflow instance could be created. */
    method Dispatch(registry: set<string>, id: string, now: int, createWorks: bool) returns (r: Dispatched)
      modifies this
      ensures r == Unknown <==> id !in registry
      ensures r == Created <==> id in registry && !Guarded(old(Row(id)), now) && createWorks
      ensures Row(id) == if id in registry && !Guarded(old(Row(id)), now) then MarkedRunning(old(Row(id)), now) else old(Row(id))
      ensures OnlyRow(id)
      ensures var held := id in old(cursors) && Underway(old(cursors)[id], now);
              && (r == Created <==> id in registry && !held && createWorks)
              && (id in registry && !held ==> id in cursors && cursors[id].running && cursors[id].lastRunAt == Some(now))
              && (id !in registry || held ==> cursors == old(cursors))
    {
      if id !in registry { return Unknown; }
      var row := Row(id);
      if row.Some? && row.value.running && !IsStaleRunning(row.value.lastRunAt, now) {
        return Skipped;
      }
      MarkRunning(id, now);
      r := if createWorks then Created else Skipped;
    }
  }
}
