/** The steps of one workflow instance taken together: what a whole run leaves, and a run whose extract
    step is done twice. */
module EtlRun {

  import opened Text
  import opened PostHogPages
  import opened CursorStore
  import opened EtlWorkflow

  /** Some steps lead from one state to the other. */
  ghost predicate Leads(w: World, v: World) {
    exists steps :: AllPossible(w, steps) && RunSteps(w, steps) == v
  }

  lemma LeadSelf(w: World)
    ensures Leads(w, w)
  {
    assert AllPossible(w, []) && RunSteps(w, []) == w;
  }

  lemma LeadStep(w: World, step: Step)
    requires Possible(w, step)
    ensures Leads(w, Next(w, step))
  {
    hide Next, Possible;
    assert [step][1..] == [] && RunSteps(w, [step]) == RunSteps(Next(w, step), []);
    assert AllPossible(w, [step]);
  }

  lemma LeadTrans(w: World, v: World, u: World)
    requires Leads(w, v) && Leads(v, u)
    ensures Leads(w, u)
  {
    hide AllPossible, RunSteps;
    var a :| AllPossible(w, a) && RunSteps(w, a) == v;
    var b :| AllPossible(v, b) && RunSteps(v, b) == u;
    Appended(w, a, b);
    assert AllPossible(w, a + b) && RunSteps(w, a + b) == u;
  }

  lemma {:induction false} Appended(w: World, a: seq<Step>, b: seq<Step>)
    requires AllPossible(w, a) && AllPossible(RunSteps(w, a), b)
    ensures AllPossible(w, a + b) && RunSteps(w, a + b) == RunSteps(RunSteps(w, a), b)
    decreases |a|
  {
    hide Possible, Next;
    if a == [] {
      assert a + b == b;
    } else {
      assert (a + b)[0] == a[0] && (a + b)[1..] == a[1..] + b;
      Appended(Next(w, a[0]), a[1..], b);
    }
  }

  /** Two steps, and three. */
  lemma LeadTwo(w: World, a: Step, b: Step)
    requires Possible(w, a) && Possible(Next(w, a), b)
    ensures Leads(w, Next(Next(w, a), b))
  {
    hide *;
    LeadStep(w, a);
    LeadStep(Next(w, a), b);
    LeadTrans(w, Next(w, a), Next(Next(w, a), b));
  }

  // ---- the stages of one instance ----------------------------------------------------------

  /** What the extract step of an instance may get from its adapter. */
  ghost predicate Extracted(w: World, start: int, cutoff: int, records: seq<Event>, next: int) {
    Elements(records) <= w.source && FloorSec(next) < cutoff && Holds(w.source, start, records, next, false)
  }

  function StartOf(row: Option<CursorRow>, now: int): int {
    if WatermarkOf(row).Some? then WatermarkOf(row).value else now - DAY
  }

  /** The clock of a query, and the start of an extract without a cursor, are noted. */
  function Queried(w: World, cursor: Option<int>, now: int, cutoff: int): World {
    w.(horizon := if w.horizon < cutoff then cutoff else w.horizon,
       origin := if cursor.Some? then w.origin else MaxOrigin(w.origin, FloorSec(now - DAY)))
  }

  lemma PullStage(w: World, id: nat, cursor: Option<int>, now: int, cutoff: int, records: seq<Event>, next: int)
    requires id in w.instances && w.instances[id] == Extracting(cursor) && records != []
    requires Extracted(w, if cursor.Some? then cursor.value else now - DAY, cutoff, records, next)
    ensures var start := if cursor.Some? then cursor.value else now - DAY;
            Leads(w, Queried(w, cursor, now, cutoff).(instances := w.instances[id := Sending(cursor, start, records, next, 0)]))
  {
    hide FloorSec, Holds;
    LeadStep(w, Pull(id, now, cutoff, records, next));
    hide Leads;
  }

  /** The sends of an extract step, chunk by chunk. */
  lemma {:induction false} SendStage(w: World, id: nat)
    requires id in w.instances && w.instances[id].Sending? && w.instances[id].done <= |w.instances[id].records|
    ensures var i := w.instances[id];
            Leads(w, w.(buffered := w.buffered + i.records[i.done..], instances := w.instances[id := i.(done := |i.records|)]))
    decreases |w.instances[id].records| - w.instances[id].done
  {
    var i := w.instances[id];
    if i.done == |i.records| {
      assert w.buffered + i.records[i.done..] == w.buffered && w.instances[id := i] == w.instances;
      LeadSelf(w);
    } else {
      var v := Next(w, SendChunk(id));
      ChunkSent(w, id);
      LeadStep(w, SendChunk(id));
      hide Next, Leads;
      SendStage(v, id);
      assert v.instances[id := i.(done := |i.records|)] == w.instances[id := i.(done := |i.records|)];
      LeadTrans(w, v, v.(buffered := v.buffered + i.records[v.instances[id].done..], instances := v.instances[id := i.(done := |i.records|)]));
    }
  }

  lemma ChunkSent(w: World, id: nat)
    requires id in w.instances && w.instances[id].Sending? && w.instances[id].done < |w.instances[id].records|
    ensures var v := Next(w, SendChunk(id));
            && id in v.instances && v.instances[id].Sending?
            && var i, j := w.instances[id], v.instances[id];
               && i.done < j.done <= |i.records| && j == i.(done := j.done)
               && v == w.(buffered := v.buffered, instances := w.instances[id := j])
               && v.buffered + i.records[j.done..] == w.buffered + i.records[i.done..]
    ensures Possible(w, SendChunk(id))
  {
    var v := Next(w, SendChunk(id));
    var i, j := w.instances[id], v.instances[id];
    assert i.records[i.done..] == i.records[i.done..j.done] + i.records[j.done..];
  }

  /** From the last send to the end: the roll, the build, the advance and the outcome. */
  function Finished(w: World, id: nat, records: seq<Event>, next: int): World {
    var staged := w.staging + w.buffered;
    w.(buffered := [], staging := staged, table := Dedup(staged),
       row := Cleared(Advanced(w.row, next), "ok", Some(|records|)), instances := w.instances - {id})
  }

  lemma LoadStage(w: World, id: nat, start: int, records: seq<Event>, next: int)
    requires id in w.instances && w.instances[id] == Settling(start, records, next)
    requires Elements(records) <= Elements(w.staging + w.buffered)
    ensures var staged := w.staging + w.buffered;
            Leads(w, w.(buffered := [], staging := staged, table := Dedup(staged), instances := w.instances[id := Advancing(next, |records|)]))
  {
    hide Dedup;
    var n := |w.buffered|;
    var w1 := Next(w, Roll(n));
    var w2 := Next(w1, Wake(id));
    assert w.buffered[..n] == w.buffered && w.buffered[n..] == [];
    LeadTwo(w, Roll(n), Wake(id));
    LeadStep(w2, Load(id, true));
    var w3 := Next(w2, Load(id, true));
    assert w3.instances == w.instances[id := Advancing(next, |records|)];
    hide Leads, Next;
    LeadTrans(w, w2, w3);
  }

  lemma EndStage(w: World, id: nat, next: int, sent: nat)
    requires id in w.instances && w.instances[id] == Advancing(next, sent)
    ensures Leads(w, w.(row := Cleared(Advanced(w.row, next), "ok", Some(sent)), instances := w.instances - {id}))
  {
    var w1 := Next(w, Advance(id));
    assert w1.instances[id] == Clearing(Some(next), sent);
    LeadTwo(w, Advance(id), Clear(id, true));
    assert Next(w1, Clear(id, true)).instances == w.instances - {id};
    hide Leads;
  }

  lemma FinishStage(w: World, id: nat, cursor: Option<int>, start: int, records: seq<Event>, next: int)
    requires id in w.instances && w.instances[id] == Sending(cursor, start, records, next, |records|)
    requires Elements(records) <= Elements(w.staging + w.buffered)
    ensures Leads(w, Finished(w, id, records, next))
  {
    hide Dedup;
    var w1 := Next(w, SendChunk(id));
    LeadStep(w, SendChunk(id));
    var w2 := w1.(buffered := [], staging := w.staging + w.buffered, table := Dedup(w.staging + w.buffered),
                  instances := w1.instances[id := Advancing(next, |records|)]);
    assert w1 == w.(instances := w.instances[id := Settling(start, records, next)]);
    hide Leads, Next;
    LoadStage(w1, id, start, records, next);
    EndStage(w2, id, next, |records|);
    assert w2.instances - {id} == w.instances - {id};
    LeadTrans(w, w1, w2);
    LeadTrans(w, w2, Finished(w, id, records, next));
  }

  // ---- a whole run -------------------------------------------------------------------------

  /** The world with everything pulled and sent, the instance still in its extract step. */
  function Sent(w: World, id: nat, cursor: Option<int>, now: int, cutoff: int, records: seq<Event>, next: int): World {
    var start := if cursor.Some? then cursor.value else now - DAY;
    Queried(w, cursor, now, cutoff).(buffered := w.buffered + records,
                                     instances := w.instances[id := Sending(cursor, start, records, next, |records|)])
  }

  lemma PulledAndSent(w: World, id: nat, cursor: Option<int>, now: int, cutoff: int, records: seq<Event>, next: int)
    requires id in w.instances && w.instances[id] == Extracting(cursor) && records != []
    requires Extracted(w, if cursor.Some? then cursor.value else now - DAY, cutoff, records, next)
    ensures Leads(w, Sent(w, id, cursor, now, cutoff, records, next))
  {
    hide Leads, FloorSec, Holds;
    PullStage(w, id, cursor, now, cutoff, records, next);
    var i := Sending(cursor, if cursor.Some? then cursor.value else now - DAY, records, next, 0);
    var w2 := Queried(w, cursor, now, cutoff).(instances := w.instances[id := i]);
    SendStage(w2, id);
    assert records[0..] == records;
    assert w2.instances[id := i.(done := |records|)] == w.instances[id := i.(done := |records|)];
    LeadTrans(w, w2, Sent(w, id, cursor, now, cutoff, records, next));
  }

  lemma SentFinishes(w: World, id: nat, cursor: Option<int>, start: int, records: seq<Event>, next: int, before: seq<Event>)
    requires id in w.instances && w.instances[id] == Sending(cursor, start, records, next, |records|)
    requires w.buffered == before + records
    ensures Leads(w, Finished(w, id, records, next))
  {
    hide *;
    SentIsThere(w.staging, before, records);
    FinishStage(w, id, cursor, start, records, next);
  }

  /** Main result: the steps of an instance, taken without interruption, are the run of the pipeline as an
      object: what was sent is staged, the table is rebuilt, the watermark moves up and the row is cleared. */
  lemma RunIsSteps(w: World, id: nat, now: int, cutoff: int, records: seq<Event>, next: int)
    requires id in w.instances && w.instances[id].Reading? && records != []
    requires Extracted(w, StartOf(w.row, now), cutoff, records, next)
    ensures Leads(w, Finished(Queried(w, WatermarkOf(w.row), now, cutoff).(buffered := w.buffered + records), id, records, next))
  {
    var cursor := WatermarkOf(w.row);
    var w1 := w.(instances := w.instances[id := Extracting(cursor)]);
    LeadStep(w, ReadCursor(id));
    assert Next(w, ReadCursor(id)) == w1;
    hide Leads, Next, FloorSec, Holds, Dedup;
    PulledAndSent(w1, id, cursor, now, cutoff, records, next);
    var w2 := Sent(w1, id, cursor, now, cutoff, records, next);
    SentFinishes(w2, id, cursor, StartOf(w.row, now), records, next, w.buffered);
    assert w2.instances - {id} == w.instances - {id};
    LeadTrans(w, w1, w2);
    LeadTrans(w, w2, Finished(w2, id, records, next));
  }

  lemma SentIsThere(staging: seq<Event>, buffered: seq<Event>, records: seq<Event>)
    ensures Elements(records) <= Elements(staging + (buffered + records))
  {
    var all := staging + (buffered + records);
    forall e | e in records ensures e in all {
      var k :| 0 <= k < |records| && records[k] == e;
      assert all[|staging| + |buffered| + k] == e;
    }
  }

  /** A run that pulls nothing only clears its row. */
  lemma EmptyRun(w: World, id: nat, now: int, cutoff: int, next: int)
    requires id in w.instances && w.instances[id].Reading?
    requires Extracted(w, StartOf(w.row, now), cutoff, [], next)
    ensures Leads(w, Queried(w, WatermarkOf(w.row), now, cutoff).(row := Cleared(w.row, "ok", Some(0)), instances := w.instances - {id}))
  {
    hide FloorSec, Holds;
    var cursor := WatermarkOf(w.row);
    var w1 := w.(instances := w.instances[id := Extracting(cursor)]);
    LeadStep(w, ReadCursor(id));
    LeadTwo(w1, Pull(id, now, cutoff, [], next), Clear(id, true));
    var v := Queried(w, cursor, now, cutoff).(row := Cleared(w.row, "ok", Some(0)), instances := w.instances - {id});
    assert Next(Next(w1, Pull(id, now, cutoff, [], next)), Clear(id, true)).instances == v.instances;
    hide Leads;
    LeadTrans(w, w1, v);
  }

  /** An extract step that fails after its sends and runs again stages everything twice, and the table
      that is built still has each event once. */
  lemma RetriedRun(w: World, id: nat, now: int, cutoff: int, records: seq<Event>, next: int)
    requires id in w.instances && w.instances[id].Reading? && records != []
    requires Extracted(w, StartOf(w.row, now), cutoff, records, next)
    ensures var v := Finished(Queried(w, WatermarkOf(w.row), now, cutoff).(buffered := w.buffered + records + records), id, records, next);
            && Leads(w, v) && DistinctUuids(v.table)
            && v.staging == w.staging + (w.buffered + records + records)
  {
    var cursor := WatermarkOf(w.row);
    var w1 := w.(instances := w.instances[id := Extracting(cursor)]);
    LeadStep(w, ReadCursor(id));
    assert Next(w, ReadCursor(id)) == w1;
    hide FloorSec, Holds, Dedup, Leads;
    var w2 := Sent(w1, id, cursor, now, cutoff, records, next);
    var w3 := w2.(instances := w2.instances[id := Extracting(cursor)]);
    LeadStep(w2, Retry(id, false));
    assert Next(w2, Retry(id, false)) == w3;
    hide Next;
    PulledAndSent(w1, id, cursor, now, cutoff, records, next);
    PulledAndSent(w3, id, cursor, now, cutoff, records, next);
    var w4 := Sent(w3, id, cursor, now, cutoff, records, next);
    SentFinishes(w4, id, cursor, StartOf(w.row, now), records, next, w.buffered + records);
    assert w4.instances - {id} == w.instances - {id};
    DedupSpec(w.staging + (w.buffered + records + records));
    LeadTrans(w, w1, w2);
    LeadTrans(w, w2, w3);
    LeadTrans(w, w3, w4);
    LeadTrans(w, w4, Finished(w4, id, records, next));
  }

  /** An instance that fails frees the flag and leaves the watermark where it is. */
  lemma FailureFrees(w: World, id: nat)
    requires id in w.instances && w.row.Some?
    ensures var v := Next(w, Fail(id));
            && v.row.Some? && !v.row.value.running && v.row.value.watermark == w.row.value.watermark
            && id !in v.instances && v.staging == w.staging && v.table == w.table
  {
  }
}
