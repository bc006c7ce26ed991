/** What becomes of a revoke: its latest enqueue is held by its row, or has been delivered since. */
module GatewayRevokes {

  import opened GatewayOutbox

  /** The row the latest enqueue wrote is still there. */
  predicate Held(rows: seq<Row>, id: nat) {
    exists i :: 0 <= i < |rows| && rows[i].id == id
  }

  /** Its payload was sent by an attempt begun after the enqueue. */
  predicate DeliveredSince(w: World, s: Subject)
    requires s in w.asked
  {
    exists d :: d in w.revoked && d.subject == s && d.payload == w.asked[s].payload && w.asked[s].at < d.since
  }

  /** No revoke is lost: `HeldIsWhole` shows that the row, pending or given up, holds the payload asked for. */
  ghost predicate Kept(w: World) {
    forall s :: s in w.asked ==> Held(w.box.rows, w.asked[s].id) || DeliveredSince(w, s)
  }

  // ---- rows, copies and enqueues -----------------------------------------------------------

  /** A row written by the latest enqueue of its subject, or one that no enqueue will write again. */
  predicate RowTraced(r: Row, asked: map<Subject, Ask>) {
    r.kind.Revoke? ==>
      && SubjectOf(r) in asked
      && (r.id == asked[SubjectOf(r)].id ==> r.payload == asked[SubjectOf(r)].payload)
      && (r.status.Pending? ==> r.id == asked[SubjectOf(r)].id)
  }

  /** A copy taken after the latest enqueue of its subject is a copy of what that enqueue wrote. */
  predicate CopyTraced(q: Worker, asked: map<Subject, Ask>) {
    q.row.kind.Revoke? && SubjectOf(q.row) in asked && asked[SubjectOf(q.row)].at < q.picked ==>
      q.row.payload == asked[SubjectOf(q.row)].payload
  }

  ghost predicate Traced(w: World) {
    && Coalesced(w.box)
    && (forall i :: 0 <= i < |w.box.rows| ==> RowTraced(w.box.rows[i], w.asked))
    && (forall i, s :: 0 <= i < |w.box.rows| && s in w.asked && w.box.rows[i].id == w.asked[s].id ==>
          w.box.rows[i].kind.Revoke? && SubjectOf(w.box.rows[i]) == s)
    && (forall s :: s in w.asked ==> w.asked[s].id < w.box.nextId && w.asked[s].at < w.clock)
  }

  /** A worker's copy and the row of its id are about the same thing. */
  ghost predicate Matched(w: World) {
    forall k :: k in w.workers ==>
      && w.workers[k].row.id < w.box.nextId && w.workers[k].picked < w.clock
      && (w.workers[k].Attempting? ==> w.workers[k].picked < w.workers[k].since < w.clock)
      && CopyTraced(w.workers[k], w.asked)
      && forall i :: 0 <= i < |w.box.rows| && w.box.rows[i].id == w.workers[k].row.id ==> SameRow(w.workers[k].row, w.box.rows[i])
  }

  /** Does this worker's success delete a row? */
  predicate Deletes(w: World, k: nat) {
    && k in w.workers && w.workers[k].Attempting?
    && var i := At(w.box.rows, w.workers[k].row.id);
       i < |w.box.rows| && w.box.rows[i].kind.Revoke?
  }

  /** The subject of the deleted row. */
  function About(w: World, k: nat): Subject
    requires Deletes(w, k)
  {
    SubjectOf(w.box.rows[At(w.box.rows, w.workers[k].row.id)])
  }

  /** The deleted row holds the latest enqueue of its subject, and what was sent is not that: another
      payload, or the same one in an attempt begun before the enqueue. */
  predicate Overtaken(w: World, k: nat) {
    && Deletes(w, k) && About(w, k) in w.asked
    && var ask := w.asked[About(w, k)];
       ask.id == w.workers[k].row.id && (w.workers[k].row.payload != ask.payload || w.workers[k].since <= ask.at)
  }

  /** Nor has any other delivery of that payload begun since. */
  predicate Undelivered(w: World, k: nat) {
    Overtaken(w, k) && !DeliveredSince(w, About(w, k))
  }

  // ---- rows from one state to the next -----------------------------------------------------

  /** Where a row of the next state comes from: an enqueue, or a row it differs from in its schedule only. */
  lemma RowsFrom(w: World, step: Step, i: nat)
    requires i < |Next(w, step).box.rows|
    ensures var v := Next(w, step); var r := v.box.rows[i];
            if step.EnqueueRevoke? && i == PendingRevokeAt(w.box.rows, step.datalake, step.dedup) then
              r.id == AskedId(w.box, step.datalake, step.dedup) && r.kind.Revoke?
              && r.datalake == step.datalake && r.dedup == step.dedup && r.payload == step.payload
            else if step.EnqueueRevoke? then i < |w.box.rows| && r == w.box.rows[i]
            else
              (r.id == w.box.nextId && r.kind.Snapshot?)
              || exists j :: 0 <= j < |w.box.rows| && SameRow(w.box.rows[j], r) && r.payload == w.box.rows[j].payload
                   && (r.status.Pending? && r.kind.Revoke? ==> w.box.rows[j].status.Pending?)
  {
    hide MarkedDelivered, MarkedFailed, SnapshotEnqueued, RevokeEnqueued;
    match step
    case EnqueueSnapshot(d, now) => SnapshotRows(w.box, d, now, i);
    case EnqueueRevoke(d, dedup, payload, now) => RevokeRows(w.box, d, dedup, payload, now, i);
    case Succeed(k) =>
      if k in w.workers && w.workers[k].Attempting? {
        var j := FromDelivered(w.box.rows, w.workers[k].row.id, i);
      }
    case FailAttempt(k, now) =>
      if k in w.workers && w.workers[k].Attempting? {
        FailedRows(w.box.rows, w.workers[k].row.id, w.workers[k].row.attempts, now, i);
      }
    case _ =>
  }

  lemma SnapshotRows(box: Outbox, d: string, now: int, i: nat)
    requires i < |SnapshotEnqueued(box, d, now).rows|
    ensures var r := SnapshotEnqueued(box, d, now).rows[i];
            if i < |box.rows| then SameRow(box.rows[i], r) && r.payload == box.rows[i].payload && (r == box.rows[i] || r.kind.Snapshot?)
            else r.id == box.nextId && r.kind.Snapshot?
  {
  }

  lemma RevokeRows(box: Outbox, d: string, dedup: string, payload: string, now: int, i: nat)
    requires i < |RevokeEnqueued(box, d, dedup, payload, now).rows|
    ensures var r := RevokeEnqueued(box, d, dedup, payload, now).rows[i];
            if i == PendingRevokeAt(box.rows, d, dedup)
            then r.id == AskedId(box, d, dedup) && r.kind.Revoke? && r.datalake == d && r.dedup == dedup && r.payload == payload
            else i < |box.rows| && r == box.rows[i]
  {
  }

  lemma FailedRows(rows: seq<Row>, id: nat, attempts: nat, now: int, i: nat)
    requires i < |MarkedFailed(rows, id, attempts, now)|
    ensures var r := MarkedFailed(rows, id, attempts, now)[i];
            i < |rows| && SameRow(rows[i], r) && r.payload == rows[i].payload && (r.status.Pending? ==> rows[i].status.Pending?)
  {
    hide Backoff;
  }

  /** What a step does to the enqueues noted. */
  lemma AskedNext(w: World, step: Step)
    requires Coalesced(w.box)
    ensures var v := Next(w, step);
            && w.box.nextId <= v.box.nextId && v.clock == w.clock + 1
            && v.asked == (if step.EnqueueRevoke?
                           then w.asked[Subject(step.datalake, step.dedup) := Ask(AskedId(w.box, step.datalake, step.dedup), w.clock, step.payload)]
                           else w.asked)
            && (step.EnqueueRevoke? ==> AskedId(w.box, step.datalake, step.dedup) < v.box.nextId)
  {
    hide MarkedDelivered, MarkedFailed;
  }

  /** The row an enqueue writes: the only pending row of its subject, or a fresh one. */
  lemma AskedRow(w: World, d: string, dedup: string)
    requires Traced(w)
    ensures var id := AskedId(w.box, d, dedup); var k := PendingRevokeAt(w.box.rows, d, dedup);
            && id <= w.box.nextId
            && (forall i :: 0 <= i < |w.box.rows| && (w.box.rows[i].id == id || IsPendingRevoke(w.box.rows[i], d, dedup)) ==> i == k)
            && (forall s :: s in w.asked && w.asked[s].id == id ==> s == Subject(d, dedup))
  {
  }

  // ---- the invariant -----------------------------------------------------------------------

  lemma RowTracedStep(w: World, step: Step, i: nat)
    requires Traced(w) && i < |Next(w, step).box.rows|
    ensures RowTraced(Next(w, step).box.rows[i], Next(w, step).asked)
    ensures var v := Next(w, step); forall s :: s in v.asked && v.box.rows[i].id == v.asked[s].id ==>
              v.box.rows[i].kind.Revoke? && SubjectOf(v.box.rows[i]) == s
  {
    AskedNext(w, step);
    if step.EnqueueRevoke? {
      RowAfterAsk(w, step, i);
    } else {
      RowsFrom(w, step, i);
    }
    hide Next;
  }

  lemma RowAfterAsk(w: World, step: Step, i: nat)
    requires Traced(w) && step.EnqueueRevoke? && i < |Next(w, step).box.rows|
    ensures RowTraced(Next(w, step).box.rows[i], Next(w, step).asked)
    ensures var v := Next(w, step); forall s :: s in v.asked && v.box.rows[i].id == v.asked[s].id ==>
              v.box.rows[i].kind.Revoke? && SubjectOf(v.box.rows[i]) == s
  {
    RowsFrom(w, step, i);
    AskedNext(w, step);
    AskedRow(w, step.datalake, step.dedup);
    hide Next, Coalesced, AskedId;
  }

  lemma TracedStep(w: World, step: Step)
    requires Traced(w)
    ensures Traced(Next(w, step))
  {
    var v := Next(w, step);
    AlwaysCoalescedStep(w, step);
    forall i | 0 <= i < |v.box.rows|
      ensures RowTraced(v.box.rows[i], v.asked)
      ensures forall s :: s in v.asked && v.box.rows[i].id == v.asked[s].id ==> v.box.rows[i].kind.Revoke? && SubjectOf(v.box.rows[i]) == s
    {
      RowTracedStep(w, step, i);
    }
    AskedNext(w, step);
    hide Next, RowTraced, Coalesced;
  }

  /** A worker of the next state: one of this state, or one that has just copied a due row. */
  lemma WorkersOfNext(w: World, step: Step, k: nat)
    requires k in Next(w, step).workers
    ensures var v := Next(w, step); var q := v.workers[k];
            if k in w.workers
            then q.row == w.workers[k].row && q.picked == w.workers[k].picked && (q == w.workers[k] || (q.Attempting? && q.since == w.clock))
            else v.box == w.box && v.asked == w.asked && q.Picked? && q.picked == w.clock
                 && exists i :: 0 <= i < |w.box.rows| && q.row == w.box.rows[i] && q.row.status.Pending?
  {
    hide MarkedDelivered, MarkedFailed, SnapshotEnqueued, RevokeEnqueued;
  }

  /** A copy keeps its trace: a later enqueue is after it. */
  lemma CopyTracedStep(w: World, step: Step, q: Worker)
    requires Coalesced(w.box) && CopyTraced(q, w.asked) && q.picked < w.clock
    ensures CopyTraced(q, Next(w, step).asked)
  {
    AskedNext(w, step);
    hide Next;
  }

  lemma RowKeepsId(w: World, step: Step, q: Worker)
    requires Coalesced(w.box) && q.row.id < w.box.nextId
    requires forall i :: 0 <= i < |w.box.rows| && w.box.rows[i].id == q.row.id ==> SameRow(q.row, w.box.rows[i])
    ensures var v := Next(w, step);
            forall i :: 0 <= i < |v.box.rows| && v.box.rows[i].id == q.row.id ==> SameRow(q.row, v.box.rows[i])
  {
    var v := Next(w, step);
    forall i | 0 <= i < |v.box.rows| && v.box.rows[i].id == q.row.id ensures SameRow(q.row, v.box.rows[i]) {
      RowsFrom(w, step, i);
    }
  }

  lemma MatchedWorker(w: World, step: Step, k: nat)
    requires Traced(w) && Matched(w) && k in Next(w, step).workers
    ensures var v := Next(w, step); var q := v.workers[k];
            && q.row.id < v.box.nextId && q.picked < v.clock
            && (q.Attempting? ==> q.picked < q.since < v.clock)
            && CopyTraced(q, v.asked)
            && forall i :: 0 <= i < |v.box.rows| && v.box.rows[i].id == q.row.id ==> SameRow(q.row, v.box.rows[i])
  {
    WorkersOfNext(w, step, k);
    AskedNext(w, step);
    if k in w.workers {
      CopyTracedStep(w, step, w.workers[k]);
      RowKeepsId(w, step, w.workers[k]);
    }
    hide Next;
  }

  lemma MatchedStep(w: World, step: Step)
    requires Traced(w) && Matched(w)
    ensures Matched(Next(w, step))
  {
    hide Next, Traced;
    forall k | k in Next(w, step).workers
      ensures var v := Next(w, step); var q := v.workers[k];
              && q.row.id < v.box.nextId && q.picked < v.clock
              && (q.Attempting? ==> q.picked < q.since < v.clock)
              && CopyTraced(q, v.asked)
              && forall i :: 0 <= i < |v.box.rows| && v.box.rows[i].id == q.row.id ==> SameRow(q.row, v.box.rows[i])
    {
      MatchedWorker(w, step, k);
    }
  }

  // ---- what a step does to the holders -----------------------------------------------------

  /** The latest enqueue of every subject stays where it is, unless its row is deleted. */
  lemma HoldersStay(w: World, step: Step, id: nat)
    requires Held(w.box.rows, id) && !(step.Succeed? && Deletes(w, step.worker))
    ensures Held(Next(w, step).box.rows, id)
  {
    hide Backoff;
    var v := Next(w, step);
    var i :| 0 <= i < |w.box.rows| && w.box.rows[i].id == id;
    assert v.box.rows[i].id == id;
  }

  lemma AskedIsHeld(box: Outbox, d: string, dedup: string, payload: string, now: int)
    ensures Held(RevokeEnqueued(box, d, dedup, payload, now).rows, AskedId(box, d, dedup))
  {
    var k := PendingRevokeAt(box.rows, d, dedup);
    assert RevokeEnqueued(box, d, dedup, payload, now).rows[k].id == AskedId(box, d, dedup);
  }

  /** A deletion takes the row of the worker's id, and only that. */
  lemma DeletionHolders(w: World, k: nat, id: nat)
    requires Coalesced(w.box) && Deletes(w, k)
    ensures Held(Next(w, Succeed(k)).box.rows, id) <==> Held(w.box.rows, id) && id != w.workers[k].row.id
  {
    hide Coalesced;
    var i, rows, v := At(w.box.rows, w.workers[k].row.id), w.box.rows, Next(w, Succeed(k)).box.rows;
    assert v == rows[..i] + rows[i + 1..];
    assert forall j :: 0 <= j < |v| ==> v[j] == rows[if j < i then j else j + 1];
    DistinctRows(w.box, i);
    if j :| 0 <= j < |rows| && j != i && rows[j].id == id {
      assert v[if j < i then j else j - 1] == rows[j];
    }
  }

  lemma DistinctRows(box: Outbox, i: nat)
    requires Coalesced(box) && i < |box.rows|
    ensures forall j :: 0 <= j < |box.rows| && j != i ==> box.rows[j].id != box.rows[i].id
  {
  }

  /** What a deletion leaves behind, and what it counts as delivered. */
  lemma DeletionResult(w: World, k: nat)
    requires Matched(w) && Deletes(w, k)
    ensures var v := Next(w, Succeed(k));
            && v.asked == w.asked
            && v.revoked == w.revoked + {Revoked(About(w, k), w.workers[k].row.payload, w.workers[k].since)}
  {
    assert SameRow(w.workers[k].row, w.box.rows[At(w.box.rows, w.workers[k].row.id)]);
  }

  lemma DeletedTraced(w: World, k: nat)
    requires Traced(w) && Deletes(w, k)
    ensures About(w, k) in w.asked
    ensures forall s :: s in w.asked && w.asked[s].id == w.workers[k].row.id ==> s == About(w, k)
    ensures Held(w.box.rows, w.workers[k].row.id)
  {
  }

  lemma SinceGrows(w: World, v: World, s: Subject)
    requires s in w.asked && s in v.asked && v.asked[s] == w.asked[s] && w.revoked <= v.revoked && DeliveredSince(w, s)
    ensures DeliveredSince(v, s)
  {
  }

  lemma RevokedGrows(w: World, step: Step)
    ensures w.revoked <= Next(w, step).revoked
  {
    hide MarkedDelivered, MarkedFailed, SnapshotEnqueued, RevokeEnqueued;
  }

  lemma KeptStep(w: World, step: Step)
    requires Coalesced(w.box) && Kept(w) && !(step.Succeed? && Deletes(w, step.worker))
    ensures Kept(Next(w, step))
  {
    var v := Next(w, step);
    AskedNext(w, step);
    RevokedGrows(w, step);
    forall s | s in v.asked ensures Held(v.box.rows, v.asked[s].id) || DeliveredSince(v, s) {
      if step.EnqueueRevoke? && s == Subject(step.datalake, step.dedup) {
        AskedIsHeld(w.box, step.datalake, step.dedup, step.payload, step.now);
      } else if Held(w.box.rows, w.asked[s].id) {
        HoldersStay(w, step, w.asked[s].id);
      } else {
        SinceGrows(w, v, s);
      }
    }
  }

  lemma LosesLast(w: World, k: nat)
    requires Traced(w) && Matched(w) && Undelivered(w, k)
    ensures !Kept(Next(w, Succeed(k)))
  {
    var v, s := Next(w, Succeed(k)), About(w, k);
    DeletionResult(w, k);
    DeletionHolders(w, k, w.asked[s].id);
    hide Next, Held;
    assert !DeliveredSince(v, s);
  }

  lemma KeepsOthers(w: World, k: nat)
    requires Traced(w) && Matched(w) && Kept(w) && Deletes(w, k) && !Undelivered(w, k)
    ensures Kept(Next(w, Succeed(k)))
  {
    var v, sent := Next(w, Succeed(k)), Revoked(About(w, k), w.workers[k].row.payload, w.workers[k].since);
    DeletionResult(w, k);
    DeletedTraced(w, k);
    assert sent in v.revoked;
    hide Next;
    forall s | s in v.asked ensures Held(v.box.rows, v.asked[s].id) || DeliveredSince(v, s) {
      DeletionHolders(w, k, w.asked[s].id);
      if DeliveredSince(w, s) {
        SinceGrows(w, v, s);
      } else if w.asked[s].id == w.workers[k].row.id {
        assert sent.subject == s && sent.payload == w.asked[s].payload && w.asked[s].at < sent.since;
      }
    }
  }

  /** Main result: one deletion after a delivery loses a revoke exactly when the row holds its latest
      enqueue, and neither this attempt nor another sent that payload since. */
  lemma DeletionKeepsExactlyWhen(w: World, k: nat)
    requires Traced(w) && Matched(w) && Kept(w) && Deletes(w, k)
    ensures Kept(Next(w, Succeed(k))) <==> !Undelivered(w, k)
  {
    hide *;
    if Undelivered(w, k) {
      LosesLast(w, k);
    } else {
      KeepsOthers(w, k);
    }
  }

  // ---- whole runs --------------------------------------------------------------------------

  /** No success deletes the undelivered latest enqueue of a revoke. */
  ghost predicate NoneUndelivered(w: World, steps: seq<Step>)
    decreases |steps|
  {
    steps == [] || (!(steps[0].Succeed? && Undelivered(w, steps[0].worker)) && NoneUndelivered(Next(w, steps[0]), steps[1..]))
  }

  ghost predicate AlwaysKept(w: World, steps: seq<Step>)
    decreases |steps|
  {
    Kept(w) && (steps != [] ==> AlwaysKept(Next(w, steps[0]), steps[1..]))
  }

  lemma KeptNext(w: World, step: Step)
    requires Traced(w) && Matched(w) && Kept(w)
    ensures Kept(Next(w, step)) <==> !(step.Succeed? && Undelivered(w, step.worker))
  {
    hide Matched, Kept, Next, Deletes;
    if step.Succeed? && Deletes(w, step.worker) {
      DeletionKeepsExactlyWhen(w, step.worker);
    } else {
      KeptStep(w, step);
    }
  }

  lemma {:induction false} KeptRun(w: World, steps: seq<Step>)
    requires Traced(w) && Matched(w) && Kept(w)
    ensures AlwaysKept(w, steps) <==> NoneUndelivered(w, steps)
    decreases |steps|
  {
    hide Traced, Matched, Kept, Next, Undelivered;
    if steps != [] {
      TracedStep(w, steps[0]);
      MatchedStep(w, steps[0]);
      KeptNext(w, steps[0]);
      if Kept(Next(w, steps[0])) {
        KeptRun(Next(w, steps[0]), steps[1..]);
      }
    }
  }

  /** Main result: however enqueues and drainers interleave, the latest enqueue on every subject is, at
      every moment, held by its row or delivered since, if and only if no success deletes one undelivered. */
  lemma RevokesAreKeptExactlyWhen(steps: seq<Step>)
    ensures AlwaysKept(START, steps) <==> NoneUndelivered(START, steps)
  {
    hide AlwaysKept, NoneUndelivered;
    KeptRun(START, steps);
  }

  /** Every deletion is by a worker whose copy is later than the latest enqueue on the subject. */
  ghost predicate AllCurrent(w: World, steps: seq<Step>)
    decreases |steps|
  {
    steps == [] || (Current(w, steps[0]) && AllCurrent(Next(w, steps[0]), steps[1..]))
  }

  predicate Current(w: World, step: Step) {
    step.Succeed? && Deletes(w, step.worker) && About(w, step.worker) in w.asked ==>
      w.asked[About(w, step.worker)].at < w.workers[step.worker].picked
  }

  lemma CurrentIsDelivered(w: World, step: Step)
    requires Matched(w) && Current(w, step)
    ensures !(step.Succeed? && Undelivered(w, step.worker))
  {
  }

  lemma {:induction false} CurrentRun(w: World, steps: seq<Step>)
    requires Traced(w) && Matched(w) && AllCurrent(w, steps)
    ensures NoneUndelivered(w, steps)
    decreases |steps|
  {
    hide Traced, Matched, Next, Undelivered, Current;
    if steps != [] {
      TracedStep(w, steps[0]);
      MatchedStep(w, steps[0]);
      CurrentIsDelivered(w, steps[0]);
      CurrentRun(Next(w, steps[0]), steps[1..]);
    }
  }

  lemma {:induction false} EndOfRun(w: World, steps: seq<Step>)
    requires Traced(w) && AlwaysKept(w, steps)
    ensures Traced(RunSteps(w, steps)) && Kept(RunSteps(w, steps))
    decreases |steps|
  {
    hide Traced, Kept, Next;
    if steps != [] {
      TracedStep(w, steps[0]);
      EndOfRun(Next(w, steps[0]), steps[1..]);
    }
  }

  predicate Holds(r: Row, s: Subject, payload: string) {
    r.kind.Revoke? && SubjectOf(r) == s && r.payload == payload
  }

  lemma HeldIsWhole(w: World, s: Subject)
    requires Traced(w) && Kept(w) && s in w.asked
    ensures (exists i :: 0 <= i < |w.box.rows| && Holds(w.box.rows[i], s, w.asked[s].payload)) || DeliveredSince(w, s)
  {
    if i :| 0 <= i < |w.box.rows| && w.box.rows[i].id == w.asked[s].id {
      assert Holds(w.box.rows[i], s, w.asked[s].payload);
    }
  }

  /** Main result: with no enqueue on a subject between picking its row and deleting it, what was asked
      for last on every subject is held by a row, pending or given up, or has been delivered since. */
  lemma RevokesAreKept(steps: seq<Step>, s: Subject)
    requires AllCurrent(START, steps)
    ensures var w := RunSteps(START, steps);
            s in w.asked ==>
              (exists i :: 0 <= i < |w.box.rows| && Holds(w.box.rows[i], s, w.asked[s].payload)) || DeliveredSince(w, s)
  {
    hide AlwaysKept, NoneUndelivered, AllCurrent, RunSteps, Holds, DeliveredSince;
    CurrentRun(START, steps);
    KeptRun(START, steps);
    EndOfRun(START, steps);
    var w := RunSteps(START, steps);
    if s in w.asked {
      HeldIsWhole(w, s);
    }
  }

  const OVERTAKEN: seq<Step> :=
    [EnqueueRevoke("d", "u", "one hour", 0), Pick(0, 0, 0), Attempt(0), EnqueueRevoke("d", "u", "for good", 1), Succeed(0)]

  /** It does happen: a revoke made stricter during its delivery is deleted undelivered. */
  lemma OvertakenRevoke()
    ensures var w := RunSteps(START, OVERTAKEN);
            && Subject("d", "u") in w.asked && w.asked[Subject("d", "u")].payload == "for good"
            && w.box.rows == [] && w.revoked == {Revoked(Subject("d", "u"), "one hour", 2)}
            && !Kept(w)
  {
    hide Next;
    OvertakenStart();
    OvertakenEnd(Next(Next(Next(START, OVERTAKEN[0]), OVERTAKEN[1]), OVERTAKEN[2]));
    Unfold5(START, OVERTAKEN);
  }

  /** One revoke row inside a delivery of it. */
  ghost predicate UnderDelivery(w: World) {
    && w.box.rows == [Row(0, "d", Revoke, "u", "one hour", Pending, 0, 0)] && w.revoked == {}
    && w.workers == map[0 := Attempting(w.box.rows[0], 1, 2)]
  }

  lemma OvertakenStart()
    ensures UnderDelivery(Next(Next(Next(START, OVERTAKEN[0]), OVERTAKEN[1]), OVERTAKEN[2]))
  {
    hide MarkedDelivered, MarkedFailed, SnapshotEnqueued;
    var w1 := Next(START, OVERTAKEN[0]);
    assert w1.box.rows == [Row(0, "d", Revoke, "u", "one hour", Pending, 0, 0)];
  }

  lemma OvertakenEnd(w: World)
    requires UnderDelivery(w)
    ensures var v := Next(Next(w, EnqueueRevoke("d", "u", "for good", 1)), Succeed(0));
            && Subject("d", "u") in v.asked && v.asked[Subject("d", "u")].payload == "for good"
            && v.box.rows == [] && v.revoked == {Revoked(Subject("d", "u"), "one hour", 2)}
            && !Kept(v)
  {
    hide MarkedFailed, SnapshotEnqueued;
    var v := Next(w, EnqueueRevoke("d", "u", "for good", 1));
    assert v.box.rows == [Row(0, "d", Revoke, "u", "for good", Pending, 0, 1)];
    assert "one hour" != "for good";
  }
}
