/** The control-to-gateway outbox: coalescing enqueues, delivery attempts, guarded status writes, backoff. */
module GatewayOutbox {

  import opened Text

  datatype Kind = Snapshot | Revoke

  datatype Status = Pending | Delivered | GivenUp

  datatype Row = Row(id: nat, datalake: string, kind: Kind, dedup: string, payload: string,
                     status: Status, attempts: nat, nextAt: int)

  datatype Outbox = Outbox(rows: seq<Row>, nextId: nat)

  const BASE_BACKOFF: int := 15_000
  const MAX_BACKOFF: int := 300_000
  const MAX_ATTEMPTS: nat := 12
  const DRAIN_BATCH: nat := 50

  // ---- rows --------------------------------------------------------------------------------

  predicate IsSnapshotOf(r: Row, datalake: string) { r.kind.Snapshot? && r.datalake == datalake }

  predicate IsPendingRevoke(r: Row, datalake: string, dedup: string) {
    r.kind.Revoke? && r.status.Pending? && r.datalake == datalake && r.dedup == dedup
  }

  /** Index of the snapshot row of a datalake, |rows| if there is none. */
  function SnapshotAt(rows: seq<Row>, datalake: string): (k: nat)
    ensures k <= |rows| && (k < |rows| ==> IsSnapshotOf(rows[k], datalake))
    ensures forall j :: 0 <= j < k ==> !IsSnapshotOf(rows[j], datalake)
  {
    if rows == [] || IsSnapshotOf(rows[0], datalake) then 0 else 1 + SnapshotAt(rows[1..], datalake)
  }

  function PendingRevokeAt(rows: seq<Row>, datalake: string, dedup: string): (k: nat)
    ensures k <= |rows| && (k < |rows| ==> IsPendingRevoke(rows[k], datalake, dedup))
    ensures forall j :: 0 <= j < k ==> !IsPendingRevoke(rows[j], datalake, dedup)
  {
    if rows == [] || IsPendingRevoke(rows[0], datalake, dedup) then 0 else 1 + PendingRevokeAt(rows[1..], datalake, dedup)
  }

  function At(rows: seq<Row>, id: nat): (k: nat)
    ensures k <= |rows| && (k < |rows| ==> rows[k].id == id)
    ensures forall j :: 0 <= j < k ==> rows[j].id != id
  {
    if rows == [] || rows[0].id == id then 0 else 1 + At(rows[1..], id)
  }

  function Renewed(r: Row, payload: string, now: int): Row {
    r.(status := Pending, attempts := 0, nextAt := now, payload := payload)
  }

  /** Upsert on the snapshot row of the datalake. */
  function SnapshotEnqueued(box: Outbox, datalake: string, now: int): Outbox {
    var k := SnapshotAt(box.rows, datalake);
    if k < |box.rows| then box.(rows := box.rows[k := Renewed(box.rows[k], box.rows[k].payload, now)])
    else Outbox(box.rows + [Row(box.nextId, datalake, Snapshot, "", "", Pending, 0, now)], box.nextId + 1)
  }

  /** Upsert on the pending revoke row of the subject. */
  function RevokeEnqueued(box: Outbox, datalake: string, dedup: string, payload: string, now: int): Outbox {
    var k := PendingRevokeAt(box.rows, datalake, dedup);
    if k < |box.rows| then box.(rows := box.rows[k := Renewed(box.rows[k], payload, now)])
    else Outbox(box.rows + [Row(box.nextId, datalake, Revoke, dedup, payload, Pending, 0, now)], box.nextId + 1)
  }

  /** After a delivery: a revoke row goes, a snapshot row is marked if still pending. */
  function MarkedDelivered(rows: seq<Row>, id: nat): seq<Row> {
    var k := At(rows, id);
    if k == |rows| then rows
    else if rows[k].kind.Revoke? then rows[..k] + rows[k + 1..]
    else if rows[k].status.Pending? then rows[k := rows[k].(status := Delivered)]
    else rows
  }

  function Pow2(n: nat): nat { if n == 0 then 1 else 2 * Pow2(n - 1) }

  function Backoff(attempts: nat): (wait: nat)
    ensures wait <= MAX_BACKOFF
  {
    if BASE_BACKOFF * Pow2(attempts) < MAX_BACKOFF then BASE_BACKOFF * Pow2(attempts) else MAX_BACKOFF
  }

  /** After a failed delivery that was picked up with `attempts` behind it. */
  function MarkedFailed(rows: seq<Row>, id: nat, attempts: nat, now: int): seq<Row> {
    var k := At(rows, id);
    if k == |rows| || !rows[k].status.Pending? then rows
    else if attempts + 1 >= MAX_ATTEMPTS then rows[k := rows[k].(attempts := attempts + 1, status := GivenUp, nextAt := now)]
    else rows[k := rows[k].(attempts := attempts + 1, nextAt := now + Backoff(attempts))]
  }

  /** One row is written, the one at `i`: rewritten under its own id, or new under the next one. */
  ghost predicate WritesAt(was: Outbox, now: Outbox, i: nat) {
    && i < |now.rows| && (forall j :: 0 <= j < |was.rows| && j != i ==> j < |now.rows| && now.rows[j] == was.rows[j])
    && if i < |was.rows| then |now.rows| == |was.rows| && now.nextId == was.nextId && now.rows[i].id == was.rows[i].id
       else |now.rows| == i + 1 == |was.rows| + 1 && now.rows[i].id == was.nextId && now.nextId == was.nextId + 1
  }

  /** The datalake's snapshot is due now with no attempt behind it: in its row, or in a new one if it had none. */
  ghost predicate AsksSnapshot(was: Outbox, now: Outbox, i: nat, datalake: string, t: int) {
    && WritesAt(was, now, i)
    && var r := now.rows[i];
       && r.kind == Snapshot && r.datalake == datalake && r.status == Pending && r.attempts == 0 && r.nextAt == t
       && if i < |was.rows| then was.rows[i].kind == Snapshot && was.rows[i].datalake == datalake
          else forall j :: 0 <= j < |was.rows| ==> !(was.rows[j].kind == Snapshot && was.rows[j].datalake == datalake)
  }

  /** The same for a revoke with its payload, in the subject's pending row or in a new one. */
  ghost predicate AsksRevoke(was: Outbox, now: Outbox, i: nat, datalake: string, dedup: string, payload: string, t: int) {
    && WritesAt(was, now, i)
    && now.rows[i] == Row(now.rows[i].id, datalake, Revoke, dedup, payload, Pending, 0, t)
    && if i < |was.rows| then was.rows[i] == Row(was.rows[i].id, datalake, Revoke, dedup, was.rows[i].payload, Pending, was.rows[i].attempts, was.rows[i].nextAt)
       else forall j :: 0 <= j < |was.rows| ==>
              !(was.rows[j].kind == Revoke && was.rows[j].status == Pending && was.rows[j].datalake == datalake && was.rows[j].dedup == dedup)
  }

  lemma SnapshotFields(box: Outbox, datalake: string, t: int)
    ensures exists i :: AsksSnapshot(box, SnapshotEnqueued(box, datalake, t), i, datalake, t)
  {
    assert AsksSnapshot(box, SnapshotEnqueued(box, datalake, t), SnapshotAt(box.rows, datalake), datalake, t);
  }

  lemma RevokeFields(box: Outbox, datalake: string, dedup: string, payload: string, t: int)
    ensures exists i :: AsksRevoke(box, RevokeEnqueued(box, datalake, dedup, payload, t), i, datalake, dedup, payload, t)
  {
    assert AsksRevoke(box, RevokeEnqueued(box, datalake, dedup, payload, t), PendingRevokeAt(box.rows, datalake, dedup),
                      datalake, dedup, payload, t);
  }

  /** The first wait is 15 seconds, and each is twice the one before, up to five minutes. */
  lemma BackoffDoubles(attempts: nat)
    ensures Backoff(0) == 15_000 && Backoff(attempts + 1) == if 2 * Backoff(attempts) < 300_000 then 2 * Backoff(attempts) else 300_000
  {
  }

  // ---- coalescing --------------------------------------------------------------------------

  /** What the partial unique indexes keep. */
  ghost predicate Coalesced(box: Outbox) {
    && (forall i :: 0 <= i < |box.rows| ==> box.rows[i].id < box.nextId)
    && (forall i, j :: 0 <= i < j < |box.rows| ==> box.rows[i].id != box.rows[j].id)
    && (forall i, j :: 0 <= i < j < |box.rows| ==>
          !(IsSnapshotOf(box.rows[i], box.rows[j].datalake) && box.rows[j].kind.Snapshot?))
    && (forall i, j :: 0 <= i < j < |box.rows| ==>
          !(box.rows[j].kind.Revoke? && box.rows[j].status.Pending?
            && IsPendingRevoke(box.rows[i], box.rows[j].datalake, box.rows[j].dedup)))
  }

  /** Rewriting a row in place, without making a revoke pending again. */
  lemma UpdateKeeps(box: Outbox, k: nat, r: Row)
    requires Coalesced(box) && k < |box.rows|
    requires var o := box.rows[k];
             && r.id == o.id && r.kind == o.kind && r.datalake == o.datalake && r.dedup == o.dedup
             && (r.kind.Revoke? && r.status.Pending? ==> o.status.Pending?)
    ensures Coalesced(box.(rows := box.rows[k := r]))
  {
  }

  lemma AppendKeeps(box: Outbox, r: Row)
    requires Coalesced(box) && r.id == box.nextId
    requires r.kind.Snapshot? ==> forall j :: 0 <= j < |box.rows| ==> !IsSnapshotOf(box.rows[j], r.datalake)
    requires r.kind.Revoke? ==> forall j :: 0 <= j < |box.rows| ==> !IsPendingRevoke(box.rows[j], r.datalake, r.dedup)
    ensures Coalesced(Outbox(box.rows + [r], box.nextId + 1))
  {
  }

  lemma RemoveKeeps(box: Outbox, k: nat)
    requires Coalesced(box) && k < |box.rows|
    ensures Coalesced(box.(rows := box.rows[..k] + box.rows[k + 1..]))
  {
    var v := box.rows[..k] + box.rows[k + 1..];
    assert forall i :: 0 <= i < |v| ==> v[i] == box.rows[if i < k then i else i + 1];
  }

  lemma SnapshotCoalesces(box: Outbox, datalake: string, now: int)
    requires Coalesced(box)
    ensures Coalesced(SnapshotEnqueued(box, datalake, now))
  {
    hide Coalesced;
    var k := SnapshotAt(box.rows, datalake);
    if k < |box.rows| {
      UpdateKeeps(box, k, Renewed(box.rows[k], box.rows[k].payload, now));
    } else {
      AppendKeeps(box, Row(box.nextId, datalake, Snapshot, "", "", Pending, 0, now));
    }
  }

  lemma RevokeCoalesces(box: Outbox, datalake: string, dedup: string, payload: string, now: int)
    requires Coalesced(box)
    ensures Coalesced(RevokeEnqueued(box, datalake, dedup, payload, now))
  {
    hide Coalesced;
    var k := PendingRevokeAt(box.rows, datalake, dedup);
    if k < |box.rows| {
      UpdateKeeps(box, k, Renewed(box.rows[k], payload, now));
    } else {
      AppendKeeps(box, Row(box.nextId, datalake, Revoke, dedup, payload, Pending, 0, now));
    }
  }

  lemma DeliveryCoalesces(box: Outbox, id: nat)
    requires Coalesced(box)
    ensures Coalesced(box.(rows := MarkedDelivered(box.rows, id)))
  {
    hide Coalesced;
    var k := At(box.rows, id);
    if k < |box.rows| {
      if box.rows[k].kind.Revoke? {
        RemoveKeeps(box, k);
      } else {
        UpdateKeeps(box, k, box.rows[k].(status := Delivered));
      }
    }
  }

  lemma FailureCoalesces(box: Outbox, id: nat, attempts: nat, now: int)
    requires Coalesced(box)
    ensures Coalesced(box.(rows := MarkedFailed(box.rows, id, attempts, now)))
  {
    hide Coalesced, Backoff;
    var k := At(box.rows, id);
    if k < |box.rows| {
      UpdateKeeps(box, k, box.rows[k].(attempts := attempts + 1, status := GivenUp, nextAt := now));
      UpdateKeeps(box, k, box.rows[k].(attempts := attempts + 1, nextAt := now + Backoff(attempts)));
    }
  }

  // ---- the machine -------------------------------------------------------------------------

  /** A drainer on one row: its copy as selected at `picked`, then inside the delivery begun at `since`. */
  datatype Worker = Picked(row: Row, picked: nat) | Attempting(row: Row, picked: nat, since: nat)

  /** The subject of a revoke: its datalake and its deduplication key. */
  datatype Subject = Subject(datalake: string, dedup: string)

  /** The latest enqueue of a revoke: the row it wrote, when, and the payload it wrote there. */
  datatype Ask = Ask(id: nat, at: nat, payload: string)

  /** A delivered revoke: the payload sent, and when the attempt began. */
  datatype Revoked = Revoked(subject: Subject, payload: string, since: nat)

  /** `clock` counts steps; `enqueued` and `reflected` note, per datalake, its latest enqueue and the
      start of the attempt behind its latest delivered mark; `asked` notes, per subject, its latest
      enqueue, and `revoked` the deliveries of revokes. */
  datatype World = World(box: Outbox, clock: nat, enqueued: map<string, nat>, reflected: map<string, nat>,
                         workers: map<nat, Worker>, asked: map<Subject, Ask>, revoked: set<Revoked>)

  datatype Step =
    | EnqueueSnapshot(datalake: string, now: int)
    | EnqueueRevoke(datalake: string, dedup: string, payload: string, now: int)
    | Pick(worker: nat, id: nat, now: int)
    | Attempt(worker: nat)
    | Succeed(worker: nat)              // the delivery worked; its status write
    | FailAttempt(worker: nat, now: int)
    | Crash(worker: nat)

  predicate Due(r: Row, now: int) { r.status.Pending? && r.nextAt <= now }

  /** Does this worker's success mark a snapshot row delivered? */
  predicate Marks(w: World, k: nat) {
    && k in w.workers && w.workers[k].Attempting?
    && var i := At(w.box.rows, w.workers[k].row.id);
       i < |w.box.rows| && w.box.rows[i].kind.Snapshot? && w.box.rows[i].status.Pending?
  }

  function MarkedDatalake(w: World, k: nat): string
    requires Marks(w, k)
  {
    w.box.rows[At(w.box.rows, w.workers[k].row.id)].datalake
  }

  /** What the successful delivery of a worker's copy has revoked. */
  function Delivery(q: Worker): set<Revoked>
    requires q.Attempting?
  {
    if q.row.kind.Revoke? then {Revoked(SubjectOf(q.row), q.row.payload, q.since)} else {}
  }

  /** The row a revoke enqueue writes: the pending row of the subject, or a new one. */
  function AskedId(box: Outbox, d: string, dedup: string): nat {
    var i := PendingRevokeAt(box.rows, d, dedup);
    if i < |box.rows| then box.rows[i].id else box.nextId
  }

  function SubjectOf(r: Row): Subject {
    Subject(r.datalake, r.dedup)
  }

  function Act(w: World, step: Step): World {
    match step
    case EnqueueSnapshot(d, now) => w.(box := SnapshotEnqueued(w.box, d, now), enqueued := w.enqueued[d := w.clock])
    case EnqueueRevoke(d, dedup, payload, now) =>
      w.(box := RevokeEnqueued(w.box, d, dedup, payload, now),
          asked := w.asked[Subject(d, dedup) := Ask(AskedId(w.box, d, dedup), w.clock, payload)])
    case Pick(k, id, now) =>
      var i := At(w.box.rows, id);
      if k in w.workers || i == |w.box.rows| || !Due(w.box.rows[i], now) then w
      else w.(workers := w.workers[k := Picked(w.box.rows[i], w.clock)])
    case Attempt(k) =>
      if k in w.workers && w.workers[k].Picked?
      then w.(workers := w.workers[k := Attempting(w.workers[k].row, w.workers[k].picked, w.clock)]) else w
    case Succeed(k) =>
      if k in w.workers && w.workers[k].Attempting? then
        w.(box := w.box.(rows := MarkedDelivered(w.box.rows, w.workers[k].row.id)),
           reflected := if Marks(w, k) then w.reflected[MarkedDatalake(w, k) := w.workers[k].since] else w.reflected,
           revoked := w.revoked + Delivery(w.workers[k]),
           workers := w.workers - {k})
      else w
    case FailAttempt(k, now) =>
      if k in w.workers && w.workers[k].Attempting? then
        w.(box := w.box.(rows := MarkedFailed(w.box.rows, w.workers[k].row.id, w.workers[k].row.attempts, now)),
           workers := w.workers - {k})
      else w
    case Crash(k) => w.(workers := w.workers - {k})
  }

  function Next(w: World, step: Step): World { Act(w, step).(clock := w.clock + 1) }

  function RunSteps(w: World, steps: seq<Step>): World
    decreases |steps|
  {
    if steps == [] then w else RunSteps(Next(w, steps[0]), steps[1..])
  }

  const START: World := World(Outbox([], 0), 0, map[], map[], map[], map[], {})

  lemma AlwaysCoalescedStep(w: World, step: Step)
    requires Coalesced(w.box)
    ensures Coalesced(Next(w, step).box)
  {
    hide Coalesced, MarkedDelivered, MarkedFailed, SnapshotEnqueued, RevokeEnqueued;
    match step
    case EnqueueSnapshot(d, now) => SnapshotCoalesces(w.box, d, now);
    case EnqueueRevoke(d, dedup, payload, now) => RevokeCoalesces(w.box, d, dedup, payload, now);
    case Succeed(k) => if k in w.workers { DeliveryCoalesces(w.box, w.workers[k].row.id); }
    case FailAttempt(k, now) => if k in w.workers { FailureCoalesces(w.box, w.workers[k].row.id, w.workers[k].row.attempts, now); }
    case _ =>
  }

  /** Main result: however enqueues and drainers interleave, there is at most one snapshot row per
      datalake, at most one pending revoke row per subject, and no two rows share an id. */
  lemma {:induction false} AlwaysCoalesced(w: World, steps: seq<Step>)
    requires Coalesced(w.box)
    ensures Coalesced(RunSteps(w, steps).box)
    decreases |steps|
  {
    hide Coalesced, Next;
    if steps != [] {
      AlwaysCoalescedStep(w, steps[0]);
      AlwaysCoalesced(Next(w, steps[0]), steps[1..]);
    }
  }

  // ---- what a delivered mark means ---------------------------------------------------------

  /** Every delivered snapshot row had an attempt that began after its latest enqueue. */
  ghost predicate Honest(w: World) {
    forall i :: 0 <= i < |w.box.rows| && w.box.rows[i].kind.Snapshot? && w.box.rows[i].status.Delivered? ==>
      HonestAt(w, w.box.rows[i].datalake)
  }

  predicate HonestAt(w: World, d: string) {
    d in w.enqueued && d in w.reflected && w.enqueued[d] < w.reflected[d]
  }

  ghost predicate Timed(w: World) {
    && (forall i :: 0 <= i < |w.box.rows| && w.box.rows[i].kind.Snapshot? ==> w.box.rows[i].datalake in w.enqueued)
    && (forall d :: d in w.enqueued ==> w.enqueued[d] < w.clock)
    && (forall k :: k in w.workers && w.workers[k].Attempting? ==> w.workers[k].since < w.clock)
  }

  /** No enqueue of the datalake fell between the attempt and its status write. */
  ghost predicate Undisturbed(w: World, step: Step) {
    step.Succeed? && Marks(w, step.worker) && MarkedDatalake(w, step.worker) in w.enqueued ==>
      w.enqueued[MarkedDatalake(w, step.worker)] < w.workers[step.worker].since
  }

  /** The fields of a row that no step changes. */
  predicate SameRow(a: Row, b: Row) {
    a.id == b.id && a.kind == b.kind && a.datalake == b.datalake && a.dedup == b.dedup
  }

  lemma FromDelivered(rows: seq<Row>, id: nat, i: nat) returns (j: nat)
    requires i < |MarkedDelivered(rows, id)|
    ensures var r := MarkedDelivered(rows, id)[i];
            j < |rows| && SameRow(rows[j], r) && r.payload == rows[j].payload
            && (r == rows[j] || (j == At(rows, id) && rows[j].kind.Snapshot? && rows[j].status.Pending?))
  {
    var k, v := At(rows, id), MarkedDelivered(rows, id);
    j := if k < |rows| && rows[k].kind.Revoke? && k <= i then i + 1 else i;
    assert k < |rows| && rows[k].kind.Revoke? ==> v[i] == rows[j];
  }

  lemma FromFailed(rows: seq<Row>, id: nat, attempts: nat, now: int, i: nat)
    requires i < |MarkedFailed(rows, id, attempts, now)|
    ensures var r := MarkedFailed(rows, id, attempts, now)[i];
            i < |rows| && SameRow(rows[i], r) && (r.status.Delivered? ==> rows[i].status.Delivered?)
  {
    hide Backoff;
  }

  lemma FromSnapshot(box: Outbox, d: string, now: int, i: nat)
    requires i < |SnapshotEnqueued(box, d, now).rows|
    ensures var r := SnapshotEnqueued(box, d, now).rows[i];
            if i < |box.rows| then SameRow(box.rows[i], r) && (r == box.rows[i] || (IsSnapshotOf(r, d) && r.status.Pending?))
            else r.id == box.nextId && IsSnapshotOf(r, d) && r.status.Pending?
  {
  }

  lemma FromRevoke(box: Outbox, d: string, dedup: string, payload: string, now: int, i: nat)
    requires i < |RevokeEnqueued(box, d, dedup, payload, now).rows|
    ensures var r := RevokeEnqueued(box, d, dedup, payload, now).rows[i];
            if i < |box.rows| then SameRow(box.rows[i], r) && (r == box.rows[i] || r.kind.Revoke?)
            else r.id == box.nextId && r.kind.Revoke?
  {
  }

  /** A row of the next state: an earlier row, possibly rewritten, or a new one just enqueued. */
  lemma RowsOfNext(w: World, step: Step, i: nat)
    requires i < |Next(w, step).box.rows| && Next(w, step).box.rows[i].kind.Snapshot?
    ensures var r := Next(w, step).box.rows[i];
            (step.EnqueueSnapshot? && step.datalake == r.datalake && r.status.Pending?)
            || exists j :: 0 <= j < |w.box.rows| && w.box.rows[j].id == r.id && w.box.rows[j].kind.Snapshot?
                 && w.box.rows[j].datalake == r.datalake
                 && (r.status.Delivered? ==>
                       w.box.rows[j].status.Delivered?
                       || (step.Succeed? && Marks(w, step.worker) && At(w.box.rows, w.workers[step.worker].row.id) == j))
  {
    hide MarkedDelivered, MarkedFailed, SnapshotEnqueued, RevokeEnqueued;
    match step
    case EnqueueSnapshot(d, now) => FromSnapshot(w.box, d, now, i);
    case EnqueueRevoke(d, dedup, payload, now) => FromRevoke(w.box, d, dedup, payload, now, i);
    case Succeed(k) =>
      if k in w.workers && w.workers[k].Attempting? {
        var j := FromDelivered(w.box.rows, w.workers[k].row.id, i);
      }
    case FailAttempt(k, now) =>
      if k in w.workers && w.workers[k].Attempting? {
        FromFailed(w.box.rows, w.workers[k].row.id, w.workers[k].row.attempts, now, i);
      }
    case _ =>
  }

  lemma TimedStep(w: World, step: Step)
    requires Timed(w)
    ensures Timed(Next(w, step))
  {
    var v := Next(w, step);
    forall i | 0 <= i < |v.box.rows| && v.box.rows[i].kind.Snapshot? ensures v.box.rows[i].datalake in v.enqueued {
      RowsOfNext(w, step, i);
    }
    hide Backoff, MarkedDelivered, MarkedFailed, SnapshotEnqueued, RevokeEnqueued;
  }

  lemma EnqueuedIsPending(box: Outbox, d: string, now: int, i: nat)
    requires Coalesced(box) && i < |SnapshotEnqueued(box, d, now).rows|
    requires IsSnapshotOf(SnapshotEnqueued(box, d, now).rows[i], d)
    ensures SnapshotEnqueued(box, d, now).rows[i].status.Pending?
  {
  }

  lemma HonestStep(w: World, step: Step)
    requires Coalesced(w.box) && Timed(w) && Honest(w) && Undisturbed(w, step)
    ensures Honest(Next(w, step))
  {
    hide Backoff, MarkedDelivered, MarkedFailed, SnapshotEnqueued, RevokeEnqueued, Coalesced;
    var v := Next(w, step);
    forall i | 0 <= i < |v.box.rows| && v.box.rows[i].kind.Snapshot? && v.box.rows[i].status.Delivered?
      ensures HonestAt(v, v.box.rows[i].datalake)
    {
      RowsOfNext(w, step, i);
      if step.EnqueueSnapshot? && IsSnapshotOf(v.box.rows[i], step.datalake) {
        EnqueuedIsPending(w.box, step.datalake, step.now, i);
      }
    }
  }

  /** One delivered mark, exactly: it is honest if and only if nothing was enqueued meanwhile. */
  lemma MarkIsHonestExactlyWhen(w: World, k: nat)
    requires Coalesced(w.box) && Timed(w) && Honest(w)
    ensures Honest(Next(w, Succeed(k))) <==> Undisturbed(w, Succeed(k))
  {
    if Undisturbed(w, Succeed(k)) {
      HonestStep(w, Succeed(k));
    } else {
      var i := At(w.box.rows, w.workers[k].row.id);
      var v := Next(w, Succeed(k));
      assert v.box.rows[i].kind.Snapshot? && v.box.rows[i].status.Delivered?;
    }
  }

  ghost predicate AllUndisturbed(w: World, steps: seq<Step>)
    decreases |steps|
  {
    steps == [] || (Undisturbed(w, steps[0]) && AllUndisturbed(Next(w, steps[0]), steps[1..]))
  }

  lemma {:induction false} HonestRun(w: World, steps: seq<Step>)
    requires Coalesced(w.box) && Timed(w) && Honest(w) && AllUndisturbed(w, steps)
    ensures Honest(RunSteps(w, steps)) && Timed(RunSteps(w, steps))
    decreases |steps|
  {
    hide Honest, Timed, Coalesced, Undisturbed, Next;
    if steps != [] {
      HonestStep(w, steps[0]);
      TimedStep(w, steps[0]);
      AlwaysCoalescedStep(w, steps[0]);
      HonestRun(Next(w, steps[0]), steps[1..]);
    }
  }

  /** Main result: if no enqueue of a datalake falls between a delivery attempt and its status write,
      every delivered snapshot row has an attempt that began after its latest enqueue. */
  lemma DeliveredIsCurrent(steps: seq<Step>, i: nat)
    requires AllUndisturbed(START, steps)
    ensures var w := RunSteps(START, steps);
            i < |w.box.rows| && w.box.rows[i].kind.Snapshot? && w.box.rows[i].status.Delivered? ==>
              HonestAt(w, w.box.rows[i].datalake)
  {
    hide RunSteps, AllUndisturbed;
    HonestRun(START, steps);
  }

  const INTERRUPTED: seq<Step> :=
    [EnqueueSnapshot("d", 0), Pick(0, 0, 0), Attempt(0), EnqueueSnapshot("d", 1), Succeed(0)]

  /** It does happen: an edit enqueued during a delivery is marked delivered with it. */
  lemma InterruptedDelivery()
    ensures var w := RunSteps(START, INTERRUPTED);
            && |w.box.rows| == 1 && w.box.rows[0].status.Delivered?
            && "d" in w.enqueued && "d" in w.reflected
            && w.reflected["d"] < w.enqueued["d"]
  {
    hide Next;
    InterruptedStart();
    InterruptedEnd(Next(Next(Next(START, INTERRUPTED[0]), INTERRUPTED[1]), INTERRUPTED[2]));
    Unfold5(START, INTERRUPTED);
  }

  /** One snapshot row, enqueued at 0, inside a delivery begun at 2. */
  ghost predicate UnderDelivery(w: World) {
    && w.box.rows == [Row(0, "d", Snapshot, "", "", Pending, 0, 0)] && w.clock == 3
    && w.workers == map[0 := Attempting(w.box.rows[0], 1, 2)]
  }

  lemma InterruptedStart()
    ensures UnderDelivery(Next(Next(Next(START, INTERRUPTED[0]), INTERRUPTED[1]), INTERRUPTED[2]))
  {
    hide MarkedDelivered, MarkedFailed, RevokeEnqueued;
    var w1 := Next(START, INTERRUPTED[0]);
    assert w1.box.rows == [Row(0, "d", Snapshot, "", "", Pending, 0, 0)];
  }

  lemma InterruptedEnd(w: World)
    requires UnderDelivery(w)
    ensures var v := Next(Next(w, EnqueueSnapshot("d", 1)), Succeed(0));
            && |v.box.rows| == 1 && v.box.rows[0].status.Delivered?
            && "d" in v.enqueued && "d" in v.reflected && v.reflected["d"] < v.enqueued["d"]
  {
    hide MarkedFailed, RevokeEnqueued;
    var v := Next(w, EnqueueSnapshot("d", 1));
    assert v.box.rows == [Row(0, "d", Snapshot, "", "", Pending, 0, 1)] && v.enqueued["d"] == 3;
  }

  lemma Unfold5(w: World, s: seq<Step>)
    requires |s| == 5
    ensures RunSteps(w, s) == Next(Next(Next(Next(Next(w, s[0]), s[1]), s[2]), s[3]), s[4])
  {
    hide Next;
    var w1 := Next(w, s[0]);
    var w2 := Next(w1, s[1]);
    var w3 := Next(w2, s[2]);
    assert RunSteps(w, s) == RunSteps(w1, s[1..]);
    assert RunSteps(w1, s[1..]) == RunSteps(w2, s[1..][1..]);
    assert RunSteps(w2, s[2..]) == RunSteps(w3, s[2..][1..]) && s[1..][1..] == s[2..];
    assert RunSteps(w3, s[3..]) == RunSteps(Next(w3, s[3]), s[3..][1..]) && s[2..][1..] == s[3..];
    assert RunSteps(Next(w3, s[3]), s[4..]) == RunSteps(Next(Next(w3, s[3]), s[4]), s[4..][1..]) && s[3..][1..] == s[4..];
  }

  // ---- draining by one drainer -------------------------------------------------------------

  datatype DueRow = DueRow(id: nat, attempts: nat)

  /** One pass: the due rows as selected, which deliveries work, and the clock at each status write. */
  datatype Pass = Pass(due: seq<DueRow>, works: set<nat>, at: seq<int>)

  function DrainOne(rows: seq<Row>, d: DueRow, works: set<nat>, now: int): seq<Row> {
    if d.id in works then MarkedDelivered(rows, d.id) else MarkedFailed(rows, d.id, d.attempts, now)
  }

  function DrainAll(rows: seq<Row>, due: seq<DueRow>, works: set<nat>, at: seq<int>): seq<Row>
    requires |at| == |due|
  {
    if due == [] then rows
    else DrainOne(DrainAll(rows, due[..|due| - 1], works, at[..|due| - 1]), due[|due| - 1], works, at[|due| - 1])
  }

  function Lookup(rows: seq<Row>, id: nat): Option<Row> {
    if At(rows, id) < |rows| then Some(rows[At(rows, id)]) else None
  }

  ghost predicate DistinctIds(rows: seq<Row>) {
    forall i, j :: 0 <= i < j < |rows| ==> rows[i].id != rows[j].id
  }

  /** The due query of a pass: distinct rows, each pending with the attempts it has. */
  ghost predicate Selects(rows: seq<Row>, pass: Pass) {
    && |pass.at| == |pass.due| <= DRAIN_BATCH
    && (forall i, j :: 0 <= i < j < |pass.due| ==> pass.due[i].id != pass.due[j].id)
    && (forall i :: 0 <= i < |pass.due| ==>
          var r := Lookup(rows, pass.due[i].id);
          r.Some? && r.value.status.Pending? && r.value.attempts == pass.due[i].attempts)
  }

  predicate Takes(pass: Pass, id: nat) {
    exists i :: 0 <= i < |pass.due| && pass.due[i].id == id
  }

  /** What one status write does to the row of `id`. */
  function RowAfter(r: Option<Row>, d: DueRow, id: nat, works: set<nat>, now: int): Option<Row> {
    if r.None? || d.id != id then r
    else if id in works then
      (if r.value.kind.Revoke? then None
       else if r.value.status.Pending? then Some(r.value.(status := Delivered)) else r)
    else if !r.value.status.Pending? then r
    else if d.attempts + 1 >= MAX_ATTEMPTS then Some(r.value.(attempts := d.attempts + 1, status := GivenUp, nextAt := now))
    else Some(r.value.(attempts := d.attempts + 1, nextAt := now + Backoff(d.attempts)))
  }

  lemma LookupUpdated(rows: seq<Row>, k: nat, r: Row, id: nat)
    requires DistinctIds(rows) && k < |rows| && r.id == rows[k].id
    ensures DistinctIds(rows[k := r])
    ensures Lookup(rows[k := r], id) == if r.id == id then Some(r) else Lookup(rows, id)
  {
    var v := rows[k := r];
    assert forall j :: 0 <= j < |rows| ==> v[j].id == rows[j].id;
    assert At(v, id) == At(rows, id);
  }

  lemma LookupRemoved(rows: seq<Row>, k: nat, id: nat)
    requires DistinctIds(rows) && k < |rows|
    ensures DistinctIds(rows[..k] + rows[k + 1..])
    ensures Lookup(rows[..k] + rows[k + 1..], id) == if rows[k].id == id then None else Lookup(rows, id)
  {
    var v, i := rows[..k] + rows[k + 1..], At(rows, id);
    assert forall j :: 0 <= j < |v| ==> v[j] == rows[if j < k then j else j + 1];
    assert rows[k].id != id && i < |rows| ==> v[if i < k then i else i - 1] == rows[i];
  }

  lemma DeliveredRow(rows: seq<Row>, id: nat, other: nat)
    requires DistinctIds(rows)
    ensures DistinctIds(MarkedDelivered(rows, id))
    ensures Lookup(MarkedDelivered(rows, id), other) == RowAfter(Lookup(rows, other), DueRow(id, 0), other, {id}, 0)
  {
    hide Backoff, DistinctIds;
    var k := At(rows, id);
    if k < |rows| {
      if rows[k].kind.Revoke? {
        LookupRemoved(rows, k, other);
      } else {
        LookupUpdated(rows, k, rows[k].(status := Delivered), other);
      }
    }
  }

  lemma FailedRow(rows: seq<Row>, d: DueRow, other: nat, now: int)
    requires DistinctIds(rows)
    ensures DistinctIds(MarkedFailed(rows, d.id, d.attempts, now))
    ensures Lookup(MarkedFailed(rows, d.id, d.attempts, now), other) == RowAfter(Lookup(rows, other), d, other, {}, now)
  {
    hide Backoff, DistinctIds;
    var k := At(rows, d.id);
    if k < |rows| {
      if d.attempts + 1 >= MAX_ATTEMPTS {
        LookupUpdated(rows, k, rows[k].(attempts := d.attempts + 1, status := GivenUp, nextAt := now), other);
      } else {
        LookupUpdated(rows, k, rows[k].(attempts := d.attempts + 1, nextAt := now + Backoff(d.attempts)), other);
      }
    }
  }

  lemma DrainOneRow(rows: seq<Row>, d: DueRow, id: nat, works: set<nat>, now: int)
    requires DistinctIds(rows)
    ensures DistinctIds(DrainOne(rows, d, works, now))
    ensures Lookup(DrainOne(rows, d, works, now), id) == RowAfter(Lookup(rows, id), d, id, works, now)
  {
    hide Backoff, DistinctIds, Lookup, MarkedFailed, MarkedDelivered;
    if d.id in works {
      DeliveredRow(rows, d.id, id);
    } else {
      FailedRow(rows, d, id, now);
    }
  }

  lemma {:induction false} DrainAllRow(rows: seq<Row>, due: seq<DueRow>, id: nat, works: set<nat>, at: seq<int>)
    requires DistinctIds(rows) && |at| == |due|
    requires forall i, j :: 0 <= i < j < |due| ==> due[i].id != due[j].id
    ensures DistinctIds(DrainAll(rows, due, works, at))
    ensures (forall i :: 0 <= i < |due| ==> due[i].id != id) ==> Lookup(DrainAll(rows, due, works, at), id) == Lookup(rows, id)
    ensures forall i :: 0 <= i < |due| && due[i].id == id ==>
              Lookup(DrainAll(rows, due, works, at), id) == RowAfter(Lookup(rows, id), due[i], id, works, at[i])
  {
    hide RowAfter, DrainOne, Lookup;
    if due != [] {
      var n := |due| - 1;
      DrainAllRow(rows, due[..n], id, works, at[..n]);
      DrainOneRow(DrainAll(rows, due[..n], works, at[..n]), due[n], id, works, at[n]);
      OtherRow(Lookup(rows, id), due[n], id, works, at[n]);
      forall i | 0 <= i < |due| && due[i].id == id
        ensures Lookup(DrainAll(rows, due, works, at), id) == RowAfter(Lookup(rows, id), due[i], id, works, at[i])
      {
        if i < n {
          assert due[..n][i] == due[i] && at[..n][i] == at[i];
          OtherRow(RowAfter(Lookup(rows, id), due[i], id, works, at[i]), due[n], id, works, at[n]);
        }
      }
    }
  }

  lemma OtherRow(r: Option<Row>, d: DueRow, id: nat, works: set<nat>, now: int)
    ensures d.id != id ==> RowAfter(r, d, id, works, now) == r
  {
  }

  function AfterPass(rows: seq<Row>, pass: Pass): seq<Row>
    requires |pass.at| == |pass.due|
  {
    DrainAll(rows, pass.due, pass.works, pass.at)
  }

  ghost predicate AllSelect(rows: seq<Row>, passes: seq<Pass>)
    decreases |passes|
  {
    passes == [] || (Selects(rows, passes[0]) && AllSelect(AfterPass(rows, passes[0]), passes[1..]))
  }

  function AfterPasses(rows: seq<Row>, passes: seq<Pass>): seq<Row>
    requires forall i :: 0 <= i < |passes| ==> |passes[i].at| == |passes[i].due|
    decreases |passes|
  {
    if passes == [] then rows else AfterPasses(AfterPass(rows, passes[0]), passes[1..])
  }

  /** How many passes attempt the row. */
  ghost function Tries(passes: seq<Pass>, id: nat): nat {
    if passes == [] then 0 else (if Takes(passes[0], id) then 1 else 0) + Tries(passes[1..], id)
  }

  predicate StillPending(rows: seq<Row>, id: nat) {
    Lookup(rows, id).Some? && Lookup(rows, id).value.status.Pending?
  }

  /** The wait a pass schedules for the row: only when it is tried and stays pending. */
  ghost function WaitOf(rows: seq<Row>, pass: Pass, id: nat): int
    requires |pass.at| == |pass.due|
  {
    if Takes(pass, id) && StillPending(AfterPass(rows, pass), id) then Backoff(AttemptsOf(rows, id)) else 0
  }

  function AttemptsOf(rows: seq<Row>, id: nat): nat {
    if Lookup(rows, id).Some? then Lookup(rows, id).value.attempts else 0
  }

  ghost function Waits(rows: seq<Row>, passes: seq<Pass>, id: nat): int
    requires forall i :: 0 <= i < |passes| ==> |passes[i].at| == |passes[i].due|
    decreases |passes|
  {
    if passes == [] then 0 else WaitOf(rows, passes[0], id) + Waits(AfterPass(rows, passes[0]), passes[1..], id)
  }

  /** The waits still to come after `attempts` failures. */
  function Remaining(attempts: nat): nat
    decreases MAX_ATTEMPTS - attempts
  {
    if attempts + 1 >= MAX_ATTEMPTS then 0 else Backoff(attempts) + Remaining(attempts + 1)
  }

  /** A tried row that stays pending has one more attempt behind it, and the scheduled wait is real. */
  lemma PassOnRow(rows: seq<Row>, pass: Pass, id: nat)
    requires DistinctIds(rows) && Selects(rows, pass)
    ensures var v := AfterPass(rows, pass);
            && DistinctIds(v)
            && (!Takes(pass, id) ==> Lookup(v, id) == Lookup(rows, id))
            && (Takes(pass, id) ==> StillPending(rows, id))
            && (Takes(pass, id) && StillPending(v, id) ==>
                  AttemptsOf(v, id) == AttemptsOf(rows, id) + 1 < MAX_ATTEMPTS
                  && exists i :: 0 <= i < |pass.due| && pass.due[i].id == id
                       && Lookup(v, id).value.nextAt == pass.at[i] + Backoff(AttemptsOf(rows, id)))
  {
    hide Lookup, Backoff;
    DrainAllRow(rows, pass.due, id, pass.works, pass.at);
  }

  /** Main result: with one drainer and no new enqueues, a row is attempted at most MAX_ATTEMPTS times
      before it leaves pending, and the waits scheduled for it stay within what remains. */
  lemma {:induction false} LeavesPending(rows: seq<Row>, passes: seq<Pass>, id: nat)
    requires DistinctIds(rows) && AllSelect(rows, passes)
    requires forall i :: 0 <= i < |passes| ==> |passes[i].at| == |passes[i].due|
    requires AttemptsOf(rows, id) < MAX_ATTEMPTS
    ensures Tries(passes, id) <= MAX_ATTEMPTS - AttemptsOf(rows, id)
    ensures Waits(rows, passes, id) <= Remaining(AttemptsOf(rows, id))
    ensures Tries(passes, id) == MAX_ATTEMPTS - AttemptsOf(rows, id) ==> !StillPending(AfterPasses(rows, passes), id)
    ensures !StillPending(rows, id) ==> Tries(passes, id) == 0 && Waits(rows, passes, id) == 0
                                        && !StillPending(AfterPasses(rows, passes), id)
    decreases |passes|
  {
    hide Lookup, Backoff, DistinctIds, Takes, Selects, AfterPass;
    if passes != [] {
      PassOnRow(rows, passes[0], id);
      LookupAttempts(rows, AfterPass(rows, passes[0]), id);
      var v := AfterPass(rows, passes[0]);
      if StillPending(v, id) || !Takes(passes[0], id) {
        LeavesPending(v, passes[1..], id);
      } else {
        OnceGone(v, passes[1..], id);
      }
    }
  }

  lemma LookupAttempts(rows: seq<Row>, v: seq<Row>, id: nat)
    ensures Lookup(rows, id) == Lookup(v, id) ==>
              AttemptsOf(v, id) == AttemptsOf(rows, id) && (StillPending(v, id) <==> StillPending(rows, id))
  {
  }

  lemma {:induction false} OnceGone(rows: seq<Row>, passes: seq<Pass>, id: nat)
    requires DistinctIds(rows) && AllSelect(rows, passes) && !StillPending(rows, id)
    requires forall i :: 0 <= i < |passes| ==> |passes[i].at| == |passes[i].due|
    ensures Tries(passes, id) == 0 && Waits(rows, passes, id) == 0 && !StillPending(AfterPasses(rows, passes), id)
    decreases |passes|
  {
    hide Lookup, Backoff, DistinctIds, Takes, Selects, AfterPass;
    if passes != [] {
      PassOnRow(rows, passes[0], id);
      LookupAttempts(rows, AfterPass(rows, passes[0]), id);
      OnceGone(AfterPass(rows, passes[0]), passes[1..], id);
    }
  }

  /** From a fresh enqueue the scheduled waits total at most 2,265 seconds. */
  lemma WaitsTotal()
    ensures Remaining(0) == 2_265_000
  {
  }

  // ---- the store ---------------------------------------------------------------------------

  function Worked(due: seq<DueRow>, works: set<nat>): nat {
    if due == [] then 0 else Worked(due[..|due| - 1], works) + (if due[|due| - 1].id in works then 1 else 0)
  }

  /** A delivered revoke is gone and a delivered snapshot marked; a failed row has one attempt more, and its
      next one is due after the wait, or never once the attempts are used up. */
  predicate SettledAs(was: Row, now: Option<Row>, worked: bool, t: int) {
    if worked && was.kind.Revoke? then now == None
    else if worked then now == Some(was.(status := Delivered))
    else if was.attempts + 1 < 12 then now == Some(was.(attempts := was.attempts + 1, nextAt := t + Backoff(was.attempts)))
    else now == Some(was.(attempts := was.attempts + 1, status := GivenUp, nextAt := t))
  }

  /** Every due row is settled by whether its delivery worked, and every other row is as it was. */
  ghost predicate SettledBy(was: seq<Row>, now: seq<Row>, pass: Pass)
    requires |pass.at| == |pass.due|
  {
    && (forall i, j :: 0 <= i < |pass.due| && 0 <= j < |was| && was[j].id == pass.due[i].id ==>
          SettledAs(was[j], Lookup(now, was[j].id), pass.due[i].id in pass.works, pass.at[i]))
    && (forall id :: !Takes(pass, id) ==> Lookup(now, id) == Lookup(was, id))
  }

  lemma DrainSettles(rows: seq<Row>, pass: Pass)
    requires Selects(rows, pass)
    ensures DistinctIds(rows) ==> SettledBy(rows, AfterPass(rows, pass), pass)
  {
    hide Backoff, Selects;
    SelectedDiffer(rows, pass);
    if DistinctIds(rows) {
      var now := AfterPass(rows, pass);
      forall i, j | 0 <= i < |pass.due| && 0 <= j < |rows| && rows[j].id == pass.due[i].id
        ensures SettledAs(rows[j], Lookup(now, rows[j].id), pass.due[i].id in pass.works, pass.at[i])
      {
        DrainAllRow(rows, pass.due, rows[j].id, pass.works, pass.at);
        SelectedRow(rows, pass, i, j);
      }
      forall id | !Takes(pass, id) ensures Lookup(now, id) == Lookup(rows, id) {
        DrainAllRow(rows, pass.due, id, pass.works, pass.at);
      }
    }
  }

  lemma SelectedDiffer(rows: seq<Row>, pass: Pass)
    requires Selects(rows, pass)
    ensures |pass.at| == |pass.due| && forall i, j :: 0 <= i < j < |pass.due| ==> pass.due[i].id != pass.due[j].id
  {
  }

  lemma SelectedRow(rows: seq<Row>, pass: Pass, i: nat, j: nat)
    requires Selects(rows, pass) && DistinctIds(rows) && i < |pass.due| && j < |rows| && rows[j].id == pass.due[i].id
    ensures Lookup(rows, rows[j].id) == Some(rows[j]) && rows[j].status.Pending? && rows[j].attempts == pass.due[i].attempts
  {
  }

  lemma {:induction false} WorkedCount(due: seq<DueRow>, works: set<nat>, n: nat)
    requires n <= |due|
    ensures Worked(due[..n], works) == |set i | 0 <= i < n && due[i].id in works|
  {
    var counted := set i | 0 <= i < n && due[i].id in works;
    if n == 0 {
      assert counted == {};
    } else {
      WorkedCount(due, works, n - 1);
      assert due[..n][..n - 1] == due[..n - 1];
      assert counted == (set i | 0 <= i < n - 1 && due[i].id in works) + (if due[n - 1].id in works then {n - 1} else {});
    }
    assert due[..|due|] == due;
  }

  class Store {
    var rows: seq<Row>
    var nextId: nat

    constructor ()
      ensures Box() == Outbox([], 0)
    {
      rows, nextId := [], 0;
    }

    function Box(): Outbox
      reads this
    {
      Outbox(rows, nextId)
    }

    method EnqueueSnapshotDispatch(datalake: string, now: int)
      modifies this
      ensures Box() == SnapshotEnqueued(old(Box()), datalake, now)
      ensures exists i :: AsksSnapshot(old(Box()), Box(), i, datalake, now)
    {
      SnapshotFields(Box(), datalake, now);
      var k := SnapshotAt(rows, datalake);
      if k < |rows| {
        rows := rows[k := rows[k].(status := Pending, attempts := 0, nextAt := now)];
      } else {
        rows := rows + [Row(nextId, datalake, Snapshot, "", "", Pending, 0, now)];
        nextId := nextId + 1;
      }
    }

    method EnqueueRevokeDispatch(datalake: string, dedup: string, payload: string, now: int)
      modifies this
      ensures Box() == RevokeEnqueued(old(Box()), datalake, dedup, payload, now)
      ensures exists i :: AsksRevoke(old(Box()), Box(), i, datalake, dedup, payload, now)
    {
      RevokeFields(Box(), datalake, dedup, payload, now);
      var k := PendingRevokeAt(rows, datalake, dedup);
      if k < |rows| {
        rows := rows[k := rows[k].(status := Pending, payload := payload, attempts := 0, nextAt := now)];
      } else {
        rows := rows + [Row(nextId, datalake, Revoke, dedup, payload, Pending, 0, now)];
        nextId := nextId + 1;
      }
    }

    /** One drain over the rows its query selected. */
    method DrainGatewayDispatch(pass: Pass) returns (delivered: nat, failed: nat)
      requires Selects(rows, pass)
      modifies this`rows
      ensures rows == AfterPass(old(rows), pass)
      ensures delivered == Worked(pass.due, pass.works) && delivered + failed == |pass.due|
      ensures DistinctIds(old(rows)) ==> SettledBy(old(rows), rows, pass)
      ensures delivered == |set i | 0 <= i < |pass.due| && pass.due[i].id in pass.works|
    {
      hide Backoff, Lookup, SettledBy;
      DrainSettles(rows, pass);
      WorkedCount(pass.due, pass.works, |pass.due|);
      delivered, failed := 0, 0;
      for i := 0 to |pass.due|
        invariant rows == DrainAll(old(rows), pass.due[..i], pass.works, pass.at[..i])
        invariant delivered == Worked(pass.due[..i], pass.works) && delivered + failed == i
      {
        var d := pass.due[i];
        assert pass.due[..i + 1][..i] == pass.due[..i] && pass.at[..i + 1][..i] == pass.at[..i];
        if d.id in pass.works {
          SettleDelivered(d.id);
          delivered := delivered + 1;
        } else {
          SettleFailed(d, pass.at[i]);
          failed := failed + 1;
        }
      }
      assert pass.due[..|pass.due|] == pass.due && pass.at[..|pass.at|] == pass.at;
    }

    /** DELETE for a revoke, guarded UPDATE for a snapshot. */
    method SettleDelivered(id: nat)
      modifies this`rows
      ensures rows == MarkedDelivered(old(rows), id)
    {
      var k := At(rows, id);
      if k == |rows| { return; }
      if rows[k].kind.Revoke? {
        rows := rows[..k] + rows[k + 1..];
      } else if rows[k].status.Pending? {
        rows := rows[k := rows[k].(status := Delivered)];
      }
    }

    /** The bookkeeping of a failed delivery, guarded on the row still being pending. */
    method SettleFailed(d: DueRow, now: int)
      modifies this`rows
      ensures rows == MarkedFailed(old(rows), d.id, d.attempts, now)
    {
      hide Backoff;
      var attempts := d.attempts + 1;
      var giveUp := attempts >= MAX_ATTEMPTS;
      var k := At(rows, d.id);
      if k < |rows| && rows[k].status.Pending? {
        rows := rows[k := rows[k].(attempts := attempts, status := if giveUp then GivenUp else Pending,
                                   nextAt := now + if giveUp then 0 else Backoff(d.attempts))];
      }
    }
  }
}
