/** Session billing as it runs: any number of sweep workers, each debiting one closed session in
    separate steps, interleaved with everything else and stopping anywhere. */
module SessionBilling {

  import opened Text
  import opened CreditLedger
  import opened Charges

  /** A row of agent_session, times in milliseconds. */
  datatype Session = Session(org: string, started: int, ended: Option<int>, expires: int, billed: Option<int>, size: string)

  /** Where a worker is inside debitSessionDuration, with the locals it holds there. */
  datatype Worker =
    | ReadingBalance(id: string, org: string, micro: nat)
    | Posting(id: string, org: string, micro: nat, before: int)
    | Reporting(id: string, org: string, micro: nat, before: int)
    | Marking(id: string)

  datatype Report = Report(org: string, overage: nat, id: string)

  datatype World = World(db: Db, sessions: map<string, Session>, workers: map<nat, Worker>, reports: seq<Report>)

  const START: World := World(EMPTY, map[], map[], [])
  const SESSION_PREFIX := "session:"

  function SessionKey(id: string): string { SESSION_PREFIX + id }

  /** The charge derived from a session row: its duration at the rate of its size. */
  function Charge(s: Session): nat {
    if s.ended.None? then 0 else ChargeOf(Duration(s.started, s.ended.value, s.expires), s.size)
  }

  function SessionDebit(id: string, org: string, micro: nat): Op {
    Post(org, 0 - micro, DebitEntry, SessionKey(id), Topup)
  }

  /** The part of a debit that the balance before it does not cover. */
  function Overage(before: int, micro: nat): nat {
    Max(0, micro - Max(0, before))
  }

  /** The cached balance; a failed read counts as zero. */
  function BalanceRead(db: Db, org: string, readable: bool): int {
    if readable then RowOf(db, org).total else 0
  }

  datatype Step =
    | Open(id: string, session: Session)
    | Close(id: string, now: int)                        // only if still active
    | Reap(now: int)                                     // close every active session past its expiry
    | Kill(id: string, now: int)                         // sets ended_at whatever the status
    | Elsewhere(op: Op)                                  // any other posting or reset
    | Begin(worker: nat, id: string)                     // a worker reads the session row
    | Advance(worker: nat, now: int, readable: bool)     // it takes its next step
    | Crash(worker: nat)

  function Ended(s: Session, now: int): Session { s.(ended := Some(now)) }

  function Reaped(sessions: map<string, Session>, now: int): map<string, Session> {
    map id | id in sessions ::
      if sessions[id].ended.None? && sessions[id].expires < now then Ended(sessions[id], now) else sessions[id]
  }

  function AdvanceWorker(w: World, k: nat, now: int, readable: bool): World
    requires k in w.workers
  {
    match w.workers[k]
    case ReadingBalance(id, org, micro) =>
      w.(workers := w.workers[k := Posting(id, org, micro, BalanceRead(w.db, org, readable))])
    case Posting(id, org, micro, before) =>
      w.(db := Apply(w.db, SessionDebit(id, org, micro)).0, workers := w.workers[k := Reporting(id, org, micro, before)])
    case Reporting(id, org, micro, before) =>
      var overage := Overage(before, micro);
      w.(reports := w.reports + (if overage > 0 then [Report(org, overage, id)] else []),
         workers := w.workers[k := Marking(id)])
    case Marking(id) =>
      w.(sessions := if id in w.sessions then w.sessions[id := w.sessions[id].(billed := Some(now))] else w.sessions,
         workers := w.workers - {k})
  }

  /** A worker's first step: skip unless the session is closed and unbilled; a zero charge is only marked. */
  function BeginWorker(w: World, k: nat, id: string): World {
    if k in w.workers || id !in w.sessions || w.sessions[id].ended.None? || w.sessions[id].billed.Some? then w
    else
      var s := w.sessions[id];
      w.(workers := w.workers[k := if Charge(s) > 0 then ReadingBalance(id, s.org, Charge(s)) else Marking(id)])
  }

  function Next(w: World, step: Step): World {
    match step
    case Open(id, s) =>
      if id in w.sessions then w
      else w.(sessions := w.sessions[id := s.(ended := None, billed := None)])
    case Close(id, now) =>
      if id in w.sessions && w.sessions[id].ended.None? then w.(sessions := w.sessions[id := Ended(w.sessions[id], now)]) else w
    case Reap(now) => w.(sessions := Reaped(w.sessions, now))
    case Kill(id, now) =>
      if id in w.sessions then w.(sessions := w.sessions[id := Ended(w.sessions[id], now)]) else w
    case Elsewhere(op) => w.(db := Apply(w.db, op).0)
    case Begin(k, id) => BeginWorker(w, k, id)
    case Advance(k, now, readable) => if k in w.workers then AdvanceWorker(w, k, now, readable) else w
    case Crash(k) => w.(workers := w.workers - {k})
  }

  function RunSteps(w: World, steps: seq<Step>): World
    decreases |steps|
  {
    if steps == [] then w else RunSteps(Next(w, steps[0]), steps[1..])
  }

  // ---- when a kill is harmless -------------------------------------------------------------

  ghost predicate InFlight(w: World, id: string) {
    exists k :: k in w.workers && w.workers[k].id == id
  }

  /** Billing of the session has begun: a worker is on it, or it is posted, or it is marked. */
  ghost predicate Committed(w: World, id: string)
    requires id in w.sessions
  {
    w.sessions[id].billed.Some? || Posted(w.db.ledger, w.sessions[id].org, SessionKey(id)) || InFlight(w, id)
  }

  /** A kill that lands after billing has begun leaves the re-derived charge as it was. */
  ghost predicate HarmlessKill(w: World, id: string, now: int) {
    id in w.sessions && Committed(w, id) ==> Charge(Ended(w.sessions[id], now)) == Charge(w.sessions[id])
  }

  ghost predicate Allowed(w: World, step: Step) {
    match step
    case Elsewhere(op) => !(SESSION_PREFIX <= op.key)
    case Kill(id, now) => HarmlessKill(w, id, now)
    case _ => true
  }

  ghost predicate AllAllowed(w: World, steps: seq<Step>)
    decreases |steps|
  {
    steps == [] || (Allowed(w, steps[0]) && AllAllowed(Next(w, steps[0]), steps[1..]))
  }

  // ---- the invariant -----------------------------------------------------------------------

  /** A session debit in the ledger is the debit of a closed session, at its charge. */
  predicate RowFits(sessions: map<string, Session>, e: Entry) {
    SESSION_PREFIX <= e.key ==>
      var id := e.key[|SESSION_PREFIX|..];
      && id in sessions && sessions[id].ended.Some?
      && e.org == sessions[id].org && e.amount == 0 - Charge(sessions[id]) < 0
  }

  ghost predicate RowsFit(w: World) {
    forall i :: 0 <= i < |w.db.ledger| ==> RowFits(w.sessions, w.db.ledger[i])
  }

  /** The charge is in the ledger, or there is nothing to charge. */
  ghost predicate Settled(w: World, id: string)
    requires id in w.sessions
  {
    Charge(w.sessions[id]) > 0 ==> Posted(w.db.ledger, w.sessions[id].org, SessionKey(id))
  }

  ghost predicate WorkerFits(w: World, k: Worker) {
    && k.id in w.sessions && w.sessions[k.id].ended.Some?
    && (!k.Marking? ==> k.org == w.sessions[k.id].org && k.micro == Charge(w.sessions[k.id]) > 0)
    && (k.Reporting? || k.Marking? ==> Settled(w, k.id))
  }

  ghost predicate WorkersFit(w: World) {
    forall k :: k in w.workers ==> WorkerFits(w, w.workers[k])
  }

  ghost predicate BilledFit(w: World) {
    forall id :: id in w.sessions && w.sessions[id].billed.Some? ==> w.sessions[id].ended.Some? && Settled(w, id)
  }

  ghost predicate Inv(w: World) {
    Consistent(w.db) && RowsFit(w) && WorkersFit(w) && BilledFit(w)
  }

  // ---- every step keeps it -----------------------------------------------------------------

  lemma SessionKeys(a: string, b: string)
    ensures SessionKey(a) == SessionKey(b) <==> a == b
    ensures SESSION_PREFIX <= SessionKey(a) && SessionKey(a)[|SESSION_PREFIX|..] == a
  {
    assert SessionKey(a)[|SESSION_PREFIX|..] == a && SessionKey(b)[|SESSION_PREFIX|..] == b;
  }

  /** A posted session is a closed session with a positive charge. */
  lemma PostedIsCharged(w: World, id: string)
    requires RowsFit(w) && id in w.sessions && Posted(w.db.ledger, w.sessions[id].org, SessionKey(id))
    ensures w.sessions[id].ended.Some? && Charge(w.sessions[id]) > 0
  {
    SessionKeys(id, id);
    var i :| 0 <= i < |w.db.ledger| && w.db.ledger[i].org == w.sessions[id].org && w.db.ledger[i].key == SessionKey(id);
    assert RowFits(w.sessions, w.db.ledger[i]);
  }

  /** A transaction only appends, and its key is posted afterwards. */
  lemma ApplyGrows(db: Db, op: Op)
    ensures var l := Apply(db, op).0.ledger;
            && Posted(l, op.org, op.key)
            && (Posted(db.ledger, op.org, op.key) ==> l == db.ledger)
            && (!Posted(db.ledger, op.org, op.key) ==>
                  |l| == |db.ledger| + 1 && l[..|db.ledger|] == db.ledger && l[|db.ledger|].org == op.org
                  && l[|db.ledger|].key == op.key && l[|db.ledger|].amount == LedgerAmount(op, RowOf(db, op.org)))
  {
    hide Move;
    if !Posted(db.ledger, op.org, op.key) {
      var l := Apply(db, op).0.ledger;
      assert l[|db.ledger|].org == op.org && l[|db.ledger|].key == op.key;
    }
  }

  lemma PostedGrows(a: seq<Entry>, b: seq<Entry>, org: string, key: string)
    requires a <= b && Posted(a, org, key)
    ensures Posted(b, org, key)
  {
    var i :| 0 <= i < |a| && a[i].org == org && a[i].key == key;
    assert b[i].org == org && b[i].key == key;
  }

  /** Growing the ledger by rows that fit disturbs nothing else. */
  lemma LedgerGrows(w: World, db: Db)
    requires Inv(w) && Consistent(db) && w.db.ledger <= db.ledger
    requires forall i :: |w.db.ledger| <= i < |db.ledger| ==> RowFits(w.sessions, db.ledger[i])
    ensures Inv(w.(db := db))
    ensures forall id :: id in w.sessions && Settled(w, id) ==> Settled(w.(db := db), id)
  {
    hide Charge, RowFits, Consistent;
    var v := w.(db := db);
    forall i | 0 <= i < |db.ledger| ensures RowFits(v.sessions, db.ledger[i]) {
      assert i < |w.db.ledger| ==> db.ledger[i] == w.db.ledger[i];
    }
    forall id | id in w.sessions && Settled(w, id) ensures Settled(v, id) {
      if Charge(w.sessions[id]) > 0 {
        PostedGrows(w.db.ledger, db.ledger, w.sessions[id].org, SessionKey(id));
      }
    }
  }

  lemma ElsewhereKeeps(w: World, op: Op)
    requires Inv(w) && !(SESSION_PREFIX <= op.key)
    ensures Inv(w.(db := Apply(w.db, op).0))
  {
    hide Inv, Apply, Consistent, Charge, Posted, RowOf, LedgerAmount, Sum;
    InvIsConsistent(w);
    ApplyGrows(w.db, op);
    ApplyConsistent(w.db, op);
    LedgerGrows(w, Apply(w.db, op).0);
  }

  lemma InvIsConsistent(w: World)
    requires Inv(w)
    ensures Consistent(w.db)
  {
  }

  lemma CommittedIsEnded(w: World, id: string)
    requires Inv(w) && id in w.sessions && Committed(w, id)
    ensures w.sessions[id].ended.Some?
  {
    hide Charge, Consistent;
    if Posted(w.db.ledger, w.sessions[id].org, SessionKey(id)) {
      PostedIsCharged(w, id);
    }
  }

  /** Rewriting a session row without moving its org or its charge keeps the invariant. */
  lemma SameChargeKeeps(w: World, id: string, s: Session)
    requires Inv(w) && id in w.sessions
    requires w.sessions[id].ended.Some? && s.ended.Some?
    requires s.org == w.sessions[id].org && Charge(s) == Charge(w.sessions[id])
    requires s.billed.Some? ==> Settled(w, id)
    ensures Inv(w.(sessions := w.sessions[id := s]))
  {
    hide Charge, Consistent, Posted, SessionKey;
    var v := w.(sessions := w.sessions[id := s]);
    forall i | 0 <= i < |v.db.ledger| ensures RowFits(v.sessions, v.db.ledger[i]) {
      assert RowFits(w.sessions, w.db.ledger[i]);
    }
    forall other | other in w.sessions ensures Settled(v, other) <==> Settled(w, other) {}
  }

  /** A session that billing has not touched may be opened, closed or closed again freely. */
  lemma UntouchedKeeps(w: World, id: string, s: Session)
    requires Inv(w) && s.billed.None?
    requires id in w.sessions ==> !Committed(w, id) && s.org == w.sessions[id].org
    ensures Inv(w.(sessions := w.sessions[id := s]))
  {
    hide Charge, Consistent;
    var v := w.(sessions := w.sessions[id := s]);
    forall i | 0 <= i < |v.db.ledger| ensures RowFits(v.sessions, v.db.ledger[i]) {
      var e := w.db.ledger[i];
      assert RowFits(w.sessions, e);
      if SESSION_PREFIX <= e.key {
        assert e.key == SessionKey(e.key[|SESSION_PREFIX|..]);
      }
    }
    forall k | k in v.workers ensures WorkerFits(v, v.workers[k]) {
      assert WorkerFits(w, w.workers[k]) && w.workers[k].id != id;
    }
  }

  lemma ReapKeeps(w: World, now: int)
    requires Inv(w)
    ensures Inv(w.(sessions := Reaped(w.sessions, now)))
  {
    hide Charge, Consistent;
    var v := w.(sessions := Reaped(w.sessions, now));
    forall i | 0 <= i < |v.db.ledger| ensures RowFits(v.sessions, v.db.ledger[i]) {
      assert RowFits(w.sessions, w.db.ledger[i]);
    }
    forall k | k in v.workers ensures WorkerFits(v, v.workers[k]) {
      assert WorkerFits(w, w.workers[k]);
    }
    forall id | id in v.sessions && v.sessions[id].billed.Some? ensures v.sessions[id].ended.Some? && Settled(v, id) {
      assert w.sessions[id].ended.Some? && Settled(w, id);
    }
  }

  lemma WorkerMoves(w: World, k: nat, pc: Worker)
    requires Inv(w) && WorkerFits(w, pc)
    ensures Inv(w.(workers := w.workers[k := pc]))
  {
    hide Charge, Consistent, RowFits, Posted;
    var v := w.(workers := w.workers[k := pc]);
    forall j | j in v.workers ensures WorkerFits(v, v.workers[j]) {
      assert j != k ==> WorkerFits(w, w.workers[j]);
    }
  }

  lemma WorkerStops(w: World, k: nat)
    requires Inv(w)
    ensures Inv(w.(workers := w.workers - {k}))
  {
    hide Charge, Consistent, RowFits, Posted;
    var v := w.(workers := w.workers - {k});
    forall j | j in v.workers ensures WorkerFits(v, v.workers[j]) {
      assert WorkerFits(w, w.workers[j]);
    }
  }

  lemma ReportsAside(w: World, reports: seq<Report>)
    requires Inv(w)
    ensures Inv(w.(reports := reports))
    ensures forall k: Worker :: WorkerFits(w.(reports := reports), k) == WorkerFits(w, k)
  {
  }

  /** The debit of a worker that fits: it posts once, and a replay finds its own row. */
  lemma PostingKeeps(w: World, id: string, org: string, micro: nat)
    requires Inv(w) && id in w.sessions && w.sessions[id].ended.Some?
    requires org == w.sessions[id].org && micro == Charge(w.sessions[id]) > 0
    ensures var v := w.(db := Apply(w.db, SessionDebit(id, org, micro)).0); Inv(v) && Settled(v, id)
  {
    hide Inv, Apply, Consistent, Charge, Posted, RowOf, Sum, SessionKey;
    var op := SessionDebit(id, org, micro);
    InvIsConsistent(w);
    ApplyGrows(w.db, op);
    ApplyConsistent(w.db, op);
    SessionKeys(id, id);
    LedgerGrows(w, Apply(w.db, op).0);
  }

  lemma AdvanceKeeps(w: World, k: nat, now: int, readable: bool)
    requires Inv(w) && k in w.workers
    ensures Inv(AdvanceWorker(w, k, now, readable))
  {
    hide Consistent, RowsFit, BilledFit, Apply, Charge, SessionDebit, Settled, Overage, BalanceRead;
    var pc := w.workers[k];
    assert WorkerFits(w, pc);
    match pc
    case ReadingBalance(id, org, micro) =>
      WorkerMoves(w, k, Posting(id, org, micro, BalanceRead(w.db, org, readable)));
    case Posting(id, org, micro, before) =>
      PostingKeeps(w, id, org, micro);
      WorkerMoves(w.(db := Apply(w.db, SessionDebit(id, org, micro)).0), k, Reporting(id, org, micro, before));
    case Reporting(id, org, micro, before) =>
      WorkerMoves(w, k, Marking(id));
      ReportsAside(w.(workers := w.workers[k := Marking(id)]), AdvanceWorker(w, k, now, readable).reports);
    case Marking(id) =>
      MarkedCharge(w.sessions[id], now);
      SameChargeKeeps(w, id, w.sessions[id].(billed := Some(now)));
      WorkerStops(w.(sessions := w.sessions[id := w.sessions[id].(billed := Some(now))]), k);
  }

  lemma MarkedCharge(s: Session, now: int)
    ensures Charge(s.(billed := Some(now))) == Charge(s)
  {
  }

  lemma BeginKeeps(w: World, k: nat, id: string)
    requires Inv(w)
    ensures Inv(BeginWorker(w, k, id))
  {
    hide Consistent, RowsFit, BilledFit, WorkersFit, Charge;
    var v := BeginWorker(w, k, id);
    if v != w {
      WorkerMoves(w, k, v.workers[k]);
    }
  }

  lemma NextKeeps(w: World, step: Step)
    requires Inv(w) && Allowed(w, step)
    ensures Inv(Next(w, step))
  {
    hide Inv, Charge, Committed, AdvanceWorker, BeginWorker, Apply, Reaped;
    match step
    case Open(id, s) =>
      if id !in w.sessions { UntouchedKeeps(w, id, s.(ended := None, billed := None)); }
    case Close(id, now) =>
      if id in w.sessions && w.sessions[id].ended.None? {
        if Committed(w, id) { CommittedIsEnded(w, id); }
        ActiveIsUnbilled(w, id);
        UntouchedKeeps(w, id, Ended(w.sessions[id], now));
      }
    case Reap(now) => ReapKeeps(w, now);
    case Kill(id, now) =>
      if id in w.sessions {
        if Committed(w, id) {
          CommittedIsEnded(w, id);
          KillKeepsBilled(w, id);
          SameChargeKeeps(w, id, Ended(w.sessions[id], now));
        } else {
          UnbilledUnlessCommitted(w, id);
          UntouchedKeeps(w, id, Ended(w.sessions[id], now));
        }
      }
    case Elsewhere(op) => ElsewhereKeeps(w, op);
    case Begin(k, id) => BeginKeeps(w, k, id);
    case Advance(k, now, readable) => if k in w.workers { AdvanceKeeps(w, k, now, readable); }
    case Crash(k) => WorkerStops(w, k);
  }

  lemma UnbilledUnlessCommitted(w: World, id: string)
    requires id in w.sessions && !Committed(w, id)
    ensures w.sessions[id].billed.None?
  {
  }

  lemma ActiveIsUnbilled(w: World, id: string)
    requires Inv(w) && id in w.sessions && w.sessions[id].ended.None?
    ensures w.sessions[id].billed.None?
  {
  }

  lemma KillKeepsBilled(w: World, id: string)
    requires Inv(w) && id in w.sessions
    ensures w.sessions[id].billed.Some? ==> Settled(w, id)
  {
  }

  lemma {:induction false} RunKeeps(w: World, steps: seq<Step>)
    requires Inv(w) && AllAllowed(w, steps)
    ensures Inv(RunSteps(w, steps))
    decreases |steps|
  {
    hide Inv, Next, Allowed;
    if steps != [] {
      NextKeeps(w, steps[0]);
      RunKeeps(Next(w, steps[0]), steps[1..]);
    }
  }

  lemma StartFits()
    ensures Inv(START)
  {
  }

  // ---- exactly once ------------------------------------------------------------------------

  datatype DriftKind = MissingDebit | AmountMismatch | UnexpectedDebit

  /** The amount of the ledger row joined on (org, key), if there is one. */
  function AmountOf(ledger: seq<Entry>, org: string, key: string): Option<int> {
    if ledger == [] then None
    else if ledger[0].org == org && ledger[0].key == key then Some(ledger[0].amount)
    else AmountOf(ledger[1..], org, key)
  }

  /** How a billed session's ledger row deviates from its re-derived charge. */
  function DriftOf(db: Db, id: string, s: Session): Option<DriftKind> {
    var expected, posted := Charge(s), AmountOf(db.ledger, s.org, SessionKey(id));
    if expected > 0 && posted.None? then Some(MissingDebit)
    else if expected > 0 && posted != Some(0 - expected) then Some(AmountMismatch)
    else if expected == 0 && posted.Some? then Some(UnexpectedDebit)
    else None
  }

  lemma {:induction false} AmountOfRow(ledger: seq<Entry>, org: string, key: string)
    ensures AmountOf(ledger, org, key).Some? <==> Posted(ledger, org, key)
    ensures Posted(ledger, org, key) ==>
              exists i :: 0 <= i < |ledger| && ledger[i].org == org && ledger[i].key == key
                && AmountOf(ledger, org, key) == Some(ledger[i].amount)
  {
    if ledger != [] {
      AmountOfRow(ledger[1..], org, key);
      if Posted(ledger[1..], org, key) {
        var i :| 0 <= i < |ledger[1..]| && ledger[1..][i].org == org && ledger[1..][i].key == key
                 && AmountOf(ledger[1..], org, key) == Some(ledger[1..][i].amount);
        assert ledger[i + 1] == ledger[1..][i];
      }
      if Posted(ledger, org, key) && !(ledger[0].org == org && ledger[0].key == key) {
        var i :| 0 <= i < |ledger| && ledger[i].org == org && ledger[i].key == key;
        assert ledger[1..][i - 1] == ledger[i];
      }
    }
  }

  /** A billed session whose books do not match. */
  predicate Drifted(w: World, id: string) {
    id in w.sessions && w.sessions[id].billed.Some? && DriftOf(w.db, id, w.sessions[id]).Some?
  }

  lemma OneRowPerSession(w: World, id: string, i: nat, j: nat)
    requires Inv(w) && i < |w.db.ledger| && j < |w.db.ledger|
    requires w.db.ledger[i].key == SessionKey(id) == w.db.ledger[j].key
    ensures i == j && id in w.sessions
    ensures w.db.ledger[i].org == w.sessions[id].org && w.db.ledger[i].amount == 0 - Charge(w.sessions[id]) < 0
  {
    hide Charge, PrefixSums;
    SessionKeys(id, id);
    assert RowFits(w.sessions, w.db.ledger[i]) && RowFits(w.sessions, w.db.ledger[j]);
  }

  /** What the ledger holds for a session: its charge, once, or nothing. */
  lemma LedgerOfSession(w: World, id: string)
    requires Inv(w) && id in w.sessions
    ensures var s := w.sessions[id];
            AmountOf(w.db.ledger, s.org, SessionKey(id))
              == if Posted(w.db.ledger, s.org, SessionKey(id)) then Some(0 - Charge(s)) else None
    ensures Posted(w.db.ledger, w.sessions[id].org, SessionKey(id)) ==> Charge(w.sessions[id]) > 0
  {
    hide Charge, Inv, Posted, AmountOf;
    var s := w.sessions[id];
    AmountOfRow(w.db.ledger, s.org, SessionKey(id));
    if Posted(w.db.ledger, s.org, SessionKey(id)) {
      var i :| 0 <= i < |w.db.ledger| && w.db.ledger[i].org == s.org && w.db.ledger[i].key == SessionKey(id)
               && AmountOf(w.db.ledger, s.org, SessionKey(id)) == Some(w.db.ledger[i].amount);
      OneRowPerSession(w, id, i, i);
    }
  }

  lemma InvHasNoDrift(w: World, id: string)
    requires Inv(w)
    ensures !Drifted(w, id)
  {
    hide Charge, Consistent, AmountOf, Posted;
    if id in w.sessions && w.sessions[id].billed.Some? {
      LedgerOfSession(w, id);
    }
  }

  /** Main result: however many workers run, interleave and crash, every session has at most one
      debit, of exactly its charge; once billed it has exactly that debit (none for a zero charge),
      and reconciliation finds no drift. */
  lemma ExactlyOnce(steps: seq<Step>, id: string)
    requires AllAllowed(START, steps)
    ensures var w := RunSteps(START, steps);
            && (forall i, j :: (0 <= i < |w.db.ledger| && 0 <= j < |w.db.ledger|
                                && w.db.ledger[i].key == SessionKey(id) == w.db.ledger[j].key) ==> i == j)
            && (forall i :: 0 <= i < |w.db.ledger| && w.db.ledger[i].key == SessionKey(id) ==>
                  id in w.sessions && w.db.ledger[i].org == w.sessions[id].org
                  && w.db.ledger[i].amount == 0 - Charge(w.sessions[id]) < 0)
            && (id in w.sessions && w.sessions[id].billed.Some? && Charge(w.sessions[id]) > 0 ==>
                  Posted(w.db.ledger, w.sessions[id].org, SessionKey(id)))
            && !Drifted(w, id)
  {
    StartFits();
    RunKeeps(START, steps);
    var w := RunSteps(START, steps);
    InvHasNoDrift(w, id);
    hide Charge, SessionKey, Consistent, RowsFit, RunSteps, Drifted, Posted;
    forall i, j | 0 <= i < |w.db.ledger| && 0 <= j < |w.db.ledger|
                  && w.db.ledger[i].key == SessionKey(id) == w.db.ledger[j].key
      ensures i == j && id in w.sessions
      ensures w.db.ledger[i].org == w.sessions[id].org && w.db.ledger[i].amount == 0 - Charge(w.sessions[id]) < 0
    {
      OneRowPerSession(w, id, i, j);
    }
  }

  // ---- which kills break it ----------------------------------------------------------------

  function FourSteps(k: nat, now: int, readable: bool): seq<Step> {
    var a := Advance(k, now, readable);
    [a, a, a, a]
  }

  lemma RunFour(w: World, a: Step, b: Step, c: Step, d: Step)
    ensures RunSteps(w, [a, b, c, d]) == Next(Next(Next(Next(w, a), b), c), d)
  {
    hide Next;
    assert [a, b, c, d][1..] == [b, c, d];
    assert [b, c, d][1..] == [c, d];
    assert [c, d][1..] == [d];
    var w1 := Next(w, a);
    var w2 := Next(w1, b);
    assert RunSteps(w, [a, b, c, d]) == RunSteps(w1, [b, c, d]);
    assert RunSteps(w1, [b, c, d]) == RunSteps(w2, [c, d]);
    assert RunSteps(w2, [c, d]) == RunSteps(Next(w2, c), [d]);
    assert RunSteps(Next(w2, c), [d]) == RunSteps(Next(Next(w2, c), d), []);
  }

  lemma {:induction false} RunStepsConcat(w: World, a: seq<Step>, b: seq<Step>)
    ensures RunSteps(w, a + b) == RunSteps(RunSteps(w, a), b)
    ensures AllAllowed(w, a + b) <==> AllAllowed(w, a) && AllAllowed(RunSteps(w, a), b)
    decreases |a|
  {
    hide Next, Allowed;
    if a == [] {
      assert a + b == b;
    } else {
      assert (a + b)[0] == a[0] && (a + b)[1..] == a[1..] + b;
      RunStepsConcat(Next(w, a[0]), a[1..], b);
    }
  }

  lemma {:induction false} WorkersAreAllowed(w: World, steps: seq<Step>)
    requires forall i :: 0 <= i < |steps| ==> steps[i].Begin? || steps[i].Advance? || steps[i].Crash?
    ensures AllAllowed(w, steps)
    decreases |steps|
  {
    hide Next;
    if steps != [] {
      WorkersAreAllowed(Next(w, steps[0]), steps[1..]);
    }
  }

  /** A worker left alone bills its session, with the charge it read when it began. */
  lemma WorkerFinishes(w: World, k: nat, now: int, readable: bool)
    requires k in w.workers && w.workers[k].id in w.sessions
    ensures AllAllowed(w, FourSteps(k, now, readable))
    ensures var v, pc := RunSteps(w, FourSteps(k, now, readable)), w.workers[k];
            && v.sessions == w.sessions[pc.id := w.sessions[pc.id].(billed := Some(now))]
            && v.workers == w.workers - {k}
            && (pc.Marking? ==> v.db == w.db && v.reports == w.reports)
            && (pc.ReadingBalance? ==>
                  var overage := Overage(BalanceRead(w.db, pc.org, readable), pc.micro);
                  && v.db == Apply(w.db, SessionDebit(pc.id, pc.org, pc.micro)).0
                  && v.reports == w.reports + (if overage > 0 then [Report(pc.org, overage, pc.id)] else []))
            && v.db.ledger == if pc.ReadingBalance? || pc.Posting?
                              then Apply(w.db, SessionDebit(pc.id, pc.org, pc.micro)).0.ledger else w.db.ledger
  {
    hide Apply, SessionDebit, Overage, BalanceRead;
    var a := Advance(k, now, readable);
    RunFour(w, a, a, a, a);
    WorkersAreAllowed(w, FourSteps(k, now, readable));
  }

  lemma DriftAfter(w: World, id: string, v: World, c: nat)
    requires id in w.sessions && id in v.sessions && v.sessions[id].billed.Some?
    requires v.sessions[id].org == w.sessions[id].org && Charge(v.sessions[id]) != c
    requires AmountOf(v.db.ledger, w.sessions[id].org, SessionKey(id)) == if c > 0 then Some(0 - c) else None
    ensures Drifted(v, id)
  {
    hide Charge, AmountOf;
  }

  lemma MovedCharge(w: World, id: string, now: int)
    requires !HarmlessKill(w, id, now)
    ensures id in w.sessions && Charge(Ended(w.sessions[id], now)) != Charge(w.sessions[id]) && Committed(w, id)
    ensures Next(w, Kill(id, now)) == w.(sessions := w.sessions[id := Ended(w.sessions[id], now)])
  {
    hide Charge;
  }

  /** Once billing has begun, a kill that moves the charge leads on to a drift. */
  lemma MovedChargeDrifts(w: World, id: string, now: int) returns (steps: seq<Step>)
    requires Inv(w) && !HarmlessKill(w, id, now)
    ensures AllAllowed(Next(w, Kill(id, now)), steps)
    ensures Drifted(RunSteps(Next(w, Kill(id, now)), steps), id)
  {
    MovedCharge(w, id, now);
    hide HarmlessKill, Next, Charge, Inv, Posted, Drifted, AmountOf;
    var v := Next(w, Kill(id, now));
    var s := w.sessions[id];
    if s.billed.Some? {
      steps := [];
      LedgerOfSession(w, id);
      BilledIsSettled(w, id);
      DriftAfter(w, id, v, Charge(s));
    } else if Posted(w.db.ledger, s.org, SessionKey(id)) {
      steps := FreshWorkerDrifts(w, v, id, now);
    } else {
      var k :| k in w.workers && w.workers[k].id == id;
      steps := FourSteps(k, now, true);
      WorkersAreAllowed(v, steps);
      OpenWorkerDrifts(w, v, k, now);
    }
  }

  lemma BilledIsSettled(w: World, id: string)
    requires Inv(w) && id in w.sessions && w.sessions[id].billed.Some?
    ensures Settled(w, id)
  {
  }

  lemma RunTwo(w: World, a: Step, b: Step)
    ensures RunSteps(w, [a, b]) == Next(Next(w, a), b)
  {
    hide Next;
    assert [a, b][1..] == [b];
    assert RunSteps(w, [a, b]) == RunSteps(Next(w, a), [b]);
  }

  /** The first steps of a new worker on a posted session: it holds the session's key, or only marks. */
  lemma FreshWorker(v: World, id: string)
    requires id in v.sessions && v.sessions[id].ended.Some? && v.sessions[id].billed.None?
    requires Posted(v.db.ledger, v.sessions[id].org, SessionKey(id))
    ensures var u := RunSteps(v, [Crash(0), Begin(0, id)]);
            && 0 in u.workers && u.workers[0].id == id && u.sessions == v.sessions && u.db == v.db
            && (u.workers[0].ReadingBalance? ==>
                  Apply(u.db, SessionDebit(id, u.workers[0].org, u.workers[0].micro)).0.ledger == u.db.ledger)
            && (u.workers[0].ReadingBalance? || u.workers[0].Marking?)
  {
    hide Charge;
    RunTwo(v, Crash(0), Begin(0, id));
    ApplyGrows(v.db, SessionDebit(id, v.sessions[id].org, Charge(v.sessions[id])));
    hide Apply, Posted;
  }

  lemma FreshWorkerDrifts(w: World, v: World, id: string, now: int) returns (steps: seq<Step>)
    requires Inv(w) && id in w.sessions && w.sessions[id].billed.None?
    requires Posted(w.db.ledger, w.sessions[id].org, SessionKey(id))
    requires v == w.(sessions := w.sessions[id := Ended(w.sessions[id], now)])
    requires Charge(v.sessions[id]) != Charge(w.sessions[id])
    ensures AllAllowed(v, steps) && Drifted(RunSteps(v, steps), id)
  {
    hide Charge, Inv, Posted, RunSteps, AllAllowed, Drifted, Apply, SessionDebit, AmountOf;
    var begin := [Crash(0), Begin(0, id)];
    steps := begin + FourSteps(0, now, true);
    FreshWorker(v, id);
    var u := RunSteps(v, begin);
    WorkersAreAllowed(v, begin);
    WorkerFinishes(u, 0, now, true);
    RunStepsConcat(v, begin, FourSteps(0, now, true));
    LedgerOfSession(w, id);
    MarkedCharge(v.sessions[id], now);
    DriftAfter(w, id, RunSteps(v, steps), Charge(w.sessions[id]));
  }

  /** What an in-flight worker on an unposted session leaves: its debit, or nothing for a zero charge. */
  lemma OpenWorkerPosts(w: World, k: nat)
    requires Inv(w) && k in w.workers && w.workers[k].id in w.sessions
    requires !Posted(w.db.ledger, w.sessions[w.workers[k].id].org, SessionKey(w.workers[k].id))
    ensures var pc := w.workers[k];
            var s := w.sessions[pc.id];
            var ledger := if pc.ReadingBalance? || pc.Posting?
                          then Apply(w.db, SessionDebit(pc.id, pc.org, pc.micro)).0.ledger else w.db.ledger;
            AmountOf(ledger, s.org, SessionKey(pc.id)) == if Charge(s) > 0 then Some(0 - Charge(s)) else None
  {
    hide *;
    var pc := w.workers[k];
    FittingWorker(w, k);
    if pc.ReadingBalance? || pc.Posting? {
      DebitAmount(w, pc.id);
    } else {
      LedgerOfSession(w, pc.id);
    }
  }

  lemma FittingWorker(w: World, k: nat)
    requires Inv(w) && k in w.workers
    ensures var pc := w.workers[k];
            && pc.id in w.sessions && w.sessions[pc.id].ended.Some?
            && (!pc.Marking? ==> pc.org == w.sessions[pc.id].org && pc.micro == Charge(w.sessions[pc.id]) > 0)
            && (pc.Reporting? || (pc.Marking? && Charge(w.sessions[pc.id]) > 0) ==>
                  Posted(w.db.ledger, w.sessions[pc.id].org, SessionKey(pc.id)))
  {
    hide Charge, Consistent, Posted;
    assert WorkerFits(w, w.workers[k]);
  }

  /** The amount a session's debit leaves in the ledger. */
  lemma DebitAmount(w: World, id: string)
    requires Inv(w) && id in w.sessions && w.sessions[id].ended.Some? && Charge(w.sessions[id]) > 0
    ensures var s := w.sessions[id];
            AmountOf(Apply(w.db, SessionDebit(id, s.org, Charge(s))).0.ledger, s.org, SessionKey(id)) == Some(0 - Charge(s))
  {
    hide Inv, Charge, AmountOf, Apply, SessionDebit, SessionKey, Posted;
    var s := w.sessions[id];
    PostingKeeps(w, id, s.org, Charge(s));
    LedgerOfSession(w.(db := Apply(w.db, SessionDebit(id, s.org, Charge(s))).0), id);
  }

  lemma OpenWorkerDrifts(w: World, v: World, k: nat, now: int)
    requires Inv(w) && k in w.workers && w.workers[k].id in w.sessions
    requires !Posted(w.db.ledger, w.sessions[w.workers[k].id].org, SessionKey(w.workers[k].id))
    requires v == w.(sessions := w.sessions[w.workers[k].id := Ended(w.sessions[w.workers[k].id], now)])
    requires Charge(v.sessions[w.workers[k].id]) != Charge(w.sessions[w.workers[k].id])
    ensures Drifted(RunSteps(v, FourSteps(k, now, true)), w.workers[k].id)
  {
    hide Inv, Charge, AmountOf, Apply, SessionDebit, SessionKey, Posted, Drifted, RunSteps, FourSteps, AllAllowed;
    var id := w.workers[k].id;
    OpenWorkerPosts(w, k);
    WorkerFinishes(v, k, now, true);
    MarkedCharge(v.sessions[id], now);
    DriftAfter(w, id, RunSteps(v, FourSteps(k, now, true)), Charge(w.sessions[id]));
  }

  /** No allowed continuation makes the books of the session drift. */
  ghost predicate DriftFree(w: World, id: string) {
    forall steps :: AllAllowed(w, steps) ==> !Drifted(RunSteps(w, steps), id)
  }

  /** Main result, both ways: a kill of a session leaves its books free of drift for good exactly
      when billing has not begun or the derived charge stays the same. */
  lemma KillIsSafeExactlyWhenHarmless(w: World, id: string, now: int)
    requires Inv(w)
    ensures HarmlessKill(w, id, now) <==> DriftFree(Next(w, Kill(id, now)), id)
  {
    hide Inv, Next, Drifted, HarmlessKill;
    var v := Next(w, Kill(id, now));
    if HarmlessKill(w, id, now) {
      AllowedKill(w, id, now);
      NextKeeps(w, Kill(id, now));
      forall steps | AllAllowed(v, steps) ensures !Drifted(RunSteps(v, steps), id) {
        RunKeeps(v, steps);
        InvHasNoDrift(RunSteps(v, steps), id);
      }
    } else {
      var steps := MovedChargeDrifts(w, id, now);
      assert AllAllowed(v, steps) && Drifted(RunSteps(v, steps), id);
    }
  }

  lemma AllowedKill(w: World, id: string, now: int)
    ensures Allowed(w, Kill(id, now)) <==> HarmlessKill(w, id, now)
  {
  }

  /** A kill at or after the expiry of a session that ran to its expiry is always harmless. */
  lemma KillAfterExpiry(w: World, id: string, now: int)
    requires id in w.sessions && w.sessions[id].ended.Some?
    requires w.sessions[id].expires <= w.sessions[id].ended.value && w.sessions[id].expires <= now
    ensures HarmlessKill(w, id, now)
  {
    hide ChargeOf;
  }

  const HOUR: int := 3_600_000

  /** One hour of a two-hour Duckling session, closed, swept and billed. */
  const BILLED_HOUR: seq<Step> :=
    [Open("s", Session("o", 0, None, 2 * HOUR, None, "duckling")), Close("s", HOUR), Begin(0, "s")] + FourSteps(0, HOUR, true)

  lemma BilledHourRun()
    ensures AllAllowed(START, BILLED_HOUR)
    ensures var w := RunSteps(START, BILLED_HOUR);
            "s" in w.sessions && w.sessions["s"] == Session("o", 0, Some(HOUR), 2 * HOUR, Some(HOUR), "duckling")
  {
    var opening := [Open("s", Session("o", 0, None, 2 * HOUR, None, "duckling")), Close("s", HOUR), Begin(0, "s")];
    OpeningRun(opening);
    hide AllAllowed, RunSteps, Apply, Charge;
    RunStepsConcat(START, opening, FourSteps(0, HOUR, true));
    WorkerFinishes(RunSteps(START, opening), 0, HOUR, true);
  }

  lemma HourCharges()
    ensures Charge(Session("o", 0, Some(HOUR), 2 * HOUR, Some(HOUR), "duckling")) == 550_000
    ensures Charge(Session("o", 0, Some(2 * HOUR), 2 * HOUR, Some(HOUR), "duckling")) == 1_100_000
  {
  }

  /** The guarantee does fail: killing that billed session an hour later leaves its debit an hour short. */
  lemma LateKillDrifts()
    ensures AllAllowed(START, BILLED_HOUR)
    ensures !Drifted(RunSteps(START, BILLED_HOUR), "s")
    ensures Drifted(Next(RunSteps(START, BILLED_HOUR), Kill("s", 2 * HOUR)), "s")
  {
    hide AllAllowed, RunSteps, Inv, Charge, Drifted, AmountOf, Posted;
    var w := RunSteps(START, BILLED_HOUR);
    BilledHourRun();
    HourCharges();
    StartFits();
    RunKeeps(START, BILLED_HOUR);
    InvHasNoDrift(w, "s");
    BilledIsSettled(w, "s");
    LedgerOfSession(w, "s");
    DriftAfter(w, "s", Next(w, Kill("s", 2 * HOUR)), 550_000);
  }

  lemma OpeningRun(opening: seq<Step>)
    requires opening == [Open("s", Session("o", 0, None, 2 * HOUR, None, "duckling")), Close("s", HOUR), Begin(0, "s")]
    ensures AllAllowed(START, opening)
    ensures var w := RunSteps(START, opening);
            var s := Session("o", 0, Some(HOUR), 2 * HOUR, None, "duckling");
            w == World(EMPTY, map["s" := s], map[0 := ReadingBalance("s", "o", 550_000)], [])
  {
    var w1, w2 := Next(START, opening[0]), Next(Next(START, opening[0]), opening[1]);
    assert opening[1..][0] == opening[1] && opening[1..][1..][0] == opening[2] && opening[1..][1..][1..] == [];
    assert RunSteps(START, opening) == RunSteps(w1, opening[1..]);
    assert RunSteps(w1, opening[1..]) == RunSteps(w2, opening[1..][1..]);
    assert RunSteps(w2, opening[1..][1..]) == RunSteps(Next(w2, opening[2]), []);
    assert AllAllowed(w2, opening[1..][1..]);
    assert AllAllowed(w1, opening[1..]);
  }
}
