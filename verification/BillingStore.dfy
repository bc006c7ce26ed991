/** The billing service as an object: debiting, sweeping and reconciling, and what overage it reports. */
module BillingStore {

  import opened Text
  import opened CreditLedger
  import opened Charges
  import opened SessionBilling

  /** One uninterrupted debitSessionDuration by the only worker. */
  function DebitSteps(id: string, now: int, readable: bool): seq<Step> {
    [Begin(0, id)] + FourSteps(0, now, readable)
  }

  predicate Billable(w: World, id: string) {
    id in w.sessions && w.sessions[id].ended.Some? && w.sessions[id].billed.None?
  }

  function MarkedBilled(sessions: map<string, Session>, id: string, now: int): map<string, Session>
    requires id in sessions
  {
    sessions[id := sessions[id].(billed := Some(now))]
  }

  function ReportsFor(org: string, overage: nat, id: string): seq<Report> {
    if overage > 0 then [Report(org, overage, id)] else []
  }

  /** What a debit that runs to its end leaves. */
  function AfterDebit(w: World, id: string, now: int, readable: bool): World
    requires Billable(w, id)
  {
    var s := w.sessions[id];
    if Charge(s) == 0 then w.(sessions := MarkedBilled(w.sessions, id, now))
    else World(Apply(w.db, SessionDebit(id, s.org, Charge(s))).0, MarkedBilled(w.sessions, id, now), map[],
               w.reports + ReportsFor(s.org, Overage(BalanceRead(w.db, s.org, readable), Charge(s)), id))
  }

  /** The steps of one uninterrupted debit, taken together. */
  lemma DebitRun(w: World, id: string, now: int, readable: bool)
    requires w.workers == map[]
    ensures AllAllowed(w, DebitSteps(id, now, readable))
    ensures !Billable(w, id) ==> RunSteps(w, DebitSteps(id, now, readable)) == w
    ensures Billable(w, id) ==> RunSteps(w, DebitSteps(id, now, readable)) == AfterDebit(w, id, now, readable)
  {
    hide Charge, Apply, SessionDebit, Overage, BalanceRead;
    var begin := [Begin(0, id)];
    assert begin[1..] == [] && RunSteps(w, begin) == Next(w, Begin(0, id));
    WorkersAreAllowed(w, DebitSteps(id, now, readable));
    RunStepsConcat(w, begin, FourSteps(0, now, readable));
    if Billable(w, id) {
      WorkerFinishes(Next(w, begin[0]), 0, now, readable);
      assert map[0 := Marking(id)] - {0} == map[];
    } else {
      var a := Advance(0, now, readable);
      RunFour(w, a, a, a, a);
    }
  }

  /** What a debit of a session posts: its milliseconds at the rate of its size, rounded to the nearest
      micro-dollar, spent from the expiring bucket first; a charge of zero posts nothing. */
  ghost predicate PostsNearest(was: Db, now: Db, id: string, s: Session)
    requires s.ended.Some?
  {
    exists micro: nat :: NearestCharge(micro, |Billed(s.started, s.ended.value, s.expires)|, s.size)
      && if micro == 0 then now == was
         else && Recorded(was, now, s.org, 0 - micro, DebitEntry, "session:" + id)
              && SpendsTierFirst(RowOf(was, s.org), now.balances[s.org], micro)
  }

  /** What it tells the meter: how much further the org's balance is below zero, if at all. */
  predicate TellsRise(was: World, now: World, id: string)
    requires id in was.sessions
  {
    var org := was.sessions[id].org;
    var rise := Deficit(Total(now, org)) - Deficit(Total(was, org));
    now.reports == was.reports + (if rise > 0 then [Report(org, rise, id)] else [])
  }

  /** When the balance cannot be read, it tells the meter the whole charge. */
  ghost predicate TellsAll(was: World, now: World, id: string)
    requires id in was.sessions && was.sessions[id].ended.Some?
  {
    var s := was.sessions[id];
    exists micro: nat :: NearestCharge(micro, |Billed(s.started, s.ended.value, s.expires)|, s.size)
      && now.reports == was.reports + (if micro > 0 then [Report(s.org, micro, id)] else [])
  }

  lemma AllTold(w: World, v: World, id: string)
    requires Billable(w, id)
    ensures var s := w.sessions[id];
            var told := ReportsFor(s.org, Overage(BalanceRead(w.db, s.org, false), Charge(s)), id);
            (Charge(s) > 0 && v.reports == w.reports + told) || (Charge(s) == 0 && v.reports == w.reports) ==> TellsAll(w, v, id)
  {
    var s := w.sessions[id];
    ChargeIsNearest(s.started, s.ended.value, s.expires, s.size);
    ChargeOfClosed(s);
    hide NearestCharge, Billed, ChargeOf, Duration;
    assert w.reports + [] == w.reports;
    assert NearestCharge(Charge(s), |Billed(s.started, s.ended.value, s.expires)|, s.size);
  }

  lemma PostsSome(was: Db, now: Db, id: string, s: Session, micro: nat)
    requires s.ended.Some? && NearestCharge(micro, |Billed(s.started, s.ended.value, s.expires)|, s.size)
    requires micro == 0 ==> now == was
    requires micro > 0 ==> Recorded(was, now, s.org, 0 - micro, DebitEntry, "session:" + id)
                           && SpendsTierFirst(RowOf(was, s.org), now.balances[s.org], micro)
    ensures PostsNearest(was, now, id, s)
  {
    hide NearestCharge, Billed, Recorded, SpendsTierFirst, RowOf;
  }

  lemma DebitFields(db: Db, id: string, org: string, micro: nat)
    requires micro > 0 && !Posted(db.ledger, org, SessionKey(id))
    ensures var now := Apply(db, SessionDebit(id, org, micro)).0;
            && Recorded(db, now, org, 0 - micro, DebitEntry, "session:" + id)
            && SpendsTierFirst(RowOf(db, org), now.balances[org], micro)
  {
    PostFields(db, org, 0 - micro, DebitEntry, SessionKey(id), Topup);
    hide Apply, Recorded, Posted;
  }

  lemma ChargePosted(db: Db, id: string, s: Session)
    requires s.ended.Some? && !Posted(db.ledger, s.org, SessionKey(id))
    ensures PostsNearest(db, if Charge(s) == 0 then db else Apply(db, SessionDebit(id, s.org, Charge(s))).0, id, s)
  {
    ChargeIsNearest(s.started, s.ended.value, s.expires, s.size);
    ChargeOfClosed(s);
    hide *;
    var now := if Charge(s) == 0 then db else Apply(db, SessionDebit(id, s.org, Charge(s))).0;
    if Charge(s) > 0 {
      DebitFields(db, id, s.org, Charge(s));
    }
    PostsSome(db, now, id, s, Charge(s));
  }

  /** What a debit that gets past its posting means, for a key not posted before. */
  ghost predicate DebitMeans(was: World, now: World, id: string, readable: bool, fault: Fault) {
    Billable(was, id) && !Posted(was.db.ledger, was.sessions[id].org, SessionKey(id)) && !fault.AtRead? && !fault.AtPost? ==>
      && PostsNearest(was.db, now.db, id, was.sessions[id])
      && (readable && !fault.AtReport? && Consistent(was.db) ==> TellsRise(was, now, id))
      && (!readable && !fault.AtReport? ==> TellsAll(was, now, id))
  }

  lemma DebitMeaning(w: World, id: string, now: int, readable: bool, fault: Fault)
    requires w.workers == map[]
    ensures DebitMeans(w, RunSteps(w, FaultySteps(w, id, now, readable, fault)), id, readable, fault)
  {
    hide RunSteps, FaultySteps, Charge, PostsNearest, Posted, Apply, Consistent, Throws, SessionDebit, Overage, BalanceRead, TellsRise,
         TellsAll, MarkedBilled, ReportsFor;
    DebitCases(w, id, now, readable, fault);
    if Billable(w, id) && !Posted(w.db.ledger, w.sessions[id].org, SessionKey(id)) {
      ChargePosted(w.db, id, w.sessions[id]);
      if !readable {
        AllTold(w, RunSteps(w, FaultySteps(w, id, now, readable, fault)), id);
      } else if Consistent(w.db) {
        RiseTold(w, RunSteps(w, FaultySteps(w, id, now, readable, fault)), id);
      }
    }
  }

  lemma RiseTold(w: World, v: World, id: string)
    requires Billable(w, id) && Consistent(w.db) && !Posted(w.db.ledger, w.sessions[id].org, SessionKey(id))
    ensures var s := w.sessions[id];
            var told := ReportsFor(s.org, Overage(BalanceRead(w.db, s.org, true), Charge(s)), id);
            && (Charge(s) > 0 && v.db == Apply(w.db, SessionDebit(id, s.org, Charge(s))).0 && v.reports == w.reports + told
                ==> TellsRise(w, v, id))
            && (Charge(s) == 0 && v.db == w.db && v.reports == w.reports ==> TellsRise(w, v, id))
  {
    var s := w.sessions[id];
    hide Charge, Posted, Apply, Consistent, RowOf;
    assert w.reports + [] == w.reports;
    if v.db == Apply(w.db, SessionDebit(id, s.org, Charge(s))).0 {
      ApplyTotal(w.db, SessionDebit(id, s.org, Charge(s)), s.org);
      OverageIsRise(RowOf(w.db, s.org).total, Charge(s));
      assert Total(v, s.org) == Total(w, s.org) - Charge(s);
      hide Overage, Deficit;
    }
  }

  // ---- debits that throw -------------------------------------------------------------------

  /** The awaited call that fails: reading the row, posting, reporting the overage, or marking. */
  datatype Fault = NoFault | AtRead | AtPost | AtReport | AtMark

  /** A debit gets as far as the failing call. */
  predicate Throws(w: World, id: string, readable: bool, fault: Fault) {
    match fault
    case NoFault => false
    case AtRead => true
    case AtPost => Billable(w, id) && Charge(w.sessions[id]) > 0
    case AtReport =>
      Billable(w, id) && Charge(w.sessions[id]) > 0
      && Overage(BalanceRead(w.db, w.sessions[id].org, readable), Charge(w.sessions[id])) > 0
    case AtMark => Billable(w, id)
  }

  /** One debit by the only worker, up to the call that throws. */
  function FaultySteps(w: World, id: string, now: int, readable: bool, fault: Fault): seq<Step> {
    var a := Advance(0, now, readable);
    if !Throws(w, id, readable, fault) then DebitSteps(id, now, readable)
    else if fault.AtRead? then []
    else if Charge(w.sessions[id]) == 0 then [Begin(0, id), Crash(0)]
    else if fault.AtPost? then [Begin(0, id), a, Crash(0)]
    else if fault.AtReport? then [Begin(0, id), a, a, Crash(0)]
    else [Begin(0, id), a, a, a, Crash(0)]
  }

  /** What a debit that throws leaves: nothing, the posting, or the posting and its report. */
  function AfterFault(w: World, id: string, readable: bool, fault: Fault): World
    requires Throws(w, id, readable, fault)
  {
    if fault.AtRead? || fault.AtPost? || Charge(w.sessions[id]) == 0 then w
    else
      var s := w.sessions[id];
      var posted := w.(db := Apply(w.db, SessionDebit(id, s.org, Charge(s))).0);
      if fault.AtReport? then posted
      else posted.(reports := w.reports + ReportsFor(s.org, Overage(BalanceRead(w.db, s.org, readable), Charge(s)), id))
  }

  // The stages of the only worker, each from the world without it.

  lemma StageBegun(w: World, id: string)
    requires w.workers == map[] && Billable(w, id)
    ensures var s := w.sessions[id];
            (Next(w, Begin(0, id))
             == w.(workers := map[0 := if Charge(s) > 0 then ReadingBalance(id, s.org, Charge(s)) else Marking(id)]))
  {
    hide Charge;
  }

  lemma StageRead(w: World, id: string, org: string, micro: nat, now: int, readable: bool)
    ensures Next(w.(workers := map[0 := ReadingBalance(id, org, micro)]), Advance(0, now, readable))
         == w.(workers := map[0 := Posting(id, org, micro, BalanceRead(w.db, org, readable))])
  {
  }

  lemma StagePosted(w: World, id: string, org: string, micro: nat, before: int, now: int, readable: bool)
    ensures Next(w.(workers := map[0 := Posting(id, org, micro, before)]), Advance(0, now, readable))
         == w.(db := Apply(w.db, SessionDebit(id, org, micro)).0, workers := map[0 := Reporting(id, org, micro, before)])
  {
    hide Apply;
  }

  lemma StageReported(w: World, id: string, org: string, micro: nat, before: int, now: int, readable: bool)
    ensures Next(w.(workers := map[0 := Reporting(id, org, micro, before)]), Advance(0, now, readable))
         == w.(reports := w.reports + ReportsFor(org, Overage(before, micro), id), workers := map[0 := Marking(id)])
  {
  }

  lemma StageGone(w: World, pc: Worker)
    requires w.workers == map[]
    ensures Next(w.(workers := map[0 := pc]), Crash(0)) == w
  {
    assert map[0 := pc] - {0} == map[];
  }

  lemma FaultRun(w: World, id: string, now: int, readable: bool, fault: Fault)
    requires w.workers == map[] && Throws(w, id, readable, fault)
    ensures RunSteps(w, FaultySteps(w, id, now, readable, fault)) == AfterFault(w, id, readable, fault)
  {
    hide Charge, Apply, SessionDebit, Overage, BalanceRead, Next;
    var begin := Begin(0, id);
    if fault.AtRead? {
    } else if Charge(w.sessions[id]) == 0 {
      RunTwo(w, begin, Crash(0));
      StageBegun(w, id);
      StageGone(w, Marking(id));
    } else if fault.AtPost? {
      FaultAtPost(w, id, now, readable);
    } else if fault.AtReport? {
      FaultAtReport(w, id, now, readable);
    } else {
      FaultAtMark(w, id, now, readable);
    }
  }

  lemma RunFirst(w: World, step: Step, steps: seq<Step>)
    ensures RunSteps(w, [step] + steps) == RunSteps(Next(w, step), steps)
  {
    hide Next;
    assert ([step] + steps)[1..] == steps;
  }

  lemma FaultAtPost(w: World, id: string, now: int, readable: bool)
    requires w.workers == map[] && Billable(w, id) && Charge(w.sessions[id]) > 0
    ensures RunSteps(w, [Begin(0, id), Advance(0, now, readable), Crash(0)]) == w
  {
    hide RunSteps, Next, Charge, BalanceRead;
    var s, a := w.sessions[id], Advance(0, now, readable);
    RunFirst(w, Begin(0, id), [a, Crash(0)]);
    assert [Begin(0, id)] + [a, Crash(0)] == [Begin(0, id), a, Crash(0)];
    RunTwo(Next(w, Begin(0, id)), a, Crash(0));
    StageBegun(w, id);
    StageRead(w, id, s.org, Charge(s), now, readable);
    StageGone(w, Posting(id, s.org, Charge(s), BalanceRead(w.db, s.org, readable)));
  }

  /** A debit that stops between posting and reporting. */
  lemma FaultAtReport(w: World, id: string, now: int, readable: bool)
    requires w.workers == map[] && Billable(w, id) && Charge(w.sessions[id]) > 0
    ensures RunSteps(w, [Begin(0, id), Advance(0, now, readable), Advance(0, now, readable), Crash(0)])
         == w.(db := Apply(w.db, SessionDebit(id, w.sessions[id].org, Charge(w.sessions[id]))).0)
  {
    hide RunSteps, Next, Apply, SessionDebit, Charge, BalanceRead;
    var s, a := w.sessions[id], Advance(0, now, readable);
    var before := BalanceRead(w.db, s.org, readable);
    RunFour(w, Begin(0, id), a, a, Crash(0));
    StageBegun(w, id);
    StageRead(w, id, s.org, Charge(s), now, readable);
    StagePosted(w, id, s.org, Charge(s), before, now, readable);
    StageGone(w.(db := Apply(w.db, SessionDebit(id, s.org, Charge(s))).0), Reporting(id, s.org, Charge(s), before));
  }

  lemma FaultAtMark(w: World, id: string, now: int, readable: bool)
    requires w.workers == map[] && Billable(w, id) && Charge(w.sessions[id]) > 0
    ensures var s, a := w.sessions[id], Advance(0, now, readable);
            (RunSteps(w, [Begin(0, id), a, a, a, Crash(0)])
             == w.(db := Apply(w.db, SessionDebit(id, s.org, Charge(s))).0,
                   reports := w.reports + ReportsFor(s.org, Overage(BalanceRead(w.db, s.org, readable), Charge(s)), id)))
  {
    hide RunSteps, Next, Apply, SessionDebit, Charge, BalanceRead, Overage, ReportsFor;
    var s, a := w.sessions[id], Advance(0, now, readable);
    var before := BalanceRead(w.db, s.org, readable);
    var posted := w.(db := Apply(w.db, SessionDebit(id, s.org, Charge(s))).0);
    RunFirst(w, Begin(0, id), [a, a, a, Crash(0)]);
    assert [Begin(0, id)] + [a, a, a, Crash(0)] == [Begin(0, id), a, a, a, Crash(0)];
    RunFour(Next(w, Begin(0, id)), a, a, a, Crash(0));
    StageBegun(w, id);
    StageRead(w, id, s.org, Charge(s), now, readable);
    StagePosted(w, id, s.org, Charge(s), before, now, readable);
    StageReported(posted, id, s.org, Charge(s), before, now, readable);
    StageGone(posted.(reports := w.reports + ReportsFor(s.org, Overage(before, Charge(s)), id)), Marking(id));
  }

  /** The debits of a batch, one after another, each with its fault. */
  function BatchSteps(w: World, ids: seq<string>, now: int, faults: seq<Fault>): seq<Step>
    requires |faults| == |ids|
    decreases |ids|
  {
    if ids == [] then []
    else
      var steps := FaultySteps(w, ids[0], now, true, faults[0]);
      steps + BatchSteps(RunSteps(w, steps), ids[1..], now, faults[1..])
  }

  /** How many of the sessions are marked billed. */
  function MarkedCount(sessions: map<string, Session>, ids: seq<string>): nat
    requires forall i :: 0 <= i < |ids| ==> ids[i] in sessions
  {
    if ids == [] then 0
    else
      MarkedCount(sessions, ids[..|ids| - 1]) + (if sessions[ids[|ids| - 1]].billed.Some? then 1 else 0)
  }

  // ---- overage -----------------------------------------------------------------------------

  function Deficit(balance: int): nat { Max(0, 0 - balance) }

  /** A debit's overage is how much further it takes the balance below zero. */
  lemma OverageIsRise(before: int, micro: nat)
    ensures Overage(before, micro) == Deficit(before - micro) - Deficit(before)
  {
  }

  /** The overage reported for one org. */
  function Reported(reports: seq<Report>, org: string): nat {
    if reports == [] then 0
    else Reported(reports[..|reports| - 1], org)
         + (if reports[|reports| - 1].org == org then reports[|reports| - 1].overage else 0)
  }

  lemma ReportedAppend(reports: seq<Report>, org: string, overage: nat, id: string, to: string)
    ensures Reported(reports + ReportsFor(org, overage, id), to) == Reported(reports, to) + (if org == to then overage else 0)
  {
    if overage > 0 {
      assert (reports + [Report(org, overage, id)])[..|reports|] == reports;
    } else {
      assert reports + [] == reports;
    }
  }

  function DebitAll(ids: seq<string>, now: int): seq<Step> {
    if ids == [] then [] else DebitSteps(ids[0], now, true) + DebitAll(ids[1..], now)
  }

  /** No crash left a debit without its mark. */
  ghost predicate NoStrays(w: World) {
    forall id :: Billable(w, id) ==> !Posted(w.db.ledger, w.sessions[id].org, SessionKey(id))
  }

  function Total(w: World, org: string): int { RowOf(w.db, org).total }

  lemma ApplyTotal(db: Db, op: Op, org: string)
    requires Consistent(db) && !Posted(db.ledger, op.org, op.key) && op.Post?
    ensures RowOf(Apply(db, op).0, org).total == RowOf(db, org).total + (if op.org == org then op.amount else 0)
  {
  }

  /** One uninterrupted debit: what it reports to the meter is the rise of each org's deficit. */
  lemma DebitReportsRise(w: World, id: string, now: int, org: string)
    requires Inv(w) && w.workers == map[] && NoStrays(w)
    ensures var v := RunSteps(w, DebitSteps(id, now, true));
            && Inv(v) && v.workers == map[] && NoStrays(v)
            && Reported(v.reports, org) - Reported(w.reports, org) == Deficit(Total(v, org)) - Deficit(Total(w, org))
  {
    hide RunSteps, DebitSteps, AllAllowed, Inv, Charge, Posted, Reported, Overage, Deficit;
    var v := RunSteps(w, DebitSteps(id, now, true));
    DebitRun(w, id, now, true);
    RunKeeps(w, DebitSteps(id, now, true));
    if Billable(w, id) && Charge(w.sessions[id]) > 0 {
      var s := w.sessions[id];
      ChargedDebit(w, id, org);
      StraysAfter(w, v, id);
      ReportedAppend(w.reports, s.org, Overage(Total(w, s.org), Charge(s)), id, org);
    }
  }

  lemma ChargedDebit(w: World, id: string, org: string)
    requires Inv(w) && NoStrays(w) && Billable(w, id)
    ensures var s := w.sessions[id];
            var db := Apply(w.db, SessionDebit(id, s.org, Charge(s))).0;
            (if s.org == org then Overage(Total(w, org), Charge(s)) else 0)
              == Deficit(RowOf(db, org).total) - Deficit(Total(w, org))
  {
  }

  lemma StraysAfter(w: World, v: World, id: string)
    requires NoStrays(w) && Billable(w, id)
    requires v.sessions.Keys == w.sessions.Keys && (forall other :: other in w.sessions && other != id ==> v.sessions[other] == w.sessions[other])
    requires v.sessions[id].billed.Some?
    requires v.db == Apply(w.db, SessionDebit(id, w.sessions[id].org, Charge(w.sessions[id]))).0
    ensures NoStrays(v)
  {
    var op := SessionDebit(id, w.sessions[id].org, Charge(w.sessions[id]));
    ApplyGrows(w.db, op);
    hide Apply, Charge;
    forall other | Billable(v, other) ensures !Posted(v.db.ledger, v.sessions[other].org, SessionKey(other)) {
      assert Billable(w, other) && other != id;
      SessionKeys(id, other);
    }
  }

  /** Main result: over any uninterrupted series of debits with no credit in between, the overage
      reported for an org totals exactly the rise of its deficit. */
  lemma {:induction false} OverageTelescopes(w: World, ids: seq<string>, now: int, org: string)
    requires Inv(w) && w.workers == map[] && NoStrays(w)
    ensures var v := RunSteps(w, DebitAll(ids, now));
            Reported(v.reports, org) - Reported(w.reports, org) == Deficit(Total(v, org)) - Deficit(Total(w, org))
    decreases |ids|
  {
    hide DebitSteps, Inv, NoStrays, Reported, Deficit, Total;
    if ids != [] {
      DebitReportsRise(w, ids[0], now, org);
      RunStepsConcat(w, DebitSteps(ids[0], now, true), DebitAll(ids[1..], now));
      OverageTelescopes(RunSteps(w, DebitSteps(ids[0], now, true)), ids[1..], now, org);
    }
  }

  function ReportsOf(reports: seq<Report>, org: string): nat {
    if reports == [] then 0
    else ReportsOf(reports[..|reports| - 1], org) + (if reports[|reports| - 1].org == org then 1 else 0)
  }

  /** What the meter receives for an org, in cents. */
  function CentsReported(reports: seq<Report>, org: string): nat {
    if reports == [] then 0
    else CentsReported(reports[..|reports| - 1], org)
         + (if reports[|reports| - 1].org == org then Cents(reports[|reports| - 1].overage) else 0)
  }

  lemma {:induction false} CentsOfReports(reports: seq<Report>, org: string)
    ensures var n := ReportsOf(reports, org);
            -5_000 * n <= MICRO_PER_CENT * CentsReported(reports, org) - Reported(reports, org) <= 5_000 * n
  {
    hide RoundHalfUp;
    if reports != [] {
      CentsOfReports(reports[..|reports| - 1], org);
    }
  }

  /** In cents, n reports bill an org the rise of its deficit to within 5,000 micro-dollars each. */
  lemma MeteredWithinHalfCents(w: World, ids: seq<string>, now: int, org: string)
    requires Inv(w) && w.workers == map[] && NoStrays(w) && w.reports == []
    ensures var v := RunSteps(w, DebitAll(ids, now));
            var rise, n := Deficit(Total(v, org)) - Deficit(Total(w, org)), ReportsOf(v.reports, org);
            -5_000 * n <= MICRO_PER_CENT * CentsReported(v.reports, org) - rise <= 5_000 * n
  {
    OverageTelescopes(w, ids, now, org);
    hide RunSteps, DebitAll, Inv, NoStrays, Total, Deficit, CentsReported, ReportsOf;
    CentsOfReports(RunSteps(w, DebitAll(ids, now)).reports, org);
  }

  /** A debit that crashed between posting and reporting, then retried: the retry reads the balance
      after the debit, so it reports the true overage exactly when the balance was already spent or
      covered the charge twice over. */
  lemma RetryReportsExactlyWhen(w: World, id: string, now: int)
    requires Inv(w) && w.workers == map[] && NoStrays(w) && Billable(w, id) && Charge(w.sessions[id]) > 0
    ensures var s := w.sessions[id];
            var b, m := Total(w, s.org), Charge(s);
            var retried := RunSteps(w, [Begin(0, id), Advance(0, now, true), Advance(0, now, true), Crash(0)] + DebitSteps(id, now, true));
            (retried.reports == RunSteps(w, DebitSteps(id, now, true)).reports) <==> (b <= 0 || b >= 2 * m)
  {
    hide Charge, Inv, DebitSteps, RunSteps, AllAllowed, Posted, Apply;
    var s := w.sessions[id];
    var op := SessionDebit(id, s.org, Charge(s));
    var crashed := w.(db := Apply(w.db, op).0);
    FaultAtReport(w, id, now, true);
    RunStepsConcat(w, [Begin(0, id), Advance(0, now, true), Advance(0, now, true), Crash(0)], DebitSteps(id, now, true));
    DebitRun(w, id, now, true);
    DebitRun(crashed, id, now, true);
    InvIsConsistent(w);
    ApplyTotal(w.db, op, s.org);
    var b, m := Total(w, s.org), Charge(s);
    SameReports(w.reports, s.org, Overage(b, m), Overage(b - m, m), id);
  }

  lemma SameReports(reports: seq<Report>, org: string, a: nat, b: nat, id: string)
    ensures reports + ReportsFor(org, a, id) == reports + ReportsFor(org, b, id) <==> a == b
  {
    var x, y := reports + ReportsFor(org, a, id), reports + ReportsFor(org, b, id);
    if a != b {
      assert |x| == |y| ==> x[|reports|] != y[|reports|];
    }
  }

  // ---- the service -------------------------------------------------------------------------

  datatype DebitDrift = DebitDrift(id: string, expected: int, posted: Option<int>, kind: DriftKind)

  /** The drifting sessions among those checked, in order. */
  function DriftReport(w: World, rows: seq<string>): seq<DebitDrift>
    requires forall i :: 0 <= i < |rows| ==> rows[i] in w.sessions
  {
    if rows == [] then []
    else
      var id := rows[|rows| - 1];
      var s := w.sessions[id];
      var earlier := DriftReport(w, rows[..|rows| - 1]);
      match DriftOf(w.db, id, s)
      case None => earlier
      case Some(kind) => earlier + [DebitDrift(id, Charge(s), AmountOf(w.db.ledger, s.org, SessionKey(id)), kind)]
  }

  class Billing {
    const store: CreditStore
    var sessions: map<string, Session>
    var reports: seq<Report>

    constructor (store: CreditStore)
      ensures this.store == store && sessions == map[] && reports == []
    {
      this.store := store;
      sessions := map[];
      reports := [];
    }

    /** The state between calls: no worker is anywhere. */
    function State(): World
      reads this, store
    {
      World(store.State(), sessions, map[], reports)
    }

    /** Cached balance; a failed read counts as zero. */
    method GetBalanceMicro(org: string, readable: bool) returns (balance: int)
      ensures balance == BalanceRead(store.State(), org, readable)
      ensures balance == if readable && org in store.balances then store.balances[org].total else 0
    {
      balance := if readable && org in store.balances then store.balances[org].total else 0;
    }

    /** `fault` is the awaited call that fails, if the debit reaches it; `threw` is the exception. */
    method DebitSessionDuration(id: string, now: int, readable: bool, fault: Fault) returns (threw: bool)
      modifies this, store
      ensures State() == RunSteps(old(State()), FaultySteps(old(State()), id, now, readable, fault))
      ensures threw == Throws(old(State()), id, readable, fault)
      ensures !threw && Billable(old(State()), id) ==>
                id in sessions && sessions == MarkedBilled(old(sessions), id, now)
      ensures threw || !Billable(old(State()), id) ==> sessions == old(sessions)
      ensures DebitMeans(old(State()), State(), id, readable, fault)
    {
      hide Charge, Apply, RunSteps, FaultySteps, Throws, Overage, ChargeOf, Duration, DebitMeans, Recorded, PostLands, Posted,
           BalanceRead;
      DebitCases(State(), id, now, readable, fault);
      DebitMeaning(State(), id, now, readable, fault);
      if fault.AtRead? { return true; }
      threw := false;
      if id !in sessions || sessions[id].ended.None? || sessions[id].billed.Some? {
        return;
      }
      var s := sessions[id];
      ChargeOfClosed(s);
      var micro: int := ChargeOf(Duration(s.started, s.ended.value, s.expires), s.size);
      if micro > 0 {
        var before := GetBalanceMicro(s.org, readable);
        if fault.AtPost? { return true; }
        var r := store.PostEntry(s.org, 0 - micro, DebitEntry, SessionKey(id), Topup);
        var overage := Overage(before, micro);
        if overage > 0 {
          if fault.AtReport? { return true; }
          reports := reports + [Report(s.org, overage, id)];
        }
      }
      if fault.AtMark? { return true; }
      sessions := sessions[id := s.(billed := Some(now))];
    }

    /** The cron sweep. `rows` is what its query for closed, unbilled sessions returns after the
        first pass, oldest first and at most 500 of them; a debit that throws is skipped. */
    method SweepExpiredSessions(now: int, rows: seq<string>, faults: seq<Fault>) returns (debited: nat)
      requires UnbilledBatch(Reaped(sessions, now), rows) && |faults| == |rows|
      modifies this, store
      ensures State() == RunSteps(old(State()),
                [Reap(now)] + BatchSteps(old(State()).(sessions := Reaped(old(sessions), now)), rows, now, faults))
      ensures forall i :: 0 <= i < |rows| ==>
                rows[i] in sessions && (faults[i].NoFault? ==> sessions[rows[i]].billed.Some?)
      ensures debited == MarkedCount(sessions, rows)
      ensures debited == |set i | 0 <= i < |rows| && sessions[rows[i]].billed.Some?|
      ensures sessions.Keys == old(sessions).Keys && forall id :: id in sessions ==> ReapedAt(old(sessions)[id], sessions[id], now)
      ensures |rows| < SWEEP_BATCH ==>
                forall id :: Billable(State(), id) ==> exists i :: 0 <= i < |rows| && rows[i] == id && !faults[i].NoFault?
    {
      hide RunSteps, FaultySteps, BatchSteps, Charge, Reaped, Throws, Swept, MarkedCount, UnbilledBatch;
      ghost var w0 := State();
      sessions := Reaped(sessions, now);
      ghost var w1 := State();
      ReapThen(w0, now, BatchSteps(w1, rows, now, faults));
      SweepStart(sessions, rows, faults);
      debited := 0;
      for i := 0 to |rows|
        invariant RunSteps(w1, BatchSteps(w1, rows, now, faults)) == RunSteps(State(), BatchSteps(State(), rows[i..], now, faults[i..]))
        invariant Swept(w1.sessions, sessions, rows, faults, i) && debited == MarkedBefore(sessions, rows, i)
      {
        BatchHead(State(), rows[i..], now, faults[i..]);
        assert rows[i..][1..] == rows[i + 1..] && faults[i..][1..] == faults[i + 1..];
        SweepTurn(w1.sessions, State(), rows, faults, i);
        ghost var before := sessions;
        NeverWithoutFault(State(), rows[i], true);
        var threw := DebitSessionDuration(rows[i], now, true, faults[i]);
        SweepStep(w1.sessions, before, sessions, rows, faults, i, threw, now);
        if !threw {
          debited := debited + 1;
        }
      }
      assert rows[|rows|..] == [] && faults[|rows|..] == [];
      NothingLeft(State(), now);
      SweepEnd(w1.sessions, State(), rows, faults);
      MarkedIsCount(sessions, rows, |rows|);
      SweepReaps(w0.sessions, sessions, rows, faults, now);
    }

    /** The reconciliation pass over the most recently billed sessions `rows`. */
    method ReconcileDebits(rows: seq<string>) returns (checked: nat, drift: seq<DebitDrift>)
      requires forall i :: 0 <= i < |rows| ==>
                 rows[i] in sessions && sessions[rows[i]].ended.Some? && sessions[rows[i]].billed.Some?
      ensures checked == |rows| && drift == DriftReport(State(), rows)
      ensures drift == [] <==> forall i :: 0 <= i < |rows| ==> !Drifted(State(), rows[i])
      ensures UniqueKeys(store.ledger) ==>
                && (forall d :: d in drift ==> d.id in rows && DriftsAs(store.ledger, d, sessions[d.id]))
                && (forall id :: id in rows && !BooksRight(store.ledger, id, sessions[id]) ==> exists d :: d in drift && d.id == id)
    {
      hide Charge, ChargeOf, Duration, AmountOf;
      drift := [];
      for i := 0 to |rows|
        invariant drift == DriftReport(State(), rows[..i])
      {
        assert rows[..i + 1][..i] == rows[..i];
        var s := sessions[rows[i]];
        ChargeOfClosed(s);
        var expected: int := ChargeOf(Duration(s.started, s.ended.value, s.expires), s.size);
        var posted := AmountOf(store.ledger, s.org, SessionKey(rows[i]));
        if expected > 0 && posted.None? {
          drift := drift + [DebitDrift(rows[i], expected, posted, MissingDebit)];
        } else if expected > 0 && posted.value != 0 - expected {
          drift := drift + [DebitDrift(rows[i], expected, posted, AmountMismatch)];
        } else if expected == 0 && posted.Some? {
          drift := drift + [DebitDrift(rows[i], expected, posted, UnexpectedDebit)];
        }
      }
      assert rows[..|rows|] == rows;
      checked := |rows|;
      EmptyReport(State(), rows);
      ReportMeans(State(), rows);
    }
  }

  /** The ledger holds the debit of a session with this amount. */
  predicate BookedAs(ledger: seq<Entry>, id: string, org: string, amount: int) {
    exists i :: 0 <= i < |ledger| && ledger[i].org == org && ledger[i].key == "session:" + id && ledger[i].amount == amount
  }

  /** What a closed session owes: its milliseconds at its rate, to the nearest micro-dollar. */
  ghost predicate Owes(s: Session, micro: nat)
    requires s.ended.Some?
  {
    NearestCharge(micro, |Billed(s.started, s.ended.value, s.expires)|, s.size)
  }

  /** What it owes is booked, and nothing is when it owes nothing. */
  ghost predicate BooksRight(ledger: seq<Entry>, id: string, s: Session)
    requires s.ended.Some?
  {
    exists micro: nat :: Owes(s, micro) && if micro > 0 then BookedAs(ledger, id, s.org, 0 - micro) else !Posted(ledger, s.org, "session:" + id)
  }

  /** The three kinds of drift, with what is owed and what is booked. */
  ghost predicate DriftsAs(ledger: seq<Entry>, d: DebitDrift, s: Session)
    requires s.ended.Some?
  {
    && d.expected >= 0 && Owes(s, d.expected)
    && (if d.posted.Some? then BookedAs(ledger, d.id, s.org, d.posted.value) else !Posted(ledger, s.org, "session:" + d.id))
    && match d.kind
       case MissingDebit => d.expected > 0 && d.posted.None?
       case AmountMismatch => d.expected > 0 && d.posted.Some? && d.posted.value != 0 - d.expected
       case UnexpectedDebit => d.expected == 0 && d.posted.Some?
  }

  lemma ChargeIsOwed(s: Session)
    requires s.ended.Some?
    ensures Owes(s, Charge(s)) && forall micro: nat :: Owes(s, micro) ==> micro == Charge(s)
  {
    ChargeIsNearest(s.started, s.ended.value, s.expires, s.size);
    hide NearestCharge, ChargeOf, Duration;
  }

  /** One session by the row joined on its key. */
  lemma DriftMeans(db: Db, id: string, s: Session)
    requires s.ended.Some? && UniqueKeys(db.ledger)
    ensures DriftOf(db, id, s).None? <==> BooksRight(db.ledger, id, s)
    ensures DriftOf(db, id, s).Some? ==>
              DriftsAs(db.ledger, DebitDrift(id, Charge(s), AmountOf(db.ledger, s.org, SessionKey(id)), DriftOf(db, id, s).value), s)
  {
    ChargeIsOwed(s);
    JoinedRow(db.ledger, id, s.org);
    hide Owes, Charge, BookedAs, Posted, AmountOf, UniqueKeys;
  }

  lemma JoinedRow(ledger: seq<Entry>, id: string, org: string)
    requires UniqueKeys(ledger)
    ensures var posted := AmountOf(ledger, org, SessionKey(id));
            && (posted.None? <==> !Posted(ledger, org, "session:" + id))
            && forall amount :: posted == Some(amount) <==> BookedAs(ledger, id, org, amount)
  {
    AmountOfRow(ledger, org, SessionKey(id));
  }

  lemma {:induction false} ReportMeans(w: World, rows: seq<string>)
    requires forall i :: 0 <= i < |rows| ==> rows[i] in w.sessions && w.sessions[rows[i]].ended.Some?
    ensures UniqueKeys(w.db.ledger) ==>
              && (forall d :: d in DriftReport(w, rows) ==> d.id in rows && DriftsAs(w.db.ledger, d, w.sessions[d.id]))
              && (forall id :: id in rows && !BooksRight(w.db.ledger, id, w.sessions[id]) ==>
                    exists d :: d in DriftReport(w, rows) && d.id == id)
  {
    hide DriftsAs, BooksRight, DriftOf, Charge, AmountOf, UniqueKeys;
    if rows != [] && UniqueKeys(w.db.ledger) {
      var n := |rows| - 1;
      ReportMeans(w, rows[..n]);
      DriftMeans(w.db, rows[n], w.sessions[rows[n]]);
      var earlier, report := DriftReport(w, rows[..n]), DriftReport(w, rows);
      assert forall d :: d in earlier ==> d in report;
      assert forall id :: id in rows <==> id in rows[..n] || id == rows[n];
      if report != earlier {
        assert report[|earlier|].id == rows[n];
      }
    }
  }

  const SWEEP_BATCH: nat := 500

  /** The rows the sweep's query may return. */
  ghost predicate UnbilledBatch(sessions: map<string, Session>, rows: seq<string>) {
    && |rows| <= SWEEP_BATCH
    && (forall i :: 0 <= i < |rows| ==>
          rows[i] in sessions && sessions[rows[i]].ended.Some? && sessions[rows[i]].billed.None?)
    && (forall i, j :: 0 <= i < j < |rows| ==>
          rows[i] != rows[j] && sessions[rows[i]].ended.value <= sessions[rows[j]].ended.value)
    && (|rows| < SWEEP_BATCH ==>
          forall id :: id in sessions && sessions[id].ended.Some? && sessions[id].billed.None? ==> id in rows)
  }

  lemma ChargeOfClosed(s: Session)
    requires s.ended.Some?
    ensures Charge(s) == ChargeOf(Duration(s.started, s.ended.value, s.expires), s.size)
  {
  }

  lemma ReapThen(w: World, now: int, steps: seq<Step>)
    ensures RunSteps(w, [Reap(now)] + steps) == RunSteps(w.(sessions := Reaped(w.sessions, now)), steps)
  {
  }

  lemma NothingLeft(w: World, now: int)
    ensures RunSteps(w, BatchSteps(w, [], now, [])) == w
  {
  }

  lemma NeverWithoutFault(w: World, id: string, readable: bool)
    ensures !Throws(w, id, readable, NoFault)
  {
  }

  lemma BatchHead(w: World, ids: seq<string>, now: int, faults: seq<Fault>)
    requires ids != [] && |faults| == |ids|
    ensures var v := RunSteps(w, FaultySteps(w, ids[0], now, true, faults[0]));
            RunSteps(w, BatchSteps(w, ids, now, faults)) == RunSteps(v, BatchSteps(v, ids[1..], now, faults[1..]))
  {
    hide RunSteps, FaultySteps;
    var steps := FaultySteps(w, ids[0], now, true, faults[0]);
    RunStepsConcat(w, steps, BatchSteps(RunSteps(w, steps), ids[1..], now, faults[1..]));
  }

  /** After the first i rows of a sweep that began with the sessions `was`. */
  ghost predicate Swept(was: map<string, Session>, sessions: map<string, Session>, rows: seq<string>, faults: seq<Fault>, i: nat) {
    && |faults| == |rows| && i <= |rows| && sessions.Keys == was.Keys
    && (forall j :: 0 <= j < |rows| ==> rows[j] in was)
    && (forall j :: 0 <= j < i && faults[j].NoFault? ==> sessions[rows[j]].billed.Some?)
    && (forall id :: id in sessions && sessions[id].billed.None? ==> sessions[id] == was[id])
    && (forall j :: i <= j < |rows| ==> sessions[rows[j]] == was[rows[j]])
    && (forall id :: id in sessions ==> sessions[id].(billed := was[id].billed) == was[id])
  }

  /** A session still open past its expiry is closed now; nothing else about when it ran changes. */
  predicate ReapedAt(was: Session, s: Session, now: int) {
    && s.org == was.org && s.started == was.started && s.expires == was.expires && s.size == was.size
    && s.ended == if was.ended.None? && was.expires < now then Some(now) else was.ended
  }

  lemma SweepReaps(was: map<string, Session>, sessions: map<string, Session>, rows: seq<string>, faults: seq<Fault>, now: int)
    requires Swept(Reaped(was, now), sessions, rows, faults, |rows|)
    ensures sessions.Keys == was.Keys && forall id :: id in sessions ==> ReapedAt(was[id], sessions[id], now)
  {
    forall id | id in sessions ensures ReapedAt(was[id], sessions[id], now) {
      assert sessions[id].(billed := Reaped(was, now)[id].billed) == Reaped(was, now)[id];
    }
  }

  lemma {:induction false} MarkedIsCount(sessions: map<string, Session>, ids: seq<string>, n: nat)
    requires n <= |ids| && forall i :: 0 <= i < |ids| ==> ids[i] in sessions
    ensures MarkedCount(sessions, ids[..n]) == |set i | 0 <= i < n && sessions[ids[i]].billed.Some?|
    ensures ids[..|ids|] == ids
  {
    var marked := set i | 0 <= i < n && sessions[ids[i]].billed.Some?;
    if n == 0 {
      assert marked == {};
    } else {
      MarkedIsCount(sessions, ids, n - 1);
      assert ids[..n][..n - 1] == ids[..n - 1];
      assert marked == (set i | 0 <= i < n - 1 && sessions[ids[i]].billed.Some?) + (if sessions[ids[n - 1]].billed.Some? then {n - 1} else {});
    }
  }

  /** How many of the first i rows are marked; 0 when some row is unknown. */
  ghost function MarkedBefore(sessions: map<string, Session>, rows: seq<string>, i: nat): nat {
    if i <= |rows| && forall j :: 0 <= j < i ==> rows[..i][j] in sessions then MarkedCount(sessions, rows[..i]) else 0
  }

  lemma SweepStart(was: map<string, Session>, rows: seq<string>, faults: seq<Fault>)
    requires UnbilledBatch(was, rows) && |faults| == |rows|
    ensures Swept(was, was, rows, faults, 0) && MarkedBefore(was, rows, 0) == 0
  {
  }

  lemma SweepTurn(was: map<string, Session>, w: World, rows: seq<string>, faults: seq<Fault>, i: nat)
    requires UnbilledBatch(was, rows) && Swept(was, w.sessions, rows, faults, i) && i < |rows|
    ensures Billable(w, rows[i])
  {
  }

  lemma SweepStep(was: map<string, Session>, a: map<string, Session>, b: map<string, Session>, rows: seq<string>,
                  faults: seq<Fault>, i: nat, threw: bool, now: int)
    requires UnbilledBatch(was, rows) && Swept(was, a, rows, faults, i) && i < |rows| && rows[i] in a
    requires b == (if threw then a else MarkedBilled(a, rows[i], now)) && (threw ==> !faults[i].NoFault?)
    ensures Swept(was, b, rows, faults, i + 1)
    ensures MarkedBefore(b, rows, i + 1) == MarkedBefore(a, rows, i) + (if threw then 0 else 1)
  {
    hide MarkedBefore;
    CountStep(a, b, rows, i);
  }

  lemma CountStep(a: map<string, Session>, b: map<string, Session>, rows: seq<string>, i: nat)
    requires i < |rows| && forall j :: 0 <= j <= i ==> rows[j] in a && rows[j] in b
    requires forall j :: 0 <= j < i ==> a[rows[j]] == b[rows[j]]
    ensures MarkedBefore(b, rows, i + 1) == MarkedBefore(a, rows, i) + (if b[rows[i]].billed.Some? then 1 else 0)
  {
    assert rows[..i + 1][..i] == rows[..i];
    SameMarks(a, b, rows[..i]);
  }

  lemma SweepEnd(was: map<string, Session>, w: World, rows: seq<string>, faults: seq<Fault>)
    requires UnbilledBatch(was, rows) && Swept(was, w.sessions, rows, faults, |rows|)
    ensures forall i :: 0 <= i < |rows| ==>
              rows[i] in w.sessions && (faults[i].NoFault? ==> w.sessions[rows[i]].billed.Some?)
    ensures MarkedBefore(w.sessions, rows, |rows|) == MarkedCount(w.sessions, rows)
    ensures |rows| < SWEEP_BATCH ==>
              forall id :: Billable(w, id) ==> exists i :: 0 <= i < |rows| && rows[i] == id && !faults[i].NoFault?
  {
    assert rows[..|rows|] == rows;
  }

  /** Marking a session that is not among them changes no count. */
  lemma {:induction false} SameMarks(a: map<string, Session>, b: map<string, Session>, ids: seq<string>)
    requires forall i :: 0 <= i < |ids| ==> ids[i] in a && ids[i] in b && a[ids[i]] == b[ids[i]]
    ensures MarkedCount(a, ids) == MarkedCount(b, ids)
  {
    if ids != [] {
      SameMarks(a, b, ids[..|ids| - 1]);
    }
  }

  /** The same, by how far the debit gets. */
  lemma DebitCases(w: World, id: string, now: int, readable: bool, fault: Fault)
    requires w.workers == map[]
    ensures var v, threw := RunSteps(w, FaultySteps(w, id, now, readable, fault)), Throws(w, id, readable, fault);
            && (fault.AtRead? ==> threw && v == w)
            && (!fault.AtRead? && !Billable(w, id) ==> !threw && v == w)
            && (!fault.AtRead? && Billable(w, id) ==>
                  var s := w.sessions[id];
                  var micro := Charge(s);
                  var overage := Overage(BalanceRead(w.db, s.org, readable), micro);
                  var posted := if micro > 0 then w.(db := Apply(w.db, SessionDebit(id, s.org, micro)).0) else w;
                  var told := if micro > 0 then posted.(reports := w.reports + ReportsFor(s.org, overage, id)) else w;
                  if micro > 0 && fault.AtPost? then threw && v == w
                  else if micro > 0 && overage > 0 && fault.AtReport? then threw && v == posted
                  else if fault.AtMark? then threw && v == told
                  else !threw && v == told.(sessions := MarkedBilled(w.sessions, id, now)))
  {
    hide RunSteps, FaultySteps, Charge, Apply, SessionDebit, Overage, BalanceRead, ReportsFor, MarkedBilled;
    DebitOutcome(w, id, now, readable, fault);
    var v := RunSteps(w, FaultySteps(w, id, now, readable, fault));
  }

  /** One debit by its fault: finished, or stopped at the call that threw. */
  lemma DebitOutcome(w: World, id: string, now: int, readable: bool, fault: Fault)
    requires w.workers == map[]
    ensures RunSteps(w, FaultySteps(w, id, now, readable, fault))
         == if Throws(w, id, readable, fault) then AfterFault(w, id, readable, fault)
            else if !Billable(w, id) then w
            else AfterDebit(w, id, now, readable)
  {
    hide RunSteps, Throws, AfterFault, DebitSteps, Charge;
    if Throws(w, id, readable, fault) {
      FaultRun(w, id, now, readable, fault);
    } else {
      DebitRun(w, id, now, readable);
    }
  }

  lemma {:induction false} EmptyReport(w: World, rows: seq<string>)
    requires forall i :: 0 <= i < |rows| ==> rows[i] in w.sessions && w.sessions[rows[i]].billed.Some?
    ensures DriftReport(w, rows) == [] <==> forall i :: 0 <= i < |rows| ==> !Drifted(w, rows[i])
  {
    hide DriftOf;
    if rows != [] {
      EmptyReport(w, rows[..|rows| - 1]);
    }
  }

  /** Whatever ran before, reconciliation of any billed sessions comes back empty. */
  lemma ReconciliationIsClean(steps: seq<Step>, rows: seq<string>)
    requires AllAllowed(START, steps)
    requires var w := RunSteps(START, steps);
             forall i :: 0 <= i < |rows| ==> rows[i] in w.sessions && w.sessions[rows[i]].billed.Some?
    ensures DriftReport(RunSteps(START, steps), rows) == []
  {
    hide AllAllowed, RunSteps, Drifted, DriftReport, Inv;
    var w := RunSteps(START, steps);
    StartFits();
    RunKeeps(START, steps);
    forall i | 0 <= i < |rows| ensures !Drifted(w, rows[i]) {
      InvHasNoDrift(w, rows[i]);
    }
    EmptyReport(w, rows);
  }
}
