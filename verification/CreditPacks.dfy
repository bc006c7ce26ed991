/** Stripe webhook fulfilment: every delivery of a paid credit-pack purchase, once per purchase. */
module CreditPacks {

  import Text
  import opened CreditLedger

  type Option<T> = Text.Option<T>

  datatype Metadata = Metadata(kind: Option<string>, orgId: Option<string>)

  /** The fields of a webhook event that fulfilment looks at. */
  datatype Event = Event(
    eventType: string, mode: string, metadata: Option<Metadata>, paymentStatus: string,
    clientReference: Option<string>, currency: Option<string>, amountTotal: Option<int>, session: string)

  const COMPLETED := "checkout.session.completed"
  const ASYNC_SUCCEEDED := "checkout.session.async_payment_succeeded"
  const PACK_PREFIX := "creditpack:"
  const MICRO_PER_CENT: int := 10_000

  function PackKey(session: string): string { PACK_PREFIX + session }

  /** A settled payment for a credit pack. */
  predicate PaidPack(e: Event) {
    && (e.eventType == COMPLETED || e.eventType == ASYNC_SUCCEEDED)
    && e.mode == "payment" && e.paymentStatus == "paid"
    && e.metadata.Some? && e.metadata.value.kind == Text.Some("credit_pack")
  }

  /** The org a payment belongs to; an empty id counts as none, even where the reference names one. */
  function PackOrg(e: Event): Option<string>
    requires e.metadata.Some?
  {
    var org := if e.metadata.value.orgId.Some? then e.metadata.value.orgId else e.clientReference;
    if org == Text.Some("") then Text.None else org
  }

  predicate InDollars(e: Event) {
    e.currency.Some? ==> Text.UpperAll(e.currency.value) == "USD"
  }

  /** An event that grants, and what it grants: (org, cents). */
  function Purchase(e: Event): (r: Option<(string, nat)>)
    ensures r.Some? ==> r.value.0 != "" && r.value.1 > 0
  {
    if PaidPack(e) && PackOrg(e).Some? && InDollars(e) && e.amountTotal.Some? && e.amountTotal.value > 0
    then Text.Some((PackOrg(e).value, e.amountTotal.value))
    else Text.None
  }

  /** The payment of `cents` by `org` for a credit pack, settled in dollars, by the fields of the event. */
  predicate Settled(e: Event, org: string, cents: nat) {
    && e.eventType in {"checkout.session.completed", "checkout.session.async_payment_succeeded"}
    && e.mode == "payment" && e.paymentStatus == "paid"
    && e.metadata.Some? && e.metadata.value.kind == Text.Some("credit_pack")
    && org != "" && (e.metadata.value.orgId == Text.Some(org) || (e.metadata.value.orgId.None? && e.clientReference == Text.Some(org)))
    && (e.currency.None? || Text.UpperAll(e.currency.value) == "USD")
    && cents > 0 && e.amountTotal == Text.Some(cents)
  }

  /** An event grants exactly what it says was paid. */
  lemma PurchaseIsSettled(e: Event, org: string, cents: nat)
    ensures Purchase(e) == Text.Some((org, cents)) <==> Settled(e, org, cents)
  {
  }

  function PackGrant(org: string, cents: nat, session: string): Op {
    Post(org, cents * MICRO_PER_CENT, GrantEntry, PackKey(session), Topup)
  }

  /** The webhook handler. */
  method FulfillCreditPackEvent(store: CreditStore, e: Event)
    modifies store
    ensures store.State() == Run(old(store.State()), OpsOf([Delivery(e)]))
    ensures forall org, cents: nat :: Settled(e, org, cents) ==>
              if Posted(old(store.ledger), org, "creditpack:" + e.session) then store.ledger == old(store.ledger)
              else && Recorded(old(store.State()), store.State(), org, 10_000 * cents, GrantEntry, "creditpack:" + e.session)
                   && store.balances[org].topup == RowOf(old(store.State()), org).topup + 10_000 * cents
                   && store.balances[org].tier == RowOf(old(store.State()), org).tier
    ensures (forall org, cents: nat :: !Settled(e, org, cents)) ==> store.State() == old(store.State())
  {
    hide Recorded, Posted;
    if e.eventType != COMPLETED && e.eventType != ASYNC_SUCCEEDED { return; }
    if e.mode != "payment" { return; }
    if e.metadata.None? || e.metadata.value.kind != Text.Some("credit_pack") { return; }
    if e.paymentStatus != "paid" { return; }
    var org := if e.metadata.value.orgId.Some? then e.metadata.value.orgId else e.clientReference;
    if org.None? || org.value == "" { return; }
    var currency := if e.currency.Some? then Text.UpperAll(e.currency.value) else "USD";
    if currency != "USD" { return; }
    if e.amountTotal.None? || e.amountTotal.value <= 0 { return; }
    assert Settled(e, org.value, e.amountTotal.value);
    var micro := e.amountTotal.value * MICRO_PER_CENT;
    var r := store.PostEntry(org.value, micro, GrantEntry, PackKey(e.session), Topup);
    assert OpsOf([Delivery(e)]) == [PackGrant(org.value, e.amountTotal.value, e.session)];
  }

  // ---- whole runs --------------------------------------------------------------------------

  /** What reaches the ledger: webhook deliveries, in any order and number, and everything else. */
  datatype Call = Delivery(event: Event) | Other(op: Op)

  function OpsOf(calls: seq<Call>): seq<Op> {
    if calls == [] then []
    else
      (match calls[0]
       case Other(op) => [op]
       case Delivery(e) =>
         match Purchase(e)
         case None => []
         case Some(p) => [PackGrant(p.0, p.1, e.session)])
      + OpsOf(calls[1..])
  }

  /** The cents an org paid over distinct purchases, `seen` being those already fulfilled. */
  function CentsPaid(calls: seq<Call>, org: string, seen: set<string>): nat {
    if calls == [] then 0
    else if calls[0].Delivery? && Purchase(calls[0].event).Some?
            && Purchase(calls[0].event).value.0 == org && calls[0].event.session !in seen
    then Purchase(calls[0].event).value.1 + CentsPaid(calls[1..], org, seen + {calls[0].event.session})
    else CentsPaid(calls[1..], org, seen)
  }

  predicate IsPackRow(e: Entry, org: string) {
    e.org == org && PACK_PREFIX <= e.key
  }

  /** The credit an org's ledger holds for packs. */
  function PackCredit(ledger: seq<Entry>, org: string): int {
    if ledger == [] then 0
    else PackCredit(ledger[..|ledger| - 1], org)
         + (if IsPackRow(ledger[|ledger| - 1], org) then ledger[|ledger| - 1].amount else 0)
  }

  ghost predicate Fulfilled(ledger: seq<Entry>, org: string, seen: set<string>) {
    forall s :: s in seen <==> Posted(ledger, org, PackKey(s))
  }

  lemma PackCreditAppend(ledger: seq<Entry>, e: Entry, org: string)
    ensures PackCredit(ledger + [e], org) == PackCredit(ledger, org) + (if IsPackRow(e, org) then e.amount else 0)
  {
  }

  lemma PostedAppend(ledger: seq<Entry>, e: Entry, org: string, key: string)
    ensures Posted(ledger + [e], org, key) <==> Posted(ledger, org, key) || (e.org == org && e.key == key)
  {
    var l := ledger + [e];
    assert l[|ledger|] == e;
    if Posted(ledger, org, key) {
      var i :| 0 <= i < |ledger| && ledger[i].org == org && ledger[i].key == key;
      assert l[i].org == org && l[i].key == key;
    }
  }

  lemma PackKeysInjective(a: string, b: string)
    ensures PackKey(a) == PackKey(b) <==> a == b
    ensures PACK_PREFIX <= PackKey(a)
  {
    assert PackKey(a)[|PACK_PREFIX|..] == a && PackKey(b)[|PACK_PREFIX|..] == b;
  }

  lemma DeliveryStep(db: Db, e: Event, org: string, seen: set<string>)
    requires Fulfilled(db.ledger, org, seen) && Purchase(e).Some?
    ensures var p := Purchase(e).value;
            var next := Apply(db, PackGrant(p.0, p.1, e.session)).0.ledger;
            if p.0 == org && e.session !in seen
            then PackCredit(next, org) == PackCredit(db.ledger, org) + MICRO_PER_CENT * p.1
                 && Fulfilled(next, org, seen + {e.session})
            else PackCredit(next, org) == PackCredit(db.ledger, org) && Fulfilled(next, org, seen)
  {
    var p := Purchase(e).value;
    var op := PackGrant(p.0, p.1, e.session);
    var next := Apply(db, op).0.ledger;
    if !Posted(db.ledger, p.0, PackKey(e.session)) {
      var row := next[|db.ledger|];
      PackCreditAppend(db.ledger, row, org);
      PackKeysInjective(e.session, e.session);
      forall s ensures Posted(next, org, PackKey(s)) <==>
                       Posted(db.ledger, org, PackKey(s)) || (p.0 == org && s == e.session) {
        PostedAppend(db.ledger, row, org, PackKey(s));
        PackKeysInjective(s, e.session);
      }
    }
  }

  lemma OtherStep(db: Db, op: Op, org: string, seen: set<string>)
    requires Fulfilled(db.ledger, org, seen) && !(PACK_PREFIX <= op.key)
    ensures var next := Apply(db, op).0.ledger;
            PackCredit(next, org) == PackCredit(db.ledger, org) && Fulfilled(next, org, seen)
  {
    var next := Apply(db, op).0.ledger;
    if !Posted(db.ledger, op.org, op.key) {
      var row := next[|db.ledger|];
      PackCreditAppend(db.ledger, row, org);
      forall s ensures Posted(next, org, PackKey(s)) <==> Posted(db.ledger, org, PackKey(s)) {
        PostedAppend(db.ledger, row, org, PackKey(s));
        PackKeysInjective(s, s);
      }
    }
  }

  lemma OpsOfStep(db: Db, calls: seq<Call>)
    requires calls != []
    ensures Run(db, OpsOf(calls)) == Run(Run(db, OpsOf(calls[..1])), OpsOf(calls[1..]))
    ensures calls[0].Other? ==> Run(db, OpsOf(calls[..1])) == Apply(db, calls[0].op).0
    ensures calls[0].Delivery? ==>
              var p := Purchase(calls[0].event);
              Run(db, OpsOf(calls[..1])) ==
                if p.None? then db else Apply(db, PackGrant(p.value.0, p.value.1, calls[0].event.session)).0
  {
    hide Purchase, Apply;
    assert calls[..1][1..] == [];
    RunConcat(db, OpsOf(calls[..1]), OpsOf(calls[1..]));
    assert OpsOf(calls) == OpsOf(calls[..1]) + OpsOf(calls[1..]);
  }

  /** Main result: in any run, the pack credit of an org is 10,000 micro-dollars for every cent of
      its distinct paid purchases, however often and through whichever event each was delivered. */
  lemma {:induction false} PackCreditIsExact(db: Db, calls: seq<Call>, org: string, seen: set<string>)
    requires Fulfilled(db.ledger, org, seen)
    requires forall i :: 0 <= i < |calls| ==> calls[i].Other? ==> !(PACK_PREFIX <= calls[i].op.key)
    ensures PackCredit(Run(db, OpsOf(calls)).ledger, org)
         == PackCredit(db.ledger, org) + MICRO_PER_CENT * CentsPaid(calls, org, seen)
    decreases |calls|
  {
    hide Fulfilled, PackCredit, Apply, Purchase, PackGrant, OpsOf;
    if calls == [] {
      NoCalls(db);
    } else {
      OpsOfStep(db, calls);
      var next := Run(db, OpsOf(calls[..1]));
      match calls[0]
      case Other(op) =>
        OtherStep(db, op, org, seen);
        PackCreditIsExact(next, calls[1..], org, seen);
      case Delivery(e) =>
        if Purchase(e).Some? {
          DeliveryStep(db, e, org, seen);
          var counts := Purchase(e).value.0 == org && e.session !in seen;
          PackCreditIsExact(next, calls[1..], org, if counts then seen + {e.session} else seen);
        } else {
          PackCreditIsExact(next, calls[1..], org, seen);
        }
    }
  }

  lemma NoCalls(db: Db)
    ensures Run(db, OpsOf([])) == db
  {
  }
}
