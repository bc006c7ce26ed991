/** The prepaid credit ledger: two-bucket balances, idempotent posting, monthly tier reset. */
module CreditLedger {

  datatype EntryType = GrantEntry | DebitEntry | RefundEntry | AdjustmentEntry | ExpiryEntry

  datatype Bucket = Tier | Topup

  /** One immutable ledger row; amounts are signed micro-dollars. */
  datatype Entry = Entry(org: string, amount: int, entryType: EntryType, key: string, balanceAfter: int)

  /** The cached balance row of one org; `total` is the balance_micro column. */
  datatype Balance = Balance(tier: int, topup: int, total: int)

  datatype Db = Db(balances: map<string, Balance>, ledger: seq<Entry>)

  /** What a posting returns: the balance, and whether the key was new. */
  datatype Outcome = Outcome(balance: int, applied: bool)

  datatype Op =
    | Post(org: string, amount: int, entryType: EntryType, key: string, bucket: Bucket)
    | Reset(org: string, target: int, key: string)

  const EMPTY: Db := Db(map[], [])

  predicate Posted(ledger: seq<Entry>, org: string, key: string) {
    exists i :: 0 <= i < |ledger| && ledger[i].org == org && ledger[i].key == key
  }

  function Max(a: int, b: int): int { if a < b then b else a }

  function Min(a: int, b: int): int { if a < b then a else b }

  /** How much of a debit the code takes from the expiring bucket. */
  function FromTier(tier: int, debit: int): int {
    Max(0, Min(tier, debit))
  }

  /** The buckets after a movement, a debit taking `fromTier` from the tier bucket. */
  function Move(b: Balance, op: Op, fromTier: int): Balance {
    match op
    case Reset(_, target, _) => Balance(target, b.topup, target + b.topup)
    case Post(_, amount, _, _, bucket) =>
      if amount >= 0 then
        (if bucket.Tier? then Balance(b.tier + amount, b.topup, b.tier + amount + b.topup)
         else Balance(b.tier, b.topup + amount, b.tier + (b.topup + amount)))
      else
        var tier, topup := b.tier - fromTier, b.topup - (-amount - fromTier);
        Balance(tier, topup, tier + topup)
  }

  function Debit(op: Op): nat {
    if op.Post? && op.amount < 0 then -op.amount else 0
  }

  function RowOf(db: Db, org: string): Balance {
    if org in db.balances then db.balances[org] else Balance(0, 0, 0)
  }

  /** The signed amount an operation writes to the ledger. */
  function LedgerAmount(op: Op, b: Balance): int {
    if op.Post? then op.amount else op.target - b.tier
  }

  function EntryTypeOf(op: Op, b: Balance): EntryType {
    if op.Post? then op.entryType
    else if op.target > b.tier then GrantEntry
    else if op.target < b.tier then ExpiryEntry
    else AdjustmentEntry
  }

  /** One transaction: postEntry or resetTierBucket. */
  function Apply(db: Db, op: Op): (r: (Db, Outcome)) {
    var b := RowOf(db, op.org);
    var locked := db.(balances := db.balances[op.org := b]);
    if Posted(db.ledger, op.org, op.key) then (locked, Outcome(b.tier + b.topup, false))
    else
      var next := Move(b, op, FromTier(b.tier, Debit(op)));
      var entry := Entry(op.org, LedgerAmount(op, b), EntryTypeOf(op, b), op.key, next.total);
      (Db(db.balances[op.org := next], db.ledger + [entry]), Outcome(next.total, true))
  }

  function Run(db: Db, ops: seq<Op>): Db
    decreases |ops|
  {
    if ops == [] then db else Run(Apply(db, ops[0]).0, ops[1..])
  }

  // ---- what lands where --------------------------------------------------------------------

  /** A debit spends the expiring bucket before the persistent one, and overdraws only the latter. */
  predicate SpendsTierFirst(was: Balance, now: Balance, debit: nat) {
    && now.tier + now.topup == was.tier + was.topup - debit
    && now.tier <= was.tier && now.topup <= was.topup
    && (if was.tier <= 0 then now.tier == was.tier else 0 <= now.tier)
    && (now.topup < was.topup ==> now.tier <= 0)
  }

  /** The buckets after a posting: a credit raises the named one, a debit spends tier first. */
  predicate PostLands(was: Balance, now: Balance, amount: int, bucket: Bucket) {
    && now.total == now.tier + now.topup
    && (amount >= 0 && bucket.Tier? ==> now.tier == was.tier + amount && now.topup == was.topup)
    && (amount >= 0 && bucket.Topup? ==> now.topup == was.topup + amount && now.tier == was.tier)
    && (amount < 0 ==> SpendsTierFirst(was, now, -amount))
  }

  /** The buckets after a reset: exactly the allotment in the expiring one, the other untouched. */
  predicate ResetLands(was: Balance, now: Balance, target: int) {
    now.tier == target && now.topup == was.topup && now.total == target + was.topup
  }

  /** One new row for the org, and only its balance row moves. */
  ghost predicate Recorded(was: Db, now: Db, org: string, amount: int, entryType: EntryType, key: string) {
    && org in now.balances
    && now.ledger == was.ledger + [Entry(org, amount, entryType, key, now.balances[org].total)]
    && now.balances.Keys == was.balances.Keys + {org}
    && (forall o :: o in was.balances && o != org ==> now.balances[o] == was.balances[o])
  }

  /** What a posting with a new key does to the two buckets and to the ledger. */
  lemma PostFields(db: Db, org: string, amount: int, entryType: EntryType, key: string, bucket: Bucket)
    requires !Posted(db.ledger, org, key)
    ensures var (next, r) := Apply(db, Post(org, amount, entryType, key, bucket));
            && Recorded(db, next, org, amount, entryType, key)
            && PostLands(RowOf(db, org), next.balances[org], amount, bucket)
            && r == Outcome(next.balances[org].total, true)
  {
  }

  /** What a reset with a new key does: the signed difference is granted, expires, or is recorded as zero. */
  lemma ResetFields(db: Db, org: string, target: int, key: string)
    requires !Posted(db.ledger, org, key)
    ensures var (next, r) := Apply(db, Reset(org, target, key));
            var gained := target - RowOf(db, org).tier;
            && Recorded(db, next, org, gained,
                        if gained > 0 then GrantEntry else if gained < 0 then ExpiryEntry else AdjustmentEntry, key)
            && ResetLands(RowOf(db, org), next.balances[org], target)
            && r == Outcome(next.balances[org].total, true)
  {
  }

  /** A key seen before moves no money and writes no row. */
  lemma ReplayFields(db: Db, op: Op)
    requires Posted(db.ledger, op.org, op.key)
    ensures var (next, r) := Apply(db, op);
            && next.ledger == db.ledger && next.balances == db.balances[op.org := RowOf(db, op.org)]
            && r == Outcome(RowOf(db, op.org).tier + RowOf(db, op.org).topup, false)
  {
  }

  /** No number of resets touches the persistent bucket, and a last one with a new key decides the other. */
  lemma {:induction false} ResetsKeepTopup(db: Db, ops: seq<Op>, org: string)
    requires forall i :: 0 <= i < |ops| ==> ops[i].Reset?
    ensures RowOf(Run(db, ops), org).topup == RowOf(db, org).topup
    ensures ops != [] && ops[|ops| - 1].org == org
              && (forall i :: 0 <= i < |ops| - 1 ==> IdOf(ops[i]) != IdOf(ops[|ops| - 1]))
              && !Posted(db.ledger, org, ops[|ops| - 1].key) ==>
              RowOf(Run(db, ops), org).tier == ops[|ops| - 1].target
    decreases |ops|
  {
    if ops != [] {
      var op, rest := ops[0], ops[1..];
      var next := Apply(db, op).0;
      ResetTopup(db, op, org);
      assert forall i :: 0 <= i < |rest| ==> rest[i] == ops[i + 1];
      ResetsKeepTopup(next, rest, org);
      if rest == [] {
        assert Run(next, rest) == next;
      } else if IdOf(op) != IdOf(ops[|ops| - 1]) {
        OtherKeys(db, op, ops[|ops| - 1]);
      }
    }
  }

  lemma OtherKeys(db: Db, op: Op, other: Op)
    requires IdOf(op) != IdOf(other)
    ensures Posted(Apply(db, op).0.ledger, other.org, other.key) <==> Posted(db.ledger, other.org, other.key)
  {
    hide Move;
    var l := Apply(db, op).0.ledger;
    if i :| 0 <= i < |db.ledger| && db.ledger[i].org == other.org && db.ledger[i].key == other.key {
      assert l[i] == db.ledger[i];
    }
  }

  lemma ResetTopup(db: Db, op: Op, org: string)
    requires op.Reset?
    ensures var next := Apply(db, op).0;
            && RowOf(next, org).topup == RowOf(db, org).topup
            && (org == op.org && !Posted(db.ledger, org, op.key) ==> RowOf(next, org).tier == op.target)
  {
  }

  // ---- conservation ------------------------------------------------------------------------

  function Sum(ledger: seq<Entry>, org: string): int {
    if ledger == [] then 0
    else Sum(ledger[..|ledger| - 1], org)
         + (if ledger[|ledger| - 1].org == org then ledger[|ledger| - 1].amount else 0)
  }

  ghost predicate UniqueKeys(ledger: seq<Entry>) {
    forall i, j :: 0 <= i < j < |ledger| ==> ledger[i].org != ledger[j].org || ledger[i].key != ledger[j].key
  }

  /** Every row carries the balance its org had right after it. */
  ghost predicate PrefixSums(ledger: seq<Entry>) {
    forall i :: 0 <= i < |ledger| ==> ledger[i].balanceAfter == Sum(ledger[..i + 1], ledger[i].org)
  }

  ghost predicate Consistent(db: Db) {
    && (forall org :: org in db.balances ==>
          db.balances[org].total == db.balances[org].tier + db.balances[org].topup == Sum(db.ledger, org))
    && (forall i :: 0 <= i < |db.ledger| ==> db.ledger[i].org in db.balances)
    && UniqueKeys(db.ledger)
    && PrefixSums(db.ledger)
  }

  lemma SumAppend(ledger: seq<Entry>, e: Entry, org: string)
    ensures Sum(ledger + [e], org) == Sum(ledger, org) + (if e.org == org then e.amount else 0)
  {
  }

  lemma {:induction false} SumOfStranger(ledger: seq<Entry>, org: string)
    requires forall i :: 0 <= i < |ledger| ==> ledger[i].org != org
    ensures Sum(ledger, org) == 0
  {
    if ledger != [] {
      SumOfStranger(ledger[..|ledger| - 1], org);
    }
  }

  lemma PrefixSumsAppend(ledger: seq<Entry>, e: Entry)
    requires PrefixSums(ledger) && e.balanceAfter == Sum(ledger + [e], e.org)
    ensures PrefixSums(ledger + [e])
  {
    var l := ledger + [e];
    forall i | 0 <= i < |l| ensures l[i].balanceAfter == Sum(l[..i + 1], l[i].org) {
      assert i < |ledger| ==> l[..i + 1] == ledger[..i + 1];
      assert i == |ledger| ==> l[..i + 1] == l;
    }
  }

  lemma ApplyBalances(db: Db, op: Op)
    requires Consistent(db)
    ensures var r := Apply(db, op);
            && r.1.balance == Sum(r.0.ledger, op.org)
            && (forall org :: org in r.0.balances ==>
                  r.0.balances[org].total == r.0.balances[org].tier + r.0.balances[org].topup == Sum(r.0.ledger, org))
  {
    hide Move, Sum, Debit, FromTier, LedgerAmount, UniqueKeys, PrefixSums;
    var b, r := RowOf(db, op.org), Apply(db, op).0;
    RowIsSum(db, op.org);
    if !Posted(db.ledger, op.org, op.key) {
      var e := r.ledger[|db.ledger|];
      MoveAddsAmount(b, op, FromTier(b.tier, Debit(op)));
      forall org ensures Sum(r.ledger, org) == Sum(db.ledger, org) + (if e.org == org then e.amount else 0) {
        SumAppend(db.ledger, e, org);
      }
    }
  }

  /** The row a transaction locks, stored or made up, holds the sum of its ledger rows. */
  lemma RowIsSum(db: Db, org: string)
    requires Consistent(db)
    ensures var b := RowOf(db, org); b.total == b.tier + b.topup == Sum(db.ledger, org)
  {
    if org !in db.balances {
      SumOfStranger(db.ledger, org);
    }
    hide Sum, UniqueKeys, PrefixSums;
  }

  lemma ApplyRows(db: Db, op: Op)
    requires Consistent(db)
    ensures var r := Apply(db, op).0;
            && (forall i :: 0 <= i < |r.ledger| ==> r.ledger[i].org in r.balances)
            && UniqueKeys(r.ledger)
  {
    hide Move, Sum;
    var r := Apply(db, op).0;
    assert forall i :: 0 <= i < |db.ledger| ==> r.ledger[i] == db.ledger[i];
  }

  lemma ApplyPrefixSums(db: Db, op: Op)
    requires Consistent(db)
    ensures PrefixSums(Apply(db, op).0.ledger)
  {
    ApplyBalances(db, op);
    hide Move, Sum, PrefixSums, UniqueKeys;
    if !Posted(db.ledger, op.org, op.key) {
      var r := Apply(db, op);
      var e := r.0.ledger[|db.ledger|];
      assert r.0.ledger == db.ledger + [e] && e.org == op.org && e.balanceAfter == r.1.balance;
      PrefixSumsAppend(db.ledger, e);
    }
  }

  /** The step of the invariant: no transaction, replay or not, breaks the books. */
  lemma ApplyConsistent(db: Db, op: Op)
    requires Consistent(db)
    ensures Consistent(Apply(db, op).0)
    ensures Apply(db, op).1.balance == Sum(Apply(db, op).0.ledger, op.org)
  {
    hide Apply, Move, Sum, PrefixSums, UniqueKeys, Posted;
    ApplyBalances(db, op);
    ApplyRows(db, op);
    ApplyPrefixSums(db, op);
  }

  /** However a debit is split, the total moves by exactly the ledger amount. */
  lemma MoveAddsAmount(b: Balance, op: Op, fromTier: int)
    ensures var m := Move(b, op, fromTier); m.total == m.tier + m.topup == b.tier + b.topup + LedgerAmount(op, b)
  {
  }

  /** Main result: after any run of postings, resets and replays, in any order, every balance is
      the sum of its ledger rows and every row holds the running balance. */
  lemma {:induction false} Conservation(db: Db, ops: seq<Op>)
    requires Consistent(db)
    ensures Consistent(Run(db, ops))
    decreases |ops|
  {
    hide Consistent;
    if ops != [] {
      ApplyConsistent(db, ops[0]);
      Conservation(Apply(db, ops[0]).0, ops[1..]);
    }
  }

  ghost predicate TierNonNegative(db: Db) {
    forall org :: org in db.balances ==> 0 <= db.balances[org].tier
  }

  /** The expiring bucket is never overdrawn, as long as resets aim at no negative allotment. */
  lemma {:induction false} TierNeverNegative(db: Db, ops: seq<Op>)
    requires TierNonNegative(db)
    requires forall i :: 0 <= i < |ops| ==> ops[i].Reset? ==> 0 <= ops[i].target
    ensures TierNonNegative(Run(db, ops))
    decreases |ops|
  {
    if ops != [] {
      TierNeverNegative(Apply(db, ops[0]).0, ops[1..]);
    }
  }

  // ---- replays -----------------------------------------------------------------------------

  type Id = (string, string)

  function IdOf(op: Op): Id { (op.org, op.key) }

  ghost function PostedIds(ledger: seq<Entry>): set<Id> {
    set i | 0 <= i < |ledger| :: (ledger[i].org, ledger[i].key)
  }

  /** Only the first call for each (org, key) not seen before. */
  function FirstCalls(ops: seq<Op>, seen: set<Id>): seq<Op> {
    if ops == [] then []
    else if IdOf(ops[0]) in seen then FirstCalls(ops[1..], seen)
    else [ops[0]] + FirstCalls(ops[1..], seen + {IdOf(ops[0])})
  }

  lemma ApplyIds(db: Db, op: Op)
    ensures PostedIds(Apply(db, op).0.ledger) == PostedIds(db.ledger) + {IdOf(op)}
    ensures IdOf(op) in PostedIds(db.ledger) <==> Posted(db.ledger, op.org, op.key)
    ensures Consistent(db) && IdOf(op) in PostedIds(db.ledger) ==> Apply(db, op).0 == db
  {
    var r := Apply(db, op).0;
    var ids := PostedIds(db.ledger);
    if IdOf(op) in ids {
      var i :| 0 <= i < |db.ledger| && (db.ledger[i].org, db.ledger[i].key) == IdOf(op);
      assert Posted(db.ledger, op.org, op.key);
      if Consistent(db) {
        assert op.org in db.balances && db.balances[op.org := db.balances[op.org]] == db.balances;
      }
    }
    if !Posted(db.ledger, op.org, op.key) {
      assert r.ledger == db.ledger + [r.ledger[|db.ledger|]];
      assert forall i :: 0 <= i < |db.ledger| ==> r.ledger[i] == db.ledger[i];
      assert r.ledger[|db.ledger|].org == op.org && r.ledger[|db.ledger|].key == op.key;
    }
  }

  /** Main result: a run with repeated keys ends exactly where the run of first calls ends. */
  lemma {:induction false} ReplaysRefine(db: Db, ops: seq<Op>)
    requires Consistent(db)
    ensures Run(db, ops) == Run(db, FirstCalls(ops, PostedIds(db.ledger)))
    decreases |ops|
  {
    hide Consistent, Apply, PostedIds;
    if ops != [] {
      ApplyIds(db, ops[0]);
      ApplyConsistent(db, ops[0]);
      ReplaysRefine(Apply(db, ops[0]).0, ops[1..]);
      if IdOf(ops[0]) in PostedIds(db.ledger) {
        assert PostedIds(db.ledger) + {IdOf(ops[0])} == PostedIds(db.ledger);
      } else {
        var rest := FirstCalls(ops[1..], PostedIds(db.ledger) + {IdOf(ops[0])});
        assert ([ops[0]] + rest)[1..] == rest;
      }
    }
  }

  lemma {:induction false} RunConcat(db: Db, a: seq<Op>, b: seq<Op>)
    ensures Run(db, a + b) == Run(Run(db, a), b)
    decreases |a|
  {
    hide Apply;
    if a == [] {
      assert a + b == b;
    } else {
      assert (a + b)[0] == a[0] && (a + b)[1..] == a[1..] + b;
      RunConcat(Apply(db, a[0]).0, a[1..], b);
    }
  }

  ghost function Ids(ops: seq<Op>): set<Id> {
    if ops == [] then {} else {IdOf(ops[0])} + Ids(ops[1..])
  }

  lemma {:induction false} RunIds(db: Db, ops: seq<Op>)
    ensures PostedIds(Run(db, ops).ledger) == PostedIds(db.ledger) + Ids(ops)
    decreases |ops|
  {
    hide Apply, PostedIds;
    if ops != [] {
      ApplyIds(db, ops[0]);
      RunIds(Apply(db, ops[0]).0, ops[1..]);
    }
  }

  lemma {:induction false} AllSeen(ops: seq<Op>, seen: set<Id>)
    requires Ids(ops) <= seen
    ensures FirstCalls(ops, seen) == []
  {
    if ops != [] {
      AllSeen(ops[1..], seen);
    }
  }

  /** Redelivering any calls already made, in any order and number, changes nothing. */
  lemma RedeliveryIsNoOp(db: Db, ops: seq<Op>, again: seq<Op>)
    requires Consistent(db) && Ids(again) <= Ids(ops)
    ensures Run(db, ops + again) == Run(db, ops)
  {
    hide *;
    RunConcat(db, ops, again);
    Conservation(db, ops);
    RunIds(db, ops);
    ReplaysRefine(Run(db, ops), again);
    AllSeen(again, PostedIds(Run(db, ops).ledger));
    RunNone(Run(db, ops));
  }

  lemma RunNone(db: Db)
    ensures Run(db, []) == db
  {
  }

  // ---- tier-first is the best way to spend -------------------------------------------------

  /** The buckets after a run in which the i-th debit takes `cuts[i]` from the tier bucket. */
  function Spend(b: Balance, ops: seq<Op>, cuts: seq<int>): Balance
    requires |cuts| == |ops|
    decreases |ops|
  {
    if ops == [] then b else Spend(Move(b, ops[0], cuts[0]), ops[1..], cuts[1..])
  }

  /** A policy that never overdraws the tier bucket and never takes more than the debit. */
  ghost predicate LegalCuts(b: Balance, ops: seq<Op>, cuts: seq<int>)
    requires |cuts| == |ops|
    decreases |ops|
  {
    ops == [] ||
    (&& 0 <= cuts[0] <= Debit(ops[0])
     && (Debit(ops[0]) > 0 ==> cuts[0] <= Max(0, b.tier))
     && LegalCuts(Move(b, ops[0], cuts[0]), ops[1..], cuts[1..]))
  }

  /** The policy of the code. */
  function CodeCuts(b: Balance, ops: seq<Op>): (cuts: seq<int>)
    ensures |cuts| == |ops|
    decreases |ops|
  {
    if ops == [] then []
    else
      var cut := FromTier(b.tier, Debit(ops[0]));
      [cut] + CodeCuts(Move(b, ops[0], cut), ops[1..])
  }

  lemma {:induction false} CodeCutsLegal(b: Balance, ops: seq<Op>)
    ensures LegalCuts(b, ops, CodeCuts(b, ops))
    decreases |ops|
  {
    if ops != [] {
      var cut := FromTier(b.tier, Debit(ops[0]));
      CodeCutsLegal(Move(b, ops[0], cut), ops[1..]);
    }
  }

  /** At least as much paid credit and at least as much in total. */
  predicate Dominates(b: Balance, c: Balance) {
    b.topup >= c.topup && b.tier + b.topup >= c.tier + c.topup
  }

  lemma MoveDominates(b: Balance, c: Balance, op: Op, cut: int)
    requires Dominates(b, c) && 0 <= b.tier && 0 <= c.tier
    requires 0 <= cut <= Debit(op) && (Debit(op) > 0 ==> cut <= c.tier)
    requires op.Reset? ==> 0 <= op.target
    ensures var b', c' := Move(b, op, FromTier(b.tier, Debit(op))), Move(c, op, cut);
            Dominates(b', c') && 0 <= b'.tier && 0 <= c'.tier
  {
  }

  /** Main result: after every step of every run, no legal policy has more top-up credit or more
      credit in total than the code's tier-first policy on the same movements. */
  lemma {:induction false} TierFirstIsOptimal(b: Balance, c: Balance, ops: seq<Op>, cuts: seq<int>, n: nat)
    requires n <= |cuts| == |ops| && LegalCuts(c, ops, cuts)
    requires Dominates(b, c) && 0 <= b.tier && 0 <= c.tier
    requires forall i :: 0 <= i < |ops| ==> ops[i].Reset? ==> 0 <= ops[i].target
    ensures Dominates(Spend(b, ops[..n], CodeCuts(b, ops)[..n]), Spend(c, ops[..n], cuts[..n]))
    decreases |ops|
  {
    if n > 0 {
      MoveDominates(b, c, ops[0], cuts[0]);
      var cut := FromTier(b.tier, Debit(ops[0]));
      var rest := CodeCuts(Move(b, ops[0], cut), ops[1..]);
      TierFirstIsOptimal(Move(b, ops[0], cut), Move(c, ops[0], cuts[0]), ops[1..], cuts[1..], n - 1);
      assert ops[..n][1..] == ops[1..][..n - 1] && cuts[..n][1..] == cuts[1..][..n - 1];
      assert CodeCuts(b, ops)[..n][0] == cut && CodeCuts(b, ops)[..n][1..] == rest[..n - 1];
    }
  }

  /** The code's policy is itself legal, and the best of the legal ones from any balance. */
  lemma TierFirstIsBest(b: Balance, ops: seq<Op>)
    requires 0 <= b.tier && forall i :: 0 <= i < |ops| ==> ops[i].Reset? ==> 0 <= ops[i].target
    ensures LegalCuts(b, ops, CodeCuts(b, ops))
    ensures forall cuts :: |cuts| == |ops| && LegalCuts(b, ops, cuts) ==>
              Dominates(Spend(b, ops, CodeCuts(b, ops)), Spend(b, ops, cuts))
  {
    hide Spend, LegalCuts, CodeCuts;
    CodeCutsLegal(b, ops);
    forall cuts | |cuts| == |ops| && LegalCuts(b, ops, cuts)
      ensures Dominates(Spend(b, ops, CodeCuts(b, ops)), Spend(b, ops, cuts))
    {
      TierFirstIsOptimal(b, b, ops, cuts, |ops|);
      assert ops[..|ops|] == ops && cuts[..|ops|] == cuts && CodeCuts(b, ops)[..|ops|] == CodeCuts(b, ops);
    }
  }

  /** The store spends by that policy: a run of new keys for one org leaves its balance there. */
  lemma {:induction false} StoreSpendsTierFirst(db: Db, org: string, ops: seq<Op>)
    requires forall i :: 0 <= i < |ops| ==> ops[i].org == org && !Posted(db.ledger, org, ops[i].key)
    requires forall i, j :: 0 <= i < j < |ops| ==> ops[i].key != ops[j].key
    ensures var b := RowOf(db, org); RowOf(Run(db, ops), org) == Spend(b, ops, CodeCuts(b, ops))
    decreases |ops|
  {
    if ops != [] {
      var next := Apply(db, ops[0]).0;
      var b := RowOf(db, org);
      forall i | 0 <= i < |ops[1..]| ensures !Posted(next.ledger, org, ops[1..][i].key) {
        assert ops[1..][i] == ops[i + 1];
        assert !Posted(db.ledger, org, ops[i + 1].key);
      }
      StoreSpendsTierFirst(next, org, ops[1..]);
      var cut := FromTier(b.tier, Debit(ops[0]));
      assert CodeCuts(b, ops)[0] == cut && CodeCuts(b, ops)[1..] == CodeCuts(Move(b, ops[0], cut), ops[1..]);
    }
  }

  // ---- the store as an object --------------------------------------------------------------

  class CreditStore {
    var balances: map<string, Balance>
    var ledger: seq<Entry>

    constructor ()
      ensures State() == EMPTY
    {
      balances := map[];
      ledger := [];
    }

    function State(): Db
      reads this
    {
      Db(balances, ledger)
    }

    /** INSERT ... ON CONFLICT DO NOTHING, then the locked read. */
    method LockRow(org: string) returns (b: Balance)
      modifies this`balances
      ensures b == RowOf(old(State()), org)
      ensures balances == old(balances)[org := b]
    {
      if org !in balances {
        balances := balances[org := Balance(0, 0, 0)];
      }
      b := balances[org];
    }

    /** INSERT ... ON CONFLICT (org_id, idempotency_key) DO NOTHING. */
    method InsertEntry(e: Entry) returns (inserted: bool)
      modifies this`ledger
      ensures inserted == !Posted(old(ledger), e.org, e.key)
      ensures ledger == if inserted then old(ledger) + [e] else old(ledger)
    {
      inserted := true;
      for i := 0 to |ledger|
        invariant forall j :: 0 <= j < i ==> ledger[j].org != e.org || ledger[j].key != e.key
        invariant inserted && ledger == old(ledger)
      {
        if ledger[i].org == e.org && ledger[i].key == e.key {
          inserted := false;
          return;
        }
      }
      ledger := ledger + [e];
    }

    /** The UPDATEs that close a transaction: the balance row, and balance_after on the new row. */
    method Settle(org: string, next: Balance)
      requires org in balances && ledger != []
      modifies this
      ensures balances == old(balances)[org := next]
      ensures ledger == old(ledger)[..|old(ledger)| - 1] + [old(ledger)[|old(ledger)| - 1].(balanceAfter := next.total)]
    {
      balances := balances[org := next];
      ledger := ledger[|ledger| - 1 := ledger[|ledger| - 1].(balanceAfter := next.total)];
    }

    method PostEntry(org: string, amount: int, entryType: EntryType, key: string, bucket: Bucket)
      returns (r: Outcome)
      modifies this
      ensures (State(), r) == Apply(old(State()), Post(org, amount, entryType, key, bucket))
      ensures r.applied == !Posted(old(ledger), org, key)
      ensures r.applied ==> Recorded(old(State()), State(), org, amount, entryType, key) && r.balance == balances[org].total
      ensures r.applied ==> PostLands(RowOf(old(State()), org), balances[org], amount, bucket)
    {
      var b := LockRow(org);
      var inserted := InsertEntry(Entry(org, amount, entryType, key, 0));
      if !inserted {
        return Outcome(b.tier + b.topup, false);
      }
      var newTier, newTopup := b.tier, b.topup;
      if amount >= 0 {
        if bucket.Tier? { newTier := b.tier + amount; } else { newTopup := b.topup + amount; }
      } else {
        var debit := -amount;
        var fromTier := Max(0, Min(b.tier, debit));
        newTier := b.tier - fromTier;
        newTopup := b.topup - (debit - fromTier);
      }
      var next := newTier + newTopup;
      Settle(org, Balance(newTier, newTopup, next));
      r := Outcome(next, true);
      assert balances == old(balances)[org := Balance(newTier, newTopup, next)];
      assert ledger == old(ledger) + [Entry(org, amount, entryType, key, next)];
    }

    method ResetTierBucket(org: string, target: int, key: string) returns (r: Outcome)
      modifies this
      ensures (State(), r) == Apply(old(State()), Reset(org, target, key))
      ensures r.applied == !Posted(old(ledger), org, key)
      ensures r.applied ==> ResetLands(RowOf(old(State()), org), balances[org], target) && r.balance == balances[org].total
    {
      var b := LockRow(org);
      var delta := target - b.tier;
      var entryType := if delta > 0 then GrantEntry else if delta < 0 then ExpiryEntry else AdjustmentEntry;
      var inserted := InsertEntry(Entry(org, delta, entryType, key, 0));
      if !inserted {
        return Outcome(b.tier + b.topup, false);
      }
      var next := target + b.topup;
      Settle(org, Balance(target, b.topup, next));
      r := Outcome(next, true);
      assert balances == old(balances)[org := Balance(target, b.topup, next)];
      assert ledger == old(ledger) + [Entry(org, delta, entryType, key, next)];
    }

    /** The monthly tick: every org without this period's reset row, at most RESET_BATCH of them;
        an org whose own transaction fails is skipped and stays due. */
    method ResetAllTierCredits(plans: seq<(string, nat)>, period: string, failing: set<string>) returns (reset: nat)
      modifies this
      ensures var ops := ResetOps(DuePlans(plans, old(ledger), period), period, failing);
              State() == Run(old(State()), ops) && reset == |FirstCalls(ops, PostedIds(old(ledger)))|
      ensures OnePlanEach(plans) ==> reset == |Served(plans, old(ledger), period, failing)|
      ensures OnePlanEach(plans) ==> forall i :: 0 <= i < |plans| ==>
                var was, now := RowOf(old(State()), plans[i].0), RowOf(State(), plans[i].0);
                if plans[i].0 in Served(plans, old(ledger), period, failing) then ResetLands(was, now, plans[i].1)
                else now == was
    {
      hide Served, ResetLands, OnePlanEach, ResetKey;
      var due := DuePlans(plans, ledger, period);
      ghost var db0 := State();
      ghost var all := |FirstCalls(ResetOps(due, period, failing), PostedIds(ledger))|;
      reset := 0;
      for i := 0 to |due|
        invariant Run(db0, ResetOps(due, period, failing)) == Run(State(), ResetOps(due[i..], period, failing))
        invariant reset + |FirstCalls(ResetOps(due[i..], period, failing), PostedIds(ledger))| == all
      {
        assert due[i..][0] == due[i] && due[i..][1..] == due[i + 1..];
        if due[i].0 !in failing {
          ghost var op := Reset(due[i].0, due[i].1, ResetKey(due[i].0, period));
          ResetOpsStep(due[i..], period, failing);
          StepOfRun(State(), op, ResetOps(due[i + 1..], period, failing));
          var r := ResetTierBucket(due[i].0, due[i].1, ResetKey(due[i].0, period));
          if r.applied {
            reset := reset + 1;
          }
        }
      }
      TickResult(db0, plans, period, failing);
    }
  }

  /** Running one operation and then the rest, with the count of those that land. */
  lemma StepOfRun(db: Db, op: Op, rest: seq<Op>)
    ensures var (next, r) := Apply(db, op);
            && Run(db, [op] + rest) == Run(next, rest)
            && |FirstCalls([op] + rest, PostedIds(db.ledger))|
               == |FirstCalls(rest, PostedIds(next.ledger))| + (if r.applied then 1 else 0)
  {
    ApplyIds(db, op);
    hide PostedIds;
    assert ([op] + rest)[1..] == rest;
    if IdOf(op) in PostedIds(db.ledger) {
      assert PostedIds(db.ledger) + {IdOf(op)} == PostedIds(db.ledger);
    }
  }

  // ---- the monthly reset -------------------------------------------------------------------

  const RESET_BATCH: nat := 1000

  function ResetKey(org: string, period: string): string {
    "tier_reset:" + org + ":" + period
  }

  /** The due orgs of one tick with their allotments, cut off at the batch size. */
  function DuePlans(plans: seq<(string, nat)>, ledger: seq<Entry>, period: string): seq<(string, nat)> {
    var due := AllDue(plans, ledger, period);
    if |due| <= RESET_BATCH then due else due[..RESET_BATCH]
  }

  function AllDue(plans: seq<(string, nat)>, ledger: seq<Entry>, period: string): seq<(string, nat)> {
    if plans == [] then []
    else (if Posted(ledger, plans[0].0, ResetKey(plans[0].0, period)) then [] else [plans[0]])
         + AllDue(plans[1..], ledger, period)
  }

  function ResetOps(due: seq<(string, nat)>, period: string, failing: set<string>): seq<Op> {
    if due == [] then []
    else if due[0].0 in failing then ResetOps(due[1..], period, failing)
    else [Reset(due[0].0, due[0].1, ResetKey(due[0].0, period))] + ResetOps(due[1..], period, failing)
  }

  lemma ResetOpsStep(due: seq<(string, nat)>, period: string, failing: set<string>)
    requires due != [] && due[0].0 !in failing
    ensures ResetOps(due, period, failing)
         == [Reset(due[0].0, due[0].1, ResetKey(due[0].0, period))] + ResetOps(due[1..], period, failing)
  {
  }

  /** Main result of the tick: each org it serves ends with exactly its allotment in the tier bucket,
      its top-up credit untouched; an org it skips is left as it was. */
  lemma {:induction false} TickLands(db: Db, due: seq<(string, nat)>, period: string, failing: set<string>, i: nat)
    requires i < |due| && forall j, k :: 0 <= j < k < |due| ==> due[j].0 != due[k].0
    requires !Posted(db.ledger, due[i].0, ResetKey(due[i].0, period))
    ensures var was, now := RowOf(db, due[i].0), RowOf(Run(db, ResetOps(due, period, failing)), due[i].0);
            if due[i].0 in failing then now == was else ResetLands(was, now, due[i].1)
    decreases |due|
  {
    var org, rest := due[i].0, due[1..];
    var next := if due[0].0 in failing then db
                else Apply(db, Reset(due[0].0, due[0].1, ResetKey(due[0].0, period))).0;
    if due[0].0 !in failing {
      StepOfRun(db, Reset(due[0].0, due[0].1, ResetKey(due[0].0, period)), ResetOps(rest, period, failing));
    }
    assert Run(db, ResetOps(due, period, failing)) == Run(next, ResetOps(rest, period, failing));
    if i == 0 {
      Bystander(next, rest, period, failing, org);
    } else {
      assert due[i] == rest[i - 1];
      TickLands(next, rest, period, failing, i - 1);
    }
  }

  lemma {:induction false} Bystander(db: Db, due: seq<(string, nat)>, period: string, failing: set<string>, org: string)
    requires forall j :: 0 <= j < |due| ==> due[j].0 != org
    ensures RowOf(Run(db, ResetOps(due, period, failing)), org) == RowOf(db, org)
    decreases |due|
  {
    if due != [] {
      var next := if due[0].0 in failing then db
                  else Apply(db, Reset(due[0].0, due[0].1, ResetKey(due[0].0, period))).0;
      if due[0].0 !in failing {
        StepOfRun(db, Reset(due[0].0, due[0].1, ResetKey(due[0].0, period)), ResetOps(due[1..], period, failing));
      }
      Bystander(next, due[1..], period, failing, org);
    }
  }

  /** How many of the plans belong to orgs without this period's reset row. */
  function CountDue(plans: seq<(string, nat)>, ledger: seq<Entry>, period: string): nat {
    if plans == [] then 0
    else CountDue(plans[..|plans| - 1], ledger, period)
         + (if Posted(ledger, plans[|plans| - 1].0, ResetKey(plans[|plans| - 1].0, period)) then 0 else 1)
  }

  ghost predicate OnePlanEach(plans: seq<(string, nat)>) {
    forall i, j :: 0 <= i < j < |plans| ==> plans[i].0 != plans[j].0
  }

  /** Among the first RESET_BATCH plans that are due. */
  predicate Reached(plans: seq<(string, nat)>, ledger: seq<Entry>, period: string, i: nat)
    requires i < |plans|
  {
    !Posted(ledger, plans[i].0, ResetKey(plans[i].0, period)) && CountDue(plans[..i], ledger, period) < RESET_BATCH
  }

  /** Each period has a key of its own. */
  lemma ResetKeysDiffer(org: string, p: string, q: string)
    ensures ResetKey(org, p) == ResetKey(org, q) ==> p == q
  {
    var prefix := "tier_reset:" + org + ":";
    assert ResetKey(org, p) == prefix + p && ResetKey(org, q) == prefix + q;
    assert ResetKey(org, p)[|prefix|..] == p && ResetKey(org, q)[|prefix|..] == q;
  }

  /** The due plans: each once, none with a reset row. */
  lemma {:induction false} AllDueOnce(plans: seq<(string, nat)>, ledger: seq<Entry>, period: string)
    requires OnePlanEach(plans)
    ensures var due := AllDue(plans, ledger, period);
            && (forall k :: 0 <= k < |due| ==> due[k] in plans && !Posted(ledger, due[k].0, ResetKey(due[k].0, period)))
            && OnePlanEach(due)
  {
    hide Posted, ResetKey;
    if plans != [] {
      var front := plans[..|plans| - 1];
      AllDueOnce(front, ledger, period);
      AllDueLast(plans, ledger, period);
      assert forall x :: x in front ==> x in plans;
    }
  }

  /** Each at its place. */
  lemma {:induction false} AllDueAt(plans: seq<(string, nat)>, ledger: seq<Entry>, period: string, i: nat)
    requires i <= |plans|
    ensures var due, k := AllDue(plans, ledger, period), CountDue(plans[..i], ledger, period);
            && |due| == CountDue(plans, ledger, period)
            && (i < |plans| && !Posted(ledger, plans[i].0, ResetKey(plans[i].0, period)) ==> k < |due| && due[k] == plans[i])
  {
    hide Posted, ResetKey;
    if plans != [] {
      var n := |plans| - 1;
      AllDueLast(plans, ledger, period);
      AllDueAt(plans[..n], ledger, period, if i < n then i else n);
      if i < n {
        assert plans[..n][..i] == plans[..i] && plans[..n][i] == plans[i];
      }
    }
  }

  lemma {:induction false} AllDueLast(plans: seq<(string, nat)>, ledger: seq<Entry>, period: string)
    requires plans != []
    ensures var n := |plans| - 1;
            AllDue(plans, ledger, period)
            == AllDue(plans[..n], ledger, period)
               + (if Posted(ledger, plans[n].0, ResetKey(plans[n].0, period)) then [] else [plans[n]])
  {
    hide Posted, ResetKey;
    var n := |plans| - 1;
    if n > 0 {
      AllDueLast(plans[1..], ledger, period);
      assert plans[1..][..n - 1] == plans[..n][1..];
    }
  }

  /** Main result of a tick: each org it reaches, and whose own transaction does not fail, has exactly
      its plan's allotment in the tier bucket and its top-up credit as before; any other is as it was. */
  lemma TickServes(db: Db, plans: seq<(string, nat)>, period: string, failing: set<string>, i: nat)
    requires i < |plans| && OnePlanEach(plans)
    ensures var ops := ResetOps(DuePlans(plans, db.ledger, period), period, failing);
            var was, now := RowOf(db, plans[i].0), RowOf(Run(db, ops), plans[i].0);
            if Reached(plans, db.ledger, period, i) && plans[i].0 !in failing then ResetLands(was, now, plans[i].1)
            else now == was
  {
    AllDueOnce(plans, db.ledger, period);
    AllDueAt(plans, db.ledger, period, i);
    hide Posted, ResetKey, Run, ResetOps;
    var all, due := AllDue(plans, db.ledger, period), DuePlans(plans, db.ledger, period);
    assert due <= all;
    assert forall j :: 0 <= j < |due| ==> due[j] == all[j];
    var k := CountDue(plans[..i], db.ledger, period);
    if Reached(plans, db.ledger, period, i) {
      TickLands(db, due, period, failing, k);
    } else {
      forall j | 0 <= j < |due| ensures due[j].0 != plans[i].0 {
        NotReached(plans, db.ledger, period, i, j);
      }
      Bystander(db, due, period, failing, plans[i].0);
    }
  }

  lemma NotReached(plans: seq<(string, nat)>, ledger: seq<Entry>, period: string, i: nat, j: nat)
    requires i < |plans| && OnePlanEach(plans) && !Reached(plans, ledger, period, i)
    requires j < |DuePlans(plans, ledger, period)|
    ensures DuePlans(plans, ledger, period)[j].0 != plans[i].0
  {
    AllDueOnce(plans, ledger, period);
    AllDueAt(plans, ledger, period, i);
    hide Posted, ResetKey, AllDue;
    var all := AllDue(plans, ledger, period);
    assert DuePlans(plans, ledger, period)[j] == all[j] && all[j] in plans;
  }

  ghost function Orgs(due: seq<(string, nat)>): set<string> {
    set d | d in due :: d.0
  }

  /** The orgs a tick resets. */
  ghost function Served(plans: seq<(string, nat)>, ledger: seq<Entry>, period: string, failing: set<string>): set<string> {
    set i | 0 <= i < |plans| && Reached(plans, ledger, period, i) && plans[i].0 !in failing :: plans[i].0
  }

  lemma {:induction false} AllLand(due: seq<(string, nat)>, period: string, failing: set<string>, seen: set<Id>)
    requires OnePlanEach(due) && forall k :: 0 <= k < |due| ==> (due[k].0, ResetKey(due[k].0, period)) !in seen
    ensures |FirstCalls(ResetOps(due, period, failing), seen)| == |Orgs(due) - failing|
    decreases |due|
  {
    hide ResetKey, Orgs;
    OrgsStep(due, failing);
    if due != [] {
      var rest, op := due[1..], Reset(due[0].0, due[0].1, ResetKey(due[0].0, period));
      assert forall k :: 0 <= k < |rest| ==> rest[k] == due[k + 1];
      AllLand(rest, period, failing, if due[0].0 in failing then seen else seen + {IdOf(op)});
      var ops := ResetOps(rest, period, failing);
      assert ([op] + ops)[1..] == ops;
    }
  }

  lemma OrgsStep(due: seq<(string, nat)>, failing: set<string>)
    requires OnePlanEach(due)
    ensures if due == [] then Orgs(due) - failing == {}
            else |Orgs(due) - failing| == |Orgs(due[1..]) - failing| + (if due[0].0 in failing then 0 else 1)
  {
    if due != [] {
      var rest := due[1..];
      assert forall k :: 0 <= k < |rest| ==> rest[k] == due[k + 1];
      assert Orgs(due) == {due[0].0} + Orgs(rest) && due[0].0 !in Orgs(rest);
      assert Orgs(due) - failing == (if due[0].0 in failing then {} else {due[0].0}) + (Orgs(rest) - failing);
    }
  }

  /** The tick by the orgs it resets. */
  lemma TickResult(db: Db, plans: seq<(string, nat)>, period: string, failing: set<string>)
    ensures var ops, served := ResetOps(DuePlans(plans, db.ledger, period), period, failing), Served(plans, db.ledger, period, failing);
            OnePlanEach(plans) ==>
              && |FirstCalls(ops, PostedIds(db.ledger))| == |served|
              && forall i :: 0 <= i < |plans| ==>
                   var was, now := RowOf(db, plans[i].0), RowOf(Run(db, ops), plans[i].0);
                   if plans[i].0 in served then ResetLands(was, now, plans[i].1) else now == was
  {
    hide ResetOps, DuePlans, FirstCalls, PostedIds, Run, ResetLands, RowOf, Reached;
    if OnePlanEach(plans) {
      TickCounts(db, plans, period, failing);
      forall i | 0 <= i < |plans|
        ensures var was, now := RowOf(db, plans[i].0),
                                RowOf(Run(db, ResetOps(DuePlans(plans, db.ledger, period), period, failing)), plans[i].0);
                if plans[i].0 in Served(plans, db.ledger, period, failing) then ResetLands(was, now, plans[i].1) else now == was
      {
        TickServes(db, plans, period, failing, i);
      }
    }
  }

  /** And it counts them. */
  lemma TickCounts(db: Db, plans: seq<(string, nat)>, period: string, failing: set<string>)
    requires OnePlanEach(plans)
    ensures |FirstCalls(ResetOps(DuePlans(plans, db.ledger, period), period, failing), PostedIds(db.ledger))|
         == |Served(plans, db.ledger, period, failing)|
  {
    var all, due := AllDue(plans, db.ledger, period), DuePlans(plans, db.ledger, period);
    AllDueOnce(plans, db.ledger, period);
    assert due <= all && forall j :: 0 <= j < |due| ==> due[j] == all[j];
    forall k | 0 <= k < |due| ensures (due[k].0, ResetKey(due[k].0, period)) !in PostedIds(db.ledger) {
      assert !Posted(db.ledger, due[k].0, ResetKey(due[k].0, period));
    }
    AllLand(due, period, failing, PostedIds(db.ledger));
    hide Posted, ResetKey, FirstCalls, ResetOps, AllDue, PostedIds;
    forall org ensures org in Orgs(due) - failing <==> org in Served(plans, db.ledger, period, failing) {
      ServedIsDue(plans, db.ledger, period, failing, org);
    }
    assert Orgs(due) - failing == Served(plans, db.ledger, period, failing);
  }

  lemma ServedIsDue(plans: seq<(string, nat)>, ledger: seq<Entry>, period: string, failing: set<string>, org: string)
    requires OnePlanEach(plans)
    ensures org in Orgs(DuePlans(plans, ledger, period)) - failing <==> org in Served(plans, ledger, period, failing)
  {
    AllDueOnce(plans, ledger, period);
    hide Posted, ResetKey, AllDue;
    var all, due := AllDue(plans, ledger, period), DuePlans(plans, ledger, period);
    forall i | 0 <= i < |plans| && Reached(plans, ledger, period, i) ensures plans[i] in due {
      AllDueAt(plans, ledger, period, i);
    }
    if j :| 0 <= j < |due| && due[j].0 == org {
      assert due[j] == all[j] && all[j] in plans;
      var i :| 0 <= i < |plans| && plans[i] == due[j];
      if !Reached(plans, ledger, period, i) {
        NotReached(plans, ledger, period, i, j);
      }
    }
  }
}
