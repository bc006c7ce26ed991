# Waddling: money, grants, snapshots and pipelines, modelled and proved

A Dafny model of the parts of the Waddling control plane and its pipelines whose correctness spans
several functions or whole runs: the prepaid credit ledger and session billing, the GRANT/DENY SQL
store and its parsers, the canonical policy text, chunked snapshot persistence, the ETL workflow, the
funnel pull loop, the control-to-gateway outbox, and the access-request loop. `dafny verify
dfyconfig.toml` checks everything.

How the source is rendered:

- Code that updates rows becomes a class whose methods carry the statements of the source, each tied
  by its contract to a function on values (`CreditStore`, `Billing`, `Puller`, `CursorStore.Store`,
  `Pipeline`, `GatewayOutbox.Store`, `Kv`). A database transaction is one atomic step.
- Code that races (sweep workers, pull runs, dispatchers, workflow instances, drainers) is also a transition system
  over such functions, with any number of workers, a program counter each, and a crash possible after
  every step. Theorems are about every run.
- Regular expressions become hand-written scanners. `GrantPattern` defines a plain backtracking matcher
  for the statement and membership patterns and proves that the scanners return the match it prefers;
  `GrantGrammar` says which texts the patterns inside a statement are read from.
- Money is `int` micro-dollars; rates are exact quotients rounded half up. Clocks, the network, Stripe,
  query answers and "did this delivery work" are parameters.

## What turned out false, and what holds instead

- The decomposer promises to be lossless (apps/control-api/src/lib/grant-parse.ts:8-12, 24). It is not for
  a later privilege that reads as the word ON, a later column that starts with ON and a space, an empty
  column list `SELECT ()`, ALL TABLES of a schema called `to` or `from`, and an empty object text.
  `GrantPrintParse.RoundTrip` gives the exact condition for whatever is printed, `GrantDecompose.Lossless`
  for whatever is accepted, raw objects included; `GrantDecompose.LostColumn` and `GrantDecompose.LostObject`
  are accepted statements that are lost.
- Reconciliation promises zero drift at today's rates (apps/control-api/src/lib/credits.ts:490-507). A
  kill or a supersede sets `ended_at` whatever the status (apps/control-api/src/routes/sessions.ts:550,
  731-734), so it can move the charge of a session already being billed. `SessionBilling.KillIsSafeExactlyWhenHarmless`
  says exactly which kills are safe, `SessionBilling.LateKillDrifts` gives one that is not.
- A debit retried after a crash reads the balance after itself. `BillingStore.RetryReportsExactlyWhen`
  says exactly when its overage is still right.
- A crash while persisting can leave a restorable mixture of two files. `DbPersist.CrashSafety` says
  exactly when, `DbPersist.TornSnapshot` gives one.
- An edit enqueued during a delivery is marked delivered with it: `GatewayOutbox.MarkIsHonestExactlyWhen`
  and `GatewayOutbox.InterruptedDelivery`. A revoke that is asked for again
  during its delivery, with another payload or the same, is deleted with it:
  `GatewayRevokes.DeletionKeepsExactlyWhen`, `GatewayRevokes.RevokesAreKeptExactlyWhen` and
  `GatewayRevokes.OvertakenRevoke`.
- The dispatcher marks a pipeline running so that a concurrent tick sees the flag
  (apps/pipelines/src/dispatcher.ts:50-52), but reads, marks and creates in separate awaited calls. Two ticks
  that both read first make two instances (`EtlWorkflow.RacingDispatch`). `EtlWorkflow.StaysOneExactlyWhen`
  says from which states one instance is kept for good, `EtlWorkflow.MarkKeepsOneExactlyWhen` and
  `EtlWorkflow.GuardKeepsOneExactlyWhen` for which marks and which passed guards.
- A page that ends inside a tie on an exact whole second leaves the rest of the tie behind the watermark.
  `FunnelPull.NothingSkippedExactlyWhen` says along which runs of the pull nothing is skipped,
  `FunnelLoss.LostExactlyWhen` after which histories an event is never sent, and `FunnelLoss.TieLost` is a
  run from an empty store that loses one. The same for the workflow: `EtlWorkflow.NothingSkippedExactlyWhen`
  and `EtlLoss.TieLost`.
- Overlapping pull runs can store a lower watermark over a higher one (`FunnelPull.OverlapCanRegress`).
  `FunnelSecond.NeverLowerExactlyWhen` says along which runs the stored second never decreases,
  `FunnelSecond.SteadyExactlyWhen` after which histories it no longer can.
- The pull stops for good in front of a second with a full page of events strictly inside it:
  `FunnelProgress.DrainsExactlyWhen`, `FunnelProgress.StallsForever`, and a run that gets there,
  `FunnelLoss.StallReached`.
- The access poll ignores the action and the columns of a statement, and DENYs: a REVOKE, a GRANT on some
  columns and a GRANT taken back since all count as coverage. `Approval.PollMeansAccessExactlyWhen` says when
  its answer is what the stored rows leave, `Approval.CoverageIsHonestExactlyWhen` when it is what the GRANTs
  alone give, both over any stored statements, and `Approval.RevokeCovers` does over any history of written
  rows. No approval satisfies a request for every schema or for all tables of a schema called `to` or `from`
  (`Approval.ApprovalClosesExactlyWhen`).
- The role walk stops after 64 dequeues; 65 memberships can lose a statement (`RoleClosureBound.BoundIsExact`),
  and `RoleClosureBound.WholeExactlyWhen` says when it loses none, whatever the number.

## Model

| member | source | states |
|---|---|---|
| CreditLedger.CreditStore.LockRow | apps/control-api/src/lib/credits.ts:97-108 | the balance row exists afterwards, zero if it was missing, and every other row is as it was |
| CreditLedger.CreditStore.InsertEntry | apps/control-api/src/lib/credits.ts:112-131 | a row goes in exactly when its (org, key) is new; otherwise the ledger is untouched |
| CreditLedger.CreditStore.PostEntry | apps/control-api/src/lib/credits.ts:94-160 | the whole new state and result equal the Post step of the ledger function; with a new key one row is written, a credit raises the bucket it names and only that, and a debit spends the tier bucket before the other and overdraws only the other |
| CreditLedger.PostFields | apps/control-api/src/lib/credits.ts:132-158 | the same for any ledger state: the new row, the two buckets, the total and what is returned; no other org's balance moves |
| CreditLedger.CreditStore.ResetTierBucket | apps/control-api/src/lib/credits.ts:206-253 | the whole new state and result equal the Reset step; with a new key the tier bucket is exactly the allotment and the top-up bucket is as it was |
| CreditLedger.ResetFields | apps/control-api/src/lib/credits.ts:223-253 | the same for any ledger state, with the signed difference written as a grant, an expiry or a zero adjustment |
| CreditLedger.ReplayFields | apps/control-api/src/lib/credits.ts:130-132 | a key seen before moves no money and writes no row |
| CreditLedger.ResetsKeepTopup | apps/control-api/src/lib/credits.ts:226-246 | over any number of resets the top-up bucket of every org is as it was, and a last reset with a new key leaves its allotment in the tier bucket |
| CreditLedger.CreditStore.ResetAllTierCredits | apps/control-api/src/lib/credits.ts:281-303 | one tick is the run of the resets of the orgs still due (at most 1000, failing ones skipped); each org it serves has exactly its allotment in the tier bucket and its top-up credit as before, any other is as it was, and the count is the number served |
| CreditLedger.TickLands | apps/control-api/src/lib/credits.ts:281-303 | after the resets of a batch each org has exactly its allotment in the tier bucket with its top-up credit untouched; an org whose reset failed is as before |
| CreditLedger.TickServes | apps/control-api/src/lib/credits.ts:281-303 | the same for a whole tick: an org is served if it has no reset row for the period, is among the first 1000 such, and its transaction does not fail |
| CreditLedger.ResetKeysDiffer | apps/control-api/src/lib/credits.ts:267-272 | each period has a key of its own, so that last month's reset never stands in for this month's |
| CreditLedger.ApplyConsistent | apps/control-api/src/lib/credits.ts:94-253 | no posting, reset or replay breaks the books, and the balance returned is the sum of the org's ledger rows |
| CreditLedger.Conservation | apps/control-api/src/lib/credits.ts:94-253 | after any run of postings, resets and replays every balance is tier plus topup and the sum of its rows, keys are unique, and each row's balance_after is its prefix sum |
| CreditLedger.TierNeverNegative | apps/control-api/src/lib/credits.ts:133-147 | no run overdraws the expiring bucket |
| CreditLedger.ReplaysRefine | apps/control-api/src/lib/credits.ts:111-131 | a run with repeated keys ends in the same ledger and balances as the run of only the first call per (org, key) |
| CreditLedger.RedeliveryIsNoOp | apps/control-api/src/lib/credits.ts:205-239 | appending any calls already made, in any order and number, changes nothing |
| CreditLedger.MoveDominates | apps/control-api/src/lib/credits.ts:133-147 | one movement keeps the code's split at least as good as any split that does not overdraw tier |
| CreditLedger.TierFirstIsOptimal | apps/control-api/src/lib/credits.ts:133-147 | after every step of any run, no policy that never overdraws tier has more top-up credit or more credit in total than spending tier first |
| CreditLedger.TierFirstIsBest | apps/control-api/src/lib/credits.ts:133-147 | the code's policy is itself one of those policies, and the best of them from any balance |
| CreditLedger.StoreSpendsTierFirst | apps/control-api/src/lib/credits.ts:138-146 | over any run of new keys for one org the ledger leaves the balance of that policy |
| CreditPacks.FulfillCreditPackEvent | apps/control-api/src/lib/credit-packs.ts:64-101 | the handler posts exactly the grant that the event entitles to: paid credit pack, known org, US dollars, positive amount; and nothing otherwise |
| CreditPacks.PurchaseIsSettled | apps/control-api/src/lib/credit-packs.ts:64-95 | an event grants exactly the cents and to the org that its fields name, when its type, mode, kind, payment status, currency and amount say a credit pack was paid for |
| CreditPacks.Purchase | apps/control-api/src/lib/credit-packs.ts:65-92 | a granting event names an org and a positive number of cents |
| CreditPacks.PackCreditIsExact | apps/control-api/src/lib/credit-packs.ts:52-97 | in any run an org's pack credit is 10,000 micro-dollars per cent of its distinct paid purchases, however often and through whichever event each was delivered |
| Charges.DurationCounts | apps/control-api/src/lib/credits.ts:384-386 | the billed duration is the number of milliseconds from the start on that lie before the end and before the expiry |
| Charges.DurationShifts | apps/control-api/src/lib/credits.ts:384-386 | moving start, end and expiry by the same amount changes nothing |
| Charges.ChargeIsNearest | apps/control-api/src/lib/credits.ts:384-388 | a closed session costs the whole number of micro-dollars nearest to that count at its size's rate, halves upward, and no other number is |
| Charges.HourPrices | apps/control-api/src/lib/compute-sizes.ts:34-37 | what an hour costs on each size; an unknown size costs what a Duckling does |
| Charges.Allotments | apps/control-api/src/lib/credits.ts:190-193 | the four plans' allotments in micro-dollars |
| Charges.RoundHalfUp | apps/control-api/src/lib/credits.ts:387-388 | the result is the nearest integer to the exact quotient, halves upward |
| Charges.ChargeMonotone | apps/control-api/src/lib/credits.ts:384-388 | a longer session never costs less |
| Charges.ChargeWithinTtl | apps/control-api/src/lib/credits.ts:384-388 | whenever a session is closed it costs at most its whole time to live |
| Charges.ChargesWithinHalf | apps/control-api/src/lib/credits.ts:55-57 | k charges of one size total the exact rate times the total duration to within k/2 |
| Charges.EnvelopeIsIncludedHours | apps/control-api/src/lib/credits.ts:189-193 | Duckling sessions adding up to a plan's included hours cost its monthly allotment to within k/2 |
| Charges.CentsAreNearest | apps/control-api/src/lib/metering.ts:57 | a report is the nearest whole cent, halves upward |
| Charges.CentsWithinHalf | apps/control-api/src/lib/metering.ts:55-64 | n overage reports in whole cents are off by at most 5,000 micro-dollars each |
| SessionBilling.NextKeeps | apps/control-api/src/lib/credits.ts:365-410 | every step of every worker, every close, posting elsewhere and crash keeps the billing invariant |
| SessionBilling.ExactlyOnce | apps/control-api/src/lib/credits.ts:354-410 | in every run each session has at most one debit, of exactly its charge; once billed it has that debit, none for a zero charge, and does not drift |
| SessionBilling.KillIsSafeExactlyWhenHarmless | apps/control-api/src/routes/sessions.ts:731-734 | a kill leaves the session's books free of drift in every continuation if and only if billing has not begun or the derived charge stays the same |
| SessionBilling.KillAfterExpiry | apps/control-api/src/routes/sessions.ts:731-734 | a kill after the expiry of a session that ran to its expiry is harmless |
| SessionBilling.LateKillDrifts | apps/control-api/src/routes/sessions.ts:731-734 | a concrete run in which killing a billed session makes reconciliation report drift |
| BillingStore.DebitRun | apps/control-api/src/lib/credits.ts:365-410 | an uninterrupted debit skips unless closed and unbilled, marks a zero charge, and otherwise posts, reports its overage and marks |
| BillingStore.OverageIsRise | apps/control-api/src/lib/credits.ts:391-406 | overage is how much further the debit takes the balance below zero |
| BillingStore.OverageTelescopes | apps/control-api/src/lib/credits.ts:390-407 | over any uninterrupted series of debits the overage reported for an org totals exactly the rise of its deficit |
| BillingStore.MeteredWithinHalfCents | apps/control-api/src/lib/metering.ts:55-64 | in cents, n reports bill that rise to within 5,000 micro-dollars each |
| BillingStore.RetryReportsExactlyWhen | apps/control-api/src/lib/credits.ts:390-407 | a debit retried after a crash between posting and reporting reports the true overage if and only if the balance was spent or covered the charge twice |
| BillingStore.DebitCases | apps/control-api/src/lib/credits.ts:365-410 | what one debit leaves by the awaited call that throws: nothing, the posting, the posting and its report, or all of it with the mark |
| BillingStore.DebitMeaning | apps/control-api/src/lib/credits.ts:384-407 | a debit past its posting, with a new key, has posted the nearest whole number of micro-dollars to the session's milliseconds at its rate, as one row under its key, spent from the tier bucket first, and reported the rise of the org's deficit, or the whole charge when the balance could not be read |
| BillingStore.Billing.DebitSessionDuration | apps/control-api/src/lib/credits.ts:365-410 | the method is the run of one worker of the transition system up to the call that throws, throws exactly when it reaches that call, and marks exactly its session; what it posts and tells the meter is as in DebitMeaning |
| BillingStore.Billing.SweepExpiredSessions | apps/control-api/src/lib/credits.ts:446-471 | a sweep closes exactly the sessions still open past their expiry, changing nothing else about when they ran, and then debits the batch, skipping debits that throw; the count is the number of sessions marked, and of a batch that was not full only sessions whose debit had a failing call are left billable |
| BillingStore.DriftMeans | apps/control-api/src/lib/credits.ts:536-560 | a session drifts unless its debit is booked at the nearest micro-dollar, or it owes nothing and nothing is booked; missing, mismatched and unexpected rows are told apart |
| BillingStore.Billing.ReconcileDebits | apps/control-api/src/lib/credits.ts:508-564 | the report is empty if and only if none of the checked sessions drifted; each entry names what the session owes, what is booked and the kind, and a session whose books are not right is in it |
| BillingStore.ReconciliationIsClean | apps/control-api/src/lib/credits.ts:485-564 | after any run with harmless kills, reconciling any billed sessions reports nothing |
| GrantPattern.StatementIsPreferredMatch | apps/control-api/src/lib/grant-parse.ts:117-118 | for each action keyword the scanners return the captures of the match a backtracking matcher prefers for the statement pattern, and fail exactly when there is none |
| GrantPattern.BodyIsPreferredMatch | apps/control-api/src/lib/grant-parse.ts:117-118 | the same for what follows the keyword: greedy gaps and lazy groups, leftmost choices first |
| GrantPattern.MembershipIsPreferredMatch | apps/control-api/src/lib/grant-parse.ts:95-112 | both membership scanners are the preferred matches of their patterns |
| GrantGrammar.GranteeExactly | apps/control-api/src/lib/grant-parse.ts:34-42 | a grantee is read from a name, bare or in quotes, behind ROLE and spaces or not, and from nothing else; PUBLIC in any letter case is everybody unless it stands behind ROLE |
| GrantGrammar.ObjectExactly | apps/control-api/src/lib/grant-parse.ts:45-52 | an object is a table if and only if the text is two parts, bare or quoted, around a dot, all tables if and only if it is the four keywords and a part, and the raw text otherwise |
| GrantGrammar.ListExactly | apps/control-api/src/lib/grant-parse.ts:79-86 | a privilege list is accepted if and only if it has a privilege, all have the same columns, and only spaces and commas are left over |
| GrantGrammar.DeriveExactly | apps/control-api/src/lib/grant-store.ts:102-110 | the grantee stored is the one behind the first connector, as a word of its own, that a grantee and the end of the statement follow, and there is none without such a connector |
| GrantGrammar.SpacesIgnored | apps/control-api/src/lib/grant-parse.ts:89-91 | spaces around a statement make no difference to the parser |
| GrantGrammar.TerminatorIgnored | apps/control-api/src/lib/grant-parse.ts:89-91 | nor does one semicolon behind it |
| PrivilegeLoop.ParsePrivilegeList | apps/control-api/src/lib/grant-parse.ts:59-87 | the loop that moves lastIndex and pushes names and column sets computes the parsed privilege list |
| GrantRoundTrip.PrivilegesRead | apps/control-api/src/lib/grant-parse.ts:59-87 | a printed privilege list reads back as its upper-cased names and shared columns |
| GrantPrintParse.GranteeRead | apps/control-api/src/lib/grant-parse.ts:34-42 | a printed grantee reads back as itself, except a subject called public |
| GrantPrintParse.ObjectRead | apps/control-api/src/lib/grant-parse.ts:45-52 | a printed object reads back as itself |
| GrantPrintParse.PrintedResult | apps/control-api/src/lib/grant-store.ts:55-75 | what the parser returns for any printed statement in which nothing later reads as ON: nothing for a connector schema or an empty object text, else the structure |
| GrantPrintParse.LaterOnResult | apps/control-api/src/lib/grant-parse.ts:117-118 | a later privilege that reads as ON loses privileges or the statement |
| GrantPrintParse.LaterColumnResult | apps/control-api/src/lib/grant-parse.ts:117-118 | a printed statement with a later column that starts with ON is not parsed at all |
| GrantPrintParse.RoundTrip | apps/control-api/src/lib/grant-parse.ts:89-142 | grant, deny, revoke and undeny parse back to action, privileges, columns, object and grantee if and only if the statement is readable |
| GrantDecompose.MembershipRoundTrip | apps/control-api/src/lib/grant-store.ts:76-83 | both membership builders parse back if and only if no name holds the word ON and the subject is not PUBLIC |
| GrantDecompose.MembershipRoleRead | apps/control-api/src/lib/grant-store.ts:204-209 | the role walk reads from a printed membership its role, unless a name holds the word ON |
| GrantAccepted.ParsedObjectStatement | apps/control-api/src/lib/grant-parse.ts:116-142 | every accepted object statement has upper-cased privilege names, trimmed columns with no comma, closing parenthesis or ON between spaces, a nameable object or a trimmed raw text without a connector, and a nameable grantee that is no subject PUBLIC |
| GrantDecompose.Lossless | apps/control-api/src/lib/grant-parse.ts:8-12 | any accepted statement, printed again and parsed, gives the same structure if and only if it is a membership, or its column list is not empty, no later privilege and no later column reads as ON, its schema is no connector and its object text is not empty |
| GrantDecompose.LostColumn | apps/control-api/src/lib/grant-parse.ts:68-74 | an accepted statement whose second column starts with ON |
| GrantDecompose.LostObject | apps/control-api/src/lib/grant-parse.ts:117-118 | an accepted statement whose object text is empty |
| GrantDecompose.LosslessMembership | apps/control-api/src/lib/grant-parse.ts:92-114 | every accepted membership statement is rebuilt without loss |
| GranteeAgreement.ParsersAgree | apps/control-api/src/lib/grant-store.ts:102-110 | for every accepted string the grantee stored for it is the grantee parsed from it, if and only if its name has no dollar sign |
| RoleClosure.RowsInOrder | apps/control-api/src/lib/grant-store.ts:230-244 | a query returns the matching rows, each once and in version order |
| RoleClosure.GrantsForKey | apps/control-api/src/lib/grant-store.ts:217-264 | the queue loop computes the bounded walk |
| RoleOrder.WalkInOrder | apps/control-api/src/lib/grant-store.ts:217-264 | the walk lists the first occurrences of the subject's own statements, those of PUBLIC and those of the roles it visits, in this order, and visits roles in the order in which these statements first hand them out |
| RoleOrder.FirstsOnly | apps/control-api/src/lib/grant-store.ts:223-228 | pushing keeps the first occurrence of each statement, in order |
| RoleClosure.GrantsForKeyDetailed | apps/control-api/src/lib/grant-store.ts:272-326 | the detailed walk has the same statement sequence, and each statement is marked with the first source that has it: the subject's own rows, then PUBLIC, then the roles in the order visited |
| RoleClosure.ResolveSound | apps/control-api/src/lib/grant-store.ts:211-264 | the walk never leaves the subject, PUBLIC and the roles reachable by membership, and repeats nothing |
| RoleClosure.ResolveComplete | apps/control-api/src/lib/grant-store.ts:246-264 | with at most 64 membership rows in reach the walk returns exactly that closure |
| RoleClosureBound.BoundIsExact | apps/control-api/src/lib/grant-store.ts:246-251 | a chain of 65 memberships loses a statement of the closure |
| RoleClosureBound.WholeExactlyWhen | apps/control-api/src/lib/grant-store.ts:246-264 | for any rows the walk returns the whole closure if and only if the roles left in its queue lead to no statement that is not output already; the condition is read off the stopped walk, so that it can be checked after the call but not before it |
| CanonicalJson.CanonicalForm | apps/control-api/src/lib/policy-version.ts:15-24 | two JSON values have the same text if and only if they are equal up to member order and element order at every depth |
| CanonicalText.CanonIsArranged | apps/control-api/src/lib/policy-version.ts:15-24 | the canonical text is the plain JSON text of an equal value whose keys ascend and whose elements ascend by their texts, at every depth |
| CanonicalText.LeIsUnitOrder | apps/control-api/src/lib/policy-version.ts:15-24 | the order is that of UTF-16 code units, a prefix first |
| CanonicalText.WrittenRaw | apps/control-api/src/lib/policy-version.ts:15-24 | a string writes every unit as itself but controls, quotes, backslashes and lone surrogates |
| CanonicalJson.KeySetText | apps/control-api/src/lib/policy-version.ts:31-40 | the text behind the auth version changes exactly when the multiset of signing keys does |
| Approval.ParseGrants | packages/mcp-external/src/access.ts:68-88 | the groups are the inputs with a known capability, names defaulting to every schema and table; none is an error |
| Approval.GroupsFrom | packages/mcp-external/src/access.ts:74-85 | the groups, in order, each come from an input of their own, with its schema and table or the wildcard and with exactly the capabilities known in it; every input that names one has its group |
| Approval.CapabilityNeeds | packages/mcp-external/src/access.ts:19-30 | what each of the six capabilities needs; no other is known, and no privilege serves two |
| Approval.CheckCovered | packages/mcp-external/src/access.ts:106-125 | the loops decide whether every needed privilege is allowed by some statement on the target |
| Approval.PrintedRow | apps/control-api/src/routes/acl.ts:121-125 | what the poll sees of one row printed for an agent, and that the row is stored under that agent |
| Approval.ApprovalCloses | packages/mcp-external/src/access.ts:106-125 | GRANTs naming every needed privilege, in any order, split into any rows and amid any others, make the target covered |
| Approval.ApprovalClosesExactlyWhen | packages/mcp-external/src/access.ts:117-123 | approving a target satisfies the poll if and only if it names a schema and is not all tables of a schema called to or from |
| Approval.StarNeverCovered | packages/mcp-external/src/access.ts:117-121 | no statements whatever cover a request for every schema |
| Approval.CoverageOnlyGrows | packages/mcp-external/src/access.ts:112-125 | further rows, REVOKEs included, never take coverage away |
| Approval.RequestCloses | packages/mcp-external/src/access.ts:228-245 | when every group of a request is approved nothing is missing |
| Approval.AccessIsLatest | packages/mcp-external/src/access.ts:106-125 | replaying the rows leaves a privilege granted if and only if a GRANT of the whole table names it and no later REVOKE does, and denied if and only if a DENY names it and no later UNDENY of the whole table does |
| Approval.PollMeansAccessExactlyWhen | packages/mcp-external/src/access.ts:106-125 | for any stored statements the poll answers as that replay does if and only if some needed privilege is named by no GRANT or REVOKE, or each of them is so granted and not so denied |
| Approval.DeniedStillCovers | packages/mcp-external/src/access.ts:112-125 | a DENY row behind any covered request takes the access away and leaves the poll reporting it |
| Approval.ColumnGrantCovers | packages/mcp-external/src/access.ts:112-125 | one GRANT on some columns is reported as access to the table |
| Approval.CoverageIsHonestExactlyWhen | packages/mcp-external/src/access.ts:106-125 | for any stored statements the poll answers as the GRANTs alone would if and only if some needed privilege is named by no row, or every one that a REVOKE names is named by a GRANT too |
| Approval.WrittenIsNamed | apps/control-api/src/routes/acl.ts:121-125 | over any history of rows written for any agents, schemas and tables, a privilege is seen to be named on a target if and only if one of them is written for this agent, on this schema, on this table or on all of its tables, and names it |
| Approval.WrittenCovers | packages/mcp-external/src/access.ts:106-125 | the poll reports a target as covered if and only if every needed privilege is so named by a GRANT or a REVOKE |
| Approval.StillMissing | packages/mcp-external/src/access.ts:228-245 | a requested capability is still missing if and only if some privilege it needs is not so named |
| Approval.RevokeCovers | packages/mcp-external/src/access.ts:112-125 | a history of rows on any targets covers a target without granting it if and only if its GRANTs and REVOKEs written there together name every needed privilege and its GRANTs alone do not |
| Approval.LoneRevokeCovers | packages/mcp-external/src/access.ts:112-125 | one REVOKE row covers every privilege it names, for any privilege list |
| DbPersist.DeletedRange | gateway-rivet-poc/src/db-persist.ts:21-22 | the deleted key range is exactly the keys with the chunk prefix |
| DbPersist.ChunkKeysInjective | gateway-rivet-poc/src/db-persist.ts:10-11 | no two chunks share a key, at any index |
| DbPersist.ChunkKeyShape | gateway-rivet-poc/src/db-persist.ts:10-11 | a chunk's key is the prefix and its index in decimal, six digits wide, wider past a million |
| DbPersist.PersistFile | gateway-rivet-poc/src/db-persist.ts:20-30 | from any store the loop applies the delete, chunk and meta writes in order, as many as the connection lives for |
| DbPersist.RestoreFile | gateway-rivet-poc/src/db-persist.ts:32-46 | the loop over an array returns no file, fails, or returns the file, as the store determines |
| DbPersist.PersistThenRestore | gateway-rivet-poc/src/db-persist.ts:20-46 | from any prior contents a completed persist is restored byte for byte at every length and touches no other key |
| DbPersist.RestoreHolds | gateway-rivet-poc/src/db-persist.ts:32-46 | what restoring makes of a store crashed after any number of chunks |
| DbPersist.CrashSafety | gateway-rivet-poc/src/db-persist.ts:20-46 | after a completed persist and any crashed ones, a restore fails or gives a complete old or new file, except exactly when the old size is a positive whole number of chunks, the new file is longer and differs within it, and enough of its chunks were written |
| DbPersist.NoFileBeforeFirst | gateway-rivet-poc/src/db-persist.ts:33-34 | before the first completed persist a restore finds no file |
| DbPersist.TornSnapshot | gateway-rivet-poc/src/db-persist.ts:20-46 | a concrete crash after which a restore returns neither file |
| PostHogPages.SecondRoundsDown | apps/funnel-ingest/src/index.ts:144-146 | the query sees a watermark cut down to its whole second |
| PostHogPages.MilliRoundsDown | apps/funnel-ingest/src/index.ts:126-130 | a watermark keeps a timestamp cut down to its whole millisecond |
| PostHogPages.PageExtends | apps/funnel-ingest/src/index.ts:138-153 | a page not cut inside a tie on a whole second holds every event up to the whole second of its last row |
| PostHogPages.QueryPage | apps/funnel-ingest/src/index.ts:137-172 | the answer is a page: the earliest rows of the whole-second window, at most the limit |
| FunnelPull.StepSkipsExactlyWhen | apps/funnel-ingest/src/index.ts:197-219 | from a state in which all before the watermark was sent, and whose pages are answers of the query, a step of any run skips something if and only if it finishes a page and stores its end while an unsent event of the tie the page ends in remains |
| FunnelPull.NothingSkippedExactlyWhen | apps/funnel-ingest/src/index.ts:189-222 | however runs overlap, page and crash, at every moment every event after the latest unwatermarked start and up to the whole second of the stored watermark has been sent, if and only if no finish leaves such an event |
| FunnelPull.NothingSkipped | apps/funnel-ingest/src/index.ts:189-222 | in particular nothing is skipped while no page is cut inside a tie |
| FunnelPull.SecondNeverDecreases | apps/funnel-ingest/src/index.ts:212-216 | over runs that do not overlap the whole second of the watermark never decreases |
| FunnelPull.OverlapCanRegress | apps/funnel-ingest/src/index.ts:212-216 | a concrete overlap after which it does |
| FunnelSecond.NeverLowerExactlyWhen | apps/funnel-ingest/src/index.ts:212-216 | along any steps, overlapping runs included, the stored second never decreases if and only if no finish stores a page that ends before it |
| FunnelSecond.SteadyExactlyWhen | apps/funnel-ingest/src/index.ts:189-222 | after any history, with any number of live runs, every serial continuation keeps the stored second if and only if no live run's page ends, or next page can end, before it, and no two live runs can come to hold pages of which one ends before the other, or before what the other, its page full and its second not, goes on to |
| FunnelSecond.OneRunSteadyExactlyWhen | apps/funnel-ingest/src/index.ts:189-222 | with at most one live run, if and only if that run is not behind the stored second |
| FunnelSecond.TwoRunsLower | apps/funnel-ingest/src/index.ts:212-216 | a concrete state in which no run is behind and two live runs still lower the second |
| FunnelLoss.LostExactlyWhen | apps/funnel-ingest/src/index.ts:189-222 | after any history an unsent event of the source is sent in no continuation, runs overlapping as they like, if and only if it is out of reach of the stored watermark and of every live run: not in what a run still sends, and behind the second or a crowded second that its next pages start from |
| FunnelLoss.TieCutLosesForever | apps/funnel-ingest/src/index.ts:212-218 | an unsent event of a tie that a finished page cut is sent in no continuation, unless another live run can reach it |
| FunnelLoss.TieLost | apps/funnel-ingest/src/index.ts:138-153 | a run from an empty store over 10,001 events on one whole second that stores that second and never sends one of them |
| FunnelLoss.StallReached | apps/funnel-ingest/src/index.ts:197-219 | a run from an empty store into a stall, with a later event that is never sent |
| FunnelPull.Puller.Ingest | apps/funnel-ingest/src/index.ts:189-222 | one tick is a possible serial run of the transition system without a crash; its pages are a chain from the stored watermark that ends with its last page and not before, empty, short, without progress or at the limit; every event of every page is sent and nothing else, the counts are theirs, and the watermark stored is the end of the chain if it moved |
| FunnelProgress.DrainsExactlyWhen | apps/funnel-ingest/src/index.ts:197-219 | over a source the clock has passed, every chain of enough pages reaches a page that is not full if and only if no second from the watermark on holds a full page of events strictly inside it |
| FunnelProgress.DrainsAll | apps/funnel-ingest/src/index.ts:197-219 | without such a second and without cut ties those pages hold every event after the watermark |
| FunnelProgress.TickDrains | apps/funnel-ingest/src/index.ts:197-219 | in front of no crowded second and without a cut tie, a tick below its page limit, or whose last page is not full, has drawn every event from its watermark up to its clock; the same for a run of the workflow's adapter |
| FunnelProgress.TicksJoin | apps/funnel-ingest/src/index.ts:197-219 | the pages of successive ticks are one chain |
| FunnelProgress.StallsForever | apps/funnel-ingest/src/index.ts:212-218 | in front of such a second, however ticks overlap or crash and whatever arrives, the watermark never gets past it and nothing behind it is sent |
| CursorStore.Store.MarkRunning | apps/pipelines/src/cursor.ts:35-45 | afterwards the row is there, running since now, with its watermark and its last outcome as before, and no other pipeline's row changes |
| CursorStore.Store.ClearRunning | apps/pipelines/src/cursor.ts:48-59 | an existing row is no longer running and has the outcome, its watermark and start as before; a missing one stays missing |
| CursorStore.Store.Advance | apps/pipelines/src/cursor.ts:66-74 | the watermark is the later of the old and the new, and nothing else changes |
| CursorStore.Store.Dispatch | apps/pipelines/src/dispatcher.ts:37-68 | one dispatch that nothing interrupts: created, skipped or unknown, and the row marked exactly when the guard lets it through |
| CursorStore.GuardedIsUnderway | apps/pipelines/src/dispatcher.ts:26-48 | the guard stops a tick if and only if the row is marked running and its run began at most six hours ago |
| EtlWorkflow.Extract | apps/pipelines/src/sources/posthog.ts:192-218 | the records are exactly the events of a chain of pages from the cursor that ends with its last page and not before, each once; there are none if and only if the first window is empty, the new cursor is the end of the chain, and up to its second only events of a whole second that a record shares are missing, none without a cut tie |
| EtlWorkflow.DedupSpec | apps/pipelines/src/models/funnel-star.ts:16-24 | the loaded table has one row per staged uuid, the latest |
| EtlWorkflow.NothingSkippedExactlyWhen | apps/pipelines/src/workflow.ts:45-116 | with any number of overlapping, retried, replayed or failing instances, at every moment everything after the origin and up to the second of the stored watermark is in the loaded table, if and only if no advance leaves a tie on a whole second half loaded |
| EtlWorkflow.EtlSafety | apps/pipelines/src/workflow.ts:45-116 | while the adapter cuts no tie, every such event is staged and in the loaded table exactly once |
| EtlLoss.TieLost | apps/pipelines/src/workflow.ts:45-104 | one uninterrupted run over 10,001 events on one whole second stores that second and leaves one of them out of the table |
| EtlWorkflow.WatermarkNeverDecreases | apps/pipelines/src/cursor.ts:61-74 | no step of any instance lowers the stored watermark |
| EtlWorkflow.DispatchRun | apps/pipelines/src/dispatcher.ts:37-68 | the read, mark and create steps of a dispatcher, taken without interruption, are that one dispatch |
| EtlWorkflow.OneAtATime | apps/pipelines/src/dispatcher.ts:41-52 | over the separate read, mark and create steps of any number of dispatchers the guard keeps at most one instance alive, while no claim outlives the stale limit, no finished clear is re-run and no two dispatchers are between guard and mark |
| EtlWorkflow.StaysOneExactlyWhen | apps/pipelines/src/dispatcher.ts:41-61 | a state keeps at most one instance in every such continuation if and only if it holds at most one instance or dispatcher in all, with the flag up once the row is marked |
| EtlWorkflow.MarkKeepsOneExactlyWhen | apps/pipelines/src/dispatcher.ts:50-52 | a mark keeps one instance for good if and only if no instance lives and no other dispatcher is on its way |
| EtlWorkflow.GuardKeepsOneExactlyWhen | apps/pipelines/src/dispatcher.ts:42-48 | a passed guard does if and only if no instance lives and no dispatcher is on its way |
| EtlWorkflow.RacingDispatch | apps/pipelines/src/dispatcher.ts:42-61 | a concrete race of two timely ticks that leaves two live instances |
| EtlWorkflow.BuildTable | apps/pipelines/src/models/funnel-star.ts:16-24 | the build computes the deduplicated table |
| EtlWorkflow.Pipeline.Run | apps/pipelines/src/workflow.ts:45-104 | one uninterrupted run: the stream, staging area, table and cursor row afterwards; the events of its pages are in the table that is built, and it does nothing if and only if the first window is empty |
| EtlRun.RunIsSteps | apps/pipelines/src/workflow.ts:45-104 | the steps of an instance in the transition system, taken without interruption, are that run |
| EtlRun.EmptyRun | apps/pipelines/src/workflow.ts:77-85 | an instance that pulls nothing only clears its row |
| EtlRun.RetriedRun | apps/pipelines/src/workflow.ts:45-104 | an extract step that fails after its sends and runs again stages everything twice, and the table has each event once |
| EtlRun.FailureFrees | apps/pipelines/src/workflow.ts:105-114 | a failing instance frees the flag and leaves the watermark and the tables as they are |
| GatewayOutbox.Store.EnqueueSnapshotDispatch | apps/control-api/src/lib/gateway-dispatch.ts:150-159 | exactly one row is written, the datalake's snapshot, in its row or in a new one if it had none: pending, due now, no attempt behind it |
| GatewayOutbox.Store.EnqueueRevokeDispatch | apps/control-api/src/lib/gateway-dispatch.ts:166-179 | exactly one row is written, the subject's pending revoke or a new one: with the payload, pending, due now, no attempt behind it |
| GatewayOutbox.Store.DrainGatewayDispatch | apps/control-api/src/lib/gateway-dispatch.ts:224-284 | a drain deletes each due revoke that was delivered, marks each snapshot, gives each failed row one attempt more and its wait, or up after twelve, leaves every other row alone, and counts both kinds |
| GatewayOutbox.BackoffDoubles | apps/control-api/src/lib/gateway-dispatch.ts:129-131 | the first wait is 15 seconds, and each is twice the one before, up to five minutes |
| GatewayOutbox.AlwaysCoalesced | apps/control-api/src/lib/gateway-dispatch.ts:144-179 | in every run there is at most one snapshot row per datalake and one pending revoke row per subject |
| GatewayOutbox.DeliveredIsCurrent | apps/control-api/src/lib/gateway-dispatch.ts:243-257 | if no enqueue falls between an attempt and its status write, every delivered snapshot row has an attempt begun after its latest enqueue |
| GatewayOutbox.MarkIsHonestExactlyWhen | apps/control-api/src/lib/gateway-dispatch.ts:250-255 | one delivered mark keeps that true if and only if nothing was enqueued meanwhile |
| GatewayOutbox.InterruptedDelivery | apps/control-api/src/lib/gateway-dispatch.ts:250-255 | a concrete run that marks an undelivered edit delivered |
| GatewayRevokes.DeletionKeepsExactlyWhen | apps/control-api/src/lib/gateway-dispatch.ts:243-249 | deleting a delivered revoke row loses the latest enqueue of its subject if and only if the row holds that enqueue, what was sent is another payload or was begun before the enqueue, and no other attempt begun since has delivered the payload |
| GatewayRevokes.RevokesAreKeptExactlyWhen | apps/control-api/src/lib/gateway-dispatch.ts:166-257 | however enqueues and drainers interleave, at every moment the latest enqueue of every subject is in its row or was delivered by an attempt begun since, if and only if no success deletes one undelivered |
| GatewayRevokes.RevokesAreKept | apps/control-api/src/lib/gateway-dispatch.ts:166-257 | in any run in which no subject is enqueued between the picking and the deletion of its row, the payload asked for last on each subject is held by a row or was delivered by an attempt begun since |
| GatewayRevokes.OvertakenRevoke | apps/control-api/src/lib/gateway-dispatch.ts:243-249 | a concrete run that deletes a stricter revoke undelivered |
| GatewayOutbox.LeavesPending | apps/control-api/src/lib/gateway-dispatch.ts:258-283 | with one drainer and no new enqueues a row is attempted at most 12 times before it leaves pending, within the scheduled waits that remain |
| GatewayOutbox.WaitsTotal | apps/control-api/src/lib/gateway-dispatch.ts:129-133 | from a fresh enqueue those waits total 2,265 seconds |

## Left out

- Non-ASCII letter case: keywords, privileges and currency fold ASCII letters only.
- One match of the privilege pattern and the splitting of a column list are scanners without a declarative counterpart beyond the printed lists.
- CursorStore.Store.Dispatch: one call without interference; how its three awaited calls interleave with other dispatchers is in the transition system of EtlWorkflow.
- FunnelProgress.DrainsExactlyWhen: is about a source that does not grow meanwhile; FunnelProgress.StallsForever lets it grow.
- The reporter of a sweep is always present, as in its only caller; identifiers that let the meter drop repeated reports are not modelled.
- Deleting sessions with their datalake, and changes of rates over time.
- FunnelPull.NothingSkippedExactlyWhen: relies on events reaching the source before the safety lag passes them.
- EtlWorkflow.NothingSkippedExactlyWhen: relies on the same for the adapter, on the settle sleep outlasting the roll of what was sent, and on a load being atomic; only the fact table is modelled, not the dimensions.
- Approval.PollMeansAccessExactlyWhen: the engine that enforces the rows is not part of this model; access is the stored rows replayed in order, with the reading of partial columns stated at `Approval.AccessAfter`.
- The bookkeeping of a failed delivery that itself fails is a crash in the outbox transition system, not in GatewayOutbox.LeavesPending.
- SHA-256, JSON parsing of the meta record, Stripe, the gateway, KV and SQL engines.
- HTTP routes, sign-in, plans and entitlements other than the tables used, workspace runners, storage metering: plumbing, or only easy members.
