/** The 64-step bound of the role walk is exact: 65 memberships in reach can lose a grant. */
module RoleClosureBound {
  import opened Text
  import opened GrantStore
  import opened GrantDecompose
  import opened RoleClosure

  function RoleName(i: nat): string {
    seq(i + 1, _ => 'r')
  }

  /** The i-th link: the subject holds role 0, and role i - 1 holds role i. */
  function Link(i: nat, subject: string): Row {
    if i == 0 then Row(OfSubject, subject, GrantRole(RoleName(0), GranteeSql(Subject(subject))))
    else Row(OfRole, RoleName(i - 1), GrantRole(RoleName(i), GranteeSql(Role(RoleName(i - 1)))))
  }

  const LENGTH: nat := 65

  /** A chain of 65 memberships whose last role holds the statement `last`. */
  function Chain(subject: string, last: string): seq<Row> {
    seq(LENGTH, i requires 0 <= i < LENGTH => Link(i, subject)) + [Row(OfRole, RoleName(LENGTH - 1), last)]
  }

  lemma RoleNameFacts(i: nat)
    ensures Token(RoleChar, RoleName(i)) && Token(IdentChar, RoleName(i)) && !HasOn(RoleName(i))
    ensures forall j: nat :: RoleName(j) == RoleName(i) ==> j == i
  {
    NoOnLetters(RoleName(i));
    forall j: nat | RoleName(j) == RoleName(i) ensures j == i {
      assert |RoleName(j)| == j + 1;
    }
  }

  lemma LinkRole(i: nat, subject: string)
    requires Token(IdentChar, subject) && !HasOn(subject)
    ensures MembershipRole(Link(i, subject).stmt) == Some(RoleName(i))
  {
    hide RoleName, Token, HasOn, MembershipRole, GranteeSql, GrantRole;
    RoleNameFacts(i);
    if i == 0 {
      MembershipRoleRead(RoleName(0), Subject(subject));
    } else {
      RoleNameFacts(i - 1);
      MembershipRoleRead(RoleName(i), Role(RoleName(i - 1)));
    }
  }

  lemma {:induction false} NoRow(rows: seq<Row>, kind: Kind, grantee: string)
    requires forall i :: 0 <= i < |rows| ==> rows[i].kind != kind || (!kind.OfPublic? && rows[i].grantee != grantee)
    ensures RowsOf(rows, kind, grantee) == []
  {
    if rows != [] {
      NoRow(rows[1..], kind, grantee);
    }
  }

  lemma {:induction false} OneRow(rows: seq<Row>, kind: Kind, grantee: string, k: nat)
    requires k < |rows| && rows[k].kind == kind && rows[k].grantee == grantee && !kind.OfPublic?
    requires forall i :: 0 <= i < |rows| && i != k ==> rows[i].kind != kind || rows[i].grantee != grantee
    ensures RowsOf(rows, kind, grantee) == [rows[k].stmt]
  {
    if k == 0 {
      NoRow(rows[1..], kind, grantee);
    } else {
      OneRow(rows[1..], kind, grantee, k - 1);
    }
  }

  lemma ChainRows(subject: string, last: string, i: nat)
    requires i < LENGTH
    ensures var rows := Chain(subject, last);
            && RowsOf(rows, OfRole, RoleName(i)) == [if i + 1 < LENGTH then Link(i + 1, subject).stmt else last]
            && RowsOf(rows, OfSubject, subject) == [Link(0, subject).stmt]
            && RowsOf(rows, OfPublic, "") == []
  {
    var rows := Chain(subject, last);
    RoleNameFacts(i);
    assert forall j :: 0 <= j < LENGTH ==> rows[j] == Link(j, subject);
    OneRow(rows, OfRole, RoleName(i), i + 1);
    OneRow(rows, OfSubject, subject, 0);
    NoRow(rows, OfPublic, "");
  }

  ghost function Names(k: nat): set<string> {
    set j | 0 <= j < k :: RoleName(j)
  }

  lemma ChainStep(subject: string, last: string, k: nat, out: seq<string>)
    requires Token(IdentChar, subject) && !HasOn(subject) && MembershipRole(last).None?
    requires k + 1 < LENGTH && last !in out
    ensures var w := Step(Chain(subject, last), Walk(out, [RoleName(k)], Names(k)));
            w.queue == [RoleName(k + 1)] && w.visited == Names(k + 1) && last !in w.out
  {
    hide *;
    var stmt := Link(k + 1, subject).stmt;
    ChainRows(subject, last, k);
    LinkRole(k + 1, subject);
    NamesGrow(k);
    PushAllFacts(out, [stmt]);
    OneNewRole(stmt, Names(k + 1), RoleName(k + 1));
    StepOnce(Chain(subject, last), out, RoleName(k), Names(k), [stmt]);
    assert last != stmt;
  }

  lemma NamesGrow(k: nat)
    ensures Names(k) + {RoleName(k)} == Names(k + 1)
    ensures RoleName(k) !in Names(k) && RoleName(k + 1) !in Names(k + 1)
  {
    RoleNameFacts(k);
    RoleNameFacts(k + 1);
    hide RoleName;
  }

  lemma OneNewRole(stmt: string, visited: set<string>, role: string)
    requires MembershipRole(stmt) == Some(role) && role !in visited
    ensures NewRoles([stmt], visited) == [role]
  {
  }

  lemma StepOnce(rows: seq<Row>, out: seq<string>, role: string, visited: set<string>, stmts: seq<string>)
    requires RowsOf(rows, OfRole, role) == stmts && role !in visited
    ensures Step(rows, Walk(out, [role], visited))
         == Walk(PushAll(out, stmts), NewRoles(stmts, visited + {role}), visited + {role})
  {
  }

  lemma {:induction false} ChainRun(subject: string, last: string, k: nat, out: seq<string>, steps: nat)
    requires Token(IdentChar, subject) && !HasOn(subject) && MembershipRole(last).None?
    requires k + steps < LENGTH && last !in out
    ensures last !in RunWalk(Chain(subject, last), Walk(out, [RoleName(k)], Names(k)), steps).out
    decreases steps
  {
    hide Chain, HasOn, MembershipRole, Token, Names, RoleName, Step;
    if steps > 0 {
      ChainStep(subject, last, k, out);
      var w := Step(Chain(subject, last), Walk(out, [RoleName(k)], Names(k)));
      ChainRun(subject, last, k + 1, w.out, steps - 1);
    }
  }

  lemma {:induction false} LastUncounted(rows: seq<Row>, subject: string, roles: set<string>)
    requires rows != [] && MembershipRole(rows[|rows| - 1].stmt).None?
    ensures Memberships(rows, subject, roles) <= |rows| - 1
  {
    hide MembershipRole;
    if |rows| > 1 {
      LastUncounted(rows[1..], subject, roles);
    }
  }

  lemma ChainHandsOut(subject: string, last: string, i: nat)
    requires Token(IdentChar, subject) && !HasOn(subject) && i < LENGTH
    ensures HandsOut(if i == 0 then RowsOf(Chain(subject, last), OfSubject, subject)
                     else RowsOf(Chain(subject, last), OfRole, RoleName(i - 1)), RoleName(i))
  {
    hide *;
    ChainRows(subject, last, if i == 0 then 0 else i - 1);
    LinkRole(i, subject);
    SingleHandsOut(Link(i, subject).stmt, RoleName(i));
  }

  lemma SingleHandsOut(stmt: string, role: string)
    requires MembershipRole(stmt) == Some(role)
    ensures HandsOut([stmt], role)
  {
    hide MembershipRole;
    assert MembershipRole([stmt][0]) == Some(role);
  }

  lemma ChainPath(subject: string, last: string)
    requires Token(IdentChar, subject) && !HasOn(subject)
    ensures InClosure(Chain(subject, last), subject, last)
  {
    hide Chain, RowsOf, RoleName, HasOn, Token, HandsOut;
    var rows := Chain(subject, last);
    var path := seq(LENGTH, i requires 0 <= i < LENGTH => RoleName(i));
    ChainHandsOut(subject, last, 0);
    forall i | 0 < i < |path| ensures HandsOut(RowsOf(rows, OfRole, path[i - 1]), path[i]) {
      ChainHandsOut(subject, last, i);
    }
    assert IsPath(rows, subject, path) && path[|path| - 1] == RoleName(LENGTH - 1);
    ChainRows(subject, last, LENGTH - 1);
  }

  lemma ChainStart(subject: string, last: string)
    requires Token(IdentChar, subject) && !HasOn(subject) && MembershipRole(last).None?
    ensures var w := Start(Chain(subject, last), subject);
            w == Walk(w.out, [RoleName(0)], Names(0)) && last !in w.out
  {
    hide Chain, RowsOf, HasOn, MembershipRole, Token, NewRoles, PushAll, Start, RoleName, Names, Link;
    var rows, stmt := Chain(subject, last), Link(0, subject).stmt;
    ChainRows(subject, last, 0);
    LinkRole(0, subject);
    OneNewRole(stmt, {}, RoleName(0));
    PushAllFacts([], [stmt]);
    StartOnce(rows, subject, stmt);
    assert last != stmt;
  }

  lemma StartOnce(rows: seq<Row>, subject: string, stmt: string)
    requires RowsOf(rows, OfSubject, subject) == [stmt] && RowsOf(rows, OfPublic, "") == []
    ensures Start(rows, subject) == Walk(PushAll([], [stmt]), NewRoles([stmt], {}), Names(0))
  {
  }

  /** Main result: one membership more than the bound, and a statement of the closure is lost. */
  lemma BoundIsExact(subject: string, last: string)
    requires Token(IdentChar, subject) && !HasOn(subject) && MembershipRole(last).None?
    ensures var rows := Chain(subject, last);
            && Memberships(rows, subject, ReachableRoles(rows, subject)) == MAX_DEQUEUES + 1
            && InClosure(rows, subject, last)
            && last !in Resolve(rows, subject)
  {
    hide HasOn, MembershipRole, InClosure, Memberships, ReachableRoles, RunWalk, Token, Start, Names, Link;
    var rows := Chain(subject, last);
    ChainPath(subject, last);
    ChainStart(subject, last);
    ChainRun(subject, last, 0, Start(rows, subject).out, MAX_DEQUEUES);
    LastUncounted(rows, subject, ReachableRoles(rows, subject));
    if Memberships(rows, subject, ReachableRoles(rows, subject)) <= MAX_DEQUEUES {
      ResolveComplete(rows, subject, last);
    }
  }

  // ---- exactly when the bound loses something ----------------------------------------------

  /** A chain of memberships that starts at a role. */
  ghost predicate PathFrom(rows: seq<Row>, role: string, path: seq<string>) {
    && path != [] && path[0] == role
    && forall i :: 0 < i < |path| ==> HandsOut(RowsOf(rows, OfRole, path[i - 1]), path[i])
  }

  /** Everything the role leads to is output already. */
  ghost predicate NothingNew(rows: seq<Row>, out: seq<string>, role: string) {
    forall path, stmt :: PathFrom(rows, role, path) && stmt in RowsOf(rows, OfRole, path[|path| - 1]) ==> stmt in out
  }

  /** The walk as the bound leaves it, with the roles it did not get to. */
  function Stopped(rows: seq<Row>, subject: string): Walk {
    RunWalk(rows, Start(rows, subject), MAX_DEQUEUES)
  }

  lemma {:induction false} RunStaysComplete(rows: seq<Row>, subject: string, w: Walk, steps: nat)
    requires CompleteWalk(rows, subject, w)
    ensures CompleteWalk(rows, subject, RunWalk(rows, w, steps))
    decreases steps
  {
    hide CompleteWalk, Step;
    if w.queue != [] && steps > 0 {
      StepComplete(rows, subject, w);
      RunStaysComplete(rows, subject, Step(rows, w), steps - 1);
    }
  }

  /** A path down from the subject is walked to its end, or meets a role left in the queue. */
  lemma {:induction false} WalkedOrQueued(rows: seq<Row>, subject: string, w: Walk, path: seq<string>, i: nat) returns (k: nat)
    requires CompleteWalk(rows, subject, w) && IsPath(rows, subject, path) && i < |path|
    ensures k <= i + 1 && (k <= i ==> path[k] in w.queue) && (k == i + 1 ==> path[i] in w.visited)
  {
    hide HandsOut, RowsOf;
    if i == 0 {
      k := if path[0] in w.visited then 1 else 0;
    } else {
      k := WalkedOrQueued(rows, subject, w, path, i - 1);
      if k == i {
        k := if path[i] in w.visited then i + 1 else i;
      }
    }
  }

  lemma PathSuffix(rows: seq<Row>, subject: string, path: seq<string>, k: nat)
    requires IsPath(rows, subject, path) && k < |path|
    ensures PathFrom(rows, path[k], path[k..]) && path[k..][|path[k..]| - 1] == path[|path| - 1]
  {
    hide HandsOut, RowsOf;
    var tail := path[k..];
    forall i | 0 < i < |tail| ensures HandsOut(RowsOf(rows, OfRole, tail[i - 1]), tail[i]) {
      assert tail[i] == path[k + i] && tail[i - 1] == path[k + i - 1];
    }
  }

  lemma PathJoin(rows: seq<Row>, subject: string, role: string, path: seq<string>)
    requires Reachable(rows, subject, role) && PathFrom(rows, role, path)
    ensures Reachable(rows, subject, path[|path| - 1])
  {
    hide HandsOut, RowsOf;
    var front :| IsPath(rows, subject, front) && front[|front| - 1] == role;
    var all := front + path[1..];
    forall i | 0 < i < |all| ensures HandsOut(RowsOf(rows, OfRole, all[i - 1]), all[i]) {
      if i >= |front| {
        assert all[i] == path[i - |front| + 1] && all[i - 1] == path[i - |front|];
      }
    }
    assert IsPath(rows, subject, all) && all[|all| - 1] == path[|path| - 1];
  }

  lemma WholeWhenNothingNew(rows: seq<Row>, subject: string, w: Walk, stmt: string)
    requires CompleteWalk(rows, subject, w) && InClosure(rows, subject, stmt)
    requires forall role :: role in w.queue ==> NothingNew(rows, w.out, role)
    ensures stmt in w.out
  {
    hide HandsOut, RowsOf;
    if stmt !in RowsOf(rows, OfSubject, subject) && stmt !in RowsOf(rows, OfPublic, "") {
      var role :| Reachable(rows, subject, role) && stmt in RowsOf(rows, OfRole, role);
      var path :| IsPath(rows, subject, path) && path[|path| - 1] == role;
      var k := WalkedOrQueued(rows, subject, w, path, |path| - 1);
      if k < |path| {
        PathSuffix(rows, subject, path, k);
        assert NothingNew(rows, w.out, path[k]);
      }
    }
  }

  /** Main result: whatever the memberships, the walk returns the whole closure exactly when the roles
      it left in the queue lead to nothing new. */
  lemma WholeExactlyWhen(rows: seq<Row>, subject: string)
    ensures var w := Stopped(rows, subject);
            ((forall stmt :: InClosure(rows, subject, stmt) <==> stmt in Resolve(rows, subject))
             <==> forall role :: role in w.queue ==> NothingNew(rows, w.out, role))
  {
    hide HandsOut, RowsOf, CompleteWalk, Start, RunWalk;
    var w := Stopped(rows, subject);
    StartSound(rows, subject);
    RunSound(rows, subject, Start(rows, subject), MAX_DEQUEUES);
    StartComplete(rows, subject);
    RunStaysComplete(rows, subject, Start(rows, subject), MAX_DEQUEUES);
    if forall role :: role in w.queue ==> NothingNew(rows, w.out, role) {
      forall stmt | InClosure(rows, subject, stmt) ensures stmt in w.out {
        WholeWhenNothingNew(rows, subject, w, stmt);
      }
    }
    if forall stmt :: InClosure(rows, subject, stmt) <==> stmt in Resolve(rows, subject) {
      forall role, path, stmt |
        role in w.queue && PathFrom(rows, role, path) && stmt in RowsOf(rows, OfRole, path[|path| - 1])
        ensures stmt in w.out
      {
        PathJoin(rows, subject, role, path);
        assert InClosure(rows, subject, stmt);
      }
    }
  }
}
