/** grantsForKey: the bounded walk over role memberships, against the closure it stands for. */
module RoleClosure {
  import opened Text
  import opened GrantStore

  datatype Kind = OfSubject | OfRole | OfPublic

  /** One stored row of a datalake; the store keeps its rows in version order. */
  datatype Row = Row(kind: Kind, grantee: string, stmt: string)

  /** The query both walks issue: matching statements, in version order. */
  function RowsOf(rows: seq<Row>, kind: Kind, grantee: string): seq<string> {
    if rows == [] then []
    else (if rows[0].kind == kind && (kind.OfPublic? || rows[0].grantee == grantee) then [rows[0].stmt] else [])
         + RowsOf(rows[1..], kind, grantee)
  }

  predicate Asked(row: Row, kind: Kind, grantee: string) {
    row.kind == kind && (kind.OfPublic? || row.grantee == grantee)
  }

  /** The statements of the rows asked for, each once and in version order; `at` says where they are stored. */
  ghost predicate InVersionOrder(rows: seq<Row>, kind: Kind, grantee: string, stmts: seq<string>, at: seq<nat>) {
    && |at| == |stmts| && (forall k, l :: 0 <= k < l < |at| ==> at[k] < at[l])
    && (forall k :: 0 <= k < |at| ==> at[k] < |rows| && rows[at[k]].stmt == stmts[k])
    && (forall i :: 0 <= i < |rows| ==> (i in at <==> Asked(rows[i], kind, grantee)))
  }

  lemma {:induction false} RowsInOrder(rows: seq<Row>, kind: Kind, grantee: string) returns (at: seq<nat>)
    ensures InVersionOrder(rows, kind, grantee, RowsOf(rows, kind, grantee), at)
  {
    hide InVersionOrder;
    at := [];
    if rows == [] {
      NoRows(kind, grantee);
    } else {
      var rest := RowsInOrder(rows[1..], kind, grantee);
      var later := Behind(rest);
      at := (if Asked(rows[0], kind, grantee) then [0] else []) + later;
      OneRowMore(rows, kind, grantee, RowsOf(rows[1..], kind, grantee), rest, later);
    }
  }

  lemma NoRows(kind: Kind, grantee: string)
    ensures InVersionOrder([], kind, grantee, [], [])
  {
  }

  lemma OneRowMore(rows: seq<Row>, kind: Kind, grantee: string, stmts: seq<string>, rest: seq<nat>, later: seq<nat>)
    requires rows != [] && InVersionOrder(rows[1..], kind, grantee, stmts, rest)
    requires |later| == |rest| && forall k :: 0 <= k < |rest| ==> later[k] == rest[k] + 1
    requires forall i: nat :: i in later <==> i > 0 && i - 1 in rest
    ensures var first := Asked(rows[0], kind, grantee);
            InVersionOrder(rows, kind, grantee, (if first then [rows[0].stmt] else []) + stmts, (if first then [0] else []) + later)
  {
    hide Asked;
    var first := Asked(rows[0], kind, grantee);
    var at := (if first then [0] else []) + later;
    assert forall i :: 0 < i < |rows| ==> rows[i] == rows[1..][i - 1];
    assert forall i: nat :: i in at <==> (first && i == 0) || i in later;
  }

  /** The same places, one further on. */
  lemma Behind(at: seq<nat>) returns (later: seq<nat>)
    ensures |later| == |at| && forall k :: 0 <= k < |at| ==> later[k] == at[k] + 1
    ensures forall i: nat :: i in later <==> i > 0 && i - 1 in at
  {
    later := seq(|at|, k requires 0 <= k < |at| => at[k] + 1);
    forall i: nat ensures i in later <==> i > 0 && i - 1 in at {
      if i > 0 && i - 1 in at {
        var k :| 0 <= k < |at| && at[k] == i - 1;
        assert later[k] == i;
      }
    }
  }

  // ---- the closure, declaratively ----------------------------------------------------------

  /** Some statement of the list hands out the role. */
  ghost predicate HandsOut(stmts: seq<string>, role: string) {
    exists i :: 0 <= i < |stmts| && MembershipRole(stmts[i]) == Some(role)
  }

  /** A chain of memberships from the subject down to the last role of the path. */
  ghost predicate IsPath(rows: seq<Row>, subject: string, path: seq<string>) {
    && path != []
    && HandsOut(RowsOf(rows, OfSubject, subject), path[0])
    && forall i :: 0 < i < |path| ==> HandsOut(RowsOf(rows, OfRole, path[i - 1]), path[i])
  }

  ghost predicate Reachable(rows: seq<Row>, subject: string, role: string) {
    exists path :: IsPath(rows, subject, path) && path[|path| - 1] == role
  }

  ghost predicate InClosure(rows: seq<Row>, subject: string, stmt: string) {
    || stmt in RowsOf(rows, OfSubject, subject)
    || stmt in RowsOf(rows, OfPublic, "")
    || exists role :: Reachable(rows, subject, role) && stmt in RowsOf(rows, OfRole, role)
  }

  ghost function ReachableRoles(rows: seq<Row>, subject: string): set<string> {
    set row | row in rows && MembershipRole(row.stmt).Some?
              && Reachable(rows, subject, MembershipRole(row.stmt).value) :: MembershipRole(row.stmt).value
  }

  /** Number of membership rows held by the subject or by a role of the set. */
  ghost function Memberships(rows: seq<Row>, subject: string, roles: set<string>): nat {
    if rows == [] then 0
    else
      var r := rows[0];
      (if MembershipRole(r.stmt).Some?
          && ((r.kind.OfSubject? && r.grantee == subject) || (r.kind.OfRole? && r.grantee in roles)) then 1 else 0)
      + Memberships(rows[1..], subject, roles)
  }

  // ---- the walk, as a function -------------------------------------------------------------

  datatype Walk = Walk(out: seq<string>, queue: seq<string>, visited: set<string>)

  /** First-seen wins: only new statements are appended. */
  function PushAll(out: seq<string>, stmts: seq<string>): seq<string>
    decreases |stmts|
  {
    if stmts == [] then out
    else PushAll(if stmts[0] in out then out else out + [stmts[0]], stmts[1..])
  }

  function NewRoles(stmts: seq<string>, visited: set<string>): seq<string> {
    if stmts == [] then []
    else
      var role := MembershipRole(stmts[0]);
      (if role.Some? && role.value !in visited then [role.value] else []) + NewRoles(stmts[1..], visited)
  }

  function Start(rows: seq<Row>, subject: string): Walk {
    var own := RowsOf(rows, OfSubject, subject);
    Walk(PushAll(PushAll([], own), RowsOf(rows, OfPublic, "")), NewRoles(own, {}), {})
  }

  function Step(rows: seq<Row>, w: Walk): Walk
    requires w.queue != []
  {
    var role := w.queue[0];
    if role in w.visited then w.(queue := w.queue[1..])
    else
      var stmts := RowsOf(rows, OfRole, role);
      var visited := w.visited + {role};
      Walk(PushAll(w.out, stmts), w.queue[1..] + NewRoles(stmts, visited), visited)
  }

  function RunWalk(rows: seq<Row>, w: Walk, steps: nat): Walk
    decreases steps
  {
    if w.queue == [] || steps == 0 then w else RunWalk(rows, Step(rows, w), steps - 1)
  }

  const MAX_DEQUEUES: nat := 64

  function Resolve(rows: seq<Row>, subject: string): seq<string> {
    RunWalk(rows, Start(rows, subject), MAX_DEQUEUES).out
  }

  // ---- what pushing and enqueueing do ------------------------------------------------------

  ghost predicate NoDuplicates(s: seq<string>) {
    forall i, j :: 0 <= i < j < |s| ==> s[i] != s[j]
  }

  lemma {:induction false} PushAllFacts(out: seq<string>, stmts: seq<string>)
    ensures var r := PushAll(out, stmts);
            && out <= r
            && (forall x :: x in r <==> x in out || x in stmts)
            && (NoDuplicates(out) ==> NoDuplicates(r))
    decreases |stmts|
  {
    if stmts != [] {
      var next := if stmts[0] in out then out else out + [stmts[0]];
      PushAllFacts(next, stmts[1..]);
      assert forall x :: x in next <==> x in out || x == stmts[0];
      assert forall x :: x in stmts <==> x == stmts[0] || x in stmts[1..];
    }
  }

  lemma {:induction false} NewRolesFacts(stmts: seq<string>, visited: set<string>)
    ensures forall role :: role in NewRoles(stmts, visited) <==> HandsOut(stmts, role) && role !in visited
  {
    hide MembershipRole;
    if stmts != [] {
      NewRolesFacts(stmts[1..], visited);
      forall role
        ensures HandsOut(stmts, role) <==> MembershipRole(stmts[0]) == Some(role) || HandsOut(stmts[1..], role)
      {
        if HandsOut(stmts[1..], role) {
          var i :| 0 <= i < |stmts[1..]| && MembershipRole(stmts[1..][i]) == Some(role);
          assert MembershipRole(stmts[i + 1]) == Some(role);
        }
        if HandsOut(stmts, role) && MembershipRole(stmts[0]) != Some(role) {
          var i :| 0 <= i < |stmts| && MembershipRole(stmts[i]) == Some(role);
          assert MembershipRole(stmts[1..][i - 1]) == Some(role);
        }
      }
    }
  }

  // ---- soundness: nothing outside the closure, no duplicates -------------------------------

  ghost predicate SoundWalk(rows: seq<Row>, subject: string, w: Walk) {
    && NoDuplicates(w.out)
    && (forall stmt :: stmt in w.out ==> InClosure(rows, subject, stmt))
    && (forall role :: role in w.queue ==> Reachable(rows, subject, role))
    && (forall role :: role in w.visited ==> Reachable(rows, subject, role))
  }

  lemma PathExtends(rows: seq<Row>, subject: string, role: string, next: string)
    requires Reachable(rows, subject, role) && HandsOut(RowsOf(rows, OfRole, role), next)
    ensures Reachable(rows, subject, next)
  {
    hide HandsOut;
    var path :| IsPath(rows, subject, path) && path[|path| - 1] == role;
    var longer := path + [next];
    assert IsPath(rows, subject, longer);
    assert longer[|longer| - 1] == next;
  }

  lemma StartSound(rows: seq<Row>, subject: string)
    ensures SoundWalk(rows, subject, Start(rows, subject))
  {
    hide HandsOut, RowsOf, MembershipRole;
    var own, pub := RowsOf(rows, OfSubject, subject), RowsOf(rows, OfPublic, "");
    PushAllFacts([], own);
    PushAllFacts(PushAll([], own), pub);
    NewRolesFacts(own, {});
    forall role | role in NewRoles(own, {}) ensures Reachable(rows, subject, role) {
      assert IsPath(rows, subject, [role]) && [role][|[role]| - 1] == role;
    }
  }

  lemma StepSound(rows: seq<Row>, subject: string, w: Walk)
    requires w.queue != [] && SoundWalk(rows, subject, w)
    ensures SoundWalk(rows, subject, Step(rows, w))
  {
    hide HandsOut, RowsOf, MembershipRole, Reachable;
    var role := w.queue[0];
    var stmts := RowsOf(rows, OfRole, role);
    PushAllFacts(w.out, stmts);
    NewRolesFacts(stmts, w.visited + {role});
    forall next | HandsOut(stmts, next) ensures Reachable(rows, subject, next) {
      PathExtends(rows, subject, role, next);
    }
  }

  lemma {:induction false} RunSound(rows: seq<Row>, subject: string, w: Walk, steps: nat)
    requires SoundWalk(rows, subject, w)
    ensures SoundWalk(rows, subject, RunWalk(rows, w, steps))
    decreases steps
  {
    hide SoundWalk, Step;
    if w.queue != [] && steps > 0 {
      StepSound(rows, subject, w);
      RunSound(rows, subject, Step(rows, w), steps - 1);
    }
  }

  /** Main result: whatever the store holds, the walk stays inside the closure and repeats nothing. */
  lemma ResolveSound(rows: seq<Row>, subject: string)
    ensures NoDuplicates(Resolve(rows, subject))
    ensures forall stmt :: stmt in Resolve(rows, subject) ==> InClosure(rows, subject, stmt)
  {
    StartSound(rows, subject);
    RunSound(rows, subject, Start(rows, subject), MAX_DEQUEUES);
    hide Start, RunWalk, InClosure;
  }

  // ---- counting: each dequeue is paid for by one membership row ----------------------------

  lemma NewRolesOfRow(rows: seq<Row>, kind: Kind, grantee: string)
    requires rows != [] && !kind.OfPublic?
    ensures |NewRoles(RowsOf(rows, kind, grantee), {})|
         == |NewRoles(RowsOf(rows[1..], kind, grantee), {})|
            + (if rows[0].kind == kind && rows[0].grantee == grantee && MembershipRole(rows[0].stmt).Some? then 1 else 0)
  {
    hide MembershipRole;
    var rest := RowsOf(rows[1..], kind, grantee);
    assert ([rows[0].stmt] + rest)[1..] == rest;
    assert [] + rest == rest;
  }

  lemma {:induction false} MembershipsGrow(rows: seq<Row>, subject: string, roles: set<string>, role: string)
    requires role !in roles
    ensures Memberships(rows, subject, roles + {role})
         >= Memberships(rows, subject, roles) + |NewRoles(RowsOf(rows, OfRole, role), {})|
  {
    hide MembershipRole;
    if rows != [] {
      MembershipsGrow(rows[1..], subject, roles, role);
      var r := rows[0];
      NewRolesOfRow(rows, OfRole, role);
    }
  }

  lemma {:induction false} FewerNewRoles(stmts: seq<string>, visited: set<string>)
    ensures |NewRoles(stmts, visited)| <= |NewRoles(stmts, {})|
  {
    hide MembershipRole;
    if stmts != [] {
      FewerNewRoles(stmts[1..], visited);
    }
  }

  lemma {:induction false} OwnMemberships(rows: seq<Row>, subject: string)
    ensures |NewRoles(RowsOf(rows, OfSubject, subject), {})| <= Memberships(rows, subject, {})
  {
    hide MembershipRole;
    if rows != [] {
      OwnMemberships(rows[1..], subject);
      var r := rows[0];
      NewRolesOfRow(rows, OfSubject, subject);
    }
  }

  lemma {:induction false} MembershipsMonotone(rows: seq<Row>, subject: string, s: set<string>, t: set<string>)
    requires s <= t
    ensures Memberships(rows, subject, s) <= Memberships(rows, subject, t)
  {
    hide MembershipRole;
    if rows != [] {
      MembershipsMonotone(rows[1..], subject, s, t);
    }
  }

  // ---- completeness ------------------------------------------------------------------------

  /** Everything a processed source hands out is processed or still queued, and is output. */
  ghost predicate CompleteWalk(rows: seq<Row>, subject: string, w: Walk) {
    && (forall stmt :: stmt in RowsOf(rows, OfSubject, subject) || stmt in RowsOf(rows, OfPublic, "") ==> stmt in w.out)
    && (forall role, stmt :: role in w.visited && stmt in RowsOf(rows, OfRole, role) ==> stmt in w.out)
    && (forall next :: HandsOut(RowsOf(rows, OfSubject, subject), next) ==> next in w.visited || next in w.queue)
    && (forall role, next :: role in w.visited && HandsOut(RowsOf(rows, OfRole, role), next) ==>
          next in w.visited || next in w.queue)
  }

  lemma StartComplete(rows: seq<Row>, subject: string)
    ensures CompleteWalk(rows, subject, Start(rows, subject))
  {
    hide HandsOut, RowsOf, MembershipRole;
    var own, pub := RowsOf(rows, OfSubject, subject), RowsOf(rows, OfPublic, "");
    PushAllFacts([], own);
    PushAllFacts(PushAll([], own), pub);
    NewRolesFacts(own, {});
  }

  lemma StepComplete(rows: seq<Row>, subject: string, w: Walk)
    requires w.queue != [] && CompleteWalk(rows, subject, w)
    ensures CompleteWalk(rows, subject, Step(rows, w))
  {
    hide HandsOut, RowsOf, MembershipRole;
    var role := w.queue[0];
    var stmts := RowsOf(rows, OfRole, role);
    PushAllFacts(w.out, stmts);
    NewRolesFacts(stmts, w.visited + {role});
    assert w.queue == [role] + w.queue[1..];
  }

  lemma {:induction false} RunComplete(rows: seq<Row>, subject: string, w: Walk, steps: nat)
    requires SoundWalk(rows, subject, w) && CompleteWalk(rows, subject, w)
    requires |w.queue| + Memberships(rows, subject, ReachableRoles(rows, subject))
          <= steps + Memberships(rows, subject, w.visited)
    requires w.visited <= ReachableRoles(rows, subject)
    ensures var e := RunWalk(rows, w, steps); e.queue == [] && CompleteWalk(rows, subject, e)
    decreases steps
  {
    hide SoundWalk, CompleteWalk, MembershipRole, RowsOf, ReachableRoles;
    var all := ReachableRoles(rows, subject);
    MembershipsMonotone(rows, subject, w.visited, all);
    if w.queue != [] && steps > 0 {
      StepSound(rows, subject, w);
      StepComplete(rows, subject, w);
      QueueIsReachable(rows, subject, w);
      var role := w.queue[0];
      if role !in w.visited {
        MembershipsGrow(rows, subject, w.visited, role);
        FewerNewRoles(RowsOf(rows, OfRole, role), w.visited + {role});
      }
      RunComplete(rows, subject, Step(rows, w), steps - 1);
    }
  }

  lemma {:induction false} RowIsStored(rows: seq<Row>, kind: Kind, grantee: string, stmt: string)
    requires stmt in RowsOf(rows, kind, grantee)
    ensures exists row :: row in rows && row.stmt == stmt
  {
    if stmt in RowsOf(rows[1..], kind, grantee) {
      RowIsStored(rows[1..], kind, grantee, stmt);
      var row :| row in rows[1..] && row.stmt == stmt;
      assert row in rows;
    } else {
      assert rows[0] in rows;
    }
  }

  lemma ReachableIsRole(rows: seq<Row>, subject: string, role: string)
    requires Reachable(rows, subject, role)
    ensures role in ReachableRoles(rows, subject)
  {
    hide MembershipRole, RowsOf;
    var path :| IsPath(rows, subject, path) && path[|path| - 1] == role;
    var n := |path| - 1;
    var stmts := if n == 0 then RowsOf(rows, OfSubject, subject) else RowsOf(rows, OfRole, path[n - 1]);
    assert HandsOut(stmts, role);
    var i :| 0 <= i < |stmts| && MembershipRole(stmts[i]) == Some(role);
    if n == 0 { RowIsStored(rows, OfSubject, subject, stmts[i]); } else { RowIsStored(rows, OfRole, path[n - 1], stmts[i]); }
    var row :| row in rows && row.stmt == stmts[i];
    assert MembershipRole(row.stmt).Some? && Reachable(rows, subject, MembershipRole(row.stmt).value);
  }

  lemma QueueIsReachable(rows: seq<Row>, subject: string, w: Walk)
    requires w.queue != [] && SoundWalk(rows, subject, w)
    ensures w.queue[0] in ReachableRoles(rows, subject)
  {
    ReachableIsRole(rows, subject, w.queue[0]);
  }

  /** With an empty queue, every path of memberships has been walked. */
  lemma {:induction false} PathVisited(rows: seq<Row>, subject: string, w: Walk, path: seq<string>, i: nat)
    requires CompleteWalk(rows, subject, w) && w.queue == [] && IsPath(rows, subject, path) && i < |path|
    ensures path[i] in w.visited
  {
    hide HandsOut, RowsOf, MembershipRole;
    if i > 0 {
      PathVisited(rows, subject, w, path, i - 1);
    }
  }

  /** Main result: with at most 64 membership rows in reach, the walk returns the whole closure. */
  lemma ResolveComplete(rows: seq<Row>, subject: string, stmt: string)
    requires Memberships(rows, subject, ReachableRoles(rows, subject)) <= MAX_DEQUEUES
    ensures stmt in Resolve(rows, subject) <==> InClosure(rows, subject, stmt)
  {
    hide HandsOut, RowsOf, MembershipRole, Memberships, ReachableRoles;
    ResolveSound(rows, subject);
    var w := Start(rows, subject);
    StartSound(rows, subject);
    StartComplete(rows, subject);
    OwnMemberships(rows, subject);
    RunComplete(rows, subject, w, MAX_DEQUEUES);
    var e := RunWalk(rows, w, MAX_DEQUEUES);
    hide RunWalk, Start;
    if InClosure(rows, subject, stmt) && stmt !in RowsOf(rows, OfSubject, subject) && stmt !in RowsOf(rows, OfPublic, "") {
      var role :| Reachable(rows, subject, role) && stmt in RowsOf(rows, OfRole, role);
      var path :| IsPath(rows, subject, path) && path[|path| - 1] == role;
      PathVisited(rows, subject, e, path, |path| - 1);
    }
  }

  // ---- the two methods ---------------------------------------------------------------------

  lemma {:induction false} PushAllConcat(out: seq<string>, xs: seq<string>, x: string)
    ensures PushAll(out, xs + [x])
         == var r := PushAll(out, xs); if x in r then r else r + [x]
    decreases |xs|
  {
    if xs == [] {
      assert PushAll(out, [x]) == PushAll(if x in out then out else out + [x], []);
    } else {
      assert (xs + [x])[0] == xs[0] && (xs + [x])[1..] == xs[1..] + [x];
      PushAllConcat(if xs[0] in out then out else out + [xs[0]], xs[1..], x);
    }
  }

  lemma {:induction false} NewRolesConcat(xs: seq<string>, x: string, visited: set<string>)
    ensures NewRoles(xs + [x], visited)
         == NewRoles(xs, visited)
            + (if MembershipRole(x).Some? && MembershipRole(x).value !in visited then [MembershipRole(x).value] else [])
  {
    hide MembershipRole;
    if xs != [] {
      assert (xs + [x])[0] == xs[0] && (xs + [x])[1..] == xs[1..] + [x];
      NewRolesConcat(xs[1..], x, visited);
    } else {
      assert (xs + [x])[1..] == [];
    }
  }

  datatype Provenance = Own | ViaPublic | ViaRole(role: string)

  datatype Resolved = Resolved(stmt: string, inherited: Provenance)

  function Statements(rs: seq<Resolved>): seq<string> {
    seq(|rs|, i requires 0 <= i < |rs| => rs[i].stmt)
  }

  /** The roles the walk visits, in order. */
  function Visits(rows: seq<Row>, w: Walk, steps: nat): seq<string>
    decreases steps
  {
    if w.queue == [] || steps == 0 then []
    else (if w.queue[0] in w.visited then [] else [w.queue[0]]) + Visits(rows, Step(rows, w), steps - 1)
  }

  /** One of the sources read up to and including the first `n` of the visited roles has the statement. */
  predicate SeenBy(rows: seq<Row>, subject: string, visits: seq<string>, n: nat, stmt: string)
    requires n <= |visits|
  {
    || stmt in RowsOf(rows, OfSubject, subject) || stmt in RowsOf(rows, OfPublic, "")
    || exists m :: 0 <= m < n && stmt in RowsOf(rows, OfRole, visits[m])
  }

  /** The recorded origin is the first source that has the statement: its own rows, then those of PUBLIC,
      then those of the roles in the order visited. */
  ghost predicate FirstOrigin(rows: seq<Row>, subject: string, visits: seq<string>, r: Resolved) {
    match r.inherited
    case Own => r.stmt in RowsOf(rows, OfSubject, subject)
    case ViaPublic => r.stmt in RowsOf(rows, OfPublic, "") && r.stmt !in RowsOf(rows, OfSubject, subject)
    case ViaRole(role) =>
      Reachable(rows, subject, role) && r.stmt in RowsOf(rows, OfRole, role)
      && exists n :: 0 <= n < |visits| && visits[n] == role && !SeenBy(rows, subject, visits, n, r.stmt)
  }

  ghost predicate FirstOrigins(rows: seq<Row>, subject: string, visits: seq<string>, rs: seq<Resolved>) {
    forall i :: 0 <= i < |rs| ==> FirstOrigin(rows, subject, visits, rs[i])
  }

  /** Every statement of the sources read so far is output. */
  ghost predicate Output(rows: seq<Row>, subject: string, visits: seq<string>, out: seq<string>) {
    forall stmt :: SeenBy(rows, subject, visits, |visits|, stmt) ==> stmt in out
  }

  lemma NonePushed(out: seq<string>, visited: set<string>)
    ensures PushAll(out, []) == out && NewRoles([], visited) == []
  {
  }

  /** One source of rows: pushes its statements with their origin, and queues the roles they hand out. */
  method Absorb(stmts: seq<string>, origin: Provenance, visited: set<string>, out0: seq<Resolved>, queue0: seq<string>)
    returns (out: seq<Resolved>, queue: seq<string>)
    ensures Statements(out) == PushAll(Statements(out0), stmts)
    ensures queue == queue0 + NewRoles(stmts, visited)
    ensures out0 <= out && forall i :: |out0| <= i < |out| ==> NewFrom(out[i], origin, stmts, out0)
  {
    NonePushed(Statements(out0), visited);
    hide MembershipRole, PushAll, NewRoles;
    out, queue := out0, queue0;
    assert stmts[..0] == [];
    for i := 0 to |stmts|
      invariant Statements(out) == PushAll(Statements(out0), stmts[..i])
      invariant queue == queue0 + NewRoles(stmts[..i], visited)
      invariant out0 <= out && forall j :: |out0| <= j < |out| ==> NewFrom(out[j], origin, stmts, out0)
    {
      assert stmts[..i + 1] == stmts[..i] + [stmts[i]];
      PushAllConcat(Statements(out0), stmts[..i], stmts[i]);
      NewRolesConcat(stmts[..i], stmts[i], visited);
      if stmts[i] !in Statements(out) {
        StatementsGrow(out0, out);
        assert Statements(out + [Resolved(stmts[i], origin)]) == Statements(out) + [stmts[i]];
        out := out + [Resolved(stmts[i], origin)];
      }
      var role := MembershipRole(stmts[i]);
      if role.Some? && role.value !in visited {
        queue := queue + [role.value];
      }
    }
    assert stmts[..|stmts|] == stmts;
  }

  /** A statement of this source that no earlier source had. */
  predicate NewFrom(r: Resolved, origin: Provenance, stmts: seq<string>, out0: seq<Resolved>) {
    r.inherited == origin && r.stmt in stmts && r.stmt !in Statements(out0)
  }

  lemma StatementsGrow(out0: seq<Resolved>, out: seq<Resolved>)
    requires out0 <= out
    ensures forall stmt :: stmt in Statements(out0) ==> stmt in Statements(out)
  {
    assert forall i :: 0 <= i < |out0| ==> Statements(out)[i] == Statements(out0)[i];
  }

  lemma OriginGrows(rows: seq<Row>, subject: string, visits: seq<string>, role: string, r: Resolved)
    requires FirstOrigin(rows, subject, visits, r)
    ensures FirstOrigin(rows, subject, visits + [role], r)
  {
    hide RowsOf, Reachable;
    if r.inherited.ViaRole? {
      var n :| 0 <= n < |visits| && visits[n] == r.inherited.role && !SeenBy(rows, subject, visits, n, r.stmt);
      assert (visits + [role])[n] == visits[n] && !SeenBy(rows, subject, visits + [role], n, r.stmt);
    }
  }

  /** The subject's own rows and those of PUBLIC, read first. */
  lemma FirstSources(rows: seq<Row>, subject: string, own: seq<Resolved>, out: seq<Resolved>)
    requires forall i :: 0 <= i < |own| ==> NewFrom(own[i], Own, RowsOf(rows, OfSubject, subject), [])
    requires own <= out && forall i :: |own| <= i < |out| ==> NewFrom(out[i], ViaPublic, RowsOf(rows, OfPublic, ""), own)
    requires Statements(own) == PushAll([], RowsOf(rows, OfSubject, subject))
    requires Statements(out) == PushAll(Statements(own), RowsOf(rows, OfPublic, ""))
    ensures FirstOrigins(rows, subject, [], out) && Output(rows, subject, [], Statements(out))
  {
    PushAllFacts([], RowsOf(rows, OfSubject, subject));
    PushAllFacts(Statements(own), RowsOf(rows, OfPublic, ""));
    hide RowsOf, PushAll, Statements;
    forall i | 0 <= i < |out| ensures FirstOrigin(rows, subject, [], out[i]) {
      assert i < |own| ==> out[i] == own[i];
    }
  }

  lemma RoleSource(rows: seq<Row>, subject: string, visits: seq<string>, role: string, out0: seq<Resolved>, out: seq<Resolved>)
    requires FirstOrigins(rows, subject, visits, out0) && Output(rows, subject, visits, Statements(out0))
    requires Reachable(rows, subject, role)
    requires out0 <= out && forall i :: |out0| <= i < |out| ==> NewFrom(out[i], ViaRole(role), RowsOf(rows, OfRole, role), out0)
    requires Statements(out) == PushAll(Statements(out0), RowsOf(rows, OfRole, role))
    ensures FirstOrigins(rows, subject, visits + [role], out) && Output(rows, subject, visits + [role], Statements(out))
  {
    PushAllFacts(Statements(out0), RowsOf(rows, OfRole, role));
    hide RowsOf, PushAll, Statements, Reachable;
    var now := visits + [role];
    forall i | 0 <= i < |out| ensures FirstOrigin(rows, subject, now, out[i]) {
      if i < |out0| {
        OriginGrows(rows, subject, visits, role, out0[i]);
      } else {
        assert now[|visits|] == role && !SeenBy(rows, subject, now, |visits|, out[i].stmt) by {
          SeenBefore(rows, subject, visits, role, out[i].stmt);
        }
      }
    }
    forall stmt | SeenBy(rows, subject, now, |now|, stmt) ensures stmt in Statements(out) {
      SeenBefore(rows, subject, visits, role, stmt);
    }
  }

  lemma SeenBefore(rows: seq<Row>, subject: string, visits: seq<string>, role: string, stmt: string)
    ensures var now := visits + [role];
            && (SeenBy(rows, subject, now, |visits|, stmt) <==> SeenBy(rows, subject, visits, |visits|, stmt))
            && (SeenBy(rows, subject, now, |now|, stmt) ==>
                  SeenBy(rows, subject, visits, |visits|, stmt) || stmt in RowsOf(rows, OfRole, role))
  {
    hide RowsOf;
    var now := visits + [role];
    assert forall m :: 0 <= m < |visits| ==> now[m] == visits[m];
  }

  /** Between two steps of the detailed walk, with `left` steps to go and the roles of `visits` read. */
  ghost predicate Midway(rows: seq<Row>, subject: string, visits: seq<string>, out: seq<Resolved>, w: Walk, left: nat) {
    var start := Start(rows, subject);
    && w.out == Statements(out) && SoundWalk(rows, subject, w)
    && RunWalk(rows, w, left) == RunWalk(rows, start, MAX_DEQUEUES)
    && visits + Visits(rows, w, left) == Visits(rows, start, MAX_DEQUEUES)
    && FirstOrigins(rows, subject, visits, out) && Output(rows, subject, visits, w.out)
  }

  lemma MidwayStart(rows: seq<Row>, subject: string, own: seq<Resolved>, out: seq<Resolved>, queue: seq<string>)
    requires forall i :: 0 <= i < |own| ==> NewFrom(own[i], Own, RowsOf(rows, OfSubject, subject), [])
    requires own <= out && forall i :: |own| <= i < |out| ==> NewFrom(out[i], ViaPublic, RowsOf(rows, OfPublic, ""), own)
    requires Statements(own) == PushAll(Statements([]), RowsOf(rows, OfSubject, subject))
    requires Statements(out) == PushAll(Statements(own), RowsOf(rows, OfPublic, ""))
    requires queue == [] + NewRoles(RowsOf(rows, OfSubject, subject), {})
    ensures Midway(rows, subject, [], out, Walk(Statements(out), queue, {}), MAX_DEQUEUES)
  {
    assert Statements([]) == [] && queue == NewRoles(RowsOf(rows, OfSubject, subject), {});
    hide NewFrom, RowsOf, PushAll, NewRoles, RunWalk, Visits, Statements, FirstOrigins, Output, SoundWalk;
    FirstSources(rows, subject, own, out);
    StartSound(rows, subject);
    var w := Walk(Statements(out), queue, {});
    assert w == Start(rows, subject);
    assert [] + Visits(rows, w, MAX_DEQUEUES) == Visits(rows, w, MAX_DEQUEUES);
  }

  lemma MidwaySkip(rows: seq<Row>, subject: string, visits: seq<string>, out: seq<Resolved>, w: Walk, left: nat)
    requires Midway(rows, subject, visits, out, w, left) && left > 0 && w.queue != [] && w.queue[0] in w.visited
    ensures Midway(rows, subject, visits, out, w.(queue := w.queue[1..]), left - 1)
  {
    hide SoundWalk, FirstOrigins, Output, Start, Statements, RunWalk, Visits, RowsOf, PushAll, NewRoles;
    StepSound(rows, subject, w);
    WalkOneStep(rows, w, left);
    assert Step(rows, w) == w.(queue := w.queue[1..]);
    hide Step;
    assert [] + Visits(rows, Step(rows, w), left - 1) == Visits(rows, Step(rows, w), left - 1);
  }

  lemma WalkOneStep(rows: seq<Row>, w: Walk, left: nat)
    requires w.queue != [] && left > 0
    ensures RunWalk(rows, w, left) == RunWalk(rows, Step(rows, w), left - 1)
    ensures Visits(rows, w, left) == (if w.queue[0] in w.visited then [] else [w.queue[0]]) + Visits(rows, Step(rows, w), left - 1)
  {
    hide Step;
  }

  lemma MidwayVisit(rows: seq<Row>, subject: string, visits: seq<string>, out0: seq<Resolved>, w: Walk, left: nat,
                    out: seq<Resolved>, queue: seq<string>)
    requires Midway(rows, subject, visits, out0, w, left) && left > 0 && w.queue != [] && w.queue[0] !in w.visited
    requires out0 <= out && forall i :: |out0| <= i < |out| ==> NewFrom(out[i], ViaRole(w.queue[0]), RowsOf(rows, OfRole, w.queue[0]), out0)
    requires Statements(out) == PushAll(Statements(out0), RowsOf(rows, OfRole, w.queue[0]))
    requires queue == w.queue[1..] + NewRoles(RowsOf(rows, OfRole, w.queue[0]), w.visited + {w.queue[0]})
    ensures Midway(rows, subject, visits + [w.queue[0]], out, Walk(Statements(out), queue, w.visited + {w.queue[0]}), left - 1)
  {
    hide FirstOrigins, Output, Start, Statements, NewFrom, RowsOf, PushAll, NewRoles, Reachable;
    QueueHead(rows, subject, w);
    StepSound(rows, subject, w);
    hide SoundWalk;
    RoleSource(rows, subject, visits, w.queue[0], out0, out);
    WalkOneStep(rows, w, left);
    hide RunWalk, Visits;
    var v := Step(rows, w);
    assert visits + [w.queue[0]] + Visits(rows, v, left - 1) == visits + ([w.queue[0]] + Visits(rows, v, left - 1));
  }

  lemma MidwayEnd(rows: seq<Row>, subject: string, visits: seq<string>, out: seq<Resolved>, w: Walk, left: nat)
    requires Midway(rows, subject, visits, out, w, left) && (w.queue == [] || left == 0)
    ensures Statements(out) == Resolve(rows, subject)
    ensures FirstOrigins(rows, subject, Visits(rows, Start(rows, subject), MAX_DEQUEUES), out)
  {
    hide SoundWalk, FirstOrigins, Output, Start, Statements;
    assert Visits(rows, w, left) == [] && visits + [] == visits;
    assert RunWalk(rows, w, left) == w;
  }

  lemma QueueHead(rows: seq<Row>, subject: string, w: Walk)
    requires w.queue != [] && SoundWalk(rows, subject, w)
    ensures Reachable(rows, subject, w.queue[0])
  {
  }

  /** grantsForKeyDetailed: the same statements in the same order as the plain walk, each with the
      first source that has it. */
  method GrantsForKeyDetailed(rows: seq<Row>, subject: string) returns (out: seq<Resolved>)
    ensures Statements(out) == Resolve(rows, subject)
    ensures FirstOrigins(rows, subject, Visits(rows, Start(rows, subject), MAX_DEQUEUES), out)
  {
    hide *;
    var own, queue := Absorb(RowsOf(rows, OfSubject, subject), Own, {}, [], []);
    var pub, ignored := Absorb(RowsOf(rows, OfPublic, ""), ViaPublic, {}, own, []);
    MidwayStart(rows, subject, own, pub, queue);
    out := pub;
    var visited: set<string> := {};
    ghost var visits: seq<string> := [];
    var depth := 0;
    while queue != [] && depth < MAX_DEQUEUES
      invariant depth <= MAX_DEQUEUES
      invariant Midway(rows, subject, visits, out, Walk(Statements(out), queue, visited), MAX_DEQUEUES - depth)
      decreases MAX_DEQUEUES - depth
    {
      ghost var w, before := Walk(Statements(out), queue, visited), out;
      depth := depth + 1;
      var role := queue[0];
      queue := queue[1..];
      if role in visited {
        MidwaySkip(rows, subject, visits, out, w, MAX_DEQUEUES - depth + 1);
      } else {
        visited := visited + {role};
        out, queue := Absorb(RowsOf(rows, OfRole, role), ViaRole(role), visited, out, queue);
        MidwayVisit(rows, subject, visits, before, w, MAX_DEQUEUES - depth + 1, out, queue);
        visits := visits + [role];
      }
    }
    MidwayEnd(rows, subject, visits, out, Walk(Statements(out), queue, visited), MAX_DEQUEUES - depth);
  }

  /** grantsForKey: the same walk without origins. */
  method GrantsForKey(rows: seq<Row>, subject: string) returns (out: seq<string>)
    ensures out == Resolve(rows, subject)
  {
    hide MembershipRole, RowsOf, PushAll, NewRoles;
    var own := RowsOf(rows, OfSubject, subject);
    var pub := RowsOf(rows, OfPublic, "");
    var queue: seq<string>;
    out, queue := AbsorbPlain(own, {}, [], []);
    assert [] + NewRoles(own, {}) == NewRoles(own, {});
    var out', ignored := AbsorbPlain(pub, {}, out, []);
    out := out';
    var visited: set<string> := {};
    var depth := 0;
    ghost var start := Start(rows, subject);
    while queue != [] && depth < MAX_DEQUEUES
      invariant depth <= MAX_DEQUEUES
      invariant RunWalk(rows, start, MAX_DEQUEUES) == RunWalk(rows, Walk(out, queue, visited), MAX_DEQUEUES - depth)
      decreases MAX_DEQUEUES - depth
    {
      depth := depth + 1;
      var role := queue[0];
      queue := queue[1..];
      if role !in visited {
        visited := visited + {role};
        out, queue := AbsorbPlain(RowsOf(rows, OfRole, role), visited, out, queue);
      }
    }
  }

  method AbsorbPlain(stmts: seq<string>, visited: set<string>, out0: seq<string>, queue0: seq<string>)
    returns (out: seq<string>, queue: seq<string>)
    ensures out == PushAll(out0, stmts)
    ensures queue == queue0 + NewRoles(stmts, visited)
  {
    hide MembershipRole;
    out, queue := out0, queue0;
    for i := 0 to |stmts|
      invariant out == PushAll(out0, stmts[..i])
      invariant queue == queue0 + NewRoles(stmts[..i], visited)
    {
      assert stmts[..i + 1] == stmts[..i] + [stmts[i]];
      PushAllConcat(out0, stmts[..i], stmts[i]);
      NewRolesConcat(stmts[..i], stmts[i], visited);
      if stmts[i] !in out {
        out := out + [stmts[i]];
      }
      var role := MembershipRole(stmts[i]);
      if role.Some? && role.value !in visited {
        queue := queue + [role.value];
      }
    }
    assert stmts[..|stmts|] == stmts;
  }
}
