/** In which order the role walk reads its sources and lists their statements. */
module RoleOrder {

  import opened GrantStore
  import opened RoleClosure

  /** The roles a list of statements hands out, in order. */
  function Handed(stmts: seq<string>): seq<string> {
    NewRoles(stmts, {})
  }

  function RowsOfAll(rows: seq<Row>, roles: seq<string>): seq<string> {
    if roles == [] then [] else RowsOfAll(rows, roles[..|roles| - 1]) + RowsOf(rows, OfRole, roles[|roles| - 1])
  }

  // ---- first occurrences -------------------------------------------------------------------

  /** `r` has the first occurrence of everything in `s`, in order; `at` says where they stand. */
  ghost predicate Firsts(s: seq<string>, r: seq<string>, at: seq<nat>) {
    && |at| == |r| && (forall k, l :: 0 <= k < l < |at| ==> at[k] < at[l])
    && (forall k :: 0 <= k < |at| ==> at[k] < |s| && r[k] == s[at[k]] && s[at[k]] !in s[..at[k]])
    && (forall x :: x in r <==> x in s)
  }

  /** Pushing onto nothing keeps the first occurrences. */
  lemma {:induction false} FirstsOnly(s: seq<string>) returns (at: seq<nat>)
    ensures Firsts(s, PushAll([], s), at)
  {
    hide Firsts;
    at := [];
    if s == [] {
      NoFirsts();
    } else {
      var n := |s| - 1;
      var front := FirstsOnly(s[..n]);
      PushAllConcat([], s[..n], s[n]);
      assert s == s[..n] + [s[n]];
      at := if s[n] in PushAll([], s[..n]) then front else front + [n];
      FirstsStep(s, PushAll([], s[..n]), front);
    }
  }

  lemma NoFirsts()
    ensures Firsts([], [], [])
  {
  }

  lemma FirstsStep(s: seq<string>, r: seq<string>, at: seq<nat>)
    requires s != [] && Firsts(s[..|s| - 1], r, at)
    ensures var n := |s| - 1; if s[n] in r then Firsts(s, r, at) else Firsts(s, r + [s[n]], at + [n])
  {
    var n := |s| - 1;
    assert s == s[..n] + [s[n]];
    forall k | 0 <= k < |at| ensures s[..n][at[k]] == s[at[k]] && s[..n][..at[k]] == s[..at[k]] {}
  }

  lemma {:induction false} PushAllTwice(out: seq<string>, a: seq<string>, b: seq<string>)
    ensures PushAll(out, a + b) == PushAll(PushAll(out, a), b)
    decreases |b|
  {
    if b == [] {
      assert a + b == a;
    } else {
      var n := |b| - 1;
      PushAllTwice(out, a, b[..n]);
      assert a + b == a + b[..n] + [b[n]] && b == b[..n] + [b[n]];
      PushAllConcat(out, a + b[..n], b[n]);
      PushAllConcat(PushAll(out, a), b[..n], b[n]);
    }
  }

  /** What is already there need not be pushed. */
  lemma {:induction false} KnownRoles(out: seq<string>, stmts: seq<string>, known: set<string>)
    requires forall x :: x in known ==> x in out
    ensures PushAll(out, NewRoles(stmts, known)) == PushAll(out, NewRoles(stmts, {}))
    decreases |stmts|
  {
    hide MembershipRole;
    if stmts != [] {
      var role := MembershipRole(stmts[0]);
      if role.Some? {
        var next := if role.value in out then out else out + [role.value];
        KnownRoles(next, stmts[1..], known);
        HeadPushed(out, role.value, NewRoles(stmts[1..], known));
        HeadPushed(out, role.value, NewRoles(stmts[1..], {}));
        assert [] + NewRoles(stmts[1..], known) == NewRoles(stmts[1..], known);
      } else {
        KnownRoles(out, stmts[1..], known);
        assert [] + NewRoles(stmts[1..], known) == NewRoles(stmts[1..], known);
        assert [] + NewRoles(stmts[1..], {}) == NewRoles(stmts[1..], {});
      }
    }
  }

  lemma HeadPushed(out: seq<string>, x: string, rest: seq<string>)
    ensures PushAll(out, [x] + rest) == PushAll(if x in out then out else out + [x], rest)
  {
    assert ([x] + rest)[1..] == rest;
  }

  // ---- the walk ----------------------------------------------------------------------------

  /** After the roles of `visits`: their rows are listed behind the subject's own and those of PUBLIC, and
      the queue goes on with what has been handed out. */
  ghost predicate InOrder(rows: seq<Row>, subject: string, visits: seq<string>, w: Walk) {
    var own := RowsOf(rows, OfSubject, subject);
    && w.out == PushAll([], own + RowsOf(rows, OfPublic, "") + RowsOfAll(rows, visits))
    && (forall x :: x in w.visited <==> x in visits)
    && PushAll([], Handed(own) + HandedByAll(rows, visits)) == PushAll(visits, w.queue)
  }

  function HandedByAll(rows: seq<Row>, roles: seq<string>): seq<string> {
    if roles == [] then [] else HandedByAll(rows, roles[..|roles| - 1]) + Handed(RowsOf(rows, OfRole, roles[|roles| - 1]))
  }

  lemma StartInOrder(rows: seq<Row>, subject: string)
    ensures InOrder(rows, subject, [], Start(rows, subject))
  {
    hide RowsOf, PushAll, NewRoles;
    var own, pub := RowsOf(rows, OfSubject, subject), RowsOf(rows, OfPublic, "");
    PushAllTwice([], own, pub);
    assert own + pub + [] == own + pub && Handed(own) + [] == Handed(own);
  }

  lemma SkipInOrder(rows: seq<Row>, subject: string, visits: seq<string>, w: Walk)
    requires InOrder(rows, subject, visits, w) && w.queue != [] && w.queue[0] in w.visited
    ensures InOrder(rows, subject, visits, Step(rows, w))
  {
    hide RowsOf, NewRoles, RowsOfAll, HandedByAll;
    assert w.queue == [w.queue[0]] + w.queue[1..];
    HeadPushed(visits, w.queue[0], w.queue[1..]);
    hide PushAll;
  }

  lemma VisitInOrder(rows: seq<Row>, subject: string, visits: seq<string>, w: Walk)
    requires InOrder(rows, subject, visits, w) && w.queue != [] && w.queue[0] !in w.visited
    ensures InOrder(rows, subject, visits + [w.queue[0]], Step(rows, w))
  {
    var role, stmts := w.queue[0], RowsOf(rows, OfRole, w.queue[0]);
    assert Step(rows, w) == Walk(PushAll(w.out, stmts), w.queue[1..] + NewRoles(stmts, w.visited + {role}), w.visited + {role});
    AllGrow(rows, visits, role);
    hide RowsOf, PushAll, NewRoles, RowsOfAll, HandedByAll, Step;
    OneMoreSource(RowsOf(rows, OfSubject, subject) + RowsOf(rows, OfPublic, ""), RowsOfAll(rows, visits), stmts);
    OneMoreSource(Handed(RowsOf(rows, OfSubject, subject)), HandedByAll(rows, visits), Handed(stmts));
    QueueMoves(visits, w.queue, stmts, w.visited);
  }

  lemma OneMoreSource(a: seq<string>, b: seq<string>, c: seq<string>)
    ensures PushAll([], a + (b + c)) == PushAll(PushAll([], a + b), c)
  {
    hide PushAll;
    PushAllTwice([], a + b, c);
    assert a + (b + c) == a + b + c;
  }

  lemma AllGrow(rows: seq<Row>, visits: seq<string>, role: string)
    ensures RowsOfAll(rows, visits + [role]) == RowsOfAll(rows, visits) + RowsOf(rows, OfRole, role)
    ensures HandedByAll(rows, visits + [role]) == HandedByAll(rows, visits) + Handed(RowsOf(rows, OfRole, role))
  {
    hide RowsOf, NewRoles;
    assert (visits + [role])[..|visits|] == visits;
  }

  lemma QueueMoves(visits: seq<string>, queue: seq<string>, stmts: seq<string>, visited: set<string>)
    requires queue != [] && queue[0] !in visits && forall x :: x in visited <==> x in visits
    ensures PushAll(PushAll(visits, queue), Handed(stmts))
         == PushAll(visits + [queue[0]], queue[1..] + NewRoles(stmts, visited + {queue[0]}))
  {
    hide NewRoles, PushAll;
    var role, known := queue[0], visited + {queue[0]};
    assert queue == [role] + queue[1..];
    HeadPushed(visits, role, queue[1..]);
    PushAllFacts(visits + [role], queue[1..]);
    PushAllTwice(visits + [role], queue[1..], NewRoles(stmts, known));
    KnownRoles(PushAll(visits + [role], queue[1..]), stmts, known);
  }

  lemma {:induction false} RunInOrder(rows: seq<Row>, subject: string, visits: seq<string>, w: Walk, steps: nat)
    requires InOrder(rows, subject, visits, w)
    ensures InOrder(rows, subject, visits + Visits(rows, w, steps), RunWalk(rows, w, steps))
    decreases steps
  {
    hide InOrder, Step;
    if w.queue == [] || steps == 0 {
      assert visits + [] == visits;
    } else if w.queue[0] in w.visited {
      SkipInOrder(rows, subject, visits, w);
      RunInOrder(rows, subject, visits, Step(rows, w), steps - 1);
      assert [] + Visits(rows, Step(rows, w), steps - 1) == Visits(rows, Step(rows, w), steps - 1);
    } else {
      VisitInOrder(rows, subject, visits, w);
      RunInOrder(rows, subject, visits + [w.queue[0]], Step(rows, w), steps - 1);
      assert visits + ([w.queue[0]] + Visits(rows, Step(rows, w), steps - 1))
          == visits + [w.queue[0]] + Visits(rows, Step(rows, w), steps - 1);
    }
  }

  /** Main result: the walk lists the first occurrences of the subject's own statements, those of PUBLIC and
      those of the roles it visits, in this order, and it visits roles in the order in which these
      statements first hand them out. */
  lemma WalkInOrder(rows: seq<Row>, subject: string)
    ensures var visits, own := Visits(rows, Start(rows, subject), MAX_DEQUEUES), RowsOf(rows, OfSubject, subject);
            && Resolve(rows, subject) == PushAll([], own + RowsOf(rows, OfPublic, "") + RowsOfAll(rows, visits))
            && visits <= PushAll([], Handed(own) + HandedByAll(rows, visits))
  {
    StartInOrder(rows, subject);
    var w := Start(rows, subject);
    RunInOrder(rows, subject, [], w, MAX_DEQUEUES);
    var visits := Visits(rows, w, MAX_DEQUEUES);
    assert [] + visits == visits;
    PushAllFacts(visits, RunWalk(rows, w, MAX_DEQUEUES).queue);
    hide PushAll, RunWalk, Visits, Start, RowsOf, NewRoles;
  }
}
