/** The access-request loop: what is requested, what approval writes, and when the poll sees it. */
module Approval {

  import opened Text
  import opened GrantStore
  import opened GrantParse
  import opened GrantScan
  import opened GrantRoundTrip
  import opened GrantPrintParse
  import GranteeAgreement

  datatype Cap = Read | Write | Create | Drop | Alter | Detach

  function CapPrivileges(cap: Cap): seq<string> {
    match cap
    case Read => ["SELECT"]
    case Write => ["INSERT", "UPDATE", "DELETE"]
    case Create => ["CREATE"]
    case Drop => ["DROP"]
    case Alter => ["ALTER"]
    case Detach => ["DETACH"]
  }

  function CapOf(name: string): Option<Cap> {
    if name == "read" then Some(Read)
    else if name == "write" then Some(Write)
    else if name == "create" then Some(Create)
    else if name == "drop" then Some(Drop)
    else if name == "alter" then Some(Alter)
    else if name == "detach" then Some(Detach)
    else None
  }

  datatype GrantInput = GrantInput(schema: Option<string>, table: Option<string>, caps: seq<string>)

  datatype Group = Group(schema: string, table: string, caps: seq<Cap>)

  datatype Wanted = Wanted(schema: string, table: string, cap: Cap)

  // ---- the request -------------------------------------------------------------------------

  function KnownCaps(names: seq<string>): (caps: seq<Cap>)
    ensures caps == [] <==> forall i :: 0 <= i < |names| ==> CapOf(names[i]).None?
  {
    if names == [] then []
    else
      var rest := KnownCaps(names[1..]);
      assert forall i :: 0 < i < |names| ==> names[i] == names[1..][i - 1];
      match CapOf(names[0]) case Some(cap) => [cap] + rest case None => rest
  }

  /** A missing or empty name means every schema or every table. */
  function NameOrStar(name: Option<string>): string {
    if name.Some? && name.value != "" then name.value else "*"
  }

  function GroupOf(g: GrantInput): Group {
    Group(NameOrStar(g.schema), NameOrStar(g.table), KnownCaps(g.caps))
  }

  /** The inputs with at least one known capability, in order. */
  function GroupsOf(inputs: seq<GrantInput>): seq<Group> {
    if inputs == [] then []
    else
      GroupsOf(inputs[..|inputs| - 1])
      + (if KnownCaps(inputs[|inputs| - 1].caps) == [] then [] else [GroupOf(inputs[|inputs| - 1])])
  }

  /** The name given, or the wildcard when none or an empty one is. */
  predicate NamedOrAll(given: Option<string>, name: string) {
    name == if given == None || given == Some("") then "*" else given.value
  }

  /** The group has the schema and table of the input, and the capabilities named there. */
  ghost predicate FromInput(input: GrantInput, g: Group) {
    && NamedOrAll(input.schema, g.schema) && NamedOrAll(input.table, g.table)
    && forall cap :: cap in g.caps <==> exists c :: c in input.caps && CapOf(c) == Some(cap)
  }

  ghost predicate NamesSome(input: GrantInput) {
    exists c :: c in input.caps && CapOf(c).Some?
  }

  /** The groups in order: each from an input of its own, and every input that names a capability has one. */
  lemma {:induction false} GroupsFrom(inputs: seq<GrantInput>) returns (at: seq<nat>)
    ensures Places(inputs, GroupsOf(inputs), at)
  {
    hide Places;
    at := [];
    if inputs == [] {
      NoPlaces();
    } else {
      var n := |inputs| - 1;
      var front := GroupsFrom(inputs[..n]);
      GroupFrom(inputs[n]);
      at := front + (if KnownCaps(inputs[n].caps) == [] then [] else [n]);
      PlacesGrow(inputs, GroupsOf(inputs[..n]), front, KnownCaps(inputs[n].caps) != []);
    }
  }

  ghost predicate Places(inputs: seq<GrantInput>, groups: seq<Group>, at: seq<nat>) {
    && |at| == |groups| && (forall k, l :: 0 <= k < l < |at| ==> at[k] < at[l])
    && (forall k :: 0 <= k < |at| ==> at[k] < |inputs| && FromInput(inputs[at[k]], groups[k]))
    && (forall i :: 0 <= i < |inputs| && NamesSome(inputs[i]) ==> i in at)
  }

  lemma NoPlaces()
    ensures Places([], [], [])
  {
  }

  lemma PlacesGrow(inputs: seq<GrantInput>, groups: seq<Group>, at: seq<nat>, named: bool)
    requires inputs != [] && Places(inputs[..|inputs| - 1], groups, at)
    requires var last := inputs[|inputs| - 1]; FromInput(last, GroupOf(last)) && (NamesSome(last) <==> named)
    ensures var n := |inputs| - 1;
            Places(inputs, groups + (if named then [GroupOf(inputs[n])] else []), at + (if named then [n] else []))
  {
    hide FromInput, NamesSome, GroupOf;
    var n := |inputs| - 1;
    var more := at + (if named then [n] else []);
    assert forall i :: 0 <= i < n ==> inputs[..n][i] == inputs[i];
    assert named ==> more[|at|] == n;
    assert forall i :: i in at ==> i in more;
  }

  lemma GroupFrom(input: GrantInput)
    ensures FromInput(input, GroupOf(input)) && (NamesSome(input) <==> KnownCaps(input.caps) != [])
  {
    KnownCapsNamed(input.caps);
    hide CapOf, KnownCaps;
    if KnownCaps(input.caps) != [] {
      assert KnownCaps(input.caps)[0] in KnownCaps(input.caps);
    }
  }

  lemma {:induction false} KnownCapsNamed(names: seq<string>)
    ensures forall cap :: cap in KnownCaps(names) <==> exists c :: c in names && CapOf(c) == Some(cap)
  {
    hide CapOf;
    if names != [] {
      KnownCapsNamed(names[1..]);
      assert forall c :: c in names <==> c == names[0] || c in names[1..];
    }
  }

  /** What each capability needs: nothing else is known by name, and no privilege serves two of them. */
  lemma CapabilityNeeds(name: string)
    ensures CapOf("read") == Some(Read) && CapPrivileges(Read) == ["SELECT"]
    ensures CapOf("write") == Some(Write) && CapPrivileges(Write) == ["INSERT", "UPDATE", "DELETE"]
    ensures CapOf("create") == Some(Create) && CapPrivileges(Create) == ["CREATE"]
    ensures CapOf("drop") == Some(Drop) && CapPrivileges(Drop) == ["DROP"]
    ensures CapOf("alter") == Some(Alter) && CapPrivileges(Alter) == ["ALTER"]
    ensures CapOf("detach") == Some(Detach) && CapPrivileges(Detach) == ["DETACH"]
    ensures CapOf(name).Some? <==> name in {"read", "write", "create", "drop", "alter", "detach"}
    ensures forall a, b, p :: p in CapPrivileges(a) && p in CapPrivileges(b) ==> a == b
  {
  }

  /** None stands for the two error texts: nothing asked for, or nothing known among it. */
  method ParseGrants(inputs: seq<GrantInput>) returns (groups: Option<seq<Group>>)
    ensures groups == if GroupsOf(inputs) == [] then None else Some(GroupsOf(inputs))
    ensures groups.Some? ==> forall i :: 0 <= i < |groups.value| ==> groups.value[i].caps != []
  {
    if inputs == [] { return None; }
    var found: seq<Group> := [];
    for i := 0 to |inputs|
      invariant found == GroupsOf(inputs[..i])
      invariant forall k :: 0 <= k < |found| ==> found[k].caps != []
    {
      assert inputs[..i + 1][..i] == inputs[..i];
      var caps := KnownCaps(inputs[i].caps);
      if caps != [] {
        found := found + [Group(NameOrStar(inputs[i].schema), NameOrStar(inputs[i].table), caps)];
      }
    }
    assert inputs[..|inputs|] == inputs;
    groups := if found == [] then None else Some(found);
  }

  // ---- the poll ----------------------------------------------------------------------------

  predicate SchemaOk(o: ObjectRef, schema: string) {
    (o.Table? || o.AllTables?) && (o.schema == "*" || o.schema == schema)
  }

  predicate TableOk(o: ObjectRef, table: string) {
    o.AllTables? || (o.Table? && (o.table == "*" || o.table == table))
  }

  /** An allow statement on an object that takes in the target. */
  predicate Matches(st: Option<Statement>, schema: string, table: string) {
    st.Some? && st.value.ObjectGrant? && Allows(st.value)
    && SchemaOk(st.value.on, schema) && TableOk(st.value.on, table)
  }

  predicate Gives(st: Option<Statement>, schema: string, table: string, p: string) {
    Matches(st, schema, table) && p in st.value.privileges
  }

  predicate Got(sts: seq<Option<Statement>>, schema: string, table: string, p: string) {
    exists i :: 0 <= i < |sts| && Gives(sts[i], schema, table, p)
  }

  /** Every needed privilege is allowed by some statement on the target. */
  predicate Covered(sts: seq<Option<Statement>>, schema: string, table: string, need: seq<string>) {
    forall k :: 0 <= k < |need| ==> Got(sts, schema, table, need[k])
  }

  /** `covered`: the privileges are gathered first, then checked. */
  method CheckCovered(sts: seq<Option<Statement>>, schema: string, table: string, need: seq<string>) returns (ok: bool)
    ensures ok == Covered(sts, schema, table, need)
  {
    var got: set<string> := {};
    for i := 0 to |sts|
      invariant forall p :: p in got <==> Got(sts[..i], schema, table, p)
    {
      GotStep(sts, i, schema, table);
      if Matches(sts[i], schema, table) {
        got := got + (set p | p in sts[i].value.privileges);
      }
    }
    assert sts[..|sts|] == sts;
    for k := 0 to |need|
      invariant forall j :: 0 <= j < k ==> Got(sts, schema, table, need[j])
    {
      if need[k] !in got { return false; }
    }
    ok := true;
  }

  lemma GotStep(sts: seq<Option<Statement>>, i: nat, schema: string, table: string)
    requires i < |sts|
    ensures forall p :: Got(sts[..i + 1], schema, table, p) <==> Got(sts[..i], schema, table, p) || Gives(sts[i], schema, table, p)
  {
    hide Gives;
    assert sts[..i + 1] == sts[..i] + [sts[i]];
    forall p ensures Got(sts[..i + 1], schema, table, p) <==> Got(sts[..i], schema, table, p) || Gives(sts[i], schema, table, p) {
      if Got(sts[..i], schema, table, p) {
        var k :| 0 <= k < i && Gives(sts[..i][k], schema, table, p);
        assert sts[..i + 1][k] == sts[..i][k];
      }
      if Got(sts[..i + 1], schema, table, p) {
        var k :| 0 <= k < i + 1 && Gives(sts[..i + 1][k], schema, table, p);
        assert k < i ==> sts[..i][k] == sts[..i + 1][k];
      }
      assert sts[..i + 1][i] == sts[i];
    }
  }

  /** The statements of a datalake that the poll gets to see: the agent's own, decomposed. */
  function Seen(stmts: seq<string>, agent: string): (sts: seq<Option<Statement>>)
  {
    if stmts == [] then []
    else
      Seen(stmts[..|stmts| - 1], agent)
      + (if DeriveGrantee(stmts[|stmts| - 1]) == Some(Subject(AgentSubject(agent)))
         then [ParseStatement(stmts[|stmts| - 1])] else [])
  }

  function TargetsOf(groups: seq<Group>): seq<Wanted> {
    if groups == [] then []
    else TargetsOf(groups[..|groups| - 1]) + CapTargets(groups[|groups| - 1], |groups[|groups| - 1].caps|)
  }

  /** The targets of a group's first n capabilities. */
  function CapTargets(g: Group, n: nat): seq<Wanted>
    requires n <= |g.caps|
  {
    if n == 0 then [] else CapTargets(g, n - 1) + [Wanted(g.schema, g.table, g.caps[n - 1])]
  }

  predicate TargetCovered(stmts: seq<string>, agent: string, t: Wanted) {
    Covered(Seen(stmts, agent), t.schema, t.table, CapPrivileges(t.cap))
  }

  function MissingTargets(stmts: seq<string>, agent: string, targets: seq<Wanted>): seq<Wanted> {
    if targets == [] then []
    else
      (if TargetCovered(stmts, agent, targets[0]) then [] else [targets[0]]) + MissingTargets(stmts, agent, targets[1..])
  }

  // ---- approval ----------------------------------------------------------------------------

  /** The `on` text the ACL route writes. */
  function ObjRef(schema: string, table: string, allTables: bool): string {
    if allTables || table == "*" then "ALL TABLES IN SCHEMA " + schema else schema + "." + table
  }

  /** One row an approver writes for a target: some privileges, maybe on some columns. */
  datatype Authored = Authored(privileges: seq<string>, columns: Option<seq<string>>)

  function RowFor(action: Action, a: Authored, schema: string, table: string, agent: string): string {
    ObjectStatement(action, a.privileges, a.columns, ObjRef(schema, table, false), Subject(AgentSubject(agent)))
  }

  function StatementFor(a: Authored, schema: string, table: string, agent: string): string {
    RowFor(Grant, a, schema, table, agent)
  }

  function ObjectOf(schema: string, table: string): ObjectRef {
    if table == "*" then AllTables(schema) else Table(schema, table)
  }

  /** Privileges by name, none of them the word ON, and columns by name, none behind the first
      starting with ON. */
  ghost predicate WellFormed(a: Authored) {
    && a.privileges != [] && PrivilegeNames(a.privileges)
    && (forall i :: 0 <= i < |a.privileges| ==> UpperAll(a.privileges[i]) != "ON")
    && (HasColumns(a.columns) ==> ColumnNames(a.columns.value)) && !LaterColumnOn(a.columns)
  }

  ghost predicate NameOrAll(name: string) {
    name == "*" || Token(PartChar, name)
  }

  /** Agent ids as the grantee reader accepts them. */
  ghost predicate AgentId(agent: string) {
    Token(NameChar, agent)
  }

  predicate ConnectorSchema(schema: string) {
    UpperAll(schema) == "TO" || UpperAll(schema) == "FROM"
  }

  /** The shape of target whose approval the poll can see. */
  predicate Closable(schema: string, table: string) {
    schema != "*" && !(table == "*" && ConnectorSchema(schema))
  }

  lemma SubjectFacts(agent: string)
    requires AgentId(agent)
    ensures NamedGrantee(Subject(AgentSubject(agent))) && '$' !in AgentSubject(agent)
    ensures !SubjectIsPublic(Subject(AgentSubject(agent)))
  {
    var s := AgentSubject(agent);
    forall i | 0 <= i < |s| ensures Has(IdentChar, s[i]) && s[i] != '$' {
      assert i >= 6 ==> Has(NameChar, agent[i - 6]) && s[i] == agent[i - 6];
    }
    assert UpperAll(s)[0] == 'A';
  }

  /** What the poll sees of one printed row of the agent, whatever its action. */
  lemma PrintedRow(action: Action, a: Authored, schema: string, table: string, agent: string)
    requires WellFormed(a) && Token(PartChar, schema) && NameOrAll(table) && AgentId(agent)
    ensures var g := Subject(AgentSubject(agent));
            var stmt := RowFor(action, a, schema, table, agent);
            if table == "*" && ConnectorSchema(schema) then ParseStatement(stmt).None?
            else && ParseStatement(stmt) == Some(ObjectGrant(action, UpperNames(a.privileges), Shown(a.columns),
                                                             ObjectOf(schema, table), g))
                 && DeriveGrantee(stmt) == Some(g)
  {
    var o, g := ObjectOf(schema, table), Subject(AgentSubject(agent));
    SubjectFacts(agent);
    RefIsText(schema, table);
    NeverOn(a);
    hide ParseStatement, DeriveGrantee, ObjectStatement, LaterOn, LaterColumnOn, Token, PrivilegeNames, ColumnNames, HasColumns,
         NamedGrantee;
    PrintedResult(action, a.privileges, a.columns, o, g);
    if !(table == "*" && ConnectorSchema(schema)) {
      assert GranteeAgreement.NoDollar(g);
      GranteeAgreement.ParsersAgree(RowFor(action, a, schema, table, agent));
    }
  }

  lemma ApprovedRow(a: Authored, schema: string, table: string, agent: string)
    requires WellFormed(a) && Token(PartChar, schema) && NameOrAll(table) && AgentId(agent)
    ensures var st := ParseStatement(StatementFor(a, schema, table, agent));
            if table == "*" && ConnectorSchema(schema) then st.None?
            else && st == Some(ObjectGrant(Grant, UpperNames(a.privileges), Shown(a.columns), ObjectOf(schema, table),
                                           Subject(AgentSubject(agent))))
                 && DeriveGrantee(StatementFor(a, schema, table, agent)) == Some(Subject(AgentSubject(agent)))
  {
    hide ParseStatement, DeriveGrantee, RowFor, WellFormed, Token, AgentId;
    PrintedRow(Grant, a, schema, table, agent);
  }

  lemma RefIsText(schema: string, table: string)
    ensures ObjRef(schema, table, false) == OnText(ObjectOf(schema, table))
  {
    assert schema + "." + table == schema + ("." + table);
  }

  lemma NeverOn(a: Authored)
    requires WellFormed(a)
    ensures !LaterOn(a.privileges, a.columns)
  {
  }

  /** An object the parser returns never has the wildcard for a schema. */
  lemma SchemaIsPart(raw: string)
    ensures var o := ParseObject(raw); o.Table? || o.AllTables? ==> o.schema != "*"
  {
    var t := Trim(raw);
    PartIsNoStar(t);
    AllTablesNoStar(t);
    hide Trim, AllTablesSchema, ObjectPart;
  }

  lemma PartIsNoStar(t: string)
    ensures ObjectPart(t).Some? ==> ObjectPart(t).value.0 != "*"
  {
    if ObjectPart(t).Some? {
      var name := ObjectPart(t).value.0;
      assert name != [] && Has(PartChar, name[0]);
    }
  }

  lemma AllTablesNoStar(t: string)
    ensures AllTablesSchema(t).Some? ==> AllTablesSchema(t).value != "*"
  {
    hide ObjectPart, AfterKeyword;
    forall u ensures ObjectPart(u).Some? ==> ObjectPart(u).value.0 != "*" {
      PartIsNoStar(u);
    }
  }

  lemma StatementSchema(sql: string)
    ensures var st := ParseStatement(sql);
            st.Some? && st.value.ObjectGrant? && (st.value.on.Table? || st.value.on.AllTables?) ==> st.value.on.schema != "*"
  {
    hide Normalize, LeadingAction, MatchBody, ParseObject, ParsePrivileges, ParseGrantee, HasOn, MemberGrant, MemberRevoke,
         Connector, Keyword;
    var s := Normalize(sql);
    KeywordFits(s);
    if LeadingAction(s).Some? && MatchBody(s[|Keyword(LeadingAction(s).value)|..]).Some? {
      SchemaIsPart(MatchBody(s[|Keyword(LeadingAction(s).value)|..]).value.clause.on);
    }
  }

  lemma KeywordFits(s: string)
    ensures LeadingAction(s).Some? ==> |Keyword(LeadingAction(s).value)| <= |s|
  {
  }

  lemma {:induction false} SeenIsParsed(stmts: seq<string>, agent: string, i: nat) returns (k: nat)
    requires i < |Seen(stmts, agent)|
    ensures k < |stmts| && Seen(stmts, agent)[i] == ParseStatement(stmts[k])
    ensures DeriveGrantee(stmts[k]) == Some(Subject(AgentSubject(agent)))
  {
    hide ParseStatement, DeriveGrantee;
    var n := |stmts| - 1;
    if i < |Seen(stmts[..n], agent)| {
      k := SeenIsParsed(stmts[..n], agent, i);
    } else {
      k := n;
    }
  }

  lemma {:induction false} ParsedIsSeen(stmts: seq<string>, agent: string, k: nat) returns (i: nat)
    requires k < |stmts| && DeriveGrantee(stmts[k]) == Some(Subject(AgentSubject(agent)))
    ensures i < |Seen(stmts, agent)| && Seen(stmts, agent)[i] == ParseStatement(stmts[k])
  {
    hide ParseStatement, DeriveGrantee;
    var n := |stmts| - 1;
    if k < n {
      i := ParsedIsSeen(stmts[..n], agent, k);
    } else {
      i := |Seen(stmts[..n], agent)|;
    }
  }

  /** No statements whatever cover a request for every schema. */
  lemma StarNeverCovered(stmts: seq<string>, agent: string, table: string, need: seq<string>)
    requires need != []
    ensures !Covered(Seen(stmts, agent), "*", table, need)
  {
    hide Seen, ParseStatement, DeriveGrantee, Allows, TableOk;
    var sts := Seen(stmts, agent);
    forall i | 0 <= i < |sts| ensures !Matches(sts[i], "*", table) {
      var k := SeenIsParsed(stmts, agent, i);
      StatementSchema(stmts[k]);
    }
    assert !Got(sts, "*", table, need[0]);
  }

  /** Main result: once the agent's rows include GRANTs for the target that name every needed
      privilege, in any order, split into any rows, amid any other statements, the target is covered. */
  lemma ApprovalCloses(stmts: seq<string>, agent: string, schema: string, table: string, need: seq<string>)
    requires AgentId(agent) && Token(PartChar, schema) && NameOrAll(table) && Closable(schema, table)
    requires Approved(stmts, agent, schema, table, need)
    ensures Covered(Seen(stmts, agent), schema, table, need)
  {
    hide Seen, ParseStatement, DeriveGrantee, StatementFor, WellFormed, Token, Closable;
    forall k | 0 <= k < |need| ensures Got(Seen(stmts, agent), schema, table, need[k]) {
      var a, j :| WellFormed(a) && 0 <= j < |stmts| && stmts[j] == StatementFor(a, schema, table, agent)
                  && need[k] in UpperNames(a.privileges);
      ClosableFacts(schema, table);
      ApprovedRow(a, schema, table, agent);
      var i := ParsedIsSeen(stmts, agent, j);
      assert Gives(Seen(stmts, agent)[i], schema, table, need[k]);
    }
  }

  lemma ClosableFacts(schema: string, table: string)
    requires Closable(schema, table)
    ensures !(table == "*" && ConnectorSchema(schema))
  {
  }

  /** Each needed privilege is named by some approved row of the target. */
  ghost predicate Approved(stmts: seq<string>, agent: string, schema: string, table: string, need: seq<string>) {
    forall k :: 0 <= k < |need| ==>
      exists a, j :: WellFormed(a) && 0 <= j < |stmts| && stmts[j] == StatementFor(a, schema, table, agent)
                     && need[k] in UpperNames(a.privileges)
  }

  /** Nothing but approved rows of the target. */
  ghost predicate OnlyApproved(stmts: seq<string>, agent: string, schema: string, table: string) {
    forall j :: 0 <= j < |stmts| ==> exists a :: WellFormed(a) && stmts[j] == StatementFor(a, schema, table, agent)
  }

  /** Exactly when approving a target satisfies the poll: it names a schema, and is not all tables of
      a schema called to or from. */
  lemma ApprovalClosesExactlyWhen(stmts: seq<string>, agent: string, schema: string, table: string, need: seq<string>)
    requires AgentId(agent) && NameOrAll(schema) && NameOrAll(table) && need != []
    requires Approved(stmts, agent, schema, table, need) && OnlyApproved(stmts, agent, schema, table)
    ensures Covered(Seen(stmts, agent), schema, table, need) <==> Closable(schema, table)
  {
    hide Seen, ParseStatement, DeriveGrantee, StatementFor, WellFormed, Covered, Token, Approved;
    if schema == "*" {
      StarNeverCovered(stmts, agent, table, need);
    } else if Closable(schema, table) {
      ApprovalCloses(stmts, agent, schema, table, need);
    } else {
      NothingParsed(stmts, agent, schema, table, need);
    }
  }

  lemma NothingParsed(stmts: seq<string>, agent: string, schema: string, table: string, need: seq<string>)
    requires AgentId(agent) && Token(PartChar, schema) && NameOrAll(table) && need != []
    requires OnlyApproved(stmts, agent, schema, table) && table == "*" && ConnectorSchema(schema)
    ensures !Covered(Seen(stmts, agent), schema, table, need)
  {
    hide Seen, ParseStatement, DeriveGrantee, StatementFor, WellFormed, Token;
    var sts := Seen(stmts, agent);
    forall i | 0 <= i < |sts| ensures !Matches(sts[i], schema, table) {
      var k := SeenIsParsed(stmts, agent, i);
      var a :| WellFormed(a) && stmts[k] == StatementFor(a, schema, table, agent);
      ApprovedRow(a, schema, table, agent);
    }
    assert !Got(sts, schema, table, need[0]);
  }

  /** Further rows, REVOKEs included, never take coverage away. */
  lemma CoverageOnlyGrows(stmts: seq<string>, more: seq<string>, agent: string, schema: string, table: string, need: seq<string>)
    requires forall k :: 0 <= k < |stmts| ==> stmts[k] in more
    requires Covered(Seen(stmts, agent), schema, table, need)
    ensures Covered(Seen(more, agent), schema, table, need)
  {
    hide Seen, ParseStatement, DeriveGrantee, Gives;
    var sts := Seen(stmts, agent);
    forall n | 0 <= n < |need| ensures Got(Seen(more, agent), schema, table, need[n]) {
      assert Got(sts, schema, table, need[n]);
      var i :| 0 <= i < |sts| && Gives(sts[i], schema, table, need[n]);
      var k := SeenIsParsed(stmts, agent, i);
      var j :| 0 <= j < |more| && more[j] == stmts[k];
      var i' := ParsedIsSeen(more, agent, j);
    }
  }

  /** The whole request: when every group is approved, nothing is missing. */
  lemma RequestCloses(stmts: seq<string>, agent: string, groups: seq<Group>)
    requires AgentId(agent)
    requires forall i :: 0 <= i < |groups| ==>
               Token(PartChar, groups[i].schema) && NameOrAll(groups[i].table) && Closable(groups[i].schema, groups[i].table)
    requires forall i, c :: 0 <= i < |groups| && c in groups[i].caps ==>
               Approved(stmts, agent, groups[i].schema, groups[i].table, CapPrivileges(c))
    ensures MissingTargets(stmts, agent, TargetsOf(groups)) == []
  {
    hide Seen, Approved, Covered, Closable, Token, NameOrAll, MissingTargets, TargetsOf;
    var missing := MissingTargets(stmts, agent, TargetsOf(groups));
    if missing != [] {
      var t := missing[0];
      MissingExactly(stmts, agent, TargetsOf(groups), t);
      TargetsExactly(groups, t);
      ApprovalCloses(stmts, agent, t.schema, t.table, CapPrivileges(t.cap));
    }
  }

  /** The targets are the capabilities of the groups on their schemas and tables. */
  lemma {:induction false} TargetsExactly(groups: seq<Group>, t: Wanted)
    ensures t in TargetsOf(groups)
       <==> exists i :: 0 <= i < |groups| && t.schema == groups[i].schema && t.table == groups[i].table && t.cap in groups[i].caps
  {
    if groups != [] {
      var n := |groups| - 1;
      TargetsExactly(groups[..n], t);
      CapTargetsExactly(groups[n], |groups[n].caps|, t);
      assert groups[n].caps[..|groups[n].caps|] == groups[n].caps;
      assert forall i :: 0 <= i < n ==> groups[..n][i] == groups[i];
    }
  }

  lemma {:induction false} CapTargetsExactly(g: Group, n: nat, t: Wanted)
    requires n <= |g.caps|
    ensures t in CapTargets(g, n) <==> t.schema == g.schema && t.table == g.table && t.cap in g.caps[..n]
  {
    if n > 0 {
      CapTargetsExactly(g, n - 1, t);
      assert g.caps[..n] == g.caps[..n - 1] + [g.caps[n - 1]];
    }
  }

  /** Missing are the targets that are not covered. */
  lemma {:induction false} MissingExactly(stmts: seq<string>, agent: string, targets: seq<Wanted>, t: Wanted)
    ensures t in MissingTargets(stmts, agent, targets) <==> t in targets && !TargetCovered(stmts, agent, t)
  {
    hide TargetCovered;
    if targets != [] {
      MissingExactly(stmts, agent, targets[1..], t);
    }
  }

  /** Main result of the poll: over any history of written rows, a requested capability is still missing
      exactly when some privilege it needs is named by no GRANT and no REVOKE written for the agent on that
      schema, and that table or all of its tables. */
  lemma StillMissing(rows: seq<Row>, stmts: seq<string>, agent: string, groups: seq<Group>, t: Wanted)
    requires WrittenRows(rows, stmts)
    ensures t in MissingTargets(stmts, agent, TargetsOf(groups))
       <==> && (exists i :: 0 <= i < |groups| && t.schema == groups[i].schema && t.table == groups[i].table && t.cap in groups[i].caps)
            && (exists k :: 0 <= k < |CapPrivileges(t.cap)|
                  && !SomeRowNames(rows, Grant, agent, t.schema, t.table, CapPrivileges(t.cap)[k])
                  && !SomeRowNames(rows, Revoke, agent, t.schema, t.table, CapPrivileges(t.cap)[k]))
  {
    hide Seen, Covered, WrittenRows, SomeRowNames, CapPrivileges, TargetsOf, MissingTargets;
    TargetsExactly(groups, t);
    MissingExactly(stmts, agent, TargetsOf(groups), t);
    WrittenCovers(rows, stmts, agent, t.schema, t.table, CapPrivileges(t.cap));
  }

  // ---- coverage and the action -------------------------------------------------------------

  predicate GivesBy(action: Action, st: Option<Statement>, schema: string, table: string, p: string) {
    Gives(st, schema, table, p) && st.value.action == action
  }

  /** Some statement with this action names the privilege on the target. */
  predicate NamedBy(action: Action, sts: seq<Option<Statement>>, schema: string, table: string, p: string) {
    exists i :: 0 <= i < |sts| && GivesBy(action, sts[i], schema, table, p)
  }

  /** The answer the GRANT rows alone would give. */
  predicate CoveredByGrants(sts: seq<Option<Statement>>, schema: string, table: string, need: seq<string>) {
    forall k :: 0 <= k < |need| ==> NamedBy(Grant, sts, schema, table, need[k])
  }

  /** The poll does not look at the action: a privilege counts when a GRANT or a REVOKE names it. */
  lemma GotByAction(sts: seq<Option<Statement>>, schema: string, table: string, p: string)
    ensures Got(sts, schema, table, p)
       <==> NamedBy(Grant, sts, schema, table, p) || NamedBy(Revoke, sts, schema, table, p)
  {
    hide SchemaOk, TableOk;
    if Got(sts, schema, table, p) {
      var i :| 0 <= i < |sts| && Gives(sts[i], schema, table, p);
      assert GivesBy(Grant, sts[i], schema, table, p) || GivesBy(Revoke, sts[i], schema, table, p);
    }
  }

  /** Main result: whatever statements are stored, the poll answers as the GRANTs alone would exactly
      when some needed privilege is named by no row at all, or each one that a REVOKE names is named
      by a GRANT too. */
  lemma CoverageIsHonestExactlyWhen(stmts: seq<string>, agent: string, schema: string, table: string, need: seq<string>)
    ensures var sts := Seen(stmts, agent);
            ((Covered(sts, schema, table, need) == CoveredByGrants(sts, schema, table, need))
             <==> || (exists k :: 0 <= k < |need| && !NamedBy(Grant, sts, schema, table, need[k])
                                  && !NamedBy(Revoke, sts, schema, table, need[k]))
                  || (forall k :: 0 <= k < |need| && NamedBy(Revoke, sts, schema, table, need[k])
                                  ==> NamedBy(Grant, sts, schema, table, need[k])))
  {
    hide Seen, Got, NamedBy;
    var sts := Seen(stmts, agent);
    forall k | 0 <= k < |need|
      ensures Got(sts, schema, table, need[k])
         <==> NamedBy(Grant, sts, schema, table, need[k]) || NamedBy(Revoke, sts, schema, table, need[k])
    {
      GotByAction(sts, schema, table, need[k]);
    }
  }

  // ---- coverage and access -----------------------------------------------------------------

  /** A statement of this action names the privilege on the target. */
  predicate Names(action: Action, st: Option<Statement>, schema: string, table: string, p: string) {
    && st.Some? && st.value.ObjectGrant? && st.value.action == action
    && SchemaOk(st.value.on, schema) && TableOk(st.value.on, table) && p in st.value.privileges
  }

  /** It does so for the whole table. */
  predicate NamesWhole(action: Action, st: Option<Statement>, schema: string, table: string, p: string) {
    Names(action, st, schema, table, p) && st.value.columns.None?
  }

  datatype Access = Access(granted: bool, denied: bool)

  /** What the rows leave of one privilege on a target, replayed in order: a GRANT on some columns adds
      nothing, a REVOKE or a DENY of some columns already counts, an UNDENY of some columns does not. */
  function AccessAfter(sts: seq<Option<Statement>>, schema: string, table: string, p: string): Access {
    if sts == [] then Access(false, false)
    else
      var st := sts[|sts| - 1];
      var before := AccessAfter(sts[..|sts| - 1], schema, table, p);
      if NamesWhole(Grant, st, schema, table, p) then before.(granted := true)
      else if Names(Revoke, st, schema, table, p) then before.(granted := false)
      else if Names(Deny, st, schema, table, p) then before.(denied := true)
      else if NamesWhole(Undeny, st, schema, table, p) then before.(denied := false)
      else before
  }

  predicate HasAccess(sts: seq<Option<Statement>>, schema: string, table: string, need: seq<string>) {
    forall k :: 0 <= k < |need| ==> AccessAfter(sts, schema, table, need[k]) == Access(true, false)
  }

  /** A GRANT of the whole table that no later REVOKE names. */
  predicate GrantStands(sts: seq<Option<Statement>>, schema: string, table: string, p: string) {
    exists i :: 0 <= i < |sts| && NamesWhole(Grant, sts[i], schema, table, p)
      && forall j :: i < j < |sts| ==> !Names(Revoke, sts[j], schema, table, p)
  }

  /** A DENY that no later UNDENY of the whole table names. */
  predicate DenyStands(sts: seq<Option<Statement>>, schema: string, table: string, p: string) {
    exists i :: 0 <= i < |sts| && Names(Deny, sts[i], schema, table, p)
      && forall j :: i < j < |sts| ==> !NamesWhole(Undeny, sts[j], schema, table, p)
  }

  /** The replay by its latest rows. */
  lemma {:induction false} AccessIsLatest(sts: seq<Option<Statement>>, schema: string, table: string, p: string)
    ensures AccessAfter(sts, schema, table, p) == Access(GrantStands(sts, schema, table, p), DenyStands(sts, schema, table, p))
  {
    hide SchemaOk, TableOk;
    if sts != [] {
      var n := |sts| - 1;
      AccessIsLatest(sts[..n], schema, table, p);
      GrantStandsStep(sts, schema, table, p);
      DenyStandsStep(sts, schema, table, p);
      hide GrantStands, DenyStands;
    }
  }

  lemma GrantStandsStep(sts: seq<Option<Statement>>, schema: string, table: string, p: string)
    requires sts != []
    ensures var n := |sts| - 1;
            (GrantStands(sts, schema, table, p)
             <==> NamesWhole(Grant, sts[n], schema, table, p)
                  || (GrantStands(sts[..n], schema, table, p) && !Names(Revoke, sts[n], schema, table, p)))
  {
    hide Names, NamesWhole;
    var n := |sts| - 1;
    var before := sts[..n];
    if GrantStands(before, schema, table, p) && !Names(Revoke, sts[n], schema, table, p) {
      var i :| 0 <= i < n && NamesWhole(Grant, before[i], schema, table, p)
               && forall j :: i < j < n ==> !Names(Revoke, before[j], schema, table, p);
      assert forall j :: i < j < n ==> before[j] == sts[j];
      assert NamesWhole(Grant, sts[i], schema, table, p);
    }
    if GrantStands(sts, schema, table, p) && !NamesWhole(Grant, sts[n], schema, table, p) {
      var i :| 0 <= i <= n && NamesWhole(Grant, sts[i], schema, table, p)
               && forall j :: i < j <= n ==> !Names(Revoke, sts[j], schema, table, p);
      assert NamesWhole(Grant, before[i], schema, table, p);
    }
  }

  lemma DenyStandsStep(sts: seq<Option<Statement>>, schema: string, table: string, p: string)
    requires sts != []
    ensures var n := |sts| - 1;
            (DenyStands(sts, schema, table, p)
             <==> Names(Deny, sts[n], schema, table, p)
                  || (DenyStands(sts[..n], schema, table, p) && !NamesWhole(Undeny, sts[n], schema, table, p)))
  {
    hide Names, NamesWhole;
    var n := |sts| - 1;
    var before := sts[..n];
    if DenyStands(before, schema, table, p) && !NamesWhole(Undeny, sts[n], schema, table, p) {
      var i :| 0 <= i < n && Names(Deny, before[i], schema, table, p)
               && forall j :: i < j < n ==> !NamesWhole(Undeny, before[j], schema, table, p);
      assert forall j :: i < j < n ==> before[j] == sts[j];
      assert Names(Deny, sts[i], schema, table, p);
    }
    if DenyStands(sts, schema, table, p) && !Names(Deny, sts[n], schema, table, p) {
      var i :| 0 <= i <= n && Names(Deny, sts[i], schema, table, p)
               && forall j :: i < j <= n ==> !NamesWhole(Undeny, sts[j], schema, table, p);
      assert Names(Deny, before[i], schema, table, p);
    }
  }

  lemma StandingIsGot(sts: seq<Option<Statement>>, schema: string, table: string, p: string)
    requires GrantStands(sts, schema, table, p)
    ensures Got(sts, schema, table, p)
  {
    var i :| 0 <= i < |sts| && NamesWhole(Grant, sts[i], schema, table, p);
    assert Gives(sts[i], schema, table, p);
  }

  /** Main result: whatever statements are stored, the poll answers as the replayed rows do exactly when
      some needed privilege is named by no GRANT or REVOKE, or each of them has a GRANT of the whole
      table behind which no REVOKE names it, and every DENY of it is followed by such an UNDENY. */
  lemma PollMeansAccessExactlyWhen(stmts: seq<string>, agent: string, schema: string, table: string, need: seq<string>)
    ensures var sts := Seen(stmts, agent);
            ((Covered(sts, schema, table, need) == HasAccess(sts, schema, table, need))
             <==> || (exists k :: 0 <= k < |need| && !NamedBy(Grant, sts, schema, table, need[k])
                                  && !NamedBy(Revoke, sts, schema, table, need[k]))
                  || (forall k :: 0 <= k < |need| ==> GrantStands(sts, schema, table, need[k])
                                                      && !DenyStands(sts, schema, table, need[k])))
  {
    hide Seen, Got, NamedBy, AccessAfter, GrantStands, DenyStands;
    var sts := Seen(stmts, agent);
    forall k | 0 <= k < |need|
      ensures Got(sts, schema, table, need[k])
         <==> NamedBy(Grant, sts, schema, table, need[k]) || NamedBy(Revoke, sts, schema, table, need[k])
      ensures AccessAfter(sts, schema, table, need[k])
           == Access(GrantStands(sts, schema, table, need[k]), DenyStands(sts, schema, table, need[k]))
      ensures GrantStands(sts, schema, table, need[k]) ==> Got(sts, schema, table, need[k])
    {
      GotByAction(sts, schema, table, need[k]);
      AccessIsLatest(sts, schema, table, need[k]);
      if GrantStands(sts, schema, table, need[k]) {
        StandingIsGot(sts, schema, table, need[k]);
      }
    }
  }

  // ---- written rows ------------------------------------------------------------------------

  /** One row as the ACL route stores it: its action, what it names, and the target and agent it is written for. */
  datatype Row = Row(action: Action, authored: Authored, schema: string, table: string, agent: string)

  ghost predicate WrittenRows(rows: seq<Row>, stmts: seq<string>) {
    |rows| == |stmts| && forall j :: 0 <= j < |rows| ==>
      && WellFormed(rows[j].authored) && NameOrAll(rows[j].schema) && NameOrAll(rows[j].table) && AgentId(rows[j].agent)
      && stmts[j] == RowFor(rows[j].action, rows[j].authored, rows[j].schema, rows[j].table, rows[j].agent)
  }

  /** The row is written for the agent, on this schema, on this table or on all of its tables, and names the
      privilege. No row is on every schema, nor on all tables of one called to or from. */
  predicate RowNames(row: Row, action: Action, agent: string, schema: string, table: string, p: string) {
    && row.action == action && row.agent == agent && p in UpperNames(row.authored.privileges)
    && row.schema == schema && schema != "*"
    && (row.table == table || row.table == "*") && !(row.table == "*" && ConnectorSchema(schema))
  }

  predicate SomeRowNames(rows: seq<Row>, action: Action, agent: string, schema: string, table: string, p: string) {
    exists j :: 0 <= j < |rows| && RowNames(rows[j], action, agent, schema, table, p)
  }

  /** The `on` text of a row for every schema names no schema at all. */
  lemma StarIsRaw(table: string)
    requires NameOrAll(table)
    ensures var t := ObjRef("*", table, false); RawText(t) && t != "" && OnText(Raw(t)) == t
  {
    var t := ObjRef("*", table, false);
    if table == "*" {
      assert t == "ALL TABLES IN SCHEMA *";
      AllSchemasIsRaw();
    } else {
      assert t == "*." + table;
      StarTableIsRaw(table);
    }
  }

  lemma AllSchemasIsRaw()
    ensures RawText("ALL TABLES IN SCHEMA *")
  {
    hide *;
    AllSchemasParsed();
    AllSchemasGap();
    RawTextIs("ALL TABLES IN SCHEMA *");
  }

  lemma RawTextIs(t: string)
    requires t != [] && !IsSpace(t[0]) && !IsSpace(t[|t| - 1]) && !GapTarget(t) && ParseObject(t) == Raw(t)
    ensures RawText(t)
  {
    hide GapTarget, ParseObject, IsSpace;
  }

  lemma AllSchemasGap()
    ensures var t := "ALL TABLES IN SCHEMA *"; !GapTarget(t) && t != [] && !IsSpace(t[0]) && !IsSpace(t[|t| - 1])
  {
    var t := "ALL TABLES IN SCHEMA *";
    forall n: nat ensures !GapTargetAt(t, n) {
      if n < |t| && IsSpace(t[n]) {
        assert n == 3 || n == 10 || n == 13 || n == 20;
      }
    }
  }

  lemma AllSchemasParsed()
    ensures ParseObject("ALL TABLES IN SCHEMA *") == Raw("ALL TABLES IN SCHEMA *")
  {
    hide *;
    var t := "ALL TABLES IN SCHEMA *";
    var t3 := "SCHEMA" + (" " + "*");
    var t2 := "IN" + (" " + t3);
    var t1 := "TABLES" + (" " + t2);
    assert t == "ALL" + (" " + t1);
    StarIsNoPart();
    AllSchemasTrims(t);
    AllTablesKeywords("*", t, t1, t2, t3);
    NoSchemaNamed("*", t, t1, t2, t3);
    FirstPart(t);
    NoDot(t);
  }

  lemma AllSchemasTrims(t: string)
    requires t == "ALL TABLES IN SCHEMA *"
    ensures Trim(t) == t
  {
    assert !IsSpace('A') && !IsSpace('*');
    hide Trim, IsSpace;
    TrimId(t);
  }

  lemma StarIsNoPart()
    ensures !IsSpace('*') && ObjectPart("*").None?
  {
  }

  lemma NoSchemaNamed(s: string, t0: string, t1: string, t2: string, t3: string)
    requires AfterKeyword(t0, "ALL") == Some(t1) && AfterKeyword(t1, "TABLES") == Some(t2)
    requires AfterKeyword(t2, "IN") == Some(t3) && AfterKeyword(t3, "SCHEMA") == Some(s) && ObjectPart(s).None?
    ensures AllTablesSchema(t0).None?
  {
    hide AfterKeyword, ObjectPart;
  }

  lemma NoDot(t: string)
    requires Trim(t) == t && AllTablesSchema(t).None? && |t| > 3 && t[3] == ' ' && ObjectPart(t) == Some(("ALL", t[3..]))
    ensures ParseObject(t) == Raw(t)
  {
    hide Trim, AllTablesSchema, ObjectPart;
  }

  lemma FirstPart(t: string)
    requires t == "ALL TABLES IN SCHEMA *"
    ensures ObjectPart(t) == Some(("ALL", t[3..]))
  {
    RunIs(t, PartChar, 3);
    assert t[..3] == "ALL";
  }

  lemma {:induction false} RunIs(t: string, cls: CharClass, n: nat)
    requires n < |t| && (forall i :: 0 <= i < n ==> Has(cls, t[i])) && !Has(cls, t[n])
    ensures Run(t, cls) == n
  {
    hide Has;
  }

  lemma StarTableIsRaw(table: string)
    requires Token(PartChar, table)
    ensures RawText("*." + table)
  {
    hide *;
    var t := "*." + table;
    SpacelessStar(table);
    SpacelessParsed(t);
    SpacelessGap(t);
    RawTextIs(t);
  }

  lemma SpacelessStar(table: string)
    requires Token(PartChar, table)
    ensures forall i :: 0 <= i < |"*." + table| ==> !IsSpace(("*." + table)[i])
  {
    var t := "*." + table;
    forall i | 0 <= i < |t| ensures !IsSpace(t[i]) {
      assert i >= 2 ==> t[i] == table[i - 2] && Has(PartChar, table[i - 2]);
    }
  }

  lemma SpacelessGap(t: string)
    requires forall i :: 0 <= i < |t| ==> !IsSpace(t[i])
    ensures !GapTarget(t)
  {
    hide IsSpace;
  }

  lemma SpacelessParsed(t: string)
    requires t != [] && t[0] == '*' && forall i :: 0 <= i < |t| ==> !IsSpace(t[i])
    ensures ParseObject(t) == Raw(t)
  {
    TrimId(t);
    assert AfterKeyword(t, "ALL").None? && ObjectPart(t).None?;
    hide AfterKeyword, ObjectPart, Trim, IsSpace;
  }

  /** A row for every schema is read as raw text, never as a schema or a table. */
  lemma StarRow(row: Row)
    requires WellFormed(row.authored) && NameOrAll(row.table) && AgentId(row.agent) && row.schema == "*"
    ensures var st := ParseStatement(RowFor(row.action, row.authored, "*", row.table, row.agent));
            st.Some? && st.value.ObjectGrant? && st.value.on.Raw?
  {
    var o, g := Raw(ObjRef("*", row.table, false)), Subject(AgentSubject(row.agent));
    SubjectFacts(row.agent);
    StarIsRaw(row.table);
    NeverOn(row.authored);
    hide ParseStatement, ObjectStatement, LaterOn, LaterColumnOn, RawText, PrivilegeNames, ColumnNames, HasColumns, NamedGrantee, ObjRef;
    PrintedResult(row.action, row.authored.privileges, row.authored.columns, o, g);
  }

  /** What one row means to a poll for an agent and a target. */
  lemma RowGives(row: Row, stmt: string, action: Action, agent: string, schema: string, table: string, p: string)
    requires WellFormed(row.authored) && NameOrAll(row.schema) && NameOrAll(row.table) && AgentId(row.agent)
    requires stmt == RowFor(row.action, row.authored, row.schema, row.table, row.agent) && (action.Grant? || action.Revoke?)
    ensures DeriveGrantee(stmt) == Some(Subject(AgentSubject(agent))) && GivesBy(action, ParseStatement(stmt), schema, table, p)
       <==> RowNames(row, action, agent, schema, table, p)
  {
    AgentsDiffer(row.agent, agent);
    hide ParseStatement, DeriveGrantee, RowFor, WellFormed, UpperNames, AgentSubject;
    if row.schema == "*" {
      StarRow(row);
    } else {
      PrintedRow(row.action, row.authored, row.schema, row.table, row.agent);
      NoStarPart(row.schema);
      NoStarPart(row.table);
    }
  }

  lemma AgentsDiffer(a: string, b: string)
    ensures AgentSubject(a) == AgentSubject(b) <==> a == b
  {
    assert AgentSubject(a)[6..] == a && AgentSubject(b)[6..] == b;
  }

  lemma NoStarPart(name: string)
    ensures Token(PartChar, name) ==> name != "*"
  {
    if Token(PartChar, name) {
      assert Has(PartChar, name[0]);
    }
  }

  /** Main result: over any history of rows written for any agents and targets, a privilege is seen to be
      named on a target exactly when one of them is written for this agent, on this schema, on this table
      or all of its tables, and names it. */
  lemma WrittenIsNamed(rows: seq<Row>, stmts: seq<string>, action: Action, agent: string, schema: string, table: string, p: string)
    requires WrittenRows(rows, stmts) && (action.Grant? || action.Revoke?)
    ensures NamedBy(action, Seen(stmts, agent), schema, table, p) <==> SomeRowNames(rows, action, agent, schema, table, p)
  {
    hide Seen, ParseStatement, DeriveGrantee, RowFor, WellFormed, RowNames, GivesBy, NameOrAll, AgentId;
    var sts := Seen(stmts, agent);
    if NamedBy(action, sts, schema, table, p) {
      var i :| 0 <= i < |sts| && GivesBy(action, sts[i], schema, table, p);
      var j := SeenIsParsed(stmts, agent, i);
      RowGives(rows[j], stmts[j], action, agent, schema, table, p);
    }
    if SomeRowNames(rows, action, agent, schema, table, p) {
      var j :| 0 <= j < |rows| && RowNames(rows[j], action, agent, schema, table, p);
      RowGives(rows[j], stmts[j], action, agent, schema, table, p);
      var i := ParsedIsSeen(stmts, agent, j);
      assert GivesBy(action, sts[i], schema, table, p);
    }
  }

  /** Main result: the poll reports a target as covered exactly when every needed privilege is named by
      a GRANT or a REVOKE written for the agent on that schema, and that table or all of its tables. */
  lemma WrittenCovers(rows: seq<Row>, stmts: seq<string>, agent: string, schema: string, table: string, need: seq<string>)
    requires WrittenRows(rows, stmts)
    ensures Covered(Seen(stmts, agent), schema, table, need)
       <==> forall k :: 0 <= k < |need| ==>
              SomeRowNames(rows, Grant, agent, schema, table, need[k]) || SomeRowNames(rows, Revoke, agent, schema, table, need[k])
  {
    hide Seen, Got, NamedBy, WrittenRows, SomeRowNames;
    var sts := Seen(stmts, agent);
    forall k | 0 <= k < |need|
      ensures Got(sts, schema, table, need[k])
         <==> SomeRowNames(rows, Grant, agent, schema, table, need[k]) || SomeRowNames(rows, Revoke, agent, schema, table, need[k])
    {
      GotByAction(sts, schema, table, need[k]);
      WrittenIsNamed(rows, stmts, Grant, agent, schema, table, need[k]);
      WrittenIsNamed(rows, stmts, Revoke, agent, schema, table, need[k]);
    }
  }

  /** A history of rows covers a target without granting it exactly when its GRANTs and REVOKEs
      together name every needed privilege and its GRANTs alone do not. */
  lemma RevokeCovers(rows: seq<Row>, stmts: seq<string>, agent: string, schema: string, table: string, need: seq<string>)
    requires WrittenRows(rows, stmts)
    ensures var sts := Seen(stmts, agent);
            ((Covered(sts, schema, table, need) && !CoveredByGrants(sts, schema, table, need))
             <==> && (forall k :: 0 <= k < |need| ==>
                        SomeRowNames(rows, Grant, agent, schema, table, need[k])
                        || SomeRowNames(rows, Revoke, agent, schema, table, need[k]))
                  && (exists k :: 0 <= k < |need| && !SomeRowNames(rows, Grant, agent, schema, table, need[k])))
  {
    hide Seen, Covered, NamedBy, WrittenRows, SomeRowNames;
    WrittenCovers(rows, stmts, agent, schema, table, need);
    forall k | 0 <= k < |need|
      ensures NamedBy(Grant, Seen(stmts, agent), schema, table, need[k]) <==> SomeRowNames(rows, Grant, agent, schema, table, need[k])
    {
      WrittenIsNamed(rows, stmts, Grant, agent, schema, table, need[k]);
    }
  }

  /** One REVOKE of every needed privilege is enough for the poll to report them as granted. */
  lemma LoneRevokeCovers(a: Authored, agent: string, schema: string, table: string, need: seq<string>)
    requires AgentId(agent) && Token(PartChar, schema) && NameOrAll(table) && Closable(schema, table) && WellFormed(a)
    requires need != [] && forall k :: 0 <= k < |need| ==> need[k] in UpperNames(a.privileges)
    ensures var sts := Seen([RowFor(Revoke, a, schema, table, agent)], agent);
            Covered(sts, schema, table, need) && !CoveredByGrants(sts, schema, table, need)
  {
    hide Seen, RowFor, WellFormed, Token, AgentId, UpperNames, Covered, CoveredByGrants;
    var rows, stmts := [Row(Revoke, a, schema, table, agent)], [RowFor(Revoke, a, schema, table, agent)];
    assert forall k :: 0 <= k < |need| ==> RowNames(rows[0], Revoke, agent, schema, table, need[k]);
    assert forall p :: !SomeRowNames(rows, Grant, agent, schema, table, p);
    RevokeCovers(rows, stmts, agent, schema, table, need);
    assert !SomeRowNames(rows, Grant, agent, schema, table, need[0]);
  }

  /** What one more written row of the target looks like to the poll. */
  lemma SeenRow(stmts: seq<string>, action: Action, a: Authored, agent: string, schema: string, table: string)
    requires AgentId(agent) && Token(PartChar, schema) && NameOrAll(table) && Closable(schema, table) && WellFormed(a)
    ensures Seen(stmts + [RowFor(action, a, schema, table, agent)], agent)
         == Seen(stmts, agent) + [Some(ObjectGrant(action, UpperNames(a.privileges), Shown(a.columns),
                                                   ObjectOf(schema, table), Subject(AgentSubject(agent))))]
    ensures SchemaOk(ObjectOf(schema, table), schema) && TableOk(ObjectOf(schema, table), table)
  {
    hide ParseStatement, DeriveGrantee, RowFor, WellFormed, Token, NameOrAll, AgentId;
    ClosableFacts(schema, table);
    PrintedRow(action, a, schema, table, agent);
    var longer := stmts + [RowFor(action, a, schema, table, agent)];
    assert longer[..|longer| - 1] == stmts;
  }

  /** A DENY behind the approval takes the access away; the poll goes on reporting it. */
  lemma DeniedStillCovers(stmts: seq<string>, a: Authored, agent: string, schema: string, table: string, need: seq<string>)
    requires AgentId(agent) && Token(PartChar, schema) && NameOrAll(table) && Closable(schema, table) && WellFormed(a)
    requires need != [] && forall k :: 0 <= k < |need| ==> need[k] in UpperNames(a.privileges)
    requires Covered(Seen(stmts, agent), schema, table, need)
    ensures var sts := Seen(stmts + [RowFor(Deny, a, schema, table, agent)], agent);
            Covered(sts, schema, table, need) && !HasAccess(sts, schema, table, need)
  {
    var more := stmts + [RowFor(Deny, a, schema, table, agent)];
    hide Seen, RowFor, WellFormed, Token, NameOrAll, Closable, AgentId, UpperNames, Covered, AccessAfter;
    SeenRow(stmts, Deny, a, agent, schema, table);
    CoverageOnlyGrows(stmts, more, agent, schema, table, need);
    var sts := Seen(more, agent);
    assert Names(Deny, sts[|sts| - 1], schema, table, need[0]);
    AccessIsLatest(sts, schema, table, need[0]);
    assert DenyStands(sts, schema, table, need[0]);
  }

  /** One GRANT on some columns only is enough for the poll to report the table as granted. */
  lemma ColumnGrantCovers(a: Authored, agent: string, schema: string, table: string, need: seq<string>)
    requires AgentId(agent) && Token(PartChar, schema) && NameOrAll(table) && Closable(schema, table) && WellFormed(a)
    requires need != [] && forall k :: 0 <= k < |need| ==> need[k] in UpperNames(a.privileges)
    requires HasColumns(a.columns)
    ensures var sts := Seen([RowFor(Grant, a, schema, table, agent)], agent);
            Covered(sts, schema, table, need) && !HasAccess(sts, schema, table, need)
  {
    hide Seen, RowFor, WellFormed, Token, NameOrAll, Closable, AgentId, UpperNames, AccessAfter;
    var row := RowFor(Grant, a, schema, table, agent);
    SeenRow([], Grant, a, agent, schema, table);
    NoneSeen(agent);
    assert [] + [row] == [row];
    var sts := Seen([row], agent);
    forall k | 0 <= k < |need| ensures Got(sts, schema, table, need[k]) {
      assert Gives(sts[0], schema, table, need[k]);
    }
    AccessIsLatest(sts, schema, table, need[0]);
    assert !GrantStands(sts, schema, table, need[0]);
  }

  lemma NoneSeen(agent: string)
    ensures Seen([], agent) == []
  {
  }
}
