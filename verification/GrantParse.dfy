/** grant-parse: one literal statement decomposed into a structure, or None. */
module GrantParse {
  import opened Text
  import opened GrantStore

  datatype ObjectRef = Table(schema: string, table: string) | AllTables(schema: string) | Raw(text: string)

  datatype Statement =
    | ObjectGrant(action: Action, privileges: seq<string>, columns: Option<seq<string>>,
                  on: ObjectRef, grantee: Grantee)
    | Membership(revoked: bool, role: string, grantee: Grantee)

  /** The effect field: REVOKE counts with GRANT, UNDENY with DENY. */
  predicate Allows(st: Statement) {
    st.Membership? || st.action.Grant? || st.action.Revoke?
  }

  // ---- parseGrantee: ^(ROLE\s+)?("?)([A-Za-z0-9_.:$-]+|PUBLIC)\2$ ---------------------------

  function QuotedName(t: string): Option<string> {
    if t != [] && t[0] == '"' then
      if 3 <= |t| && t[|t| - 1] == '"' && AllIn(t[1..|t| - 1], IdentChar) then Some(t[1..|t| - 1]) else None
    else if t != [] && AllIn(t, IdentChar) then Some(t) else None
  }

  function ParseGrantee(raw: string): Option<Grantee> {
    var t := Trim(raw);
    var sp := if Starts(t, "ROLE") then Run(t[4..], Space) else 0;
    var role := if 0 < sp then QuotedName(t[4 + sp..]) else None;
    if role.Some? then Some(ClassifyGrantee(true, role.value)) else
    var name := QuotedName(t);
    if name.Some? then Some(ClassifyGrantee(false, name.value)) else None
  }

  // ---- parseObject -------------------------------------------------------------------------

  /** `("?)([A-Za-z0-9_$-]+)\1` at the start: the part and what follows it. */
  function ObjectPart(t: string): Option<(string, string)> {
    if t != [] && t[0] == '"' then
      var n := Run(t[1..], PartChar);
      if 0 < n && 1 + n < |t| && t[1 + n] == '"' then Some((t[1..1 + n], t[n + 2..])) else None
    else
      var n := Run(t, PartChar);
      if 0 < n then Some((t[..n], t[n..])) else None
  }

  /** A keyword and the spaces required after it. */
  function AfterKeyword(t: string, w: string): Option<string> {
    if !Starts(t, w) then None else
    var sp := Run(t[|w|..], Space);
    if sp == 0 then None else Some(t[|w| + sp..])
  }

  /** `^ALL\s+TABLES\s+IN\s+SCHEMA\s+(part)$` */
  function AllTablesSchema(t: string): Option<string> {
    match AfterKeyword(t, "ALL")
    case None => None
    case Some(t1) =>
      match AfterKeyword(t1, "TABLES")
      case None => None
      case Some(t2) =>
        match AfterKeyword(t2, "IN")
        case None => None
        case Some(t3) =>
          match AfterKeyword(t3, "SCHEMA")
          case None => None
          case Some(t4) =>
            match ObjectPart(t4)
            case Some((name, rest)) => if rest == [] then Some(name) else None
            case None => None
  }

  function ParseObject(raw: string): ObjectRef {
    var t := Trim(raw);
    var all := AllTablesSchema(t);
    if all.Some? then AllTables(all.value) else
    match ObjectPart(t)
    case None => Raw(t)
    case Some((schema, rest)) =>
      if rest == [] || rest[0] != '.' then Raw(t) else
      match ObjectPart(rest[1..])
      case Some((table, end)) => if end == [] then Table(schema, table) else Raw(t)
      case None => Raw(t)
  }

  // ---- parsePrivileges ---------------------------------------------------------------------

  function IndexOf(t: string, c: char): (n: nat)
    ensures n <= |t|
    ensures n < |t| ==> t[n] == c
    ensures forall i :: 0 <= i < n ==> t[i] != c
  {
    if t == [] || t[0] == c then 0 else
    var n := 1 + IndexOf(t[1..], c);
    assert forall i :: 0 < i < n ==> t[i] == t[1..][i - 1];
    n
  }

  function Split(t: string, c: char): (r: seq<string>)
    ensures r != []
    decreases |t|
  {
    var n := IndexOf(t, c);
    if n == |t| then [t] else [t[..n]] + Split(t[n + 1..], c)
  }

  function TrimmedNonEmpty(xs: seq<string>): seq<string> {
    if xs == [] then []
    else (if Trim(xs[0]) == [] then [] else [Trim(xs[0])]) + TrimmedNonEmpty(xs[1..])
  }

  function Columns(inside: string): seq<string> {
    TrimmedNonEmpty(Split(inside, ','))
  }

  datatype Privilege = Privilege(name: string, columns: Option<seq<string>>, length: nat)

  /** One match of `([A-Za-z_]+)\s*(?:\(([^)]*)\))?` at the start of the text. */
  function PrivilegeHere(t: string): (p: Privilege)
    requires t != [] && Has(PrivChar, t[0])
    ensures 0 < p.length <= |t|
  {
    var n := Run(t, PrivChar);
    var sp := n + Run(t[n..], Space);
    var close := if sp < |t| && t[sp] == '(' then sp + IndexOf(t[sp..], ')') else |t|;
    if close < |t|
    then Privilege(UpperAll(t[..n]), Some(Columns(t[sp + 1..close])), close + 1)
    else Privilege(UpperAll(t[..n]), None, sp)
  }

  /** All matches from left to right. */
  function PrivilegeMatches(t: string): seq<Privilege>
    decreases |t|
  {
    if t == [] then []
    else if Has(PrivChar, t[0]) then
      var p := PrivilegeHere(t);
      [p] + PrivilegeMatches(t[p.length..])
    else PrivilegeMatches(t[1..])
  }

  /** What is left when every match is deleted. */
  function Unmatched(t: string): string
    decreases |t|
  {
    if t == [] then []
    else if Has(PrivChar, t[0]) then Unmatched(t[PrivilegeHere(t).length..])
    else [t[0]] + Unmatched(t[1..])
  }

  /** The comparison key of a column list, with the source's sentinel for "no list". */
  function ColumnKey(c: Option<seq<string>>): string {
    if c.None? then "\0none" else Join(c.value, ",")
  }

  predicate OnlySeparators(t: string) {
    forall i :: 0 <= i < |t| ==> IsSpace(t[i]) || t[i] == ','
  }

  function Names(ps: seq<Privilege>): seq<string> {
    seq(|ps|, i requires 0 <= i < |ps| => ps[i].name)
  }

  function ParsePrivileges(raw: string): Option<(seq<string>, Option<seq<string>>)> {
    var ps := PrivilegeMatches(raw);
    if ps == [] || !OnlySeparators(Unmatched(raw)) then None
    else if exists i :: 0 <= i < |ps| && ColumnKey(ps[i].columns) != ColumnKey(ps[0].columns) then None
    else Some((Names(ps), ps[0].columns))
  }

  // ---- the statement pattern ---------------------------------------------------------------
  // ^(GRANT|DENY|REVOKE|UNDENY)\s+([\s\S]+?)\s+ON\s+([\s\S]+?)\s+(TO|FROM)\s+([\s\S]+?)$
  // Each function below matches one suffix of the pattern against one suffix of the text, in
  // the order in which a backtracking matcher tries its choices.

  datatype Target = Target(from: bool, rest: string)
  datatype Clause = Clause(on: string, target: Target)
  datatype Body = Body(privileges: string, clause: Clause)

  /** `\s+(TO|FROM)\s+(.+)$` */
  function MatchTarget(t: string): Option<Target> {
    var a := Run(t, Space);
    var k := ConnectorLength(t[a..]);
    if a == 0 || k == 0 then None else
    var u := t[a + k..];
    var b := Run(u, Space);
    if b == 0 || b == |u| then None else Some(Target(k == 4, u[b..]))
  }

  /** The lazy object group: the shortest one of at least `n` characters. */
  function LazyObject(t: string, n: nat): Option<Clause>
    requires n <= |t|
    decreases |t| - n
  {
    if MatchTarget(t[n..]).Some? then Some(Clause(t[..n], MatchTarget(t[n..]).value))
    else if n == |t| then None
    else LazyObject(t, n + 1)
  }

  /** `\s+([\s\S]+?)\s+(TO|FROM)\s+(.+)$`; when the greedy spaces fail, they give back two. */
  function MatchClause(t: string): Option<Clause> {
    var a := Run(t, Space);
    if a == 0 then None else
    var first := if a < |t| then LazyObject(t[a..], 1) else None;
    if first.Some? then first
    else if 3 <= a && MatchTarget(t[a - 1..]).Some? then
      Some(Clause(t[a - 2..a - 1], MatchTarget(t[a - 1..]).value))
    else None
  }

  /** `\s+ON` and the clause. */
  function MatchOn(t: string): Option<Clause> {
    var a := Run(t, Space);
    if a == 0 || !Starts(t[a..], "ON") then None else MatchClause(t[a + 2..])
  }

  function LazyPrivileges(t: string, n: nat): Option<Body>
    requires n <= |t|
    decreases |t| - n
  {
    if MatchOn(t[n..]).Some? then Some(Body(t[..n], MatchOn(t[n..]).value))
    else if n == |t| then None
    else LazyPrivileges(t, n + 1)
  }

  /** What follows the keyword. */
  function MatchBody(t: string): Option<Body> {
    var a := Run(t, Space);
    if a == 0 then None else
    var first := if a < |t| then LazyPrivileges(t[a..], 1) else None;
    if first.Some? then first
    else if 3 <= a && MatchOn(t[a - 1..]).Some? then
      Some(Body(t[a - 2..a - 1], MatchOn(t[a - 1..]).value))
    else None
  }

  function LeadingAction(t: string): Option<Action> {
    if Starts(t, "GRANT") then Some(Grant)
    else if Starts(t, "DENY") then Some(Deny)
    else if Starts(t, "REVOKE") then Some(Revoke)
    else if Starts(t, "UNDENY") then Some(Undeny)
    else None
  }

  function ParseObjectStatement(s: string): Option<Statement> {
    var a := LeadingAction(s);
    if a.None? then None else
    var m := MatchBody(s[|Keyword(a.value)|..]);
    if m.None? || m.value.clause.target.from != (Connector(a.value) == "FROM") then None else
    var privs := ParsePrivileges(m.value.privileges);
    var grantee := ParseGrantee(m.value.clause.target.rest);
    if privs.None? || grantee.None? then None
    else Some(ObjectGrant(a.value, privs.value.0, privs.value.1, ParseObject(m.value.clause.on), grantee.value))
  }

  // ---- membership: ^GRANT\s+(role)\s+TO\s+(.+)$ and ^REVOKE\s+ROLE\s+(role)\s+FROM\s+(.+)$ ----

  predicate OneLine(t: string) {
    forall i :: 0 <= i < |t| ==> !IsLineTerminator(t[i])
  }

  /** The role name, then the connector, then the rest of the line. */
  function MatchMember(t: string, from: bool): Option<(string, string)> {
    var n := Run(t, RoleChar);
    var m := MatchTarget(t[n..]);
    if n == 0 || m.None? || m.value.from != from || !OneLine(m.value.rest) then None
    else Some((t[..n], m.value.rest))
  }

  function MemberGrant(s: string): Option<(string, string)> {
    match AfterKeyword(s, "GRANT") case Some(t) => MatchMember(t, false) case None => None
  }

  function MemberRevoke(s: string): Option<(string, string)> {
    match AfterKeyword(s, "REVOKE")
    case Some(t) => (match AfterKeyword(t, "ROLE") case Some(u) => MatchMember(u, true) case None => None)
    case None => None
  }

  function ParseMembership(s: string): Option<Statement> {
    var g := MemberGrant(s);
    var m := if g.Some? then g else MemberRevoke(s);
    if m.None? then None else
    match ParseGrantee(m.value.1)
    case Some(grantee) => Some(Membership(g.None?, m.value.0, grantee))
    case None => None
  }

  /** trim, one trailing `;` dropped, trim again. */
  function Normalize(sql: string): string {
    var s := Trim(sql);
    if s != [] && s[|s| - 1] == ';' then Trim(s[..|s| - 1]) else s
  }

  function ParseStatement(sql: string): Option<Statement> {
    var s := Normalize(sql);
    if HasOn(s) then ParseObjectStatement(s) else ParseMembership(s)
  }
}
