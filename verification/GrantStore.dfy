/** The statement builders of grant-store and its two small pattern readers. */
module GrantStore {
  import opened Text

  datatype Grantee = Role(name: string) | Subject(name: string) | Public

  datatype Action = Grant | Revoke | Deny | Undeny

  function GranteeSql(g: Grantee): string {
    match g
    case Public => "PUBLIC"
    case Role(name) => "ROLE " + name
    case Subject(name) => name
  }

  function AgentSubject(agentId: string): string {
    "agent:" + agentId
  }

  function Join(xs: seq<string>, sep: string): string {
    if xs == [] then "" else if |xs| == 1 then xs[0] else xs[0] + sep + Join(xs[1..], sep)
  }

  function ColumnSuffix(columns: Option<seq<string>>): string {
    if columns.Some? && columns.value != [] then " (" + Join(columns.value, ", ") + ")" else ""
  }

  function PrivilegeList(privileges: seq<string>, columns: Option<seq<string>>): string {
    Join(seq(|privileges|, i requires 0 <= i < |privileges| =>
               UpperAll(privileges[i]) + ColumnSuffix(columns)), ", ")
  }

  function Keyword(a: Action): string {
    match a case Grant => "GRANT" case Revoke => "REVOKE" case Deny => "DENY" case Undeny => "UNDENY"
  }

  /** GRANT and DENY address their grantee with TO, the two taking back with FROM. */
  function Connector(a: Action): string {
    if a.Grant? || a.Deny? then "TO" else "FROM"
  }

  /** The builders grant, deny, revoke and undeny: one text shape, chosen by the action. */
  function ObjectStatement(a: Action, privileges: seq<string>, columns: Option<seq<string>>,
                           on: string, to: Grantee): string {
    Keyword(a) + " " + PrivilegeList(privileges, columns) + " ON " + on
    + " " + Connector(a) + " " + GranteeSql(to)
  }

  function GrantRole(role: string, to: string): string {
    "GRANT " + role + " TO " + to
  }

  function RevokeRole(role: string, from: string): string {
    "REVOKE ROLE " + role + " FROM " + from
  }

  // ---- deriveGrantee: \b(?:TO|FROM)\s+(ROLE\s+)?("?)([A-Za-z0-9_.:-]+|PUBLIC)\2\s*;?\s*$ -----

  /** `\s*;?\s*$` */
  predicate StatementEnd(t: string) {
    var rest := t[Run(t, Space)..];
    rest == [] || (rest[0] == ';' && AllIn(rest[1..], Space))
  }

  /** `("?)([A-Za-z0-9_.:-]+|PUBLIC)\2\s*;?\s*$`, the name without its quotes. */
  function NameThenEnd(t: string): Option<string> {
    if t != [] && t[0] == '"' then
      var n := Run(t[1..], NameChar);
      if 0 < n && 1 + n < |t| && t[1 + n] == '"' && StatementEnd(t[n + 2..]) then Some(t[1..1 + n]) else None
    else
      var n := Run(t, NameChar);
      if 0 < n && StatementEnd(t[n..]) then Some(t[..n]) else None
  }

  function ClassifyGrantee(isRole: bool, name: string): Grantee {
    if UpperAll(name) == "PUBLIC" && !isRole then Public
    else if isRole then Role(name)
    else Subject(name)
  }

  /** The length of a leading TO or FROM; 0 when there is none. */
  function ConnectorLength(t: string): nat {
    if Starts(t, "TO") then 2 else if Starts(t, "FROM") then 4 else 0
  }

  /** `(ROLE\s+)?` followed by the name: the optional group is tried first. */
  function GranteeThenEnd(t: string): Option<Grantee> {
    var sp := if Starts(t, "ROLE") then Run(t[4..], Space) else 0;
    var role := if 0 < sp then NameThenEnd(t[4 + sp..]) else None;
    if role.Some? then Some(ClassifyGrantee(true, role.value)) else
    var name := NameThenEnd(t);
    if name.Some? then Some(ClassifyGrantee(false, name.value)) else None
  }

  /** The pattern anchored at the start of `t`. */
  function DeriveHere(t: string): Option<Grantee> {
    var k := ConnectorLength(t);
    if k == 0 then None else
    var sp := Run(t[k..], Space);
    if sp == 0 then None else GranteeThenEnd(t[k + sp..])
  }

  /** The leftmost place at or after `i` where the pattern matches. */
  function DeriveFrom(stmt: string, i: nat): Option<Grantee>
    requires i <= |stmt|
    decreases |stmt| - i
  {
    if i == |stmt| then None
    else if (i == 0 || !IsWord(stmt[i - 1])) && DeriveHere(stmt[i..]).Some? then DeriveHere(stmt[i..])
    else DeriveFrom(stmt, i + 1)
  }

  /** None stands for the error the source throws. */
  function DeriveGrantee(stmt: string): Option<Grantee> {
    DeriveFrom(stmt, 0)
  }

  // ---- the word ON, and membershipRole -----------------------------------------------------

  /** `\bON\b` at position `i`. */
  predicate OnAt(t: string, i: nat)
    requires i <= |t|
  {
    && Starts(t[i..], "ON")
    && (i == 0 || !IsWord(t[i - 1]))
    && (i + 2 == |t| || !IsWord(t[i + 2]))
  }

  predicate HasOn(t: string) {
    exists i :: 0 <= i <= |t| && OnAt(t, i)
  }

  /** The role a membership statement hands out: `^\s*GRANT\s+([A-Za-z0-9_:-]+)\s+TO\s+`, no ON. */
  function MembershipRole(stmt: string): Option<string> {
    var t := TrimLeft(stmt);
    if !Starts(t, "GRANT") then None else
    var sp := Run(t[5..], Space);
    var u := t[5 + sp..];
    var n := Run(u, RoleChar);
    var v := u[n..];
    var sp' := Run(v, Space);
    var w := v[sp'..];
    if 0 < sp && 0 < n && 0 < sp' && Starts(w, "TO") && 0 < Run(w[2..], Space) && !HasOn(stmt)
    then Some(u[..n]) else None
  }
}
