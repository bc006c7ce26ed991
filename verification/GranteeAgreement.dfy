/** The two readers of a grantee agree: parseStatement from the left, deriveGrantee from the end. */
module GranteeAgreement {
  import opened Text
  import opened GrantStore
  import opened GrantParse

  // ---- an accepted statement ends in a target clause ---------------------------------------

  lemma {:induction false} LazyObjectTarget(t: string, n: nat) returns (d: nat)
    requires n <= |t| && LazyObject(t, n).Some?
    ensures d <= |t| && MatchTarget(t[d..]) == Some(LazyObject(t, n).value.target)
    decreases |t| - n
  {
    hide MatchTarget;
    if MatchTarget(t[n..]).Some? {
      d := n;
    } else {
      d := LazyObjectTarget(t, n + 1);
    }
  }

  lemma ClauseTarget(t: string) returns (d: nat)
    requires MatchClause(t).Some?
    ensures d <= |t| && MatchTarget(t[d..]) == Some(MatchClause(t).value.target)
  {
    hide MatchTarget, LazyObject;
    var a := Run(t, Space);
    if a < |t| && LazyObject(t[a..], 1).Some? {
      var e := LazyObjectTarget(t[a..], 1);
      d := a + e;
      assert t[a..][e..] == t[d..];
    } else {
      d := a - 1;
    }
  }

  lemma OnTarget(t: string) returns (d: nat)
    requires MatchOn(t).Some?
    ensures d <= |t| && MatchTarget(t[d..]) == Some(MatchOn(t).value.target)
  {
    hide MatchTarget, MatchClause;
    var a := Run(t, Space);
    var e := ClauseTarget(t[a + 2..]);
    d := a + 2 + e;
    assert t[a + 2..][e..] == t[d..];
  }

  lemma {:induction false} LazyPrivilegesTarget(t: string, n: nat) returns (d: nat)
    requires n <= |t| && LazyPrivileges(t, n).Some?
    ensures d <= |t| && MatchTarget(t[d..]) == Some(LazyPrivileges(t, n).value.clause.target)
    decreases |t| - n
  {
    hide MatchTarget, MatchOn;
    if MatchOn(t[n..]).Some? {
      var e := OnTarget(t[n..]);
      d := n + e;
      assert t[n..][e..] == t[d..];
    } else {
      d := LazyPrivilegesTarget(t, n + 1);
    }
  }

  lemma BodyTarget(t: string) returns (d: nat)
    requires MatchBody(t).Some?
    ensures d <= |t| && MatchTarget(t[d..]) == Some(MatchBody(t).value.clause.target)
  {
    hide MatchTarget, MatchOn, LazyPrivileges;
    var a := Run(t, Space);
    if a < |t| && LazyPrivileges(t[a..], 1).Some? {
      var e := LazyPrivilegesTarget(t[a..], 1);
      d := a + e;
      assert t[a..][e..] == t[d..];
    } else {
      var e := OnTarget(t[a - 1..]);
      d := a - 1 + e;
      assert t[a - 1..][e..] == t[d..];
    }
  }

  lemma MemberTarget(t: string, from: bool) returns (d: nat)
    requires MatchMember(t, from).Some?
    ensures d <= |t| && MatchTarget(t[d..]).Some? && MatchTarget(t[d..]).value.rest == MatchMember(t, from).value.1
  {
    d := Run(t, RoleChar);
  }

  lemma AfterKeywordSuffix(t: string, w: string) returns (d: nat)
    requires AfterKeyword(t, w).Some?
    ensures d <= |t| && AfterKeyword(t, w).value == t[d..] && |w| < d && Starts(t, w) && IsSpace(t[d - 1])
  {
    d := |w| + Run(t[|w|..], Space);
    assert t[d - 1] == t[|w|..][d - 1 - |w|];
  }

  lemma ActionFits(s: string)
    requires LeadingAction(s).Some?
    ensures |Keyword(LeadingAction(s).value)| <= |s|
  {
  }

  /** The part of every accepted statement that the grantee was read from. */
  lemma AcceptedTarget(sql: string) returns (d: nat)
    requires ParseStatement(sql).Some?
    ensures var s := Normalize(sql);
            && d <= |s| && MatchTarget(s[d..]).Some?
            && ParseGrantee(MatchTarget(s[d..]).value.rest) == Some(ParseStatement(sql).value.grantee)
  {
    hide MatchTarget, ParseGrantee, MatchBody, Normalize, HasOn, AfterKeyword, MatchMember,
         ParsePrivileges, ParseObject, LeadingAction;
    var s := Normalize(sql);
    if HasOn(s) {
      var k := |Keyword(LeadingAction(s).value)|;
      ActionFits(s);
      var e := BodyTarget(s[k..]);
      d := k + e;
      assert s[k..][e..] == s[d..];
    } else if MemberGrant(s).Some? {
      var e := AfterKeywordSuffix(s, "GRANT");
      var f := MemberTarget(s[e..], false);
      d := e + f;
      assert s[e..][f..] == s[d..];
    } else {
      var e := AfterKeywordSuffix(s, "REVOKE");
      var e' := AfterKeywordSuffix(s[e..], "ROLE");
      assert s[e..][e'..] == s[e + e'..];
      var f := MemberTarget(s[e + e'..], true);
      d := e + e' + f;
      assert s[e + e'..][f..] == s[d..];
    }
  }

  // ---- what is trimmed away ----------------------------------------------------------------

  lemma EndOfSpaces(t: string)
    requires All(Space, t)
    ensures StatementEnd(t)
  {
  }

  lemma EndWithSemicolon(x: string, y: string)
    requires All(Space, x) && All(Space, y)
    ensures StatementEnd(x + ";" + y)
  {
  }

  /** Normalizing drops spaces in front, and spaces with at most one semicolon at the end. */
  lemma NormalizeShape(sql: string) returns (lead: string, tail: string)
    ensures sql == lead + Normalize(sql) + tail && StatementEnd(tail)
    ensures var s := Normalize(sql); s != [] ==> !IsSpace(s[|s| - 1])
  {
    hide *;
    var u := Trim(sql);
    var l1, t1 := TrimShape(sql);
    NormalizeCases(sql);
    if u != [] && u[|u| - 1] == ';' {
      var w := u[..|u| - 1];
      var l2, t2 := TrimShape(w);
      lead, tail := l1 + l2, t2 + ";" + t1;
      EndWithSemicolon(t2, t1);
      SemicolonParts(sql, u, w, l1, l2, Trim(w), t2, t1);
    } else {
      lead, tail := l1, t1;
      EndOfSpaces(t1);
    }
  }

  lemma NormalizeCases(sql: string)
    ensures var u := Trim(sql);
            Normalize(sql) == if u != [] && u[|u| - 1] == ';' then Trim(u[..|u| - 1]) else u
  {
  }

  lemma SemicolonParts(sql: string, u: string, w: string, l1: string, l2: string, s: string, t2: string, t1: string)
    requires u != [] && u[|u| - 1] == ';' && w == u[..|u| - 1]
    requires sql == l1 + u + t1 && w == l2 + s + t2
    ensures sql == (l1 + l2) + s + (t2 + ";" + t1)
  {
  }

  lemma EndChars(t: string)
    requires StatementEnd(t)
    ensures forall i :: 0 <= i < |t| ==> IsSpace(t[i]) || t[i] == ';'
  {
    var n := Run(t, Space);
    forall i | 0 <= i < |t| ensures IsSpace(t[i]) || t[i] == ';' {
      if i > n {
        assert t[n..][1..][i - n - 1] == t[i];
        assert Has(Space, t[n..][1..][i - n - 1]);
      }
    }
  }

  // ---- no connector further left can reach the end -----------------------------------------

  lemma BareNameShape(z: string)
    requires NameThenEnd(z).Some? && z[0] != '"'
    ensures var m := Run(z, NameChar); StatementEnd(z[m..]) && forall i :: 0 <= i < m ==> !IsSpace(z[i])
  {
    hide StatementEnd;
  }

  lemma QuotedNameShape(z: string)
    requires NameThenEnd(z).Some? && z[0] == '"'
    ensures var m := Run(z[1..], NameChar) + 2;
            m <= |z| && StatementEnd(z[m..]) && forall i :: 0 <= i < m ==> !IsSpace(z[i])
  {
    hide StatementEnd;
    var n := Run(z[1..], NameChar);
    forall i | 0 <= i < n + 2 ensures !IsSpace(z[i]) {
      assert 1 <= i < 1 + n ==> z[i] == z[1..][i - 1];
    }
  }

  /** After a name that runs to the end, nothing but spaces and semicolons follows a space. */
  lemma NameReachesEnd(z: string, p: nat, q: nat)
    requires NameThenEnd(z).Some? && p < q < |z| && IsSpace(z[p])
    ensures IsSpace(z[q]) || z[q] == ';'
  {
    hide NameThenEnd, StatementEnd, Run;
    var m := if z[0] == '"' then Run(z[1..], NameChar) + 2 else Run(z, NameChar);
    if z[0] == '"' { QuotedNameShape(z); } else { BareNameShape(z); }
    EndChars(z[m..]);
    assert z[q] == z[m..][q - m];
  }

  lemma ConnectorLetters(t: string)
    ensures var k := ConnectorLength(t);
            && k <= |t|
            && (k > 0 ==> Upper(t[0]) == 'T' || Upper(t[0]) == 'F')
            && forall i :: 0 <= i < k ==> !IsSpace(t[i])
  {
  }

  /** The first word after an earlier connector begins no later than the real connector. */
  lemma FirstWordBefore(u: string, j: nat) returns (y: nat)
    requires 1 <= j < |u| && IsSpace(u[j - 1]) && !IsSpace(u[j]) && DeriveHere(u).Some?
    ensures y <= j && GranteeThenEnd(u[y..]).Some?
  {
    hide GranteeThenEnd;
    var k0 := ConnectorLength(u);
    ConnectorLetters(u);
    y := k0 + Run(u[k0..], Space);
    assert u[k0..][j - k0] == u[j];
  }

  /** A match that starts left of the real connector would have to run across it. */
  lemma NoEarlierMatch(u: string, j: nat, k: nat, f: nat)
    requires 1 <= j < j + k < f < |u| && IsSpace(u[j - 1])
    requires k == ConnectorLength(u[j..])
    requires IsSpace(u[j + k]) && !IsSpace(u[f]) && u[f] != ';'
    ensures DeriveHere(u).None?
  {
    hide *;
    ConnectorStart(u, j);
    if DeriveHere(u).Some? {
      var y := FirstWordBefore(u, j);
      NoNameAcross(u, y, j + k, f);
      var sp := RoleThenName(u[y..]);
      var y1 := y + 4 + sp;
      assert u[y..][4 + sp..] == u[y1..];
      if y1 <= j + k {
        NoNameAcross(u, y1, j + k, f);
      } else {
        RoleIsNoConnector(u, y, sp, j);
      }
    }
  }

  lemma ConnectorStart(u: string, j: nat)
    requires j < |u| && ConnectorLength(u[j..]) > 0
    ensures Upper(u[j]) != 'R' && !IsSpace(u[j])
  {
    ConnectorLetters(u[j..]);
    assert u[j..][0] == u[j];
  }

  /** Without a name at the start, the optional ROLE group was used. */
  lemma RoleThenName(z: string) returns (sp: nat)
    requires GranteeThenEnd(z).Some? && NameThenEnd(z).None?
    ensures Starts(z, "ROLE") && 4 + sp <= |z| && sp == Run(z[4..], Space) && NameThenEnd(z[4 + sp..]).Some?
  {
    hide NameThenEnd, Run, UpperAll;
    sp := Run(z[4..], Space);
  }

  lemma NoNameAcross(u: string, y: nat, p: nat, q: nat)
    requires y <= p < q < |u| && IsSpace(u[p]) && !IsSpace(u[q]) && u[q] != ';'
    ensures NameThenEnd(u[y..]).None?
  {
    hide NameThenEnd, IsSpace;
    if NameThenEnd(u[y..]).Some? {
      assert u[y..][p - y] == u[p] && u[y..][q - y] == u[q];
      NameReachesEnd(u[y..], p - y, q - y);
    }
  }

  lemma RoleIsNoConnector(u: string, y: nat, sp: nat, j: nat)
    requires y <= j < y + 4 + sp <= |u| && 1 <= j
    requires Starts(u[y..], "ROLE") && sp == Run(u[y..][4..], Space)
    requires IsSpace(u[j - 1]) && !IsSpace(u[j])
    ensures Upper(u[j]) == 'R'
  {
    hide IsSpace, Upper, Run, Starts;
    var z := u[y..];
    RoleThenSpaces(z, sp);
    assert forall i :: 0 <= i < |z| ==> z[i] == u[y + i];
    assert u[j] == z[j - y];
  }

  lemma RoleThenSpaces(z: string, sp: nat)
    requires Starts(z, "ROLE") && 4 <= |z| && sp == Run(z[4..], Space)
    ensures Upper(z[0]) == 'R' && (forall i :: 0 <= i < 4 ==> !IsSpace(z[i]))
    ensures 4 + sp <= |z| && forall i :: 4 <= i < 4 + sp ==> IsSpace(z[i])
  {
    assert forall i :: 0 <= i < 4 ==> Upper(z[i]) == "ROLE"[i];
    forall i | 4 <= i < 4 + sp ensures IsSpace(z[i]) {
      assert Has(Space, z[4..][i - 4]);
    }
  }

  // ---- the same grantee at the connector itself --------------------------------------------

  lemma BareNameAgrees(z: string, tail: string)
    requires Token(NameChar, z) && StatementEnd(tail) && (tail == [] || !Has(NameChar, tail[0]))
    ensures NameThenEnd(z + tail) == Some(z)
  {
    hide StatementEnd;
    RunConcat(z, tail, NameChar);
    assert Has(NameChar, z[0]);
    assert (z + tail)[|z|..] == tail && (z + tail)[..|z|] == z;
  }

  lemma QuotedNameAgrees(name: string, tail: string)
    requires Token(NameChar, name) && StatementEnd(tail)
    ensures NameThenEnd("\"" + (name + ("\"" + tail))) == Some(name)
  {
    hide StatementEnd;
    var rest := "\"" + tail;
    var t := "\"" + (name + rest);
    assert t[1..] == name + rest;
    RunConcat(name, rest, NameChar);
    assert t[|name| + 2..] == tail && t[1..1 + |name|] == name;
  }

  lemma EndIsNoName(tail: string)
    requires StatementEnd(tail)
    ensures tail == [] || !Has(NameChar, tail[0])
  {
  }

  lemma NameAgrees(z: string, tail: string)
    requires QuotedName(z).Some? && '$' !in QuotedName(z).value && StatementEnd(tail)
    ensures NameThenEnd(z + tail) == QuotedName(z)
  {
    hide NameThenEnd, StatementEnd;
    var name := QuotedName(z).value;
    NameCharsOf(name);
    EndIsNoName(tail);
    if z[0] == '"' {
      QuotedNameAgrees(name, tail);
      assert z + tail == "\"" + (name + ("\"" + tail));
    } else {
      BareNameAgrees(z, tail);
    }
  }

  lemma NameCharsOf(name: string)
    requires All(IdentChar, name) && '$' !in name
    ensures All(NameChar, name)
  {
    forall i | 0 <= i < |name| ensures Has(NameChar, name[i]) {
      assert Has(IdentChar, name[i]);
    }
  }

  lemma QuotedNoSpace(z: string)
    requires QuotedName(z).Some?
    ensures z != [] && NoSpace(z) && (z[0] == '"' ==> 3 <= |z|) && z[0] != ';'
  {
    if z[0] == '"' {
      assert forall i :: 1 <= i < |z| - 1 ==> z[i] == z[1..|z| - 1][i - 1];
    }
    forall i | 0 <= i < |z| ensures !IsSpace(z[i]) {
      if z[0] == '"' {
        assert 1 <= i < |z| - 1 ==> Has(IdentChar, z[1..|z| - 1][i - 1]);
      } else {
        assert Has(IdentChar, z[i]);
      }
    }
    assert z[0] == '"' || Has(IdentChar, z[0]);
  }

  lemma NoNameInEnd(w: string)
    requires w == [] || w[0] == ';'
    ensures NameThenEnd(w).None?
  {
    hide StatementEnd;
  }

  /** When the name stands alone, the optional ROLE group finds no name behind it. */
  lemma RoleGroupFails(z: string, tail: string)
    requires QuotedName(z).Some? && StatementEnd(tail)
    ensures var t := z + tail;
            Starts(t, "ROLE") && 0 < Run(t[4..], Space) ==> NameThenEnd(t[4 + Run(t[4..], Space)..]).None?
  {
    hide NameThenEnd, QuotedName, StatementEnd;
    var t := z + tail;
    QuotedNoSpace(z);
    EndChars(tail);
    if Starts(t, "ROLE") && 0 < Run(t[4..], Space) {
      assert t[4..][0] == t[4];
      assert Upper(t[3]) == 'E';
      assert forall i :: |z| <= i < |t| ==> t[i] == tail[i - |z|];
      assert |z| == 4;
      var sp := Run(t[4..], Space);
      assert t[4..] == tail && t[4 + sp..] == tail[sp..];
      NoNameInEnd(tail[sp..]);
    }
  }

  lemma GranteeAgrees(rest: string, tail: string)
    requires rest != [] && !IsSpace(rest[0]) && !IsSpace(rest[|rest| - 1])
    requires ParseGrantee(rest).Some? && StatementEnd(tail)
    requires NoDollar(ParseGrantee(rest).value)
    ensures GranteeThenEnd(rest + tail) == ParseGrantee(rest)
  {
    hide *;
    RoleFits(rest);
    GranteeCases(rest);
    var sp := if Starts(rest, "ROLE") then Run(rest[4..], Space) else 0;
    NoDollarName(ParseGrantee(rest).value);
    if 0 < sp && QuotedName(rest[4 + sp..]).Some? {
      RoleIsNamed(QuotedName(rest[4 + sp..]).value);
      RoleNameAgrees(rest, tail, sp);
    } else {
      LoneIsNamed(QuotedName(rest).value);
      LoneName(rest, tail);
    }
  }

  /** What parseGrantee makes of a trimmed text, by whether the optional ROLE group is used. */
  lemma GranteeCases(rest: string)
    requires rest != [] && !IsSpace(rest[0]) && !IsSpace(rest[|rest| - 1])
    ensures Starts(rest, "ROLE") ==> 4 <= |rest|
    ensures var sp := if Starts(rest, "ROLE") then Run(rest[4..], Space) else 0;
            if 0 < sp && QuotedName(rest[4 + sp..]).Some?
            then ParseGrantee(rest) == Some(ClassifyGrantee(true, QuotedName(rest[4 + sp..]).value))
            else ParseGrantee(rest).Some? ==>
                   QuotedName(rest).Some? && ParseGrantee(rest) == Some(ClassifyGrantee(false, QuotedName(rest).value))
  {
    hide QuotedName, Trim, Run, UpperAll, ClassifyGrantee, IsSpace;
    TrimId(rest);
  }

  lemma NoDollarName(g: Grantee)
    ensures NoDollar(g) <==> (!g.Public? ==> '$' !in g.name)
  {
  }

  lemma RoleIsNamed(name: string)
    ensures ClassifyGrantee(true, name) == Role(name)
  {
  }

  lemma LoneIsNamed(name: string)
    ensures var g := ClassifyGrantee(false, name);
            (!g.Public? ==> g.name == name) && (g.Public? ==> UpperAll(name) == "PUBLIC")
  {
  }

  lemma RoleFits(t: string)
    ensures Starts(t, "ROLE") ==> 4 <= |t|
  {
  }

  lemma RoleNameAgrees(rest: string, tail: string, sp: nat)
    requires Starts(rest, "ROLE") && 0 < sp == Run(rest[4..], Space) && QuotedName(rest[4 + sp..]).Some?
    requires '$' !in QuotedName(rest[4 + sp..]).value && StatementEnd(tail)
    ensures GranteeThenEnd(rest + tail) == Some(ClassifyGrantee(true, QuotedName(rest[4 + sp..]).value))
  {
    NameAgrees(rest[4 + sp..], tail);
    RoleStart(rest, tail, sp);
    hide NameThenEnd, QuotedName, StatementEnd, Starts, Run;
  }

  lemma RoleStart(rest: string, tail: string, sp: nat)
    requires Starts(rest, "ROLE") && 0 < sp == Run(rest[4..], Space) && QuotedName(rest[4 + sp..]).Some?
    ensures Starts(rest + tail, "ROLE") && Run((rest + tail)[4..], Space) == sp
    ensures (rest + tail)[4 + sp..] == rest[4 + sp..] + tail
  {
    var z := rest[4 + sp..];
    QuotedNoSpace(z);
    assert (rest + tail)[4..] == rest[4..][..sp] + (z + tail);
    RunConcat(rest[4..][..sp], z + tail, Space);
  }

  lemma PublicHasNoDollar(name: string)
    requires UpperAll(name) == "PUBLIC"
    ensures '$' !in name
  {
    forall i | 0 <= i < |name| ensures name[i] != '$' {
      assert Upper(name[i]) == "PUBLIC"[i];
    }
  }

  lemma LoneName(rest: string, tail: string)
    requires QuotedName(rest).Some? && StatementEnd(tail)
    requires UpperAll(QuotedName(rest).value) == "PUBLIC" || '$' !in QuotedName(rest).value
    ensures GranteeThenEnd(rest + tail) == Some(ClassifyGrantee(false, QuotedName(rest).value))
  {
    var name := QuotedName(rest).value;
    if UpperAll(name) == "PUBLIC" {
      PublicHasNoDollar(name);
    }
    NameAgrees(rest, tail);
    RoleGroupFails(rest, tail);
    hide NameThenEnd, QuotedName, StatementEnd, Run;
  }

  /** The search passes over positions without a match. */
  lemma {:induction false} DeriveSkips(stmt: string, i: nat, p: nat)
    requires i <= p < |stmt| && (p == 0 || !IsWord(stmt[p - 1]))
    requires forall j :: i <= j < p ==> DeriveHere(stmt[j..]).None?
    requires DeriveHere(stmt[p..]).Some?
    ensures DeriveFrom(stmt, i) == DeriveHere(stmt[p..])
    decreases p - i
  {
    hide DeriveHere;
    if i < p {
      DeriveSkips(stmt, i + 1, p);
    }
  }

  /** A matched target, seen from the whole statement. */
  lemma TargetShape(t: string) returns (a: nat, k: nat, f: nat)
    requires MatchTarget(t).Some?
    ensures 1 <= a == Run(t, Space) && a + k < f < |t| && 0 < k == ConnectorLength(t[a..])
    ensures IsSpace(t[a - 1]) && IsSpace(t[a + k]) && f - a - k == Run(t[a + k..], Space)
    ensures MatchTarget(t).value.rest == t[f..] && !IsSpace(t[f])
  {
    a := Run(t, Space);
    k := ConnectorLength(t[a..]);
    var b := Run(t[a + k..], Space);
    f := a + k + b;
    ConnectorLetters(t[a..]);
    assert t[a + k..][b] == t[f] && t[a + k..][0] == t[a + k];
  }

  lemma GranteeStart(rest: string)
    requires rest != [] && !IsSpace(rest[0]) && !IsSpace(rest[|rest| - 1]) && ParseGrantee(rest).Some?
    ensures rest[0] != ';'
  {
  }

  /** Connector, spaces and grantee text, with the dropped ending put back. */
  lemma DeriveAtTarget(t: string, k: nat, f: nat, tail: string)
    requires 0 < k == ConnectorLength(t) && k < f < |t| && f - k == Run(t[k..], Space)
    requires !IsSpace(t[f]) && !IsSpace(t[|t| - 1])
    requires ParseGrantee(t[f..]).Some? && StatementEnd(tail)
    requires NoDollar(ParseGrantee(t[f..]).value)
    ensures DeriveHere(t + tail) == ParseGrantee(t[f..])
  {
    GranteeAgrees(t[f..], tail);
    SamePrefix(t, k, f, tail);
    hide ParseGrantee, GranteeThenEnd, StatementEnd, Run;
  }

  lemma SamePrefix(t: string, k: nat, f: nat, tail: string)
    requires 0 < k == ConnectorLength(t) && k < f < |t| && f - k == Run(t[k..], Space) && !IsSpace(t[f])
    ensures ConnectorLength(t + tail) == k
    ensures Run((t + tail)[k..], Space) == f - k && (t + tail)[f..] == t[f..] + tail
  {
    ConnectorPrefix(t, tail);
    hide ConnectorLength;
    var y := t[f..] + tail;
    DropConcat(t, tail, k);
    DropConcat(t, tail, f);
    assert t[k..] == t[k..][..f - k] + t[f..];
    assert (t + tail)[k..] == t[k..][..f - k] + y;
    RunConcat(t[k..][..f - k], y, Space);
  }

  lemma DropConcat(t: string, tail: string, k: nat)
    requires k <= |t|
    ensures (t + tail)[k..] == t[k..] + tail
  {
  }

  /** Names as the stored columns can hold them. */
  predicate NoDollar(g: Grantee) {
    g.Public? || '$' !in g.name
  }

  lemma EndNameNoDollar(t: string)
    ensures NameThenEnd(t).Some? ==> '$' !in NameThenEnd(t).value
  {
    hide StatementEnd;
    if NameThenEnd(t).Some? {
      var name := NameThenEnd(t).value;
      forall i | 0 <= i < |name| ensures name[i] != '$' {
        assert t[0] == '"' ==> name[i] == t[1..][i];
        assert Has(NameChar, name[i]);
      }
    }
  }

  lemma GranteeNoDollar(t: string)
    ensures GranteeThenEnd(t).Some? ==> NoDollar(GranteeThenEnd(t).value)
  {
    hide NameThenEnd, Run, UpperAll, Starts;
    RoleFits(t);
    EndNameNoDollar(t);
    if Starts(t, "ROLE") {
      EndNameNoDollar(t[4 + Run(t[4..], Space)..]);
    }
  }

  lemma HereNoDollar(t: string)
    ensures DeriveHere(t).Some? ==> NoDollar(DeriveHere(t).value)
  {
    hide GranteeThenEnd, Run, NoDollar;
    var k := ConnectorLength(t);
    if k != 0 && Run(t[k..], Space) != 0 {
      GranteeNoDollar(t[k + Run(t[k..], Space)..]);
    }
  }

  lemma {:induction false} DeriveNoDollar(stmt: string, i: nat)
    requires i <= |stmt|
    ensures DeriveFrom(stmt, i).Some? ==> NoDollar(DeriveFrom(stmt, i).value)
    decreases |stmt| - i
  {
    hide DeriveHere, NoDollar, IsWord;
    HereNoDollar(stmt[i..]);
    if i < |stmt| {
      DeriveNoDollar(stmt, i + 1);
    }
  }

  /** Main result: whatever string is accepted, the grantee stored for it is the one parsed from it,
      exactly when its name has no dollar sign. */
  lemma ParsersAgree(sql: string)
    requires ParseStatement(sql).Some?
    ensures DeriveGrantee(sql) == Some(ParseStatement(sql).value.grantee) <==> NoDollar(ParseStatement(sql).value.grantee)
  {
    hide ParseStatement, DeriveFrom, NoDollar, Normalize;
    DeriveNoDollar(sql, 0);
    if NoDollar(ParseStatement(sql).value.grantee) {
      AgreeWithoutDollar(sql);
    }
  }

  lemma AgreeWithoutDollar(sql: string)
    requires ParseStatement(sql).Some? && NoDollar(ParseStatement(sql).value.grantee)
    ensures DeriveGrantee(sql) == Some(ParseStatement(sql).value.grantee)
  {
    hide *;
    var d := AcceptedTarget(sql);
    var lead, tail := NormalizeShape(sql);
    AgreeAtTarget(sql, lead, Normalize(sql), tail, d);
  }

  /** The two readers at the target that the statement parser accepted. */
  lemma AgreeAtTarget(sql: string, lead: string, s: string, tail: string, d: nat)
    requires sql == lead + s + tail && StatementEnd(tail) && (s != [] ==> !IsSpace(s[|s| - 1]))
    requires d <= |s| && MatchTarget(s[d..]).Some?
    requires ParseGrantee(MatchTarget(s[d..]).value.rest).Some?
    requires NoDollar(ParseGrantee(MatchTarget(s[d..]).value.rest).value)
    ensures DeriveGrantee(sql) == ParseGrantee(MatchTarget(s[d..]).value.rest)
  {
    hide *;
    var t, p, k, g, rest := TargetSite(sql, lead, s, tail, d);
    DeriveAtTarget(t, k, g, tail);
    GranteeStart(rest);
    OnlyFromTarget(sql, p, k, g, t, tail);
  }

  /** The target inside the whole statement: it starts at p, and its name g characters further. */
  lemma TargetSite(sql: string, lead: string, s: string, tail: string, d: nat)
    returns (t: string, p: nat, k: nat, g: nat, rest: string)
    requires sql == lead + s + tail && (s != [] ==> !IsSpace(s[|s| - 1]))
    requires d <= |s| && MatchTarget(s[d..]).Some?
    ensures 0 < k == ConnectorLength(t) && k < g < |t| && g - k == Run(t[k..], Space)
    ensures rest == t[g..] == MatchTarget(s[d..]).value.rest && !IsSpace(t[g]) && !IsSpace(t[|t| - 1])
    ensures rest[0] == t[g] && rest[|rest| - 1] == t[|t| - 1]
    ensures 0 < p < p + k < |sql| && sql[p..] == t + tail && IsSpace(sql[p - 1]) && IsSpace(sql[p + k])
    ensures k == ConnectorLength(sql[p..])
  {
    hide *;
    var a, f;
    a, k, f := TargetShape(s[d..]);
    t, p, g := s[d + a..], |lead| + d + a, f - a;
    TargetPlace(sql, lead, s, tail, d, a, k, f);
    rest := t[g..];
  }

  /** The pattern matches nowhere before the target, so the leftmost match is there. */
  lemma OnlyFromTarget(sql: string, p: nat, k: nat, g: nat, t: string, tail: string)
    requires 0 < p <= |sql| && sql[p..] == t + tail && 0 < k < g < |t| && p + k < |sql|
    requires IsSpace(sql[p - 1]) && IsSpace(sql[p + k]) && k == ConnectorLength(sql[p..])
    requires !IsSpace(t[g]) && t[g] != ';' && DeriveHere(sql[p..]).Some?
    ensures DeriveGrantee(sql) == DeriveHere(sql[p..])
  {
    hide DeriveHere, ConnectorLength, IsSpace;
    assert sql[p..][g] == t[g];
    SpaceIsNoWord(sql[p - 1]);
    forall j | 0 <= j < p ensures DeriveHere(sql[j..]).None? {
      EarlierSuffix(sql, j, p, k, p + g);
    }
    hide IsWord;
    DeriveSkips(sql, 0, p);
  }

  lemma SpaceIsNoWord(c: char)
    requires IsSpace(c)
    ensures !IsWord(c)
  {
  }

  lemma ConnectorPrefix(t: string, y: string)
    requires 0 < ConnectorLength(t)
    ensures ConnectorLength(t + y) == ConnectorLength(t)
  {
    assert forall i :: 0 <= i < |t| ==> (t + y)[i] == t[i];
    assert Starts(t, "FROM") ==> Upper((t + y)[0]) == 'F';
  }

  lemma TargetPlace(sql: string, lead: string, s: string, tail: string, d: nat, a: nat, k: nat, f: nat)
    requires sql == lead + s + tail && d <= |s| && 1 <= a && a + k < f < |s[d..]|
    requires 0 < k == ConnectorLength(s[d..][a..]) && IsSpace(s[d..][a - 1]) && IsSpace(s[d..][a + k])
    requires f - a - k == Run(s[d..][a + k..], Space)
    ensures var t := s[d + a..]; var p := |lead| + d + a;
            && k == ConnectorLength(t) && f - a - k == Run(t[k..], Space)
            && t[f - a..] == s[d..][f..] && t[f - a] == s[d..][f] && t[|t| - 1] == s[|s| - 1]
            && sql[p..] == t + tail && IsSpace(sql[p - 1]) && IsSpace(sql[p + k])
            && k == ConnectorLength(sql[p..])
  {
    hide *;
    TargetCuts(sql, lead, s, tail, d, a);
    TargetCuts(sql, lead, s, tail, d, a + k);
    TargetCuts(sql, lead, s, tail, d, f);
    var t := s[d + a..];
    assert t[k..] == s[d + a + k..] && t[f - a..] == s[d + f..] && t[f - a] == s[d + f] && t[|t| - 1] == s[|s| - 1];
    ConnectorPrefix(t, tail);
  }

  /** One place of the target, in the suffix, in the normal form and in the whole statement. */
  lemma TargetCuts(sql: string, lead: string, s: string, tail: string, d: nat, a: nat)
    requires sql == lead + s + tail && d <= |s| && 1 <= a < |s[d..]|
    ensures s[d..][a..] == s[d + a..] && s[d..][a] == s[d + a]
    ensures sql[|lead| + d + a..] == s[d + a..] + tail
    ensures sql[|lead| + d + a] == s[d..][a] && sql[|lead| + d + a - 1] == s[d..][a - 1]
  {
  }

  lemma EarlierSuffix(sql: string, j: nat, p: nat, k: nat, q: nat)
    requires j < p < p + k < q < |sql| && IsSpace(sql[p - 1]) && IsSpace(sql[p + k])
    requires k == ConnectorLength(sql[p..]) && 0 < k
    requires !IsSpace(sql[q]) && sql[q] != ';'
    ensures DeriveHere(sql[j..]).None?
  {
    hide DeriveHere, ConnectorLength;
    assert sql[j..][p - j..] == sql[p..];
    NoEarlierMatch(sql[j..], p - j, k, q - j);
  }
}
