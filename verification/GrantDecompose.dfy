/** Membership statements both ways, and the lossless decomposition of whatever is accepted. */
module GrantDecompose {
  import opened Text
  import opened GrantStore
  import opened GrantParse
  import opened GrantScan
  import opened GrantRoundTrip
  import opened GrantPrintParse
  import opened GranteeAgreement
  import opened GrantAccepted

  // ---- the word ON across a cut ------------------------------------------------------------

  /** Joining two texts with a character that is no word character adds and hides no ON. */
  lemma OnAcrossCut(x: string, c: char, y: string)
    requires !IsWord(c)
    ensures HasOn(x + [c] + y) <==> HasOn(x) || HasOn(y)
  {
    var t := x + [c] + y;
    if HasOn(t) {
      var i :| 0 <= i <= |t| && OnAt(t, i);
      OnFromCut(x, c, y, i);
    }
    if HasOn(x) {
      var i :| 0 <= i <= |x| && OnAt(x, i);
      OnIntoLeft(x, c, y, i);
    }
    if HasOn(y) {
      var i :| 0 <= i <= |y| && OnAt(y, i);
      OnIntoRight(x, c, y, i);
    }
  }

  /** The word ON at a place, by its characters. */
  predicate OnChars(t: string, i: nat) {
    && i + 2 <= |t| && Upper(t[i]) == 'O' && Upper(t[i + 1]) == 'N'
    && (i == 0 || !IsWord(t[i - 1])) && (i + 2 == |t| || !IsWord(t[i + 2]))
  }

  lemma OnAtIsChars(t: string, i: nat)
    requires i <= |t|
    ensures OnAt(t, i) == OnChars(t, i)
  {
    StartsOn(t[i..]);
    hide Starts, Upper;
  }

  lemma OnFromCut(x: string, c: char, y: string, i: nat)
    requires !IsWord(c)
    requires var t := x + [c] + y; i <= |t| && OnAt(t, i)
    ensures HasOn(x) || HasOn(y)
  {
    hide OnAt;
    OnAtIsChars(x + [c] + y, i);
    CutOn(x, c, y, i);
    if i < |x| {
      OnAtIsChars(x, i);
    } else {
      OnAtIsChars(y, i - |x| - 1);
    }
  }

  lemma CutOn(x: string, c: char, y: string, i: nat)
    requires !IsWord(c) && OnChars(x + [c] + y, i)
    ensures if i < |x| then OnChars(x, i) else i > |x| && OnChars(y, i - |x| - 1)
  {
    hide IsSpace;
    var t := x + [c] + y;
    assert t[|x|] == c;
    if i > |x| {
      var j := i - |x| - 1;
      assert y[j] == t[i] && y[j + 1] == t[i + 1];
      assert j > 0 ==> y[j - 1] == t[i - 1];
      assert j + 2 < |y| ==> y[j + 2] == t[i + 2];
    }
  }

  lemma OnIntoLeft(x: string, c: char, y: string, i: nat)
    requires !IsWord(c) && i <= |x| && OnAt(x, i)
    ensures HasOn(x + [c] + y)
  {
    hide OnAt, IsWord, Upper;
    var t := x + [c] + y;
    OnAtIsChars(x, i);
    assert t[|x|] == c && t[i] == x[i] && t[i + 1] == x[i + 1];
    assert i + 2 < |x| ==> t[i + 2] == x[i + 2];
    OnAtIsChars(t, i);
  }

  lemma OnIntoRight(x: string, c: char, y: string, i: nat)
    requires !IsWord(c) && i <= |y| && OnAt(y, i)
    ensures HasOn(x + [c] + y)
  {
    hide OnAt, IsWord, Upper;
    var t, k := x + [c] + y, |x| + 1 + i;
    OnAtIsChars(y, i);
    assert t[|x|] == c && t[k] == y[i] && t[k + 1] == y[i + 1];
    assert i > 0 ==> t[k - 1] == y[i - 1];
    assert i + 2 < |y| ==> t[k + 2] == y[i + 2];
    OnAtIsChars(t, k);
  }

  // ---- membership, printed and read --------------------------------------------------------

  function MemberText(revoked: bool, role: string, g: Grantee): string {
    if revoked then RevokeRole(role, GranteeSql(g)) else GrantRole(role, GranteeSql(g))
  }

  predicate NameHasOn(g: Grantee) {
    !g.Public? && HasOn(g.name)
  }

  lemma NoOnLetters(w: string)
    requires forall j :: 0 <= j < |w| - 1 ==> Upper(w[j]) != 'O' || Upper(w[j + 1]) != 'N'
    ensures !HasOn(w)
  {
    forall i | 0 <= i <= |w| ensures !OnAt(w, i) {
      assert |w[i..]| >= 2 ==> w[i..][0] == w[i] && w[i..][1] == w[i + 1];
    }
  }

  lemma WordsWithoutOn()
    ensures !HasOn("GRANT") && !HasOn("TO") && !HasOn("REVOKE") && !HasOn("ROLE") && !HasOn("FROM") && !HasOn("PUBLIC")
  {
    hide HasOn;
    NoOnLetters("GRANT");
    NoOnLetters("TO");
    NoOnLetters("REVOKE");
    NoOnLetters("ROLE");
    NoOnLetters("FROM");
    NoOnLetters("PUBLIC");
  }

  lemma GranteeOn(g: Grantee)
    ensures HasOn(GranteeSql(g)) <==> NameHasOn(g)
  {
    hide HasOn;
    WordsWithoutOn();
    if g.Role? {
      OnAcrossCut("ROLE", ' ', g.name);
      assert "ROLE " + g.name == "ROLE" + [' '] + g.name;
    }
  }

  /** A printed membership statement contains the word ON only through its two names. */
  lemma MemberTextOn(revoked: bool, role: string, g: Grantee)
    ensures HasOn(MemberText(revoked, role, g)) <==> HasOn(role) || NameHasOn(g)
  {
    hide HasOn, GranteeSql, NameHasOn;
    WordsWithoutOn();
    GranteeOn(g);
    assert !IsWord(' ');
    var t := GranteeSql(g);
    if revoked {
      OnAcrossCut("FROM", ' ', t);
      OnAcrossCut(role, ' ', "FROM" + [' '] + t);
      OnAcrossCut("ROLE", ' ', role + [' '] + ("FROM" + [' '] + t));
      OnAcrossCut("REVOKE", ' ', "ROLE" + [' '] + (role + [' '] + ("FROM" + [' '] + t)));
      assert RevokeRole(role, t) == "REVOKE" + [' '] + ("ROLE" + [' '] + (role + [' '] + ("FROM" + [' '] + t)));
    } else {
      OnAcrossCut("TO", ' ', t);
      OnAcrossCut(role, ' ', "TO" + [' '] + t);
      OnAcrossCut("GRANT", ' ', role + [' '] + ("TO" + [' '] + t));
      assert GrantRole(role, t) == "GRANT" + [' '] + (role + [' '] + ("TO" + [' '] + t));
    }
  }

  lemma RoleStarts(role: string, y: string)
    requires Token(RoleChar, role)
    ensures !IsSpace((role + y)[0]) && !IsSpace(role[0])
  {
  }

  lemma GranteeOneLine(g: Grantee)
    requires NamedGrantee(g)
    ensures OneLine(GranteeSql(g))
  {
    var t := GranteeSql(g);
    if !g.Public? {
      forall i | 0 <= i < |g.name| ensures !IsLineTerminator(g.name[i]) {
        assert Has(IdentChar, g.name[i]);
      }
    }
  }

  lemma MemberRead(role: string, from: bool, g: Grantee)
    requires Token(RoleChar, role) && NamedGrantee(g)
    ensures var w := if from then "FROM" else "TO";
            MatchMember(role + (" " + (w + (" " + GranteeSql(g)))), from) == Some((role, GranteeSql(g)))
  {
    hide *;
    var w := if from then "FROM" else "TO";
    GranteeEnds(g);
    GranteeOneLine(g);
    WordOf(from);
    TargetText(w, GranteeSql(g));
    MemberCut(role, " " + (w + (" " + GranteeSql(g))), from, GranteeSql(g));
  }

  lemma WordOf(from: bool)
    ensures var w := if from then "FROM" else "TO"; UpperAll(w) == w && (|w| == 4 <==> from)
  {
  }

  lemma MemberCut(role: string, y: string, from: bool, rest: string)
    requires Token(RoleChar, role) && MatchTarget(y) == Some(Target(from, rest)) && OneLine(rest)
    ensures MatchMember(role + y, from) == Some((role, rest))
  {
    assert y != [] && IsSpace(y[0]);
    RunConcat(role, y, RoleChar);
    assert (role + y)[..|role|] == role && (role + y)[|role|..] == y;
    hide MatchTarget, Run, OneLine;
  }

  lemma StartsWithOther(w: string, y: string)
    requires w == "REVOKE"
    ensures AfterKeyword(w + y, "GRANT").None?
  {
  }

  lemma MemberStatementRead(revoked: bool, role: string, g: Grantee)
    requires Token(RoleChar, role) && NamedGrantee(g)
    ensures ParseMembership(MemberText(revoked, role, g))
         == Some(Membership(revoked, role, if SubjectIsPublic(g) then Public else g))
  {
    hide HasOn, GranteeSql, MatchMember, ParseGrantee, AfterKeyword, SubjectIsPublic, NamedGrantee;
    var t := GranteeSql(g);
    MemberRead(role, revoked, g);
    GranteeRead(g);
    if revoked {
      var y := role + (" " + ("FROM" + (" " + t)));
      RoleStarts(role, " " + ("FROM" + (" " + t)));
      KeywordRead("ROLE", y);
      KeywordRead("REVOKE", "ROLE" + (" " + y));
      StartsWithOther("REVOKE", " " + ("ROLE" + (" " + y)));
      assert RevokeRole(role, t) == "REVOKE" + (" " + ("ROLE" + (" " + y)));
    } else {
      var y := role + (" " + ("TO" + (" " + t)));
      RoleStarts(role, " " + ("TO" + (" " + t)));
      KeywordRead("GRANT", y);
      assert GrantRole(role, t) == "GRANT" + (" " + y);
    }
  }

  lemma MemberTextNormal(revoked: bool, role: string, g: Grantee)
    requires NamedGrantee(g)
    ensures Normalize(MemberText(revoked, role, g)) == MemberText(revoked, role, g)
  {
    GranteeEnds(g);
    var s := MemberText(revoked, role, g);
    assert s[|s| - 1] == GranteeSql(g)[|GranteeSql(g)| - 1];
    assert s[0] == 'G' || s[0] == 'R';
    NormalText(s);
  }

  /** Main result: a membership statement reads back exactly when no name holds the word ON
      and the subject is not the word PUBLIC. */
  lemma MembershipRoundTrip(revoked: bool, role: string, g: Grantee)
    requires Token(RoleChar, role) && NamedGrantee(g)
    ensures ParseStatement(MemberText(revoked, role, g)) == Some(Membership(revoked, role, g))
       <==> !HasOn(role) && !NameHasOn(g) && !SubjectIsPublic(g)
  {
    hide HasOn, GranteeSql, ParseMembership, NameHasOn, NamedGrantee, Normalize, MemberText, Token, ParseObjectStatement;
    var s := MemberText(revoked, role, g);
    MemberTextNormal(revoked, role, g);
    MemberTextOn(revoked, role, g);
    MemberStatementRead(revoked, role, g);
    PrivilegesNonEmpty(s);
  }

  /** The role walk reads the same role from a printed grant of membership. */
  lemma MembershipRoleRead(role: string, g: Grantee)
    requires Token(RoleChar, role) && NamedGrantee(g)
    ensures MembershipRole(GrantRole(role, GranteeSql(g)))
         == if HasOn(role) || NameHasOn(g) then None else Some(role)
  {
    var t := GranteeSql(g);
    var s := GrantRole(role, t);
    MemberTextOn(false, role, g);
    MemberWords(role, t, g);
    hide HasOn, NameHasOn, GranteeSql, Run, Starts, TrimLeft;
  }

  lemma MemberWords(role: string, t: string, g: Grantee)
    requires Token(RoleChar, role) && NamedGrantee(g) && t == GranteeSql(g)
    ensures var s := GrantRole(role, t);
            var z := role + (" " + ("TO" + (" " + t)));
            && TrimLeft(s) == s && Starts(s, "GRANT") && |s| >= 6 && Run(s[5..], Space) == 1 && s[6..] == z
            && Run(z, RoleChar) == |role| && z[..|role|] == role
            && Run(z[|role|..], Space) == 1 && z[|role| + 1..] == "TO" + (" " + t)
            && Starts("TO" + (" " + t), "TO") && 0 < Run(("TO" + (" " + t))[2..], Space)
  {
    hide *;
    var v := "TO" + (" " + t);
    GranteeEnds(g);
    RoleStarts(role, " " + v);
    GrantWord(role + (" " + v));
    RoleWord(role, v);
    ToWord(t);
    GrantRoleText(role, t);
  }

  lemma GrantRoleText(role: string, t: string)
    ensures GrantRole(role, t) == "GRANT" + (" " + (role + (" " + ("TO" + (" " + t)))))
    ensures !IsSpace(("TO" + (" " + t))[0])
  {
  }

  lemma GrantWord(z: string)
    requires z != [] && !IsSpace(z[0])
    ensures var s := "GRANT" + (" " + z);
            TrimLeft(s) == s && Starts(s, "GRANT") && Run(s[5..], Space) == 1 && s[6..] == z
  {
    hide *;
    GrantLetters();
    StartsConcat("GRANT", " " + z, "GRANT");
    WordFirst("GRANT", " " + z);
    NothingToTrim("GRANT" + (" " + z));
    OneSpace(z);
    GrantCut(z);
  }

  lemma GrantLetters()
    ensures UpperAll("GRANT") == "GRANT" && !IsSpace("GRANT"[0])
  {
  }

  lemma NothingToTrim(s: string)
    requires s != [] && !IsSpace(s[0])
    ensures TrimLeft(s) == s
  {
  }

  lemma GrantCut(z: string)
    ensures ("GRANT" + (" " + z))[5..] == " " + z && ("GRANT" + (" " + z))[6..] == z
  {
  }

  lemma RoleWord(role: string, v: string)
    requires Token(RoleChar, role) && v != [] && v[0] == 'T'
    ensures var z := role + (" " + v);
            && Run(z, RoleChar) == |role| && z[..|role|] == role
            && Run(z[|role|..], Space) == 1 && z[|role| + 1..] == v
  {
    RunConcat(role, " " + v, RoleChar);
    assert (role + (" " + v))[|role|..] == " " + v;
    OneSpace(v);
  }

  lemma ToWord(t: string)
    requires t != [] && !IsSpace(t[0])
    ensures Starts("TO" + (" " + t), "TO") && 0 < Run(("TO" + (" " + t))[2..], Space)
  {
  }

  // ---- lossless decomposition --------------------------------------------------------------

  /** The text the builders write for a parsed structure. */
  function Rebuild(st: Statement): string {
    match st
    case ObjectGrant(a, ps, cols, o, g) => Printed(a, ps, cols, o, g)
    case Membership(revoked, role, g) => MemberText(revoked, role, g)
  }

  /** A reparsed statement never shows an empty column list that was printed as none. */
  lemma ReparseColumns(a: Action, ps: seq<string>, cols: Option<seq<string>>, o: ObjectRef, g: Grantee)
    requires Parts(ps, cols, o, g) && ps != [] && cols == Some([])
    ensures var r := ParseStatement(Printed(a, ps, cols, o, g));
            r.Some? && r.value.ObjectGrant? ==> r.value.columns != cols || |r.value.privileges| < |ps|
  {
    hide ParseStatement, Printed, LaterOn, PrivilegeNames, NamedObject, NamedGrantee, UpperNames;
    if LaterOn(ps, cols) {
      LaterOnResult(a, ps, cols, o, g);
    } else {
      PrintedResult(a, ps, cols, o, g);
    }
  }

  // ---- membership statements lose nothing --------------------------------------------------

  lemma OnInside(x: string, t: string, y: string)
    requires x == [] || !IsWord(x[|x| - 1])
    requires y == [] || !IsWord(y[0])
    requires HasOn(t)
    ensures HasOn(x + t + y)
  {
    hide HasOn;
    var u := t + y;
    if y != [] {
      OnAcrossCut(t, y[0], y[1..]);
      assert t + [y[0]] + y[1..] == u;
    } else {
      assert u == t;
    }
    if x != [] {
      OnAcrossCut(x[..|x| - 1], x[|x| - 1], u);
      assert x[..|x| - 1] + [x[|x| - 1]] + u == x + t + y;
    } else {
      assert x + t + y == u;
    }
  }

  lemma QuotedNameOn(t: string)
    requires QuotedName(t).Some? && HasOn(QuotedName(t).value)
    ensures HasOn(t)
  {
    hide HasOn;
    var name := QuotedName(t).value;
    if t[0] == '"' {
      OnInside("\"", name, "\"");
      assert t == "\"" + name + "\"";
    }
  }

  lemma GranteeNameOn(raw: string)
    requires ParseGrantee(raw).Some? && NameHasOn(ParseGrantee(raw).value)
    ensures HasOn(raw)
  {
    hide HasOn, QuotedName, Trim;
    var t := Trim(raw);
    var lead, tail := TrimShape(raw);
    var sp := if Starts(t, "ROLE") then Run(t[4..], Space) else 0;
    if 0 < sp && QuotedName(t[4 + sp..]).Some? {
      QuotedNameOn(t[4 + sp..]);
      assert t[4 + sp - 1] == t[4..][sp - 1];
      OnInside(t[..4 + sp], t[4 + sp..], "");
      assert t[..4 + sp] + t[4 + sp..] + "" == t;
    } else {
      QuotedNameOn(t);
    }
    assert lead != [] ==> Has(Space, lead[|lead| - 1]);
    assert tail != [] ==> Has(Space, tail[0]);
    OnInside(lead, t, tail);
  }

  lemma SuffixOn(s: string, d: nat)
    requires 1 <= d <= |s| && IsSpace(s[d - 1]) && HasOn(s[d..])
    ensures HasOn(s)
  {
    hide HasOn;
    OnInside(s[..d], s[d..], "");
    assert s[..d] + s[d..] + "" == s;
  }

  lemma PrefixOn(s: string, n: nat)
    requires n < |s| && IsSpace(s[n]) && HasOn(s[..n])
    ensures HasOn(s)
  {
    hide HasOn;
    OnInside("", s[..n], s[n..]);
    assert "" + s[..n] + s[n..] == s;
  }

  /** The two names of a matched membership statement, inside the text after its keyword. */
  lemma MemberNamesOn(t: string, from: bool)
    requires MatchMember(t, from).Some?
    ensures var m := MatchMember(t, from).value;
            Token(RoleChar, m.0) && (HasOn(m.0) || HasOn(m.1) ==> HasOn(t))
  {
    hide *;
    var n, f := MemberPlaces(t, from);
    NamesInside(t, n, n + f);
  }

  lemma NamesInside(t: string, n: nat, d: nat)
    requires n < d < |t| && IsSpace(t[n]) && IsSpace(t[d - 1])
    ensures HasOn(t[..n]) || HasOn(t[d..]) ==> HasOn(t)
  {
    hide *;
    if HasOn(t[..n]) {
      PrefixOn(t, n);
    }
    if HasOn(t[d..]) {
      SuffixOn(t, d);
    }
  }

  /** Where the two names of a matched membership statement stand. */
  lemma MemberPlaces(t: string, from: bool) returns (n: nat, f: nat)
    requires MatchMember(t, from).Some?
    ensures 0 < n && 1 <= f && n + f < |t| && IsSpace(t[n]) && IsSpace(t[n + f - 1])
    ensures MatchMember(t, from).value.0 == t[..n] && Token(RoleChar, t[..n])
    ensures MatchMember(t, from).value.1 == t[n + f..]
  {
    hide *;
    n := Run(t, RoleChar);
    MemberParts(t, from);
    var a, k;
    a, k, f := TargetShape(t[n..]);
    TargetSpaces(t[n..], a, k, f);
    assert t[n..][0] == t[n] && t[n..][f - 1] == t[n + f - 1];
    assert t[n..][f..] == t[n + f..];
  }

  lemma MemberParts(t: string, from: bool)
    requires MatchMember(t, from).Some?
    ensures var n := Run(t, RoleChar);
            && 0 < n <= |t| && Token(RoleChar, t[..n]) && MatchTarget(t[n..]).Some?
            && MatchMember(t, from).value == (t[..n], MatchTarget(t[n..]).value.rest)
  {
    hide MatchTarget, OneLine;
  }

  lemma TargetSpaces(t: string, a: nat, k: nat, f: nat)
    requires 1 <= a && a + k < f < |t| && a == Run(t, Space) && f - a - k == Run(t[a + k..], Space)
    ensures IsSpace(t[0]) && IsSpace(t[f - 1])
  {
  }

  lemma MemberStatementNames(s: string)
    requires ParseMembership(s).Some? && !HasOn(s)
    ensures var st := ParseMembership(s).value;
            && st.Membership? && Token(RoleChar, st.role) && NamedGrantee(st.grantee)
            && !HasOn(st.role) && !NameHasOn(st.grantee) && !SubjectIsPublic(st.grantee)
  {
    hide HasOn, MatchMember, ParseGrantee, AfterKeyword, NameHasOn, SubjectIsPublic, NamedGrantee, Token;
    var d, from;
    if MemberGrant(s).Some? {
      d := AfterKeywordSuffix(s, "GRANT");
      from := false;
    } else {
      var e := AfterKeywordSuffix(s, "REVOKE");
      var e' := AfterKeywordSuffix(s[e..], "ROLE");
      assert s[e..][e'..] == s[e + e'..] && s[e..][e' - 1] == s[e + e' - 1];
      d := e + e';
      from := true;
    }
    MemberNamesOn(s[d..], from);
    var rest := MatchMember(s[d..], from).value.1;
    ParsedGrantee(rest);
    if HasOn(s[d..]) {
      SuffixOn(s, d);
    }
    if NameHasOn(ParseGrantee(rest).value) {
      GranteeNameOn(rest);
    }
  }

  /** Main result: every accepted membership statement is rebuilt without loss. */
  lemma LosslessMembership(sql: string)
    requires ParseStatement(sql).Some? && ParseStatement(sql).value.Membership?
    ensures ParseStatement(Rebuild(ParseStatement(sql).value)) == ParseStatement(sql)
  {
    hide ParseObjectStatement, ParseMembership, HasOn, Normalize, NameHasOn, SubjectIsPublic, NamedGrantee, Token, MemberText;
    var s := Normalize(sql);
    PrivilegesNonEmpty(s);
    MemberStatementNames(s);
    var st := ParseMembership(s).value;
    MembershipRoundTrip(st.revoked, st.role, st.grantee);
  }

  // ---- every accepted statement ------------------------------------------------------------

  /** What a caller can check on the parsed structure before showing it as editable. */
  predicate LossFree(st: Statement) {
    st.Membership?
    || (&& st.columns != Some([]) && !LaterOn(st.privileges, st.columns) && !LaterColumnOn(st.columns)
        && !SchemaIsConnector(st.on) && st.on != Raw(""))
  }

  lemma LosslessObject(s: string)
    requires s != [] && !IsSpace(s[|s| - 1]) && ParseObjectStatement(s).Some?
    ensures var st := ParseObjectStatement(s).value; ParseStatement(Rebuild(st)) == Some(st) <==> LossFree(st)
  {
    hide *;
    ParsedObjectStatement(s);
    var st := ParseObjectStatement(s).value;
    RoundTrip(st.action, st.privileges, st.columns, st.on, st.grantee);
    if st.columns == Some([]) {
      ReparseColumns(st.action, st.privileges, st.columns, st.on, st.grantee);
    }
    RebuiltObject(st);
  }

  lemma RebuiltObject(st: Statement)
    requires st.ObjectGrant?
    ensures Rebuild(st) == Printed(st.action, st.privileges, st.columns, st.on, st.grantee)
    ensures st.privileges != [] && !SubjectIsPublic(st.grantee) ==>
              LossFree(st) == (st.columns != Some([]) && Readable(st.privileges, st.columns, st.on, st.grantee))
    ensures UpperNames(st.privileges) == st.privileges && st.columns != Some([]) ==>
              Structure(st.action, st.privileges, st.columns, st.on, st.grantee) == st
  {
    hide Printed, UpperNames, LaterOn, LaterColumnOn, SchemaIsConnector, SubjectIsPublic;
  }

  /** Main result: an accepted statement is rebuilt without loss exactly when it is a membership, or
      its column list is not an empty one, no later privilege and no later column reads as ON, its
      schema is no connector and its object text is not empty. */
  lemma Lossless(sql: string)
    requires ParseStatement(sql).Some?
    ensures var st := ParseStatement(sql).value; ParseStatement(Rebuild(st)) == Some(st) <==> LossFree(st)
  {
    hide ParseObjectStatement, ParseMembership, HasOn, Normalize, Rebuild, LossFree;
    var s := Normalize(sql);
    if ParseStatement(sql).value.Membership? {
      LosslessMembership(sql);
      MembershipIsFree(ParseStatement(sql).value);
    } else {
      MembershipOnly(s);
      NormalEnds(sql);
      LosslessObject(s);
    }
  }

  lemma MembershipIsFree(st: Statement)
    requires st.Membership?
    ensures LossFree(st)
  {
  }

  lemma MembershipOnly(s: string)
    ensures ParseMembership(s).Some? ==> ParseMembership(s).value.Membership?
    ensures ParseObjectStatement(s).Some? ==> s != []
  {
  }

  lemma NormalEnds(sql: string)
    ensures var s := Normalize(sql); s != [] ==> !IsSpace(s[|s| - 1])
  {
    hide *;
    var lead, tail := NormalizeShape(sql);
  }

  // ---- accepted statements that are lost ---------------------------------------------------

  /** A statement written by hand, cut where the groups of the pattern stop. */
  lemma TextAccepted(a: Action, x: string, w: string, on: string, g: Grantee)
    requires x != [] && !IsSpace(x[0]) && ParsePrivileges(x).Some? && NamedGrantee(g) && !SubjectIsPublic(g)
    requires var y := " ON " + (w + TargetClause(a, g));
             NoOnIn(x, y) && MatchOn(y) == Some(Clause(on, Target(Connector(a) == "FROM", GranteeSql(g))))
    ensures var privs := ParsePrivileges(x).value;
            (ParseStatement(Keyword(a) + (" " + (x + (" ON " + (w + TargetClause(a, g))))))
             == Some(ObjectGrant(a, privs.0, privs.1, ParseObject(on), g)))
  {
    hide *;
    var y := " ON " + (w + TargetClause(a, g));
    var s := Keyword(a) + (" " + (x + y));
    KeywordRest(a, x + y);
    GranteeEnds(g);
    LastOfClause(a, g);
    KeywordFits(a, " " + (x + y));
    assert s[|s| - 1] == TargetClause(a, g)[|TargetClause(a, g)| - 1];
    NormalText(s);
    OnIsWord(Keyword(a) + (" " + (x + " ")), w + TargetClause(a, g));
    OnPieces(Keyword(a), x, w + TargetClause(a, g));
    PathByOn(s);
    BodyStops(x, y);
    BodyDecides(s, a, Body(x, MatchOn(y).value));
    GranteeRead(g);
  }

  lemma KeywordFits(a: Action, y: string)
    ensures Keyword(a) != [] && (Keyword(a) + y)[|Keyword(a)|..] == y
  {
  }

  lemma OnPieces(k: string, x: string, z: string)
    ensures k + (" " + (x + (" ON " + z))) == k + (" " + (x + " ")) + ("ON " + z)
    ensures (k + (" " + (x + " ")))[|k| + |x| + 1] == ' '
  {
  }

  /** `GRANT SELECT (a,ON x) ON s.t TO g` is accepted, and its second column is a later ON. */
  lemma LostColumn()
    ensures var st := ObjectGrant(Grant, ["SELECT"], Some(["a", "ON x"]), Table("s", "t"), Subject("g"));
            ParseStatement("GRANT SELECT (a,ON x) ON s.t TO g") == Some(st) && !LossFree(st)
  {
    hide *;
    var o, g, x := Table("s", "t"), Subject("g"), "SELECT (a,ON x)";
    SmallParts();
    NamedClauseRead(Grant, o, g);
    LostColumnGroup(" ON " + (OnText(o) + TargetClause(Grant, g)));
    TextAccepted(Grant, x, OnText(o), OnText(o), g);
    ObjectRead(o);
    LostColumnText();
    LaterColumnLost(Grant, ["SELECT"], "a", "ON x", o, g);
  }

  lemma LaterColumnLost(a: Action, ps: seq<string>, c: string, d: string, o: ObjectRef, g: Grantee)
    requires LeadsOn(d)
    ensures !LossFree(ObjectGrant(a, ps, Some([c, d]), o, g))
  {
    hide LaterOn;
    assert LeadsOn([c, d][1]);
  }

  lemma SmallParts()
    ensures NamedObject(Table("s", "t")) && !SchemaIsConnector(Table("s", "t"))
    ensures NamedGrantee(Subject("g")) && !SubjectIsPublic(Subject("g"))
  {
  }

  lemma LostColumnText()
    ensures LeadsOn("ON x")
    ensures "GRANT SELECT (a,ON x) ON s.t TO g"
         == Keyword(Grant) + (" " + ("SELECT (a,ON x)" + (" ON " + (OnText(Table("s", "t")) + TargetClause(Grant, Subject("g"))))))
  {
    hide *;
    LostColumnTail();
    LostColumnHead();
    Pieces("GRANT ", "SELECT (a,ON x)", " ON s.t TO g");
  }

  lemma LostColumnTail()
    ensures OnText(Table("s", "t")) + TargetClause(Grant, Subject("g")) == "s.t TO g"
    ensures " ON " + "s.t TO g" == " ON s.t TO g"
  {
  }

  lemma LostColumnHead()
    ensures LeadsOn("ON x")
    ensures Keyword(Grant) + " " == "GRANT "
    ensures "GRANT " + "SELECT (a,ON x)" + " ON s.t TO g" == "GRANT SELECT (a,ON x) ON s.t TO g"
  {
  }

  lemma Pieces(k: string, x: string, y: string)
    ensures k + (x + y) == k + x + y
    ensures forall w: string :: w + " " == k ==> w + (" " + (x + y)) == k + x + y
  {
    forall w: string | w + " " == k ensures w + (" " + (x + y)) == k + x + y {
      assert w + (" " + (x + y)) == (w + " ") + (x + y);
    }
  }

  lemma LostColumnGroup(y: string)
    ensures var x := "SELECT (a,ON x)";
            && !IsSpace(x[0]) && NoOnIn(x, y) && ParsePrivileges(x) == Some((["SELECT"], Some(["a", "ON x"])))
  {
    hide *;
    var list := " (a,ON x";
    LostColumnLetters();
    NoSpaceNoStop("SELECT", list + [')'] + y);
    MarkedNoOn(list, ')', y);
    NoOnConcat("SELECT", list + [')'], y);
    assert "SELECT" + (list + [')']) == "SELECT (a,ON x)";
    LostColumnRead();
  }

  lemma LostColumnLetters()
    ensures NoSpace("SELECT") && !IsSpace('S') && !GapOn(" (a,ON x") && !IsLetter(')') && !IsSpace(')')
  {
  }

  lemma LostColumnRead()
    ensures ParsePrivileges("SELECT (a,ON x)") == Some((["SELECT"], Some(["a", "ON x"])))
  {
    hide *;
    LostColumns();
    LostColumnPieces();
    ListCell("SELECT", "a,ON x", "");
    OneMatch("SELECT (a,ON x)");
  }

  lemma LostColumnPieces()
    ensures "SELECT" + (" " + ("(" + "a,ON x" + [')'] + "")) == "SELECT (a,ON x)"
    ensures Token(PrivChar, "SELECT") && UpperAll("SELECT") == "SELECT" && ')' !in "a,ON x"
    ensures |"SELECT (a,ON x)"| == 15 && |"SELECT"| == 6 && |"a,ON x"| == 6
  {
  }

  lemma LostColumns()
    ensures Columns("a,ON x") == ["a", "ON x"]
  {
    hide *;
    LostColumnNames();
    FirstColumn("", "a", "ON x");
    FirstColumn("", "ON x", "");
    assert ["a"] + ["ON x"] == ["a", "ON x"];
  }

  lemma LostColumnNames()
    ensures ColumnName("a") && ColumnName("ON x")
    ensures ("" + "a") + [','] + "ON x" == "a,ON x" && "" + "ON x" == "ON x"
  {
  }

  lemma OneMatch(t: string)
    requires t != [] && Has(PrivChar, t[0]) && PrivilegeHere(t).length == |t|
    ensures ParsePrivileges(t) == Some(([PrivilegeHere(t).name], PrivilegeHere(t).columns))
  {
    hide PrivilegeHere, ColumnKey;
    var p := PrivilegeHere(t);
    assert t[|t|..] == "" && PrivilegeMatches("") == [];
    assert PrivilegeMatches(t) == [p] && Unmatched(t) == "";
    OneName(p);
    hide PrivilegeMatches, Unmatched;
  }

  lemma OneName(p: Privilege)
    ensures Names([p]) == [p.name]
  {
  }

  /** `GRANT SELECT ON   TO g` is accepted with an empty object text. */
  lemma LostObject()
    ensures var st := ObjectGrant(Grant, ["SELECT"], None, Raw(""), Subject("g"));
            ParseStatement("GRANT SELECT ON   TO g") == Some(st) && !LossFree(st)
  {
    hide *;
    var g := Subject("g");
    SmallParts();
    ThreeSpaces(Grant, g);
    LostObjectGroup(" ON " + (" " + TargetClause(Grant, g)));
    TextAccepted(Grant, "SELECT", " ", " ", g);
    LostObjectText();
  }

  lemma LostObjectGroup(y: string)
    ensures var x := "SELECT"; !IsSpace(x[0]) && NoOnIn(x, y) && ParsePrivileges(x) == Some((["SELECT"], None))
  {
    NoSpaceNoStop("SELECT", y);
    assert UpperAll("SELECT") == "SELECT";
    BareCell("SELECT", "");
    assert "SELECT" + "" == "SELECT";
    OneMatch("SELECT");
    hide NoOnIn, PrivilegeHere, ParsePrivileges;
  }

  lemma LostObjectText()
    ensures "GRANT SELECT ON   TO g" == Keyword(Grant) + (" " + ("SELECT" + (" ON " + (" " + TargetClause(Grant, Subject("g"))))))
    ensures ParseObject(" ") == Raw("") && !LossFree(ObjectGrant(Grant, ["SELECT"], None, Raw(""), Subject("g")))
  {
    NothingParsed();
    hide ParseObject, LaterOn, LaterColumnOn;
  }

  lemma NothingParsed()
    ensures ParseObject(" ") == Raw("")
  {
    SpaceTrims(" ");
    assert AllTablesSchema("").None? && ObjectPart("").None?;
    hide Trim, AllTablesSchema, ObjectPart;
  }

  /** Behind ON and three spaces the object group takes one of the spaces. */
  lemma ThreeSpaces(a: Action, g: Grantee)
    requires NamedGrantee(g)
    ensures MatchOn(" ON " + (" " + TargetClause(a, g)))
         == Some(Clause(" ", Target(Connector(a) == "FROM", GranteeSql(g))))
  {
    hide *;
    var u := Connector(a) + (" " + GranteeSql(g));
    NoTargetInTail(a, g);
    TargetClauseRead(a, g);
    TargetClauseText(a, g);
    SpacesThenTarget(u);
    OnClause("  " + TargetClause(a, g));
    OnSpaces(TargetClause(a, g), u);
  }

  lemma OnSpaces(y: string, u: string)
    requires y == " " + u
    ensures " ON " + (" " + y) == " " + ("ON" + ("  " + y)) && "  " + y == "   " + u
  {
  }

  lemma SpacesThenTarget(u: string)
    requires u != [] && !IsSpace(u[0]) && LazyObject(u, 1).None? && MatchTarget(" " + u).Some?
    ensures MatchClause("   " + u) == Some(Clause(" ", MatchTarget(" " + u).value))
  {
    hide LazyObject, MatchTarget, IsSpace, Run;
    var t := "   " + u;
    RunOfThree(u);
    assert t[3..] == u && t[2..] == " " + u && t[1..2] == " ";
  }

  lemma RunOfThree(u: string)
    requires u != [] && !IsSpace(u[0])
    ensures Run("   " + u, Space) == 3
  {
    RunConcat("   ", u, Space);
  }
}
