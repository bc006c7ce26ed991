/** The round trip of whole statements, and exactly when it holds. */
module GrantPrintParse {
  import opened Text
  import opened GrantStore
  import opened GrantParse
  import opened GrantScan
  import opened GrantRoundTrip

  // ---- reading the object back -------------------------------------------------------------

  lemma PartRead(x: string, y: string)
    requires Token(PartChar, x) && (y == [] || !Has(PartChar, y[0]))
    ensures ObjectPart(x + y) == Some((x, y))
  {
    RunConcat(x, y, PartChar);
    assert Has(PartChar, x[0]);
    assert (x + y)[..|x|] == x && (x + y)[|x|..] == y;
  }

  lemma KeywordRead(w: string, y: string)
    requires UpperAll(w) == w && y != [] && !IsSpace(y[0])
    ensures AfterKeyword(w + (" " + y), w) == Some(y)
  {
  }

  lemma NoSpaceTrim(x: string)
    requires x != [] && !IsSpace(x[0]) && !IsSpace(x[|x| - 1])
    ensures Trim(x) == x
  {
  }

  lemma PartEnds(x: string)
    requires Token(PartChar, x) || Token(IdentChar, x)
    ensures x != [] && NoSpace(x) && !IsSpace(x[0]) && !IsSpace(x[|x| - 1]) && x[0] != '"'
  {
    forall i | 0 <= i < |x| ensures !IsSpace(x[i]) && x[i] != '"' {
      assert Has(PartChar, x[i]) || Has(IdentChar, x[i]);
    }
  }

  lemma TableRead(s: string, t: string)
    requires Token(PartChar, s) && Token(PartChar, t)
    ensures ParseObject(s + ("." + t)) == Table(s, t)
  {
    var o := s + ("." + t);
    TableTrims(s, t);
    PartRead(s, "." + t);
    assert ("." + t)[1..] == t;
    PartRead(t, "");
    assert t + "" == t;
    NotAllTables(s, t);
    hide Trim, AllTablesSchema, ObjectPart;
  }

  lemma TableTrims(s: string, t: string)
    requires Token(PartChar, s) && Token(PartChar, t)
    ensures Trim(s + ("." + t)) == s + ("." + t)
  {
  }

  /** A table name has no space, so it never begins like ALL TABLES. */
  lemma NotAllTables(s: string, t: string)
    requires Token(PartChar, s) && Token(PartChar, t)
    ensures AllTablesSchema(s + ("." + t)).None?
  {
    PartEnds(s);
    PartEnds(t);
    var o := s + ("." + t);
    assert NoSpace(o);
    assert 3 <= |o| ==> Run(o[3..], Space) == 0 by {
      assert 3 < |o| ==> o[3..][0] == o[3];
    }
    assert AfterKeyword(o, "ALL").None?;
  }

  lemma AllTablesTrims(s: string)
    requires Token(PartChar, s)
    ensures Trim("ALL TABLES IN SCHEMA " + s) == "ALL TABLES IN SCHEMA " + s
  {
  }

  lemma AllTablesFound(s: string, t0: string, t1: string, t2: string, t3: string)
    requires Token(PartChar, s)
    requires t3 == "SCHEMA" + (" " + s) && t2 == "IN" + (" " + t3)
    requires t1 == "TABLES" + (" " + t2) && t0 == "ALL" + (" " + t1)
    ensures AllTablesSchema(t0) == Some(s)
  {
    PartEnds(s);
    PartRead(s, "");
    assert s + "" == s;
    AllTablesKeywords(s, t0, t1, t2, t3);
    hide AfterKeyword, ObjectPart, Token, NoSpace;
  }

  lemma AllTablesRead(s: string)
    requires Token(PartChar, s)
    ensures ParseObject("ALL TABLES IN SCHEMA " + s) == AllTables(s)
  {
    hide Trim, AllTablesSchema, ObjectPart;
    var t3 := "SCHEMA" + (" " + s);
    var t2 := "IN" + (" " + t3);
    var t1 := "TABLES" + (" " + t2);
    assert "ALL TABLES IN SCHEMA " + s == "ALL" + (" " + t1);
    AllTablesFound(s, "ALL" + (" " + t1), t1, t2, t3);
    AllTablesTrims(s);
  }

  lemma AllTablesKeywords(s: string, t0: string, t1: string, t2: string, t3: string)
    requires s != [] && !IsSpace(s[0])
    requires t3 == "SCHEMA" + (" " + s) && t2 == "IN" + (" " + t3)
    requires t1 == "TABLES" + (" " + t2) && t0 == "ALL" + (" " + t1)
    ensures AfterKeyword(t0, "ALL") == Some(t1) && AfterKeyword(t1, "TABLES") == Some(t2)
    ensures AfterKeyword(t2, "IN") == Some(t3) && AfterKeyword(t3, "SCHEMA") == Some(s)
  {
    hide *;
    KeywordLetters();
    WordFirst("SCHEMA", " " + s);
    WordFirst("IN", " " + t3);
    WordFirst("TABLES", " " + t2);
    KeywordRead("SCHEMA", s);
    KeywordRead("IN", t3);
    KeywordRead("TABLES", t2);
    KeywordRead("ALL", t1);
  }

  lemma KeywordLetters()
    ensures UpperAll("ALL") == "ALL" && UpperAll("TABLES") == "TABLES"
    ensures UpperAll("IN") == "IN" && UpperAll("SCHEMA") == "SCHEMA"
    ensures !IsSpace("TABLES"[0]) && !IsSpace("IN"[0]) && !IsSpace("SCHEMA"[0])
  {
  }

  lemma WordFirst(w: string, y: string)
    requires w != [] && !IsSpace(w[0])
    ensures w + y != [] && !IsSpace((w + y)[0])
  {
  }

  lemma ObjectRead(o: ObjectRef)
    requires NamedObject(o)
    ensures ParseObject(OnText(o)) == o
  {
    hide ParseObject;
    match o
    case Table(s, t) => TableRead(s, t);
    case AllTables(s) => AllTablesRead(s);
    case Raw(text) =>
  }

  // ---- reading the grantee back ------------------------------------------------------------

  lemma NameRead(x: string)
    requires Token(IdentChar, x)
    ensures QuotedName(x) == Some(x) && Trim(x) == x
    ensures Starts(x, "ROLE") ==> Run(x[4..], Space) == 0
  {
    PartEnds(x);
    NoSpaceTrim(x);
    assert 4 < |x| ==> x[4..][0] == x[4];
  }

  lemma RoleWords(name: string)
    requires Token(IdentChar, name)
    ensures var t := "ROLE" + (" " + name);
            && Trim(t) == t && Starts(t, "ROLE") && Run(t[4..], Space) == 1 && t[5..] == name
  {
    hide Trim, Starts, Token;
    var t := "ROLE" + (" " + name);
    PartEnds(name);
    assert t[0] == 'R' && t[|t| - 1] == name[|name| - 1];
    NoSpaceTrim(t);
    StartsConcat("ROLE", " " + name, "ROLE");
    assert t[4..] == " " + name && t[5..] == name;
    OneSpace(name);
  }

  lemma RoleRead(name: string)
    requires Token(IdentChar, name)
    ensures ParseGrantee("ROLE " + name) == Some(Role(name))
  {
    hide Trim, QuotedName, Run, Starts, Token, UpperAll;
    var t := "ROLE" + (" " + name);
    assert "ROLE " + name == t;
    RoleWords(name);
    NameRead(name);
  }

  lemma SubjectRead(name: string)
    requires Token(IdentChar, name)
    ensures ParseGrantee(name) == Some(ClassifyGrantee(false, name))
  {
    NameRead(name);
    hide Trim, QuotedName, Run, Starts, ClassifyGrantee;
  }

  predicate SubjectIsPublic(g: Grantee) {
    g.Subject? && UpperAll(g.name) == "PUBLIC"
  }

  lemma GranteeRead(g: Grantee)
    requires NamedGrantee(g)
    ensures ParseGrantee(GranteeSql(g)) == Some(if SubjectIsPublic(g) then Public else g)
  {
    hide ParseGrantee;
    match g
    case Public => SubjectRead("PUBLIC"); assert UpperAll("PUBLIC") == "PUBLIC";
    case Role(name) => RoleRead(name);
    case Subject(name) => SubjectRead(name);
  }

  /** Two words are no grantee unless the first is ROLE. */
  lemma TwoWordsNoGrantee(w: string, g: string)
    requires UpperAll(w) == "TO" || UpperAll(w) == "FROM"
    requires g != [] && !IsSpace(g[|g| - 1])
    ensures ParseGrantee(w + (" " + g)).None?
  {
    var t := w + (" " + g);
    assert Upper(t[0]) == UpperAll(w)[0];
    assert t[|t| - 1] == g[|g| - 1];
    NoSpaceTrim(t);
    assert !Starts(t, "ROLE");
    assert t[|w|] == ' ' && !Has(IdentChar, ' ');
    assert QuotedName(t).None?;
    hide Trim, QuotedName, Run, Starts;
  }

  lemma GranteeEnds(g: Grantee)
    requires NamedGrantee(g)
    ensures var t := GranteeSql(g); t != [] && !IsSpace(t[0]) && !IsSpace(t[|t| - 1]) && t[|t| - 1] != ';'
  {
  }

  // ---- where the object group stops --------------------------------------------------------

  predicate SchemaIsConnector(o: ObjectRef) {
    o.AllTables? && (UpperAll(o.schema) == "TO" || UpperAll(o.schema) == "FROM")
  }

  lemma SpacedWordNoTarget(word: string, rest: string, y: string)
    requires word != [] && NoSpace(word) && UpperAll(word) != "TO" && UpperAll(word) != "FROM"
    requires rest + y == [] || IsSpace((rest + y)[0])
    requires NoTargetIn(rest, y)
    ensures NoTargetIn(" " + (word + rest), y)
  {
    hide NoTargetIn, MatchTarget;
    WordRulesOutTarget(word, rest + y);
    assert " " + word + (rest + y) == " " + (word + rest + y);
    NoSpaceNoStop(word, rest + y);
    NoTargetConcat(word, rest, y);
    NoTargetAtSpace(word + rest, y);
  }

  lemma ObjectWords()
    ensures NoSpace("ALL") && !IsSpace('A')
    ensures forall w :: w in ["TABLES", "IN", "SCHEMA"] ==>
              NoSpace(w) && UpperAll(w) != "TO" && UpperAll(w) != "FROM"
  {
    assert UpperAll("IN")[0] == 'I';
  }

  /** The words ALL TABLES IN SCHEMA hold no connector; `tail` is what follows them. */
  lemma AllTablesNoTarget(tail: string, y: string)
    requires tail + y == [] || IsSpace((tail + y)[0])
    requires NoTargetIn(tail, y)
    ensures NoTargetIn("ALL TABLES IN SCHEMA" + tail, y)
    ensures !IsSpace('A')
  {
    hide *;
    ObjectWords();
    var t3 := " " + ("SCHEMA" + tail);
    var t2 := " " + ("IN" + t3);
    var t1 := " " + ("TABLES" + t2);
    SpaceLeads("SCHEMA" + tail, y);
    SpaceLeads("IN" + t3, y);
    SpacedWordNoTarget("SCHEMA", tail, y);
    SpacedWordNoTarget("IN", t3, y);
    SpacedWordNoTarget("TABLES", t2, y);
    NoSpaceNoStop("ALL", t1 + y);
    NoTargetConcat("ALL", t1, y);
    AllTablesText(tail);
  }

  lemma AllTablesText(tail: string)
    ensures "ALL" + (" " + ("TABLES" + (" " + ("IN" + (" " + ("SCHEMA" + tail)))))) == "ALL TABLES IN SCHEMA" + tail
  {
  }

  lemma SpaceStarts(rest: string)
    ensures IsSpace((" " + rest)[0])
  {
  }

  lemma SpaceLeads(x: string, y: string)
    ensures " " + x + y != [] && IsSpace((" " + x + y)[0])
  {
  }

  lemma ObjectNoTarget(o: ObjectRef, y: string)
    requires NamedObject(o) && !SchemaIsConnector(o) && o != Raw("") && y != [] && IsSpace(y[0])
    ensures NoTargetIn(OnText(o), y)
    ensures OnText(o) != [] && !IsSpace(OnText(o)[0])
  {
    hide NoTargetIn, Token, UpperAll, GapTarget, ParseObject;
    match o
    case Table(s, t) => TableNoTarget(s, t, y);
    case AllTables(s) => AllTablesClear(s, y);
    case Raw(text) => GapFreeNoTarget(text, y);
  }

  lemma TableNoTarget(s: string, t: string, y: string)
    requires Token(PartChar, s) && Token(PartChar, t)
    ensures NoTargetIn(s + ("." + t), y) && !IsSpace((s + ("." + t))[0])
  {
    PartEnds(s);
    PartEnds(t);
    hide NoTargetIn;
    NoSpaceNoStop(s + ("." + t), y);
  }

  lemma AllTablesClear(s: string, y: string)
    requires Token(PartChar, s) && UpperAll(s) != "TO" && UpperAll(s) != "FROM" && y != [] && IsSpace(y[0])
    ensures NoTargetIn("ALL TABLES IN SCHEMA " + s, y)
  {
    hide *;
    PartEnds(s);
    NoSpaceNoStop("", y);
    NothingNoSpace();
    assert s + "" == s && "" + y == y;
    SpacedWordNoTarget(s, "", y);
    SpaceStarts(s + y);
    assert " " + s + y == " " + (s + y);
    AllTablesNoTarget(" " + s, y);
    assert "ALL TABLES IN SCHEMA" + (" " + s) == "ALL TABLES IN SCHEMA " + s;
  }

  lemma NothingNoSpace()
    ensures NoSpace("")
  {
  }

  // ---- the body of a printed statement -----------------------------------------------------

  lemma BodyStops(x: string, y: string)
    requires x != [] && !IsSpace(x[0]) && NoOnIn(x, y) && MatchOn(y).Some?
    ensures MatchBody(" " + (x + y)) == Some(Body(x, MatchOn(y).value))
  {
    hide MatchOn, NoOnIn;
    LazyPrivilegesStops(x, y, 1);
    OneSpace(x + y);
  }

  /** The target clause every builder ends with. */
  function TargetClause(a: Action, g: Grantee): string {
    " " + (Connector(a) + (" " + GranteeSql(g)))
  }

  lemma TargetClauseRead(a: Action, g: Grantee)
    requires NamedGrantee(g)
    ensures var y := TargetClause(a, g);
            && MatchTarget(y) == Some(Target(Connector(a) == "FROM", GranteeSql(g)))
            && y != [] && IsSpace(y[0])
  {
    hide *;
    GranteeEnds(g);
    ConnectorOf(a);
    TargetText(Connector(a), GranteeSql(g));
    TargetClauseText(a, g);
  }

  lemma ConnectorOf(a: Action)
    ensures var w := Connector(a); (UpperAll(w) == "TO" || UpperAll(w) == "FROM") && (|w| == 4 <==> w == "FROM")
  {
    assert UpperAll("TO") == "TO" && UpperAll("FROM") == "FROM";
  }

  lemma TargetClauseText(a: Action, g: Grantee)
    ensures var y := TargetClause(a, g); y == " " + (Connector(a) + (" " + GranteeSql(g))) && y != [] && IsSpace(y[0])
  {
  }

  lemma NamedClauseRead(a: Action, o: ObjectRef, g: Grantee)
    requires NamedObject(o) && NamedGrantee(g) && !SchemaIsConnector(o) && o != Raw("")
    ensures MatchOn(" ON " + (OnText(o) + TargetClause(a, g)))
         == Some(Clause(OnText(o), Target(Connector(a) == "FROM", GranteeSql(g))))
  {
    hide *;
    var y := TargetClause(a, g);
    TargetClauseRead(a, g);
    ObjectNoTarget(o, y);
    ClauseText(OnText(o), y);
  }

  lemma NothingNoTarget(y: string)
    ensures NoTargetIn("", y)
  {
  }

  lemma ConnectorSchema(s: string, rest: string)
    requires UpperAll(s) == "TO" || UpperAll(s) == "FROM"
    requires rest != [] && !IsSpace(rest[0])
    ensures MatchOn(" ON " + ("ALL TABLES IN SCHEMA" + (" " + (s + (" " + rest)))))
         == Some(Clause("ALL TABLES IN SCHEMA", Target(|s| == 4, rest)))
  {
    hide *;
    var y := " " + (s + (" " + rest));
    TargetText(s, rest);
    NothingNoTarget(y);
    SpaceStarts(s + (" " + rest));
    assert "" + y == y && "ALL TABLES IN SCHEMA" + "" == "ALL TABLES IN SCHEMA";
    AllTablesNoTarget("", y);
    ClauseText("ALL TABLES IN SCHEMA", y);
  }

  lemma ConnectorClauseText(a: Action, o: ObjectRef, g: Grantee)
    requires o.AllTables?
    ensures OnText(o) + TargetClause(a, g)
         == "ALL TABLES IN SCHEMA" + (" " + (o.schema + (" " + (Connector(a) + (" " + GranteeSql(g))))))
    ensures !IsSpace((Connector(a) + (" " + GranteeSql(g)))[0])
  {
  }

  ghost predicate Parts(privileges: seq<string>, columns: Option<seq<string>>, o: ObjectRef, g: Grantee) {
    && PrivilegeNames(privileges)
    && (HasColumns(columns) ==> ColumnNames(columns.value))
    && NamedObject(o) && NamedGrantee(g)
  }

  predicate LaterOn(privileges: seq<string>, columns: Option<seq<string>>) {
    exists i :: 1 <= i < |privileges| && ReadsAsOn(privileges, columns, "", i)
  }

  lemma CellsStart(privileges: seq<string>, columns: Option<seq<string>>, e: string)
    requires privileges != [] && Token(PrivChar, privileges[0])
    ensures var t := Cells(privileges, columns, e); t != [] && !IsSpace(t[0])
  {
  }

  lemma BodyRead(privileges: seq<string>, columns: Option<seq<string>>, y: string)
    requires privileges != [] && PrivilegeNames(privileges) && QuietColumns(columns)
    requires !LaterOn(privileges, columns) && y != [] && IsSpace(y[0]) && MatchOn(y).Some?
    ensures MatchBody(" " + (PrivilegeList(privileges, columns) + y))
         == Some(Body(Cells(privileges, columns, ""), MatchOn(y).value))
  {
    hide MatchOn, MatchBody, NoOnIn, Cells;
    PrivilegeListIsCells(privileges, columns);
    CellsStart(privileges, columns, "");
    CellsNoOn(privileges, columns, "", y);
    BodyStops(Cells(privileges, columns, ""), y);
  }

  lemma {:induction false} FirstLaterOn(privileges: seq<string>, columns: Option<seq<string>>, j: nat) returns (k: nat)
    requires 1 <= j <= |privileges|
    requires forall i :: 1 <= i < j ==> !ReadsAsOn(privileges, columns, "", i)
    requires LaterOn(privileges, columns)
    ensures 1 <= k < |privileges| && ReadsAsOn(privileges, columns, "", k)
    ensures forall i :: 1 <= i < k ==> !ReadsAsOn(privileges, columns, "", i)
    decreases |privileges| - j
  {
    if ReadsAsOn(privileges, columns, "", j) {
      k := j;
    } else {
      k := FirstLaterOn(privileges, columns, j + 1);
    }
  }

  lemma OnCellText(privileges: seq<string>, columns: Option<seq<string>>) returns (list: string)
    requires privileges != [] && ReadsAsOn(privileges, columns, "", 0)
    ensures HasColumns(columns) ==>
              list != [] && !IsSpace(list[0]) && Cells(privileges, columns, "") == "ON" + (" " + list)
    ensures !HasColumns(columns) ==> Cells(privileges, columns, "") == "ON"
  {
    hide Cells, Cell, UpperAll;
    list := "";
    CellsHead(privileges, columns, "");
    OnCell(privileges[0], columns);
    if HasColumns(columns) {
      var more := if |privileges| == 1 then "" else "," + (" " + Cells(privileges[1..], columns, ""));
      list := ListText(Join(columns.value, ", "), more);
    }
  }

  lemma OnCell(p: string, columns: Option<seq<string>>)
    requires UpperAll(p) == "ON"
    ensures Cell(p, columns) == if HasColumns(columns) then "ON" + (" (" + Join(columns.value, ", ") + ")") else "ON"
  {
  }

  lemma ListText(j: string, more: string) returns (list: string)
    ensures list != [] && !IsSpace(list[0]) && "ON" + (" (" + j + ")") + more == "ON" + (" " + list)
  {
    list := "(" + (j + (")" + more));
    assert " (" + j + ")" + more == " " + list;
    assert "ON" + (" (" + j + ")") + more == "ON" + (" (" + j + ")" + more);
  }

  /** The text from the first cell that reads as ON. */
  lemma LaterOnText(privileges: seq<string>, columns: Option<seq<string>>, on: string, y: string)
    returns (rest: string, j: nat)
    requires privileges != [] && ReadsAsOn(privileges, columns, "", 0) && y != []
    ensures " " + Cells(privileges, columns, "") + (" ON " + (on + y)) == " ON " + rest
    ensures rest != [] && !IsSpace(rest[0]) && 1 <= j <= |rest| && rest[j..] == y
  {
    hide Cells, ReadsAsOn;
    var list := OnCellText(privileges, columns);
    var after := "ON " + (on + y);
    rest := if HasColumns(columns) then list + (" " + after) else after;
    j := |rest| - |y|;
    assert " ON " + (on + y) == " " + after;
    if HasColumns(columns) {
      assert " " + ("ON" + (" " + list)) + (" " + after) == " ON " + rest;
    } else {
      assert " " + "ON" + (" " + after) == " ON " + rest;
    }
  }

  /** With a later ON, the privilege group stops in front of it. */
  lemma BodyCutShort(privileges: seq<string>, columns: Option<seq<string>>, on: string, y: string)
    returns (k: nat)
    requires PrivilegeNames(privileges) && QuietColumns(columns)
    requires LaterOn(privileges, columns) && y != [] && MatchTarget(y).Some?
    ensures 1 <= k < |privileges|
    ensures var m := MatchBody(" " + (PrivilegeList(privileges, columns) + (" ON " + (on + y))));
            m.Some? && m.value.privileges == Cells(privileges[..k], columns, ",")
  {
    hide *;
    LaterOnIsLater(privileges, columns);
    k := FirstLaterOn(privileges, columns, 1);
    PrivilegeListIsCells(privileges, columns);
    CellsSplit(privileges, columns, "", k);
    var x, y0 := Cells(privileges[..k], columns, ","), " " + Cells(privileges[k..], columns, "") + (" ON " + (on + y));
    FrontAndRest(privileges, columns, k);
    var rest, j := LaterOnText(privileges[k..], columns, on, y);
    OnStops(rest, j);
    FirstName(privileges);
    CellsStart(privileges[..k], columns, ",");
    CellsNoOn(privileges[..k], columns, ",", y0);
    BodyStops(x, y0);
    Regrouped(x, " " + Cells(privileges[k..], columns, ""), " ON " + (on + y));
  }

  lemma Regrouped(x: string, y: string, z: string)
    ensures x + y + z == x + (y + z)
  {
  }

  lemma LaterOnIsLater(privileges: seq<string>, columns: Option<seq<string>>)
    requires LaterOn(privileges, columns)
    ensures 1 < |privileges|
  {
  }

  lemma FirstName(privileges: seq<string>)
    requires privileges != [] && PrivilegeNames(privileges)
    ensures Token(PrivChar, privileges[0])
  {
  }

  /** The list cut in front of its cell `k`, the first later one that reads as ON. */
  lemma FrontAndRest(privileges: seq<string>, columns: Option<seq<string>>, k: nat)
    requires PrivilegeNames(privileges) && 1 <= k < |privileges| && ReadsAsOn(privileges, columns, "", k)
    requires forall i :: 1 <= i < k ==> !ReadsAsOn(privileges, columns, "", i)
    ensures PrivilegeNames(privileges[..k]) && ReadsAsOn(privileges[k..], columns, "", 0)
    ensures forall i :: 1 <= i < k ==> !ReadsAsOn(privileges[..k], columns, ",", i)
  {
    hide Token, UpperAll;
    forall i | 1 <= i < k ensures !ReadsAsOn(privileges[..k], columns, ",", i) {
      assert !ReadsAsOn(privileges, columns, "", i);
    }
  }

  // ---- whole statements --------------------------------------------------------------------

  lemma StatementShape(a: Action, privileges: seq<string>, columns: Option<seq<string>>, on: string, g: Grantee)
    ensures ObjectStatement(a, privileges, columns, on, g)
         == Keyword(a) + (" " + (PrivilegeList(privileges, columns) + (" ON " + (on + TargetClause(a, g)))))
  {
    hide Keyword, Connector, PrivilegeList, GranteeSql;
    var k, p := Keyword(a), PrivilegeList(privileges, columns);
    LastWords(k + " " + p + " ON " + on, Connector(a), GranteeSql(g));
    FirstWords(k, p, on, TargetClause(a, g));
  }

  lemma LastWords(x: string, c: string, g: string)
    ensures x + " " + c + " " + g == x + (" " + (c + (" " + g)))
  {
  }

  lemma FirstWords(k: string, p: string, on: string, y: string)
    ensures k + " " + p + " ON " + on + y == k + (" " + (p + (" ON " + (on + y))))
  {
  }

  lemma KeywordRest(a: Action, y: string)
    ensures var s := Keyword(a) + (" " + y);
            LeadingAction(s) == Some(a) && s[|Keyword(a)|..] == " " + y && !IsSpace(s[0])
  {
  }

  lemma OnIsWord(x: string, y: string)
    requires x != [] && x[|x| - 1] == ' '
    ensures HasOn(x + ("ON " + y))
  {
    var t := x + ("ON " + y);
    var i := |x|;
    assert t[i..] == "ON" + (" " + y);
    StartsConcat("ON", " " + y, "ON");
    assert t[i - 1] == ' ' && t[i + 2] == ' ';
    assert OnAt(t, i);
  }

  lemma NormalText(s: string)
    requires s != [] && !IsSpace(s[0]) && !IsSpace(s[|s| - 1]) && s[|s| - 1] != ';'
    ensures Normalize(s) == s
  {
  }

  /** A printed object statement takes the object path, with its own action. */
  lemma PrintedPath(a: Action, privileges: seq<string>, columns: Option<seq<string>>, on: string, g: Grantee)
    requires NamedGrantee(g)
    ensures ParseStatement(ObjectStatement(a, privileges, columns, on, g))
         == ParseObjectStatement(ObjectStatement(a, privileges, columns, on, g))
    ensures var s := ObjectStatement(a, privileges, columns, on, g);
            && LeadingAction(s) == Some(a) && |Keyword(a)| <= |s|
            && s[|Keyword(a)|..]
               == " " + (PrivilegeList(privileges, columns) + (" ON " + (on + TargetClause(a, g))))
  {
    hide *;
    var s := ObjectStatement(a, privileges, columns, on, g);
    var p, y := PrivilegeList(privileges, columns), on + TargetClause(a, g);
    StatementShape(a, privileges, columns, on, g);
    KeywordRest(a, p + (" ON " + y));
    GranteeEnds(g);
    LastOfClause(a, g);
    assert s[|s| - 1] == TargetClause(a, g)[|TargetClause(a, g)| - 1];
    NormalText(s);
    OnIsWord(Keyword(a) + " " + p + " ", y);
    assert s == Keyword(a) + " " + p + " " + ("ON " + y);
    PathByOn(s);
  }

  lemma LastOfClause(a: Action, g: Grantee)
    requires GranteeSql(g) != []
    ensures var t, n := TargetClause(a, g), GranteeSql(g); t != [] && t[|t| - 1] == n[|n| - 1]
  {
  }

  lemma PathByOn(s: string)
    requires Normalize(s) == s && HasOn(s)
    ensures ParseStatement(s) == ParseObjectStatement(s)
  {
  }

  lemma BodyDecides(s: string, a: Action, m: Body)
    requires LeadingAction(s) == Some(a) && |Keyword(a)| <= |s|
    requires MatchBody(s[|Keyword(a)|..]) == Some(m)
    ensures ParseObjectStatement(s) ==
            var privs := ParsePrivileges(m.privileges);
            var grantee := ParseGrantee(m.clause.target.rest);
            if m.clause.target.from != (Connector(a) == "FROM") || privs.None? || grantee.None? then None
            else Some(ObjectGrant(a, privs.value.0, privs.value.1, ParseObject(m.clause.on), grantee.value))
  {
    hide LeadingAction, Keyword, MatchBody, ParsePrivileges, ParseGrantee, ParseObject, Connector;
  }

  lemma PrivilegesNonEmpty(s: string)
    ensures ParseObjectStatement(s).Some? ==>
              ParseObjectStatement(s).value.ObjectGrant? && ParseObjectStatement(s).value.privileges != []
  {
  }

  /** What a caller can check before printing: the statement reads back as what it was. */
  predicate Readable(privileges: seq<string>, columns: Option<seq<string>>, o: ObjectRef, g: Grantee) {
    && privileges != [] && !LaterOn(privileges, columns) && !LaterColumnOn(columns)
    && !SchemaIsConnector(o) && o != Raw("") && !SubjectIsPublic(g)
  }

  function Printed(a: Action, privileges: seq<string>, columns: Option<seq<string>>, o: ObjectRef, g: Grantee): string {
    ObjectStatement(a, privileges, columns, OnText(o), g)
  }

  function Structure(a: Action, privileges: seq<string>, columns: Option<seq<string>>, o: ObjectRef, g: Grantee): Statement {
    ObjectGrant(a, UpperNames(privileges), Shown(columns), o, g)
  }

  // ---- an empty object text ----------------------------------------------------------------

  /** With nothing between ON and the connector, the statement has no match. */
  lemma EmptyBody(a: Action, privileges: seq<string>, columns: Option<seq<string>>, g: Grantee)
    requires privileges != [] && PrivilegeNames(privileges) && QuietColumns(columns) && NamedGrantee(g)
    requires !LaterOn(privileges, columns)
    ensures MatchBody(" " + (PrivilegeList(privileges, columns) + (" ON " + ("" + TargetClause(a, g))))).None?
  {
    hide *;
    var x, z := Cells(privileges, columns, ""), "ON " + TargetClause(a, g);
    var y := " " + z;
    assert " ON " + ("" + TargetClause(a, g)) == y;
    PrivilegeListIsCells(privileges, columns);
    FirstName(privileges);
    CellsStart(privileges, columns, "");
    NeverLater(privileges, columns);
    SpaceStarts(z);
    CellsNoOn(privileges, columns, "", y);
    EmptyTail(a, g);
    assert y + "" == y;
    NoOnConcat(x, y, "");
    NoMatchNoBody(x + y);
    OneSpaceNoBody(x + y);
  }

  lemma NeverLater(privileges: seq<string>, columns: Option<seq<string>>)
    requires !LaterOn(privileges, columns)
    ensures forall i :: 1 <= i < |privileges| ==> !ReadsAsOn(privileges, columns, "", i)
  {
  }

  lemma NoMatchNoBody(z: string)
    requires NoOnIn(z, "")
    ensures z != [] ==> LazyPrivileges(z, 1).None?
  {
    hide MatchOn;
    assert z + "" == z;
    forall k | 0 <= k <= |z| ensures MatchOn(z[k..]).None? {
      if k == |z| {
        NothingNoOn();
        assert z[k..] == "";
      }
    }
    if z != [] {
      NeverStops(z, 1);
    }
  }

  lemma NothingNoOn()
    ensures MatchOn("").None?
  {
  }

  lemma {:induction false} NeverStops(z: string, n: nat)
    requires n <= |z| && forall k :: 0 <= k <= |z| ==> MatchOn(z[k..]).None?
    ensures LazyPrivileges(z, n).None?
    decreases |z| - n
  {
    hide MatchOn;
    if n < |z| {
      NeverStops(z, n + 1);
    }
  }

  lemma OneSpaceNoBody(z: string)
    requires z != [] && !IsSpace(z[0]) && LazyPrivileges(z, 1).None?
    ensures MatchBody(" " + z).None?
  {
    OneSpace(z);
    hide LazyPrivileges, MatchOn;
  }

  /** `ON`, two spaces and a target hold no match of ON. */
  lemma EmptyTail(a: Action, g: Grantee)
    requires NamedGrantee(g)
    ensures NoOnIn(" " + ("ON " + TargetClause(a, g)), "")
  {
    hide *;
    var z := "ON " + TargetClause(a, g);
    EmptyClause(a, g);
    NoGapInTail(a, g);
    NoGapNoOn(z);
    OnThenText(TargetClause(a, g));
    assert z + "" == z;
    OnClause(" " + TargetClause(a, g));
    NoOnAtSpace(z, "");
  }

  lemma OnThenText(y: string)
    ensures "ON " + y == "ON" + (" " + y)
  {
  }

  lemma NoGapInTail(a: Action, g: Grantee)
    requires NamedGrantee(g)
    ensures !GapOn("ON " + TargetClause(a, g))
  {
    var z := "ON " + TargetClause(a, g);
    forall i: nat ensures !GapOnAt(z, i) {
      TailPlaces(a, g, i);
    }
  }

  /** The spaces of that text, and what follows each. */
  lemma TailPlaces(a: Action, g: Grantee, i: nat)
    requires NamedGrantee(g)
    ensures !GapOnAt("ON " + TargetClause(a, g), i)
  {
    var c, t := Connector(a), GranteeSql(g);
    var z := "ON " + TargetClause(a, g);
    assert z == "ON  " + c + " " + t;
    assert forall d :: 0 <= d < |t| ==> z[5 + |c| + d] == t[d];
    assert z[2] == ' ' && z[3] == ' ' && z[4] == c[0] && z[5] == c[1];
    GranteeLetters(g);
  }

  /** In a printed grantee a space can only stand after ROLE, and the name holds none. */
  lemma GranteeLetters(g: Grantee)
    requires NamedGrantee(g)
    ensures var t := GranteeSql(g);
            && t != [] && (forall d :: 0 <= d < |t| && IsSpace(t[d]) ==> g.Role? && d == 4)
            && (g.Role? ==> 5 < |t| && t[0] == 'R')
  {
    var t := GranteeSql(g);
    if g.Role? {
      assert forall d :: 5 <= d < |t| ==> t[d] == g.name[d - 5] && Has(IdentChar, g.name[d - 5]);
    } else if g.Subject? {
      assert forall d :: 0 <= d < |t| ==> Has(IdentChar, g.name[d]);
    }
  }

  /** The object group finds no target behind the two spaces. */
  lemma EmptyClause(a: Action, g: Grantee)
    requires NamedGrantee(g)
    ensures MatchClause(" " + TargetClause(a, g)).None?
  {
    var u := Connector(a) + (" " + GranteeSql(g));
    assert " " + TargetClause(a, g) == "  " + u;
    NoTargetInTail(a, g);
    hide MatchTarget, LazyObject;
    TwoSpaces(u);
  }

  lemma TwoSpaces(u: string)
    requires u != [] && !IsSpace(u[0]) && LazyObject(u, 1).None?
    ensures MatchClause("  " + u).None?
  {
    RunConcat("  ", u, Space);
    assert ("  " + u)[2..] == u;
    hide LazyObject, MatchTarget;
  }

  lemma NoTargetInTail(a: Action, g: Grantee)
    requires NamedGrantee(g)
    ensures var u := Connector(a) + (" " + GranteeSql(g)); u != [] && !IsSpace(u[0]) && LazyObject(u, 1).None?
  {
    var u := Connector(a) + (" " + GranteeSql(g));
    forall k | 0 <= k <= |u| ensures MatchTarget(u[k..]).None? {
      if MatchTarget(u[k..]).Some? {
        var p := TargetPlaceOf(u, k);
        TailTargets(a, g, p);
      }
    }
    hide MatchTarget;
    NoObjectStops(u, 1);
  }

  lemma {:induction false} NoObjectStops(u: string, n: nat)
    requires n <= |u| && forall k :: 0 <= k <= |u| ==> MatchTarget(u[k..]).None?
    ensures LazyObject(u, n).None?
    decreases |u| - n
  {
    hide MatchTarget;
    if n < |u| {
      NoObjectStops(u, n + 1);
    }
  }

  lemma TailTargets(a: Action, g: Grantee, p: nat)
    requires NamedGrantee(g)
    ensures !TargetAt(Connector(a) + (" " + GranteeSql(g)), p)
  {
    hide GranteeSql, Upper, WordAt;
    var c, t := Connector(a), GranteeSql(g);
    var u := c + (" " + t);
    GranteeLetters(g);
    WordLetters(u, p + 1);
    ConnectorIsWord(a);
    TailSpaces(c, t, p, u);
    RoleNoWord(u, p + 1);
  }

  lemma ConnectorIsWord(a: Action)
    ensures NoSpace(Connector(a))
  {
  }

  /** The first space is the one behind the connector, a second one stands behind ROLE. */
  lemma TailSpaces(c: string, t: string, p: nat, u: string)
    requires u == c + (" " + t) && NoSpace(c)
    requires forall d :: 0 <= d < |t| && IsSpace(t[d]) ==> d == 4 && t[0] == 'R'
    ensures p < |u| && IsSpace(u[p]) ==> p == |c| || (p == |c| + 5 && u[|c| + 1] == 'R')
  {
    hide IsSpace;
    assert forall d :: 0 <= d < |t| ==> u[1 + |c| + d] == t[d];
    assert forall d :: 0 <= d < |c| ==> u[d] == c[d];
  }

  lemma RoleNoWord(u: string, i: nat)
    ensures i < |u| && u[i] == 'R' ==> WordAt(u, i) == 0
  {
  }

  lemma NoBodyNoStatement(s: string, a: Action)
    requires LeadingAction(s) == Some(a) && |Keyword(a)| <= |s| && MatchBody(s[|Keyword(a)|..]).None?
    ensures ParseObjectStatement(s).None?
  {
    hide LeadingAction, Keyword, MatchBody;
  }

  // ---- a later column that starts with ON --------------------------------------------------

  lemma {:induction false} FirstLaterColumn(cols: seq<string>, i: nat) returns (j: nat)
    requires 1 <= i <= |cols| && (forall d :: 1 <= d < i ==> !LeadsOn(cols[d])) && LaterColumnOn(Some(cols))
    ensures 1 <= j < |cols| && LeadsOn(cols[j]) && forall d :: 1 <= d < j ==> !LeadsOn(cols[d])
    decreases |cols| - i
  {
    hide LeadsOn;
    if LeadsOn(cols[i]) {
      j := i;
    } else {
      j := FirstLaterColumn(cols, i + 1);
    }
  }

  lemma {:induction false} JoinSplit(cols: seq<string>, j: nat) returns (rest: string)
    requires 1 <= j < |cols|
    ensures Join(cols, ", ") == Join(cols[..j], ", ") + ", " + (cols[j] + rest)
  {
    var tail := cols[1..];
    if j == 1 {
      rest := if |tail| == 1 then "" else ", " + Join(tail[1..], ", ");
      assert Join(tail, ", ") == cols[1] + rest;
      assert cols[..1] == [cols[0]];
    } else {
      rest := JoinSplit(tail, j - 1);
      assert tail[..j - 1] == cols[..j][1..] && tail[j - 1] == cols[j];
      var u, v := Join(tail[..j - 1], ", "), cols[j] + rest;
      assert cols[0] + ", " + (u + ", " + v) == cols[0] + ", " + u + ", " + v;
    }
  }

  lemma {:induction false} JoinNoParenthesis(cols: seq<string>)
    requires ColumnNames(cols)
    ensures ')' !in Join(cols, ", ")
  {
    if cols != [] {
      assert ColumnName(cols[0]);
      JoinNoParenthesis(cols[1..]);
    }
  }

  /** The printed list, cut after the comma in front of a column. */
  lemma CutText(privileges: seq<string>, columns: Option<seq<string>>, inside: string, from: string)
    returns (tail: string)
    requires privileges != [] && HasColumns(columns) && Join(columns.value, ", ") == inside + " " + from
    ensures PrivilegeList(privileges, columns) == UpperAll(privileges[0]) + (" (" + inside) + (" " + (from + tail))
  {
    hide UpperAll, PrivilegeList, Join;
    ListHead(privileges, columns);
    var more := if |privileges| == 1 then "" else "," + (" " + PrivilegeList(privileges[1..], columns));
    tail := ")" + more;
    CutPieces(UpperAll(privileges[0]), inside, from, more);
  }

  lemma CutPieces(p: string, inside: string, from: string, more: string)
    ensures p + (" (" + (inside + " " + from) + ")") + more == p + (" (" + inside) + (" " + (from + (")" + more)))
  {
  }

  lemma UpperStarts(p: string, y: string)
    requires Token(PrivChar, p)
    ensures NoSpace(UpperAll(p)) && UpperAll(p) + y != [] && !IsSpace((UpperAll(p) + y)[0])
  {
    NoSpaceUpper(p, PrivChar);
  }

  /** The text up to that cut lets no ON start inside it. */
  lemma CutHead(p: string, front: seq<string>, y: string)
    requires Token(PrivChar, p) && front != [] && ColumnNames(front) && forall i :: 1 <= i < |front| ==> !LeadsOn(front[i])
    ensures var x := UpperAll(p) + (" (" + (Join(front, ", ") + ",")); x != [] && !IsSpace(x[0]) && NoOnIn(x, y)
  {
    hide *;
    UpperStarts(p, " (" + (Join(front, ", ") + ","));
    var list := " " + ("(" + (Join(front, ", ") + [',']));
    assert list == " (" + (Join(front, ", ") + ",");
    NoSpaceNoStop(UpperAll(p), list + y);
    ColumnsNoOn("(", front, ',', y);
    NoOnConcat(UpperAll(p), list, y);
  }

  /** The column that starts with ON stops the privilege group, a target being further on. */
  lemma CutMatches(c: string, more: string, y: string)
    requires ColumnName(c) && LeadsOn(c) && MatchTarget(y).Some?
    ensures MatchOn(" " + (c + more + y)).Some?
  {
    hide MatchTarget, MatchOn;
    var z := " " + (c + more + y);
    assert z[1] == c[0] && z[2] == c[1] && z[3] == c[2] && z[|c|] == c[|c| - 1];
    assert z[1 + |c| + |more|..] == y && z[0..] == z;
    PlaceMatches(z, 0, |c|, 1 + |c| + |more|);
  }

  lemma CutRest(c: string, rest: string, tail: string, on: string, y: string)
    ensures " " + (c + rest + tail) + (" ON " + (on + y)) == " " + (c + (rest + tail + (" ON " + on)) + y)
  {
  }

  /** A list that never closes is left over, so nothing is read from it. */
  lemma CutListUnread(p: string, inside: string)
    requires Token(PrivChar, p) && ')' !in inside
    ensures ParsePrivileges(UpperAll(p) + (" (" + inside)).None?
  {
    hide PrivilegeHere, Columns, ColumnKey, UpperAll, PrivilegeMatches, Unmatched;
    var t := UpperAll(p) + (" " + ("(" + inside));
    assert " " + ("(" + inside) == " (" + inside;
    CutCell(p, inside);
    CutRead(t, |p| + 1, inside);
    assert Unmatched(t)[0] == '(';
  }

  lemma CutRead(t: string, n: nat, inside: string)
    requires t != [] && Has(PrivChar, t[0]) && PrivilegeHere(t).length == n <= |t| && t[n..] == "(" + inside
    ensures Unmatched(t) == "(" + Unmatched(inside)
  {
    hide PrivilegeHere;
    assert t[n..] == ['('] + inside;
    SeparatorStep('(', inside);
  }

  lemma CutCell(p: string, inside: string)
    requires Token(PrivChar, p) && ')' !in inside
    ensures var t := UpperAll(p) + (" " + ("(" + inside));
            Has(PrivChar, t[0]) && PrivilegeHere(t).length == |p| + 1 && t[|p| + 1..] == "(" + inside
  {
    UpperToken(p);
    WordThenParenthesis(UpperAll(p), "(" + inside);
    var t := UpperAll(p) + (" " + ("(" + inside));
    assert t[|p|..] == " " + ("(" + inside) && t[|p| + 1..] == "(" + inside;
    hide Run, Columns, UpperAll;
  }

  /** Up to the column in front of it, no ON; from there on, a match. */
  lemma LaterColumnResult(a: Action, privileges: seq<string>, columns: Option<seq<string>>, o: ObjectRef, g: Grantee)
    requires Parts(privileges, columns, o, g) && privileges != [] && LaterColumnOn(columns)
    ensures ParseStatement(Printed(a, privileges, columns, o, g)).None?
  {
    hide NamedObject, NamedGrantee, ColumnNames, ObjectStatement, ParseStatement, ParseObjectStatement,
         MatchBody, MatchOn, MatchTarget, ParsePrivileges, ParseGrantee, ParseObject, LeadingAction, Keyword, Connector, OnText,
         LaterColumnOn, Shown, GranteeSql, TargetClause, Cells, PrivilegeList, Token, UpperAll, GapOn, Join;
    var s := Printed(a, privileges, columns, o, g);
    PrintedPath(a, privileges, columns, OnText(o), g);
    TargetClauseRead(a, g);
    ListedColumns(privileges, columns);
    var inside := BodyCutInColumns(privileges, columns, OnText(o), TargetClause(a, g));
    CutListUnread(privileges[0], inside);
    BodyDecides(s, a, MatchBody(s[|Keyword(a)|..]).value);
  }

  /** The privilege group stops inside the first column list. */
  lemma BodyCutInColumns(privileges: seq<string>, columns: Option<seq<string>>, on: string, y: string)
    returns (inside: string)
    requires PrivilegeNames(privileges) && privileges != [] && LaterColumnOn(columns) && ColumnNames(columns.value)
    requires MatchTarget(y).Some?
    ensures ')' !in inside
    ensures var m := MatchBody(" " + (PrivilegeList(privileges, columns) + (" ON " + (on + y))));
            m.Some? && m.value.privileges == UpperAll(privileges[0]) + (" (" + inside)
  {
    hide *;
    ListedColumns(privileges, columns);
    var cols, p := columns.value, UpperAll(privileges[0]);
    var j := FirstLaterColumn(cols, 1);
    var rest := JoinSplit(cols, j);
    inside := Join(cols[..j], ", ") + ",";
    var tail := CutText(privileges, columns, inside, cols[j] + rest);
    var x, y0 := p + (" (" + inside), " " + (cols[j] + rest + tail) + (" ON " + (on + y));
    CutHead(privileges[0], cols[..j], y0);
    CutMatches(cols[j], rest + tail + (" ON " + on), y);
    CutRest(cols[j], rest, tail, on, y);
    BodyStops(x, y0);
    assert PrivilegeList(privileges, columns) + (" ON " + (on + y)) == x + y0;
    JoinNoParenthesis(cols[..j]);
  }

  lemma ListedColumns(privileges: seq<string>, columns: Option<seq<string>>)
    requires PrivilegeNames(privileges) && privileges != [] && LaterColumnOn(columns)
    ensures HasColumns(columns) && columns == Some(columns.value) && Token(PrivChar, privileges[0])
    ensures ColumnNames(columns.value) ==> forall j :: 1 <= j < |columns.value| ==>
              ColumnNames(columns.value[..j]) && ColumnName(columns.value[j])
  {
  }

  /** No ON is read early: what the parser returns, for any nameable object and grantee. */
  lemma PrintedResult(a: Action, privileges: seq<string>, columns: Option<seq<string>>, o: ObjectRef, g: Grantee)
    requires Parts(privileges, columns, o, g) && privileges != []
    requires !LaterOn(privileges, columns) && !LaterColumnOn(columns)
    ensures ParseStatement(Printed(a, privileges, columns, o, g))
         == if SchemaIsConnector(o) || o == Raw("") then None
            else Some(Structure(a, privileges, columns, o, if SubjectIsPublic(g) then Public else g))
  {
    hide NamedObject, NamedGrantee, ColumnNames, PrivilegeNames, ObjectStatement, ParseStatement, ParseObjectStatement,
         MatchBody, MatchOn, ParsePrivileges, ParseGrantee, ParseObject, LeadingAction, Keyword, Connector, OnText,
         LaterOn, LaterColumnOn, Shown, UpperNames, GranteeSql, TargetClause, Cells, PrivilegeList, SubjectIsPublic, HasColumns;
    var s := Printed(a, privileges, columns, o, g);
    var y := " ON " + (OnText(o) + TargetClause(a, g));
    PrintedPath(a, privileges, columns, OnText(o), g);
    assert y[0] == ' ';
    PrivilegesRead(privileges, columns, "");
    if SchemaIsConnector(o) {
      var rest := Connector(a) + (" " + GranteeSql(g));
      GranteeEnds(g);
      ConnectorClauseText(a, o, g);
      ConnectorSchema(o.schema, rest);
      BodyRead(privileges, columns, y);
      BodyDecides(s, a, Body(Cells(privileges, columns, ""), MatchOn(y).value));
      ConnectorOf(a);
      TwoWordsNoGrantee(Connector(a), GranteeSql(g));
    } else if o == Raw("") {
      EmptyBody(a, privileges, columns, g);
      EmptyText();
      NoBodyNoStatement(s, a);
    } else {
      NamedClauseRead(a, o, g);
      BodyRead(privileges, columns, y);
      BodyDecides(s, a, Body(Cells(privileges, columns, ""), MatchOn(y).value));
      ObjectRead(o);
      GranteeRead(g);
    }
  }

  lemma EmptyText()
    ensures OnText(Raw("")) == ""
  {
  }

  /** A later ON loses every privilege from there on, or the whole statement. */
  lemma LaterOnResult(a: Action, privileges: seq<string>, columns: Option<seq<string>>, o: ObjectRef, g: Grantee)
    requires Parts(privileges, columns, o, g) && LaterOn(privileges, columns) && !LaterColumnOn(columns)
    ensures var r := ParseStatement(Printed(a, privileges, columns, o, g));
            r.Some? ==> r.value.ObjectGrant? && |r.value.privileges| < |privileges|
  {
    hide NamedObject, NamedGrantee, ColumnNames, ObjectStatement, ParseStatement, ParseObjectStatement,
         MatchBody, MatchOn, MatchTarget, ParsePrivileges, ParseGrantee, ParseObject, LeadingAction, Keyword, Connector, OnText,
         LaterOn, LaterColumnOn, Shown, GranteeSql, TargetClause, Cells, PrivilegeList, HasColumns;
    var s := Printed(a, privileges, columns, o, g);
    PrintedPath(a, privileges, columns, OnText(o), g);
    TargetClauseRead(a, g);
    var k := BodyCutShort(privileges, columns, OnText(o), TargetClause(a, g));
    PrivilegesRead(privileges[..k], columns, ",");
    BodyDecides(s, a, MatchBody(s[|Keyword(a)|..]).value);
  }

  /** Main result: printing and parsing returns the statement exactly when it is Readable. */
  lemma RoundTrip(a: Action, privileges: seq<string>, columns: Option<seq<string>>, o: ObjectRef, g: Grantee)
    requires Parts(privileges, columns, o, g)
    ensures ParseStatement(Printed(a, privileges, columns, o, g)) == Some(Structure(a, privileges, columns, o, g))
       <==> Readable(privileges, columns, o, g)
  {
    hide ParseStatement, ParseObjectStatement, LaterOn, LaterColumnOn, NamedObject, NamedGrantee, ColumnNames, HasColumns,
         Shown, ObjectStatement;
    var s := Printed(a, privileges, columns, o, g);
    if privileges == [] {
      PrintedPath(a, privileges, columns, OnText(o), g);
      PrivilegesNonEmpty(s);
    } else if LaterColumnOn(columns) {
      LaterColumnResult(a, privileges, columns, o, g);
    } else if LaterOn(privileges, columns) {
      LaterOnResult(a, privileges, columns, o, g);
    } else {
      PrintedResult(a, privileges, columns, o, g);
    }
  }
}
