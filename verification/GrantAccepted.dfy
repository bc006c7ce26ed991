/** What the parts of every accepted object statement look like. */
module GrantAccepted {
  import opened Text
  import opened GrantStore
  import opened GrantParse
  import opened GrantScan
  import opened GrantRoundTrip
  import opened GrantPrintParse
  import opened GranteeAgreement

  // ---- the object group --------------------------------------------------------------------

  /** A trimmed text without a connector, or the one space that the greedy groups leave over. */
  ghost predicate ObjectText(o: string) {
    || (|o| == 1 && IsSpace(o[0]))
    || (o != [] && !IsSpace(o[0]) && !IsSpace(o[|o| - 1]) && !GapTarget(o))
  }

  /** Where the lazy object group stops, and that it could not stop before. */
  lemma {:induction false} LazyObjectPlace(t: string, n: nat) returns (k: nat)
    requires 1 <= n <= |t| && LazyObject(t, n).Some?
    requires forall i :: 1 <= i < n ==> MatchTarget(t[i..]).None?
    ensures n <= k <= |t| && MatchTarget(t[k..]).Some? && LazyObject(t, n).value.on == t[..k]
    ensures forall i :: 1 <= i < k ==> MatchTarget(t[i..]).None?
    decreases |t| - n
  {
    hide MatchTarget;
    if MatchTarget(t[n..]).Some? {
      k := n;
    } else {
      k := LazyObjectPlace(t, n + 1);
    }
  }

  lemma SpaceBeforeTarget(t: string, k: nat)
    requires 1 <= k <= |t| && IsSpace(t[k - 1]) && MatchTarget(t[k..]).Some?
    ensures MatchTarget(t[k - 1..]).Some?
  {
    hide ConnectorLength, IsSpace;
    var u, v := t[k - 1..], t[k..];
    assert u[0] == t[k - 1] && u[1..] == v;
    var a := Run(v, Space);
    SpaceRun(u);
    var k := ConnectorLength(v[a..]);
    ConnectorLetters(v[a..]);
    assert u[1 + a..] == v[a..] && u[1 + a + k..] == v[a + k..];
  }

  lemma SpaceRun(u: string)
    requires u != [] && IsSpace(u[0])
    ensures Run(u, Space) == 1 + Run(u[1..], Space)
  {
  }

  lemma LazyObjectText(t: string, k: nat)
    requires 1 <= k <= |t| && MatchTarget(t[k..]).Some? && !IsSpace(t[0]) && !IsSpace(t[|t| - 1])
    requires forall i :: 1 <= i < k ==> MatchTarget(t[i..]).None?
    ensures ObjectText(t[..k])
  {
    hide MatchTarget, IsSpace, GapTargetAt;
    var x := t[..k];
    if IsSpace(x[k - 1]) {
      SpaceBeforeTarget(t, k);
    }
    if GapTarget(x) {
      var i :| GapTargetAt(x, i);
      EarlierTarget(t, k, i);
    }
  }

  lemma StartsWithSpace(z: string)
    requires MatchTarget(z).Some?
    ensures z != [] && IsSpace(z[0])
  {
  }

  /** A connector inside the group, or at its end, is a target the group passed over. */
  lemma EarlierTarget(t: string, k: nat, i: nat)
    requires 1 <= k <= |t| && MatchTarget(t[k..]).Some? && !IsSpace(t[0]) && !IsSpace(t[|t| - 1])
    requires GapTargetAt(t[..k], i)
    ensures 1 <= i < k && MatchTarget(t[i..]).Some?
  {
    hide MatchTarget, WordAt, IsSpace;
    var x := t[..k];
    assert x + t[k..] == t && x[i] == t[i];
    WordStays(x, t[k..], i + 1);
    StartsWithSpace(t[k..]);
    assert t[k..][0] == t[k];
    assert TargetAt(t, i);
    TargetMatches(t, i);
  }

  lemma ClauseObject(t: string)
    requires MatchClause(t).Some? && t != [] && !IsSpace(t[|t| - 1])
    ensures ObjectText(MatchClause(t).value.on)
  {
    hide MatchTarget, LazyObject, GapTarget, IsSpace;
    var a := Run(t, Space);
    if a < |t| && LazyObject(t[a..], 1).Some? {
      var u := t[a..];
      assert u[0] == t[a] && u[|u| - 1] == t[|t| - 1];
      var k := LazyObjectPlace(u, 1);
      LazyObjectText(u, k);
    } else {
      assert t[a - 2..a - 1] == [t[a - 2]] && Has(Space, t[a - 2]);
    }
  }

  lemma OnObject(t: string)
    requires MatchOn(t).Some? && !IsSpace(t[|t| - 1])
    ensures t != [] && ObjectText(MatchOn(t).value.on)
  {
    hide MatchClause, ObjectText;
    var u := t[Run(t, Space) + 2..];
    ClauseNonEmpty(u);
    assert u[|u| - 1] == t[|t| - 1];
    ClauseObject(u);
  }

  lemma ClauseNonEmpty(t: string)
    requires MatchClause(t).Some?
    ensures t != []
  {
  }

  lemma NoGapInNothing()
    ensures !GapTarget("")
  {
  }

  // ---- what the readers return -------------------------------------------------------------

  lemma UpperOfRun(t: string, n: nat)
    requires 0 < n <= |t| && forall i :: 0 <= i < n ==> Has(PrivChar, t[i])
    ensures Token(PrivChar, UpperAll(t[..n])) && UpperAll(UpperAll(t[..n])) == UpperAll(t[..n])
  {
  }

  ghost predicate UpperName(p: string) {
    Token(PrivChar, p) && UpperAll(p) == p
  }

  lemma {:induction false} MatchesAreNames(t: string)
    ensures forall i :: 0 <= i < |PrivilegeMatches(t)| ==> UpperName(PrivilegeMatches(t)[i].name)
    decreases |t|
  {
    if t != [] {
      if Has(PrivChar, t[0]) {
        MatchIsName(t);
        var p := PrivilegeHere(t);
        MatchesAreNames(t[p.length..]);
        assert PrivilegeMatches(t) == [p] + PrivilegeMatches(t[p.length..]);
      } else {
        MatchesAreNames(t[1..]);
      }
    }
  }

  lemma MatchIsName(t: string)
    requires t != [] && Has(PrivChar, t[0])
    ensures UpperName(PrivilegeHere(t).name)
  {
    UpperOfRun(t, Run(t, PrivChar));
    hide Columns, IndexOf, UpperAll, Token;
  }

  lemma ParsedPrivileges(raw: string)
    requires ParsePrivileges(raw).Some?
    ensures var ps := ParsePrivileges(raw).value.0;
            ps != [] && PrivilegeNames(ps) && UpperNames(ps) == ps
  {
    MatchesAreNames(raw);
    var ms := PrivilegeMatches(raw);
    var ps := ParsePrivileges(raw).value.0;
    hide PrivilegeMatches, Unmatched, ColumnKey, Token, UpperAll;
    forall i | 0 <= i < |ps| ensures UpperName(ps[i]) {
      assert ps[i] == ms[i].name;
    }
    assert forall i :: 0 <= i < |ps| ==> UpperNames(ps)[i] == UpperAll(ps[i]);
  }

  lemma PartIsToken(t: string)
    requires ObjectPart(t).Some?
    ensures Token(PartChar, ObjectPart(t).value.0)
  {
  }

  lemma ParsedStructure(raw: string)
    ensures !ParseObject(raw).Raw? ==> NamedObject(ParseObject(raw))
    ensures ParseObject(raw).Raw? ==> ParseObject(raw) == Raw(Trim(raw))
  {
    var t := Trim(raw);
    AllTablesPart(t);
    hide Trim, AllTablesSchema, ObjectPart;
    if ObjectPart(t).Some? {
      PartIsToken(t);
      var rest := ObjectPart(t).value.1;
      if rest != [] && ObjectPart(rest[1..]).Some? {
        PartIsToken(rest[1..]);
      }
    }
  }

  lemma SameTrim(raw: string)
    requires Trim(Trim(raw)) == Trim(raw)
    ensures ParseObject(Trim(raw)) == ParseObject(raw)
  {
    hide Trim, AllTablesSchema, ObjectPart;
  }

  lemma SpaceTrims(o: string)
    requires |o| == 1 && IsSpace(o[0])
    ensures Trim(o) == ""
  {
  }

  /** Whatever the object group held, its structure prints in a form that is read back. */
  lemma ParsedObject(raw: string)
    requires ObjectText(raw)
    ensures NamedObject(ParseObject(raw))
  {
    hide ParseObject, GapTarget, IsSpace, Trim;
    ParsedStructure(raw);
    if |raw| == 1 && IsSpace(raw[0]) {
      SpaceTrims(raw);
      TrimId("");
      NoGapInNothing();
    } else {
      TrimId(raw);
    }
    SameTrim(raw);
  }

  lemma AllTablesPart(t: string)
    ensures AllTablesSchema(t).Some? ==> Token(PartChar, AllTablesSchema(t).value)
  {
    hide AfterKeyword, ObjectPart;
    if AllTablesSchema(t).Some? {
      var t4 := AfterKeyword(AfterKeyword(AfterKeyword(AfterKeyword(t, "ALL").value, "TABLES").value, "IN").value, "SCHEMA").value;
      PartIsToken(t4);
    }
  }

  lemma QuotedIsToken(t: string)
    requires QuotedName(t).Some?
    ensures Token(IdentChar, QuotedName(t).value)
  {
  }

  lemma StartsRole(t: string)
    ensures Starts(t, "ROLE") ==> 4 <= |t|
  {
  }

  lemma ParsedGrantee(raw: string)
    requires ParseGrantee(raw).Some?
    ensures var g := ParseGrantee(raw).value; NamedGrantee(g) && !SubjectIsPublic(g)
  {
    hide Trim, Starts, Run, QuotedName, Token, UpperAll;
    var t := Trim(raw);
    StartsRole(t);
    var sp := if Starts(t, "ROLE") then Run(t[4..], Space) else 0;
    if 0 < sp && QuotedName(t[4 + sp..]).Some? {
      QuotedIsToken(t[4 + sp..]);
    } else {
      QuotedIsToken(t);
    }
  }

  // ---- the privilege group and its columns -------------------------------------------------

  lemma {:induction false} LazyPrivilegesPlace(t: string, n: nat) returns (k: nat)
    requires 1 <= n <= |t| && LazyPrivileges(t, n).Some?
    requires forall i :: 1 <= i < n ==> MatchOn(t[i..]).None?
    ensures n <= k <= |t| && MatchOn(t[k..]).Some? && LazyPrivileges(t, n).value == Body(t[..k], MatchOn(t[k..]).value)
    ensures forall i :: 1 <= i < k ==> MatchOn(t[i..]).None?
    decreases |t| - n
  {
    hide MatchOn;
    if MatchOn(t[n..]).Some? {
      k := n;
    } else {
      k := LazyPrivilegesPlace(t, n + 1);
    }
  }

  /** Where the privilege group of a match stands, and that it could not stop before. */
  lemma BodySite(t: string) returns (b: nat, e: nat)
    requires MatchBody(t).Some?
    ensures b <= e <= |t| && MatchOn(t[e..]).Some? && MatchBody(t).value == Body(t[b..e], MatchOn(t[e..]).value)
    ensures forall i :: b < i < e ==> MatchOn(t[i..]).None?
  {
    hide MatchOn, LazyPrivileges;
    var a := Run(t, Space);
    if a < |t| && LazyPrivileges(t[a..], 1).Some? {
      var k := LazyPrivilegesPlace(t[a..], 1);
      b, e := a, a + k;
      assert t[a..][k..] == t[e..] && t[a..][..k] == t[b..e];
      forall i | b < i < e ensures MatchOn(t[i..]).None? {
        assert t[a..][i - a..] == t[i..];
      }
    } else {
      b, e := a - 2, a - 1;
    }
  }

  lemma {:induction false} FirstMatch(p: string) returns (j: nat)
    requires PrivilegeMatches(p) != []
    ensures j < |p| && Has(PrivChar, p[j]) && PrivilegeMatches(p)[0] == PrivilegeHere(p[j..])
    decreases |p|
  {
    hide PrivilegeHere;
    if Has(PrivChar, p[0]) {
      j := 0;
      assert p[0..] == p;
    } else {
      j := FirstMatch(p[1..]);
      assert p[1..][j..] == p[j + 1..] && p[1..][j] == p[j + 1];
      j := j + 1;
    }
  }

  /** The inside of the parentheses of a match. */
  lemma ListPlace(u: string) returns (lo: nat, hi: nat)
    requires u != [] && Has(PrivChar, u[0]) && PrivilegeHere(u).columns.Some?
    ensures 1 <= lo <= hi < |u| && PrivilegeHere(u).columns == Some(Columns(u[lo..hi])) && ')' !in u[lo..hi]
  {
    hide Columns;
    var n := Run(u, PrivChar);
    var sp := n + Run(u[n..], Space);
    lo, hi := sp + 1, sp + IndexOf(u[sp..], ')');
    assert u[sp..][0] == '(';
    forall d | lo <= d < hi ensures u[d] != ')' {
      assert u[sp..][d - sp] == u[d];
    }
  }

  predicate TrimmedPiece(c: string) {
    c != [] && !IsSpace(c[0]) && !IsSpace(c[|c| - 1]) && ',' !in c
  }

  /** The trimmed piece of a text, as a stretch of it. */
  lemma TrimPlace(t: string) returns (x: nat, y: nat)
    ensures x <= y <= |t| && Trim(t) == t[x..y]
    ensures Trim(t) != [] ==> !IsSpace(Trim(t)[0]) && !IsSpace(Trim(t)[|Trim(t)| - 1])
  {
    var lead, tail := TrimShape(t);
    hide Trim;
    x, y := |lead|, |lead| + |Trim(t)|;
  }

  /** Every column is a trimmed stretch of the list. */
  lemma {:induction false} ColumnPlace(t: string, i: nat) returns (x: nat, y: nat)
    requires i < |Columns(t)|
    ensures x <= y <= |t| && Columns(t)[i] == t[x..y] && TrimmedPiece(t[x..y])
    decreases |t|
  {
    hide Columns, TrimmedPiece, Trim;
    var n := IndexOf(t, ',');
    var head := t[..n];
    var rest := if n == |t| then "" else t[n + 1..];
    ColumnsHead(t);
    PieceNoComma(t);
    if Trim(head) != [] && i == 0 {
      x, y := TrimPlace(head);
      assert head[x..y] == t[x..y];
      StretchNoComma(head, x, y);
    } else {
      x, y := ColumnPlace(rest, if Trim(head) == [] then i else i - 1);
      assert rest[x..y] == t[n + 1 + x..n + 1 + y];
      x, y := n + 1 + x, n + 1 + y;
    }
  }

  lemma ColumnsHead(t: string)
    ensures var n := IndexOf(t, ',');
            var first := if Trim(t[..n]) == [] then [] else [Trim(t[..n])];
            Columns(t) == first + (if n == |t| then [] else Columns(t[n + 1..]))
  {
    hide *;
    var n := IndexOf(t, ',');
    SplitHead(t);
    PieceHead(t[..n], if n == |t| then [] else Split(t[n + 1..], ','));
    ColumnsOf(t);
    if n < |t| {
      ColumnsOf(t[n + 1..]);
    }
  }

  lemma ColumnsOf(t: string)
    ensures Columns(t) == TrimmedNonEmpty(Split(t, ',')) && TrimmedNonEmpty([]) == [] && IndexOf(t, ',') <= |t|
  {
  }

  lemma SplitHead(t: string)
    ensures var n := IndexOf(t, ',');
            n <= |t| && Split(t, ',') == [t[..n]] + (if n == |t| then [] else Split(t[n + 1..], ','))
  {
    hide IndexOf;
    assert t[..|t|] == t;
  }

  lemma PieceHead(x: string, xs: seq<string>)
    ensures TrimmedNonEmpty([x] + xs) == (if Trim(x) == [] then [] else [Trim(x)]) + TrimmedNonEmpty(xs)
  {
    hide Trim;
  }

  lemma PieceNoComma(t: string)
    ensures ',' !in t[..IndexOf(t, ',')]
  {
  }

  lemma StretchNoComma(t: string, x: nat, y: nat)
    requires x <= y <= |t| && ',' !in t && t[x..y] != [] && !IsSpace(t[x..y][0]) && !IsSpace(t[x..y][y - x - 1])
    ensures TrimmedPiece(t[x..y])
  {
  }

  /** A column with an ON between spaces would have stopped the privilege group. */
  lemma ColumnHasNoOn(t: string, b: nat, e: nat, x: nat, y: nat)
    requires b < x <= y <= e <= |t| && MatchOn(t[e..]).Some? && TrimmedPiece(t[x..y])
    requires forall i :: b < i < e ==> MatchOn(t[i..]).None?
    ensures !GapOn(t[x..y])
  {
    hide MatchOn, MatchTarget, GapOnAt;
    var c := t[x..y];
    if GapOn(c) {
      var i :| GapOnAt(c, i);
      var d := OnTarget(t[e..]);
      assert t[e..][d..] == t[e + d..];
      GapInStretch(t, x, y, i);
      PlaceMatches(t, x + i, y - 1, e + d);
    }
  }

  lemma GapInStretch(t: string, x: nat, y: nat, i: nat)
    requires x <= y <= |t| && GapOnAt(t[x..y], i) && !IsSpace(t[x..y][y - x - 1])
    ensures GapOnAt(t, x + i) && x + i + 3 < y - 1 && !IsSpace(t[y - 1])
  {
    hide IsSpace, Upper;
  }

  /** The columns read from the privilege group of a match. */
  lemma GroupColumns(t: string, b: nat, e: nat)
    requires b <= e <= |t| && MatchOn(t[e..]).Some? && ParsePrivileges(t[b..e]).Some?
    requires forall i :: b < i < e ==> MatchOn(t[i..]).None?
    ensures var cols := ParsePrivileges(t[b..e]).value.1; cols.Some? ==> ColumnNames(cols.value)
  {
    hide MatchOn, Columns, PrivilegeHere, ColumnName;
    var p := t[b..e];
    var cols := ParsePrivileges(p).value.1;
    FirstColumns(p);
    if cols.Some? {
      var j := FirstMatch(p);
      var lo, hi := ListPlace(p[j..]);
      var from := b + j + lo;
      Stretch(t, b, e, j, |p|);
      Stretch(t, b + j, e, lo, hi);
      forall i | 0 <= i < |cols.value| ensures ColumnName(cols.value[i]) {
        ListedColumn(t, b, e, from, b + j + hi, i);
      }
    }
  }

  lemma FirstColumns(p: string)
    requires ParsePrivileges(p).Some?
    ensures PrivilegeMatches(p) != [] && ParsePrivileges(p).value.1 == PrivilegeMatches(p)[0].columns
  {
    hide PrivilegeMatches, Unmatched, ColumnKey;
  }

  lemma Stretch(t: string, lo: nat, hi: nat, x: nat, y: nat)
    requires lo <= hi <= |t| && x <= y <= hi - lo
    ensures t[lo..hi][x..y] == t[lo + x..lo + y]
  {
    var u, v, w := t[lo..hi], t[lo..hi][x..y], t[lo + x..lo + y];
    forall d | 0 <= d < y - x ensures v[d] == w[d] {
      assert v[d] == u[x + d] && u[x + d] == t[lo + (x + d)] && w[d] == t[lo + x + d];
    }
    assert |v| == |w|;
  }

  lemma ListedColumn(t: string, b: nat, e: nat, lo: nat, hi: nat, i: nat)
    requires b < lo <= hi <= e <= |t| && MatchOn(t[e..]).Some? && ')' !in t[lo..hi] && i < |Columns(t[lo..hi])|
    requires forall i :: b < i < e ==> MatchOn(t[i..]).None?
    ensures ColumnName(Columns(t[lo..hi])[i])
  {
    hide MatchOn, Columns, GapOn, IsSpace;
    var x, y := ColumnPlace(t[lo..hi], i);
    Stretch(t, lo, hi, x, y);
    ColumnHasNoOn(t, b, e, lo + x, lo + y);
    assert forall d :: x <= d < y ==> t[lo..hi][d] != ')';
  }

  // ---- the whole statement -----------------------------------------------------------------

  /** The text behind the keyword, cut where the groups of the match end. */
  lemma ObjectSite(s: string) returns (t: string, b: nat, e: nat)
    requires s != [] && !IsSpace(s[|s| - 1]) && ParseObjectStatement(s).Some?
    ensures t != [] && b <= e <= |t| && !IsSpace(t[|t| - 1]) && MatchOn(t[e..]).Some?
    ensures forall i :: b < i < e ==> MatchOn(t[i..]).None?
    ensures ParsePrivileges(t[b..e]).Some? && ParseGrantee(MatchOn(t[e..]).value.target.rest).Some?
    ensures var st := ParseObjectStatement(s).value;
            && st.ObjectGrant? && (st.privileges, st.columns) == ParsePrivileges(t[b..e]).value
            && st.on == ParseObject(MatchOn(t[e..]).value.on)
            && st.grantee == ParseGrantee(MatchOn(t[e..]).value.target.rest).value
  {
    hide MatchBody, MatchOn, ParsePrivileges, ParseGrantee, ParseObject, LeadingAction, Keyword, Connector, IsSpace;
    ActionFits(s);
    t := s[|Keyword(LeadingAction(s).value)|..];
    b, e := BodySite(t);
    OnNonEmpty(t[e..]);
    assert t[|t| - 1] == s[|s| - 1];
  }

  lemma OnNonEmpty(t: string)
    requires MatchOn(t).Some?
    ensures t != []
  {
    hide MatchClause, Starts;
  }

  /** Every accepted object statement has parts that the printer can show. */
  lemma ParsedObjectStatement(s: string)
    requires s != [] && !IsSpace(s[|s| - 1]) && ParseObjectStatement(s).Some?
    ensures var st := ParseObjectStatement(s).value;
            && st.ObjectGrant? && st.privileges != [] && UpperNames(st.privileges) == st.privileges
            && Parts(st.privileges, st.columns, st.on, st.grantee)
            && (st.columns.Some? ==> ColumnNames(st.columns.value)) && !SubjectIsPublic(st.grantee)
  {
    hide *;
    var t, b, e := ObjectSite(s);
    ParsedPrivileges(t[b..e]);
    GroupColumns(t, b, e);
    OnNonEmpty(t[e..]);
    LastOfSuffix(t, e);
    OnObject(t[e..]);
    ParsedObject(MatchOn(t[e..]).value.on);
    ParsedGrantee(MatchOn(t[e..]).value.target.rest);
    var st := ParseObjectStatement(s).value;
    TheParts(st.privileges, st.columns, st.on, st.grantee);
  }

  lemma LastOfSuffix(t: string, e: nat)
    requires e <= |t| && t[e..] != []
    ensures t[e..][|t[e..]| - 1] == t[|t| - 1]
  {
  }

  lemma TheParts(ps: seq<string>, cols: Option<seq<string>>, o: ObjectRef, g: Grantee)
    requires PrivilegeNames(ps) && (cols.Some? ==> ColumnNames(cols.value)) && NamedObject(o) && NamedGrantee(g)
    ensures Parts(ps, cols, o, g)
  {
  }
}
