/** Printing a statement and parsing it again. */
module GrantRoundTrip {
  import opened Text
  import opened GrantStore
  import opened GrantParse
  import opened GrantScan

  // ---- the parts of a printable statement --------------------------------------------------

  ghost predicate PrivilegeNames(privileges: seq<string>) {
    forall i :: 0 <= i < |privileges| ==> Token(PrivChar, privileges[i])
  }

  /** A column as a list can hold it: trimmed, without comma or closing parenthesis, and with no ON
      between spaces. */
  ghost predicate ColumnName(c: string) {
    c != [] && !IsSpace(c[0]) && !IsSpace(c[|c| - 1]) && ',' !in c && ')' !in c && !GapOn(c)
  }

  /** A column that starts with the word ON and a space. */
  predicate LeadsOn(c: string) {
    3 <= |c| && Upper(c[0]) == 'O' && Upper(c[1]) == 'N' && IsSpace(c[2])
  }

  /** Such a column behind the first: the printed comma puts a space before it. */
  predicate LaterColumnOn(columns: Option<seq<string>>) {
    columns.Some? && exists i :: 1 <= i < |columns.value| && LeadsOn(columns.value[i])
  }

  /** No ON can be read inside the column list. */
  ghost predicate QuietColumns(columns: Option<seq<string>>) {
    (HasColumns(columns) ==> ColumnNames(columns.value)) && !LaterColumnOn(columns)
  }

  ghost predicate ColumnNames(cols: seq<string>) {
    forall i :: 0 <= i < |cols| ==> ColumnName(cols[i])
  }

  ghost predicate NamedGrantee(g: Grantee) {
    g.Public? || Token(IdentChar, g.name)
  }

  ghost predicate NamedObject(o: ObjectRef) {
    match o
    case Table(s, t) => Token(PartChar, s) && Token(PartChar, t)
    case AllTables(s) => Token(PartChar, s)
    case Raw(text) => RawText(text)
  }

  /** An object text as the statement pattern can leave it: trimmed, no connector inside, and neither
      a table nor all tables of a schema. */
  ghost predicate RawText(text: string) {
    && (text != [] ==> !IsSpace(text[0]) && !IsSpace(text[|text| - 1]))
    && !GapTarget(text) && ParseObject(text) == Raw(text)
  }

  /** The `on` text of a structured object, as the ACL route writes it. */
  function OnText(o: ObjectRef): string {
    match o
    case Table(s, t) => s + ("." + t)
    case AllTables(s) => "ALL TABLES IN SCHEMA " + s
    case Raw(text) => text
  }

  function UpperNames(privileges: seq<string>): seq<string> {
    seq(|privileges|, i requires 0 <= i < |privileges| => UpperAll(privileges[i]))
  }

  /** The printed column list, if any: an empty list prints as no list at all. */
  function Shown(columns: Option<seq<string>>): Option<seq<string>> {
    if columns == Some([]) then None else columns
  }

  // ---- the privilege list, cell by cell ----------------------------------------------------

  function Cell(p: string, columns: Option<seq<string>>): string {
    UpperAll(p) + ColumnSuffix(columns)
  }

  /** The printed privileges followed by `e`, which is empty or a comma. */
  function Cells(privileges: seq<string>, columns: Option<seq<string>>, e: string): string
    requires privileges != []
  {
    if |privileges| == 1 then Cell(privileges[0], columns) + e
    else Cell(privileges[0], columns) + ("," + (" " + Cells(privileges[1..], columns, e)))
  }

  lemma {:induction false} PrivilegeListIsCells(privileges: seq<string>, columns: Option<seq<string>>)
    requires privileges != []
    ensures PrivilegeList(privileges, columns) == Cells(privileges, columns, "")
  {
    hide UpperAll, ColumnSuffix, Cells, Cell;
    CellsHead(privileges, columns, "");
    ListHead(privileges, columns);
    if |privileges| > 1 {
      PrivilegeListIsCells(privileges[1..], columns);
    }
  }

  lemma ListHead(privileges: seq<string>, columns: Option<seq<string>>)
    requires privileges != []
    ensures PrivilegeList(privileges, columns) == Cell(privileges[0], columns)
              + (if |privileges| == 1 then "" else "," + (" " + PrivilegeList(privileges[1..], columns)))
  {
    hide UpperAll, ColumnSuffix;
    var cs := seq(|privileges|, i requires 0 <= i < |privileges| => UpperAll(privileges[i]) + ColumnSuffix(columns));
    if |privileges| > 1 {
      var rest := privileges[1..];
      assert cs[1..] == seq(|rest|, i requires 0 <= i < |rest| => UpperAll(rest[i]) + ColumnSuffix(columns));
      CommaSpace(cs[0], PrivilegeList(rest, columns));
    }
  }

  lemma CommaSpace(c: string, y: string)
    ensures c + ", " + y == c + ("," + (" " + y))
  {
  }

  lemma {:induction false} CellsSplit(privileges: seq<string>, columns: Option<seq<string>>, e: string, k: nat)
    requires 0 < k < |privileges|
    ensures Cells(privileges, columns, e)
         == Cells(privileges[..k], columns, ",") + (" " + Cells(privileges[k..], columns, e))
  {
    hide *;
    var rest, front := privileges[1..], privileges[..k];
    var c, tail := Cell(privileges[0], columns), Cells(privileges[k..], columns, e);
    CellsHead(privileges, columns, e);
    CellsHead(front, columns, ",");
    assert front[0] == privileges[0];
    if k == 1 {
      Regroup(c, "", tail);
    } else {
      CellsSplit(rest, columns, e, k - 1);
      assert rest[..k - 1] == front[1..] && rest[k - 1..] == privileges[k..];
      Regroup(c, Cells(front[1..], columns, ","), tail);
    }
  }

  lemma CellsHead(privileges: seq<string>, columns: Option<seq<string>>, e: string)
    requires privileges != []
    ensures Cells(privileges, columns, e) == Cell(privileges[0], columns)
              + (if |privileges| == 1 then e else "," + (" " + Cells(privileges[1..], columns, e)))
  {
  }

  lemma Regroup(c: string, x: string, y: string)
    ensures c + ("," + (" " + (x + (" " + y)))) == c + ("," + (" " + x)) + (" " + y)
    ensures c + ("," + (" " + y)) == c + "," + (" " + y)
  {
  }

  // ---- where ON can be read inside the privilege list --------------------------------------

  predicate HasColumns(columns: Option<seq<string>>) {
    columns.Some? && columns.value != []
  }

  /** Cell `i` is the bare word ON, with a space after it. */
  predicate ReadsAsOn(privileges: seq<string>, columns: Option<seq<string>>, e: string, i: nat)
    requires i < |privileges|
  {
    UpperAll(privileges[i]) == "ON" && (HasColumns(columns) || (i == |privileges| - 1 && e == ""))
  }

  lemma NoSpaceUpper(s: string, cls: CharClass)
    requires All(cls, s) && cls != Space
    ensures NoSpace(s) && NoSpace(UpperAll(s)) && UpperAll(UpperAll(s)) == UpperAll(s)
  {
    forall i | 0 <= i < |s| ensures !IsSpace(s[i]) && !IsSpace(UpperAll(s)[i]) {
      assert Has(cls, s[i]);
    }
  }

  lemma SpacedTokenNoOn(x: string, mark: char, y: string)
    requires NoSpace(x) && !IsLetter(mark) && !IsSpace(mark)
    ensures NoOnIn(" " + (x + [mark]), y)
  {
    var t := x + [mark];
    MarkRulesOutOn(x, mark, y);
    assert " " + x + [mark] + y == " " + (t + y);
    NoSpaceNoStop(t, y);
    hide *;
    NoOnAtSpace(t, y);
  }

  /** A column after a space, or after a space and a parenthesis. */
  lemma PieceGap(lead: string, c: string, i: nat)
    requires (lead == "" || lead == "(") && GapOnAt(" " + (lead + c), i)
    ensures GapOn(c) || (lead == "" && LeadsOn(c))
  {
    var x, off := " " + (lead + c), 1 + |lead|;
    assert lead == "(" ==> x[1] == '(';
    assert forall d :: 0 <= d < |c| ==> x[off + d] == c[d];
    if i >= off {
      assert x[i] == c[i - off] && x[i + 1] == c[i + 1 - off] && x[i + 2] == c[i + 2 - off] && x[i + 3] == c[i + 3 - off];
      assert GapOnAt(c, i - off);
    } else if lead == "" {
      assert x[1] == c[0] && x[2] == c[1] && x[3] == c[2];
    }
  }

  lemma PieceNoOn(lead: string, c: string, mark: char, y: string)
    requires ColumnName(c) && (lead == "(" || (lead == "" && !LeadsOn(c))) && (mark == ',' || mark == ')')
    ensures NoOnIn(" " + (lead + c) + [mark], y)
  {
    hide LeadsOn, GapOnAt;
    var x := " " + (lead + c);
    if GapOn(x) {
      var i :| GapOnAt(x, i);
      PieceGap(lead, c, i);
    }
    MarkedNoOn(x, mark, y);
  }

  /** No ON in a column list closed by `mark`, when no column behind a space starts with it. */
  lemma {:induction false} ColumnsNoOn(lead: string, cols: seq<string>, mark: char, y: string)
    requires cols != [] && ColumnNames(cols) && (lead == "(" || (lead == "" && !LeadsOn(cols[0])))
    requires (forall i :: 1 <= i < |cols| ==> !LeadsOn(cols[i])) && (mark == ',' || mark == ')')
    ensures NoOnIn(" " + (lead + (Join(cols, ", ") + [mark])), y)
    decreases |cols|
  {
    hide NoOnIn, MatchOn, ColumnName, LeadsOn;
    var c := cols[0];
    if |cols| == 1 {
      PieceNoOn(lead, c, mark, y);
      assert " " + (lead + (Join(cols, ", ") + [mark])) == " " + (lead + c) + [mark];
    } else {
      var rest := " " + ("" + (Join(cols[1..], ", ") + [mark]));
      ColumnsNoOn("", cols[1..], mark, y);
      PieceNoOn(lead, c, ',', rest + y);
      NoOnConcat(" " + (lead + c) + [','], rest, y);
      JoinPieces(lead, c, Join(cols[1..], ", "), mark);
    }
  }

  lemma JoinPieces(lead: string, c: string, j: string, mark: char)
    ensures " " + (lead + (c + ", " + j + [mark])) == " " + (lead + c) + [','] + (" " + ("" + (j + [mark])))
  {
  }

  lemma SuffixNoOn(columns: Option<seq<string>>, y: string)
    requires QuietColumns(columns)
    ensures NoOnIn(ColumnSuffix(columns), y)
  {
    hide ColumnNames, LeadsOn;
    if HasColumns(columns) {
      ColumnsNoOn("(", columns.value, ')', y);
      assert ColumnSuffix(columns) == " " + ("(" + (Join(columns.value, ", ") + [')']));
    }
  }

  lemma LeadingSpaceNoOn(word: string, suffix: string, y: string)
    requires word != [] && NoSpace(word) && UpperAll(word) != "ON" && NoOnIn(word + suffix, y)
    requires suffix + y == [] || IsSpace((suffix + y)[0])
    ensures NoOnIn(" " + (word + suffix), y)
  {
    hide NoOnIn, MatchOn;
    WordRulesOutOn(word, suffix + y);
    assert " " + word + (suffix + y) == " " + (word + suffix + y);
    NoOnAtSpace(word + suffix, y);
  }

  /** A cell holds no ON in itself. */
  lemma CellNoOn(p: string, columns: Option<seq<string>>, y: string)
    requires Token(PrivChar, p) && QuietColumns(columns)
    ensures NoOnIn(Cell(p, columns), y)
  {
    NoSpaceUpper(p, PrivChar);
    hide NoOnIn, MatchOn;
    NoSpaceNoStop(UpperAll(p), ColumnSuffix(columns) + y);
    SuffixNoOn(columns, y);
    NoOnConcat(UpperAll(p), ColumnSuffix(columns), y);
  }

  /** None at the space before a cell either, unless the cell is that very word. */
  lemma SpaceCellNoOn(p: string, columns: Option<seq<string>>, comma: bool, y: string)
    requires Token(PrivChar, p) && QuietColumns(columns)
    requires UpperAll(p) == "ON" ==> comma && !HasColumns(columns)
    requires comma || (y != [] && IsSpace(y[0]))
    ensures NoOnIn(" " + (Cell(p, columns) + (if comma then "," else "")), y)
  {
    var word, suffix, e := UpperAll(p), ColumnSuffix(columns), if comma then "," else "";
    NoSpaceUpper(p, PrivChar);
    hide NoOnIn, MatchOn;
    if comma && !HasColumns(columns) {
      SpacedTokenNoOn(word, ',', y);
      assert Cell(p, columns) + e == word + [','];
    } else {
      CellNoOn(p, columns, e + y);
      LeadingSpaceNoOn(word, suffix, e + y);
      NoSpaceNoStop(e, y);
      NoOnConcat(" " + (word + suffix), e, y);
      assert " " + (Cell(p, columns) + e) == " " + (word + suffix) + e;
    }
  }

  lemma CellThenTail(p: string, columns: Option<seq<string>>, tail: string, y: string)
    requires Token(PrivChar, p) && QuietColumns(columns)
    requires NoOnIn(tail, y)
    ensures NoOnIn(Cell(p, columns) + ("," + tail), y)
    ensures (UpperAll(p) == "ON" && HasColumns(columns)) || NoOnIn(" " + (Cell(p, columns) + ("," + tail)), y)
  {
    hide NoOnIn, MatchOn, Cell;
    var cell := Cell(p, columns);
    CellNoOn(p, columns, "," + (tail + y));
    NoSpaceNoStop(",", tail + y);
    NoOnConcat(cell, ",", tail + y);
    NoOnConcat(cell + ",", tail, y);
    assert cell + "," + tail == cell + ("," + tail);
    if !(UpperAll(p) == "ON" && HasColumns(columns)) {
      SpaceCellNoOn(p, columns, true, tail + y);
      NoOnConcat(" " + (cell + ","), tail, y);
      assert " " + (cell + ",") + tail == " " + (cell + ("," + tail));
    }
  }

  /** The whole list, and the space before it, when no cell reads as ON. */
  lemma {:induction false} CellsNoOn(privileges: seq<string>, columns: Option<seq<string>>, e: string, y: string)
    requires privileges != [] && PrivilegeNames(privileges)
    requires QuietColumns(columns)
    requires e == "," || (e == "" && y != [] && IsSpace(y[0]))
    requires forall i :: 1 <= i < |privileges| ==> !ReadsAsOn(privileges, columns, e, i)
    ensures NoOnIn(Cells(privileges, columns, e), y)
    ensures !ReadsAsOn(privileges, columns, e, 0) ==> NoOnIn(" " + Cells(privileges, columns, e), y)
  {
    var p, cell := privileges[0], Cell(privileges[0], columns);
    hide NoOnIn, MatchOn, Cell;
    if |privileges| == 1 {
      CellNoOn(p, columns, e + y);
      NoSpaceNoStop(e, y);
      NoOnConcat(cell, e, y);
      if !ReadsAsOn(privileges, columns, e, 0) {
        SpaceCellNoOn(p, columns, e == ",", y);
      }
    } else {
      var rest := privileges[1..];
      assert forall i :: 0 <= i < |rest| ==> ReadsAsOn(rest, columns, e, i) == ReadsAsOn(privileges, columns, e, i + 1);
      CellsNoOn(rest, columns, e, y);
      CellThenTail(p, columns, " " + Cells(rest, columns, e), y);
    }
  }

  // ---- reading the privilege list back -----------------------------------------------------

  lemma IndexOfConcat(x: string, c: char, y: string)
    requires c !in x
    ensures IndexOf(x + [c] + y, c) == |x| && IndexOf(x, c) == |x|
  {
    var t := x + [c] + y;
    assert t[|x|] == c && forall i :: 0 <= i < |x| ==> t[i] == x[i];
  }

  lemma TrimAfterSpaces(lead: string, x: string)
    requires All(Space, lead) && x != [] && !IsSpace(x[0]) && !IsSpace(x[|x| - 1])
    ensures Trim(lead + x) == x
  {
    RunConcat(lead, x, Space);
    assert (lead + x)[|lead|..] == x;
  }

  lemma SplitStep(x: string, c: char, rest: string)
    requires c !in x
    ensures Split(x + [c] + rest, c) == [x] + Split(rest, c)
    ensures Split(x, c) == [x]
  {
    IndexOfConcat(x, c, rest);
    var t := x + [c] + rest;
    assert t[..|x|] == x && t[|x| + 1..] == rest;
  }

  lemma KeepStep(x: string, xs: seq<string>)
    requires Trim(x) != []
    ensures TrimmedNonEmpty([x] + xs) == [Trim(x)] + TrimmedNonEmpty(xs)
  {
  }

  /** The inside of the parentheses, piece by piece. */
  function ColumnText(lead: string, cols: seq<string>): string
    requires cols != []
    decreases |cols|
  {
    if |cols| == 1 then lead + cols[0] else (lead + cols[0]) + [','] + ColumnText(" ", cols[1..])
  }

  lemma {:induction false} ColumnTextIsJoin(lead: string, cols: seq<string>)
    requires cols != []
    ensures ColumnText(lead, cols) == lead + Join(cols, ", ")
    decreases |cols|
  {
    if |cols| > 1 {
      ColumnTextIsJoin(" ", cols[1..]);
      var j := Join(cols[1..], ", ");
      assert cols[0] + ", " + j == cols[0] + ([','] + (" " + j));
    }
  }

  lemma NothingKept()
    ensures TrimmedNonEmpty([]) == []
  {
  }

  lemma {:induction false} ColumnsOfText(lead: string, cols: seq<string>)
    requires cols != [] && ColumnNames(cols) && (lead == "" || lead == " ")
    ensures Columns(ColumnText(lead, cols)) == cols
    decreases |cols|
  {
    hide Columns, ColumnName;
    if |cols| == 1 {
      FirstColumn(lead, cols[0], "");
    } else {
      FirstColumn(lead, cols[0], ColumnText(" ", cols[1..]));
      ColumnsOfText(" ", cols[1..]);
    }
  }

  lemma FirstColumn(lead: string, c: string, rest: string)
    requires ColumnName(c) && (lead == "" || lead == " ")
    ensures Columns(lead + c) == [c]
    ensures Columns((lead + c) + [','] + rest) == [c] + Columns(rest)
  {
    ColumnNameTrims(lead, c);
    hide Trim, Split, TrimmedNonEmpty, ColumnName;
    SplitStep(lead + c, ',', rest);
    KeepStep(lead + c, Split(rest, ','));
    KeepStep(lead + c, []);
    NothingKept();
    assert [lead + c] + [] == [lead + c];
  }

  lemma ColumnNameTrims(lead: string, c: string)
    requires ColumnName(c) && (lead == "" || lead == " ")
    ensures c != [] && ',' !in lead + c && Trim(lead + c) == c
  {
    TrimAfterSpaces(lead, c);
    hide Trim;
  }

  lemma BareCell(word: string, rest: string)
    requires Token(PrivChar, word) && UpperAll(word) == word
    requires rest == [] || rest[0] == ','
    ensures Has(PrivChar, word[0])
    ensures PrivilegeHere(word + rest) == Privilege(word, None, |word|)
  {
    RunConcat(word, rest, PrivChar);
    assert (word + rest)[..|word|] == word && (word + rest)[|word|..] == rest;
  }

  lemma Parenthesized(inside: string, rest: string)
    requires ')' !in inside
    ensures var after := "(" + inside + [')'] + rest;
            && IndexOf(after, ')') == 1 + |inside|
            && after[1..1 + |inside|] == inside
            && after[0] == '('
  {
    IndexOfConcat("(" + inside, ')', rest);
  }

  lemma ListCell(word: string, inside: string, rest: string)
    requires Token(PrivChar, word) && UpperAll(word) == word && ')' !in inside
    ensures Has(PrivChar, word[0])
    ensures PrivilegeHere(word + (" " + ("(" + inside + [')'] + rest)))
         == Privilege(word, Some(Columns(inside)), |word| + |inside| + 3)
  {
    var after := "(" + inside + [')'] + rest;
    Parenthesized(inside, rest);
    ListCellAt(word, inside, after);
  }

  lemma PrivilegeWithList(t: string, word: string, inside: string)
    requires |word| + |inside| + 2 < |t| && Has(PrivChar, t[0]) && Run(t, PrivChar) == |word| && t[..|word|] == word
    requires Run(t[|word|..], Space) == 1 && t[|word| + 1] == '(' && IndexOf(t[|word| + 1..], ')') == 1 + |inside|
    requires t[|word| + 2..|word| + 2 + |inside|] == inside
    ensures PrivilegeHere(t) == Privilege(UpperAll(word), Some(Columns(inside)), |word| + |inside| + 3)
  {
    hide Columns, Run, IndexOf, UpperAll;
  }

  lemma ListCellAt(word: string, inside: string, after: string)
    requires Token(PrivChar, word) && UpperAll(word) == word
    requires 2 + |inside| <= |after| && after[0] == '(' && after[1..1 + |inside|] == inside
    requires IndexOf(after, ')') == 1 + |inside|
    ensures Has(PrivChar, word[0])
    ensures PrivilegeHere(word + (" " + after))
         == Privilege(word, Some(Columns(inside)), |word| + |inside| + 3)
  {
    hide *;
    var t := word + (" " + after);
    WordThenParenthesis(word, after);
    ListPlaces(word, |inside|, after);
    PrivilegeWithList(t, word, inside);
  }

  lemma ListPlaces(word: string, n: nat, after: string)
    requires word != [] && 1 + n <= |after|
    ensures var t := word + (" " + after);
            && t[0] == word[0] && t[..|word|] == word && t[|word|..] == " " + after && t[|word| + 1..] == after
            && t[|word| + 1] == after[0] && t[|word| + 2..|word| + 2 + n] == after[1..1 + n]
  {
  }

  lemma WordThenParenthesis(word: string, after: string)
    requires Token(PrivChar, word) && after != [] && after[0] == '('
    ensures word != [] && Has(PrivChar, word[0])
    ensures Run(word + (" " + after), PrivChar) == |word| && Run(" " + after, Space) == 1
  {
    RunConcat(word, " " + after, PrivChar);
    OneSpace(after);
  }

  lemma CellText(p: string, columns: Option<seq<string>>, rest: string)
    requires HasColumns(columns)
    ensures Cell(p, columns) + rest
         == UpperAll(p) + (" " + ("(" + ColumnText("", columns.value) + [')'] + rest))
  {
    ColumnTextIsJoin("", columns.value);
    var j := Join(columns.value, ", ");
    assert "" + j == j;
    assert " (" + j + ")" == " " + ("(" + j + [')']);
  }

  lemma PrivilegeHereIs(p: string, columns: Option<seq<string>>, rest: string)
    requires Token(PrivChar, p) && (HasColumns(columns) ==> ColumnNames(columns.value))
    requires rest == [] || rest[0] == ','
    ensures Has(PrivChar, UpperAll(p)[0])
    ensures PrivilegeHere(Cell(p, columns) + rest)
         == Privilege(UpperAll(p), Shown(columns), |Cell(p, columns)|)
  {
    var word := UpperAll(p);
    UpperToken(p);
    if HasColumns(columns) {
      var inside := ColumnText("", columns.value);
      ColumnsOfText("", columns.value);
      CellText(p, columns, rest);
      CellText(p, columns, "");
      NoParenthesis("", columns.value);
      hide *;
      ListCell(word, inside, rest);
      assert |Cell(p, columns)| == |Cell(p, columns) + ""| == |word| + |inside| + 3;
      assert Shown(columns) == columns by { ShownList(columns); }
    } else {
      BareCell(word, rest);
      assert Cell(p, columns) + rest == word + rest;
    }
  }

  lemma ShownList(columns: Option<seq<string>>)
    ensures HasColumns(columns) ==> Shown(columns) == columns
  {
  }

  lemma {:induction false} NoParenthesis(lead: string, cols: seq<string>)
    requires cols != [] && ColumnNames(cols) && ')' !in lead
    ensures ')' !in ColumnText(lead, cols)
    decreases |cols|
  {
    assert ColumnName(cols[0]);
    if |cols| > 1 {
      NoParenthesis(" ", cols[1..]);
    }
  }

  lemma UpperToken(p: string)
    requires Token(PrivChar, p)
    ensures Token(PrivChar, UpperAll(p)) && UpperAll(UpperAll(p)) == UpperAll(p)
  {
    forall i | 0 <= i < |p| ensures Has(PrivChar, UpperAll(p)[i]) && Upper(Upper(p[i])) == Upper(p[i]) {
      assert Has(PrivChar, p[i]);
    }
  }

  function Read(privileges: seq<string>, columns: Option<seq<string>>, e: string): seq<Privilege> {
    seq(|privileges|, i requires 0 <= i < |privileges| =>
      Privilege(UpperAll(privileges[i]), Shown(columns), |Cell(privileges[i], columns)|))
  }

  lemma SeparatorStep(c: char, t: string)
    requires !Has(PrivChar, c)
    ensures PrivilegeMatches([c] + t) == PrivilegeMatches(t)
    ensures Unmatched([c] + t) == [c] + Unmatched(t)
  {
  }

  lemma CellStep(p: string, columns: Option<seq<string>>, rest: string)
    requires Token(PrivChar, p) && (HasColumns(columns) ==> ColumnNames(columns.value))
    requires rest == [] || rest[0] == ','
    ensures PrivilegeMatches(Cell(p, columns) + rest)
         == [Privilege(UpperAll(p), Shown(columns), |Cell(p, columns)|)] + PrivilegeMatches(rest)
    ensures Unmatched(Cell(p, columns) + rest) == Unmatched(rest)
  {
    PrivilegeHereIs(p, columns, rest);
    assert (Cell(p, columns) + rest)[0] == UpperAll(p)[0];
    assert (Cell(p, columns) + rest)[|Cell(p, columns)|..] == rest;
    hide PrivilegeHere, Cell;
  }

  lemma {:induction false} CellsRead(privileges: seq<string>, columns: Option<seq<string>>, e: string)
    requires privileges != [] && PrivilegeNames(privileges)
    requires HasColumns(columns) ==> ColumnNames(columns.value)
    requires e == "," || e == ""
    ensures PrivilegeMatches(Cells(privileges, columns, e)) == Read(privileges, columns, e)
    ensures OnlySeparators(Unmatched(Cells(privileges, columns, e)))
  {
    hide *;
    var p := privileges[0];
    CellsHead(privileges, columns, e);
    ReadHead(privileges, columns, e);
    NamesHead(privileges);
    if |privileges| == 1 {
      CellStep(p, columns, e);
      EndRead(e);
    } else {
      var rest := privileges[1..];
      var t := Cells(rest, columns, e);
      CellsRead(rest, columns, e);
      SeparatorRead(t);
      CellStep(p, columns, "," + (" " + t));
    }
  }

  lemma NamesHead(privileges: seq<string>)
    requires privileges != [] && PrivilegeNames(privileges)
    ensures Token(PrivChar, privileges[0]) && PrivilegeNames(privileges[1..])
  {
  }

  lemma ReadHead(privileges: seq<string>, columns: Option<seq<string>>, e: string)
    requires privileges != []
    ensures Read(privileges, columns, e)
         == [Privilege(UpperAll(privileges[0]), Shown(columns), |Cell(privileges[0], columns)|)]
            + (if |privileges| == 1 then [] else Read(privileges[1..], columns, e))
  {
    hide UpperAll, Shown, Cell;
  }

  lemma EndRead(e: string)
    requires e == "," || e == ""
    ensures PrivilegeMatches(e) == [] && OnlySeparators(Unmatched(e))
  {
    assert e == "," ==> e == [','] + "";
    SeparatorStep(',', "");
  }

  lemma SeparatorRead(t: string)
    ensures PrivilegeMatches("," + (" " + t)) == PrivilegeMatches(t)
    ensures OnlySeparators(Unmatched(t)) ==> OnlySeparators(Unmatched("," + (" " + t)))
  {
    assert "," + (" " + t) == [','] + ([' '] + t);
    SeparatorStep(' ', t);
    SeparatorStep(',', [' '] + t);
    hide PrivilegeMatches, Unmatched;
  }

  /** A printed list, with or without a comma left at its end, reads back as the list. */
  lemma PrivilegesRead(privileges: seq<string>, columns: Option<seq<string>>, e: string)
    requires privileges != [] && PrivilegeNames(privileges)
    requires HasColumns(columns) ==> ColumnNames(columns.value)
    requires e == "," || e == ""
    ensures ParsePrivileges(Cells(privileges, columns, e)) == Some((UpperNames(privileges), Shown(columns)))
  {
    CellsRead(privileges, columns, e);
    hide PrivilegeMatches, Unmatched, Cells, Cell;
    assert Names(Read(privileges, columns, e)) == UpperNames(privileges);
  }
}
