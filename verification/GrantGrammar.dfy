/** The small patterns of the grant readers, as languages: which texts a grantee, an object, the end of a
    statement and its terminator are read from. */
module GrantGrammar {

  import opened Text
  import opened GrantStore
  import opened GrantParse

  // ---- a name, bare or in quotes -----------------------------------------------------------

  ghost predicate NameText(cls: CharClass, t: string, name: string) {
    Token(cls, name) && (t == name || t == ['"'] + name + ['"'])
  }

  /** The text from place `p` on, behind a keyword in any letter case and at least one space. */
  ghost predicate BehindWord(t: string, w: string, p: nat) {
    |w| < p <= |t| && UpperAll(t[..|w|]) == w && Token(Space, t[|w|..p])
  }

  /** `(ROLE\s+)?("?)(name)\2`, from end to end. */
  ghost predicate GranteeText(cls: CharClass, t: string, g: Grantee) {
    match g
    case Role(name) => exists p: nat :: BehindWord(t, "ROLE", p) && NameText(cls, t[p..], name)
    case Subject(name) => NameText(cls, t, name) && UpperAll(name) != "PUBLIC"
    case Public => UpperAll(t) == "PUBLIC" || UpperAll(t) == "\"PUBLIC\""
  }

  lemma SpaceClass()
    ensures forall c :: Has(Space, c) <==> IsSpace(c)
  {
  }

  lemma RunIsToken(t: string, cls: CharClass)
    ensures var n := Run(t, cls);
            && n <= |t| && All(cls, t[..n]) && (n < |t| ==> !Has(cls, t[n]))
            && (t != [] && Has(cls, t[0]) ==> n > 0 && Token(cls, t[..n]))
  {
    hide Has;
  }

  lemma StartsIsWord(t: string, w: string)
    ensures Starts(t, w) <==> |w| <= |t| && UpperAll(t[..|w|]) == w
  {
  }

  /** A stretch of the class that something outside the class ends is all that is read. */
  lemma RunIsStretch(t: string, cls: CharClass, n: nat)
    requires n <= |t| && All(cls, t[..n]) && (n < |t| ==> !Has(cls, t[n]))
    ensures Run(t, cls) == n
  {
    RunIsToken(t, cls);
    hide Run, Has;
    var m := Run(t, cls);
    assert forall i :: 0 <= i < n ==> t[..n][i] == t[i];
    assert forall i :: 0 <= i < m ==> t[..m][i] == t[i];
  }

  /** Behind a keyword everything is read from the first character that is no space. */
  lemma GapIsWhole(t: string, w: string, p: nat)
    requires BehindWord(t, w, p) && p < |t| && !IsSpace(t[p])
    ensures Starts(t, w) && p == |w| + Run(t[|w|..], Space) && Run(t[|w|..], Space) > 0
  {
    StartsIsWord(t, w);
    SpaceClass();
    hide Run, IsSpace, UpperAll, Has;
    var u := t[|w|..];
    assert u[..p - |w|] == t[|w|..p] && u[p - |w|] == t[p];
    RunIsStretch(u, Space, p - |w|);
  }

  lemma GapFound(t: string, w: string)
    requires Starts(t, w) && Run(t[|w|..], Space) > 0
    ensures BehindWord(t, w, |w| + Run(t[|w|..], Space))
  {
    StartsIsWord(t, w);
    var n := Run(t[|w|..], Space);
    hide Run, IsSpace, UpperAll;
    assert t[|w|..|w| + n] == t[|w|..][..n];
  }

  lemma NameHasNoSpace(cls: CharClass, t: string, name: string)
    requires NameText(cls, t, name) && (cls.IdentChar? || cls.NameChar? || cls.PartChar?)
    ensures t != [] && NoSpace(t)
  {
    forall i | 0 <= i < |t| ensures !IsSpace(t[i]) {
      if t == ['"'] + name + ['"'] && 0 < i < |t| - 1 {
        assert t[i] == name[i - 1];
      }
    }
  }

  lemma QuotedNameExactly(t: string, name: string)
    ensures QuotedName(t) == Some(name) <==> NameText(IdentChar, t, name)
  {
    if NameText(IdentChar, t, name) && t == ['"'] + name + ['"'] {
      assert t[1..|t| - 1] == name;
    }
    if QuotedName(t) == Some(name) && t[0] == '"' {
      assert t == ['"'] + t[1..|t| - 1] + ['"'];
    }
    if NameText(IdentChar, t, name) && t == name {
      assert Has(IdentChar, t[0]);
    }
  }

  /** PUBLIC in any letter case, bare or in quotes. */
  lemma PublicText(cls: CharClass, t: string)
    requires cls.IdentChar? || cls.NameChar?
    ensures (exists name :: NameText(cls, t, name) && UpperAll(name) == "PUBLIC")
       <==> UpperAll(t) == "PUBLIC" || UpperAll(t) == "\"PUBLIC\""
  {
    if name :| NameText(cls, t, name) && UpperAll(name) == "PUBLIC" {
      if t != name {
        QuoteUpper(t, name);
      }
    }
    if UpperAll(t) == "PUBLIC" {
      LettersInClass(cls, t);
      assert NameText(cls, t, t);
    }
    if UpperAll(t) == "\"PUBLIC\"" {
      UnquoteUpper(t);
      LettersInClass(cls, t[1..7]);
      assert NameText(cls, t, t[1..7]);
    }
  }

  lemma QuoteUpper(t: string, name: string)
    requires t == ['"'] + name + ['"'] && UpperAll(name) == "PUBLIC"
    ensures UpperAll(t) == "\"PUBLIC\""
  {
    var u, p := UpperAll(t), "\"PUBLIC\"";
    assert |u| == |p| == 8;
    forall i | 0 <= i < 8 ensures u[i] == p[i] {
      if 0 < i < 7 { assert t[i] == name[i - 1] && UpperAll(name)[i - 1] == p[i]; }
    }
  }

  lemma UnquoteUpper(t: string)
    requires UpperAll(t) == "\"PUBLIC\""
    ensures |t| == 8 && t == ['"'] + t[1..7] + ['"'] && UpperAll(t[1..7]) == "PUBLIC"
  {
    var p := "\"PUBLIC\"";
    assert |t| == |UpperAll(t)| == 8;
    assert Upper(t[0]) == UpperAll(t)[0] == p[0] && Upper(t[7]) == UpperAll(t)[7] == p[7];
    var name := t[1..7];
    forall i | 0 <= i < 6 ensures UpperAll(name)[i] == "PUBLIC"[i] {
      assert name[i] == t[i + 1] && UpperAll(t)[i + 1] == p[i + 1];
    }
  }

  lemma LettersInClass(cls: CharClass, t: string)
    requires UpperAll(t) == "PUBLIC" && (cls.IdentChar? || cls.NameChar?)
    ensures Token(cls, t)
  {
    assert |t| == |UpperAll(t)| == 6;
    forall i | 0 <= i < |t| ensures Has(cls, t[i]) {
      assert Upper(t[i]) == "PUBLIC"[i];
    }
  }

  // ---- parseGrantee ------------------------------------------------------------------------

  /** Main result: a grantee is read from its text, and from nothing else. */
  lemma GranteeExactly(raw: string, g: Grantee)
    ensures ParseGrantee(raw) == Some(g) <==> GranteeText(IdentChar, Trim(raw), g)
  {
    hide *;
    GranteeReading(raw, g);
    RoleReading(Trim(raw));
    PublicText(IdentChar, Trim(raw));
    GranteeByReading(Trim(raw), g);
  }

  /** The spaces behind a leading ROLE. */
  function RoleGap(t: string): (sp: nat)
    ensures sp > 0 ==> 4 + sp <= |t|
  {
    if Starts(t, "ROLE") then Run(t[4..], Space) else 0
  }

  /** What the reader does, by its two tries. */
  predicate ReadAs(t: string, g: Grantee) {
    var sp := RoleGap(t);
    if 0 < sp && QuotedName(t[4 + sp..]).Some? then g == Role(QuotedName(t[4 + sp..]).value)
    else QuotedName(t).Some? && g == (if UpperAll(QuotedName(t).value) == "PUBLIC" then Public else Subject(QuotedName(t).value))
  }

  lemma GranteeReading(raw: string, g: Grantee)
    ensures ParseGrantee(raw) == Some(g) <==> ReadAs(Trim(raw), g)
  {
    hide Trim, Starts, Run, QuotedName, UpperAll;
  }

  lemma GranteeByReading(t: string, g: Grantee)
    requires var sp := RoleGap(t);
             && (forall p: nat, name :: BehindWord(t, "ROLE", p) && NameText(IdentChar, t[p..], name) ==> 0 < sp && p == 4 + sp)
             && (0 < sp ==> BehindWord(t, "ROLE", 4 + sp) && forall name :: !NameText(IdentChar, t, name))
             && (0 < sp ==> UpperAll(t) != "PUBLIC" && UpperAll(t) != "\"PUBLIC\"")
    requires (exists name :: NameText(IdentChar, t, name) && UpperAll(name) == "PUBLIC")
        <==> UpperAll(t) == "PUBLIC" || UpperAll(t) == "\"PUBLIC\""
    ensures ReadAs(t, g) <==> GranteeText(IdentChar, t, g)
  {
    hide QuotedName, UpperAll, RoleGap, BehindWord, NameText;
    var sp := RoleGap(t);
    forall name ensures QuotedName(t) == Some(name) <==> NameText(IdentChar, t, name) {
      QuotedNameExactly(t, name);
    }
    if 0 < sp {
      forall name ensures QuotedName(t[4 + sp..]) == Some(name) <==> NameText(IdentChar, t[4 + sp..], name) {
        QuotedNameExactly(t[4 + sp..], name);
      }
    }
    if QuotedName(t).Some? {
      assert NameText(IdentChar, t, QuotedName(t).value);
    }
    match g
    case Role(name) =>
      if ReadAs(t, g) {
        assert BehindWord(t, "ROLE", 4 + sp) && NameText(IdentChar, t[4 + sp..], name);
      }
      if p: nat :| p <= |t| && BehindWord(t, "ROLE", p) && NameText(IdentChar, t[p..], name) {
        assert QuotedName(t[4 + sp..]) == Some(name);
      }
    case Subject(name) =>
      assert NameText(IdentChar, t, name) <==> QuotedName(t) == Some(name);
    case Public =>
      if name :| NameText(IdentChar, t, name) && UpperAll(name) == "PUBLIC" {
        assert QuotedName(t) == Some(name);
      }
  }

  /** A name behind ROLE leaves no other reading. */
  lemma RoleReading(t: string)
    ensures var sp := RoleGap(t);
            && (forall p: nat, name :: BehindWord(t, "ROLE", p) && NameText(IdentChar, t[p..], name) ==> 0 < sp && p == 4 + sp)
            && (0 < sp ==> BehindWord(t, "ROLE", 4 + sp) && forall name :: !NameText(IdentChar, t, name))
            && (0 < sp ==> UpperAll(t) != "PUBLIC" && UpperAll(t) != "\"PUBLIC\"")
  {
    var sp := RoleGap(t);
    forall p: nat, name | BehindWord(t, "ROLE", p) && NameText(IdentChar, t[p..], name) ensures 0 < sp && p == 4 + sp {
      NameHasNoSpace(IdentChar, t[p..], name);
      assert !IsSpace(t[p..][0]);
      GapIsWhole(t, "ROLE", p);
    }
    if 0 < sp {
      GapFound(t, "ROLE");
      assert IsSpace(t[4..][0]) && t[4..][0] == t[4];
      forall name ensures !NameText(IdentChar, t, name) {
        if NameText(IdentChar, t, name) { NameHasNoSpace(IdentChar, t, name); }
      }
      assert Upper(t[0]) == 'R' && UpperAll(t)[0] == 'R';
    }
  }

  // ---- parseObject -------------------------------------------------------------------------

  /** Keywords, each with spaces behind it, and then a part. */
  ghost predicate WordsThen(t: string, words: seq<string>, name: string)
    decreases |words|
  {
    if words == [] then NameText(PartChar, t, name)
    else exists p: nat :: BehindWord(t, words[0], p) && WordsThen(t[p..], words[1..], name)
  }

  const ALL_TABLES: seq<string> := ["ALL", "TABLES", "IN", "SCHEMA"]

  /** A part, a dot and a part. */
  ghost predicate DottedAt(t: string, i: nat, schema: string, table: string) {
    i < |t| && t[i] == '.' && NameText(PartChar, t[..i], schema) && NameText(PartChar, t[i + 1..], table)
  }

  ghost predicate ObjectText(t: string, o: ObjectRef) {
    match o
    case AllTables(schema) => WordsThen(t, ALL_TABLES, schema)
    case Table(schema, table) => exists i: nat :: DottedAt(t, i, schema, table)
    case Raw(text) =>
      && text == t && (forall schema :: !WordsThen(t, ALL_TABLES, schema))
      && (forall schema, table, i: nat :: !DottedAt(t, i, schema, table))
  }

  /** A part at the start, when what follows it cannot belong to it. */
  lemma PartAt(t: string, n: nat, name: string)
    requires n <= |t| && NameText(PartChar, t[..n], name) && (n < |t| ==> !Has(PartChar, t[n]))
    ensures ObjectPart(t) == Some((name, t[n..]))
  {
    if t[..n] == name {
      assert forall i :: 0 <= i < n ==> t[i] == name[i];
      assert Has(PartChar, t[0]);
      RunIsStretch(t, PartChar, n);
    } else {
      QuotedPlaces(t, n, name);
      RunIsStretch(t[1..], PartChar, n - 2);
    }
  }

  lemma QuotedPlaces(t: string, n: nat, name: string)
    requires n <= |t| && t[..n] == ['"'] + name + ['"'] && Token(PartChar, name)
    ensures n == |name| + 2 && t[0] == '"' && t[1..][n - 2] == '"' && t[1..n - 1] == name
    ensures forall i :: 0 <= i < n - 2 ==> Has(PartChar, t[1..][i])
  {
    var x := t[..n];
    hide Has;
    assert x[0] == '"' && x[n - 1] == '"';
    forall i | 0 <= i < n - 2 ensures t[1..][i] == name[i] {
      assert x[i + 1] == name[i] && t[1..][i] == t[i + 1] == x[i + 1];
    }
  }

  lemma PartFound(t: string)
    requires ObjectPart(t).Some?
    ensures var (name, rest) := ObjectPart(t).value;
            |rest| <= |t| && rest == t[|t| - |rest|..] && NameText(PartChar, t[..|t| - |rest|], name)
  {
    var (name, rest) := ObjectPart(t).value;
    var n := |t| - |rest|;
    if t[0] == '"' {
      assert t[..n] == ['"'] + t[1..n - 1] + ['"'];
    }
  }

  /** The keyword chain, keyword by keyword. */
  function AfterWords(t: string, words: seq<string>): Option<string>
    decreases |words|
  {
    if words == [] then Some(t)
    else match AfterKeyword(t, words[0]) case None => None case Some(rest) => AfterWords(rest, words[1..])
  }

  lemma AllTablesIsChain(t: string)
    ensures AllTablesSchema(t)
         == match AfterWords(t, ALL_TABLES)
            case None => None
            case Some(rest) =>
              match ObjectPart(rest) case None => None case Some((name, end)) => if end == [] then Some(name) else None
  {
    hide AfterKeyword, ObjectPart;
    var w := ALL_TABLES;
    assert w[1..][0] == "TABLES" && w[1..][1..][0] == "IN" && w[1..][1..][1..][0] == "SCHEMA" && w[1..][1..][1..][1..] == [];
  }

  ghost predicate Letters(words: seq<string>) {
    forall i :: 0 <= i < |words| ==> words[i] != [] && 'A' <= words[i][0] <= 'Z'
  }

  lemma ChainHead(t: string, words: seq<string>, name: string)
    requires Letters(words) && WordsThen(t, words, name)
    ensures t != [] && !IsSpace(t[0])
  {
    if words == [] {
      NameHasNoSpace(PartChar, t, name);
    } else {
      var p: nat :| BehindWord(t, words[0], p) && WordsThen(t[p..], words[1..], name);
      assert UpperAll(t[..|words[0]|])[0] == words[0][0] && Upper(t[0]) == words[0][0];
    }
  }

  lemma ChainStep(t: string, w: string, rest: seq<string>, name: string)
    requires Letters(rest)
    ensures (exists p: nat :: BehindWord(t, w, p) && WordsThen(t[p..], rest, name))
       <==> AfterKeyword(t, w).Some? && WordsThen(AfterKeyword(t, w).value, rest, name)
  {
    hide UpperAll, WordsThen;
    if p: nat :| BehindWord(t, w, p) && WordsThen(t[p..], rest, name) {
      ChainHead(t[p..], rest, name);
      assert t[p..][0] == t[p];
      GapIsWhole(t, w, p);
    }
    if AfterKeyword(t, w).Some? {
      GapFound(t, w);
    }
  }

  lemma {:induction false} ChainExactly(t: string, words: seq<string>, name: string)
    requires Letters(words)
    ensures WordsThen(t, words, name) <==> AfterWords(t, words).Some? && NameText(PartChar, AfterWords(t, words).value, name)
    decreases |words|
  {
    hide UpperAll, BehindWord, AfterKeyword, IsSpace, NameText;
    if words != [] {
      ChainStep(t, words[0], words[1..], name);
      if AfterKeyword(t, words[0]).Some? {
        ChainExactly(AfterKeyword(t, words[0]).value, words[1..], name);
      }
    }
  }

  lemma WholePart(t: string, name: string)
    ensures NameText(PartChar, t, name) <==> ObjectPart(t) == Some((name, []))
  {
    if NameText(PartChar, t, name) {
      assert t[..|t|] == t;
      PartAt(t, |t|, name);
    }
    if ObjectPart(t) == Some((name, [])) {
      PartFound(t);
      assert t[..|t|] == t;
    }
  }

  lemma AllTablesLetters()
    ensures Letters(ALL_TABLES)
  {
  }

  lemma AllTablesExactly(t: string, name: string)
    ensures WordsThen(t, ALL_TABLES, name) <==> AllTablesSchema(t) == Some(name)
  {
    hide *;
    AllTablesLetters();
    AllTablesIsChain(t);
    ChainExactly(t, ALL_TABLES, name);
    if AfterWords(t, ALL_TABLES).Some? {
      WholePart(AfterWords(t, ALL_TABLES).value, name);
    }
  }

  /** What the reader makes of two dotted parts. */
  function Dotted(t: string): Option<(string, string)> {
    match ObjectPart(t)
    case None => None
    case Some((schema, rest)) =>
      if rest == [] || rest[0] != '.' then None
      else match ObjectPart(rest[1..]) case Some((table, end)) => (if end == [] then Some((schema, table)) else None) case None => None
  }

  lemma DottedExactly(t: string, schema: string, table: string)
    ensures (exists i: nat :: DottedAt(t, i, schema, table)) <==> Dotted(t) == Some((schema, table))
  {
    hide ObjectPart, NameText;
    if i: nat :| DottedAt(t, i, schema, table) {
      PartAt(t, i, schema);
      assert t[i..][1..] == t[i + 1..];
      WholePart(t[i + 1..], table);
    }
    if Dotted(t) == Some((schema, table)) {
      PartFound(t);
      var rest := ObjectPart(t).value.1;
      var i := |t| - |rest|;
      WholePart(rest[1..], table);
      assert rest[1..] == t[i + 1..];
      assert DottedAt(t, i, schema, table);
    }
  }

  lemma ObjectReading(raw: string)
    ensures var t := Trim(raw);
            ParseObject(raw) == if AllTablesSchema(t).Some? then AllTables(AllTablesSchema(t).value)
                                else if Dotted(t).Some? then Table(Dotted(t).value.0, Dotted(t).value.1) else Raw(t)
  {
    hide Trim, AllTablesSchema, ObjectPart;
  }

  lemma ChainSpaced(t: string)
    ensures AllTablesSchema(t).Some? ==> !NoSpace(t)
  {
    if AfterKeyword(t, "ALL").Some? {
      assert IsSpace(t[3..][0]) && t[3..][0] == t[3];
    }
    hide AfterKeyword;
  }

  lemma DottedSpaceless(t: string)
    ensures Dotted(t).Some? ==> NoSpace(t)
  {
    if Dotted(t).Some? {
      var d := Dotted(t).value;
      DottedExactly(t, d.0, d.1);
      hide Dotted, NameText, IsSpace, Has, NoSpace;
      var i: nat :| DottedAt(t, i, d.0, d.1);
      NameHasNoSpace(PartChar, t[..i], d.0);
      NameHasNoSpace(PartChar, t[i + 1..], d.1);
      NoSpaceJoined(t, i);
    }
  }

  lemma NoSpaceJoined(t: string, i: nat)
    requires i < |t| && t[i] == '.' && NoSpace(t[..i]) && NoSpace(t[i + 1..])
    ensures NoSpace(t)
  {
    assert !IsSpace('.');
    hide IsSpace;
    forall k | 0 <= k < |t| ensures !IsSpace(t[k]) {
      assert k < i ==> t[..i][k] == t[k];
      assert k > i ==> t[i + 1..][k - i - 1] == t[k];
    }
  }

  /** A dotted name has no space, a keyword chain has one. */
  lemma NotBoth(t: string)
    ensures AllTablesSchema(t).Some? ==> Dotted(t).None?
  {
    hide *;
    ChainSpaced(t);
    DottedSpaceless(t);
  }

  /** Main result: an object is read from its text, and whatever is the text of no table and of no
      schema stays as it is. */
  lemma ObjectExactly(raw: string, o: ObjectRef)
    ensures ParseObject(raw) == o <==> ObjectText(Trim(raw), o)
  {
    hide *;
    ObjectReading(raw);
    NotBoth(Trim(raw));
    ObjectByReading(Trim(raw), o);
  }

  lemma ObjectByReading(t: string, o: ObjectRef)
    requires AllTablesSchema(t).Some? ==> Dotted(t).None?
    ensures o == (if AllTablesSchema(t).Some? then AllTables(AllTablesSchema(t).value)
                  else if Dotted(t).Some? then Table(Dotted(t).value.0, Dotted(t).value.1) else Raw(t))
       <==> ObjectText(t, o)
  {
    hide AllTablesSchema, Dotted, WordsThen, DottedAt;
    forall name ensures WordsThen(t, ALL_TABLES, name) <==> AllTablesSchema(t) == Some(name) {
      AllTablesExactly(t, name);
    }
    match o
    case AllTables(name) => assert WordsThen(t, ALL_TABLES, name) <==> AllTablesSchema(t) == Some(name);
    case Table(schema, table) => DottedExactly(t, schema, table);
    case Raw(text) => NeitherText(t);
  }

  lemma NeitherText(t: string)
    ensures (forall schema :: !WordsThen(t, ALL_TABLES, schema)) <==> AllTablesSchema(t).None?
    ensures (forall schema, table, i: nat :: !DottedAt(t, i, schema, table)) <==> Dotted(t).None?
  {
    hide AllTablesSchema, Dotted, WordsThen, DottedAt;
    forall name ensures WordsThen(t, ALL_TABLES, name) <==> AllTablesSchema(t) == Some(name) {
      AllTablesExactly(t, name);
    }
    forall schema, table, i: nat ensures DottedAt(t, i, schema, table) ==> Dotted(t) == Some((schema, table)) {
      DottedExactly(t, schema, table);
    }
    if Dotted(t).Some? {
      DottedExactly(t, Dotted(t).value.0, Dotted(t).value.1);
      var i: nat :| DottedAt(t, i, Dotted(t).value.0, Dotted(t).value.1);
    }
    if AllTablesSchema(t).Some? {
      assert WordsThen(t, ALL_TABLES, AllTablesSchema(t).value);
    }
  }

  // ---- deriveGrantee -----------------------------------------------------------------------

  /** Nothing but spaces, and perhaps one semicolon among them. */
  ghost predicate EndText(t: string) {
    exists k: nat :: k <= |t| && All(Space, t[..k]) && (k == |t| || (t[k] == ';' && All(Space, t[k + 1..])))
  }

  /** A grantee up to `q`, and the end of the statement. */
  ghost predicate EndsAfter(t: string, q: nat, g: Grantee) {
    q <= |t| && GranteeText(NameChar, t[..q], g) && EndText(t[q..])
  }

  /** A connector as a word of its own, spaces, a grantee and the end. */
  ghost predicate DerivedAt(stmt: string, i: nat, g: Grantee) {
    && i <= |stmt| && (i == 0 || !IsWord(stmt[i - 1]))
    && exists w: string, p: nat, q: nat :: ConnectorAt(stmt[i..], w, p, q, g)
  }

  lemma EndExactly(t: string)
    ensures StatementEnd(t) <==> EndText(t)
  {
    hide *;
    if StatementEnd(t) {
      EndRead(t);
    }
    if EndText(t) {
      EndFound(t);
    }
  }

  lemma EndRead(t: string)
    requires StatementEnd(t)
    ensures EndText(t)
  {
    RunIsToken(t, Space);
    hide Run, Has, IsSpace;
    var n := Run(t, Space);
    assert n < |t| ==> t[n..][0] == t[n] && t[n..][1..] == t[n + 1..];
  }

  lemma EndFound(t: string)
    requires EndText(t)
    ensures StatementEnd(t)
  {
    SpaceClass();
    assert !IsSpace(';');
    hide Run, Has, IsSpace;
    var k: nat :| k <= |t| && All(Space, t[..k]) && (k == |t| || (t[k] == ';' && All(Space, t[k + 1..])));
    RunIsStretch(t, Space, k);
    assert k < |t| ==> t[k..][0] == t[k] && t[k..][1..] == t[k + 1..];
  }

  ghost predicate NameEnds(t: string, q: nat, name: string) {
    q <= |t| && NameText(NameChar, t[..q], name) && EndText(t[q..])
  }

  lemma EndHead(t: string)
    requires EndText(t) && t != []
    ensures IsSpace(t[0]) || t[0] == ';'
  {
    var k: nat :| k <= |t| && All(Space, t[..k]) && (k == |t| || (t[k] == ';' && All(Space, t[k + 1..])));
    assert k > 0 ==> t[..k][0] == t[0];
  }

  /** Where the scan goes when the name ends at `q`. */
  lemma NameEndFound(t: string, q: nat, name: string)
    requires NameEnds(t, q, name)
    ensures NameThenEnd(t) == Some(name)
  {
    EndExactly(t[q..]);
    if q < |t| {
      EndHead(t[q..]);
      assert t[q..][0] == t[q];
    }
    hide StatementEnd, EndText, Run;
    if t[..q] == name {
      assert t[0] == name[0] && Has(NameChar, t[0]);
      RunIsStretch(t, NameChar, q);
    } else {
      QuotedNamePlaces(t, q, name);
      RunIsStretch(t[1..], NameChar, q - 2);
    }
  }

  lemma QuotedNamePlaces(t: string, n: nat, name: string)
    requires n <= |t| && t[..n] == ['"'] + name + ['"'] && Token(NameChar, name)
    ensures n == |name| + 2 && t[0] == '"' && t[1..][n - 2] == '"' && t[1..n - 1] == name
    ensures forall i :: 0 <= i < n - 2 ==> Has(NameChar, t[1..][i])
  {
    var x := t[..n];
    hide Has;
    assert x[0] == '"' && x[n - 1] == '"';
    forall i | 0 <= i < n - 2 ensures t[1..][i] == name[i] {
      assert x[i + 1] == name[i] && t[1..][i] == t[i + 1] == x[i + 1];
    }
  }

  lemma NameEndRead(t: string, name: string) returns (q: nat)
    requires NameThenEnd(t) == Some(name)
    ensures NameEnds(t, q, name)
  {
    if t[0] == '"' {
      q := |name| + 2;
      RunIsToken(t[1..], NameChar);
      hide StatementEnd, EndText, Has, Run;
      assert t[1..][..|name|] == name;
      assert t[..q] == ['"'] + name + ['"'];
    } else {
      q := |name|;
      RunIsToken(t, NameChar);
      hide StatementEnd, EndText, Has, Run;
    }
    EndExactly(t[q..]);
  }

  /** ROLE and a name, or a name: with the end behind it, one way at most. */
  lemma GranteeEndExactly(t: string, g: Grantee)
    ensures GranteeThenEnd(t) == Some(g) <==> exists q: nat :: EndsAfter(t, q, g)
  {
    hide *;
    if GranteeThenEnd(t) == Some(g) {
      var q := GranteeEndRead(t, g);
    }
    if q: nat :| EndsAfter(t, q, g) {
      GranteeEndFound(t, q, g);
    }
  }

  lemma GranteeEndRead(t: string, g: Grantee) returns (q: nat)
    requires GranteeThenEnd(t) == Some(g)
    ensures EndsAfter(t, q, g)
  {
    var sp := RoleGap(t);
    hide UpperAll, NameThenEnd, EndText, NameText, BehindWord;
    if 0 < sp && NameThenEnd(t[4 + sp..]).Some? {
      var name := NameThenEnd(t[4 + sp..]).value;
      var r := NameEndRead(t[4 + sp..], name);
      q := 4 + sp + r;
      GapFound(t, "ROLE");
      GapKept(t, "ROLE", 4 + sp, q);
      assert t[..q][4 + sp..] == t[4 + sp..][..r] && t[4 + sp..][r..] == t[q..];
      assert BehindWord(t[..q], "ROLE", 4 + sp) && NameText(NameChar, t[..q][4 + sp..], name);
    } else {
      var name := NameThenEnd(t).value;
      q := NameEndRead(t, name);
      PublicText(NameChar, t[..q]);
    }
  }

  /** A gap does not look behind itself. */
  lemma GapKept(t: string, w: string, p: nat, q: nat)
    requires p <= q <= |t|
    ensures BehindWord(t[..q], w, p) <==> BehindWord(t, w, p)
  {
    if |w| < p {
      assert t[..q][..|w|] == t[..|w|] && t[..q][|w|..p] == t[|w|..p];
    }
  }

  lemma GranteeEndFound(t: string, q: nat, g: Grantee)
    requires EndsAfter(t, q, g)
    ensures GranteeThenEnd(t) == Some(g)
  {
    match g
    case Role(name) => RoleEndFound(t, q, name);
    case Subject(name) => PlainEndFound(t, q, name);
    case Public =>
      PublicText(NameChar, t[..q]);
      var name :| NameText(NameChar, t[..q], name) && UpperAll(name) == "PUBLIC";
      PlainEndFound(t, q, name);
  }

  lemma RoleEndFound(t: string, q: nat, name: string)
    requires EndsAfter(t, q, Role(name))
    ensures GranteeThenEnd(t) == Some(Role(name))
  {
    hide UpperAll, NameThenEnd, EndText, Has, IsSpace, Run, Starts;
    var p: nat :| BehindWord(t[..q], "ROLE", p) && NameText(NameChar, t[..q][p..], name);
    NameHasNoSpace(NameChar, t[..q][p..], name);
    assert t[..q][p..][0] == t[p];
    GapKept(t, "ROLE", p, q);
    GapIsWhole(t, "ROLE", p);
    assert t[p..][..q - p] == t[..q][p..] && t[p..][q - p..] == t[q..];
    NameEndFound(t[p..], q - p, name);
  }

  /** Without a gap behind ROLE there is only the name. */
  lemma PlainEndFound(t: string, q: nat, name: string)
    requires q <= |t| && NameText(NameChar, t[..q], name) && EndText(t[q..])
    ensures GranteeThenEnd(t) == Some(if UpperAll(name) == "PUBLIC" then Public else Subject(name))
  {
    NameEndFound(t, q, name);
    NotBehindRole(t, q, name);
    hide UpperAll, NameThenEnd, EndText, NameText, Run, Starts;
  }

  lemma NotBehindRole(t: string, q: nat, name: string)
    requires q <= |t| && NameText(NameChar, t[..q], name) && EndText(t[q..])
    ensures RoleGap(t) > 0 ==> NameThenEnd(t[4 + RoleGap(t)..]).None?
  {
    hide *;
    if RoleGap(t) > 0 {
      SpaceBehindRole(t);
      NameHasNoSpace(NameChar, t[..q], name);
      SpaceOutside(t, q, 4);
      OnlyEnd(t, q, 4 + RoleGap(t));
    }
  }

  lemma SpaceBehindRole(t: string)
    requires RoleGap(t) > 0
    ensures 4 < |t| && IsSpace(t[4])
  {
    RunIsToken(t[4..], Space);
    SpaceClass();
    hide Run, Has, IsSpace;
    assert t[4..][..RoleGap(t)][0] == t[4];
  }

  lemma SpaceOutside(t: string, q: nat, k: nat)
    requires q <= |t| && NoSpace(t[..q]) && k < |t| && IsSpace(t[k])
    ensures q <= k
  {
    assert forall i :: 0 <= i < q ==> t[..q][i] == t[i];
  }

  /** Behind the name only the end is left, so that nothing is named there. */
  lemma OnlyEnd(t: string, q: nat, n: nat)
    requires q <= n <= |t| && EndText(t[q..])
    ensures NameThenEnd(t[n..]).None?
  {
    hide StatementEnd;
    var u := t[q..];
    var k: nat :| k <= |u| && All(Space, u[..k]) && (k == |u| || (u[k] == ';' && All(Space, u[k + 1..])));
    if n < |t| {
      assert t[n..][0] == t[n] == u[n - q];
      assert n - q < k ==> u[..k][n - q] == u[n - q];
      assert n - q > k ==> u[k + 1..][n - q - k - 1] == u[n - q];
      assert !Has(NameChar, t[n]) && t[n] != '"';
      assert Run(t[n..], NameChar) == 0;
    }
  }

  /** A connector, and the place behind its gap. */
  ghost predicate ConnectorAt(t: string, w: string, p: nat, q: nat, g: Grantee) {
    w in {"TO", "FROM"} && BehindWord(t, w, p) && EndsAfter(t[p..], q, g)
  }

  lemma DeriveHereRead(t: string, g: Grantee)
    requires DeriveHere(t) == Some(g)
    ensures exists w: string, p: nat, q: nat :: ConnectorAt(t, w, p, q, g)
  {
    TwoConnectors(t);
    hide GranteeThenEnd, EndsAfter, Has, UpperAll;
    var w := if Starts(t, "TO") then "TO" else "FROM";
    var p := |w| + Run(t[|w|..], Space);
    GapFound(t, w);
    GranteeEndExactly(t[p..], g);
    var q: nat :| EndsAfter(t[p..], q, g);
    assert ConnectorAt(t, w, p, q, g);
  }

  lemma DeriveHereFound(t: string, w: string, p: nat, q: nat, g: Grantee)
    requires ConnectorAt(t, w, p, q, g)
    ensures DeriveHere(t) == Some(g)
  {
    TwoConnectors(t);
    hide GranteeThenEnd, EndsAfter, Has, UpperAll, IsSpace;
    GranteeEndExactly(t[p..], g);
    GranteeHead(t[p..], q, g);
    assert t[p..][0] == t[p];
    GapIsWhole(t, w, p);
  }

  lemma DeriveHereExactly(stmt: string, i: nat, g: Grantee)
    requires i <= |stmt|
    ensures (i == 0 || !IsWord(stmt[i - 1])) && DeriveHere(stmt[i..]) == Some(g) <==> DerivedAt(stmt, i, g)
  {
    hide DeriveHere, ConnectorAt, IsWord;
    if DeriveHere(stmt[i..]) == Some(g) {
      DeriveHereRead(stmt[i..], g);
    }
    if w: string, p: nat, q: nat :| ConnectorAt(stmt[i..], w, p, q, g) {
      DeriveHereFound(stmt[i..], w, p, q, g);
    }
  }

  lemma TwoConnectors(t: string)
    ensures !(Starts(t, "TO") && Starts(t, "FROM"))
  {
    if Starts(t, "TO") { assert Upper(t[0]) == "TO"[0]; }
    if Starts(t, "FROM") { assert Upper(t[0]) == "FROM"[0]; }
  }

  lemma GranteeHead(t: string, q: nat, g: Grantee)
    requires EndsAfter(t, q, g)
    ensures t != [] && !IsSpace(t[0])
  {
    var x := t[..q];
    match g
    case Role(name) =>
      var p: nat :| BehindWord(x, "ROLE", p) && NameText(NameChar, x[p..], name);
      assert UpperAll(x[..4])[0] == 'R' && Upper(t[0]) == 'R';
    case Subject(name) => NameHasNoSpace(NameChar, x, name);
    case Public =>
      PublicText(NameChar, x);
      var name :| NameText(NameChar, x, name) && UpperAll(name) == "PUBLIC";
      NameHasNoSpace(NameChar, x, name);
  }

  /** Main result: the grantee stored with a statement is the one behind its first connector that a
      grantee and the end of the statement follow; without such a connector there is none. */
  lemma {:induction false} DeriveExactly(stmt: string, i: nat, g: Grantee)
    requires i <= |stmt|
    ensures DeriveFrom(stmt, i) == Some(g)
       <==> exists j: nat :: i <= j < |stmt| && DerivedAt(stmt, j, g) && forall k: nat, h :: i <= k < j ==> !DerivedAt(stmt, k, h)
    decreases |stmt| - i
  {
    hide DerivedAt, DeriveHere, IsWord;
    if i < |stmt| {
      forall h ensures (i == 0 || !IsWord(stmt[i - 1])) && DeriveHere(stmt[i..]) == Some(h) <==> DerivedAt(stmt, i, h) {
        DeriveHereExactly(stmt, i, h);
      }
      DeriveExactly(stmt, i + 1, g);
      if DerivedAt(stmt, i, g) {
        assert forall k: nat, h :: i <= k < i ==> !DerivedAt(stmt, k, h);
      }
    }
  }

  // ---- the privilege list ------------------------------------------------------------------

  /** A list is accepted exactly when every privilege has the same columns and nothing but spaces and
      commas is left over. */
  lemma ListExactly(raw: string, names: seq<string>, columns: Option<seq<string>>)
    ensures ParsePrivileges(raw) == Some((names, columns)) <==> ListText(PrivilegeMatches(raw), Unmatched(raw), names, columns)
  {
    KeysAgree();
    hide PrivilegeMatches, Unmatched, IsSpace, ColumnKey, SameColumns;
    var ps := PrivilegeMatches(raw);
    if ParsePrivileges(raw) == Some((names, columns)) {
      assert forall i :: 0 <= i < |ps| ==> ColumnKey(ps[i].columns) == ColumnKey(ps[0].columns);
    }
    if ListText(ps, Unmatched(raw), names, columns) {
      assert names == Names(ps);
      assert forall i :: 0 <= i < |ps| ==> ColumnKey(ps[i].columns) == ColumnKey(ps[0].columns);
    }
  }

  ghost predicate ListText(ps: seq<Privilege>, left: string, names: seq<string>, columns: Option<seq<string>>) {
    && ps != [] && |names| == |ps| && columns == ps[0].columns
    && (forall i :: 0 <= i < |ps| ==> names[i] == ps[i].name && SameColumns(ps[i].columns, columns))
    && forall i :: 0 <= i < |left| ==> IsSpace(left[i]) || left[i] == ','
  }

  /** No list, or lists that read the same joined by commas; a list that reads like the source's mark for
      no list counts as none. */
  predicate SameColumns(c: Option<seq<string>>, d: Option<seq<string>>) {
    || (c.None? && d.None?) || (c.Some? && d.Some? && Join(c.value, ",") == Join(d.value, ","))
    || (c.None? && d.Some? && Join(d.value, ",") == "\0none") || (c.Some? && d.None? && Join(c.value, ",") == "\0none")
  }

  lemma KeysAgree()
    ensures forall c, d :: ColumnKey(c) == ColumnKey(d) <==> SameColumns(c, d)
  {
    hide Join;
  }

  // ---- the terminator ----------------------------------------------------------------------

  /** Spaces around a statement make no difference, */
  lemma SpacesIgnored(lead: string, core: string, tail: string)
    requires All(Space, lead) && All(Space, tail) && core != [] && !IsSpace(core[0]) && !IsSpace(core[|core| - 1])
    ensures ParseStatement(lead + core + tail) == ParseStatement(core)
  {
    hide *;
    TrimBoth(lead, core, tail);
    TrimId(core);
    NormalizedAs(lead + core + tail, core);
    NormalizedAs(core, core);
  }

  /** nor does one semicolon behind it, with spaces before it or not. */
  lemma TerminatorIgnored(core: string, gap: string)
    requires All(Space, gap) && core != [] && !IsSpace(core[0]) && !IsSpace(core[|core| - 1]) && core[|core| - 1] != ';'
    ensures ParseStatement(core + gap + ";") == ParseStatement(core)
  {
    SemicolonTrims(core, gap);
    hide *;
    TrimId(core);
    NormalizedAs(core + gap + ";", core + gap + ";");
    NormalizedAs(core, core);
  }

  lemma SemicolonTrims(core: string, gap: string)
    requires All(Space, gap) && core != [] && !IsSpace(core[0]) && !IsSpace(core[|core| - 1])
    ensures var s := core + gap + ";"; Trim(s) == s && s[|s| - 1] == ';' && Trim(s[..|s| - 1]) == core
  {
    var s := core + gap + ";";
    assert !IsSpace(';');
    hide *;
    TrimId(s);
    TrimBoth([], core, gap);
    assert [] + core + gap == s[..|s| - 1];
  }

  lemma NormalizedAs(x: string, s: string)
    requires Trim(x) == s
    ensures Normalize(x) == if s != [] && s[|s| - 1] == ';' then Trim(s[..|s| - 1]) else s
    ensures forall y :: Normalize(y) == Normalize(x) ==> ParseStatement(y) == ParseStatement(x)
  {
    hide Trim, ParseObjectStatement, ParseMembership, HasOn;
  }

  lemma TrimBoth(lead: string, x: string, tail: string)
    requires All(Space, lead) && All(Space, tail) && x != [] && !IsSpace(x[0]) && !IsSpace(x[|x| - 1])
    ensures Trim(lead + x + tail) == x
  {
    var t := lead + x + tail;
    LeadRun(lead, x + tail);
    assert lead + (x + tail) == t && t[|lead|..] == x + tail;
    TailCut(x, tail);
  }

  lemma LeadRun(lead: string, rest: string)
    requires All(Space, lead) && rest != [] && !IsSpace(rest[0])
    ensures Run(lead + rest, Space) == |lead|
  {
    hide IsSpace;
    assert (lead + rest)[..|lead|] == lead;
    RunIsStretch(lead + rest, Space, |lead|);
  }

  lemma {:induction false} TailCut(x: string, tail: string)
    requires All(Space, tail) && x != [] && !IsSpace(x[|x| - 1])
    ensures TrimRight(x + tail) == x
    decreases |tail|
  {
    hide IsSpace;
    if tail == [] {
      assert x + tail == x;
    } else {
      var n := |tail| - 1;
      TailCut(x, tail[..n]);
      assert (x + tail)[..|x + tail| - 1] == x + tail[..n] && (x + tail)[|x + tail| - 1] == tail[n];
    }
  }
}
