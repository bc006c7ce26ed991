/** A plain backtracking matcher for the statement patterns, and the proof that the scanners of
    grant-parse pick the match it prefers. */
module GrantPattern {

  import opened Text
  import opened GrantStore
  import opened GrantParse

  /** The pieces the patterns are made of; a pattern is anchored at both ends. */
  datatype Item =
    | Many(cls: CharClass, keep: bool)   // [...]+, greedy, maybe captured
    | Lazy                               // ([\s\S]+?)
    | Line                               // (.+)
    | Key(word: string)                  // a keyword, in any letter case
    | To                                 // (TO|FROM), captured in upper case

  // ---- the matcher -------------------------------------------------------------------------

  /** Captures of the preferred match of the whole text: greedy items try long before short, the
      lazy one short before long, each choice before those of the items to its right. */
  function Match(items: seq<Item>, t: string): Option<seq<string>>
    decreases |items|, 0
  {
    if items == [] then (if t == [] then Some([]) else None)
    else
      match items[0]
      case Many(cls, keep) => Greedy(items[1..], t, Run(t, cls), keep)
      case Line => Greedy(items[1..], t, LineRun(t), true)
      case Lazy => LazyFrom(items[1..], t, 1)
      case Key(word) => if Starts(t, word) then Match(items[1..], t[|word|..]) else None
      case To =>
        var k := ConnectorLength(t);
        if k == 0 then None else Captured(if k == 4 then "FROM" else "TO", Match(items[1..], t[k..]))
  }

  function Captured(text: string, r: Option<seq<string>>): Option<seq<string>> {
    match r case None => None case Some(caps) => Some([text] + caps)
  }

  /** Try n characters, then fewer, down to one. */
  function Greedy(rest: seq<Item>, t: string, n: nat, keep: bool): Option<seq<string>>
    requires n <= |t|
    decreases |rest|, 1, n
  {
    if n == 0 then None
    else if Match(rest, t[n..]).Some? then
      (if keep then Captured(t[..n], Match(rest, t[n..])) else Match(rest, t[n..]))
    else Greedy(rest, t, n - 1, keep)
  }

  /** Try n characters, then more. */
  function LazyFrom(rest: seq<Item>, t: string, n: nat): Option<seq<string>>
    decreases |rest|, 2, |t| - n
  {
    if n > |t| then None
    else if Match(rest, t[n..]).Some? then Captured(t[..n], Match(rest, t[n..]))
    else LazyFrom(rest, t, n + 1)
  }

  /** The longest `.+` at the start. */
  function LineRun(t: string): (n: nat)
    ensures n <= |t|
    ensures n < |t| ==> IsLineTerminator(t[n])
    ensures forall i :: 0 <= i < n ==> !IsLineTerminator(t[i])
  {
    if t == [] || IsLineTerminator(t[0]) then 0
    else
      var n := 1 + LineRun(t[1..]);
      assert forall i :: 0 < i < n ==> t[i] == t[1..][i - 1];
      n
  }

  const GAP := Many(Space, false)

  /** `\s+(TO|FROM)\s+([\s\S]+?)$` */
  const TARGET: seq<Item> := [GAP, To, GAP, Lazy]

  /** `\s+([\s\S]+?)` and the target. */
  const CLAUSE: seq<Item> := [GAP, Lazy] + TARGET

  /** What follows the action keyword. */
  const BODY: seq<Item> := [GAP, Lazy, GAP, Key("ON")] + CLAUSE

  const GRANT_ROLE: seq<Item> := [Key("GRANT"), GAP, Many(RoleChar, true), GAP, Key("TO"), GAP, Line]
  const REVOKE_ROLE: seq<Item> :=
    [Key("REVOKE"), GAP, Key("ROLE"), GAP, Many(RoleChar, true), GAP, Key("FROM"), GAP, Line]

  /** No space at the end, as in every normalized statement. */
  predicate NoTrail(t: string) {
    t != [] ==> !IsSpace(t[|t| - 1])
  }

  /** On such a text a run of spaces at the start ends before the end. */
  lemma GapEnds(t: string)
    requires NoTrail(t)
    ensures Run(t, Space) == 0 || Run(t, Space) < |t|
  {
  }

  // ---- gaps --------------------------------------------------------------------------------

  /** The pattern cannot begin with a space. */
  ghost predicate NoLeadingSpace(q: seq<Item>) {
    forall t: string :: t != [] && IsSpace(t[0]) ==> Match(q, t).None?
  }

  /** A gap before such a pattern takes all its spaces or fails. */
  lemma {:induction false} GapTakesAll(q: seq<Item>, t: string, n: nat)
    requires NoLeadingSpace(q) && n <= Run(t, Space)
    ensures Greedy(q, t, n, false) == if 0 < n == Run(t, Space) then Match(q, t[n..]) else None
  {
    if n > 0 {
      GapTakesAll(q, t, n - 1);
      if n < Run(t, Space) {
        assert t[n..][0] == t[n];
      }
    }
  }

  lemma GapMatch(q: seq<Item>, t: string)
    requires NoLeadingSpace(q)
    ensures Match([GAP] + q, t) == if Run(t, Space) == 0 then None else Match(q, t[Run(t, Space)..])
  {
    assert ([GAP] + q)[1..] == q;
    GapTakesAll(q, t, Run(t, Space));
  }

  /** Every place inside one run of spaces sees the same rest. */
  lemma GapSuffix(q: seq<Item>, t: string, j: nat)
    requires NoLeadingSpace(q) && j < Run(t, Space)
    ensures Match([GAP] + q, t[j..]) == Match(q, t[Run(t, Space)..])
  {
    RunSuffix(t, j);
    hide *;
    var a := Run(t, Space);
    GapMatch(q, t[j..]);
    assert t[j..][a - j..] == t[a..];
  }

  lemma RunSuffix(t: string, j: nat)
    requires j < Run(t, Space)
    ensures Run(t[j..], Space) == Run(t, Space) - j
  {
    var a := Run(t, Space);
    var n := Run(t[j..], Space);
    hide Run, IsSpace;
    assert forall i :: 0 <= i < |t[j..]| ==> t[j..][i] == t[j + i];
    assert n < |t[j..]| ==> !Has(Space, t[j + n]);
    assert a < |t| ==> t[j..][a - j] == t[a];
  }

  /** After the lazy group nothing matched from the first character on. */
  lemma {:induction false} LazyNone(rest: seq<Item>, t: string, n: nat, m: nat)
    requires n <= m <= |t| && LazyFrom(rest, t, n).None?
    ensures Match(rest, t[m..]).None?
    decreases m - n
  {
    if n < m {
      LazyNone(rest, t, n + 1, m);
    }
  }

  lemma {:induction false} AllNone(rest: seq<Item>, t: string, n: nat)
    requires forall m :: n <= m <= |t| ==> Match(rest, t[m..]).None?
    ensures LazyFrom(rest, t, n).None?
    decreases |t| - n
  {
    if n <= |t| {
      AllNone(rest, t, n + 1);
    }
  }

  /** A gap, a lazy group and another gap: when the first gap holding all its spaces fails, it can only
      give back two of them, one to be the whole group. */
  lemma GapLazyGap(q: seq<Item>, t: string)
    requires NoLeadingSpace(q) && NoTrail(t)
    ensures var a, g := Run(t, Space), [GAP] + q;
            Match([GAP, Lazy] + g, t)
              == if a == 0 then None
                 else if LazyFrom(g, t[a..], 1).Some? then LazyFrom(g, t[a..], 1)
                 else if 3 <= a then Captured(t[a - 2..a - 1], Match(g, t[a - 1..]))
                 else None
  {
    hide *;
    var a, g := Run(t, Space), [GAP] + q;
    assert [GAP, Lazy] + g == [GAP] + ([Lazy] + g);
    ManyItem([Lazy] + g, t);
    GapEnds(t);
    NoneTaken([Lazy] + g, t);
    if 0 < a {
      AllTaken([Lazy] + g, t, a);
      LazyItem(g, t[a..]);
      if LazyFrom(g, t[a..], 1).None? {
        GiveBack(q, t, a - 1);
      }
    }
  }

  lemma NoneTaken(rest: seq<Item>, t: string)
    ensures Greedy(rest, t, 0, false) == None
  {
  }

  lemma AllTaken(rest: seq<Item>, t: string, n: nat)
    requires 0 < n <= |t|
    ensures Greedy(rest, t, n, false)
         == if Match(rest, t[n..]).Some? then Match(rest, t[n..]) else Greedy(rest, t, n - 1, false)
  {
  }

  /** No place from inside the run of spaces on can match, when neither the run nor its end can. */
  lemma PlaceFails(q: seq<Item>, t: string, m: nat)
    requires NoLeadingSpace(q) && 0 < m <= |t| && Run(t, Space) < |t|
    requires LazyFrom([GAP] + q, t[Run(t, Space)..], 1).None?
    requires m < Run(t, Space) ==> Match([GAP] + q, t[Run(t, Space) - 1..]).None?
    ensures Match([GAP] + q, t[m..]).None?
  {
    hide Match, LazyFrom, NoLeadingSpace;
    var a := Run(t, Space);
    if m < a {
      GapSuffix(q, t, m);
      GapSuffix(q, t, a - 1);
    } else if m == a {
      assert t[a..][0] == t[a];
      GapMatch(q, t[a..]);
    } else {
      LazyNone([GAP] + q, t[a..], 1, m - a);
      assert t[a..][m - a..] == t[m..];
    }
  }

  /** The lazy group started n characters into the run of spaces, when it fails from the run's end on. */
  lemma LazyInRun(q: seq<Item>, t: string, n: nat)
    requires NoLeadingSpace(q) && n < Run(t, Space) < |t|
    requires LazyFrom([GAP] + q, t[Run(t, Space)..], 1).None?
    ensures LazyFrom([GAP] + q, t[n..], 1)
         == if n + 2 <= Run(t, Space) then Captured(t[n..n + 1], Match([GAP] + q, t[Run(t, Space) - 1..])) else None
  {
    hide *;
    var a, g := Run(t, Space), [GAP] + q;
    if n + 2 <= a && Match(g, t[a - 1..]).Some? {
      GapSuffix(q, t, n + 1);
      GapSuffix(q, t, a - 1);
      assert t[n..][1..] == t[n + 1..] && t[n..][..1] == t[n..n + 1];
      LazyOne(g, t[n..]);
    } else {
      forall m | 1 <= m <= |t[n..]| ensures Match(g, t[n..][m..]).None? {
        assert t[n..][m..] == t[n + m..];
        PlaceFails(q, t, n + m);
      }
      AllNone(g, t[n..], 1);
      NothingCaptured(t[n..n + 1]);
    }
  }

  lemma LazyOne(rest: seq<Item>, t: string)
    requires t != [] && Match(rest, t[1..]).Some?
    ensures LazyFrom(rest, t, 1) == Captured(t[..1], Match(rest, t[1..]))
  {
  }

  lemma NothingCaptured(x: string)
    ensures Captured(x, None) == None
  {
  }

  lemma {:induction false} GiveBack(q: seq<Item>, t: string, n: nat)
    requires NoLeadingSpace(q) && n < Run(t, Space) < |t|
    requires LazyFrom([GAP] + q, t[Run(t, Space)..], 1).None?
    ensures var a, g := Run(t, Space), [GAP] + q;
            Greedy([Lazy] + g, t, n, false)
              == if n == 0 then None
                 else if n == a - 1 then (if a >= 3 then Captured(t[a - 2..a - 1], Match(g, t[a - 1..])) else None)
                 else Captured(t[n..n + 1], Match(g, t[a - 1..]))
  {
    hide Match, LazyFrom, NoLeadingSpace;
    var g := [GAP] + q;
    if n > 0 {
      LazyInRun(q, t, n);
      LazyItem(g, t[n..]);
      GiveBack(q, t, n - 1);
    }
  }

  lemma LazyItem(rest: seq<Item>, t: string)
    ensures Match([Lazy] + rest, t) == LazyFrom(rest, t, 1)
  {
  }

  lemma ManyItem(rest: seq<Item>, t: string)
    ensures Match([GAP] + rest, t) == Greedy(rest, t, Run(t, Space), false)
  {
  }

  // ---- the scanners pick the preferred match -----------------------------------------------

  function TargetCaptures(m: Option<Target>): Option<seq<string>> {
    match m case None => None case Some(x) => Some([if x.from then "FROM" else "TO", x.rest])
  }

  function ClauseCaptures(m: Option<Clause>): Option<seq<string>> {
    match m case None => None case Some(x) => Captured(x.on, TargetCaptures(Some(x.target)))
  }

  function BodyCaptures(m: Option<Body>): Option<seq<string>> {
    match m case None => None case Some(x) => Captured(x.privileges, ClauseCaptures(Some(x.clause)))
  }

  lemma {:induction false} WholeLazy(t: string, n: nat)
    requires 0 < n <= |t|
    ensures LazyFrom([], t, n) == Some([t])
    decreases |t| - n
  {
    if n < |t| {
      WholeLazy(t, n + 1);
    } else {
      assert t[n..] == [] && t[..n] == t;
      assert [t] + [] == [t];
    }
  }

  /** `\s+([\s\S]+?)$` */
  lemma LastGroup(u: string)
    requires NoTrail(u)
    ensures var b := Run(u, Space); Match([GAP, Lazy], u) == if b == 0 || b == |u| then None else Some([u[b..]])
  {
    hide *;
    var b := Run(u, Space);
    assert [GAP, Lazy] == [GAP] + [Lazy] && [Lazy] == [Lazy] + [];
    ManyItem([Lazy], u);
    GapEnds(u);
    NoneTaken([Lazy], u);
    if 0 < b {
      AllTaken([Lazy], u, b);
      LazyItem([], u[b..]);
      WholeLazy(u[b..], 1);
    }
  }

  lemma SuffixNoTrail(t: string, n: nat)
    requires NoTrail(t) && n <= |t|
    ensures NoTrail(t[n..])
  {
  }

  const AFTER_TARGET_GAP: seq<Item> := [To, GAP, Lazy]

  lemma ToItem(t: string)
    ensures Match(AFTER_TARGET_GAP, t) ==
            var k := ConnectorLength(t);
            if k == 0 then None else Captured(if k == 4 then "FROM" else "TO", Match([GAP, Lazy], t[k..]))
    ensures NoLeadingSpace(AFTER_TARGET_GAP)
  {
  }

  const ON_CLAUSE: seq<Item> := [Key("ON")] + CLAUSE

  lemma Shapes()
    ensures TARGET == [GAP] + AFTER_TARGET_GAP
    ensures CLAUSE == [GAP, Lazy] + TARGET
    ensures BODY == [GAP, Lazy] + ([GAP] + ON_CLAUSE)
  {
  }

  lemma ConnectorFits(t: string)
    ensures ConnectorLength(t) <= |t|
    ensures ConnectorLength(t) == 2 <==> Starts(t, "TO")
    ensures ConnectorLength(t) == 4 <==> Starts(t, "FROM")
    ensures ConnectorLength(t) in {0, 2, 4}
  {
    if Starts(t, "TO") { assert Upper(t[0]) == "TO"[0]; }
    if Starts(t, "FROM") { assert Upper(t[0]) == "FROM"[0]; }
  }

  lemma StartsFits(t: string, w: string)
    ensures Starts(t, w) ==> |w| <= |t|
  {
  }

  lemma PairCaptured(x: string, y: string)
    ensures Captured(x, Some([y])) == Some([x, y])
  {
    assert [x] + [y] == [x, y];
  }

  lemma TargetMatch(t: string)
    requires NoTrail(t)
    ensures Match(TARGET, t) == TargetCaptures(MatchTarget(t))
  {
    hide Match, NoLeadingSpace, Run, ConnectorLength, TARGET, NoTrail, Has, IsSpace, AFTER_TARGET_GAP;
    var a := Run(t, Space);
    ToItem(t[a..]);
    Shapes();
    GapMatch(AFTER_TARGET_GAP, t);
    var k := ConnectorLength(t[a..]);
    ConnectorFits(t[a..]);
    if 0 < a && k != 0 {
      assert t[a..][k..] == t[a + k..];
      SuffixNoTrail(t, a + k);
      LastGroup(t[a + k..]);
      var u := t[a + k..];
      PairCaptured(if k == 4 then "FROM" else "TO", u[Run(u, Space)..]);
    }
  }

  lemma {:induction false} LazyObjectMatch(t: string, n: nat)
    requires NoTrail(t) && n <= |t|
    ensures LazyFrom(TARGET, t, n) == ClauseCaptures(LazyObject(t, n))
    decreases |t| - n
  {
    hide Match, MatchTarget;
    SuffixNoTrail(t, n);
    TargetMatch(t[n..]);
    if MatchTarget(t[n..]).None? && n < |t| {
      LazyObjectMatch(t, n + 1);
    }
  }

  /** Captures of a clause, by the cases of its scanner. */
  lemma ClauseCases(t: string)
    requires NoTrail(t)
    ensures var a := Run(t, Space);
            && (a == 0 ==> ClauseCaptures(MatchClause(t)) == None)
            && (0 < a < |t| && LazyObject(t[a..], 1).Some? ==> MatchClause(t) == LazyObject(t[a..], 1))
            && (0 < a < |t| && LazyObject(t[a..], 1).None? && a < 3 ==> ClauseCaptures(MatchClause(t)) == None)
            && (3 <= a < |t| && LazyObject(t[a..], 1).None? ==>
                  ClauseCaptures(MatchClause(t)) == Captured(t[a - 2..a - 1], TargetCaptures(MatchTarget(t[a - 1..]))))
  {
    hide LazyObject, MatchTarget, Run, IsSpace, Has, NoTrail;
  }

  lemma ClauseMatch(t: string)
    requires NoTrail(t)
    ensures Match(CLAUSE, t) == ClauseCaptures(MatchClause(t))
  {
    hide *;
    var a := Run(t, Space);
    ToItem(t);
    Shapes();
    GapLazyGap(AFTER_TARGET_GAP, t);
    GapEnds(t);
    ClauseCases(t);
    if 0 < a {
      SuffixNoTrail(t, a);
      LazyObjectMatch(t[a..], 1);
      ClauseSome(LazyObject(t[a..], 1));
      if 3 <= a {
        SuffixNoTrail(t, a - 1);
        TargetMatch(t[a - 1..]);
      }
    }
  }

  lemma ClauseSome(m: Option<Clause>)
    ensures ClauseCaptures(m).Some? <==> m.Some?
  {
  }

  lemma OnItem(t: string)
    ensures Match(ON_CLAUSE, t) == if Starts(t, "ON") then Match(CLAUSE, t[2..]) else None
    ensures NoLeadingSpace(ON_CLAUSE)
  {
  }

  lemma OnMatch(t: string)
    requires NoTrail(t)
    ensures Match([GAP] + ON_CLAUSE, t) == ClauseCaptures(MatchOn(t))
  {
    hide Match, NoLeadingSpace, MatchClause, Run, ON_CLAUSE, CLAUSE, NoTrail, Has, IsSpace, Starts;
    var a := Run(t, Space);
    OnItem(t[a..]);
    GapMatch(ON_CLAUSE, t);
    if 0 < a && Starts(t[a..], "ON") {
      StartsFits(t[a..], "ON");
      assert t[a..][2..] == t[a + 2..];
      SuffixNoTrail(t, a + 2);
      ClauseMatch(t[a + 2..]);
    }
  }

  lemma {:induction false} LazyPrivilegesMatch(t: string, n: nat)
    requires NoTrail(t) && n <= |t|
    ensures LazyFrom([GAP] + ON_CLAUSE, t, n) == BodyCaptures(LazyPrivileges(t, n))
    decreases |t| - n
  {
    hide Match, MatchOn;
    SuffixNoTrail(t, n);
    OnMatch(t[n..]);
    if MatchOn(t[n..]).None? && n < |t| {
      LazyPrivilegesMatch(t, n + 1);
    }
  }

  lemma BodyCases(t: string)
    requires NoTrail(t)
    ensures var a := Run(t, Space);
            && (a == 0 ==> BodyCaptures(MatchBody(t)) == None)
            && (0 < a < |t| && LazyPrivileges(t[a..], 1).Some? ==> MatchBody(t) == LazyPrivileges(t[a..], 1))
            && (0 < a < |t| && LazyPrivileges(t[a..], 1).None? && a < 3 ==> BodyCaptures(MatchBody(t)) == None)
            && (3 <= a < |t| && LazyPrivileges(t[a..], 1).None? ==>
                  BodyCaptures(MatchBody(t)) == Captured(t[a - 2..a - 1], ClauseCaptures(MatchOn(t[a - 1..]))))
  {
    hide LazyPrivileges, MatchOn, Run, IsSpace, Has, NoTrail;
  }

  lemma BodySome(m: Option<Body>)
    ensures BodyCaptures(m).Some? <==> m.Some?
  {
  }

  /** Main result: on a text without trailing space, the scanner of the statement body returns the
      captures of the match a backtracking matcher prefers, and fails exactly when it has none. */
  lemma BodyIsPreferredMatch(t: string)
    requires NoTrail(t)
    ensures Match(BODY, t) == BodyCaptures(MatchBody(t))
  {
    hide *;
    var a := Run(t, Space);
    OnItem(t);
    Shapes();
    GapLazyGap(ON_CLAUSE, t);
    GapEnds(t);
    BodyCases(t);
    if 0 < a {
      SuffixNoTrail(t, a);
      LazyPrivilegesMatch(t[a..], 1);
      BodySome(LazyPrivileges(t[a..], 1));
      if 3 <= a {
        SuffixNoTrail(t, a - 1);
        OnMatch(t[a - 1..]);
      }
    }
  }

  lemma KeyItem(w: string, q: seq<Item>, t: string)
    ensures Match([Key(w)] + q, t) == if Starts(t, w) then Match(q, t[|w|..]) else None
  {
    assert ([Key(w)] + q)[1..] == q;
  }

  /** Main result: for a normalized statement, the pattern with each of its four keywords matches
      exactly where the scanners go, with their captures. */
  lemma StatementIsPreferredMatch(s: string, action: Action)
    requires NoTrail(s)
    ensures Match([Key(Keyword(action))] + BODY, s)
         == if LeadingAction(s) == Some(action) then BodyCaptures(MatchBody(s[|Keyword(action)|..])) else None
  {
    KeyItem(Keyword(action), BODY, s);
    KeywordsDiffer(s, action);
    hide Match, BODY, MatchBody, LeadingAction;
    if Starts(s, Keyword(action)) {
      SuffixNoTrail(s, |Keyword(action)|);
      BodyIsPreferredMatch(s[|Keyword(action)|..]);
    }
  }

  lemma KeywordsDiffer(s: string, action: Action)
    ensures Starts(s, Keyword(action)) <==> LeadingAction(s) == Some(action)
  {
    var keys := ["GRANT", "DENY", "REVOKE", "UNDENY"];
    forall i, j | 0 <= i < j < 4 && Starts(s, keys[i]) ensures !Starts(s, keys[j]) {
      assert Upper(s[0]) == keys[i][0];
      assert keys[i][0] != keys[j][0];
    }
    assert Keyword(action) in keys;
    assert keys[0] == "GRANT" && keys[1] == "DENY" && keys[2] == "REVOKE" && keys[3] == "UNDENY";
  }

  // ---- membership --------------------------------------------------------------------------

  /** `(.+)$` */
  lemma LineItem(t: string)
    ensures Match([Line], t) == if t != [] && OneLine(t) then Some([t]) else None
  {
    assert [Line][1..] == [];
    var n := LineRun(t);
    if n == |t| {
      assert t[n..] == [] && t[..n] == t && [t] + [] == [t];
    } else {
      LineShort(t, n);
    }
  }

  lemma {:induction false} LineShort(t: string, n: nat)
    requires n < |t|
    ensures Greedy([], t, n, true).None?
  {
    if n > 0 {
      LineShort(t, n - 1);
    }
  }

  /** A gap and the rest of the line: the spaces given back would only put the terminator in the line. */
  lemma GapLine(t: string)
    requires NoTrail(t)
    ensures var b := Run(t, Space);
            Match([GAP, Line], t) == if b == 0 || b == |t| || !OneLine(t[b..]) then None else Some([t[b..]])
  {
    hide *;
    var b := Run(t, Space);
    assert [GAP, Line] == [GAP] + [Line];
    ManyItem([Line], t);
    GapEnds(t);
    NoneTaken([Line], t);
    if 0 < b {
      AllTaken([Line], t, b);
      LineItem(t[b..]);
      if !OneLine(t[b..]) {
        GapLineFails(t, b);
      }
    }
  }

  lemma {:induction false} GapLineFails(t: string, n: nat)
    requires n <= Run(t, Space) < |t| && !OneLine(t[Run(t, Space)..])
    ensures Greedy([Line], t, n, false).None?
  {
    hide Match;
    if n > 0 {
      LineItem(t[n..]);
      assert !OneLine(t[n..]) by {
        var b := Run(t, Space);
        var i :| 0 <= i < |t[b..]| && IsLineTerminator(t[b..][i]);
        assert t[n..][b + i - n] == t[b..][i];
      }
      GapLineFails(t, n - 1);
    }
  }

  /** The role name before a gap: what a greedy group gives back would have to be a space. */
  lemma {:induction false} RoleTakesAll(q: seq<Item>, t: string, n: nat)
    requires n <= Run(t, RoleChar) && NoLeadingSpace(q)
    ensures Greedy([GAP] + q, t, n, true)
         == if 0 < n == Run(t, RoleChar) then Captured(t[..n], Match([GAP] + q, t[n..])) else None
  {
    hide Match, NoLeadingSpace;
    if n > 0 {
      RoleTakesAll(q, t, n - 1);
      if n < Run(t, RoleChar) {
        assert t[n..][0] == t[n] && Has(RoleChar, t[n]);
        GapMatch(q, t[n..]);
      }
    }
  }

  lemma RoleItem(q: seq<Item>, t: string)
    ensures Match([Many(RoleChar, true)] + q, t) == Greedy(q, t, Run(t, RoleChar), true)
  {
    assert ([Many(RoleChar, true)] + q)[1..] == q;
  }

  function RoleCaptures(m: Option<(string, string)>): Option<seq<string>> {
    match m case None => None case Some(x) => Some([x.0, x.1])
  }

  lemma ConnectorLine(word: string, t: string)
    requires NoTrail(t) && (word == "TO" || word == "FROM")
    ensures var q := [Key(word), GAP, Line];
            && NoLeadingSpace(q)
            && Match([GAP] + q, t)
               == var m := MatchTarget(t);
                  if m.None? || m.value.from != (word == "FROM") || !OneLine(m.value.rest) then None else Some([m.value.rest])
  {
    hide *;
    ConnectorThenLine(word, t);
    TargetOfWord(word, t);
    var a := Run(t, Space);
    if 0 < a && Starts(t[a..], word) {
      SuffixNoTrail(t, a + |word|);
      GapLine(t[a + |word|..]);
    }
  }

  /** The connector taken, the rest of the line is left. */
  lemma ConnectorThenLine(word: string, t: string)
    requires word == "TO" || word == "FROM"
    ensures var q, a := [Key(word), GAP, Line], Run(t, Space);
            && NoLeadingSpace(q)
            && (a == 0 || !Starts(t[a..], word) ==> Match([GAP] + q, t).None?)
            && (0 < a && Starts(t[a..], word) ==>
                  a + |word| <= |t| && Match([GAP] + q, t) == Match([GAP, Line], t[a + |word|..]))
  {
    hide *;
    var a := Run(t, Space);
    FirstItem(word);
    NoSpaceConnector(word);
    GapMatch([Key(word), GAP, Line], t);
    KeyItem(word, [GAP, Line], t[a..]);
    StartsFits(t[a..], word);
    if Starts(t[a..], word) {
      DropTwice(t, a, |word|);
    }
  }

  lemma FirstItem(word: string)
    ensures [Key(word), GAP, Line] == [Key(word)] + [GAP, Line]
  {
  }

  lemma DropTwice(t: string, a: nat, n: nat)
    requires a + n <= |t|
    ensures t[a..][n..] == t[a + n..]
  {
  }

  /** The target scanner, seen by one of its two words. */
  lemma TargetOfWord(word: string, t: string)
    requires word == "TO" || word == "FROM"
    ensures var a, m := Run(t, Space), MatchTarget(t);
            && (a == 0 || !Starts(t[a..], word) ==> m.None? || m.value.from != (word == "FROM"))
            && (0 < a && Starts(t[a..], word) ==>
                  && a + |word| <= |t|
                  && var u := t[a + |word|..];
                     var b := Run(u, Space);
                     m == if b == 0 || b == |u| then None else Some(Target(word == "FROM", u[b..])))
  {
    hide Run, ConnectorLength, Starts;
    var a := Run(t, Space);
    ConnectorFits(t[a..]);
    StartsFits(t[a..], word);
  }

  lemma NoSpaceConnector(word: string)
    requires word == "TO" || word == "FROM"
    ensures NoLeadingSpace([Key(word)] + [GAP, Line])
  {
    NoSpaceKey(word, [GAP, Line]);
  }

  /** The member pattern after its keywords. */
  lemma MemberMatch(word: string, t: string)
    requires NoTrail(t) && (word == "TO" || word == "FROM")
    ensures var p := [Many(RoleChar, true)] + ([GAP] + [Key(word), GAP, Line]);
            Match(p, t) == RoleCaptures(MatchMember(t, word == "FROM"))
  {
    hide Match, NoLeadingSpace, MatchTarget, OneLine, Run, NoTrail, Has, IsSpace;
    var q := [Key(word), GAP, Line];
    var n := Run(t, RoleChar);
    RoleItem([GAP] + q, t);
    ConnectorLine(word, t);
    RoleTakesAll(q, t, n);
    if 0 < n {
      SuffixNoTrail(t, n);
      ConnectorLine(word, t[n..]);
      var m := MatchTarget(t[n..]);
      if m.Some? { PairCaptured(t[..n], m.value.rest); }
    }
  }

  lemma NoSpaceRole(q: seq<Item>)
    ensures NoLeadingSpace([Many(RoleChar, true)] + q)
  {
    forall t: string | t != [] && IsSpace(t[0]) ensures Match([Many(RoleChar, true)] + q, t).None? {
      RoleItem(q, t);
      assert Run(t, RoleChar) == 0;
    }
  }

  lemma NoSpaceKey(w: string, q: seq<Item>)
    requires w != [] && !IsSpace(w[0]) && Upper(w[0]) == w[0] && 'A' <= w[0] <= 'Z'
    ensures NoLeadingSpace([Key(w)] + q)
  {
    forall t: string | t != [] && IsSpace(t[0]) ensures Match([Key(w)] + q, t).None? {
      KeyItem(w, q, t);
    }
  }

  /** Main result for memberships: both scanners are their patterns. */
  lemma MembershipIsPreferredMatch(s: string)
    requires NoTrail(s)
    ensures Match(GRANT_ROLE, s) == RoleCaptures(MemberGrant(s))
    ensures Match(REVOKE_ROLE, s) == RoleCaptures(MemberRevoke(s))
  {
    MemberShapes();
    hide Match, NoLeadingSpace, MatchMember, Run, GRANT_ROLE, REVOKE_ROLE;
    var p := [Many(RoleChar, true)] + ([GAP] + [Key("TO"), GAP, Line]);
    var r := [Many(RoleChar, true)] + ([GAP] + [Key("FROM"), GAP, Line]);
    NoSpaceRole([GAP] + [Key("TO"), GAP, Line]);
    KeywordGap("GRANT", p, s);
    if AfterKeyword(s, "GRANT").Some? {
      AfterKeywordTrail(s, "GRANT");
      MemberMatch("TO", AfterKeyword(s, "GRANT").value);
    }
    NoSpaceRole([GAP] + [Key("FROM"), GAP, Line]);
    NoSpaceKey("ROLE", [GAP] + r);
    KeywordGap("REVOKE", [Key("ROLE")] + ([GAP] + r), s);
    if AfterKeyword(s, "REVOKE").Some? {
      var t := AfterKeyword(s, "REVOKE").value;
      AfterKeywordTrail(s, "REVOKE");
      KeywordGap("ROLE", r, t);
      if AfterKeyword(t, "ROLE").Some? {
        AfterKeywordTrail(t, "ROLE");
        MemberMatch("FROM", AfterKeyword(t, "ROLE").value);
      }
    }
  }

  lemma MemberShapes()
    ensures GRANT_ROLE == [Key("GRANT")] + ([GAP] + ([Many(RoleChar, true)] + ([GAP] + [Key("TO"), GAP, Line])))
    ensures REVOKE_ROLE == [Key("REVOKE")] + ([GAP] + ([Key("ROLE")] + ([GAP] +
              ([Many(RoleChar, true)] + ([GAP] + [Key("FROM"), GAP, Line])))))
  {
  }

  /** A keyword and a gap before a pattern that begins with no space. */
  lemma KeywordGap(w: string, q: seq<Item>, t: string)
    requires NoLeadingSpace(q)
    ensures Match([Key(w)] + ([GAP] + q), t)
         == match AfterKeyword(t, w) case None => None case Some(rest) => Match(q, rest)
  {
    hide Match, NoLeadingSpace, Run;
    KeyItem(w, [GAP] + q, t);
    if Starts(t, w) {
      GapMatch(q, t[|w|..]);
      assert t[|w|..][Run(t[|w|..], Space)..] == t[|w| + Run(t[|w|..], Space)..];
    }
  }

  lemma AfterKeywordTrail(t: string, w: string)
    requires NoTrail(t) && AfterKeyword(t, w).Some?
    ensures NoTrail(AfterKeyword(t, w).value)
  {
  }
}
