/** How the statement scanners act on printed texts: where the lazy groups stop, and where not. */
module GrantScan {
  import opened Text
  import opened GrantStore
  import opened GrantParse

  lemma OneSpace(t: string)
    requires t != [] && !IsSpace(t[0])
    ensures Run(" " + t, Space) == 1 && (" " + t)[1..] == t
  {
  }

  lemma OnAfterSpace(u: string)
    requires u != [] && !IsSpace(u[0])
    ensures MatchOn(" " + u) == if Starts(u, "ON") then MatchClause(u[2..]) else None
  {
    hide MatchClause, Run, Starts, IsSpace;
    OneSpace(u);
    StartsLength(u, "ON");
    assert Starts(u, "ON") ==> (" " + u)[3..] == u[2..];
  }

  lemma OnClause(y: string)
    ensures MatchOn(" " + ("ON" + y)) == MatchClause(y)
  {
    OnAfterSpace("ON" + y);
    StartsConcat("ON", y, "ON");
    assert ("ON" + y)[2..] == y;
  }

  lemma ClauseAfterSpace(u: string)
    requires u != [] && !IsSpace(u[0]) && LazyObject(u, 1).Some?
    ensures MatchClause(" " + u) == LazyObject(u, 1)
  {
  }

  lemma TargetAfterSpace(u: string)
    requires u != [] && !IsSpace(u[0])
    ensures MatchTarget(" " + u) ==
            var k := ConnectorLength(u);
            var b := if k == 0 then 0 else Run(u[k..], Space);
            if b == 0 || b == |u[k..]| then None else Some(Target(k == 4, u[k + b..]))
  {
    OneSpace(u);
    var k := ConnectorLength(u);
    assert (" " + u)[1 + k..] == u[k..];
  }

  // ---- one keyword after one space ---------------------------------------------------------

  /** A text that begins with a word reads as keyword-then-space only if the word is the keyword. */
  lemma KeywordIsWord(word: string, rest: string, w: string)
    requires NoSpace(word) && (rest == [] || IsSpace(rest[0]))
    requires forall i :: 0 <= i < |w| ==> IsLetter(w[i])
    requires Starts(word + rest, w) && 0 < Run((word + rest)[|w|..], Space)
    ensures UpperAll(word) == w
  {
    var t := word + rest;
    assert IsSpace(t[|w|..][0]) && t[|w|..][0] == t[|w|];
    assert forall i :: 0 <= i < |word| ==> t[i] == word[i];
    assert forall i :: 0 <= i < |rest| ==> t[|word| + i] == rest[i];
    assert rest != [] ==> t[|word|] == rest[0];
    assert t[..|w|] == word;
  }

  /** A character that is no letter and no space, reached before any space, rules out ON. */
  lemma MarkRulesOutOn(x: string, mark: char, y: string)
    requires NoSpace(x) && !IsLetter(mark) && !IsSpace(mark)
    ensures MatchOn(" " + x + [mark] + y).None?
  {
    var t := " " + x + [mark] + y;
    assert forall i :: 0 <= i < |x| ==> t[1 + i] == x[i];
    assert t[1 + |x|] == mark;
    assert Run(t, Space) == 1 by { RunConcat(" ", x + [mark] + y, Space); assert t == " " + (x + [mark] + y); }
    if Starts(t[1..], "ON") {
      assert Upper(t[1..][0]) == 'O' && Upper(t[1..][1]) == 'N';
      assert Run(t[3..], Space) == 0;
    }
  }

  lemma WordNoOn(word: string, rest: string)
    requires word != [] && NoSpace(word) && (rest == [] || IsSpace(rest[0]))
    requires UpperAll(word) != "ON"
    ensures !IsSpace((word + rest)[0])
    ensures Starts(word + rest, "ON") ==> Run((word + rest)[2..], Space) == 0
  {
    assert (word + rest)[0] == word[0];
    if Starts(word + rest, "ON") && 0 < Run((word + rest)[2..], Space) {
      KeywordIsWord(word, rest, "ON");
    }
  }

  lemma NoSpaceNoClause(t: string)
    requires Run(t, Space) == 0
    ensures MatchClause(t).None?
  {
  }

  lemma WordRulesOutOn(word: string, rest: string)
    requires word != [] && NoSpace(word) && (rest == [] || IsSpace(rest[0]))
    requires UpperAll(word) != "ON"
    ensures MatchOn(" " + word + rest).None?
  {
    hide *;
    var u := word + rest;
    WordNoOn(word, rest);
    OnAfterSpace(u);
    StartsLength(u, "ON");
    if Starts(u, "ON") {
      NoSpaceNoClause(u[2..]);
    }
    assert " " + word + rest == " " + u;
  }

  lemma StartsLength(t: string, w: string)
    ensures Starts(t, w) ==> |w| <= |t|
  {
  }

  lemma WordNoConnector(word: string, rest: string)
    requires word != [] && NoSpace(word) && (rest == [] || IsSpace(rest[0]))
    requires UpperAll(word) != "TO" && UpperAll(word) != "FROM"
    ensures var k := ConnectorLength(word + rest); k == 0 || Run((word + rest)[k..], Space) == 0
  {
    var u := word + rest;
    if Starts(u, "TO") && 0 < Run(u[2..], Space) {
      KeywordIsWord(word, rest, "TO");
    }
    if Starts(u, "FROM") && 0 < Run(u[4..], Space) {
      KeywordIsWord(word, rest, "FROM");
    }
  }

  lemma WordRulesOutTarget(word: string, rest: string)
    requires word != [] && NoSpace(word) && (rest == [] || IsSpace(rest[0]))
    requires UpperAll(word) != "TO" && UpperAll(word) != "FROM"
    ensures MatchTarget(" " + word + rest).None?
  {
    WordNoConnector(word, rest);
    TargetAfterSpace(word + rest);
    assert " " + word + rest == " " + (word + rest);
  }

  // ---- where a lazy group cannot stop ------------------------------------------------------

  ghost predicate NoOnIn(x: string, y: string) {
    forall k :: 0 <= k < |x| ==> MatchOn((x + y)[k..]).None?
  }

  ghost predicate NoTargetIn(x: string, y: string) {
    forall k :: 0 <= k < |x| ==> MatchTarget((x + y)[k..]).None?
  }

  lemma NoSpaceNoStop(x: string, y: string)
    requires NoSpace(x)
    ensures NoOnIn(x, y) && NoTargetIn(x, y)
  {
    forall k | 0 <= k < |x| ensures MatchOn((x + y)[k..]).None? && MatchTarget((x + y)[k..]).None? {
      assert (x + y)[k..][0] == x[k];
    }
  }

  lemma NoOnConcat(x1: string, x2: string, y: string)
    requires NoOnIn(x1, x2 + y) && NoOnIn(x2, y)
    ensures NoOnIn(x1 + x2, y)
  {
    hide MatchOn;
    forall k | 0 <= k < |x1 + x2| ensures MatchOn((x1 + x2 + y)[k..]).None? {
      if k < |x1| {
        assert x1 + x2 + y == x1 + (x2 + y);
      } else {
        assert (x1 + x2 + y)[k..] == (x2 + y)[k - |x1|..];
      }
    }
  }

  lemma NoOnAtSpace(t: string, y: string)
    requires MatchOn(" " + (t + y)).None? && NoOnIn(t, y)
    ensures NoOnIn(" " + t, y)
  {
    hide MatchOn;
    assert " " + t + y == " " + (t + y);
    forall k | 0 <= k < |t| + 1 ensures MatchOn((" " + t + y)[k..]).None? {
      assert (" " + (t + y))[k..] == if k == 0 then " " + (t + y) else (t + y)[k - 1..];
    }
  }

  lemma NoTargetAtSpace(t: string, y: string)
    requires MatchTarget(" " + (t + y)).None? && NoTargetIn(t, y)
    ensures NoTargetIn(" " + t, y)
  {
    hide MatchTarget;
    assert " " + t + y == " " + (t + y);
    forall k | 0 <= k < |t| + 1 ensures MatchTarget((" " + t + y)[k..]).None? {
      assert (" " + (t + y))[k..] == if k == 0 then " " + (t + y) else (t + y)[k - 1..];
    }
  }

  lemma NoTargetConcat(x1: string, x2: string, y: string)
    requires NoTargetIn(x1, x2 + y) && NoTargetIn(x2, y)
    ensures NoTargetIn(x1 + x2, y)
  {
    hide MatchTarget;
    forall k | 0 <= k < |x1 + x2| ensures MatchTarget((x1 + x2 + y)[k..]).None? {
      if k < |x1| {
        assert x1 + x2 + y == x1 + (x2 + y);
      } else {
        assert (x1 + x2 + y)[k..] == (x2 + y)[k - |x1|..];
      }
    }
  }

  /** The lazy group stops right after `x` when it cannot stop inside. */
  lemma LazyPrivilegesStops(x: string, y: string, n: nat)
    requires n <= |x| && NoOnIn(x, y) && MatchOn(y).Some?
    ensures LazyPrivileges(x + y, n) == Some(Body(x, MatchOn(y).value))
    decreases |x| - n
  {
    hide MatchOn;
    if n < |x| {
      LazyPrivilegesStops(x, y, n + 1);
    } else {
      assert (x + y)[n..] == y && (x + y)[..n] == x;
    }
  }

  lemma LazyObjectStops(x: string, y: string, n: nat)
    requires n <= |x| && NoTargetIn(x, y) && MatchTarget(y).Some?
    ensures LazyObject(x + y, n) == Some(Clause(x, MatchTarget(y).value))
    decreases |x| - n
  {
    hide MatchTarget;
    if n < |x| {
      LazyObjectStops(x, y, n + 1);
    } else {
      assert (x + y)[n..] == y && (x + y)[..n] == x;
    }
  }

  /** A reachable connector is enough for the object group to stop somewhere. */
  lemma LazyObjectFinds(t: string, n: nat, k: nat)
    requires n <= k <= |t| && MatchTarget(t[k..]).Some?
    ensures LazyObject(t, n).Some?
    decreases k - n
  {
    hide MatchTarget;
    if MatchTarget(t[n..]).None? {
      LazyObjectFinds(t, n + 1, k);
    }
  }

  lemma ConnectorText(w: string, y: string)
    requires UpperAll(w) == "TO" || UpperAll(w) == "FROM"
    ensures ConnectorLength(w + y) == |w|
  {
    assert Upper((w + y)[0]) == UpperAll(w)[0];
    StartsConcat(w, y, UpperAll(w));
  }

  // ---- printed pieces ----------------------------------------------------------------------

  lemma TargetText(w: string, g: string)
    requires UpperAll(w) == "TO" || UpperAll(w) == "FROM"
    requires g != [] && !IsSpace(g[0])
    ensures MatchTarget(" " + (w + (" " + g))) == Some(Target(|w| == 4, g))
  {
    var u := w + (" " + g);
    ConnectorText(w, " " + g);
    assert u[|w|..] == " " + g && u[|w| + 1..] == g;
    assert Upper(u[0]) == UpperAll(w)[0];
    hide *;
    TargetAfterSpace(u);
    OneSpace(g);
  }

  /** A text after `ON` and one space. */
  lemma OnThen(rest: string)
    requires rest != [] && !IsSpace(rest[0]) && LazyObject(rest, 1).Some?
    ensures MatchOn(" ON " + rest) == LazyObject(rest, 1)
  {
    hide *;
    ClauseAfterSpace(rest);
    OnClause(" " + rest);
    assert " ON " + rest == " " + ("ON" + (" " + rest));
  }

  /** `ON`, an object text and a target, read back as the clause. */
  lemma ClauseText(on: string, y: string)
    requires on != [] && !IsSpace(on[0]) && NoTargetIn(on, y) && MatchTarget(y).Some?
    ensures MatchOn(" ON " + (on + y)) == Some(Clause(on, MatchTarget(y).value))
  {
    LazyObjectStops(on, y, 1);
    OnThen(on + y);
  }

  /** ON followed by a space stops the privilege group as long as a connector comes later. */
  lemma OnStops(rest: string, k: nat)
    requires rest != [] && !IsSpace(rest[0]) && 1 <= k <= |rest| && MatchTarget(rest[k..]).Some?
    ensures MatchOn(" ON " + rest).Some?
  {
    LazyObjectFinds(rest, 1, k);
    OnThen(rest);
  }

  // ---- keywords between spaces -------------------------------------------------------------

  /** The word ON with a space before and after it; `i` is the place of the space before. */
  predicate GapOnAt(x: string, i: nat) {
    i + 3 < |x| && IsSpace(x[i]) && Upper(x[i + 1]) == 'O' && Upper(x[i + 2]) == 'N' && IsSpace(x[i + 3])
  }

  ghost predicate GapOn(x: string) {
    exists i :: GapOnAt(x, i)
  }

  lemma StartsOn(t: string)
    ensures Starts(t, "ON") <==> 2 <= |t| && Upper(t[0]) == 'O' && Upper(t[1]) == 'N'
  {
    if 2 <= |t| && Upper(t[0]) == 'O' && Upper(t[1]) == 'N' {
      assert forall i :: 0 <= i < 2 ==> Upper(t[i]) == "ON"[i];
    }
    if Starts(t, "ON") {
      assert Upper(t[0]) == "ON"[0] && Upper(t[1]) == "ON"[1];
    }
  }

  lemma Suffix(z: string, k: nat, i: nat)
    requires k + i < |z|
    ensures z[k..][i] == z[k + i] && z[k..][i..] == z[k + i..]
  {
  }

  /** A match of ON comes from such a place, with nothing but spaces up to it. */
  lemma OnPlace(z: string, k: nat) returns (p: nat)
    requires k <= |z| && MatchOn(z[k..]).Some?
    ensures k <= p && GapOnAt(z, p) && forall i :: k <= i <= p ==> IsSpace(z[i])
  {
    hide MatchOn, Upper, IsSpace;
    var a := OnHasGap(z[k..]);
    p := k + a - 1;
    Suffix(z, k, a - 1);
    Suffix(z, k, a);
    Suffix(z, k, a + 1);
    Suffix(z, k, a + 2);
    forall i | k <= i <= p ensures IsSpace(z[i]) {
      Suffix(z, k, i - k);
    }
  }

  lemma OnHasGap(t: string) returns (a: nat)
    requires MatchOn(t).Some?
    ensures 0 < a && a + 2 < |t| && Upper(t[a]) == 'O' && Upper(t[a + 1]) == 'N' && IsSpace(t[a + 2])
    ensures forall i :: 0 <= i < a ==> IsSpace(t[i])
  {
    hide LazyObject, MatchTarget, Upper;
    a := Run(t, Space);
    StartsOn(t[a..]);
    assert t[a..][0] == t[a] && t[a..][1] == t[a + 1];
    assert 0 < Run(t[a + 2..], Space) ==> t[a + 2..] != [] && IsSpace(t[a + 2..][0]);
  }

  lemma OnLetters(x: string, i: nat)
    requires GapOnAt(x, i)
    ensures IsLetter(x[i + 1]) && IsLetter(x[i + 2])
  {
  }

  /** A match in a text closed by a mark, no letter and no space, is a place inside the text. */
  lemma MarkedGap(x: string, mark: char, y: string, k: nat)
    requires !IsLetter(mark) && !IsSpace(mark) && k <= |x| && MatchOn((x + [mark] + y)[k..]).Some?
    ensures GapOn(x)
  {
    hide MatchOn, IsSpace, IsLetter, Starts;
    var z := x + [mark] + y;
    var p := OnPlace(z, k);
    OnLetters(z, p);
    assert z[|x|] == mark;
    SpaceNoLetter(z[p]);
    assert p + 3 < |x|;
    assert GapOnAt(x, p);
  }

  lemma SpaceNoLetter(c: char)
    ensures IsSpace(c) ==> !IsLetter(c)
  {
  }

  lemma MarkedNoOn(x: string, mark: char, y: string)
    requires !GapOn(x) && !IsLetter(mark) && !IsSpace(mark)
    ensures NoOnIn(x + [mark], y)
  {
    hide MatchOn, GapOn, IsSpace, IsLetter;
    forall k | 0 <= k < |x + [mark]| ensures MatchOn((x + [mark] + y)[k..]).None? {
      if MatchOn((x + [mark] + y)[k..]).Some? {
        MarkedGap(x, mark, y, k);
      }
    }
  }

  /** A text without such a place has no match at all. */
  lemma NoGapNoOn(z: string)
    requires !GapOn(z)
    ensures NoOnIn(z, "")
  {
    hide MatchOn;
    assert z + "" == z;
    forall k | 0 <= k < |z| ensures MatchOn(z[k..]).None? {
      if MatchOn(z[k..]).Some? {
        var p := OnPlace(z, k);
      }
    }
  }

  /** Such a place does match, when a target follows it and something comes in between. */
  lemma PlaceMatches(z: string, p: nat, q: nat, k: nat)
    requires GapOnAt(z, p) && p + 3 < q < k <= |z| && !IsSpace(z[q]) && MatchTarget(z[k..]).Some?
    ensures MatchOn(z[p..]).Some?
  {
    hide *;
    GapRun(z, p, q);
    var t := z[p + 3..];
    var a := Run(t, Space);
    Suffix(z, p + 3, a);
    var u := t[a..];
    FurtherTarget(z, p + 3 + a, u, k);
    LazyObjectFinds(u, 1, k - p - 3 - a);
    ClauseAfterGap(t, a);
    OnAtPlace(z, p);
  }

  lemma FurtherTarget(z: string, b: nat, u: string, k: nat)
    requires b <= k <= |z| && u == z[b..] && MatchTarget(z[k..]).Some?
    ensures k - b <= |u| && MatchTarget(u[k - b..]).Some?
  {
    hide MatchTarget;
    assert u[k - b..] == z[k..];
  }

  lemma GapRun(z: string, p: nat, q: nat)
    requires GapOnAt(z, p) && p + 3 < q < |z| && !IsSpace(z[q])
    ensures 0 < Run(z[p + 3..], Space) && p + 3 + Run(z[p + 3..], Space) <= q
  {
    var t := z[p + 3..];
    assert t[0] == z[p + 3] && t[q - p - 3] == z[q];
  }

  lemma ClauseAfterGap(t: string, a: nat)
    requires 0 < a == Run(t, Space) < |t| && LazyObject(t[a..], 1).Some?
    ensures MatchClause(t) == LazyObject(t[a..], 1)
  {
  }

  lemma OnAtPlace(z: string, p: nat)
    requires GapOnAt(z, p)
    ensures MatchOn(z[p..]) == MatchClause(z[p + 3..])
  {
    OnLetters(z, p);
    SpaceNoLetter(z[p + 1]);
    hide MatchClause, Upper;
    var t := z[p..];
    assert t[0] == z[p] && t[1] == z[p + 1] && t[2] == z[p + 2] && t[3..] == z[p + 3..];
    assert t[1..][0] == t[1] && t[1..][1] == t[2];
    StartsOn(t[1..]);
    assert Run(t, Space) == 1;
  }

  /** Length of the TO or FROM at place `i`; 0 when there is none. */
  function WordAt(t: string, i: nat): nat {
    if i + 2 <= |t| && Upper(t[i]) == 'T' && Upper(t[i + 1]) == 'O' then 2
    else if i + 4 <= |t| && Upper(t[i]) == 'F' && Upper(t[i + 1]) == 'R' && Upper(t[i + 2]) == 'O' && Upper(t[i + 3]) == 'M' then 4
    else 0
  }

  /** A connector with a space before it and a space after it. */
  predicate TargetAt(t: string, n: nat) {
    n < |t| && IsSpace(t[n]) && WordAt(t, n + 1) > 0
    && n + 1 + WordAt(t, n + 1) < |t| && IsSpace(t[n + 1 + WordAt(t, n + 1)])
  }

  /** The same, or a connector after a space that ends the text. */
  predicate GapTargetAt(t: string, n: nat) {
    TargetAt(t, n) || (n < |t| && IsSpace(t[n]) && WordAt(t, n + 1) > 0 && n + 1 + WordAt(t, n + 1) == |t|)
  }

  ghost predicate GapTarget(t: string) {
    exists n :: GapTargetAt(t, n)
  }

  lemma WordIsConnector(t: string)
    ensures ConnectorLength(t) == WordAt(t, 0)
  {
    StartsTo(t);
    StartsFrom(t);
    hide Starts, Upper;
  }

  lemma StartsTo(t: string)
    ensures Starts(t, "TO") <==> 2 <= |t| && Upper(t[0]) == 'T' && Upper(t[1]) == 'O'
  {
    if 2 <= |t| && Upper(t[0]) == 'T' && Upper(t[1]) == 'O' {
      assert forall i :: 0 <= i < 2 ==> Upper(t[i]) == "TO"[i];
    }
    if Starts(t, "TO") {
      assert Upper(t[0]) == "TO"[0] && Upper(t[1]) == "TO"[1];
    }
  }

  lemma StartsFrom(t: string)
    ensures Starts(t, "FROM") <==>
              4 <= |t| && Upper(t[0]) == 'F' && Upper(t[1]) == 'R' && Upper(t[2]) == 'O' && Upper(t[3]) == 'M'
  {
    if 4 <= |t| && Upper(t[0]) == 'F' && Upper(t[1]) == 'R' && Upper(t[2]) == 'O' && Upper(t[3]) == 'M' {
      assert forall i :: 0 <= i < 4 ==> Upper(t[i]) == "FROM"[i];
    }
    if Starts(t, "FROM") {
      assert Upper(t[0]) == "FROM"[0] && Upper(t[1]) == "FROM"[1] && Upper(t[2]) == "FROM"[2] && Upper(t[3]) == "FROM"[3];
    }
  }

  /** A word is a matter of its characters. */
  lemma WordMoves(t: string, i: nat, z: string, j: nat)
    requires |t| - i == |z| - j && i <= |t| && forall d :: i <= d < |t| ==> t[d] == z[d - i + j]
    ensures WordAt(t, i) == WordAt(z, j)
  {
    hide Upper;
    assert i + 1 < |t| ==> t[i] == z[j] && t[i + 1] == z[j + 1];
    assert i + 3 < |t| ==> t[i + 2] == z[j + 2] && t[i + 3] == z[j + 3];
  }

  lemma WordLetters(t: string, i: nat)
    ensures i + WordAt(t, i) <= |t| || WordAt(t, i) == 0
    ensures forall d :: i <= d < i + WordAt(t, i) ==> !IsSpace(t[d])
    ensures WordAt(t, i) <= 4
  {
  }

  lemma SuffixWord(z: string, k: nat)
    requires k <= |z|
    ensures ConnectorLength(z[k..]) == WordAt(z, k)
  {
    WordIsConnector(z[k..]);
    WordMoves(z[k..], 0, z, k);
    hide ConnectorLength, WordAt;
  }

  lemma TargetHasGap(t: string) returns (a: nat)
    requires MatchTarget(t).Some?
    ensures 0 < a < |t| && WordAt(t, a) > 0 && a + WordAt(t, a) < |t| && IsSpace(t[a + WordAt(t, a)])
    ensures forall i :: 0 <= i < a ==> IsSpace(t[i])
  {
    a := Run(t, Space);
    SuffixWord(t, a);
    hide ConnectorLength, WordAt;
    assert t[a + WordAt(t, a)..] != [] && IsSpace(t[a + WordAt(t, a)..][0]);
  }

  /** A match of the target comes from such a place, with nothing but spaces up to it. */
  lemma TargetPlaceOf(z: string, k: nat) returns (p: nat)
    requires k <= |z| && MatchTarget(z[k..]).Some?
    ensures k <= p && TargetAt(z, p) && forall i :: k <= i <= p ==> IsSpace(z[i])
  {
    hide MatchTarget, WordAt, IsSpace;
    var a := TargetHasGap(z[k..]);
    p := k + a - 1;
    WordMoves(z[k..], a, z, k + a);
    Suffix(z, k, a - 1);
    Suffix(z, k, a + WordAt(z, k + a));
    forall i | k <= i <= p ensures IsSpace(z[i]) {
      Suffix(z, k, i - k);
    }
  }

  /** A text that holds no connector and ends in no space lets no target start inside it. */
  lemma GapFreeNoTarget(x: string, y: string)
    requires !GapTarget(x) && (x != [] ==> !IsSpace(x[|x| - 1])) && y != [] && IsSpace(y[0])
    ensures NoTargetIn(x, y)
  {
    hide MatchTarget, IsSpace, GapTarget;
    forall k | 0 <= k < |x| ensures MatchTarget((x + y)[k..]).None? {
      if MatchTarget((x + y)[k..]).Some? {
        TargetInside(x, y, k);
      }
    }
  }

  lemma TargetInside(x: string, y: string, k: nat)
    requires k < |x| && !IsSpace(x[|x| - 1]) && y != [] && IsSpace(y[0])
    requires MatchTarget((x + y)[k..]).Some?
    ensures GapTarget(x)
  {
    hide MatchTarget, IsSpace, WordAt;
    var z := x + y;
    var p := TargetPlaceOf(z, k);
    assert z[|x| - 1] == x[|x| - 1] && z[|x|] == y[0];
    WordLetters(z, p + 1);
    WordInFront(x, y, p + 1);
    assert GapTargetAt(x, p);
  }

  /** A word that ends before the text does is a word of the text. */
  lemma WordInFront(x: string, y: string, i: nat)
    requires WordAt(x + y, i) > 0 && i + WordAt(x + y, i) <= |x|
    ensures WordAt(x, i) == WordAt(x + y, i)
  {
  }

  lemma WordStays(x: string, y: string, i: nat)
    requires WordAt(x, i) > 0
    ensures WordAt(x + y, i) == WordAt(x, i)
  {
  }

  /** Such a place does match in a text that ends in no space. */
  lemma TargetMatches(z: string, p: nat)
    requires TargetAt(z, p) && !IsSpace(z[|z| - 1])
    ensures MatchTarget(z[p..]).Some?
  {
    var t, k := z[p..], WordAt(z, p + 1);
    SpaceThenWord(z, p);
    SuffixWord(z, p + 1);
    hide ConnectorLength, WordAt, IsSpace;
    Suffix(z, p, 1);
    var u := z[p + 1 + k..];
    assert t[1 + k..] == u && u[0] == z[p + 1 + k] && u[|u| - 1] == z[|z| - 1];
  }

  lemma SpaceThenWord(z: string, p: nat)
    requires TargetAt(z, p)
    ensures Run(z[p..], Space) == 1
  {
    WordLetters(z, p + 1);
    assert z[p..][0] == z[p] && z[p..][1] == z[p + 1];
  }
}
