/** Options, fresh numbers, and the character classes and scans that the grant patterns are built from. */
module Text {

  datatype Option<+T> = None | Some(value: T)

  /** A number above all that are taken. */
  lemma {:induction false} FreeNumber(used: set<nat>) returns (n: nat)
    ensures forall k :: k in used ==> k < n
    decreases used
  {
    if used == {} {
      n := 0;
    } else {
      var k :| k in used;
      n := FreeNumber(used - {k});
      assert forall j :: j in used ==> j == k || j in used - {k};
      n := if k < n then n else k + 1;
    }
  }

  /** The bracket expressions of the patterns, one constructor each. */
  datatype CharClass =
    | Space        // \s
    | Word         // \w, what a word boundary looks at
    | PrivChar     // [A-Za-z_]
    | RoleChar     // [A-Za-z0-9_:-]
    | PartChar     // [A-Za-z0-9_$-]
    | IdentChar    // [A-Za-z0-9_.:$-]
    | NameChar     // [A-Za-z0-9_.:-]

  predicate IsSpace(c: char) {
    || c == ' ' || '\t' <= c <= '\r'
    || c == '\U{00A0}' || c == '\U{1680}' || '\U{2000}' <= c <= '\U{200A}'
    || c == '\U{2028}' || c == '\U{2029}' || c == '\U{202F}' || c == '\U{205F}'
    || c == '\U{3000}' || c == '\U{FEFF}'
  }

  /** What a `.` in a pattern refuses. */
  predicate IsLineTerminator(c: char) {
    c == '\n' || c == '\r' || c == '\U{2028}' || c == '\U{2029}'
  }

  predicate IsLetter(c: char) {
    'A' <= c <= 'Z' || 'a' <= c <= 'z'
  }

  predicate IsWord(c: char) {
    IsLetter(c) || '0' <= c <= '9' || c == '_'
  }

  predicate Has(cls: CharClass, c: char) {
    match cls
    case Space => IsSpace(c)
    case Word => IsWord(c)
    case PrivChar => IsLetter(c) || c == '_'
    case RoleChar => IsWord(c) || c == ':' || c == '-'
    case PartChar => IsWord(c) || c == '$' || c == '-'
    case IdentChar => IsWord(c) || c == '.' || c == ':' || c == '$' || c == '-'
    case NameChar => IsWord(c) || c == '.' || c == ':' || c == '-'
  }

  ghost predicate All(cls: CharClass, s: string) {
    forall i :: 0 <= i < |s| ==> Has(cls, s[i])
  }

  /** A nonempty string over one class, `[...]+`. */
  ghost predicate Token(cls: CharClass, s: string) {
    s != [] && All(cls, s)
  }

  ghost predicate NoSpace(s: string) {
    forall i :: 0 <= i < |s| ==> !IsSpace(s[i])
  }

  /** Case folding of the `i` flag: ASCII letters only. */
  function Upper(c: char): char {
    if 'a' <= c <= 'z' then (c as int - 32) as char else c
  }

  function UpperAll(s: string): (r: string)
    ensures |r| == |s|
    ensures forall i :: 0 <= i < |s| ==> r[i] == Upper(s[i])
  {
    seq(|s|, i requires 0 <= i < |s| => Upper(s[i]))
  }

  /** Does the text start with the keyword `w` (given in upper case), in any letter case? */
  predicate Starts(t: string, w: string) {
    |w| <= |t| && forall i :: 0 <= i < |w| ==> Upper(t[i]) == w[i]
  }

  /** Length of the longest prefix over the class: what a greedy `[...]*` takes. */
  function Run(t: string, cls: CharClass): (n: nat)
    ensures n <= |t|
    ensures forall i :: 0 <= i < n ==> Has(cls, t[i])
    ensures n < |t| ==> !Has(cls, t[n])
  {
    if t != [] && Has(cls, t[0]) then
      var n := 1 + Run(t[1..], cls);
      assert forall i :: 0 < i < n ==> t[i] == t[1..][i - 1];
      n
    else 0
  }

  /** Every character of the text lies in the class. */
  predicate AllIn(t: string, cls: CharClass)
    ensures AllIn(t, cls) <==> All(cls, t)
  {
    Run(t, cls) == |t|
  }

  function TrimLeft(t: string): string {
    t[Run(t, Space)..]
  }

  function TrimRight(t: string): (r: string)
    ensures r <= t
    ensures r != [] ==> !IsSpace(r[|r| - 1])
    ensures All(Space, t[|r|..])
  {
    if t != [] && IsSpace(t[|t| - 1]) then
      var r := TrimRight(t[..|t| - 1]);
      assert t[|r|..] == t[..|t| - 1][|r|..] + [t[|t| - 1]];
      r
    else t
  }

  function Trim(t: string): string {
    TrimRight(TrimLeft(t))
  }

  // ---- how the scans act on concatenations -------------------------------------------------

  /** The greedy run over `x + y` is `x` when `x` is in the class and `y` does not go on with it. */
  lemma {:induction false} RunConcat(x: string, y: string, cls: CharClass)
    requires All(cls, x)
    requires y != [] ==> !Has(cls, y[0])
    ensures Run(x + y, cls) == |x|
  {
    var n := Run(x + y, cls);
    assert forall i :: 0 <= i < |x| ==> (x + y)[i] == x[i];
    assert y != [] ==> (x + y)[|x|] == y[0];
  }

  /** A text with no space at either end is left alone by trimming. */
  lemma TrimId(t: string)
    requires t != [] ==> !IsSpace(t[0]) && !IsSpace(t[|t| - 1])
    ensures Trim(t) == t
  {
  }

  /** Trimming removes spaces on both sides and nothing else. */
  lemma TrimShape(t: string) returns (lead: string, tail: string)
    ensures t == lead + Trim(t) + tail && All(Space, lead) && All(Space, tail)
    ensures Trim(t) != [] ==> !IsSpace(Trim(t)[0]) && !IsSpace(Trim(t)[|Trim(t)| - 1])
  {
    var n := Run(t, Space);
    var l := TrimLeft(t);
    lead, tail := t[..n], l[|TrimRight(l)|..];
    assert l == TrimRight(l) + tail;
    assert t == lead + l;
  }

  lemma StartsConcat(x: string, y: string, w: string)
    requires UpperAll(x) == w
    ensures Starts(x + y, w)
  {
    assert forall i :: 0 <= i < |w| ==> Upper((x + y)[i]) == UpperAll(x)[i];
  }
}
