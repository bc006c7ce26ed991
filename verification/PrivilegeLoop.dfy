/** The loop of parsePrivileges, moving an index along the list, against the function it computes. */
module PrivilegeLoop {

  import opened Text
  import opened GrantParse

  /** Where the next privilege name starts. */
  function NextName(t: string): (n: nat)
    ensures n <= |t| && (n < |t| ==> Has(PrivChar, t[n]))
    ensures forall i :: 0 <= i < n ==> !Has(PrivChar, t[i])
  {
    if t == [] || Has(PrivChar, t[0]) then 0
    else
      var n := 1 + NextName(t[1..]);
      assert forall i :: 0 < i < n ==> t[i] == t[1..][i - 1];
      n
  }

  /** `^\s*,\s*`: the length of a separator, 0 if there is none. */
  function Separator(t: string): (n: nat)
    ensures n <= |t| && forall i :: 0 <= i < n ==> !Has(PrivChar, t[i])
  {
    var a := Run(t, Space);
    if a == |t| || t[a] != ',' then 0
    else
      var b := Run(t[a + 1..], Space);
      assert forall i :: a < i < a + 1 + b ==> t[i] == t[a + 1..][i - a - 1];
      a + 1 + b
  }

  lemma {:induction false} SkipToName(t: string, n: nat)
    requires n <= |t| && forall i :: 0 <= i < n ==> !Has(PrivChar, t[i])
    ensures PrivilegeMatches(t) == PrivilegeMatches(t[n..])
    decreases n
  {
    if n > 0 {
      SkipToName(t[1..], n - 1);
      assert t[1..][n - 1..] == t[n..];
    } else {
      assert t[0..] == t;
    }
  }

  function ColumnSets(ps: seq<Privilege>): seq<Option<seq<string>>> {
    seq(|ps|, i requires 0 <= i < |ps| => ps[i].columns)
  }

  /** The global matches of the privilege pattern, separators skipped as they are met. */
  method CollectPrivileges(raw: string) returns (privileges: seq<string>, colSets: seq<Option<seq<string>>>)
    ensures privileges == Names(PrivilegeMatches(raw)) && colSets == ColumnSets(PrivilegeMatches(raw))
  {
    hide PrivilegeMatches, PrivilegeHere, NextName, Separator, Has;
    privileges, colSets := [], [];
    ghost var found: seq<Privilege> := [];
    var lastIndex := 0;
    assert raw[0..] == raw;
    while true
      invariant lastIndex <= |raw|
      invariant PrivilegeMatches(raw) == found + PrivilegeMatches(raw[lastIndex..])
      invariant privileges == Names(found) && colSets == ColumnSets(found)
      decreases |raw| - lastIndex
    {
      var t := raw[lastIndex..];
      var start := NextName(t);
      SkipToName(t, start);
      if start == |t| {
        NoMatches(t[start..]);
        break;
      }
      var u := t[start..];
      var p := PrivilegeHere(u);
      NextMatch(u);
      privileges := privileges + [p.name];
      colSets := colSets + [p.columns];
      found := found + [p];
      var rest := u[p.length..];
      var skip := Separator(rest);
      SkipToName(rest, skip);
      lastIndex := lastIndex + start + p.length + skip;
      assert rest[skip..] == raw[lastIndex..];
    }
  }

  lemma NoMatches(t: string)
    requires t == []
    ensures PrivilegeMatches(t) == []
  {
  }

  lemma NextMatch(u: string)
    requires u != [] && Has(PrivChar, u[0])
    ensures PrivilegeMatches(u) == [PrivilegeHere(u)] + PrivilegeMatches(u[PrivilegeHere(u).length..])
  {
  }

  method ParsePrivilegeList(raw: string) returns (r: Option<(seq<string>, Option<seq<string>>)>)
    ensures r == ParsePrivileges(raw)
  {
    hide PrivilegeMatches, Unmatched, ColumnKey;
    var privileges, colSets := CollectPrivileges(raw);
    if privileges == [] { return None; }
    if !OnlySeparators(Unmatched(raw)) { return None; }
    var first := ColumnKey(colSets[0]);
    for i := 0 to |colSets|
      invariant forall j :: 0 <= j < i ==> ColumnKey(colSets[j]) == first
    {
      if ColumnKey(colSets[i]) != first {
        assert ColumnKey(PrivilegeMatches(raw)[i].columns) != ColumnKey(PrivilegeMatches(raw)[0].columns);
        return None;
      }
    }
    assert forall i :: 0 <= i < |PrivilegeMatches(raw)| ==> PrivilegeMatches(raw)[i].columns == colSets[i];
    r := Some((privileges, colSets[0]));
  }
}
