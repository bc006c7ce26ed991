/** canonicalJson: sorted keys, arrays sorted by their text, and what equality of texts means. */
module CanonicalJson {

  /** Strings are sequences of UTF-16 code units, as the source compares and escapes them. */
  type CodeUnit = n: nat | n < 0x10000 witness 0
  type Text = seq<CodeUnit>

  const QUOTE: CodeUnit := 34
  const COMMA: CodeUnit := 44
  const COLON: CodeUnit := 58
  const OPEN_ARRAY: CodeUnit := 91
  const BACKSLASH: CodeUnit := 92
  const CLOSE_ARRAY: CodeUnit := 93
  const OPEN_OBJECT: CodeUnit := 123
  const CLOSE_OBJECT: CodeUnit := 125

  datatype Field = Field(key: Text, value: Json)

  /** A JSON value; a number is the literal that JSON.stringify writes for it. */
  datatype Json =
    | Null
    | Bool(b: bool)
    | Num(literal: Text)
    | Str(s: Text)
    | Arr(items: seq<Json>)
    | Obj(fields: seq<Field>)

  // ---- JSON.stringify on strings -----------------------------------------------------------

  predicate IsLead(u: CodeUnit) { 0xD800 <= u < 0xDC00 }

  predicate IsTrail(u: CodeUnit) { 0xDC00 <= u < 0xE000 }

  function HexDigit(d: nat): CodeUnit
    requires d < 16
  {
    if d < 10 then 48 + d else 87 + d
  }

  function UnicodeEscape(u: CodeUnit): Text {
    [BACKSLASH, 117, HexDigit(u / 4096), HexDigit(u / 256 % 16), HexDigit(u / 16 % 16), HexDigit(u % 16)]
  }

  /** The letter after the backslash for the units with a short escape, 0 for the others. */
  function ShortEscape(u: CodeUnit): CodeUnit {
    if u == 8 then 98 else if u == 9 then 116 else if u == 10 then 110 else if u == 12 then 102
    else if u == 13 then 114 else if u == QUOTE || u == BACKSLASH then u else 0
  }

  /** What one unit, standing alone, is written as; surrogates are written raw only in pairs. */
  function Escape(u: CodeUnit): Text {
    if ShortEscape(u) != 0 then [BACKSLASH, ShortEscape(u)]
    else if u < 32 || IsLead(u) || IsTrail(u) then UnicodeEscape(u)
    else [u]
  }

  predicate StartsWithPair(s: Text) {
    2 <= |s| && IsLead(s[0]) && IsTrail(s[1])
  }

  function FirstChunk(s: Text): Text
    requires s != []
  {
    if StartsWithPair(s) then [s[0], s[1]] else Escape(s[0])
  }

  function AfterChunk(s: Text): Text
    requires s != []
  {
    if StartsWithPair(s) then s[2..] else s[1..]
  }

  function EscapeAll(s: Text): Text
    decreases |s|
  {
    if s == [] then [] else FirstChunk(s) + EscapeAll(AfterChunk(s))
  }

  function Quoted(s: Text): Text {
    [QUOTE] + EscapeAll(s) + [QUOTE]
  }

  // ---- sorting by code units ---------------------------------------------------------------

  predicate Le(a: Text, b: Text) {
    a == [] || (b != [] && (a[0] < b[0] || (a[0] == b[0] && Le(a[1..], b[1..]))))
  }

  /** A text to be joined, under the key that decides its place. */
  datatype Entry = Entry(key: Text, text: Text)

  function Insert(e: Entry, es: seq<Entry>): seq<Entry> {
    if es == [] || Le(e.key, es[0].key) then [e] + es else [es[0]] + Insert(e, es[1..])
  }

  function Sort(es: seq<Entry>): seq<Entry> {
    if es == [] then [] else Insert(es[0], Sort(es[1..]))
  }

  function Join(es: seq<Entry>): Text {
    if es == [] then [] else if |es| == 1 then es[0].text else es[0].text + [COMMA] + Join(es[1..])
  }

  // ---- canonicalJson -----------------------------------------------------------------------

  const NULL: Text := [110, 117, 108, 108]
  const TRUE: Text := [116, 114, 117, 101]
  const FALSE: Text := [102, 97, 108, 115, 101]

  function Canon(v: Json): Text
    decreases v, 1
  {
    match v
    case Null => NULL
    case Bool(b) => if b then TRUE else FALSE
    case Num(literal) => literal
    case Str(s) => Quoted(s)
    case Arr(items) => [OPEN_ARRAY] + (Join(Sort(ItemEntries(items))) + [CLOSE_ARRAY])
    case Obj(fields) => [OPEN_OBJECT] + (Join(Sort(FieldEntries(fields))) + [CLOSE_OBJECT])
  }

  /** The elements of an array, each under its own text. */
  function ItemEntries(items: seq<Json>): seq<Entry>
    decreases items, 0
  {
    if items == [] then [] else [Entry(Canon(items[0]), Canon(items[0]))] + ItemEntries(items[1..])
  }

  function FieldText(f: Field): Text
    decreases f, 2
  {
    Quoted(f.key) + ([COLON] + Canon(f.value))
  }

  /** The members of an object, each under its key. */
  function FieldEntries(fields: seq<Field>): seq<Entry>
    decreases fields, 0
  {
    if fields == [] then [] else [Entry(fields[0].key, FieldText(fields[0]))] + FieldEntries(fields[1..])
  }

  // ---- the values the source is given, and when two are the same up to order ---------------

  predicate IsNumberUnit(u: CodeUnit) {
    48 <= u < 58 || u == 43 || u == 45 || u == 46 || u == 101
  }

  ghost predicate DistinctKeys(fields: seq<Field>) {
    forall i, j :: 0 <= i < j < |fields| ==> fields[i].key != fields[j].key
  }

  ghost predicate Valid(v: Json)
    decreases v
  {
    match v
    case Num(literal) => literal != [] && forall i :: 0 <= i < |literal| ==> IsNumberUnit(literal[i])
    case Arr(items) => forall i :: 0 <= i < |items| ==> Valid(items[i])
    case Obj(fields) => DistinctKeys(fields) && forall i :: 0 <= i < |fields| ==> Valid(fields[i].value)
    case _ => true
  }

  /** Equal up to the order of object members and of array elements, at every depth. */
  ghost predicate Equivalent(v: Json, w: Json)
    decreases v, 1
  {
    match v
    case Arr(items) => w.Arr? && SameItems(items, w.items)
    case Obj(fields) => w.Obj? && SameFields(fields, w.fields)
    case _ => v == w
  }

  /** The first list pairs off with the second, element by element, in any order. */
  ghost predicate SameItems(xs: seq<Json>, ys: seq<Json>)
    decreases xs, 0
  {
    if xs == [] then ys == []
    else exists j :: 0 <= j < |ys| && Equivalent(xs[0], ys[j]) && SameItems(xs[1..], Without(ys, j))
  }

  ghost predicate SameFields(fs: seq<Field>, gs: seq<Field>)
    decreases fs, 0
  {
    if fs == [] then gs == []
    else exists j :: 0 <= j < |gs| && fs[0].key == gs[j].key && Equivalent(fs[0].value, gs[j].value)
                     && SameFields(fs[1..], Without(gs, j))
  }

  function Without<T>(s: seq<T>, j: nat): seq<T>
    requires j < |s|
  {
    s[..j] + s[j + 1..]
  }

  // ---- sorting is canonical ----------------------------------------------------------------

  lemma {:induction false} LeTotal(a: Text, b: Text)
    ensures Le(a, b) || Le(b, a)
    decreases |a|
  {
    if a != [] && b != [] {
      LeTotal(a[1..], b[1..]);
    }
  }

  lemma {:induction false} LeAntisymmetric(a: Text, b: Text)
    requires Le(a, b) && Le(b, a)
    ensures a == b
    decreases |a|
  {
    if a != [] {
      LeAntisymmetric(a[1..], b[1..]);
      assert a == [a[0]] + a[1..] && b == [b[0]] + b[1..];
    }
  }

  lemma {:induction false} LeTransitive(a: Text, b: Text, c: Text)
    requires Le(a, b) && Le(b, c)
    ensures Le(a, c)
    decreases |a|
  {
    if a != [] && b != [] && a[0] == b[0] && b[0] == c[0] {
      LeTransitive(a[1..], b[1..], c[1..]);
    }
  }

  /** Entries with equal keys are equal: true of array texts, and of objects with distinct keys. */
  ghost predicate Functional(m: multiset<Entry>) {
    forall e, e' :: e in m && e' in m && e.key == e'.key ==> e == e'
  }

  ghost predicate Sorted(es: seq<Entry>) {
    forall i, j :: 0 <= i < j < |es| ==> Le(es[i].key, es[j].key)
  }

  lemma {:induction false} InsertAdds(e: Entry, es: seq<Entry>)
    ensures multiset(Insert(e, es)) == multiset(es) + multiset{e}
    decreases |es|
  {
    hide Le;
    if es != [] && !Le(e.key, es[0].key) {
      InsertAdds(e, es[1..]);
      assert es == [es[0]] + es[1..];
    }
  }

  lemma SortedCons(e: Entry, es: seq<Entry>)
    requires Sorted(es) && forall i :: 0 <= i < |es| ==> Le(e.key, es[i].key)
    ensures Sorted([e] + es)
  {
  }

  lemma {:induction false} InsertSorted(e: Entry, es: seq<Entry>)
    requires Sorted(es)
    ensures Sorted(Insert(e, es)) && multiset(Insert(e, es)) == multiset(es) + multiset{e}
    decreases |es|
  {
    InsertAdds(e, es);
    hide Le;
    if es != [] {
      LeTotal(e.key, es[0].key);
      LeTotal(es[0].key, es[0].key);
      if Le(e.key, es[0].key) {
        forall i | 0 <= i < |es| ensures Le(e.key, es[i].key) {
          LeTransitive(e.key, es[0].key, es[i].key);
        }
        SortedCons(e, es);
      } else {
        var rest := Insert(e, es[1..]);
        InsertSorted(e, es[1..]);
        forall i | 0 <= i < |rest| ensures Le(es[0].key, rest[i].key) {
          assert rest[i] in multiset(es[1..]) + multiset{e};
          if rest[i] != e {
            var k :| 0 <= k < |es[1..]| && es[1..][k] == rest[i];
          }
        }
        SortedCons(es[0], rest);
      }
    }
  }

  lemma {:induction false} SortSorts(es: seq<Entry>)
    ensures Sorted(Sort(es)) && multiset(Sort(es)) == multiset(es)
    decreases |es|
  {
    if es != [] {
      SortSorts(es[1..]);
      InsertSorted(es[0], Sort(es[1..]));
      assert es == [es[0]] + es[1..];
    }
  }

  lemma {:induction false} SortedUnique(a: seq<Entry>, b: seq<Entry>)
    requires Sorted(a) && Sorted(b) && multiset(a) == multiset(b) && Functional(multiset(a))
    ensures a == b
    decreases |a|
  {
    hide Sorted, Functional;
    assert |a| == |multiset(a)| == |multiset(b)| == |b|;
    if a != [] {
      SameHead(a, b);
      TailOf(a);
      TailOf(b);
      SortedUnique(a[1..], b[1..]);
    }
  }

  lemma SameHead(a: seq<Entry>, b: seq<Entry>)
    requires Sorted(a) && Sorted(b) && multiset(a) == multiset(b) && Functional(multiset(a)) && a != [] && b != []
    ensures a[0] == b[0]
  {
    assert a[0] in multiset(b) && b[0] in multiset(a);
    FirstIsLeast(a, b[0]);
    FirstIsLeast(b, a[0]);
    LeAntisymmetric(a[0].key, b[0].key);
  }

  lemma TailOf(a: seq<Entry>)
    requires a != []
    ensures a == [a[0]] + a[1..] && multiset(a[1..]) == multiset(a) - multiset{a[0]}
    ensures Sorted(a) ==> Sorted(a[1..])
    ensures Functional(multiset(a)) ==> Functional(multiset(a[1..]))
  {
  }

  lemma FirstIsLeast(a: seq<Entry>, e: Entry)
    requires Sorted(a) && e in multiset(a)
    ensures a != [] && Le(a[0].key, e.key)
  {
    var k :| 0 <= k < |a| && a[k] == e;
    LeTotal(e.key, e.key);
  }

  /** Sorting forgets the order and nothing else. */
  lemma SortCanonical(es: seq<Entry>, fs: seq<Entry>)
    requires Functional(multiset(es)) && Functional(multiset(fs))
    ensures Sort(es) == Sort(fs) <==> multiset(es) == multiset(fs)
  {
    SortSorts(es);
    SortSorts(fs);
    if multiset(es) == multiset(fs) {
      SortedUnique(Sort(es), Sort(fs));
    }
  }

  // ---- a canonical text ends where its structure says --------------------------------------

  /** Distance to the first comma or closing bracket outside strings and inner brackets. */
  function Stop(t: Text, depth: nat, inString: bool): nat
    decreases |t|
  {
    if t == [] then 0
    else if inString then
      if t[0] == BACKSLASH then (if |t| == 1 then 1 else 2 + Stop(t[2..], depth, true))
      else 1 + Stop(t[1..], depth, t[0] != QUOTE)
    else if t[0] == QUOTE then 1 + Stop(t[1..], depth, true)
    else if t[0] == OPEN_ARRAY || t[0] == OPEN_OBJECT then 1 + Stop(t[1..], depth + 1, false)
    else if t[0] == CLOSE_ARRAY || t[0] == CLOSE_OBJECT then
      (if depth == 0 then 0 else 1 + Stop(t[1..], depth - 1, false))
    else if t[0] == COMMA && depth == 0 then 0
    else 1 + Stop(t[1..], depth, false)
  }

  /** The scan runs over the whole of `t`, whatever follows and however deep it sits. */
  ghost predicate Passes(t: Text) {
    && t != []
    && forall y: Text, depth: nat :: Stop(t + y, depth, false) == |t| + Stop(y, depth, false)
  }

  predicate IsPlain(u: CodeUnit) {
    u != QUOTE && u != OPEN_ARRAY && u != OPEN_OBJECT && u != CLOSE_ARRAY && u != CLOSE_OBJECT && u != COMMA
  }

  lemma {:induction false} PlainStop(t: Text, y: Text, depth: nat)
    requires forall i :: 0 <= i < |t| ==> IsPlain(t[i])
    ensures Stop(t + y, depth, false) == |t| + Stop(y, depth, false)
    decreases |t|
  {
    if t == [] {
      assert t + y == y;
    } else {
      assert (t + y)[1..] == t[1..] + y;
      PlainStop(t[1..], y, depth);
    }
  }

  lemma PlainPasses(t: Text)
    requires t != [] && forall i :: 0 <= i < |t| ==> IsPlain(t[i])
    ensures Passes(t)
  {
    forall y: Text, depth: nat ensures Stop(t + y, depth, false) == |t| + Stop(y, depth, false) {
      PlainStop(t, y, depth);
    }
  }

  /** A chunk of an escaped string keeps the scan inside the string. */
  lemma EscapeStop(u: CodeUnit, y: Text, depth: nat)
    ensures Stop(Escape(u) + y, depth, true) == |Escape(u)| + Stop(y, depth, true)
  {
    var t := Escape(u) + y;
    if |Escape(u)| == 1 {
      assert t[1..] == y;
    } else if |Escape(u)| == 2 {
      assert t[2..] == y;
    } else {
      var e := UnicodeEscape(u);
      assert forall d: nat :: d < 16 ==> HexDigit(d) != QUOTE && HexDigit(d) != BACKSLASH;
      HexStop([e[2], e[3], e[4], e[5]], y, depth);
      assert t[2..] == [e[2], e[3], e[4], e[5]] + y;
    }
  }

  lemma {:induction false} HexStop(t: Text, y: Text, depth: nat)
    requires forall i :: 0 <= i < |t| ==> t[i] != QUOTE && t[i] != BACKSLASH
    ensures Stop(t + y, depth, true) == |t| + Stop(y, depth, true)
    decreases |t|
  {
    if t == [] {
      assert t + y == y;
    } else {
      assert (t + y)[1..] == t[1..] + y;
      HexStop(t[1..], y, depth);
    }
  }

  lemma ChunkStop(s: Text, y: Text, depth: nat)
    requires s != []
    ensures Stop(FirstChunk(s) + y, depth, true) == |FirstChunk(s)| + Stop(y, depth, true)
  {
    if StartsWithPair(s) {
      HexStop([s[0], s[1]], y, depth);
    } else {
      EscapeStop(s[0], y, depth);
    }
  }

  lemma QuoteStop(y: Text, depth: nat)
    ensures Stop([QUOTE] + y, depth, true) == 1 + Stop(y, depth, false)
  {
  }

  lemma {:induction false} StringStop(s: Text, y: Text, depth: nat)
    ensures Stop(EscapeAll(s) + ([QUOTE] + y), depth, true) == |EscapeAll(s)| + 1 + Stop(y, depth, false)
    decreases |s|
  {
    hide Stop, FirstChunk;
    var z := [QUOTE] + y;
    QuoteStop(y, depth);
    if s == [] {
      assert [] + z == z;
    } else {
      var rest := EscapeAll(AfterChunk(s)) + z;
      StringStop(AfterChunk(s), y, depth);
      ChunkStop(s, rest, depth);
      assert EscapeAll(s) + z == FirstChunk(s) + rest;
    }
  }

  lemma QuotedPasses(s: Text)
    ensures Passes(Quoted(s))
  {
    forall y: Text, depth: nat ensures Stop(Quoted(s) + y, depth, false) == |Quoted(s)| + Stop(y, depth, false) {
      StringStop(s, y, depth);
      assert Quoted(s) + y == [QUOTE] + (EscapeAll(s) + ([QUOTE] + y));
      assert ([QUOTE] + (EscapeAll(s) + ([QUOTE] + y)))[1..] == EscapeAll(s) + ([QUOTE] + y);
    }
  }

  lemma PassesConcat(a: Text, b: Text)
    requires Passes(a) && Passes(b)
    ensures Passes(a + b)
  {
    forall y: Text, depth: nat ensures Stop(a + b + y, depth, false) == |a + b| + Stop(y, depth, false) {
      assert a + b + y == a + (b + y);
    }
  }

  ghost predicate AllPass(es: seq<Entry>) {
    forall i :: 0 <= i < |es| ==> Passes(es[i].text)
  }

  /** Inside brackets, commas do not stop the scan. */
  lemma {:induction false} JoinStop(es: seq<Entry>, y: Text, depth: nat)
    requires AllPass(es) && 0 < depth
    ensures Stop(Join(es) + y, depth, false) == |Join(es)| + Stop(y, depth, false)
    decreases |es|
  {
    if es == [] {
      assert Join(es) + y == y;
    } else if |es| > 1 {
      var rest := Join(es[1..]) + y;
      JoinStop(es[1..], y, depth);
      assert ([COMMA] + rest)[1..] == rest;
      assert Join(es) + y == es[0].text + ([COMMA] + rest);
    }
  }

  lemma BracketsPass(es: seq<Entry>, open: CodeUnit, close: CodeUnit)
    requires AllPass(es)
    requires (open == OPEN_ARRAY && close == CLOSE_ARRAY) || (open == OPEN_OBJECT && close == CLOSE_OBJECT)
    ensures Passes([open] + (Join(es) + [close]))
  {
    var t := [open] + (Join(es) + [close]);
    forall y: Text, depth: nat ensures Stop(t + y, depth, false) == |t| + Stop(y, depth, false) {
      var z := [close] + y;
      JoinStop(es, z, depth + 1);
      assert z[1..] == y;
      assert t + y == [open] + (Join(es) + z);
      assert ([open] + (Join(es) + z))[1..] == Join(es) + z;
    }
  }

  lemma AllPassByMultiset(es: seq<Entry>, fs: seq<Entry>)
    requires multiset(es) == multiset(fs) && AllPass(es)
    ensures AllPass(fs)
  {
    forall i | 0 <= i < |fs| ensures Passes(fs[i].text) {
      assert fs[i] in multiset(es);
      var k :| 0 <= k < |es| && es[k] == fs[i];
    }
  }

  lemma {:induction false} CanonPasses(v: Json)
    requires Valid(v)
    ensures Passes(Canon(v))
    decreases v, 1
  {
    hide Passes;
    match v
    case Null => PlainPasses(NULL);
    case Bool(b) => PlainPasses(if b then TRUE else FALSE);
    case Num(literal) => PlainPasses(literal);
    case Str(s) => QuotedPasses(s);
    case Arr(items) =>
      ItemsPass(items);
      SortSorts(ItemEntries(items));
      AllPassByMultiset(ItemEntries(items), Sort(ItemEntries(items)));
      BracketsPass(Sort(ItemEntries(items)), OPEN_ARRAY, CLOSE_ARRAY);
    case Obj(fields) =>
      FieldsPass(fields);
      SortSorts(FieldEntries(fields));
      AllPassByMultiset(FieldEntries(fields), Sort(FieldEntries(fields)));
      BracketsPass(Sort(FieldEntries(fields)), OPEN_OBJECT, CLOSE_OBJECT);
  }

  lemma {:induction false} ItemsPass(items: seq<Json>)
    requires forall i :: 0 <= i < |items| ==> Valid(items[i])
    ensures AllPass(ItemEntries(items))
    decreases items, 0
  {
    hide Passes, Canon;
    if items != [] {
      CanonPasses(items[0]);
      ItemsPass(items[1..]);
    }
  }

  lemma {:induction false} FieldsPass(fields: seq<Field>)
    requires forall i :: 0 <= i < |fields| ==> Valid(fields[i].value)
    ensures AllPass(FieldEntries(fields))
    decreases fields, 0
  {
    hide Passes, Canon;
    if fields != [] {
      var f := fields[0];
      CanonPasses(f.value);
      QuotedPasses(f.key);
      PlainPasses([COLON]);
      PassesConcat([COLON], Canon(f.value));
      PassesConcat(Quoted(f.key), [COLON] + Canon(f.value));
      FieldsPass(fields[1..]);
    }
  }

  // ---- unique decodability -----------------------------------------------------------------

  predicate StopsHere(y: Text) {
    y != [] && (y[0] == COMMA || y[0] == CLOSE_ARRAY || y[0] == CLOSE_OBJECT)
  }

  lemma SplitUnique(a: Text, y: Text, b: Text, z: Text)
    requires Passes(a) && Passes(b) && StopsHere(y) && StopsHere(z) && a + y == b + z
    ensures a == b && y == z
  {
    assert Stop(a + y, 0, false) == |a| && Stop(b + z, 0, false) == |b|;
    assert (a + y)[..|a|] == a && (b + z)[..|b|] == b;
    assert (a + y)[|a|..] == y && (b + z)[|b|..] == z;
  }

  ghost predicate SameTexts(es: seq<Entry>, fs: seq<Entry>) {
    |es| == |fs| && forall i :: 0 <= i < |es| ==> es[i].text == fs[i].text
  }

  lemma StartsNoStop(a: Text, y: Text)
    requires Passes(a)
    ensures !StopsHere(a + y)
  {
    assert Stop(a + y, 0, false) >= 1;
  }

  lemma {:induction false} JoinUnique(es: seq<Entry>, fs: seq<Entry>, close: CodeUnit)
    requires AllPass(es) && AllPass(fs) && (close == CLOSE_ARRAY || close == CLOSE_OBJECT)
    requires Join(es) + [close] == Join(fs) + [close]
    ensures SameTexts(es, fs)
    decreases |es|
  {
    hide Passes, Stop;
    if es == [] || fs == [] {
      if es != [] { JoinStarts(es, close); }
      if fs != [] { JoinStarts(fs, close); }
    } else {
      var y := JoinRest(es, close);
      var z := JoinRest(fs, close);
      SplitUnique(es[0].text, y, fs[0].text, z);
      if |es| > 1 && |fs| > 1 {
        assert y[1..] == Join(es[1..]) + [close] && z[1..] == Join(fs[1..]) + [close];
        JoinUnique(es[1..], fs[1..], close);
        assert SameTexts(es[1..], fs[1..]);
      }
    }
  }

  /** What follows the first text: the closing bracket, or a comma and the rest. */
  function JoinRest(es: seq<Entry>, close: CodeUnit): (y: Text)
    requires es != [] && (close == CLOSE_ARRAY || close == CLOSE_OBJECT)
    ensures StopsHere(y) && es[0].text + y == Join(es) + [close]
    ensures (y[0] == COMMA) == (|es| > 1)
  {
    if |es| == 1 then [close]
    else
      assert es[0].text + ([COMMA] + (Join(es[1..]) + [close])) == Join(es) + [close];
      [COMMA] + (Join(es[1..]) + [close])
  }

  lemma JoinStarts(es: seq<Entry>, close: CodeUnit)
    requires es != [] && AllPass(es) && (close == CLOSE_ARRAY || close == CLOSE_OBJECT)
    ensures Join(es) + [close] != [close]
  {
    hide Stop;
    var y := JoinRest(es, close);
    StartsNoStop(es[0].text, y);
  }

  // ---- strings read back -------------------------------------------------------------------

  function HexValue(u: CodeUnit): int {
    if u < 58 then u - 48 else u - 87
  }

  function ShortValue(c: CodeUnit): CodeUnit {
    if c == 98 then 8 else if c == 116 then 9 else if c == 110 then 10 else if c == 102 then 12
    else if c == 114 then 13 else c
  }

  /** The string written before the first unescaped quote, and the rest after that quote. */
  ghost predicate ReadsAs(t: Text, s: Text, rest: Text)
    decreases |t|
  {
    if t == [] then false
    else if t[0] == QUOTE then s == [] && rest == t[1..]
    else if t[0] != BACKSLASH then s != [] && s[0] == t[0] && ReadsAs(t[1..], s[1..], rest)
    else if |t| >= 2 && t[1] != 117 then s != [] && s[0] == ShortValue(t[1]) && ReadsAs(t[2..], s[1..], rest)
    else |t| >= 6 && s != []
         && s[0] == HexValue(t[2]) * 4096 + HexValue(t[3]) * 256 + HexValue(t[4]) * 16 + HexValue(t[5])
         && ReadsAs(t[6..], s[1..], rest)
  }

  lemma {:induction false} ReadsUnique(t: Text, s: Text, y: Text, s': Text, y': Text)
    requires ReadsAs(t, s, y) && ReadsAs(t, s', y')
    ensures s == s' && y == y'
    decreases |t|
  {
    if t[0] != QUOTE {
      var k := if t[0] != BACKSLASH then 1 else if t[1] != 117 then 2 else 6;
      ReadsUnique(t[k..], s[1..], y, s'[1..], y');
      assert s == [s[0]] + s[1..] && s' == [s'[0]] + s'[1..];
    }
  }

  lemma EscapeReads(u: CodeUnit, t: Text, s: Text, y: Text)
    requires ReadsAs(t, s, y)
    ensures ReadsAs(Escape(u) + t, [u] + s, y)
  {
    var e := Escape(u) + t;
    assert ([u] + s)[1..] == s;
    if |Escape(u)| == 1 {
      assert e[1..] == t;
    } else if |Escape(u)| == 2 {
      assert e[2..] == t;
    } else {
      assert e[6..] == t;
      HexReads(u);
    }
  }

  lemma HexReads(u: CodeUnit)
    ensures var e := UnicodeEscape(u);
            HexValue(e[2]) * 4096 + HexValue(e[3]) * 256 + HexValue(e[4]) * 16 + HexValue(e[5]) == u
  {
    assert u == u / 16 * 16 + u % 16;
    assert u / 16 == u / 16 / 16 * 16 + u / 16 % 16;
    assert u / 256 == u / 256 / 16 * 16 + u / 256 % 16;
    assert u / 16 / 16 == u / 256 && u / 256 / 16 == u / 4096;
  }

  lemma PlainReads(u: CodeUnit, t: Text, s: Text, y: Text)
    requires ReadsAs(t, s, y) && u != QUOTE && u != BACKSLASH
    ensures ReadsAs([u] + t, [u] + s, y)
  {
  }

  lemma ChunkReads(s: Text, t: Text, y: Text)
    requires s != [] && ReadsAs(t, AfterChunk(s), y)
    ensures ReadsAs(FirstChunk(s) + t, s, y)
  {
    hide ReadsAs;
    if StartsWithPair(s) {
      PlainReads(s[1], t, s[2..], y);
      PlainReads(s[0], [s[1]] + t, [s[1]] + s[2..], y);
      assert [s[0]] + ([s[1]] + t) == FirstChunk(s) + t && [s[0]] + ([s[1]] + s[2..]) == s;
    } else {
      EscapeReads(s[0], t, s[1..], y);
      assert [s[0]] + s[1..] == s;
    }
  }

  lemma QuoteReads(y: Text)
    ensures ReadsAs([QUOTE] + y, [], y)
  {
  }

  lemma {:induction false} QuotedReads(s: Text, y: Text)
    ensures ReadsAs(EscapeAll(s) + ([QUOTE] + y), s, y)
    decreases |s|
  {
    hide ReadsAs, FirstChunk;
    var z := [QUOTE] + y;
    if s == [] {
      QuoteReads(y);
      assert [] + z == z;
    } else {
      var rest := EscapeAll(AfterChunk(s)) + z;
      QuotedReads(AfterChunk(s), y);
      ChunkReads(s, rest, y);
      assert EscapeAll(s) + z == FirstChunk(s) + rest;
    }
  }

  /** A quoted key determines the key and what follows it. */
  lemma QuotedUnique(s: Text, y: Text, s': Text, y': Text)
    requires Quoted(s) + y == Quoted(s') + y'
    ensures s == s' && y == y'
  {
    hide ReadsAs, EscapeAll;
    QuotedReads(s, y);
    QuotedReads(s', y');
    var t, t' := EscapeAll(s) + ([QUOTE] + y), EscapeAll(s') + ([QUOTE] + y');
    assert Quoted(s) + y == [QUOTE] + t && Quoted(s') + y' == [QUOTE] + t';
    assert ([QUOTE] + t)[1..] == t && ([QUOTE] + t')[1..] == t';
    ReadsUnique(t, s, y, s', y');
  }

  // ---- equal texts, equal values up to order -----------------------------------------------

  lemma {:induction false} ItemKeys(items: seq<Json>)
    ensures forall e :: e in multiset(ItemEntries(items)) ==> e.key == e.text
    ensures Functional(multiset(ItemEntries(items)))
    decreases items
  {
    hide Canon;
    if items != [] {
      ItemKeys(items[1..]);
    }
  }

  lemma {:induction false} FieldKeys(fields: seq<Field>)
    ensures |FieldEntries(fields)| == |fields|
    ensures forall i :: 0 <= i < |fields| ==> FieldEntries(fields)[i] == Entry(fields[i].key, FieldText(fields[i]))
    decreases fields
  {
    hide FieldText;
    if fields != [] {
      FieldKeys(fields[1..]);
    }
  }

  lemma FieldsFunctional(fields: seq<Field>)
    requires DistinctKeys(fields)
    ensures Functional(multiset(FieldEntries(fields)))
  {
    hide FieldText;
    FieldKeys(fields);
    var es := FieldEntries(fields);
    forall e: Entry, e': Entry | e in multiset(es) && e' in multiset(es) && e.key == e'.key ensures e == e' {
      var i :| 0 <= i < |es| && es[i] == e;
      var j :| 0 <= j < |es| && es[j] == e';
      assert fields[i].key == fields[j].key;
    }
  }

  lemma {:induction false} ItemCount(items: seq<Json>)
    ensures |ItemEntries(items)| == |items|
    ensures forall i :: 0 <= i < |items| ==> ItemEntries(items)[i] == Entry(Canon(items[i]), Canon(items[i]))
    decreases items
  {
    hide Canon;
    if items != [] {
      ItemCount(items[1..]);
    }
  }

  lemma MultisetWithout<T>(s: seq<T>, j: nat)
    requires j < |s|
    ensures multiset(Without(s, j)) == multiset(s) - multiset{s[j]}
  {
    assert s == s[..j] + [s[j]] + s[j + 1..];
  }

  lemma EntriesWithout(items: seq<Json>, j: nat)
    requires j < |items|
    ensures |ItemEntries(items)| == |items|
    ensures ItemEntries(Without(items, j)) == Without(ItemEntries(items), j)
  {
    ItemCount(items);
    ItemCount(Without(items, j));
    hide Canon, ItemEntries;
  }

  lemma FieldEntriesWithout(fields: seq<Field>, j: nat)
    requires j < |fields|
    ensures |FieldEntries(fields)| == |fields|
    ensures FieldEntries(Without(fields, j)) == Without(FieldEntries(fields), j)
  {
    FieldKeys(fields);
    FieldKeys(Without(fields, j));
    hide FieldText, FieldEntries;
  }

  ghost predicate ValidItems(items: seq<Json>) {
    forall i :: 0 <= i < |items| ==> Valid(items[i])
  }

  ghost predicate ValidFields(fields: seq<Field>) {
    forall i :: 0 <= i < |fields| ==> Valid(fields[i].value)
  }

  /** The texts of two values, compared: the induction behind the main result. */
  lemma {:induction false} SameText(v: Json, w: Json)
    requires Valid(v) && Valid(w)
    ensures Canon(v) == Canon(w) <==> Equivalent(v, w)
    decreases v, 2
  {
    if Canon(v) == Canon(w) { FirstUnits(v, w); }
    match v
    case Arr(xs) =>
      if w.Arr? {
        hide Canon, Sort;
        ArrayText(xs, w.items);
        SameItemTexts(xs, w.items);
      }
    case Obj(fs) =>
      if w.Obj? {
        hide Canon, Sort;
        ObjectText(fs, w.fields);
        SameFieldTexts(fs, w.fields);
      }
    case Str(s) =>
      if w.Str? {
        assert Quoted(s) + [] == Quoted(s) && Quoted(w.s) + [] == Quoted(w.s);
        if Quoted(s) == Quoted(w.s) { QuotedUnique(s, [], w.s, []); }
      }
    case _ =>
  }

  /** The first unit of a text tells the kind of value. */
  lemma FirstUnits(v: Json, w: Json)
    requires Valid(v) && Valid(w) && Canon(v) == Canon(w)
    ensures v.Arr? == w.Arr? && v.Obj? == w.Obj? && v.Str? == w.Str? && v.Num? == w.Num?
    ensures !v.Arr? && !v.Obj? && !v.Str? ==> v == w
  {
    Kind(v);
    Kind(w);
  }

  function FirstOf(v: Json): CodeUnit
    requires Canon(v) != []
  {
    Canon(v)[0]
  }

  lemma Kind(v: Json)
    requires Valid(v)
    ensures Canon(v) != []
    ensures v.Arr? <==> FirstOf(v) == OPEN_ARRAY
    ensures v.Obj? <==> FirstOf(v) == OPEN_OBJECT
    ensures v.Str? <==> FirstOf(v) == QUOTE
    ensures v.Num? <==> IsNumberUnit(FirstOf(v))
    ensures v.Null? <==> FirstOf(v) == 110
    ensures v.Bool? && v.b <==> FirstOf(v) == 116
    ensures v.Bool? && !v.b <==> FirstOf(v) == 102
  {
  }

  lemma EntriesText(es: seq<Entry>, fs: seq<Entry>, open: CodeUnit, close: CodeUnit)
    requires AllPass(es) && AllPass(fs) && (close == CLOSE_ARRAY || close == CLOSE_OBJECT)
    requires [open] + (Join(es) + [close]) == [open] + (Join(fs) + [close])
    ensures SameTexts(es, fs)
  {
    hide Passes;
    assert ([open] + (Join(es) + [close]))[1..] == Join(es) + [close];
    assert ([open] + (Join(fs) + [close]))[1..] == Join(fs) + [close];
    JoinUnique(es, fs, close);
  }

  lemma ArrayText(xs: seq<Json>, ys: seq<Json>)
    requires ValidItems(xs) && ValidItems(ys)
    ensures Canon(Arr(xs)) == Canon(Arr(ys)) <==> multiset(ItemEntries(xs)) == multiset(ItemEntries(ys))
  {
    hide Passes, Functional, Sort;
    var es, fs := ItemEntries(xs), ItemEntries(ys);
    ItemsPass(xs);
    ItemsPass(ys);
    ItemKeys(xs);
    ItemKeys(ys);
    SortCanonical(es, fs);
    SortSorts(es);
    SortSorts(fs);
    AllPassByMultiset(es, Sort(es));
    AllPassByMultiset(fs, Sort(fs));
    if Canon(Arr(xs)) == Canon(Arr(ys)) {
      EntriesText(Sort(es), Sort(fs), OPEN_ARRAY, CLOSE_ARRAY);
      KeyedByText(es, Sort(es));
      KeyedByText(fs, Sort(fs));
      assert Sort(es) == Sort(fs);
    }
  }

  lemma KeyedByText(es: seq<Entry>, fs: seq<Entry>)
    requires multiset(es) == multiset(fs) && forall e :: e in multiset(es) ==> e.key == e.text
    ensures forall i :: 0 <= i < |fs| ==> fs[i] == Entry(fs[i].text, fs[i].text)
  {
    forall i | 0 <= i < |fs| ensures fs[i] == Entry(fs[i].text, fs[i].text) {
      assert fs[i] in multiset(es);
    }
  }

  lemma FieldTextKey(f: Field, g: Field)
    requires FieldText(f) == FieldText(g)
    ensures f.key == g.key && Canon(f.value) == Canon(g.value)
  {
    hide Canon, Quoted;
    QuotedUnique(f.key, [COLON] + Canon(f.value), g.key, [COLON] + Canon(g.value));
    assert ([COLON] + Canon(f.value))[1..] == Canon(f.value);
    assert ([COLON] + Canon(g.value))[1..] == Canon(g.value);
  }

  lemma FromFields(fields: seq<Field>, es: seq<Entry>, i: nat) returns (f: Field)
    requires multiset(FieldEntries(fields)) == multiset(es) && i < |es|
    ensures f in fields && es[i] == Entry(f.key, FieldText(f))
  {
    hide FieldText;
    FieldKeys(fields);
    assert es[i] in multiset(FieldEntries(fields));
    var k :| 0 <= k < |fields| && FieldEntries(fields)[k] == es[i];
    f := fields[k];
  }

  lemma ObjectText(xs: seq<Field>, ys: seq<Field>)
    requires ValidFields(xs) && ValidFields(ys) && DistinctKeys(xs) && DistinctKeys(ys)
    ensures Canon(Obj(xs)) == Canon(Obj(ys)) <==> multiset(FieldEntries(xs)) == multiset(FieldEntries(ys))
  {
    hide Passes, Functional, Sort, FieldText;
    var es, fs := FieldEntries(xs), FieldEntries(ys);
    FieldsPass(xs);
    FieldsPass(ys);
    FieldsFunctional(xs);
    FieldsFunctional(ys);
    SortCanonical(es, fs);
    SortSorts(es);
    SortSorts(fs);
    AllPassByMultiset(es, Sort(es));
    AllPassByMultiset(fs, Sort(fs));
    if Canon(Obj(xs)) == Canon(Obj(ys)) {
      EntriesText(Sort(es), Sort(fs), OPEN_OBJECT, CLOSE_OBJECT);
      forall i | 0 <= i < |Sort(es)| ensures Sort(es)[i] == Sort(fs)[i] {
        var f := FromFields(xs, Sort(es), i);
        var g := FromFields(ys, Sort(fs), i);
        FieldTextKey(f, g);
      }
      assert Sort(es) == Sort(fs);
    }
  }

  lemma FindPartner(es: seq<Entry>, fs: seq<Entry>) returns (j: nat)
    requires es != [] && multiset(es) == multiset(fs)
    ensures j < |fs| && fs[j] == es[0] && multiset(es[1..]) == multiset(Without(fs, j))
  {
    assert es == [es[0]] + es[1..];
    assert es[0] in multiset(fs);
    j :| 0 <= j < |fs| && fs[j] == es[0];
    MultisetWithout(fs, j);
  }

  lemma JoinPartner(es: seq<Entry>, fs: seq<Entry>, j: nat)
    requires es != [] && j < |fs| && fs[j] == es[0] && multiset(es[1..]) == multiset(Without(fs, j))
    ensures multiset(es) == multiset(fs)
  {
    assert es == [es[0]] + es[1..];
    MultisetWithout(fs, j);
    assert fs[j] in multiset(fs);
    assert multiset(fs) == multiset(fs) - multiset{fs[j]} + multiset{fs[j]};
  }

  /** Two multisets agree exactly when the first element finds a partner and the rests agree. */
  lemma PairOff(es: seq<Entry>, fs: seq<Entry>)
    requires es != []
    ensures multiset(es) == multiset(fs)
       <==> exists j :: 0 <= j < |fs| && fs[j] == es[0] && multiset(es[1..]) == multiset(Without(fs, j))
  {
    hide *;
    if multiset(es) == multiset(fs) {
      var j := FindPartner(es, fs);
    }
    if j :| 0 <= j < |fs| && fs[j] == es[0] && multiset(es[1..]) == multiset(Without(fs, j)) {
      JoinPartner(es, fs, j);
    }
  }

  lemma {:induction false} SameItemTexts(xs: seq<Json>, ys: seq<Json>)
    requires ValidItems(xs) && ValidItems(ys)
    ensures multiset(ItemEntries(xs)) == multiset(ItemEntries(ys)) <==> SameItems(xs, ys)
    decreases xs, 1
  {
    hide Canon, Valid, Equivalent;
    ItemCount(xs);
    ItemCount(ys);
    var es, fs := ItemEntries(xs), ItemEntries(ys);
    if xs == [] {
      assert multiset(fs) == multiset([]) ==> |fs| == |multiset(fs)| == 0;
    } else {
      forall j | 0 <= j < |ys|
        ensures fs[j] == es[0] && multiset(es[1..]) == multiset(Without(fs, j))
           <==> Equivalent(xs[0], ys[j]) && SameItems(xs[1..], Without(ys, j))
      {
        SameText(xs[0], ys[j]);
        SameItemTexts(xs[1..], Without(ys, j));
        EntriesWithout(ys, j);
      }
      PairOff(es, fs);
    }
  }

  lemma {:induction false} SameFieldTexts(xs: seq<Field>, ys: seq<Field>)
    requires ValidFields(xs) && ValidFields(ys)
    ensures multiset(FieldEntries(xs)) == multiset(FieldEntries(ys)) <==> SameFields(xs, ys)
    decreases xs, 1
  {
    hide FieldText, Valid, Equivalent;
    FieldKeys(xs);
    FieldKeys(ys);
    var es, fs := FieldEntries(xs), FieldEntries(ys);
    if xs == [] {
      assert multiset(fs) == multiset([]) ==> |fs| == |multiset(fs)| == 0;
    } else {
      forall j | 0 <= j < |ys|
        ensures fs[j] == es[0] && multiset(es[1..]) == multiset(Without(fs, j))
           <==> xs[0].key == ys[j].key && Equivalent(xs[0].value, ys[j].value) && SameFields(xs[1..], Without(ys, j))
      {
        SameText(xs[0].value, ys[j].value);
        FieldTextByValue(xs[0], ys[j]);
        SameFieldTexts(xs[1..], Without(ys, j));
        FieldEntriesWithout(ys, j);
      }
      PairOff(es, fs);
    }
  }

  lemma FieldTextByValue(f: Field, g: Field)
    ensures FieldText(f) == FieldText(g) <==> f.key == g.key && Canon(f.value) == Canon(g.value)
  {
    if FieldText(f) == FieldText(g) {
      FieldTextKey(f, g);
    }
  }

  /** Main result: two JSON values have the same canonical text exactly when they are equal up to
      the order of object members and array elements at every depth. */
  lemma CanonicalForm(v: Json, w: Json)
    requires Valid(v) && Valid(w)
    ensures Canon(v) == Canon(w) <==> Equivalent(v, w)
  {
    SameText(v, w);
  }

  // ---- the text behind the auth version ----------------------------------------------------

  datatype Jwk = Jwk(kid: Text, n: Text, e: Text)

  const KID: Text := [107, 105, 100]
  const N: Text := [110]
  const E: Text := [101]

  function KeyJson(k: Jwk): Json {
    Obj([Field(KID, Str(k.kid)), Field(N, Str(k.n)), Field(E, Str(k.e))])
  }

  function KeySetJson(ks: seq<Jwk>): seq<Json> {
    if ks == [] then [] else [KeyJson(ks[0])] + KeySetJson(ks[1..])
  }

  lemma KeyFields(k: Jwk)
    ensures Valid(KeyJson(k))
    ensures forall i :: 0 <= i < 3 ==> KeyJson(k).fields[i] == Field([KID, N, E][i], Str([k.kid, k.n, k.e][i]))
  {
  }

  /** Two key objects with their members in one fixed order are equivalent only when equal. */
  lemma KeyEquivalent(k: Jwk, l: Jwk)
    ensures Equivalent(KeyJson(k), KeyJson(l)) <==> k == l
  {
    KeyFields(k);
    KeyFields(l);
    var fs, gs := KeyJson(k).fields, KeyJson(l).fields;
    SameFieldsInOrder(fs, gs);
  }

  /** Without repeated keys, members pair off by key, so lists in the same key order pair off in place. */
  lemma {:induction false} SameFieldsInOrder(fs: seq<Field>, gs: seq<Field>)
    requires |fs| == |gs| && DistinctKeys(gs) && forall i :: 0 <= i < |fs| ==> fs[i].key == gs[i].key
    requires forall i :: 0 <= i < |fs| ==> fs[i].value.Str? && gs[i].value.Str?
    ensures SameFields(fs, gs) <==> fs == gs
  {
    if fs != [] {
      SameFieldsInOrder(fs[1..], gs[1..]);
      FirstInPlace(fs, gs);
      StringsEquivalent(fs[0].value, gs[0].value);
      hide Equivalent, SameFields;
      assert fs == [fs[0]] + fs[1..] && gs == [gs[0]] + gs[1..];
    }
  }

  lemma StringsEquivalent(v: Json, w: Json)
    requires v.Str? && w.Str?
    ensures Equivalent(v, w) <==> v == w
  {
  }

  lemma FirstInPlace(fs: seq<Field>, gs: seq<Field>)
    requires fs != [] && gs != [] && fs[0].key == gs[0].key && DistinctKeys(gs)
    ensures SameFields(fs, gs) <==> Equivalent(fs[0].value, gs[0].value) && SameFields(fs[1..], gs[1..])
  {
    hide Equivalent;
    assert Without(gs, 0) == gs[1..];
  }

  lemma KeySetWithout(ks: seq<Jwk>, j: nat)
    requires j < |ks|
    ensures |KeySetJson(ks)| == |ks| && KeySetJson(ks)[j] == KeyJson(ks[j])
    ensures KeySetJson(Without(ks, j)) == Without(KeySetJson(ks), j)
  {
    hide KeyJson, KeySetJson;
    KeySetLength(ks);
    KeySetLength(Without(ks, j));
    var a, b := KeySetJson(Without(ks, j)), Without(KeySetJson(ks), j);
    forall i | 0 <= i < |a| ensures a[i] == b[i] {}
  }

  lemma {:induction false} KeySetLength(ks: seq<Jwk>)
    ensures |KeySetJson(ks)| == |ks| && forall i :: 0 <= i < |ks| ==> KeySetJson(ks)[i] == KeyJson(ks[i])
  {
    if ks != [] {
      KeySetLength(ks[1..]);
    }
  }

  lemma {:induction false} KeySetsMatch(ks: seq<Jwk>, ls: seq<Jwk>)
    ensures SameItems(KeySetJson(ks), KeySetJson(ls)) <==> multiset(ks) == multiset(ls)
    decreases |ks|
  {
    hide KeyJson, Equivalent;
    KeySetLength(ks);
    KeySetLength(ls);
    if ks == [] {
      assert multiset(ls) == multiset([]) ==> |ls| == |multiset(ls)| == 0;
    } else {
      assert ks == [ks[0]] + ks[1..];
      assert KeySetJson(ks)[1..] == KeySetJson(ks[1..]);
      forall j | 0 <= j < |ls|
        ensures Equivalent(KeySetJson(ks)[0], KeySetJson(ls)[j]) <==> ks[0] == ls[j]
        ensures SameItems(KeySetJson(ks)[1..], Without(KeySetJson(ls), j)) <==> multiset(ks[1..]) == multiset(ls) - multiset{ls[j]}
      {
        KeyEquivalent(ks[0], ls[j]);
        KeySetWithout(ls, j);
        KeySetsMatch(ks[1..], Without(ls, j));
        MultisetWithout(ls, j);
      }
      KeySetStep(ks, ls);
    }
  }

  lemma KeySetStep(ks: seq<Jwk>, ls: seq<Jwk>)
    requires ks != []
    ensures multiset(ks) == multiset(ls)
       <==> exists j :: 0 <= j < |ls| && ks[0] == ls[j] && multiset(ks[1..]) == multiset(ls) - multiset{ls[j]}
  {
    assert ks == [ks[0]] + ks[1..];
    if multiset(ks) == multiset(ls) {
      assert ks[0] in multiset(ls);
      var j :| 0 <= j < |ls| && ls[j] == ks[0];
      assert multiset(ks[1..]) == multiset(ks) - multiset{ks[0]};
    }
    if j :| 0 <= j < |ls| && ks[0] == ls[j] && multiset(ks[1..]) == multiset(ls) - multiset{ls[j]} {
      assert ls[j] in multiset(ls);
    }
  }

  /** Main result: the text the auth version is hashed from changes exactly when the signing keys
      do, as a multiset of (kid, n, e); their order in the set never matters. */
  lemma KeySetText(ks: seq<Jwk>, ls: seq<Jwk>)
    ensures Canon(Arr(KeySetJson(ks))) == Canon(Arr(KeySetJson(ls))) <==> multiset(ks) == multiset(ls)
  {
    hide Canon, KeyJson;
    KeySetValid(ks);
    KeySetValid(ls);
    KeySetsMatch(ks, ls);
    CanonicalForm(Arr(KeySetJson(ks)), Arr(KeySetJson(ls)));
  }

  lemma KeySetValid(ks: seq<Jwk>)
    ensures Valid(Arr(KeySetJson(ks)))
  {
    hide KeyJson;
    KeySetLength(ks);
    forall i | 0 <= i < |ks| ensures Valid(KeySetJson(ks)[i]) {
      KeyFields(ks[i]);
    }
  }
}
