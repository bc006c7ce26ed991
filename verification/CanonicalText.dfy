/** What a canonical text looks like: the plain JSON text of the value with its members in ascending key
    order and its elements in ascending order of their texts, at every depth. */
module CanonicalText {

  import opened CanonicalJson

  // ---- the order ---------------------------------------------------------------------------

  /** At the first place where they differ, `a` has the smaller code unit, or it ends there. */
  ghost predicate Before(a: Text, b: Text) {
    exists k :: 0 <= k <= |a| && k < |b| && a[..k] == b[..k] && (k == |a| || a[k] < b[k])
  }

  /** The sort order is that of the code units. */
  lemma {:induction false} LeIsUnitOrder(a: Text, b: Text)
    ensures Le(a, b) <==> a == b || Before(a, b)
    decreases |a|
  {
    if a == [] {
      if b != [] {
        assert a[..0] == b[..0];
      }
    } else if b != [] {
      LeIsUnitOrder(a[1..], b[1..]);
      BeforeTail(a, b);
      assert a == [a[0]] + a[1..] && b == [b[0]] + b[1..];
    }
  }

  lemma BeforeTail(a: Text, b: Text)
    requires a != [] && b != []
    ensures Before(a, b) <==> a[0] < b[0] || (a[0] == b[0] && Before(a[1..], b[1..]))
  {
    if Before(a, b) {
      var k :| 0 <= k <= |a| && k < |b| && a[..k] == b[..k] && (k == |a| || a[k] < b[k]);
      if k > 0 {
        assert a[0] == a[..k][0] == b[..k][0] == b[0];
        assert a[1..][..k - 1] == a[..k][1..] && b[1..][..k - 1] == b[..k][1..];
      }
    }
    if a[0] < b[0] {
      assert a[..0] == b[..0];
    } else if a[0] == b[0] && Before(a[1..], b[1..]) {
      var k :| 0 <= k <= |a[1..]| && k < |b[1..]| && a[1..][..k] == b[1..][..k] && (k == |a[1..]| || a[1..][k] < b[1..][k]);
      assert a[..k + 1] == [a[0]] + a[1..][..k] && b[..k + 1] == [b[0]] + b[1..][..k];
    }
  }

  // ---- the plain text ----------------------------------------------------------------------

  /** JSON.stringify: members and elements in the order they stand. */
  function Plain(v: Json): Text
    decreases v, 1
  {
    match v
    case Null => Units("null")
    case Bool(b) => Units(if b then "true" else "false")
    case Num(literal) => literal
    case Str(s) => Quoted(s)
    case Arr(items) => Units("[") + PlainItems(items) + Units("]")
    case Obj(fields) => Units("{") + PlainFields(fields) + Units("}")
  }

  function PlainItems(items: seq<Json>): Text
    decreases items, 0
  {
    if items == [] then []
    else if |items| == 1 then Plain(items[0])
    else Plain(items[0]) + Units(",") + PlainItems(items[1..])
  }

  function PlainField(f: Field): Text
    decreases f, 2
  {
    Quoted(f.key) + Units(":") + Plain(f.value)
  }

  function PlainFields(fields: seq<Field>): Text
    decreases fields, 0
  {
    if fields == [] then []
    else if |fields| == 1 then PlainField(fields[0])
    else PlainField(fields[0]) + Units(",") + PlainFields(fields[1..])
  }

  /** The code units of an ASCII text. */
  function Units(s: string): (t: Text)
    ensures |t| == |s|
  {
    seq(|s|, i requires 0 <= i < |s| => if s[i] < 128 as char then s[i] as int else 0)
  }

  /** Everything is in its place: at every depth keys ascend, and so do the texts of elements. */
  ghost predicate Arranged(v: Json)
    decreases v
  {
    match v
    case Arr(items) =>
      && (forall i :: 0 <= i < |items| ==> Arranged(items[i]))
      && forall i, j :: 0 <= i < j < |items| ==> Plain(items[i]) == Plain(items[j]) || Before(Plain(items[i]), Plain(items[j]))
    case Obj(fields) =>
      && (forall i :: 0 <= i < |fields| ==> Arranged(fields[i].value))
      && forall i, j :: 0 <= i < j < |fields| ==> Before(fields[i].key, fields[j].key)
    case _ => true
  }

  // ---- on a value in place, the canonical text is the plain one ----------------------------

  ghost predicate PlainIsCanon(v: Json) {
    Valid(v) && Arranged(v) && Canon(v) == Plain(v)
  }

  lemma Marks()
    ensures Units("null") == NULL && Units("true") == TRUE && Units("false") == FALSE
    ensures Units("[") == [OPEN_ARRAY] && Units("]") == [CLOSE_ARRAY]
    ensures Units("{") == [OPEN_OBJECT] && Units("}") == [CLOSE_OBJECT]
    ensures Units(",") == [COMMA] && Units(":") == [COLON]
  {
  }

  lemma {:induction false} ItemsJoined(items: seq<Json>)
    requires forall i :: 0 <= i < |items| ==> Canon(items[i]) == Plain(items[i])
    ensures Join(ItemEntries(items)) == PlainItems(items)
    decreases items
  {
    hide Canon, Plain, Units;
    Marks();
    if items != [] {
      ItemCount(items);
      ItemCount(items[1..]);
      ItemsJoined(items[1..]);
      assert ItemEntries(items)[1..] == ItemEntries(items[1..]);
    }
  }

  lemma {:induction false} FieldsJoined(fields: seq<Field>)
    requires forall i :: 0 <= i < |fields| ==> Canon(fields[i].value) == Plain(fields[i].value)
    ensures Join(FieldEntries(fields)) == PlainFields(fields)
    decreases fields
  {
    hide Canon, Plain, Units, Quoted;
    Marks();
    if fields != [] {
      FieldKeys(fields);
      FieldKeys(fields[1..]);
      FieldsJoined(fields[1..]);
      assert FieldEntries(fields)[1..] == FieldEntries(fields[1..]);
      assert FieldText(fields[0]) == PlainField(fields[0]);
    }
  }

  // ---- putting everything in place ---------------------------------------------------------

  /** The values in the order of some permutation of their entries, each with its own entry. */
  lemma {:induction false} Permuted<T>(values: seq<T>, keys: seq<Entry>, es: seq<Entry>) returns (r: seq<T>)
    requires |values| == |keys| && multiset(es) == multiset(keys)
    ensures |r| == |es| && multiset(r) == multiset(values)
    ensures forall k :: 0 <= k < |r| ==> exists j :: 0 <= j < |values| && r[k] == values[j] && es[k] == keys[j]
    decreases |es|
  {
    if es == [] {
      assert |multiset(keys)| == 0;
      r := [];
    } else {
      var j := FindPartner(es, keys);
      var rest := Permuted(Without(values, j), Without(keys, j), es[1..]);
      r := [values[j]] + rest;
      PermutedStep(values, j, rest);
      forall k | 0 < k < |r| ensures exists i :: 0 <= i < |values| && r[k] == values[i] && es[k] == keys[i] {
        var i :| 0 <= i < |Without(values, j)| && rest[k - 1] == Without(values, j)[i] && es[1..][k - 1] == Without(keys, j)[i];
        var at := if i < j then i else i + 1;
        assert r[k] == values[at] && es[k] == keys[at];
      }
    }
  }

  lemma PermutedStep<T>(values: seq<T>, j: nat, rest: seq<T>)
    requires j < |values| && multiset(rest) == multiset(Without(values, j))
    ensures multiset([values[j]] + rest) == multiset(values)
  {
    MultisetWithout(values, j);
    assert values[j] in multiset(values);
  }

  lemma Reordered(items: seq<Json>, es: seq<Entry>) returns (r: seq<Json>)
    requires multiset(es) == multiset(ItemEntries(items))
    ensures ItemEntries(r) == es && multiset(r) == multiset(items)
  {
    hide Canon;
    ItemCount(items);
    hide ItemEntries;
    r := Permuted(items, ItemEntries(items), es);
    ItemCount(r);
    assert forall k :: 0 <= k < |r| ==> ItemEntries(r)[k] == es[k];
  }

  lemma ReorderedFields(fields: seq<Field>, es: seq<Entry>) returns (r: seq<Field>)
    requires multiset(es) == multiset(FieldEntries(fields))
    ensures FieldEntries(r) == es && multiset(r) == multiset(fields)
  {
    hide FieldText;
    FieldKeys(fields);
    hide FieldEntries;
    r := Permuted(fields, FieldEntries(fields), es);
    FieldKeys(r);
    assert forall k :: 0 <= k < |r| ==> FieldEntries(r)[k] == es[k];
  }

  lemma {:induction false} ArrangeItems(items: seq<Json>) returns (r: seq<Json>)
    requires ValidItems(items)
    ensures |r| == |items| && ItemEntries(r) == ItemEntries(items)
    ensures forall i :: 0 <= i < |r| ==> PlainIsCanon(r[i])
    decreases items, 0
  {
    hide Canon, PlainIsCanon;
    r := [];
    if items != [] {
      var first := Arrange(items[0]);
      var rest := ArrangeItems(items[1..]);
      r := [first] + rest;
      assert r[1..] == rest;
    }
  }

  lemma {:induction false} ArrangeFields(fields: seq<Field>) returns (r: seq<Field>)
    requires ValidFields(fields)
    ensures |r| == |fields| && FieldEntries(r) == FieldEntries(fields)
    ensures forall i :: 0 <= i < |r| ==> r[i].key == fields[i].key && PlainIsCanon(r[i].value)
    decreases fields, 0
  {
    hide Canon, PlainIsCanon, Quoted;
    r := [];
    if fields != [] {
      var first := Arrange(fields[0].value);
      var rest := ArrangeFields(fields[1..]);
      r := [Field(fields[0].key, first)] + rest;
      assert r[1..] == rest;
    }
  }

  /** A value in place with the same canonical text. */
  lemma {:induction false} Arrange(v: Json) returns (w: Json)
    requires Valid(v)
    ensures PlainIsCanon(w) && Canon(w) == Canon(v)
    decreases v, 1
  {
    match v
    case Arr(items) =>
      var r := ArrangeItems(items);
      w := ArrangedArray(items, r);
    case Obj(fields) =>
      var r := ArrangeFields(fields);
      w := ArrangedObject(fields, r);
    case _ =>
      Marks();
      w := v;
  }

  lemma SortedAgain(es: seq<Entry>)
    requires Functional(multiset(es))
    ensures Sort(Sort(es)) == Sort(es)
  {
    SortSorts(es);
    hide Sort, Functional;
    SortCanonical(Sort(es), es);
  }

  lemma ArrangedArray(items: seq<Json>, r: seq<Json>) returns (w: Json)
    requires ItemEntries(r) == ItemEntries(items) && forall i :: 0 <= i < |r| ==> PlainIsCanon(r[i])
    ensures PlainIsCanon(w) && Canon(w) == Canon(Arr(items))
  {
    var es := ItemEntries(items);
    SortSorts(es);
    ItemKeys(items);
    SortedAgain(es);
    var s := Reordered(r, Sort(es));
    forall i | 0 <= i < |s| ensures PlainIsCanon(s[i]) {
      assert s[i] in multiset(r);
      var j :| 0 <= j < |r| && r[j] == s[i];
    }
    w := Arr(s);
    ItemsJoined(s);
    Marks();
    AscendingItems(s, Sort(es));
    ArrayPlain(items, s);
  }

  lemma AscendingItems(s: seq<Json>, es: seq<Entry>)
    requires es == ItemEntries(s) && Sorted(es) && forall i :: 0 <= i < |s| ==> PlainIsCanon(s[i])
    ensures Valid(Arr(s)) && Arranged(Arr(s))
  {
    ItemCount(s);
    hide Canon, Plain, ItemEntries, Le, Before;
    forall i, j | 0 <= i < j < |s| ensures Plain(s[i]) == Plain(s[j]) || Before(Plain(s[i]), Plain(s[j])) {
      LeIsUnitOrder(Plain(s[i]), Plain(s[j]));
      assert Le(es[i].key, es[j].key);
    }
  }

  lemma ArrayPlain(items: seq<Json>, s: seq<Json>)
    requires ItemEntries(s) == Sort(ItemEntries(items)) && Sort(ItemEntries(s)) == ItemEntries(s)
    requires Join(ItemEntries(s)) == PlainItems(s)
    requires Units("[") == [OPEN_ARRAY] && Units("]") == [CLOSE_ARRAY]
    ensures Canon(Arr(s)) == Plain(Arr(s)) == Canon(Arr(items))
  {
    hide Sort, Join, ItemEntries, PlainItems, Units;
    assert Canon(Arr(s)) == [OPEN_ARRAY] + (PlainItems(s) + [CLOSE_ARRAY]);
    assert Plain(Arr(s)) == [OPEN_ARRAY] + PlainItems(s) + [CLOSE_ARRAY];
  }

  lemma ArrangedObject(fields: seq<Field>, r: seq<Field>) returns (w: Json)
    requires Valid(Obj(fields)) && |r| == |fields| && FieldEntries(r) == FieldEntries(fields)
    requires forall i :: 0 <= i < |r| ==> r[i].key == fields[i].key && PlainIsCanon(r[i].value)
    ensures PlainIsCanon(w) && Canon(w) == Canon(Obj(fields))
  {
    var es := FieldEntries(fields);
    SortSorts(es);
    FieldsFunctional(fields);
    SortedAgain(es);
    var s := ReorderedFields(r, Sort(es));
    forall i | 0 <= i < |s| ensures PlainIsCanon(s[i].value) {
      assert s[i] in multiset(r);
      var j :| 0 <= j < |r| && r[j] == s[i];
    }
    w := Obj(s);
    FieldsJoined(s);
    Marks();
    StillDistinct(r, s);
    AscendingFields(s, Sort(es));
    ObjectPlain(fields, s);
  }

  lemma StillDistinct(r: seq<Field>, s: seq<Field>)
    requires DistinctKeys(r) && multiset(s) == multiset(r)
    ensures DistinctKeys(s)
  {
    forall i, j | 0 <= i < j < |s| ensures s[i].key != s[j].key {
      var k, l := TwoPlaces(r, s, i, j);
    }
  }

  lemma TwoPlaces<T>(r: seq<T>, s: seq<T>, i: nat, j: nat) returns (k: nat, l: nat)
    requires multiset(s) == multiset(r) && i < j < |s|
    ensures k < |r| && l < |r| && k != l && r[k] == s[i] && r[l] == s[j]
  {
    MultisetWithout(s, i);
    assert Without(s, i)[j - 1] == s[j] && s[i] in multiset(r);
    k :| 0 <= k < |r| && r[k] == s[i];
    MultisetWithout(r, k);
    assert s[j] in multiset(Without(r, k));
    var m :| 0 <= m < |Without(r, k)| && Without(r, k)[m] == s[j];
    l := if m < k then m else m + 1;
  }

  lemma AscendingFields(s: seq<Field>, es: seq<Entry>)
    requires es == FieldEntries(s) && Sorted(es) && DistinctKeys(s) && forall i :: 0 <= i < |s| ==> PlainIsCanon(s[i].value)
    ensures Valid(Obj(s)) && Arranged(Obj(s))
  {
    FieldKeys(s);
    hide Canon, Plain, FieldText, FieldEntries, Le, Before;
    forall i, j | 0 <= i < j < |s| ensures Before(s[i].key, s[j].key) {
      LeIsUnitOrder(s[i].key, s[j].key);
      assert Le(es[i].key, es[j].key);
    }
  }

  lemma ObjectPlain(fields: seq<Field>, s: seq<Field>)
    requires FieldEntries(s) == Sort(FieldEntries(fields)) && Sort(FieldEntries(s)) == FieldEntries(s)
    requires Join(FieldEntries(s)) == PlainFields(s)
    requires Units("{") == [OPEN_OBJECT] && Units("}") == [CLOSE_OBJECT]
    ensures Canon(Obj(s)) == Plain(Obj(s)) == Canon(Obj(fields))
  {
    hide Sort, Join, FieldEntries, PlainFields, Units;
    assert Canon(Obj(s)) == [OPEN_OBJECT] + (PlainFields(s) + [CLOSE_OBJECT]);
    assert Plain(Obj(s)) == [OPEN_OBJECT] + PlainFields(s) + [CLOSE_OBJECT];
  }

  /** Main result: the canonical text of a value is the plain JSON text of the same value with its members
      in ascending key order and its elements in ascending text order, at every depth. */
  lemma CanonIsArranged(v: Json) returns (w: Json)
    requires Valid(v)
    ensures Valid(w) && Arranged(w) && Equivalent(v, w) && Canon(v) == Plain(w)
  {
    w := Arrange(v);
    hide Canon, Plain, Arranged, Equivalent, Valid;
    CanonicalForm(v, w);
  }

  /** Which units a string writes as themselves. */
  lemma WrittenRaw(u: CodeUnit)
    ensures Escape(u) == [u] <==> 32 <= u && u != 34 && u != 92 && !(0xD800 <= u < 0xE000)
    ensures Escape(u) != [u] ==> Escape(u)[0] == 92
  {
  }
}
