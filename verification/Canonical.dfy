/**
 `sortKeys`: the key-sorted form of a JSON value, the form that is signed and hashed.

 An object is the sequence of its own properties in the order JavaScript enumerates them, so its keys are distinct.
 That order lists array-index keys first, by number, then the others in the order they were created (ECMA-262,
 OrdinaryOwnPropertyKeys); so a "sorted" object enumerates its index keys before the rest. Keys are sequences of
 UTF-16 code units, which is how `sort` compares them. Assigning to "__proto__" on a plain object creates no property.
 */
module Canonical {
  type Key = seq<nat>

  datatype Field = Field(key: Key, value: Json)

  datatype Json =
    | Null | Undefined | Flag(b: bool) | Num(numeral: string) | Str(s: string)
    | Arr(items: seq<Json>) | Obj(fields: seq<Field>)

  function Units(s: string): (k: Key)
    ensures |k| == |s|
  {
    seq(|s|, i requires 0 <= i < |s| => s[i] as int)
  }

  const EXTENSIONS: Key := Units("extensions")
  const PROTO: Key := Units("__proto__")

  // ---- Orders on keys ----

  /** Code-unit order, the default order of `sort`. */
  predicate Lex(a: Key, b: Key) {
    b != [] && (a == [] || a[0] < b[0] || (a[0] == b[0] && Lex(a[1..], b[1..])))
  }

  predicate Numeral(k: Key) {
    && k != [] && (forall i :: 0 <= i < |k| ==> 48 <= k[i] <= 57)
    && (k[0] == 48 ==> |k| == 1)
  }

  function ValueOf(k: Key): int {
    if k == [] then 0 else 10 * ValueOf(k[..|k| - 1]) + k[|k| - 1] - 48
  }

  /** Array index: a numeral without leading zeros, below 2^32 - 1. */
  predicate IsIndex(k: Key) {
    Numeral(k) && ValueOf(k) < 0xFFFF_FFFF
  }

  /** The order in which the properties of a key-sorted object are enumerated. */
  predicate Before(a: Key, b: Key) {
    if IsIndex(a) then !IsIndex(b) || ValueOf(a) < ValueOf(b)
    else !IsIndex(b) && Lex(a, b)
  }

  /** At the first difference the smaller code unit, or the end of the key, comes first. */
  lemma {:induction false} LexIsFirstDifference(a: Key, b: Key)
    ensures Lex(a, b) <==> exists k :: 0 <= k <= |a| && k < |b| && DiffersAt(a, b, k)
  {
    if b != [] && a != [] && a[0] == b[0] {
      LexIsFirstDifference(a[1..], b[1..]);
      if k :| 0 <= k <= |a[1..]| && k < |b[1..]| && DiffersAt(a[1..], b[1..], k) {
        assert a[..k + 1] == [a[0]] + a[1..][..k] && b[..k + 1] == [b[0]] + b[1..][..k];
        assert DiffersAt(a, b, k + 1);
      }
      if k :| 0 <= k <= |a| && k < |b| && DiffersAt(a, b, k) {
        assert k > 0;
        assert a[1..][..k - 1] == a[..k][1..] && b[1..][..k - 1] == b[..k][1..];
        assert DiffersAt(a[1..], b[1..], k - 1);
      }
    } else if b != [] {
      assert a[..0] == b[..0];
      if Lex(a, b) { assert DiffersAt(a, b, 0); }
      if k :| 0 <= k <= |a| && k < |b| && DiffersAt(a, b, k) {
        assert k > 0 ==> a[..k][0] == b[..k][0];
      }
    }
  }

  predicate DiffersAt(a: Key, b: Key, k: nat) {
    k <= |a| && k < |b| && a[..k] == b[..k] && (k == |a| || a[k] < b[k])
  }

  lemma {:induction false} LexTotal(a: Key, b: Key)
    ensures a == b || Lex(a, b) || Lex(b, a)
    ensures !(Lex(a, b) && (a == b || Lex(b, a)))
  {
    if a != [] && b != [] && a[0] == b[0] {
      LexTotal(a[1..], b[1..]);
      assert a == [a[0]] + a[1..] && b == [b[0]] + b[1..];
    }
  }

  lemma {:induction false} LexTransitive(a: Key, b: Key, c: Key)
    requires Lex(a, b) && Lex(b, c)
    ensures Lex(a, c)
  {
    if a != [] && a[0] == b[0] == c[0] {
      LexTransitive(a[1..], b[1..], c[1..]);
    }
  }

  lemma {:induction false} ValueAtLeast(k: Key)
    requires Numeral(k)
    ensures ValueOf(k) >= 0 && (k[0] != 48 ==> ValueOf(k) >= 1) && (|k| > 1 ==> ValueOf(k) >= 10)
  {
    if |k| == 1 {
      assert k[..0] == [];
    } else {
      ValueAtLeast(k[..|k| - 1]);
    }
  }

  /** Different indices are different numbers. */
  lemma {:induction false} ValueInjective(a: Key, b: Key)
    requires Numeral(a) && Numeral(b) && ValueOf(a) == ValueOf(b)
    ensures a == b
  {
    ValueAtLeast(a);
    ValueAtLeast(b);
    var a', b' := a[..|a| - 1], b[..|b| - 1];
    assert a == a' + [a[|a| - 1]] && b == b' + [b[|b| - 1]];
    if |a| > 1 && |b| > 1 {
      ValueInjective(a', b');
    } else {
      assert ValueOf([]) == 0;
    }
  }

  lemma {:induction false} BeforeTotal(a: Key, b: Key)
    ensures a == b || Before(a, b) || Before(b, a)
    ensures !(Before(a, b) && (a == b || Before(b, a)))
  {
    LexTotal(a, b);
    if IsIndex(a) && IsIndex(b) && ValueOf(a) == ValueOf(b) { ValueInjective(a, b); }
  }

  lemma {:induction false} BeforeTransitive(a: Key, b: Key, c: Key)
    requires Before(a, b) && Before(b, c)
    ensures Before(a, c)
  {
    if !IsIndex(a) { LexTransitive(a, b, c); }
  }

  // ---- The normal form ----

  /** `Object.keys(val).length === 0` of an object or an array. */
  predicate Empty(j: Json) {
    j == Arr([]) || j == Obj([])
  }

  /** The properties that survive: all but "__proto__", and an empty top-level "extensions". */
  predicate Kept(top: bool, f: Field) {
    f.key != PROTO && !(top && f.key == EXTENSIONS && Empty(f.value))
  }

  function Insert(fs: seq<Field>, f: Field): seq<Field> {
    if fs == [] || Before(f.key, fs[0].key) then [f] + fs else [fs[0]] + Insert(fs[1..], f)
  }

  /** The kept fields, with `forms` as their values, in enumeration order. */
  function Arrange(fields: seq<Field>, forms: seq<Json>, top: bool): seq<Field>
    requires |fields| == |forms|
  {
    if fields == [] then []
    else
      var n := |fields| - 1;
      var before := Arrange(fields[..n], forms[..n], top);
      if Kept(top, fields[n]) then Insert(before, Field(fields[n].key, forms[n])) else before
  }

  function SortKeys(j: Json, top: bool): Json
    decreases j
  {
    match j
    case Arr(items) => Arr(seq(|items|, i requires 0 <= i < |items| => SortKeys(items[i], false)))
    case Obj(fields) =>
      Obj(Arrange(fields, seq(|fields|, i requires 0 <= i < |fields| => SortKeys(fields[i].value, false)), top))
    case _ => j
  }

  predicate DistinctKeys(fs: seq<Field>) {
    forall i, j :: 0 <= i < j < |fs| ==> fs[i].key != fs[j].key
  }

  /** A JavaScript value: no object has a key twice, at any depth. */
  predicate WellFormed(j: Json) {
    match j
    case Arr(items) => forall i :: 0 <= i < |items| ==> WellFormed(items[i])
    case Obj(fields) => DistinctKeys(fields) && forall i :: 0 <= i < |fields| ==> WellFormed(fields[i].value)
    case _ => true
  }

  predicate Ordered(fs: seq<Field>) {
    forall i, j :: 0 <= i < j < |fs| ==> Before(fs[i].key, fs[j].key)
  }

  predicate Fresh(fs: seq<Field>, k: Key) {
    forall i :: 0 <= i < |fs| ==> fs[i].key != k
  }

  lemma {:induction false} InsertHas(fs: seq<Field>, f: Field, x: Field)
    ensures x in Insert(fs, f) <==> x in fs || x == f
  {
    if fs != [] && !Before(f.key, fs[0].key) {
      InsertHas(fs[1..], f, x);
      assert x in fs <==> x == fs[0] || x in fs[1..];
    }
  }

  /** Putting a field before all the others. */
  lemma {:induction false} OrderedCons(f: Field, fs: seq<Field>)
    requires Ordered(fs) && forall x :: x in fs ==> Before(f.key, x.key)
    ensures Ordered([f] + fs)
  {
    var all := [f] + fs;
    forall i, j | 0 <= i < j < |all| ensures Before(all[i].key, all[j].key) {
      assert all[j] == fs[j - 1] && all[j] in fs;
      if i > 0 { assert all[i] == fs[i - 1]; }
    }
  }

  lemma {:induction false} OrderedHead(fs: seq<Field>, f: Field)
    requires fs != [] && Ordered(fs) && Before(f.key, fs[0].key)
    ensures forall x :: x in fs ==> Before(f.key, x.key)
  {
    forall x | x in fs ensures Before(f.key, x.key) {
      var i :| 0 <= i < |fs| && fs[i] == x;
      if i > 0 { BeforeTransitive(f.key, fs[0].key, x.key); }
    }
  }

  lemma {:induction false} InsertKeepsOrder(fs: seq<Field>, f: Field)
    requires Ordered(fs) && Fresh(fs, f.key)
    ensures Ordered(Insert(fs, f))
  {
    if fs == [] {
    } else if Before(f.key, fs[0].key) {
      OrderedHead(fs, f);
      OrderedCons(f, fs);
    } else {
      var rest := Insert(fs[1..], f);
      InsertKeepsOrder(fs[1..], f);
      BeforeTotal(f.key, fs[0].key);
      forall x | x in rest ensures Before(fs[0].key, x.key) {
        InsertHas(fs[1..], f, x);
      }
      OrderedCons(fs[0], rest);
    }
  }

  /** `x` is a kept field with its value replaced by its form. */
  ghost predicate Comes(fields: seq<Field>, forms: seq<Json>, top: bool, x: Field)
    requires |fields| == |forms|
  {
    exists i :: 0 <= i < |fields| && Kept(top, fields[i]) && x == Field(fields[i].key, forms[i])
  }

  lemma {:induction false} ComesSnoc(fields: seq<Field>, forms: seq<Json>, top: bool, x: Field)
    requires |fields| == |forms| > 0
    ensures var n := |fields| - 1;
            Comes(fields, forms, top, x) <==>
            Comes(fields[..n], forms[..n], top, x) || (Kept(top, fields[n]) && x == Field(fields[n].key, forms[n]))
  {
    var n := |fields| - 1;
    if i :| 0 <= i < n && Kept(top, fields[..n][i]) && x == Field(fields[..n][i].key, forms[..n][i]) {
      assert fields[..n][i] == fields[i] && forms[..n][i] == forms[i];
    }
    if i :| 0 <= i < |fields| && Kept(top, fields[i]) && x == Field(fields[i].key, forms[i]) {
      if i < n { assert fields[..n][i] == fields[i] && forms[..n][i] == forms[i]; }
    }
  }

  lemma {:induction false} ArrangeHas(fields: seq<Field>, forms: seq<Json>, top: bool, x: Field)
    requires |fields| == |forms|
    ensures x in Arrange(fields, forms, top) <==> Comes(fields, forms, top, x)
  {
    if fields != [] {
      var n := |fields| - 1;
      ArrangeHas(fields[..n], forms[..n], top, x);
      ComesSnoc(fields, forms, top, x);
      InsertHas(Arrange(fields[..n], forms[..n], top), Field(fields[n].key, forms[n]), x);
    }
  }

  lemma {:induction false} ArrangeIsOrdered(fields: seq<Field>, forms: seq<Json>, top: bool)
    requires |fields| == |forms| && DistinctKeys(fields)
    ensures Ordered(Arrange(fields, forms, top))
  {
    if fields != [] {
      var n := |fields| - 1;
      var before := Arrange(fields[..n], forms[..n], top);
      ArrangeIsOrdered(fields[..n], forms[..n], top);
      forall i | 0 <= i < |before| ensures before[i].key != fields[n].key {
        assert before[i] in before;
        ArrangeHas(fields[..n], forms[..n], top, before[i]);
      }
      if Kept(top, fields[n]) { InsertKeepsOrder(before, Field(fields[n].key, forms[n])); }
    }
  }

  ghost predicate SameFields(f: seq<Field>, g: seq<Field>) {
    forall x :: x in f <==> x in g
  }

  /** An ordered listing is determined by its contents. */
  lemma {:induction false} OrderedUnique(f: seq<Field>, g: seq<Field>)
    requires Ordered(f) && Ordered(g) && SameFields(f, g)
    ensures f == g
  {
    assert g == [] || g[0] in g;
    if f != [] {
      assert f[0] in f && f[0] in g;
      assert g[0] in g && g[0] in f;
      BeforeTotal(f[0].key, g[0].key);
      assert f[0] == g[0];
      forall x ensures x in f[1..] <==> x in g[1..] {
        TailHas(f, x);
        TailHas(g, x);
      }
      OrderedUnique(f[1..], g[1..]);
      assert f == [f[0]] + f[1..] && g == [g[0]] + g[1..];
    }
  }

  lemma {:induction false} TailHas(f: seq<Field>, x: Field)
    requires f != [] && Ordered(f)
    ensures x in f[1..] <==> x in f && x != f[0]
  {
    if x in f[1..] {
      var i :| 0 <= i < |f[1..]| && f[1..][i] == x;
      assert f[i + 1] == x;
      BeforeTotal(f[0].key, f[i + 1].key);
    }
    if x in f && x != f[0] {
      var i :| 0 <= i < |f| && f[i] == x;
      assert f[1..][i - 1] == x;
    }
  }

  // ---- Same form, same meaning ----

  function Forms(fields: seq<Field>): (forms: seq<Json>)
    ensures |forms| == |fields|
  {
    seq(|fields|, i requires 0 <= i < |fields| => SortKeys(fields[i].value, false))
  }

  /** Some kept field of `g` has this key and an equivalent value. */
  ghost predicate Matched(f: Field, g: seq<Field>, top: bool)
    decreases f.value, 3
  {
    exists k :: 0 <= k < |g| && Kept(top, g[k]) && g[k].key == f.key && Equivalent(f.value, g[k].value, false)
  }

  ghost predicate MatchedBy(g: Field, fields: seq<Field>, top: bool, bound: Json)
    requires bound == Obj(fields)
    decreases bound, 0
  {
    exists i :: 0 <= i < |fields| && Kept(top, fields[i]) && fields[i].key == g.key
                && Equivalent(fields[i].value, g.value, false)
  }

  /**
   Agreement at every depth, up to the order of keys: arrays position by position, objects key by key, where the
   properties that are never kept do not matter.
   */
  ghost predicate Equivalent(a: Json, b: Json, top: bool)
    decreases a, 2
  {
    match (a, b)
    case (Arr(x), Arr(y)) => |x| == |y| && forall i :: 0 <= i < |x| ==> Equivalent(x[i], y[i], false)
    case (Obj(f), Obj(g)) =>
      && (forall i :: 0 <= i < |f| && Kept(top, f[i]) ==> Matched(f[i], g, top))
      && (forall k :: 0 <= k < |g| && Kept(top, g[k]) ==> MatchedBy(g[k], f, top, a))
    case _ => a == b
  }

  /** Two objects have the same form exactly when the same forms come from their kept fields. */
  lemma {:induction false} SameObjects(f: seq<Field>, g: seq<Field>, top: bool)
    requires DistinctKeys(f) && DistinctKeys(g)
    ensures SortKeys(Obj(f), top) == SortKeys(Obj(g), top) <==>
            forall x :: Comes(f, Forms(f), top, x) <==> Comes(g, Forms(g), top, x)
  {
    var f', g' := Arrange(f, Forms(f), top), Arrange(g, Forms(g), top);
    assert SortKeys(Obj(f), top) == Obj(f') && SortKeys(Obj(g), top) == Obj(g');
    forall x ensures (x in f' <==> Comes(f, Forms(f), top, x)) && (x in g' <==> Comes(g, Forms(g), top, x)) {
      ArrangeHas(f, Forms(f), top, x);
      ArrangeHas(g, Forms(g), top, x);
    }
    if SameFields(f', g') {
      ArrangeIsOrdered(f, Forms(f), top);
      ArrangeIsOrdered(g, Forms(g), top);
      OrderedUnique(f', g');
    }
  }

  /** A kept field's form comes from the other object exactly when the field is matched there. */
  lemma {:induction false} ComesIffMatched(f: Field, g: seq<Field>, top: bool)
    requires forall k :: 0 <= k < |g| ==>
               (SortKeys(f.value, false) == SortKeys(g[k].value, false) <==> Equivalent(f.value, g[k].value, false))
    ensures Comes(g, Forms(g), top, Field(f.key, SortKeys(f.value, false))) <==> Matched(f, g, top)
  {
    var x, forms := Field(f.key, SortKeys(f.value, false)), Forms(g);
    if k :| 0 <= k < |g| && Kept(top, g[k]) && x == Field(g[k].key, forms[k]) {
      assert Kept(top, g[k]) && g[k].key == f.key && Equivalent(f.value, g[k].value, false);
    }
    if k :| 0 <= k < |g| && Kept(top, g[k]) && g[k].key == f.key && Equivalent(f.value, g[k].value, false) {
      assert Kept(top, g[k]) && x == Field(g[k].key, forms[k]);
    }
  }

  lemma {:induction false} ComesIffMatchedBy(g: Field, f: seq<Field>, top: bool)
    requires forall i :: 0 <= i < |f| ==>
               (SortKeys(f[i].value, false) == SortKeys(g.value, false) <==> Equivalent(f[i].value, g.value, false))
    ensures Comes(f, Forms(f), top, Field(g.key, SortKeys(g.value, false))) <==> MatchedBy(g, f, top, Obj(f))
  {
    var x, forms := Field(g.key, SortKeys(g.value, false)), Forms(f);
    if i :| 0 <= i < |f| && Kept(top, f[i]) && x == Field(f[i].key, forms[i]) {
      assert Kept(top, f[i]) && f[i].key == g.key && Equivalent(f[i].value, g.value, false);
    }
    if i :| 0 <= i < |f| && Kept(top, f[i]) && f[i].key == g.key && Equivalent(f[i].value, g.value, false) {
      assert Kept(top, f[i]) && x == Field(f[i].key, forms[i]);
    }
  }

  /** One direction of inclusion between the fields that come from two objects. */
  ghost predicate Includes(f: seq<Field>, g: seq<Field>, top: bool) {
    forall i :: 0 <= i < |f| && Kept(top, f[i]) ==>
          Comes(g, Forms(g), top, Field(f[i].key, SortKeys(f[i].value, false)))
  }

  lemma {:induction false} IncludesMeans(f: seq<Field>, g: seq<Field>, top: bool)
    ensures Includes(f, g, top) <==> forall x :: Comes(f, Forms(f), top, x) ==> Comes(g, Forms(g), top, x)
  {
    if Includes(f, g, top) {
      forall x | Comes(f, Forms(f), top, x) ensures Comes(g, Forms(g), top, x) {
        var i :| 0 <= i < |f| && Kept(top, f[i]) && x == Field(f[i].key, Forms(f)[i]);
        assert x == Field(f[i].key, SortKeys(f[i].value, false));
      }
    } else {
      var i :| 0 <= i < |f| && Kept(top, f[i]) &&
          !Comes(g, Forms(g), top, Field(f[i].key, SortKeys(f[i].value, false)));
      var x := Field(f[i].key, Forms(f)[i]);
      assert Comes(f, Forms(f), top, x) && !Comes(g, Forms(g), top, x);
    }
  }

  lemma {:induction false} IncludesBoth(f: seq<Field>, g: seq<Field>, top: bool)
    ensures (forall x :: Comes(f, Forms(f), top, x) <==> Comes(g, Forms(g), top, x)) <==>
              Includes(f, g, top) && Includes(g, f, top)
  {
    IncludesMeans(f, g, top);
    IncludesMeans(g, f, top);
  }

  /** The normal form theorem: equal forms exactly for equivalent values. */
  lemma {:induction false} SameFormIffEquivalent(a: Json, b: Json, top: bool)
    requires WellFormed(a) && WellFormed(b)
    ensures SortKeys(a, top) == SortKeys(b, top) <==> Equivalent(a, b, top)
    decreases a
  {
    match (a, b)
    case (Arr(x), Arr(y)) =>
      forall i | 0 <= i < |x| && i < |y|
        ensures SortKeys(x[i], false) == SortKeys(y[i], false) <==> Equivalent(x[i], y[i], false)
      {
        SameFormIffEquivalent(x[i], y[i], false);
      }
      SameArrays(x, y, top);
    case (Obj(f), Obj(g)) =>
      forall i, k | 0 <= i < |f| && 0 <= k < |g|
        ensures SortKeys(f[i].value, false) == SortKeys(g[k].value, false) <==>
                  Equivalent(f[i].value, g[k].value, false)
      {
        SameFormIffEquivalent(f[i].value, g[k].value, false);
      }
      ObjectsByFields(f, g, top);
    case _ =>
  }

  lemma {:induction false} SameArrays(x: seq<Json>, y: seq<Json>, top: bool)
    requires forall i :: 0 <= i < |x| && i < |y| ==>
               (SortKeys(x[i], false) == SortKeys(y[i], false) <==> Equivalent(x[i], y[i], false))
    ensures SortKeys(Arr(x), top) == SortKeys(Arr(y), top) <==> Equivalent(Arr(x), Arr(y), top)
  {
    var x', y' := SortKeys(Arr(x), top).items, SortKeys(Arr(y), top).items;
    assert |x'| == |x| && |y'| == |y|;
    if x' == y' {
      forall i | 0 <= i < |x| ensures Equivalent(x[i], y[i], false) { assert x'[i] == y'[i]; }
    }
  }

  lemma {:induction false} ObjectsByFields(f: seq<Field>, g: seq<Field>, top: bool)
    requires DistinctKeys(f) && DistinctKeys(g)
    requires forall i, k :: 0 <= i < |f| && 0 <= k < |g| ==>
               (SortKeys(f[i].value, false) == SortKeys(g[k].value, false) <==>
                Equivalent(f[i].value, g[k].value, false))
    ensures SortKeys(Obj(f), top) == SortKeys(Obj(g), top) <==> Equivalent(Obj(f), Obj(g), top)
  {
    SameObjects(f, g, top);
    IncludesBoth(f, g, top);
    forall i | 0 <= i < |f|
      ensures Comes(g, Forms(g), top, Field(f[i].key, SortKeys(f[i].value, false))) <==> Matched(f[i], g, top)
    {
      ComesIffMatched(f[i], g, top);
    }
    forall k | 0 <= k < |g|
      ensures Comes(f, Forms(f), top, Field(g[k].key, SortKeys(g[k].value, false))) <==> MatchedBy(g[k], f, top, Obj(f))
    {
      ComesIffMatchedBy(g[k], f, top);
    }
  }

  // ---- Sorting twice ----

  /** An object all of whose properties are dropped although it has one: its only key is "__proto__". */
  predicate OnlyProto(j: Json) {
    j.Obj? && |j.fields| == 1 && j.fields[0].key == PROTO
  }

  /** A top-level "extensions" that is not empty but becomes so. */
  predicate Hollow(j: Json) {
    j.Obj? && exists i :: 0 <= i < |j.fields| && j.fields[i].key == EXTENSIONS && OnlyProto(j.fields[i].value)
  }

  lemma {:induction false} EmptyForm(v: Json)
    requires WellFormed(v)
    ensures Empty(SortKeys(v, false)) <==> Empty(v) || OnlyProto(v)
  {
    if v.Obj? {
      var fields, forms := v.fields, Forms(v.fields);
      var out := Arrange(fields, forms, false);
      assert SortKeys(v, false) == Obj(out);
      if out != [] { var i := FormField(fields, false, 0); }
      if |fields| > 1 { assert fields[0].key != fields[1].key; }
      if i :| 0 <= i < |fields| && fields[i].key != PROTO {
        var x := Field(fields[i].key, forms[i]);
        assert Kept(false, fields[i]) && Comes(fields, forms, false, x);
        ArrangeHas(fields, forms, false, x);
      }
    }
  }

  predicate AllKept(fields: seq<Field>, top: bool) {
    forall i :: 0 <= i < |fields| ==> Kept(top, fields[i])
  }

  /** Sorting an ordered object whose values are sorted keeps exactly the fields that are kept. */
  lemma {:induction false} SortedOnce(g: seq<Field>, top: bool)
    requires Ordered(g) && forall i :: 0 <= i < |g| ==> SortKeys(g[i].value, false) == g[i].value
    ensures SortKeys(Obj(g), top) == Obj(g) <==> AllKept(g, top)
  {
    var forms := Forms(g);
    var out := Arrange(g, forms, top);
    assert SortKeys(Obj(g), top) == Obj(out);
    forall x ensures x in out <==> x in g && Kept(top, x) {
      ArrangeHas(g, forms, top, x);
      FixedComes(g, top, x);
    }
    OrderedIsDistinct(g);
    ArrangeIsOrdered(g, forms, top);
    if AllKept(g, top) {
      OrderedUnique(out, g);
    } else {
      var i :| 0 <= i < |g| && !Kept(top, g[i]);
      assert g[i] in g && g[i] !in out;
    }
  }

  lemma {:induction false} FixedComes(g: seq<Field>, top: bool, x: Field)
    requires forall i :: 0 <= i < |g| ==> SortKeys(g[i].value, false) == g[i].value
    ensures Comes(g, Forms(g), top, x) <==> x in g && Kept(top, x)
  {
    var forms := Forms(g);
    if x in g && Kept(top, x) {
      var i :| 0 <= i < |g| && g[i] == x;
      assert Kept(top, g[i]) && x == Field(g[i].key, forms[i]);
    }
  }

  lemma {:induction false} OrderedIsDistinct(g: seq<Field>)
    requires Ordered(g)
    ensures DistinctKeys(g)
  {
    forall i, j | 0 <= i < j < |g| ensures g[i].key != g[j].key {
      BeforeTotal(g[i].key, g[j].key);
    }
  }

  /** Where a field of the form comes from. */
  lemma {:induction false} FormField(fields: seq<Field>, top: bool, k: nat) returns (i: nat)
    requires k < |Arrange(fields, Forms(fields), top)|
    ensures i < |fields| && Kept(top, fields[i])
    ensures Arrange(fields, Forms(fields), top)[k] == Field(fields[i].key, SortKeys(fields[i].value, false))
  {
    var forms := Forms(fields);
    var x := Arrange(fields, forms, top)[k];
    assert x in Arrange(fields, forms, top);
    ArrangeHas(fields, forms, top, x);
    var p :| 0 <= p < |fields| && Kept(top, fields[p]) && x == Field(fields[p].key, forms[p]);
    i := p;
  }

  /** A form is again a JavaScript value. */
  lemma {:induction false} FormIsWellFormed(j: Json, top: bool)
    requires WellFormed(j)
    ensures WellFormed(SortKeys(j, top))
    decreases j
  {
    match j
    case Arr(items) =>
      forall i | 0 <= i < |items| ensures WellFormed(SortKeys(items[i], false)) {
        FormIsWellFormed(items[i], false);
      }
    case Obj(fields) =>
      var out := Arrange(fields, Forms(fields), top);
      forall k | 0 <= k < |out| ensures WellFormed(out[k].value) {
        var i := FormField(fields, top, k);
        FormIsWellFormed(fields[i].value, false);
      }
      ArrangeIsOrdered(fields, Forms(fields), top);
      OrderedIsDistinct(out);
      assert SortKeys(j, top) == Obj(out);
    case _ =>
  }

  /** Below the top level sorting twice is sorting once, always; at the top level exactly unless it is hollow. */
  lemma {:induction false} IdempotentIff(j: Json, top: bool)
    requires WellFormed(j)
    ensures SortKeys(SortKeys(j, top), top) == SortKeys(j, top) <==> !(top && Hollow(j))
    decreases j
  {
    match j
    case Arr(items) =>
      var sorted := SortKeys(j, top).items;
      forall i | 0 <= i < |items| ensures SortKeys(sorted[i], false) == sorted[i] {
        IdempotentIff(items[i], false);
      }
      assert SortKeys(Arr(sorted), top).items == sorted;
    case Obj(fields) =>
      var out := Arrange(fields, Forms(fields), top);
      forall k | 0 <= k < |out| ensures SortKeys(out[k].value, false) == out[k].value {
        var i := FormField(fields, top, k);
        IdempotentIff(fields[i].value, false);
      }
      ArrangeIsOrdered(fields, Forms(fields), top);
      assert SortKeys(j, top) == Obj(out);
      SortedOnce(out, top);
      HollowIff(fields, top);
    case _ =>
  }

  lemma {:induction false} HollowIff(fields: seq<Field>, top: bool)
    requires WellFormed(Obj(fields))
    ensures AllKept(Arrange(fields, Forms(fields), top), top) <==> !(top && Hollow(Obj(fields)))
  {
    var forms := Forms(fields);
    var out := Arrange(fields, forms, top);
    if top && Hollow(Obj(fields)) {
      var i :| 0 <= i < |fields| && fields[i].key == EXTENSIONS && OnlyProto(fields[i].value);
      var x := Field(EXTENSIONS, forms[i]);
      EmptyForm(fields[i].value);
      assert |PROTO| != |EXTENSIONS|;
      assert Kept(top, fields[i]) && Comes(fields, forms, top, x);
      ArrangeHas(fields, forms, top, x);
      assert !Kept(top, x);
    } else {
      forall k | 0 <= k < |out| ensures Kept(top, out[k]) {
        var i := FormField(fields, top, k);
        EmptyForm(fields[i].value);
      }
    }
  }

  const PROTO_ONLY: Json := Obj([Field(PROTO, Null)])

  /** "__proto__" leaves no trace: two different values with one form. */
  lemma {:induction false} ProtoIsDropped()
    ensures SortKeys(PROTO_ONLY, true) == SortKeys(Obj([]), true) && PROTO_ONLY != Obj([])
  {
    var fields := PROTO_ONLY.fields;
    assert fields[..0] == [] && !Kept(true, fields[0]);
    assert Arrange(fields, Forms(fields), true) == [];
  }

  /** A value that changes when sorted a second time. */
  lemma {:induction false} NotAlwaysIdempotent()
    ensures var j := Obj([Field(EXTENSIONS, PROTO_ONLY)]);
            WellFormed(j) && SortKeys(SortKeys(j, true), true) != SortKeys(j, true)
  {
    var j := Obj([Field(EXTENSIONS, PROTO_ONLY)]);
    assert j.fields[0].key == EXTENSIONS && OnlyProto(j.fields[0].value);
    assert Hollow(j);
    IdempotentIff(j, true);
  }

  // ---- The loop ----

  /** Positions of `fields`, all different, by increasing code-unit order of their keys. */
  ghost predicate LexSorted(order: seq<nat>, fields: seq<Field>) {
    && (forall p :: 0 <= p < |order| ==> order[p] < |fields|)
    && (forall p, q :: 0 <= p < q < |order| ==> Lex(fields[order[p]].key, fields[order[q]].key))
  }

  function Place(order: seq<nat>, i: nat, fields: seq<Field>): seq<nat>
    requires i < |fields| && forall p :: 0 <= p < |order| ==> order[p] < |fields|
  {
    if order == [] || Lex(fields[i].key, fields[order[0]].key) then [i] + order
    else [order[0]] + Place(order[1..], i, fields)
  }

  lemma {:induction false} PlaceHas(order: seq<nat>, i: nat, fields: seq<Field>, x: nat)
    requires i < |fields| && forall p :: 0 <= p < |order| ==> order[p] < |fields|
    ensures x in Place(order, i, fields) <==> x in order || x == i
  {
    if order != [] && !Lex(fields[i].key, fields[order[0]].key) {
      PlaceHas(order[1..], i, fields, x);
      assert x in order <==> x == order[0] || x in order[1..];
    }
  }

  lemma {:induction false} LexCons(i: nat, order: seq<nat>, fields: seq<Field>)
    requires LexSorted(order, fields) && i < |fields|
    requires forall x :: x in order ==> x < |fields| && Lex(fields[i].key, fields[x].key)
    ensures LexSorted([i] + order, fields)
  {
    var all := [i] + order;
    forall p, q | 0 <= p < q < |all| ensures Lex(fields[all[p]].key, fields[all[q]].key) {
      assert all[q] == order[q - 1] && all[q] in order;
      if p > 0 { assert all[p] == order[p - 1]; }
    }
  }

  lemma {:induction false} PlaceKeepsSorted(order: seq<nat>, i: nat, fields: seq<Field>)
    requires LexSorted(order, fields) && i < |fields| && DistinctKeys(fields) && i !in order
    ensures LexSorted(Place(order, i, fields), fields)
  {
    if order == [] {
    } else if Lex(fields[i].key, fields[order[0]].key) {
      forall x | x in order ensures Lex(fields[i].key, fields[x].key) {
        var p :| 0 <= p < |order| && order[p] == x;
        if p > 0 { LexTransitive(fields[i].key, fields[order[0]].key, fields[x].key); }
      }
      LexCons(i, order, fields);
    } else {
      var rest := Place(order[1..], i, fields);
      PlaceKeepsSorted(order[1..], i, fields);
      assert order[0] in order && fields[i].key != fields[order[0]].key;
      LexTotal(fields[i].key, fields[order[0]].key);
      forall x | x in rest ensures x < |fields| && Lex(fields[order[0]].key, fields[x].key) {
        PlaceHas(order[1..], i, fields, x);
      }
      LexCons(order[0], rest, fields);
    }
  }

  /** `Object.keys(obj).sort()`, as positions. */
  method SortPositions(fields: seq<Field>) returns (order: seq<nat>)
    requires DistinctKeys(fields)
    ensures LexSorted(order, fields) && forall x: nat :: x in order <==> x < |fields|
  {
    order := [];
    for i := 0 to |fields|
      invariant LexSorted(order, fields) && forall x: nat :: x in order <==> x < i
    {
      PlaceKeepsSorted(order, i, fields);
      forall x: nat ensures x in Place(order, i, fields) <==> x < i + 1 { PlaceHas(order, i, fields, x); }
      order := Place(order, i, fields);
    }
  }

  /** Defining a new property on an object: an index key takes its place by number,
      before all other keys; another goes last. */
  function Define(fs: seq<Field>, f: Field): seq<Field> {
    if IsIndex(f.key) then Insert(fs, f) else fs + [f]
  }

  lemma {:induction false} DefineIsInsert(fs: seq<Field>, f: Field)
    requires forall x :: x in fs ==> Lex(x.key, f.key)
    ensures Define(fs, f) == Insert(fs, f)
  {
    if fs != [] && !IsIndex(f.key) {
      assert fs[0] in fs;
      LexTotal(fs[0].key, f.key);
      DefineIsInsert(fs[1..], f);
      assert fs == [fs[0]] + fs[1..];
    }
  }

  /** `x` is the form of a kept field at one of the positions. */
  ghost predicate ComesAt(fields: seq<Field>, top: bool, order: seq<nat>, x: Field) {
    exists i: nat :: i in order && i < |fields| && Kept(top, fields[i])
                     && x == Field(fields[i].key, SortKeys(fields[i].value, false))
  }

  ghost predicate Built(out: seq<Field>, fields: seq<Field>, top: bool, order: seq<nat>) {
    Ordered(out) && forall x :: x in out <==> ComesAt(fields, top, order, x)
  }

  lemma {:induction false} ComesAtSnoc(fields: seq<Field>, top: bool, order: seq<nat>, i: nat, x: Field)
    requires i < |fields|
    ensures ComesAt(fields, top, order + [i], x) <==>
            || ComesAt(fields, top, order, x)
            || (Kept(top, fields[i]) && x == Field(fields[i].key, SortKeys(fields[i].value, false)))
  {
    assert forall k :: k in order + [i] <==> k in order || k == i;
  }

  /** One more key in code-unit order. */
  lemma {:induction false} BuiltStep(out: seq<Field>, fields: seq<Field>, top: bool, order: seq<nat>, i: nat)
    requires Built(out, fields, top, order) && i < |fields|
    requires forall k :: k in order ==> k < |fields| && Lex(fields[k].key, fields[i].key)
    ensures var f := Field(fields[i].key, SortKeys(fields[i].value, false));
            Built(if Kept(top, fields[i]) then Define(out, f) else out, fields, top, order + [i])
  {
    var f := Field(fields[i].key, SortKeys(fields[i].value, false));
    var next := if Kept(top, fields[i]) then Insert(out, f) else out;
    forall x | x in out ensures Lex(x.key, f.key) && x.key != f.key {
      LexTotal(x.key, f.key);
    }
    assert forall k :: 0 <= k < |out| ==> out[k] in out;
    DefineIsInsert(out, f);
    InsertKeepsOrder(out, f);
    forall x ensures x in next <==> ComesAt(fields, top, order + [i], x) {
      InsertHas(out, f, x);
      ComesAtSnoc(fields, top, order, i, x);
    }
  }

  lemma {:induction false} BuiltAll(out: seq<Field>, fields: seq<Field>, top: bool, order: seq<nat>)
    requires Built(out, fields, top, order) && DistinctKeys(fields) && forall x: nat :: x in order <==> x < |fields|
    ensures Obj(out) == SortKeys(Obj(fields), top)
  {
    var forms := Forms(fields);
    var arranged := Arrange(fields, forms, top);
    forall x ensures x in out <==> x in arranged {
      ArrangeHas(fields, forms, top, x);
      if i: nat :| i in order && i < |fields| && Kept(top, fields[i])
                   && x == Field(fields[i].key, SortKeys(fields[i].value, false)) {
        assert Kept(top, fields[i]) && x == Field(fields[i].key, forms[i]);
      }
    }
    ArrangeIsOrdered(fields, forms, top);
    OrderedUnique(out, arranged);
  }

  /** The source's recursion: sort the keys, then define them one by one on a fresh object. */
  method SortKeysLoop(j: Json, top: bool) returns (r: Json)
    requires WellFormed(j)
    ensures r == SortKeys(j, top)
    decreases j
  {
    match j {
      case Arr(items) =>
        var sorted: seq<Json> := [];
        for i := 0 to |items|
          invariant |sorted| == i && forall k :: 0 <= k < i ==> sorted[k] == SortKeys(items[k], false)
        {
          var item := SortKeysLoop(items[i], false);
          sorted := sorted + [item];
        }
        r := Arr(sorted);
      case Obj(fields) =>
        var order := SortPositions(fields);
        var sorted: seq<Field> := [];
        for n := 0 to |order|
          invariant Built(sorted, fields, top, order[..n])
        {
          var key, val := fields[order[n]].key, fields[order[n]].value;
          assert order[..n + 1] == order[..n] + [order[n]];
          BuiltStep(sorted, fields, top, order[..n], order[n]);
          if top && key == EXTENSIONS && Empty(val) { continue; }
          var form := SortKeysLoop(val, false);
          if key != PROTO { sorted := Define(sorted, Field(key, form)); }
        }
        assert order[..|order|] == order;
        BuiltAll(sorted, fields, top, order);
        r := Obj(sorted);
      case _ => r := j;
    }
  }

  /** In a form, index keys come first, by number; the others follow, by their first differing code unit. */
  lemma {:induction false} FormIsSorted(fields: seq<Field>, top: bool)
    requires DistinctKeys(fields)
    ensures SortKeys(Obj(fields), top).Obj?
    ensures var fs := SortKeys(Obj(fields), top).fields;
            forall i, j :: 0 <= i < j < |fs| ==> ComesFirst(fs[i].key, fs[j].key)
  {
    ArrangeIsOrdered(fields, Forms(fields), top);
    var fs := SortKeys(Obj(fields), top).fields;
    forall i, j | 0 <= i < j < |fs| ensures ComesFirst(fs[i].key, fs[j].key) {
      assert Before(fs[i].key, fs[j].key);
      LexIsFirstDifference(fs[i].key, fs[j].key);
    }
  }

  ghost predicate ComesFirst(a: Key, b: Key) {
    if IsIndex(a) then !IsIndex(b) || ValueOf(a) < ValueOf(b)
    else !IsIndex(b) && exists k :: 0 <= k <= |a| && k < |b| && DiffersAt(a, b, k)
  }
}
