/** The canonical form of nested values. */
module Canonical {
  import opened Orders

  /** A dict is its fields in insertion order; `Atom` stands for numbers, booleans and None. */
  datatype Value = Atom(atom: string) | Str(s: string) | List(items: seq<Value>) | Mapping(fields: seq<Field>)
  datatype Field = Field(key: string, value: Value)

  type Normaliser = string -> string

  ghost predicate Idempotent(nfc: Normaliser) {
    forall s :: nfc(nfc(s)) == nfc(s)
  }

  function KeyOfField(f: Field): string { f.key }

  predicate FieldLeq(a: Field, b: Field) { StrLe(a.key, b.key) }

  /** The keys of every dict are distinct, at any depth. */
  ghost predicate ProperValue(v: Value) {
    match v
    case List(items) => forall i | 0 <= i < |items| :: ProperValue(items[i])
    case Mapping(fields) =>
      && (forall i, j | 0 <= i < j < |fields| :: fields[i].key != fields[j].key)
      && forall i | 0 <= i < |fields| :: ProperValue(fields[i].value)
    case _ => true
  }

  function Canon(nfc: Normaliser, v: Value): Value
    decreases v, 1
  {
    match v
    case Str(s) => Str(nfc(s))
    case List(items) => List(seq(|items|, i requires 0 <= i < |items| => Canon(nfc, items[i])))
    case Mapping(fields) => Mapping(StableSort(CanonFields(nfc, v), FieldLeq))
    case Atom(_) => v
  }

  /** The fields of a dict with canonical values, not yet in order; keys are left as they are. */
  function CanonFields(nfc: Normaliser, v: Value): (r: seq<Field>)
    requires v.Mapping?
    ensures |r| == |v.fields|
    decreases v, 0
  {
    seq(|v.fields|, i requires 0 <= i < |v.fields| => Field(v.fields[i].key, Canon(nfc, v.fields[i].value)))
  }

  lemma FieldOrder()
    ensures TotalPreorder(StrLe) && Antisymmetric(StrLe) && TotalPreorder(FieldLeq)
  {
    StrLeOrder();
    forall a: Field, b: Field ensures FieldLeq(a, b) || FieldLeq(b, a) {
      StrLeTotal(a.key, b.key);
    }
    forall a: Field, b: Field, c: Field | FieldLeq(a, b) && FieldLeq(b, c) ensures FieldLeq(a, c) {
      StrLeTransitive(a.key, b.key, c.key);
    }
  }

  ghost predicate DistinctKeys(fs: seq<Field>) {
    forall i, j | 0 <= i < j < |fs| :: fs[i].key != fs[j].key
  }

  /** Sorting fields with distinct keys gives a strictly increasing list of the same fields. */
  lemma SortFields(fs: seq<Field>)
    requires DistinctKeys(fs)
    ensures StrictBy(StableSort(fs, FieldLeq), KeyOfField, StrLe)
    ensures forall f :: f in StableSort(fs, FieldLeq) <==> f in fs
  {
    var sorted := StableSort(fs, FieldLeq);
    FieldOrder();
    StableSortCorrect(fs, FieldLeq);
    SortKeepsElements(fs, FieldLeq);
    forall i, j | 0 <= i < j < |sorted| ensures StrLe(KeyOfField(sorted[i]), KeyOfField(sorted[j])) && KeyOfField(sorted[i]) != KeyOfField(sorted[j]) {
      assert FieldLeq(sorted[i], sorted[j]);
      assert sorted[i] in fs && sorted[j] in fs && sorted[i] != sorted[j];
    }
  }

  /** Fields with distinct keys sort to the same list exactly if they are the same fields. */
  lemma SortedFieldsEqual(fs: seq<Field>, gs: seq<Field>)
    requires DistinctKeys(fs) && DistinctKeys(gs)
    ensures StableSort(fs, FieldLeq) == StableSort(gs, FieldLeq) <==> forall f :: f in fs <==> f in gs
  {
    SortFields(fs);
    SortFields(gs);
    FieldOrder();
    if forall f :: f in fs <==> f in gs {
      StrictByUnique(StableSort(fs, FieldLeq), StableSort(gs, FieldLeq), KeyOfField, StrLe);
    }
  }

  // ----- Idempotence

  /** A second canonicalisation changes nothing. */
  lemma {:induction false} CanonIdempotent(nfc: Normaliser, v: Value)
    requires Idempotent(nfc)
    ensures Canon(nfc, Canon(nfc, v)) == Canon(nfc, v)
  {
    match v
    case List(items) =>
      forall i | 0 <= i < |items| ensures Canon(nfc, Canon(nfc, items[i])) == Canon(nfc, items[i]) {
        CanonIdempotent(nfc, items[i]);
      }
    case Mapping(fields) =>
      var c := Canon(nfc, v);
      var fs := CanonFields(nfc, v);
      FieldOrder();
      StableSortCorrect(fs, FieldLeq);
      SortKeepsElements(fs, FieldLeq);
      forall i | 0 <= i < |c.fields| ensures CanonFields(nfc, c)[i] == c.fields[i] {
        assert c.fields[i] in fs;
        var j :| 0 <= j < |fs| && fs[j] == c.fields[i];
        CanonIdempotent(nfc, fields[j].value);
      }
      assert CanonFields(nfc, c) == c.fields;
      SortIsIdentity(c.fields, FieldLeq);
    case _ =>
  }

  // ----- What the canonical form identifies

  /** Equal up to the order of dict fields and the normalisation of strings that are values. */
  ghost predicate Same(nfc: Normaliser, a: Value, b: Value)
    decreases a
  {
    match a
    case Atom(_) => a == b
    case Str(s) => b.Str? && nfc(s) == nfc(b.s)
    case List(items) =>
      b.List? && |items| == |b.items| && forall i | 0 <= i < |items| :: Same(nfc, items[i], b.items[i])
    case Mapping(fields) =>
      && b.Mapping?
      && (forall i | 0 <= i < |fields| :: MatchedBy(nfc, fields[i], b.fields))
      && (forall j | 0 <= j < |b.fields| :: Matches(nfc, a, b.fields[j]))
  }

  ghost predicate SameField(nfc: Normaliser, f: Field, g: Field)
    decreases f, 0
  {
    f.key == g.key && Same(nfc, f.value, g.value)
  }

  ghost predicate MatchedBy(nfc: Normaliser, f: Field, gs: seq<Field>)
    decreases f, 1
  {
    exists j :: 0 <= j < |gs| && SameField(nfc, f, gs[j])
  }

  ghost predicate Matches(nfc: Normaliser, a: Value, g: Field)
    requires a.Mapping?
    decreases a, 0
  {
    exists i :: 0 <= i < |a.fields| && SameField(nfc, a.fields[i], g)
  }

  /**
   Two values have the same canonical form, key order included, exactly if they differ only in the
   order of dict fields, at any depth, and in the normalisation of strings.
   */
  lemma {:induction false} CanonExact(nfc: Normaliser, a: Value, b: Value)
    requires ProperValue(a) && ProperValue(b)
    ensures Canon(nfc, a) == Canon(nfc, b) <==> Same(nfc, a, b)
    decreases a
  {
    if a.List? && b.List? {
      CanonExactLists(nfc, a, b);
    } else if a.Mapping? && b.Mapping? {
      CanonExactDicts(nfc, a, b);
    }
  }

  lemma {:induction false} CanonExactLists(nfc: Normaliser, a: Value, b: Value)
    requires a.List? && b.List? && ProperValue(a) && ProperValue(b)
    ensures Canon(nfc, a) == Canon(nfc, b) <==> Same(nfc, a, b)
    decreases a, 0
  {
    if |a.items| == |b.items| {
      forall i | 0 <= i < |a.items|
        ensures Canon(nfc, a.items[i]) == Canon(nfc, b.items[i]) <==> Same(nfc, a.items[i], b.items[i])
      {
        CanonExact(nfc, a.items[i], b.items[i]);
      }
      var x, y := Canon(nfc, a).items, Canon(nfc, b).items;
      if x == y {
        forall i | 0 <= i < |a.items| ensures Same(nfc, a.items[i], b.items[i]) {
          assert x[i] == y[i];
        }
      }
    } else {
      assert |Canon(nfc, a).items| != |Canon(nfc, b).items|;
    }
  }

  /** Field by field, equal canonical fields are the same fields. */
  ghost predicate Pairwise(nfc: Normaliser, a: Value, b: Value)
    requires a.Mapping? && b.Mapping?
  {
    var x, y := CanonFields(nfc, a), CanonFields(nfc, b);
    forall i, j | 0 <= i < |x| && 0 <= j < |y| :: x[i] == y[j] <==> SameField(nfc, a.fields[i], b.fields[j])
  }

  lemma {:induction false} CanonExactDicts(nfc: Normaliser, a: Value, b: Value)
    requires a.Mapping? && b.Mapping? && ProperValue(a) && ProperValue(b)
    ensures Canon(nfc, a) == Canon(nfc, b) <==> Same(nfc, a, b)
    decreases a, 0
  {
    var x, y := CanonFields(nfc, a), CanonFields(nfc, b);
    forall i, j | 0 <= i < |x| && 0 <= j < |y|
      ensures x[i] == y[j] <==> SameField(nfc, a.fields[i], b.fields[j])
    {
      CanonExact(nfc, a.fields[i].value, b.fields[j].value);
    }
    assert Pairwise(nfc, a, b);
    SortedFieldsEqual(x, y);
    if Canon(nfc, a) == Canon(nfc, b) {
      EqualFieldsSame(nfc, a, b);
    }
    if Same(nfc, a, b) {
      SameFieldsEqual(nfc, a, b);
    }
  }

  lemma {:induction false} EqualFieldsSame(nfc: Normaliser, a: Value, b: Value)
    requires a.Mapping? && b.Mapping? && Pairwise(nfc, a, b)
    requires forall f :: f in CanonFields(nfc, a) <==> f in CanonFields(nfc, b)
    ensures Same(nfc, a, b)
  {
    var x, y := CanonFields(nfc, a), CanonFields(nfc, b);
    forall i | 0 <= i < |x| ensures MatchedBy(nfc, a.fields[i], b.fields) {
      assert x[i] in y;
      var j :| 0 <= j < |y| && y[j] == x[i];
      assert SameField(nfc, a.fields[i], b.fields[j]);
    }
    forall j | 0 <= j < |y| ensures Matches(nfc, a, b.fields[j]) {
      assert y[j] in x;
      var i :| 0 <= i < |x| && x[i] == y[j];
      assert SameField(nfc, a.fields[i], b.fields[j]);
    }
  }

  lemma {:induction false} SameFieldsEqual(nfc: Normaliser, a: Value, b: Value)
    requires a.Mapping? && b.Mapping? && Pairwise(nfc, a, b) && Same(nfc, a, b)
    ensures forall f :: f in CanonFields(nfc, a) <==> f in CanonFields(nfc, b)
  {
    var x, y := CanonFields(nfc, a), CanonFields(nfc, b);
    forall i | 0 <= i < |x| ensures x[i] in y {
      assert MatchedBy(nfc, a.fields[i], b.fields);
      var j :| 0 <= j < |b.fields| && SameField(nfc, a.fields[i], b.fields[j]);
      assert x[i] == y[j];
    }
    forall j | 0 <= j < |y| ensures y[j] in x {
      assert Matches(nfc, a, b.fields[j]);
      var i :| 0 <= i < |a.fields| && SameField(nfc, a.fields[i], b.fields[j]);
      assert x[i] == y[j];
    }
  }

  lemma CanonFieldsOfSame(nfc: Normaliser, a: seq<Field>, b: seq<Field>, f: Field)
    requires forall g :: g in a ==> g in b
    requires f in CanonFields(nfc, Mapping(a))
    ensures f in CanonFields(nfc, Mapping(b))
  {
    var x, y := CanonFields(nfc, Mapping(a)), CanonFields(nfc, Mapping(b));
    var i :| 0 <= i < |x| && x[i] == f;
    assert a[i] in b;
    var j :| 0 <= j < |b| && b[j] == a[i];
    assert y[j] == f;
  }

  /** The keys of every dict come in strictly ascending order, at any depth. */
  ghost predicate Ascending(v: Value) {
    match v
    case List(items) => forall i | 0 <= i < |items| :: Ascending(items[i])
    case Mapping(fields) =>
      && (forall i, j | 0 <= i < j < |fields| :: StrLe(fields[i].key, fields[j].key) && fields[i].key != fields[j].key)
      && forall i | 0 <= i < |fields| :: Ascending(fields[i].value)
    case _ => true
  }

  lemma {:induction false} CanonAscending(nfc: Normaliser, v: Value)
    requires ProperValue(v)
    ensures Ascending(Canon(nfc, v))
  {
    match v
    case List(items) =>
      forall i | 0 <= i < |items| ensures Ascending(Canon(nfc, items[i])) { CanonAscending(nfc, items[i]); }
    case Mapping(fields) =>
      forall i | 0 <= i < |fields| ensures Ascending(Canon(nfc, fields[i].value)) { CanonAscending(nfc, fields[i].value); }
      FieldsAscending(nfc, v);
    case _ =>
  }

  lemma FieldsAscending(nfc: Normaliser, v: Value)
    requires v.Mapping? && ProperValue(v) && forall i | 0 <= i < |v.fields| :: Ascending(Canon(nfc, v.fields[i].value))
    ensures Ascending(Canon(nfc, v))
  {
    var fs := CanonFields(nfc, v);
    var sorted := StableSort(fs, FieldLeq);
    SortFields(fs);
    forall i, j | 0 <= i < j < |sorted| ensures StrLe(sorted[i].key, sorted[j].key) && sorted[i].key != sorted[j].key {
      assert StrLe(KeyOfField(sorted[i]), KeyOfField(sorted[j])) && KeyOfField(sorted[i]) != KeyOfField(sorted[j]);
    }
    forall i | 0 <= i < |sorted| ensures Ascending(sorted[i].value) {
      assert sorted[i] in fs;
      var k :| 0 <= k < |fs| && fs[k] == sorted[i];
    }
  }


  /** Sorting the keys first and then canonicalising each value, as `canonicalize` does, is the same. */
  lemma SortThenCanon(nfc: Normaliser, fields: seq<Field>)
    requires DistinctKeys(fields)
    ensures CanonFields(nfc, Mapping(StableSort(fields, FieldLeq))) == StableSort(CanonFields(nfc, Mapping(fields)), FieldLeq)
  {
    var sorted := StableSort(fields, FieldLeq);
    var x, y := CanonFields(nfc, Mapping(sorted)), CanonFields(nfc, Mapping(fields));
    SortFields(fields);
    SortFields(y);
    forall f ensures f in x <==> f in StableSort(y, FieldLeq) {
      if f in x { CanonFieldsOfSame(nfc, sorted, fields, f); }
      if f in y { CanonFieldsOfSame(nfc, fields, sorted, f); }
    }
    forall i, j | 0 <= i < j < |x| ensures StrLe(KeyOfField(x[i]), KeyOfField(x[j])) && KeyOfField(x[i]) != KeyOfField(x[j]) {
      assert StrLe(KeyOfField(sorted[i]), KeyOfField(sorted[j])) && KeyOfField(sorted[i]) != KeyOfField(sorted[j]);
    }
    FieldOrder();
    StrictByUnique(x, StableSort(y, FieldLeq), KeyOfField, StrLe);
  }
}
