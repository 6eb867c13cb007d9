/**
 Python dicts keyed by strings: a map together with its insertion order. Assigning to a key
 that is present keeps the position of the key.
 */
module OrderedMaps {
  import opened Wrappers
  import opened Orders

  datatype OMap<+V> = OMap(keys: seq<string>, at: map<string, V>)

  /** The keys are the keys of the map, each once. */
  ghost predicate Consistent<V>(m: OMap<V>) {
    NoDup(m.keys) && forall k :: k in m.keys <==> k in m.at
  }

  function Empty<V>(): OMap<V> {
    OMap([], map[])
  }

  /** Assignment to a key. */
  function Set<V>(m: OMap<V>, k: string, v: V): OMap<V> {
    OMap(if k in m.at then m.keys else m.keys + [k], m.at[k := v])
  }

  lemma SetConsistent<V>(m: OMap<V>, k: string, v: V)
    requires Consistent(m)
    ensures Consistent(Set(m, k, v))
  {
  }

  lemma SetSame<V>(m: OMap<V>, k: string)
    requires k in m.at
    ensures Set(m, k, m.at[k]) == m
  {
    assert m.at[k := m.at[k]] == m.at;
  }

  lemma SetTwice<V>(m: OMap<V>, k: string, v: V, w: V)
    ensures Set(Set(m, k, v), k, w) == Set(m, k, w)
  {
    assert m.at[k := v][k := w] == m.at[k := w];
  }

  function Select<V>(keys: seq<string>, at: map<string, V>): seq<V> {
    if keys == [] then []
    else
      var n := |keys| - 1;
      Select(keys[..n], at) + if keys[n] in at then [at[keys[n]]] else []
  }

  /** The values in key order. */
  function Values<V>(m: OMap<V>): seq<V> {
    Select(m.keys, m.at)
  }

  /** A dict with the same keys and each value mapped. */
  function MapValues<V, W>(m: OMap<V>, f: V -> W): OMap<W> {
    OMap(m.keys, map k | k in m.at :: f(m.at[k]))
  }

  lemma MapValuesInverse<V, W>(m: OMap<V>, f: V -> W, g: W -> V)
    requires forall k | k in m.at :: g(f(m.at[k])) == m.at[k]
    ensures MapValues(MapValues(m, f), g) == m
  {
    assert MapValues(MapValues(m, f), g).at == m.at;
  }

  /** Assigning `f(at[k])` to each key in turn. */
  function AssignAll<V, W>(keys: seq<string>, at: map<string, V>, f: V -> W): OMap<W>
    requires forall k | k in keys :: k in at
  {
    if keys == [] then Empty()
    else
      var n := |keys| - 1;
      Set(AssignAll(keys[..n], at, f), keys[n], f(at[keys[n]]))
  }

  lemma {:induction false} AssignAllExact<V, W>(keys: seq<string>, at: map<string, V>, f: V -> W)
    requires NoDup(keys) && forall k | k in keys :: k in at
    ensures AssignAll(keys, at, f).keys == keys
    ensures forall k :: k in AssignAll(keys, at, f).at <==> k in keys
    ensures forall k | k in keys :: AssignAll(keys, at, f).at[k] == f(at[k])
  {
    if keys != [] {
      var n := |keys| - 1;
      AssignAllExact(keys[..n], at, f);
      assert keys == keys[..n] + [keys[n]];
    }
  }

  lemma AssignAllIsMapValues<V, W>(m: OMap<V>, f: V -> W)
    requires Consistent(m)
    ensures AssignAll(m.keys, m.at, f) == MapValues(m, f)
  {
    AssignAllExact(m.keys, m.at, f);
    assert AssignAll(m.keys, m.at, f).at == MapValues(m, f).at;
  }

  /** Each item mapped. */
  function Apply<T, U>(f: T -> U, xs: seq<T>): (r: seq<U>)
    ensures |r| == |xs|
  {
    if xs == [] then []
    else
      var n := |xs| - 1;
      Apply(f, xs[..n]) + [f(xs[n])]
  }

  lemma {:induction false} ApplyAt<T, U>(f: T -> U, xs: seq<T>, i: nat)
    requires i < |xs|
    ensures Apply(f, xs)[i] == f(xs[i])
  {
    if i < |xs| - 1 {
      ApplyAt(f, xs[..|xs| - 1], i);
    }
  }

  lemma {:induction false} ApplyAppend<T, U>(f: T -> U, xs: seq<T>, ys: seq<T>)
    ensures Apply(f, xs + ys) == Apply(f, xs) + Apply(f, ys)
  {
    if ys == [] {
      assert xs + ys == xs;
    } else {
      var n := |ys| - 1;
      ApplyAppend(f, xs, ys[..n]);
      assert (xs + ys)[..|xs| + n] == xs + ys[..n];
      assert Apply(f, xs + ys) == Apply(f, xs + ys[..n]) + [f(ys[n])];
    }
  }

  lemma ApplyFirst<T, U>(f: T -> U, xs: seq<T>)
    requires xs != []
    ensures Apply(f, xs) == [f(xs[0])] + Apply(f, xs[1..])
  {
    ApplyAppend(f, [xs[0]], xs[1..]);
    assert xs == [xs[0]] + xs[1..] && [xs[0]][..0] == [];
  }

  /** The mapping does not change how the items compare. */
  ghost predicate KeepsOrder<T>(f: T -> T, xs: seq<T>, leq: (T, T) -> bool) {
    forall x, y {:trigger x in xs, y in xs} | x in xs && y in xs :: leq(f(x), f(y)) <==> leq(x, y)
  }

  /** The same for one item against some others. */
  ghost predicate KeepsPlace<T>(f: T -> T, x: T, xs: seq<T>, leq: (T, T) -> bool) {
    forall y {:trigger y in xs} | y in xs :: leq(f(x), f(y)) <==> leq(x, y)
  }

  lemma {:induction false} ApplyInsert<T>(f: T -> T, x: T, xs: seq<T>, leq: (T, T) -> bool)
    requires KeepsPlace(f, x, xs, leq)
    ensures Insert(f(x), Apply(f, xs), leq) == Apply(f, Insert(x, xs, leq))
  {
    if xs == [] {
      ApplyFirst(f, [x]);
    } else {
      assert xs[0] in xs && forall y | y in xs[1..] :: y in xs;
      ApplyFirst(f, xs);
      ApplyFirst(f, Insert(x, xs, leq));
      if !leq(x, xs[0]) { ApplyInsert(f, x, xs[1..], leq); }
    }
  }

  lemma SortedPlace<T>(f: T -> T, xs: seq<T>, leq: (T, T) -> bool)
    requires xs != [] && KeepsOrder(f, xs, leq)
    ensures KeepsOrder(f, xs[1..], leq) && KeepsPlace(f, xs[0], StableSort(xs[1..], leq), leq)
  {
    assert xs == [xs[0]] + xs[1..];
    forall x, y | x in xs[1..] && y in xs[1..] ensures leq(f(x), f(y)) <==> leq(x, y) { assert x in xs && y in xs; }
    forall y | y in StableSort(xs[1..], leq) ensures leq(f(xs[0]), f(y)) <==> leq(xs[0], y) {
      SortKeepsElement(xs[1..], leq, y);
      assert xs[0] in xs && y in xs;
    }
  }

  /** Such a mapping goes before or after the sort. */
  lemma {:induction false} ApplySort<T>(f: T -> T, xs: seq<T>, leq: (T, T) -> bool)
    requires KeepsOrder(f, xs, leq)
    ensures StableSort(Apply(f, xs), leq) == Apply(f, StableSort(xs, leq))
  {
    if xs != [] {
      SortedPlace(f, xs, leq);
      ApplySort(f, xs[1..], leq);
      ApplyFirst(f, xs);
      ApplyInsert(f, xs[0], StableSort(xs[1..], leq), leq);
      SortFirst(f(xs[0]), Apply(f, xs[1..]), leq);
    }
  }

  lemma SortFirst<T>(x: T, xs: seq<T>, leq: (T, T) -> bool)
    ensures StableSort([x] + xs, leq) == Insert(x, StableSort(xs, leq), leq)
  {
    assert ([x] + xs)[1..] == xs;
  }

  lemma {:induction false} SelectElements<V>(keys: seq<string>, at: map<string, V>, v: V)
    ensures v in Select(keys, at) <==> exists k :: k in keys && k in at && at[k] == v
  {
    if keys != [] {
      var n := |keys| - 1;
      SelectElements(keys[..n], at, v);
      assert keys == keys[..n] + [keys[n]];
    }
  }

  lemma InValues<V>(m: OMap<V>, v: V)
    requires Consistent(m)
    ensures v in Values(m) <==> exists k :: k in m.at && m.at[k] == v
  {
    SelectElements(m.keys, m.at, v);
  }

  /** A list comprehension with a condition. */
  function Filter<T>(p: T -> bool, xs: seq<T>): (r: seq<T>)
    ensures forall x | x in r :: x in xs && p(x)
    ensures forall x | x in xs && p(x) :: x in r
    ensures |r| <= |xs|
  {
    if xs == [] then []
    else
      assert xs == [xs[0]] + xs[1..];
      (if p(xs[0]) then [xs[0]] else []) + Filter(p, xs[1..])
  }

  lemma {:induction false} FilterAll<T>(p: T -> bool, xs: seq<T>)
    ensures Filter(p, xs) == xs <==> forall x | x in xs :: p(x)
  {
    if xs != [] {
      FilterAll(p, xs[1..]);
      assert xs == [xs[0]] + xs[1..];
      if !p(xs[0]) {
        assert |Filter(p, xs)| < |xs|;
      } else {
        assert Filter(p, xs)[1..] == Filter(p, xs[1..]);
      }
    }
  }

  lemma {:induction false} FilterNoDup<T>(p: T -> bool, xs: seq<T>)
    requires NoDup(xs)
    ensures NoDup(Filter(p, xs))
  {
    if xs != [] {
      FilterNoDup(p, xs[1..]);
      assert xs[0] !in xs[1..];
    }
  }

  lemma {:induction false} FilterAppend<T>(p: T -> bool, xs: seq<T>, ys: seq<T>)
    ensures Filter(p, xs + ys) == Filter(p, xs) + Filter(p, ys)
  {
    if xs == [] {
      assert xs + ys == ys;
    } else {
      FilterAppend(p, xs[1..], ys);
      assert (xs + ys)[1..] == xs[1..] + ys;
      Regroup(if p(xs[0]) then [xs[0]] else [], Filter(p, xs[1..]), Filter(p, ys));
    }
  }

  lemma Regroup<T>(a: seq<T>, b: seq<T>, c: seq<T>)
    ensures a + (b + c) == (a + b) + c
  {
  }

  /** A left fold: the state after a step for each item in turn. */
  function Fold<S, E>(step: (S, E) -> S, s: S, es: seq<E>): S {
    if es == [] then s else Fold(step, step(s, es[0]), es[1..])
  }

  lemma {:induction false} FoldSplit<S, E>(step: (S, E) -> S, s: S, a: seq<E>, b: seq<E>)
    ensures Fold(step, s, a + b) == Fold(step, Fold(step, s, a), b)
  {
    if a == [] {
      assert a + b == b;
    } else {
      FoldSplit(step, step(s, a[0]), a[1..], b);
      assert (a + b)[1..] == a[1..] + b;
    }
  }

  lemma FoldSnoc<S, E>(step: (S, E) -> S, s: S, es: seq<E>, i: nat)
    requires i < |es|
    ensures Fold(step, s, es[..i + 1]) == step(Fold(step, s, es[..i]), es[i])
  {
    FoldSplit(step, s, es[..i], [es[i]]);
    assert es[..i + 1] == es[..i] + [es[i]];
    assert Fold(step, Fold(step, s, es[..i]), [es[i]]) == step(Fold(step, s, es[..i]), es[i]);
  }

  lemma FoldMore<S, E>(step: (S, E) -> S, s: S, es: seq<E>, e: E)
    ensures Fold(step, s, es + [e]) == step(Fold(step, s, es), e)
  {
    FoldSplit(step, s, es, [e]);
    assert [e][1..] == [];
  }

  /** The place of the last item that passes the test. */
  function LastIndex<T>(xs: seq<T>, test: T -> bool): (r: Option<nat>)
    ensures r.Some? ==> r.value < |xs| && test(xs[r.value])
  {
    if xs == [] then None
    else
      var n := |xs| - 1;
      if test(xs[n]) then Some(n) else LastIndex(xs[..n], test)
  }

  lemma {:induction false} LastIndexExact<T>(xs: seq<T>, test: T -> bool)
    ensures var r := LastIndex(xs, test);
            && (r.None? <==> forall i | 0 <= i < |xs| :: !test(xs[i]))
            && (r.Some? ==> forall i | r.value < i < |xs| :: !test(xs[i]))
  {
    if xs != [] { LastIndexExact(xs[..|xs| - 1], test); }
  }

  /** The last place after one more item. */
  lemma LastIndexMore<T>(xs: seq<T>, x: T, test: T -> bool)
    ensures LastIndex(xs + [x], test) == if test(x) then Some(|xs|) else LastIndex(xs, test)
  {
    assert (xs + [x])[..|xs|] == xs;
  }
}
