/**
 Total orders, and Python's `list.sort`: a stable sort, here an insertion sort.
 The sort is characterised independently of the algorithm: the only sorted arrangement
 that keeps each band of equivalent items in its original order.
 */
module Orders {

  ghost predicate TotalPreorder<T(!new)>(leq: (T, T) -> bool) {
    && (forall a, b :: leq(a, b) || leq(b, a))
    && (forall a, b, c :: leq(a, b) && leq(b, c) ==> leq(a, c))
  }

  ghost predicate Antisymmetric<T(!new)>(leq: (T, T) -> bool) {
    forall a, b :: leq(a, b) && leq(b, a) ==> a == b
  }

  ghost predicate Sorted<T>(xs: seq<T>, leq: (T, T) -> bool) {
    forall i, j | 0 <= i < j < |xs| :: leq(xs[i], xs[j])
  }

  ghost predicate NoDup<T>(xs: seq<T>) {
    forall i, j | 0 <= i < j < |xs| :: xs[i] != xs[j]
  }

  function Insert<T>(x: T, xs: seq<T>, leq: (T, T) -> bool): (r: seq<T>)
    ensures multiset(r) == multiset{x} + multiset(xs)
  {
    if xs == [] then [x]
    else if leq(x, xs[0]) then
      assert multiset([x] + xs) == multiset{x} + multiset(xs);
      [x] + xs
    else
      var rest := Insert(x, xs[1..], leq);
      assert xs == [xs[0]] + xs[1..];
      [xs[0]] + rest
  }

  /** `list.sort` with a key: stable. */
  function StableSort<T>(xs: seq<T>, leq: (T, T) -> bool): (r: seq<T>)
    ensures multiset(r) == multiset(xs)
  {
    if xs == [] then []
    else
      assert xs == [xs[0]] + xs[1..];
      Insert(xs[0], StableSort(xs[1..], leq), leq)
  }

  /** The items of `xs` that the order cannot tell from `g`, in their order in `xs`. */
  ghost function Band<T>(g: T, xs: seq<T>, leq: (T, T) -> bool): seq<T> {
    if xs == [] then []
    else (if leq(g, xs[0]) && leq(xs[0], g) then [xs[0]] else []) + Band(g, xs[1..], leq)
  }

  lemma InsertSorted<T(!new)>(x: T, xs: seq<T>, leq: (T, T) -> bool)
    requires TotalPreorder(leq) && Sorted(xs, leq)
    ensures Sorted(Insert(x, xs, leq), leq)
  {
    if xs != [] && !leq(x, xs[0]) {
      var rest := Insert(x, xs[1..], leq);
      InsertSorted(x, xs[1..], leq);
      forall y | y in rest ensures leq(xs[0], y) {
        assert y in multiset(rest);
        assert y == x || y in xs[1..];
      }
    }
  }

  lemma BandCons<T>(g: T, x: T, xs: seq<T>, leq: (T, T) -> bool)
    ensures Band(g, [x] + xs, leq) == (if leq(g, x) && leq(x, g) then [x] else []) + Band(g, xs, leq)
  {
    assert ([x] + xs)[1..] == xs;
  }

  lemma {:induction false} InsertBand<T(!new)>(g: T, x: T, xs: seq<T>, leq: (T, T) -> bool)
    requires TotalPreorder(leq)
    ensures Band(g, Insert(x, xs, leq), leq) == Band(g, [x] + xs, leq)
  {
    if xs != [] && !leq(x, xs[0]) {
      var y, rest := xs[0], xs[1..];
      InsertBand(g, x, rest, leq);
      BandCons(g, y, Insert(x, rest, leq), leq);
      BandCons(g, x, rest, leq);
      BandCons(g, x, xs, leq);
      NotBoth(g, x, y, leq);
    }
  }

  lemma NotBoth<T(!new)>(g: T, x: T, y: T, leq: (T, T) -> bool)
    requires TotalPreorder(leq) && !leq(x, y)
    ensures !(leq(x, g) && leq(g, y))
  {
  }

  lemma {:induction false} StableSortCorrect<T(!new)>(xs: seq<T>, leq: (T, T) -> bool)
    requires TotalPreorder(leq)
    ensures Sorted(StableSort(xs, leq), leq)
    ensures forall g :: Band(g, StableSort(xs, leq), leq) == Band(g, xs, leq)
  {
    if xs != [] {
      var rest := StableSort(xs[1..], leq);
      StableSortCorrect(xs[1..], leq);
      InsertSorted(xs[0], rest, leq);
      forall g ensures Band(g, StableSort(xs, leq), leq) == Band(g, xs, leq) {
        InsertBand(g, xs[0], rest, leq);
        assert ([xs[0]] + rest)[1..] == rest;
      }
    }
  }

  lemma {:induction false} BandMember<T(!new)>(g: T, xs: seq<T>, leq: (T, T) -> bool)
    ensures forall y :: y in Band(g, xs, leq) <==> y in xs && leq(g, y) && leq(y, g)
  {
    if xs != [] {
      BandMember(g, xs[1..], leq);
      assert xs == [xs[0]] + xs[1..];
    }
  }

  /** Sorted arrangements with the same bands are equal: the sort has no freedom left. */
  lemma {:induction false} StableArrangementUnique<T(!new)>(xs: seq<T>, ys: seq<T>, leq: (T, T) -> bool)
    requires TotalPreorder(leq) && Sorted(xs, leq) && Sorted(ys, leq)
    requires forall g :: Band(g, xs, leq) == Band(g, ys, leq)
    ensures xs == ys
  {
    if xs == [] {
      if ys != [] {
        assert Band(ys[0], xs, leq) == [];
        BandMember(ys[0], ys, leq);
      }
    } else {
      BandMember(xs[0], xs, leq);
      BandMember(xs[0], ys, leq);
      assert xs[0] in ys;
      BandMember(ys[0], xs, leq);
      BandMember(ys[0], ys, leq);
      assert ys[0] in xs;
      assert Band(xs[0], xs, leq)[0] == xs[0] && Band(xs[0], ys, leq)[0] == ys[0];
      forall g ensures Band(g, xs[1..], leq) == Band(g, ys[1..], leq) {
        assert Band(g, xs, leq) == Band(g, ys, leq);
        var h := if leq(g, xs[0]) && leq(xs[0], g) then [xs[0]] else [];
        assert Band(g, xs, leq)[|h|..] == Band(g, xs[1..], leq);
        assert Band(g, ys, leq)[|h|..] == Band(g, ys[1..], leq);
      }
      StableArrangementUnique(xs[1..], ys[1..], leq);
      assert xs == [xs[0]] + xs[1..] && ys == [ys[0]] + ys[1..];
    }
  }

  /** Sorting leaves a list as it is exactly when it was sorted. */
  lemma {:induction false} SortIsIdentity<T(!new)>(xs: seq<T>, leq: (T, T) -> bool)
    requires TotalPreorder(leq)
    ensures StableSort(xs, leq) == xs <==> Sorted(xs, leq)
  {
    StableSortCorrect(xs, leq);
    if Sorted(xs, leq) {
      StableArrangementUnique(StableSort(xs, leq), xs, leq);
    }
  }

  lemma WithoutFirst<T>(xs: seq<T>)
    requires xs != []
    ensures multiset(xs[1..]) == multiset(xs) - multiset{xs[0]}
  {
    assert xs == [xs[0]] + xs[1..];
  }

  lemma SortedRest<T(!new)>(xs: seq<T>, leq: (T, T) -> bool)
    requires xs != [] && Sorted(xs, leq)
    ensures Sorted(xs[1..], leq)
  {
  }

  /** Items that the order cannot tell apart are the same. */
  ghost predicate NoTies<T>(xs: seq<T>, leq: (T, T) -> bool) {
    forall x, y | x in xs && y in xs && leq(x, y) && leq(y, x) :: x == y
  }

  lemma SameFirst<T(!new)>(xs: seq<T>, ys: seq<T>, leq: (T, T) -> bool)
    requires TotalPreorder(leq) && NoTies(xs, leq) && Sorted(xs, leq) && Sorted(ys, leq)
    requires multiset(xs) == multiset(ys) && xs != []
    ensures ys != [] && xs[0] == ys[0]
  {
    assert |multiset(xs)| == |xs| && |multiset(ys)| == |ys|;
    assert xs[0] in multiset(ys) && ys[0] in multiset(xs);
    assert xs[0] in ys && ys[0] in xs;
  }

  /** Without ties a sorted list is determined by its multiset. */
  lemma {:induction false} SortedUnique<T(!new)>(xs: seq<T>, ys: seq<T>, leq: (T, T) -> bool)
    requires TotalPreorder(leq) && NoTies(xs, leq) && Sorted(xs, leq) && Sorted(ys, leq)
    requires multiset(xs) == multiset(ys)
    ensures xs == ys
  {
    if xs == [] {
      assert |multiset(ys)| == |ys|;
    } else {
      SameFirst(xs, ys, leq);
      WithoutFirst(xs);
      WithoutFirst(ys);
      SortedRest(xs, leq);
      SortedRest(ys, leq);
      SortedUnique(xs[1..], ys[1..], leq);
      assert xs == [xs[0]] + xs[1..] && ys == [ys[0]] + ys[1..];
    }
  }

  /** Strictly increasing in a key. */
  ghost predicate StrictBy<T(!new), K(!new)>(xs: seq<T>, key: T -> K, leq: (K, K) -> bool) {
    forall i, j | 0 <= i < j < |xs| :: leq(key(xs[i]), key(xs[j])) && key(xs[i]) != key(xs[j])
  }

  /** Lists that are strictly increasing in a key and have the same items are equal. */
  lemma {:induction false} StrictByUnique<T(!new), K(!new)>(xs: seq<T>, ys: seq<T>, key: T -> K, leq: (K, K) -> bool)
    requires Antisymmetric(leq) && StrictBy(xs, key, leq) && StrictBy(ys, key, leq)
    requires forall x :: x in xs <==> x in ys
    ensures xs == ys
  {
    assert |ys| > 0 ==> ys[0] in ys;
    if xs != [] {
      assert xs[0] in ys && ys[0] in xs;
      assert xs == [xs[0]] + xs[1..] && ys == [ys[0]] + ys[1..];
      assert xs[0] == ys[0];
      forall x ensures x in xs[1..] <==> x in ys[1..] {
        assert x in xs[1..] <==> x in xs && x != xs[0];
        assert x in ys[1..] <==> x in ys && x != ys[0];
      }
      StrictByUnique(xs[1..], ys[1..], key, leq);
    }
  }

  lemma SetMultiset<T>(xs: seq<T>, ys: seq<T>)
    requires NoDup(xs) && NoDup(ys)
    requires forall x :: x in xs <==> x in ys
    ensures multiset(xs) == multiset(ys)
  {
    NoDupMultiset(xs);
    NoDupMultiset(ys);
    forall x ensures multiset(xs)[x] == multiset(ys)[x] {
      assert x in xs <==> x in ys;
    }
  }

  lemma {:induction false} NoDupMultiset<T>(xs: seq<T>)
    requires NoDup(xs)
    ensures forall x :: multiset(xs)[x] == if x in xs then 1 else 0
  {
    if xs != [] {
      NoDupMultiset(xs[1..]);
      assert xs == [xs[0]] + xs[1..];
      assert xs[0] !in xs[1..];
    }
  }

  ghost function Elements(xs: seq<string>): set<string> {
    set x | x in xs
  }

  lemma {:induction false} NoDupSize(xs: seq<string>)
    requires NoDup(xs)
    ensures |Elements(xs)| == |xs|
  {
    if xs != [] {
      var n := |xs| - 1;
      NoDupSize(xs[..n]);
      assert xs == xs[..n] + [xs[n]] && xs[n] !in xs[..n];
      assert Elements(xs) == Elements(xs[..n]) + {xs[n]};
    }
  }

  lemma PrefixMore<T>(xs: seq<T>, i: nat)
    requires i < |xs|
    ensures xs[..i + 1] == xs[..i] + [xs[i]]
    ensures NoDup(xs) ==> xs[i] !in xs[..i]
  {
  }

  lemma MultisetNoDup<T>(xs: seq<T>, ys: seq<T>)
    requires NoDup(xs) && multiset(xs) == multiset(ys)
    ensures NoDup(ys) && |ys| == |xs|
    ensures forall x :: x in xs <==> x in ys
  {
    NoDupMultiset(xs);
    assert |multiset(xs)| == |xs| && |multiset(ys)| == |ys|;
    forall x ensures x in xs <==> x in ys {
      assert x in multiset(xs) <==> x in multiset(ys);
    }
    forall i, j | 0 <= i < j < |ys| ensures ys[i] != ys[j] {
      if ys[i] == ys[j] {
        assert multiset(ys)[ys[i]] == multiset(xs)[ys[i]];
        TwoOccurrences(ys, i, j);
      }
    }
  }

  lemma TwoOccurrences<T>(ys: seq<T>, i: nat, j: nat)
    requires i < j < |ys| && ys[i] == ys[j]
    ensures multiset(ys)[ys[i]] >= 2
  {
    assert ys == ys[..j] + ys[j..];
    assert ys[i] in ys[..j] && ys[j] in ys[j..];
  }

  /** Sorting a duplicate-free list gives a result that depends on its elements only. */
  lemma SortOfSet<T(!new)>(xs: seq<T>, ys: seq<T>, leq: (T, T) -> bool)
    requires TotalPreorder(leq) && Antisymmetric(leq)
    requires NoDup(xs) && NoDup(ys) && forall x :: x in xs <==> x in ys
    ensures StableSort(xs, leq) == StableSort(ys, leq)
  {
    SetMultiset(xs, ys);
    StableSortCorrect(xs, leq);
    StableSortCorrect(ys, leq);
    SortedUnique(StableSort(xs, leq), StableSort(ys, leq), leq);
  }

  lemma SortKeepsElement<T>(xs: seq<T>, leq: (T, T) -> bool, x: T)
    ensures x in StableSort(xs, leq) <==> x in xs
  {
    SortKeepsElements(xs, leq);
  }

  lemma SortKeepsElements<T>(xs: seq<T>, leq: (T, T) -> bool)
    ensures |StableSort(xs, leq)| == |xs|
    ensures forall x :: x in StableSort(xs, leq) <==> x in xs
    ensures NoDup(xs) ==> NoDup(StableSort(xs, leq))
  {
    var ys := StableSort(xs, leq);
    assert |multiset(ys)| == |ys| && |multiset(xs)| == |xs|;
    forall x ensures x in ys <==> x in xs {
      assert x in multiset(ys) <==> x in multiset(xs);
    }
    if NoDup(xs) { MultisetNoDup(xs, ys); }
  }

  lemma SameElements<T>(xs: seq<T>, ys: seq<T>)
    requires multiset(xs) == multiset(ys)
    ensures forall x :: x in xs <==> x in ys
  {
    forall x ensures x in xs <==> x in ys {
      assert x in xs <==> x in multiset(xs);
      assert x in ys <==> x in multiset(ys);
    }
  }

  /** The list with one item moved to the end. */
  function MovedLast<T>(xs: seq<T>, i: nat): (ys: seq<T>)
    requires i < |xs|
    ensures |ys| == |xs| && ys[|ys| - 1] == xs[i]
  {
    xs[..i] + xs[i + 1..] + [xs[i]]
  }

  lemma MovedLastPermutes<T>(xs: seq<T>, i: nat)
    requires i < |xs|
    ensures multiset(MovedLast(xs, i)) == multiset(xs)
  {
    assert xs == xs[..i] + [xs[i]] + xs[i + 1..];
  }

  lemma BandAppend<T>(g: T, xs: seq<T>, ys: seq<T>, leq: (T, T) -> bool)
    ensures Band(g, xs + ys, leq) == Band(g, xs, leq) + Band(g, ys, leq)
  {
    if xs == [] {
      assert xs + ys == ys;
    } else {
      BandAppend(g, xs[1..], ys, leq);
      assert (xs + ys)[1..] == xs[1..] + ys;
    }
  }

  /** Sorted, the item moved to the end is the last of its band. */
  lemma SortedLastOfBand<T(!new)>(xs: seq<T>, leq: (T, T) -> bool, i: nat, g: T)
    requires TotalPreorder(leq) && i < |xs| && leq(g, xs[i]) && leq(xs[i], g)
    ensures var band := Band(g, StableSort(MovedLast(xs, i), leq), leq); band != [] && band[|band| - 1] == xs[i]
  {
    StableSortCorrect(MovedLast(xs, i), leq);
    BandAppend(g, xs[..i] + xs[i + 1..], [xs[i]], leq);
    assert Band(g, [xs[i]], leq) == [xs[i]];
  }

  /** The list has the same sorted form in every order. */
  ghost predicate OneSortedForm<T(!new)>(xs: seq<T>, leq: (T, T) -> bool) {
    forall ys: seq<T> | multiset(ys) == multiset(xs) :: StableSort(ys, leq) == StableSort(xs, leq)
  }

  /** The order of a list does not reach its sorted form exactly when items that tie are the same. */
  lemma SortOrderExact<T(!new)>(xs: seq<T>, leq: (T, T) -> bool)
    requires TotalPreorder(leq)
    ensures OneSortedForm(xs, leq) <==> NoTies(xs, leq)
  {
    if NoTies(xs, leq) {
      forall ys: seq<T> | multiset(ys) == multiset(xs) ensures StableSort(ys, leq) == StableSort(xs, leq) {
        SameElements(xs, StableSort(xs, leq));
        StableSortCorrect(xs, leq);
        StableSortCorrect(ys, leq);
        SortedUnique(StableSort(xs, leq), StableSort(ys, leq), leq);
      }
    } else {
      var x, y :| x in xs && y in xs && leq(x, y) && leq(y, x) && x != y;
      var i :| 0 <= i < |xs| && xs[i] == x;
      var j :| 0 <= j < |xs| && xs[j] == y;
      MovedLastPermutes(xs, i);
      MovedLastPermutes(xs, j);
      SortedLastOfBand(xs, leq, i, x);
      SortedLastOfBand(xs, leq, j, x);
      assert StableSort(MovedLast(xs, i), leq) != StableSort(MovedLast(xs, j), leq);
    }
  }

  /** Lexicographic order on code points: Python's order on `str`. */
  predicate StrLe(a: string, b: string) {
    a == "" || (b != "" && (a[0] < b[0] || (a[0] == b[0] && StrLe(a[1..], b[1..]))))
  }

  /** The strings differ first at a place where `a` has the smaller character. */
  ghost predicate SmallerAt(a: string, b: string, i: nat) {
    i < |a| && i < |b| && a[..i] == b[..i] && a[i] < b[i]
  }

  lemma {:induction false} StrLeExact(a: string, b: string)
    ensures StrLe(a, b) <==> a <= b || exists i: nat :: SmallerAt(a, b, i)
  {
    if a != "" && b != "" && a[0] == b[0] {
      StrLeExact(a[1..], b[1..]);
      assert a == [a[0]] + a[1..] && b == [b[0]] + b[1..];
      if i: nat :| SmallerAt(a[1..], b[1..], i) {
        assert a[..i + 1] == [a[0]] + a[1..][..i] && b[..i + 1] == [b[0]] + b[1..][..i];
        assert SmallerAt(a, b, i + 1);
      }
      if i: nat :| SmallerAt(a, b, i) {
        assert i > 0 && a[1..][..i - 1] == a[..i][1..] && b[1..][..i - 1] == b[..i][1..];
        assert SmallerAt(a[1..], b[1..], i - 1);
      }
    } else if a != "" && b != "" {
      if a[0] < b[0] { assert SmallerAt(a, b, 0); }
      if i: nat :| SmallerAt(a, b, i) { assert i > 0 ==> a[..i][0] == b[..i][0]; }
    }
  }

  lemma {:induction false} StrLeTotal(a: string, b: string)
    ensures StrLe(a, b) || StrLe(b, a)
    ensures StrLe(a, b) && StrLe(b, a) ==> a == b
  {
    if a != "" && b != "" {
      StrLeTotal(a[1..], b[1..]);
      assert a == [a[0]] + a[1..] && b == [b[0]] + b[1..];
    }
  }

  lemma {:induction false} StrLeTransitive(a: string, b: string, c: string)
    requires StrLe(a, b) && StrLe(b, c)
    ensures StrLe(a, c)
  {
    if a != "" && a[0] == b[0] == c[0] {
      StrLeTransitive(a[1..], b[1..], c[1..]);
    }
  }

  lemma StrLeOrder()
    ensures TotalPreorder(StrLe) && Antisymmetric(StrLe)
  {
    forall a, b ensures (StrLe(a, b) || StrLe(b, a)) && (StrLe(a, b) && StrLe(b, a) ==> a == b) {
      StrLeTotal(a, b);
    }
    forall a, b, c | StrLe(a, b) && StrLe(b, c) ensures StrLe(a, c) {
      StrLeTransitive(a, b, c);
    }
  }

  // ----- Lists without repeats

  /** The list with an element that it may have already. */
  function Adjoin(xs: seq<string>, x: string): seq<string> {
    if x in xs then xs else xs + [x]
  }

  lemma AdjoinNoDup(xs: seq<string>, x: string)
    requires NoDup(xs)
    ensures NoDup(Adjoin(xs, x)) && forall y :: y in Adjoin(xs, x) <==> y in xs || y == x
  {
  }

  /** The list with each of some elements in turn. */
  function AdjoinAll(xs: seq<string>, ys: seq<string>): seq<string> {
    if ys == [] then xs
    else
      var n := |ys| - 1;
      Adjoin(AdjoinAll(xs, ys[..n]), ys[n])
  }

  lemma {:induction false} AdjoinAllExact(xs: seq<string>, ys: seq<string>)
    ensures forall x :: x in AdjoinAll(xs, ys) <==> x in xs || x in ys
    ensures NoDup(xs) ==> NoDup(AdjoinAll(xs, ys))
  {
    if ys != [] {
      var n := |ys| - 1;
      AdjoinAllExact(xs, ys[..n]);
      assert ys == ys[..n] + [ys[n]];
    }
  }
}
