/**
 Which belief stands for a concept. Beliefs are looked up by id and a later one replaces an earlier
 one, so the order of the list matters exactly when two different beliefs share an id.
 */
module ConceptMaps {
  import opened Wrappers
  import opened Orders
  import opened OrderedMaps

  /** The first concept with this belief id. */
  function FirstConcept(keys: seq<string>, ids: map<string, string>, beliefId: string): Option<string> {
    if keys == [] then None
    else if keys[0] in ids && ids[keys[0]] == beliefId then Some(keys[0])
    else FirstConcept(keys[1..], ids, beliefId)
  }

  lemma {:induction false} FirstConceptExact(keys: seq<string>, ids: map<string, string>, beliefId: string)
    ensures var r := FirstConcept(keys, ids, beliefId);
            && (r.Some? ==> r.value in keys && r.value in ids && ids[r.value] == beliefId)
            && (r.None? ==> forall c | c in keys && c in ids :: ids[c] != beliefId)
  {
    if keys != [] {
      FirstConceptExact(keys[1..], ids, beliefId);
      assert keys == [keys[0]] + keys[1..];
    }
  }

  /** The concept of an item with this belief id. */
  function ConceptOf(ids: OMap<string>, beliefId: string): Option<string> {
    FirstConcept(ids.keys, ids.at, beliefId)
  }

  lemma ConceptHasId(ids: OMap<string>, beliefId: string)
    ensures var r := ConceptOf(ids, beliefId); r.Some? ==> r.value in ids.keys && r.value in ids.at && ids.at[r.value] == beliefId
  {
    FirstConceptExact(ids.keys, ids.at, beliefId);
  }

  /** `belief_map`, for items of any kind: a later item replaces an earlier one with the same id. */
  function Mapped<T>(xs: seq<T>, id: T -> string, ids: OMap<string>): map<string, T> {
    if xs == [] then map[]
    else
      var n := |xs| - 1;
      var before := Mapped(xs[..n], id, ids);
      var c := ConceptOf(ids, id(xs[n]));
      if c.Some? then before[c.value := xs[n]] else before
  }

  /** The item is the last with its id. */
  ghost predicate LastOfId<T>(xs: seq<T>, id: T -> string, i: nat)
    requires i < |xs|
  {
    forall j | i < j < |xs| :: id(xs[j]) != id(xs[i])
  }

  /** Item `i` is the last with its id, and that is the id of concept `c`. */
  ghost predicate StandsFor<T>(xs: seq<T>, id: T -> string, ids: OMap<string>, c: string, i: nat) {
    i < |xs| && ConceptOf(ids, id(xs[i])) == Some(c) && LastOfId(xs, id, i)
  }

  /** The concepts of the map, and the item that stands for each. */
  lemma {:induction false} MappedExact<T>(xs: seq<T>, id: T -> string, ids: OMap<string>, c: string)
    ensures var m := Mapped(xs, id, ids);
            && (forall i | 0 <= i < |xs| && ConceptOf(ids, id(xs[i])) == Some(c) :: c in m)
            && (forall i: nat | StandsFor(xs, id, ids, c, i) :: c in m && m[c] == xs[i])
            && (c in m ==> exists i: nat :: StandsFor(xs, id, ids, c, i) && m[c] == xs[i])
  {
    if xs != [] {
      MappedExact(xs[..|xs| - 1], id, ids, c);
      if ConceptOf(ids, id(xs[|xs| - 1])) == Some(c) {
        LastTakesOver(xs, id, ids, c);
      } else {
        LastElsewhere(xs, id, ids, c);
      }
    }
  }

  lemma LastTakesOver<T>(xs: seq<T>, id: T -> string, ids: OMap<string>, c: string)
    requires xs != [] && ConceptOf(ids, id(xs[|xs| - 1])) == Some(c)
    ensures StandsFor(xs, id, ids, c, |xs| - 1) && c in Mapped(xs, id, ids) && Mapped(xs, id, ids)[c] == xs[|xs| - 1]
    ensures forall i: nat | StandsFor(xs, id, ids, c, i) :: i == |xs| - 1
  {
    ConceptHasId(ids, id(xs[|xs| - 1]));
    forall i: nat | StandsFor(xs, id, ids, c, i) ensures i == |xs| - 1 { ConceptHasId(ids, id(xs[i])); }
  }

  lemma LastElsewhere<T>(xs: seq<T>, id: T -> string, ids: OMap<string>, c: string)
    requires xs != [] && ConceptOf(ids, id(xs[|xs| - 1])) != Some(c)
    ensures var n, m := |xs| - 1, Mapped(xs, id, ids);
            && (c in m <==> c in Mapped(xs[..n], id, ids)) && (c in m ==> m[c] == Mapped(xs[..n], id, ids)[c])
            && (forall i: nat | i < |xs| && ConceptOf(ids, id(xs[i])) == Some(c) :: i < n && xs[..n][i] == xs[i])
            && (forall i: nat :: StandsFor(xs, id, ids, c, i) <==> StandsFor(xs[..n], id, ids, c, i))
  {
    var n := |xs| - 1;
    forall i: nat ensures StandsFor(xs, id, ids, c, i) <==> StandsFor(xs[..n], id, ids, c, i) {
      if i < n && ConceptOf(ids, id(xs[i])) == Some(c) {
        assert id(xs[n]) != id(xs[i]) && xs[..n][i] == xs[i];
        assert forall j | i < j < n :: xs[..n][j] == xs[j];
      }
    }
  }

  // ----- Lists in another order

  /** No two items have the same key. */
  ghost predicate Distinct<T>(xs: seq<T>, key: T -> string) {
    forall i, j | 0 <= i < |xs| && 0 <= j < |xs| && key(xs[i]) == key(xs[j]) :: i == j
  }

  lemma DistinctStays<T>(xs: seq<T>, ys: seq<T>, key: T -> string)
    requires multiset(xs) == multiset(ys) && Distinct(xs, key)
    ensures Distinct(ys, key)
  {
    SameElements(xs, ys);
    forall i, j | 0 <= i < j < |ys| ensures key(ys[i]) != key(ys[j]) {
      if key(ys[i]) == key(ys[j]) {
        assert ys[i] in xs && ys[j] in xs && ys[i] == ys[j];
        TwoOccurrences(ys, i, j);
        OnceInList(xs, ys[i], key);
      }
    }
  }

  lemma OnceInList<T>(xs: seq<T>, x: T, key: T -> string)
    requires Distinct(xs, key) && x in xs
    ensures multiset(xs)[x] == 1
  {
    var k :| 0 <= k < |xs| && xs[k] == x;
    assert xs == xs[..k] + [x] + xs[k + 1..];
    assert x !in xs[..k] && x !in xs[k + 1..];
  }

  // ----- The order of the list

  /** Items with the same id of a concept are the same. */
  ghost predicate Unambiguous<T>(xs: seq<T>, id: T -> string, ids: OMap<string>) {
    forall i, j | 0 <= i < |xs| && 0 <= j < |xs| && id(xs[i]) == id(xs[j]) && ConceptOf(ids, id(xs[i])).Some? :: xs[i] == xs[j]
  }

  lemma MappedAnyOrder<T>(xs: seq<T>, ys: seq<T>, id: T -> string, ids: OMap<string>)
    requires (forall x :: x in xs <==> x in ys) && Unambiguous(xs, id, ids)
    ensures Mapped(xs, id, ids) == Mapped(ys, id, ids)
  {
    var a, b := Mapped(xs, id, ids), Mapped(ys, id, ids);
    forall c ensures (c in a <==> c in b) && (c in a ==> a[c] == b[c]) {
      MappedExact(xs, id, ids, c);
      MappedExact(ys, id, ids, c);
      MappedSameAt(xs, ys, id, ids, c);
    }
  }

  lemma MappedSameAt<T>(xs: seq<T>, ys: seq<T>, id: T -> string, ids: OMap<string>, c: string)
    requires (forall x :: x in xs <==> x in ys) && Unambiguous(xs, id, ids)
    ensures var a, b := Mapped(xs, id, ids), Mapped(ys, id, ids); (c in a <==> c in b) && (c in a ==> a[c] == b[c])
  {
    var a, b := Mapped(xs, id, ids), Mapped(ys, id, ids);
    MappedExact(xs, id, ids, c);
    MappedExact(ys, id, ids, c);
    if c in a {
      var i: nat :| StandsFor(xs, id, ids, c, i) && a[c] == xs[i];
      assert xs[i] in ys;
      var j :| 0 <= j < |ys| && ys[j] == xs[i];
      assert c in b;
    }
    if c in b {
      var j: nat :| StandsFor(ys, id, ids, c, j) && b[c] == ys[j];
      assert ys[j] in xs;
      var k :| 0 <= k < |xs| && xs[k] == ys[j];
      assert c in a;
      var i: nat :| StandsFor(xs, id, ids, c, i) && a[c] == xs[i];
      ConceptHasId(ids, id(xs[i]));
      ConceptHasId(ids, id(xs[k]));
    }
  }

  lemma MovedLastStands<T>(xs: seq<T>, id: T -> string, ids: OMap<string>, i: nat)
    requires i < |xs| && ConceptOf(ids, id(xs[i])).Some?
    ensures var m, c := Mapped(MovedLast(xs, i), id, ids), ConceptOf(ids, id(xs[i])).value; c in m && m[c] == xs[i]
  {
  }

  /** Every order of the list gives the same map exactly when no two different items share the id of a concept. */
  lemma MappedOrderExact<T>(xs: seq<T>, id: T -> string, ids: OMap<string>)
    ensures (forall ys: seq<T> | multiset(ys) == multiset(xs) :: Mapped(ys, id, ids) == Mapped(xs, id, ids)) <==> Unambiguous(xs, id, ids)
  {
    if Unambiguous(xs, id, ids) {
      forall ys: seq<T> | multiset(ys) == multiset(xs) ensures Mapped(ys, id, ids) == Mapped(xs, id, ids) {
        SameElements(xs, ys);
        MappedAnyOrder(xs, ys, id, ids);
      }
    } else {
      var i, j :| 0 <= i < |xs| && 0 <= j < |xs| && id(xs[i]) == id(xs[j]) && ConceptOf(ids, id(xs[i])).Some? && xs[i] != xs[j];
      MovedLastPermutes(xs, i);
      MovedLastPermutes(xs, j);
      MovedLastStands(xs, id, ids, i);
      MovedLastStands(xs, id, ids, j);
      var ys, zs := MovedLast(xs, i), MovedLast(xs, j);
      assert Mapped(ys, id, ids) != Mapped(zs, id, ids);
    }
  }

  // ----- The order of the concepts

  /** The same dict, its keys perhaps in another order. */
  ghost predicate SameDict<V>(a: OMap<V>, b: OMap<V>) {
    Consistent(a) && Consistent(b) && a.at == b.at
  }

  /** No two concepts have the same belief id. */
  ghost predicate OneConceptEach(ids: OMap<string>) {
    forall c, d | c in ids.at && d in ids.at && ids.at[c] == ids.at[d] :: c == d
  }

  lemma ConceptAnyOrder(ids: OMap<string>, jds: OMap<string>, beliefId: string)
    requires SameDict(ids, jds) && OneConceptEach(ids)
    ensures ConceptOf(ids, beliefId) == ConceptOf(jds, beliefId)
  {
    FirstConceptExact(ids.keys, ids.at, beliefId);
    FirstConceptExact(jds.keys, jds.at, beliefId);
  }

  lemma {:induction false} MappedAnyConceptOrder<T>(xs: seq<T>, id: T -> string, ids: OMap<string>, jds: OMap<string>)
    requires SameDict(ids, jds) && OneConceptEach(ids)
    ensures Mapped(xs, id, ids) == Mapped(xs, id, jds)
  {
    if xs != [] {
      var n := |xs| - 1;
      MappedAnyConceptOrder(xs[..n], id, ids, jds);
      ConceptAnyOrder(ids, jds, id(xs[n]));
    }
  }
}
