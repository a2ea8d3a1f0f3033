/** Identifiers shared by every feature, and the few facts about finite sets the proofs need. */
module Basics {

  datatype Option<+T> = None | Some(value: T)

  /** A uuid. Only equality, its total order and the nil value matter to the code. */
  type Id = nat
  const NIL: Id := 0

  ghost predicate Injective<K(!new), V>(f: K --> V, s: set<K>)
    requires forall k :: k in s ==> f.requires(k)
  {
    forall j, k :: j in s && k in s && f(j) == f(k) ==> j == k
  }

  ghost function Image<K(!new), V>(f: K --> V, s: set<K>): set<V>
    requires forall k :: k in s ==> f.requires(k)
  {
    set k | k in s :: f(k)
  }

  lemma {:induction false} ImageSize<K(!new), V>(f: K --> V, s: set<K>)
    requires (forall k :: k in s ==> f.requires(k)) && Injective(f, s)
    ensures |Image(f, s)| == |s|
    decreases |s|
  {
    if s != {} {
      var k :| k in s;
      ImageSize(f, s - {k});
      assert Image(f, s) == Image(f, s - {k}) + {f(k)};
    }
  }

  ghost predicate NoDuplicates<T>(s: seq<T>) {
    forall i, j | 0 <= i < j < |s| :: s[i] != s[j]
  }

  ghost function Elements<T>(s: seq<T>): set<T> {
    set x | x in s
  }

  lemma {:induction false} DistinctSize<T>(s: seq<T>)
    requires NoDuplicates(s)
    ensures |Elements(s)| == |s|
  {
    if s != [] {
      var init, last := s[..|s| - 1], s[|s| - 1];
      DistinctSize(init);
      assert s == init + [last];
      assert Elements(s) == Elements(init) + {last};
    }
  }

  /** A subset as large as the whole is the whole. */
  lemma SubsetSize<T>(a: set<T>, b: set<T>)
    requires a <= b
    ensures |a| <= |b|
    ensures |a| == |b| ==> a == b
  {
    assert b == a + (b - a);
    assert |b| == |a| + |b - a|;
  }

  ghost predicate Sorted<T>(s: seq<T>, before: (T, T) -> bool) {
    forall i, j | 0 <= i < j < |s| :: before(s[i], s[j])
  }

  ghost predicate Asymmetric<T(!new)>(before: (T, T) -> bool) {
    forall x, y :: before(x, y) ==> !before(y, x)
  }

  lemma SortedHasNoDuplicates<T(!new)>(s: seq<T>, before: (T, T) -> bool)
    requires Asymmetric(before) && Sorted(s, before)
    ensures NoDuplicates(s)
  {
  }

  /** A set has at most one sorted listing. */
  lemma {:induction false} SortedListingIsUnique<T(!new)>(a: seq<T>, b: seq<T>, before: (T, T) -> bool)
    requires Asymmetric(before) && Sorted(a, before) && Sorted(b, before) && Elements(a) == Elements(b)
    ensures a == b
  {
    assert a != [] ==> a[0] in Elements(a);
    assert b != [] ==> b[0] in Elements(b);
    if a != [] && b != [] {
      assert a[0] in Elements(b) && b[0] in Elements(a);
      SortedHasNoDuplicates(a, before);
      SortedHasNoDuplicates(b, before);
      assert Elements(a[1..]) == Elements(a) - {a[0]};
      assert Elements(b[1..]) == Elements(b) - {b[0]};
      SortedListingIsUnique(a[1..], b[1..], before);
    }
  }

  ghost predicate Transitive<T(!new)>(before: (T, T) -> bool) {
    forall x, y, z :: before(x, y) && before(y, z) ==> before(x, z)
  }

  ghost predicate TotalOn<T(!new)>(s: set<T>, before: (T, T) -> bool) {
    forall x, y :: x in s && y in s && x != y ==> before(x, y) || before(y, x)
  }

  predicate IsFirst<T(!new)>(s: set<T>, x: T, before: (T, T) -> bool) {
    x in s && forall y :: y in s && y != x ==> before(x, y)
  }

  lemma {:induction false} FirstExists<T(!new)>(s: set<T>, before: (T, T) -> bool)
    requires s != {} && Transitive(before) && TotalOn(s, before)
    ensures exists x :: IsFirst(s, x, before)
    decreases |s|
  {
    var x :| x in s;
    var rest := s - {x};
    if rest == {} {
      assert s == {x};
      assert IsFirst(s, x, before);
    } else {
      FirstExists(rest, before);
      var y :| IsFirst(rest, y, before);
      FirstOfMore(s, x, y, before);
    }
  }

  lemma FirstOfMore<T(!new)>(s: set<T>, x: T, y: T, before: (T, T) -> bool)
    requires x in s && IsFirst(s - {x}, y, before) && Transitive(before) && TotalOn(s, before)
    ensures IsFirst(s, if before(x, y) then x else y, before)
  {
    var first := if before(x, y) then x else y;
    forall z | z in s && z != first ensures before(first, z) {
      if z != x && z != y { assert before(y, z); }
    }
  }

  /** Partway through sorting `s`: `rows` lists what is no longer `left`, and all of it comes before what is left. */
  ghost predicate Partway<T(!new)>(rows: seq<T>, left: set<T>, s: set<T>, before: (T, T) -> bool) {
    && left <= s && Elements(rows) == s - left && Sorted(rows, before)
    && forall x, y :: x in Elements(rows) && y in left ==> before(x, y)
  }

  lemma TakeFirst<T(!new)>(rows: seq<T>, left: set<T>, s: set<T>, x: T, before: (T, T) -> bool)
    requires Partway(rows, left, s, before) && IsFirst(left, x, before)
    ensures Partway(rows + [x], left - {x}, s, before)
  {
    assert Elements(rows + [x]) == Elements(rows) + {x} == s - (left - {x});
    assert forall i | 0 <= i < |rows| :: rows[i] in Elements(rows);
  }

  /** ORDER BY: the elements of a set, sorted. */
  method SortedListing<T(!new, ==)>(s: set<T>, before: (T, T) -> bool) returns (rows: seq<T>)
    requires Transitive(before) && TotalOn(s, before)
    ensures Sorted(rows, before) && Elements(rows) == s
  {
    rows := [];
    var left := s;
    while left != {}
      invariant Partway(rows, left, s, before)
      decreases |left|
    {
      FirstExists(left, before);
      var x :| IsFirst(left, x, before);
      TakeFirst(rows, left, s, x, before);
      rows := rows + [x];
      left := left - {x};
    }
  }
}
