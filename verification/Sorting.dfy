/** String order, and what any sort by a strict weak order has in common with any other. */
module Sorting {

  /** Lexicographic order. */
  predicate Below(s: string, t: string) {
    t != "" && (s == "" || s[0] < t[0] || (s[0] == t[0] && Below(s[1..], t[1..])))
  }

  lemma {:induction false} BelowTotal(s: string, t: string)
    ensures s == t <==> !Below(s, t) && !Below(t, s)
    ensures !(Below(s, t) && Below(t, s))
  {
    if s != "" && t != "" {
      BelowTotal(s[1..], t[1..]);
      if s[0] == t[0] && s[1..] == t[1..] {
        assert s == [s[0]] + s[1..] == t;
      }
    }
  }

  lemma {:induction false} BelowTransitive(s: string, t: string, u: string)
    requires Below(s, t) && Below(t, u)
    ensures Below(s, u)
  {
    if s != "" && s[0] == t[0] == u[0] {
      BelowTransitive(s[1..], t[1..], u[1..]);
    }
  }

  ghost predicate WeakOrder<T(!new)>(less: (T, T) -> bool) {
    && (forall x, y :: less(x, y) ==> !less(y, x))
    && (forall x, y, z :: less(x, y) && less(y, z) ==> less(x, z))
    && (forall x, y, z :: less(x, z) ==> less(x, y) || less(y, z))
  }

  ghost predicate Sorted<T>(s: seq<T>, less: (T, T) -> bool) {
    forall i, j :: 0 <= i < j < |s| ==> !less(s[j], s[i])
  }

  /** No two places hold values the order does not tell apart. */
  ghost predicate Distinct<T>(s: seq<T>, less: (T, T) -> bool) {
    forall i, j :: 0 <= i < j < |s| ==> less(s[i], s[j]) || less(s[j], s[i])
  }

  /** Values the order does not tell apart are the same value. */
  ghost predicate NoConflict<T>(s: seq<T>, less: (T, T) -> bool) {
    forall i, j :: 0 <= i < j < |s| ==> less(s[i], s[j]) || less(s[j], s[i]) || s[i] == s[j]
  }

  ghost predicate IsSortOf<T>(t: seq<T>, s: seq<T>, less: (T, T) -> bool) {
    multiset(t) == multiset(s) && Sorted(t, less)
  }

  lemma MultisetSplit<T>(s: seq<T>, i: nat)
    requires i < |s|
    ensures multiset(s) == multiset(s[..i] + s[i + 1..]) + multiset{s[i]}
  {
    assert s == s[..i] + [s[i]] + s[i + 1..];
  }

  lemma MultisetCancel<T>(a: multiset<T>, b: multiset<T>, x: T)
    requires a + multiset{x} == b + multiset{x}
    ensures a == b
  {
    assert a == (a + multiset{x}) - multiset{x};
  }

  /** Stands in for the library's sort: all that is used of it is its contract. */
  method Sort<T(!new)>(s: seq<T>, less: (T, T) -> bool) returns (t: seq<T>)
    requires WeakOrder(less)
    ensures IsSortOf(t, s, less)
  {
    t := [];
    for n := 0 to |s|
      invariant IsSortOf(t, s[..n], less)
    {
      var before := t;
      t := Insert(t, s[n], less);
      InsertedNext(s, n, before, t);
    }
    assert s[..|s|] == s;
  }

  lemma InsertedNext<T>(s: seq<T>, n: nat, before: seq<T>, t: seq<T>)
    requires n < |s| && multiset(before) == multiset(s[..n]) && multiset(t) == multiset(before) + multiset{s[n]}
    ensures multiset(t) == multiset(s[..n + 1])
  {
    assert s[..n + 1] == s[..n] + [s[n]];
  }

  method Insert<T(!new)>(t: seq<T>, x: T, less: (T, T) -> bool) returns (u: seq<T>)
    requires WeakOrder(less) && Sorted(t, less)
    ensures Sorted(u, less) && multiset(u) == multiset(t) + multiset{x}
  {
    var i := Position(t, x, less);
    InsertSorted(t, x, i, less);
    InsertMultiset(t, x, i);
    u := t[..i] + [x] + t[i..];
  }

  /** Goes down past all values above `x`. */
  method Position<T>(t: seq<T>, x: T, less: (T, T) -> bool) returns (i: nat)
    ensures i <= |t| && (forall j :: i <= j < |t| ==> less(x, t[j])) && (i > 0 ==> !less(x, t[i - 1]))
  {
    i := |t|;
    while i > 0 && less(x, t[i - 1])
      invariant 0 <= i <= |t| && forall j :: i <= j < |t| ==> less(x, t[j])
    {
      i := i - 1;
    }
  }

  lemma InsertMultiset<T>(t: seq<T>, x: T, i: nat)
    requires i <= |t|
    ensures multiset(t[..i] + [x] + t[i..]) == multiset(t) + multiset{x}
  {
    assert t == t[..i] + t[i..];
  }

  lemma InsertSorted<T(!new)>(t: seq<T>, x: T, i: nat, less: (T, T) -> bool)
    requires WeakOrder(less) && Sorted(t, less) && i <= |t|
    requires forall j :: i <= j < |t| ==> less(x, t[j])
    requires i > 0 ==> !less(x, t[i - 1])
    ensures Sorted(t[..i] + [x] + t[i..], less)
  {
    forall j | 0 <= j < i ensures !less(x, t[j]) {
      if j < i - 1 {
        assert !less(t[i - 1], t[j]);
      }
    }
  }

  /** Without conflicts there is one sorted permutation only. */
  lemma {:induction false} SortIsUnique<T(!new)>(s: seq<T>, t: seq<T>, less: (T, T) -> bool)
    requires Sorted(s, less) && Sorted(t, less) && multiset(s) == multiset(t) && NoConflict(s, less)
    ensures s == t
  {
    assert |s| == |multiset(s)| == |t|;
    if s != [] {
      SameHead(s, t, less);
      SameTails(s, t);
      TailSorted(s, less);
      TailSorted(t, less);
      SortIsUnique(s[1..], t[1..], less);
      assert s == [s[0]] + s[1..] && t == [t[0]] + t[1..];
    }
  }

  lemma SameTails<T>(s: seq<T>, t: seq<T>)
    requires s != [] && t != [] && s[0] == t[0] && multiset(s) == multiset(t)
    ensures multiset(s[1..]) == multiset(t[1..])
  {
    HeadAndTail(s);
    HeadAndTail(t);
    MultisetCancel(multiset(s[1..]), multiset(t[1..]), s[0]);
  }

  lemma HeadAndTail<T>(s: seq<T>)
    requires s != []
    ensures multiset(s) == multiset(s[1..]) + multiset{s[0]}
  {
    assert s == [s[0]] + s[1..];
  }

  lemma TailSorted<T>(s: seq<T>, less: (T, T) -> bool)
    requires s != [] && Sorted(s, less)
    ensures Sorted(s[1..], less)
    ensures NoConflict(s, less) ==> NoConflict(s[1..], less)
  {
    forall i, j | 0 <= i < j < |s[1..]|
      ensures !less(s[1..][j], s[1..][i])
      ensures NoConflict(s, less) ==> less(s[1..][i], s[1..][j]) || less(s[1..][j], s[1..][i]) || s[1..][i] == s[1..][j]
    {
      assert s[1..][i] == s[i + 1] && s[1..][j] == s[j + 1];
    }
  }

  lemma SameHead<T(!new)>(s: seq<T>, t: seq<T>, less: (T, T) -> bool)
    requires Sorted(s, less) && Sorted(t, less) && multiset(s) == multiset(t) && NoConflict(s, less)
    requires s != [] && t != []
    ensures s[0] == t[0]
  {
    assert s[0] in multiset(t) && t[0] in multiset(s);
    var k :| 0 <= k < |t| && t[k] == s[0];
    var j :| 0 <= j < |s| && s[j] == t[0];
    if s[0] != t[0] {
      assert false;
    }
  }

  /** Absence of ties does not depend on the order of the list. */
  lemma DistinctPermuted<T(!new)>(s: seq<T>, t: seq<T>, less: (T, T) -> bool)
    requires Distinct(s, less) && multiset(s) == multiset(t)
    ensures Distinct(t, less)
  {
    forall i, j | 0 <= i < j < |t| ensures less(t[i], t[j]) || less(t[j], t[i]) {
      TwoPlaces(s, t, i, j);
      var a, b :| 0 <= a < |s| && 0 <= b < |s| && a != b && s[a] == t[i] && s[b] == t[j];
      assert a < b || b < a;
    }
  }

  lemma TwoPlaces<T>(s: seq<T>, t: seq<T>, i: nat, j: nat)
    requires multiset(s) == multiset(t) && i < j < |t|
    ensures exists a, b :: 0 <= a < |s| && 0 <= b < |s| && a != b && s[a] == t[i] && s[b] == t[j]
  {
    assert t[i] in multiset(s);
    var a :| 0 <= a < |s| && s[a] == t[i];
    MultisetSplit(s, a);
    MultisetSplit(t, i);
    var rest, rest' := s[..a] + s[a + 1..], t[..i] + t[i + 1..];
    MultisetCancel(multiset(rest), multiset(rest'), t[i]);
    assert t[j] == rest'[j - 1];
    assert t[j] in multiset(rest);
    var c :| 0 <= c < |rest| && rest[c] == t[j];
    var b := if c < a then c else c + 1;
    assert s[b] == rest[c];
    assert s[a] == t[i] && s[b] == t[j] && b != a;
  }

  lemma NoConflictPermuted<T(!new)>(s: seq<T>, t: seq<T>, less: (T, T) -> bool)
    requires NoConflict(s, less) && multiset(s) == multiset(t)
    ensures NoConflict(t, less)
  {
    forall i, j | 0 <= i < j < |t| ensures less(t[i], t[j]) || less(t[j], t[i]) || t[i] == t[j] {
      TwoPlaces(s, t, i, j);
      var a, b :| 0 <= a < |s| && 0 <= b < |s| && a != b && s[a] == t[i] && s[b] == t[j];
      assert a < b || b < a;
    }
  }

  lemma {:induction false} SortExists<T(!new)>(s: seq<T>, less: (T, T) -> bool) returns (t: seq<T>)
    requires WeakOrder(less)
    ensures IsSortOf(t, s, less)
  {
    if s == [] {
      t := [];
    } else {
      var n := |s| - 1;
      var u := SortExists(s[..n], less);
      var i := PositionExists(u, s[n], less);
      InsertSorted(u, s[n], i, less);
      InsertMultiset(u, s[n], i);
      t := u[..i] + [s[n]] + u[i..];
      InsertedNext(s, n, u, t);
      assert s[..n + 1] == s;
    }
  }

  lemma {:induction false} PositionExists<T>(t: seq<T>, x: T, less: (T, T) -> bool) returns (i: nat)
    ensures i <= |t| && (forall j :: i <= j < |t| ==> less(x, t[j])) && (i > 0 ==> !less(x, t[i - 1]))
  {
    if t == [] || !less(x, t[|t| - 1]) {
      i := |t|;
    } else {
      i := PositionExists(t[..|t| - 1], x, less);
    }
  }

  /** A conflict in a sorted list shows between two neighbours. */
  lemma {:induction false} ConflictingNeighbours<T(!new)>(s: seq<T>, less: (T, T) -> bool, i: nat, j: nat)
    returns (k: nat)
    requires WeakOrder(less) && Sorted(s, less) && i < j < |s| && s[i] != s[j] && !less(s[i], s[j])
    ensures k + 1 < |s| && s[k] != s[k + 1] && !less(s[k], s[k + 1])
    decreases j - i
  {
    if s[i] != s[i + 1] {
      k := i;
      if j > i + 1 {
        assert !less(s[j], s[i + 1]);
      }
    } else {
      k := ConflictingNeighbours(s, less, i + 1, j);
    }
  }

  /** Exchanging two neighbours that the order does not tell apart keeps a list sorted. */
  lemma SwapNeighbours<T(!new)>(s: seq<T>, less: (T, T) -> bool, k: nat)
    requires Sorted(s, less) && k + 1 < |s| && !less(s[k], s[k + 1])
    ensures IsSortOf(s[k := s[k + 1]][k + 1 := s[k]], s, less)
  {
    var t := s[k := s[k + 1]][k + 1 := s[k]];
    SwapMultiset(s, k);
    forall i, j | 0 <= i < j < |t| ensures !less(t[j], t[i]) {
      var a := if i == k then k + 1 else if i == k + 1 then k else i;
      var b := if j == k then k + 1 else if j == k + 1 then k else j;
      assert t[i] == s[a] && t[j] == s[b];
    }
  }

  lemma SwapMultiset<T>(s: seq<T>, k: nat)
    requires k + 1 < |s|
    ensures multiset(s[k := s[k + 1]][k + 1 := s[k]]) == multiset(s)
  {
    var u := s[k := s[k + 1]];
    assert multiset(u) == multiset(s) - multiset{s[k]} + multiset{s[k + 1]};
    assert multiset(u[k + 1 := s[k]]) == multiset(u) - multiset{u[k + 1]} + multiset{s[k]};
    assert s[k] in multiset(s);
  }

  /**
   Whatever the sorting does with ties: two lists come out equal exactly when one permutes the other and there is no
   conflict.
   */
  lemma SortingDecides<T(!new)>(s: seq<T>, t: seq<T>, less: (T, T) -> bool)
    requires WeakOrder(less)
    ensures (forall s', t' :: IsSortOf(s', s, less) && IsSortOf(t', t, less) ==> s' == t') <==>
              multiset(s) == multiset(t) && NoConflict(s, less)
    ensures (exists s', t' :: IsSortOf(s', s, less) && IsSortOf(t', t, less) && s' == t') <==>
              multiset(s) == multiset(t)
  {
    var s' := SortExists(s, less);
    var t' := SortExists(t, less);
    if multiset(s) == multiset(t) {
      assert IsSortOf(s', t, less);
      if NoConflict(s, less) {
        forall u, v | IsSortOf(u, s, less) && IsSortOf(v, t, less) ensures u == v {
          NoConflictPermuted(s, u, less);
          SortIsUnique(u, v, less);
        }
      } else {
        var u := OtherSort(s, s', less);
        assert IsSortOf(u, t, less);
      }
    }
  }

  /** A list with a conflict has a second sorted permutation. */
  lemma OtherSort<T(!new)>(s: seq<T>, t: seq<T>, less: (T, T) -> bool) returns (u: seq<T>)
    requires WeakOrder(less) && IsSortOf(t, s, less) && !NoConflict(s, less)
    ensures IsSortOf(u, s, less) && u != t
  {
    if NoConflict(t, less) {
      NoConflictPermuted(t, s, less);
      assert false;
    }
    var i, j :| 0 <= i < j < |t| && !less(t[i], t[j]) && !less(t[j], t[i]) && t[i] != t[j];
    var k := ConflictingNeighbours(t, less, i, j);
    SwapNeighbours(t, less, k);
    u := t[k := t[k + 1]][k + 1 := t[k]];
    assert u[k] != t[k];
  }
}
