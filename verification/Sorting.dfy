/**
 * Sorting by a caller's order, as the stores do after collecting rows from a map. Insertion sort stands
 * for the library's algorithm: what it yields is an ordered permutation of what it was given, and where
 * the order tells all elements apart there is only one such permutation, so that the choice of algorithm
 * does not matter. Where it does not, as for equal deadlines, the callers' contracts leave the
 * arrangement open, because rows collected from a map come in any order.
 */
module Sorting {
  ghost predicate Preorder<T(!new)>(le: (T, T) -> bool) {
    && (forall a, b :: le(a, b) || le(b, a))
    && (forall a, b, c :: le(a, b) && le(b, c) ==> le(a, c))
  }

  ghost predicate SortedBy<T>(s: seq<T>, le: (T, T) -> bool) {
    forall i, j :: 0 <= i < j < |s| ==> le(s[i], s[j])
  }

  function Insert<T>(s: seq<T>, x: T, le: (T, T) -> bool): seq<T> {
    if s == [] || le(x, s[0]) then [x] + s else [s[0]] + Insert(s[1..], x, le)
  }

  function Sort<T>(s: seq<T>, le: (T, T) -> bool): seq<T> {
    if s == [] then [] else Insert(Sort(s[1..], le), s[0], le)
  }

  lemma {:induction false} InsertAddsOne<T>(s: seq<T>, x: T, le: (T, T) -> bool)
    ensures multiset(Insert(s, x, le)) == multiset(s) + multiset{x}
    decreases |s|
  {
    if s != [] && !le(x, s[0]) {
      InsertAddsOne(s[1..], x, le);
      assert s == [s[0]] + s[1..];
    }
  }

  lemma {:induction false} InsertKeepsOrder<T(!new)>(s: seq<T>, x: T, le: (T, T) -> bool)
    requires Preorder(le) && SortedBy(s, le)
    ensures SortedBy(Insert(s, x, le), le)
    decreases |s|
  {
    if s != [] && !le(x, s[0]) {
      var rest := Insert(s[1..], x, le);
      InsertKeepsOrder(s[1..], x, le);
      InsertAddsOne(s[1..], x, le);
      forall i | 0 <= i < |rest| ensures le(s[0], rest[i]) {
        assert rest[i] in multiset(rest);
      }
    }
  }

  /** Sorting orders the elements and neither loses nor repeats any. */
  lemma {:induction false} SortIsOrderedPermutation<T(!new)>(s: seq<T>, le: (T, T) -> bool)
    requires Preorder(le)
    ensures SortedBy(Sort(s, le), le) && multiset(Sort(s, le)) == multiset(s)
    decreases |s|
  {
    if s != [] {
      SortIsOrderedPermutation(s[1..], le);
      InsertKeepsOrder(Sort(s[1..], le), s[0], le);
      InsertAddsOne(Sort(s[1..], le), s[0], le);
      assert s == [s[0]] + s[1..];
    }
  }

  /** The order tells the elements apart. */
  ghost predicate Distinguishes<T(!new)>(a: seq<T>, le: (T, T) -> bool) {
    forall i, j :: 0 <= i < |a| && 0 <= j < |a| && le(a[i], a[j]) && le(a[j], a[i]) ==> a[i] == a[j]
  }

  lemma Tail<T>(a: seq<T>)
    requires a != []
    ensures multiset(a[1..]) == multiset(a) - multiset{a[0]}
  {
    assert a == [a[0]] + a[1..];
  }

  /** Where the order tells all elements apart there is only one sorted arrangement. */
  lemma {:induction false} SortedIsUnique<T(!new)>(a: seq<T>, b: seq<T>, le: (T, T) -> bool)
    requires Preorder(le) && Distinguishes(a, le)
    requires SortedBy(a, le) && SortedBy(b, le) && multiset(a) == multiset(b)
    ensures a == b
    decreases |a|
  {
    SameLength(a, b);
    if a != [] {
      SameHead(a, b, le);
      Tail(a);
      Tail(b);
      SortedIsUnique(a[1..], b[1..], le);
      assert a == [a[0]] + a[1..] && b == [b[0]] + b[1..];
    }
  }

  lemma SameLength<T>(a: seq<T>, b: seq<T>)
    requires multiset(a) == multiset(b)
    ensures |a| == |b|
  {
    assert |a| == |multiset(a)| && |b| == |multiset(b)|;
  }

  lemma SameHead<T(!new)>(a: seq<T>, b: seq<T>, le: (T, T) -> bool)
    requires Preorder(le) && Distinguishes(a, le) && a != [] && b != []
    requires SortedBy(a, le) && SortedBy(b, le) && multiset(a) == multiset(b)
    ensures a[0] == b[0]
  {
    HeadIsLeast(a, b, le);
    HeadIsLeast(b, a, le);
    assert b[0] in multiset(a);
    var i :| 0 <= i < |a| && a[i] == b[0];
  }

  lemma HeadIsLeast<T(!new)>(a: seq<T>, b: seq<T>, le: (T, T) -> bool)
    requires Preorder(le) && SortedBy(a, le) && a != [] && b != [] && multiset(a) == multiset(b)
    ensures le(a[0], b[0])
  {
    assert b[0] in multiset(a);
    var i :| 0 <= i < |a| && a[i] == b[0];
    assert i > 0 ==> le(a[0], a[i]);
  }

  /** Equal elements at two places count twice. */
  lemma TwiceInSequence<T>(s: seq<T>, i: nat, j: nat)
    requires i < j < |s| && s[i] == s[j]
    ensures multiset(s)[s[i]] >= 2
  {
    assert s == s[..j] + s[j..];
    assert s[i] in multiset(s[..j]) by { assert s[..j][i] == s[i]; }
    assert s[i] in multiset(s[j..]) by { assert s[j..][0] == s[i]; }
  }

  // ----- listings of sets -----

  /** Every element of the set, each once, in any order. */
  ghost predicate Lists<T>(found: seq<T>, ids: set<T>) {
    multiset(found) == multiset(ids)
  }

  lemma {:induction false} ListedSet<T(!new)>(found: seq<T>, ids: set<T>)
    requires Lists(found, ids)
    ensures |found| == |ids| && (forall t :: t in found <==> t in ids)
    ensures forall i, j :: 0 <= i < j < |found| ==> found[i] != found[j]
  {
    assert |multiset(found)| == |multiset(ids)|;
    forall t ensures t in found <==> t in ids {
      assert t in multiset(found) <==> t in multiset(ids);
    }
    forall i, j | 0 <= i < j < |found| ensures found[i] != found[j] {
      if found[i] == found[j] {
        TwiceInSequence(found, i, j);
        assert false;
      }
    }
  }

  ghost function ElementsOf<T(!new)>(found: seq<T>): set<T> {
    set t | t in found
  }

  lemma {:induction false} DistinctElements<T(!new)>(found: seq<T>)
    requires forall i, j :: 0 <= i < j < |found| ==> found[i] != found[j]
    ensures |ElementsOf(found)| == |found|
  {
    if found != [] {
      var front, last := found[..|found| - 1], found[|found| - 1];
      DistinctElements(front);
      assert found == front + [last];
      assert ElementsOf(found) == ElementsOf(front) + {last};
    }
  }

  lemma OneMoreElement<T(!new)>(ids: seq<T>, i: nat)
    requires i < |ids| && forall j, k :: 0 <= j < k < |ids| ==> ids[j] != ids[k]
    ensures ElementsOf(ids[..i + 1]) == ElementsOf(ids[..i]) + {ids[i]} && ids[i] !in ElementsOf(ids[..i])
  {
    assert ids[..i + 1] == ids[..i] + [ids[i]];
  }
}
