/** A list put in order. */
module Sorting {
  /** Any two can be compared, and comparisons follow on. */
  ghost predicate IsOrder<T(!new)>(le: (T, T) -> bool) {
    && (forall a, b :: le(a, b) || le(b, a))
    && (forall a, b, c :: le(a, b) && le(b, c) ==> le(a, c))
  }

  ghost predicate IsSorted<T>(s: seq<T>, le: (T, T) -> bool) {
    forall i, j | 0 <= i < j < |s| :: le(s[i], s[j])
  }

  ghost predicate IsOnceEach<T>(s: seq<T>) {
    forall i, j | 0 <= i < j < |s| :: s[i] != s[j]
  }

  function Insert<T>(s: seq<T>, x: T, le: (T, T) -> bool): seq<T> {
    if s == [] || le(x, s[0]) then [x] + s else [s[0]] + Insert(s[1..], x, le)
  }

  function Sort<T>(s: seq<T>, le: (T, T) -> bool): seq<T> {
    if s == [] then [] else Insert(Sort(s[1..], le), s[0], le)
  }

  lemma {:induction false} InsertKeeps<T>(s: seq<T>, x: T, le: (T, T) -> bool)
    ensures multiset(Insert(s, x, le)) == multiset(s) + multiset{x}
  {
    if s != [] && !le(x, s[0]) {
      InsertKeeps(s[1..], x, le);
      assert s == [s[0]] + s[1..];
    }
  }

  lemma {:induction false} InsertOrders<T(!new)>(s: seq<T>, x: T, le: (T, T) -> bool)
    requires IsOrder(le) && IsSorted(s, le)
    ensures IsSorted(Insert(s, x, le), le)
  {
    if s != [] && !le(x, s[0]) {
      InsertOrders(s[1..], x, le);
      InsertKeeps(s[1..], x, le);
      var rest := Insert(s[1..], x, le);
      forall k | 0 <= k < |rest| ensures le(s[0], rest[k]) {
        assert rest[k] in multiset(rest);
        assert rest[k] == x || rest[k] in s[1..];
      }
    }
  }

  /** The same things, each as often, in order. */
  lemma {:induction false} SortSorts<T(!new)>(s: seq<T>, le: (T, T) -> bool)
    requires IsOrder(le)
    ensures IsSorted(Sort(s, le), le) && multiset(Sort(s, le)) == multiset(s)
  {
    if s != [] {
      SortSorts(s[1..], le);
      InsertOrders(Sort(s[1..], le), s[0], le);
      InsertKeeps(Sort(s[1..], le), s[0], le);
      assert s == [s[0]] + s[1..];
    }
  }

  lemma {:induction false} OnceIsOnce<T>(s: seq<T>, x: T)
    requires IsOnceEach(s)
    ensures multiset(s)[x] <= 1
  {
    if s != [] {
      assert s == s[..|s| - 1] + [s[|s| - 1]];
      OnceIsOnce(s[..|s| - 1], x);
      assert x in multiset(s[..|s| - 1]) <==> x in s[..|s| - 1];
    }
  }

  lemma TwiceIsTwice<T>(s: seq<T>, i: nat, j: nat)
    requires i < j < |s| && s[i] == s[j]
    ensures multiset(s)[s[i]] >= 2
  {
    assert s == s[..j] + s[j..];
    assert s[i] in s[..j] && s[j] in s[j..];
  }

  /** Sorting what is once each leaves it once each. */
  lemma SortKeepsOnce<T(!new)>(s: seq<T>, le: (T, T) -> bool)
    requires IsOrder(le) && IsOnceEach(s)
    ensures IsOnceEach(Sort(s, le)) && forall x :: x in Sort(s, le) <==> x in s
  {
    SortSorts(s, le);
    var sorted := Sort(s, le);
    forall i, j | 0 <= i < j < |sorted| ensures sorted[i] != sorted[j] {
      if sorted[i] == sorted[j] {
        TwiceIsTwice(sorted, i, j);
        OnceIsOnce(s, sorted[i]);
      }
    }
    forall x ensures x in sorted <==> x in s {
      assert x in sorted <==> x in multiset(sorted);
      assert x in s <==> x in multiset(s);
    }
  }
}
