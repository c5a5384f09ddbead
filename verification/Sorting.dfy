/**
 A stable sort by any comparison, and what it guarantees when the comparison is an order.
 */
module Sorting {
  /** On the given elements, `less` never holds both ways and its negation is transitive. */
  ghost predicate Orders<T(!new)>(less: (T, T) -> bool, s: seq<T>) {
    && (forall x, y :: x in s && y in s ==> !(less(x, y) && less(y, x)))
    && (forall x, y, z :: x in s && y in s && z in s && !less(y, x) && !less(z, y) ==> !less(z, x))
  }

  ghost predicate InOrder<T>(less: (T, T) -> bool, s: seq<T>) {
    forall i, j :: 0 <= i < j < |s| ==> !less(s[j], s[i])
  }

  function Insert<T>(less: (T, T) -> bool, x: T, s: seq<T>): seq<T> {
    if s == [] then [x]
    else if less(s[0], x) then [s[0]] + Insert(less, x, s[1..])
    else [x] + s
  }

  /** A stable sort. */
  function Sort<T>(less: (T, T) -> bool, s: seq<T>): seq<T> {
    if s == [] then [] else Insert(less, s[0], Sort(less, s[1..]))
  }

  lemma {:induction false} InsertMembers<T>(less: (T, T) -> bool, x: T, s: seq<T>)
    ensures multiset(Insert(less, x, s)) == multiset(s) + multiset{x}
    ensures forall y :: y in Insert(less, x, s) <==> y == x || y in s
  {
    if s != [] {
      assert s == [s[0]] + s[1..];
      InsertMembers(less, x, s[1..]);
    }
  }

  lemma {:induction false} InsertInOrder<T(!new)>(less: (T, T) -> bool, x: T, s: seq<T>)
    requires InOrder(less, s) && Orders(less, [x] + s)
    ensures InOrder(less, Insert(less, x, s))
  {
    assert forall y :: y in [x] + s <==> y == x || y in s;
    if s != [] {
      if less(s[0], x) {
        InsertInOrder(less, x, s[1..]);
        InsertMembers(less, x, s[1..]);
        var rest := Insert(less, x, s[1..]);
        forall j | 0 <= j < |rest|
          ensures !less(rest[j], s[0])
        {
          assert rest[j] in rest;
        }
      } else {
        forall j | 0 <= j < |s|
          ensures !less(s[j], x)
        {
          assert s[j] in s && (j > 0 ==> !less(s[j], s[0]));
        }
      }
    }
  }

  lemma {:induction false} SortMembers<T>(less: (T, T) -> bool, s: seq<T>)
    ensures multiset(Sort(less, s)) == multiset(s)
    ensures forall y :: y in Sort(less, s) <==> y in s
  {
    if s != [] {
      assert s == [s[0]] + s[1..];
      SortMembers(less, s[1..]);
      InsertMembers(less, s[0], Sort(less, s[1..]));
    }
  }

  lemma {:induction false} SortInOrder<T(!new)>(less: (T, T) -> bool, s: seq<T>)
    requires Orders(less, s)
    ensures InOrder(less, Sort(less, s))
  {
    if s != [] {
      assert s == [s[0]] + s[1..];
      SortInOrder(less, s[1..]);
      SortMembers(less, s[1..]);
      assert forall y :: y in [s[0]] + Sort(less, s[1..]) ==> y in s;
      InsertInOrder(less, s[0], Sort(less, s[1..]));
    }
  }
}
