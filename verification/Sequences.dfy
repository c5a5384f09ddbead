/**
 Members, repetitions and permutations of sequences.
 */
module Sequences {
  /** The first naturals. */
  ghost function Below(n: nat): (r: set<nat>)
    ensures |r| == n && forall i :: i in r <==> 0 <= i < n
  {
    if n == 0 then {} else Below(n - 1) + {n - 1}
  }

  lemma RepeatedCount<T>(s: seq<T>, i: nat, j: nat)
    requires i < j < |s| && s[i] == s[j]
    ensures multiset(s)[s[i]] >= 2
  {
    assert s == s[..j] + s[j..];
    assert s[i] in s[..j] && s[j] in s[j..];
  }

  lemma {:induction false} CountedTwice<T>(s: seq<T>, x: T) returns (i: nat, j: nat)
    requires multiset(s)[x] >= 2
    ensures i < j < |s| && s[i] == x && s[j] == x
  {
    assert s == [s[0]] + s[1..];
    if s[0] == x {
      assert multiset(s[1..])[x] >= 1;
      var k :| 0 <= k < |s[1..]| && s[1..][k] == x;
      i, j := 0, k + 1;
    } else {
      i, j := CountedTwice(s[1..], x);
      i, j := i + 1, j + 1;
    }
  }

  /** What one order repeats, every order repeats. */
  lemma RepeatedBoth<T>(a: seq<T>, b: seq<T>, i: nat, j: nat) returns (k: nat, l: nat)
    requires multiset(a) == multiset(b) && i < j < |b| && b[i] == b[j]
    ensures k < l < |a| && a[k] == b[i] && a[l] == b[i]
  {
    RepeatedCount(b, i, j);
    k, l := CountedTwice(a, b[i]);
  }

  function Mapped<A, B>(f: A -> B, s: seq<A>): (r: seq<B>)
    ensures |r| == |s|
  {
    if s == [] then [] else [f(s[0])] + Mapped(f, s[1..])
  }

  lemma {:induction false} MappedAt<A, B>(f: A -> B, s: seq<A>, i: nat)
    requires i < |s|
    ensures Mapped(f, s)[i] == f(s[i])
  {
    if i > 0 { MappedAt(f, s[1..], i - 1); }
  }

  lemma OneOut<T>(s: seq<T>, k: nat)
    requires k < |s|
    ensures multiset(s) == multiset(s[..k] + s[k + 1..]) + multiset{s[k]}
  {
    assert s == s[..k] + [s[k]] + s[k + 1..];
  }

  lemma SameRest<T>(s: seq<T>, t: seq<T>, k: nat)
    requires s != [] && k < |t| && t[k] == s[0] && multiset(s) == multiset(t)
    ensures multiset(s[..0] + s[1..]) == multiset(t[..k] + t[k + 1..])
  {
    OneOut(s, 0);
    OneOut(t, k);
    var a, b := multiset(s[..0] + s[1..]), multiset(t[..k] + t[k + 1..]);
    assert a == multiset(s) - multiset{s[0]} && b == multiset(t) - multiset{s[0]};
  }

  lemma PlaceOf<T>(s: seq<T>, t: seq<T>) returns (k: nat)
    requires s != [] && multiset(s) == multiset(t)
    ensures k < |t| && t[k] == s[0]
  {
    assert s[0] in multiset(s);
    k :| k < |t| && t[k] == s[0];
  }

  /** The image of a permutation is a permutation of the image. */
  lemma {:induction false} MappedPermutes<A, B>(f: A -> B, s: seq<A>, t: seq<A>)
    requires multiset(s) == multiset(t)
    ensures multiset(Mapped(f, s)) == multiset(Mapped(f, t))
    decreases |s|
  {
    hide Mapped;
    if s == [] {
      assert |multiset(t)| == 0;
    } else {
      var k := PlaceOf(s, t);
      SameRest(s, t, k);
      MappedRest(f, s, 0);
      MappedRest(f, t, k);
      var rest, others := s[..0] + s[1..], t[..k] + t[k + 1..];
      assert multiset(Mapped(f, rest)) == multiset(Mapped(f, others)) by { MappedPermutes(f, rest, others); }
    }
  }

  lemma {:induction false} MappedConcat<A, B>(f: A -> B, s: seq<A>, t: seq<A>)
    ensures Mapped(f, s + t) == Mapped(f, s) + Mapped(f, t)
  {
    if s == [] {
      assert s + t == t;
    } else {
      MappedConcat(f, s[1..], t);
      assert (s + t)[1..] == s[1..] + t;
    }
  }

  lemma MappedRest<A, B>(f: A -> B, s: seq<A>, k: nat)
    requires k < |s|
    ensures multiset(Mapped(f, s)) == multiset(Mapped(f, s[..k] + s[k + 1..])) + multiset{f(s[k])}
  {
    MappedOne(f, s[k]);
    hide Mapped;
    assert s == s[..k] + ([s[k]] + s[k + 1..]);
    MappedConcat(f, s[..k], [s[k]] + s[k + 1..]);
    MappedConcat(f, [s[k]], s[k + 1..]);
    MappedConcat(f, s[..k], s[k + 1..]);
    OneAmong(Mapped(f, s[..k]), f(s[k]), Mapped(f, s[k + 1..]));
  }

  lemma OneAmong<T>(s: seq<T>, x: T, t: seq<T>)
    ensures multiset(s + ([x] + t)) == multiset(s + t) + multiset{x}
  {
  }

  lemma MappedOne<A, B>(f: A -> B, x: A)
    ensures Mapped(f, [x]) == [f(x)]
  {
  }

  lemma {:induction false} DistinctCount<T>(s: seq<T>, x: T)
    requires forall i, j :: 0 <= i < j < |s| ==> s[i] != s[j]
    ensures multiset(s)[x] == if x in s then 1 else 0
  {
    if s != [] {
      assert s == [s[0]] + s[1..];
      DistinctCount(s[1..], x);
    }
  }
}
