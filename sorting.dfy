/**
 * Array.prototype.sort with a comparator, as the pages use it. The language
 * guarantees a stable sort, so for a comparator that is a total preorder the
 * result is the unique stable ordering; it is modelled here as a stable
 * insertion sort over a "goes no later than" relation `le`.
 */
module Sorting {

  /** Insert x in front of the first element it goes no later than. */
  function Insert<T>(x: T, s: seq<T>, le: (T, T) -> bool): (r: seq<T>)
    ensures |r| == |s| + 1
    ensures multiset(r) == multiset(s) + multiset{x}
  {
    if |s| == 0 then [x]
    else if le(x, s[0]) then [x] + s
    else
      assert s == [s[0]] + s[1..];
      [s[0]] + Insert(x, s[1..], le)
  }

  function SortBy<T>(s: seq<T>, le: (T, T) -> bool): (r: seq<T>)
    ensures |r| == |s|
    ensures multiset(r) == multiset(s)
  {
    if |s| == 0 then []
    else
      assert s == [s[0]] + s[1..];
      Insert(s[0], SortBy(s[1..], le), le)
  }

  ghost predicate TotalOn<T>(s: seq<T>, le: (T, T) -> bool) {
    forall a, b :: a in s && b in s ==> le(a, b) || le(b, a)
  }

  ghost predicate TransitiveOn<T>(s: seq<T>, le: (T, T) -> bool) {
    forall a, b, c :: a in s && b in s && c in s && le(a, b) && le(b, c) ==> le(a, c)
  }

  ghost predicate SortedBy<T>(s: seq<T>, le: (T, T) -> bool) {
    forall i, j :: 0 <= i < j < |s| ==> le(s[i], s[j])
  }

  lemma {:induction false} InsertSorted<T>(x: T, s: seq<T>, le: (T, T) -> bool)
    requires SortedBy(s, le)
    requires TotalOn([x] + s, le) && TransitiveOn([x] + s, le)
    ensures SortedBy(Insert(x, s, le), le)
  {
    if |s| > 0 && !le(x, s[0]) {
      var t := s[1..];
      assert forall y :: y in [x] + t ==> y in [x] + s;
      InsertSorted(x, t, le);
      var r := Insert(x, t, le);
      assert le(s[0], x);
      forall k | 0 <= k < |r| ensures le(s[0], r[k]) {
        assert r[k] in multiset(r);
        assert r[k] == x || r[k] in t;
      }
    }
  }

  lemma {:induction false} SortBySorted<T>(s: seq<T>, le: (T, T) -> bool)
    requires TotalOn(s, le) && TransitiveOn(s, le)
    ensures SortedBy(SortBy(s, le), le)
  {
    if |s| > 0 {
      var t := s[1..];
      assert forall y :: y in t ==> y in s;
      SortBySorted(t, le);
      var r := SortBy(t, le);
      forall y | y in [s[0]] + r ensures y in s {
        assert y == s[0] || y in multiset(r);
      }
      InsertSorted(s[0], r, le);
    }
  }

  /** The first element of the sorted sequence goes no later than any element. */
  lemma SortByHead<T>(s: seq<T>, le: (T, T) -> bool)
    requires |s| > 0 && TotalOn(s, le) && TransitiveOn(s, le)
    ensures SortBy(s, le)[0] in s
    ensures forall y :: y in s ==> le(SortBy(s, le)[0], y) || SortBy(s, le)[0] == y
  {
    var r := SortBy(s, le);
    SortBySorted(s, le);
    assert r[0] in multiset(s);
    forall y | y in s ensures le(r[0], y) || r[0] == y {
      assert y in multiset(r);
      var k :| 0 <= k < |r| && r[k] == y;
    }
  }

  lemma SortBySameElements<T>(s: seq<T>, le: (T, T) -> bool)
    ensures forall x :: x in SortBy(s, le) <==> x in s
  {
    var r := SortBy(s, le);
    forall x ensures x in r <==> x in s {
      assert x in r <==> x in multiset(r);
      assert x in s <==> x in multiset(s);
    }
  }

  /** The elements of s that the order ranks equal to a, in their order in s. */
  function Ties<T>(s: seq<T>, le: (T, T) -> bool, a: T): (r: seq<T>)
    ensures |r| <= |s|
    ensures forall x :: x in r ==> x in s && le(x, a) && le(a, x)
  {
    if |s| == 0 then []
    else (if le(s[0], a) && le(a, s[0]) then [s[0]] else []) + Ties(s[1..], le, a)
  }

  /** Inserting x passes over no element that ranks equal to it. */
  lemma {:induction false} InsertTies<T>(x: T, s: seq<T>, le: (T, T) -> bool, a: T)
    requires TransitiveOn([a, x] + s, le)
    ensures Ties(Insert(x, s, le), le, a) == Ties([x] + s, le, a)
  {
    if |s| > 0 && !le(x, s[0]) {
      var t := s[1..];
      assert forall y :: y in [a, x] + t ==> y in [a, x] + s;
      InsertTies(x, t, le, a);
      assert ([s[0]] + Insert(x, t, le))[1..] == Insert(x, t, le);
      assert ([x] + t)[1..] == t;
      assert ([x] + s)[1..] == s;
      assert s[0] in [a, x] + s;
    }
  }

  /** The sort is stable: the elements that rank equal to any a keep their
      relative order. */
  lemma {:induction false} SortByStable<T>(s: seq<T>, le: (T, T) -> bool, a: T)
    requires TransitiveOn([a] + s, le)
    ensures Ties(SortBy(s, le), le, a) == Ties(s, le, a)
  {
    if |s| > 0 {
      var t := s[1..];
      assert forall y :: y in [a] + t ==> y in [a] + s;
      SortByStable(t, le, a);
      var r := SortBy(t, le);
      forall y | y in [a, s[0]] + r ensures y in [a] + s {
        assert y == a || y == s[0] || y in multiset(r);
      }
      InsertTies(s[0], r, le, a);
      assert ([s[0]] + r)[1..] == r;
    }
  }

  /** x goes no later than any element of s. */
  ghost predicate Least<T>(s: seq<T>, le: (T, T) -> bool, x: T) {
    forall y :: y in s ==> le(x, y)
  }

  /** s[k] is the first element of s that goes no later than every element. */
  ghost predicate FirstLeast<T>(s: seq<T>, le: (T, T) -> bool, k: int) {
    0 <= k < |s| && Least(s, le, s[k]) && forall j :: 0 <= j < k ==> !Least(s, le, s[j])
  }

  /** The sorted sequence begins with the first element of s that goes no later
      than every element of s. */
  lemma {:induction false} SortByFirstBest<T>(s: seq<T>, le: (T, T) -> bool)
    requires |s| > 0 && TotalOn(s, le) && TransitiveOn(s, le)
    ensures exists k :: FirstLeast(s, le, k) && SortBy(s, le)[0] == s[k]
  {
    var t := s[1..];
    var r := SortBy(t, le);
    assert SortBy(s, le) == Insert(s[0], r, le);
    assert forall y :: y in s <==> y == s[0] || y in t;
    if Least(s, le, s[0]) {
      if |r| > 0 {
        SortBySameElements(t, le);
        assert r[0] in t;
      }
      assert SortBy(s, le)[0] == s[0] && FirstLeast(s, le, 0);
    } else {
      SortByFirstBest(t, le);
      var k' :| FirstLeast(t, le, k') && r[0] == t[k'];
      LaterBest(s, le, t[k']);
      assert SortBy(s, le)[0] == s[k' + 1];
      forall j | 0 <= j < k' + 1 ensures !Least(s, le, s[j]) {
        if j > 0 {
          assert s[j] == t[j - 1];
          assert !Least(t, le, t[j - 1]);
        }
      }
      assert FirstLeast(s, le, k' + 1);
    }
  }

  /** When s[0] is not least, an element least among the rest is least in s
      and is inserted ahead of s[0]. */
  lemma LaterBest<T>(s: seq<T>, le: (T, T) -> bool, h: T)
    requires |s| > 0 && TotalOn(s, le) && TransitiveOn(s, le)
    requires !Least(s, le, s[0]) && h in s[1..] && Least(s[1..], le, h)
    ensures Least(s, le, h) && !le(s[0], h)
  {
    var t := s[1..];
    assert forall y :: y in s <==> y == s[0] || y in t;
    var z :| z in s && !le(s[0], z);
    assert le(z, s[0]);
    assert z in t;
    assert le(h, s[0]);
  }

  /** The first n of the sorted sequence are sorted, and each goes no later
      than any element of s left out of them. */
  lemma SortByTake<T>(s: seq<T>, le: (T, T) -> bool, n: nat)
    requires TotalOn(s, le) && TransitiveOn(s, le)
    ensures var t := Take(SortBy(s, le), n);
      && |t| == (if |s| < n then |s| else n)
      && SortedBy(t, le)
      && forall x, y :: x in t && y in s && y !in t ==> le(x, y)
  {
    var r := SortBy(s, le);
    SortBySorted(s, le);
    var t := Take(r, n);
    forall x, y | x in t && y in s && y !in t ensures le(x, y) {
      var i :| 0 <= i < |t| && t[i] == x;
      assert y in multiset(r);
      var j :| 0 <= j < |r| && r[j] == y;
      assert r[i] == x;
    }
  }

  /** Any prefix of the sorted sequence is sorted, is drawn from s, and each
      of its elements goes no later than any element of s left out of it. */
  lemma SortByPrefix<T>(s: seq<T>, le: (T, T) -> bool, m: nat)
    requires m <= |s| && TotalOn(s, le) && TransitiveOn(s, le)
    ensures var t := SortBy(s, le)[..m];
      && SortedBy(t, le)
      && multiset(t) <= multiset(s)
      && (forall x :: x in t ==> x in s)
      && forall x, y :: x in t && y in s && y !in t ==> le(x, y)
  {
    var r := SortBy(s, le);
    var t := r[..m];
    assert r == t + r[m..];
    assert Take(r, m) == t;
    SortByTake(s, le, m);
    forall x | x in t ensures x in s {
      assert x in multiset(t);
    }
  }

  /** Taking a prefix keeps a prefix of the ties. */
  lemma TiesTake<T>(s: seq<T>, le: (T, T) -> bool, a: T, n: nat)
    ensures Ties(Take(s, n), le, a) <= Ties(s, le, a)
  {
    TiesPrefix(s, le, a, |Take(s, n)|);
  }

  lemma {:induction false} TiesPrefix<T>(s: seq<T>, le: (T, T) -> bool, a: T, n: nat)
    requires n <= |s|
    ensures Ties(s[..n], le, a) <= Ties(s, le, a)
  {
    if n > 0 {
      TiesPrefix(s[1..], le, a, n - 1);
      assert s[..n][1..] == s[1..][..n - 1];
    }
  }

  /** slice(0, n) */
  function Take<T>(s: seq<T>, n: nat): (r: seq<T>)
    ensures |r| <= n && |r| <= |s|
    ensures |s| <= n ==> r == s
    ensures n <= |s| ==> |r| == n
    ensures r == s[..|r|]
    ensures forall x :: x in r ==> x in s
  {
    if |s| <= n then s else s[..n]
  }
}
