/** Optional values and the sequence vocabulary shared by the other modules. */
module Basics {

  datatype Option<+T> = None | Some(value: T)

  function Get<K(==), V>(m: map<K, V>, k: K): Option<V> {
    if k in m then Some(m[k]) else None
  }

  function Elements<T(==)>(s: seq<T>): set<T> {
    set x | x in s
  }

  /** The first n elements, or everything when there are fewer. */
  function Take<T>(s: seq<T>, n: nat): seq<T> {
    if n <= |s| then s[..n] else s
  }

  /** s with every occurrence of x dropped (`Vec::retain(|y| y != x)`). */
  function Without<T(==)>(s: seq<T>, x: T): seq<T> {
    if s == [] then []
    else
      var front := Without(s[..|s| - 1], x);
      if s[|s| - 1] == x then front else front + [s[|s| - 1]]
  }

  /** The elements of s in the order of their first occurrence. */
  function Distinct<T(==)>(s: seq<T>): seq<T> {
    if s == [] then []
    else
      var front := Distinct(s[..|s| - 1]);
      if s[|s| - 1] in front then front else front + [s[|s| - 1]]
  }

  ghost predicate NoDuplicates<T>(s: seq<T>) {
    forall i, j :: 0 <= i < j < |s| ==> s[i] != s[j]
  }

  lemma Pick<T>(s: set<T>) returns (x: T)
    requires s != {}
    ensures x in s
  {
    x :| x in s;
  }

  lemma Common<T>(a: set<T>, b: set<T>) returns (x: T)
    requires !(a !! b)
    ensures x in a && x in b
  {
    x :| x in a && x in b;
  }

  lemma Outside<T>(a: set<T>, b: set<T>) returns (x: T)
    requires !(a <= b)
    ensures x in a && x !in b
  {
    x :| x in a && x !in b;
  }

  lemma SubsetSize<T>(a: set<T>, b: set<T>)
    requires a <= b
    ensures |a| <= |b|
  {
    assert b == a + (b - a);
  }

  /** Two parts that together outnumber the whole share an element. */
  lemma MajoritiesMeet<T>(all: set<T>, a: set<T>, b: set<T>) returns (x: T)
    requires a <= all && b <= all && |a| + |b| > |all|
    ensures x in a && x in b
  {
    SubsetSize(a + b, all);
    assert |a + b| + |a * b| == |a| + |b|;
    x := Pick(a * b);
  }

  lemma ElementsSnoc<T>(s: seq<T>)
    requires s != []
    ensures s == s[..|s| - 1] + [s[|s| - 1]]
    ensures Elements(s) == Elements(s[..|s| - 1]) + {s[|s| - 1]}
  {
    assert s == s[..|s| - 1] + [s[|s| - 1]];
  }

  lemma ElementsConcat<T>(a: seq<T>, b: seq<T>)
    ensures Elements(a + b) == Elements(a) + Elements(b)
  {
  }

  lemma {:induction false} WithoutElements<T>(s: seq<T>, x: T)
    ensures Elements(Without(s, x)) == Elements(s) - {x}
    ensures |Without(s, x)| <= |s|
  {
    if s != [] {
      WithoutElements(s[..|s| - 1], x);
      ElementsSnoc(s);
      ElementsConcat(Without(s[..|s| - 1], x), [s[|s| - 1]]);
    }
  }

  lemma {:induction false} DistinctElements<T>(s: seq<T>)
    ensures Elements(Distinct(s)) == Elements(s)
    ensures NoDuplicates(Distinct(s))
    ensures |Distinct(s)| == |Elements(s)|
  {
    if s != [] {
      DistinctElements(s[..|s| - 1]);
      ElementsSnoc(s);
      assert s[|s| - 1] in Distinct(s[..|s| - 1]) <==> s[|s| - 1] in Elements(Distinct(s[..|s| - 1]));
    }
  }

  lemma {:induction false} WithoutNoDuplicates<T>(s: seq<T>, x: T)
    requires NoDuplicates(s)
    ensures NoDuplicates(Without(s, x))
  {
    if s != [] {
      WithoutNoDuplicates(s[..|s| - 1], x);
      WithoutElements(s[..|s| - 1], x);
      assert s[|s| - 1] !in Elements(Without(s[..|s| - 1], x));
    }
  }

  /** A list has no duplicates exactly when it is as long as its set of elements. */
  lemma {:induction false} NoDuplicatesIsCount<T>(s: seq<T>)
    ensures |Elements(s)| <= |s|
    ensures |Elements(s)| == |s| <==> NoDuplicates(s)
  {
    if s != [] {
      var front, last := s[..|s| - 1], s[|s| - 1];
      NoDuplicatesIsCount(front);
      ElementsSnoc(s);
      if last in front {
        assert Elements(s) == Elements(front);
        var i :| 0 <= i < |front| && front[i] == last;
        assert s[i] == s[|s| - 1];
      } else {
        assert |Elements(s)| == |Elements(front)| + 1;
        assert NoDuplicates(s) <==> NoDuplicates(front);
      }
    }
  }

  lemma {:induction false} WithoutConcat<T>(a: seq<T>, b: seq<T>, x: T)
    ensures Without(a + b, x) == Without(a, x) + Without(b, x)
  {
    if b == [] {
      assert a + b == a;
    } else {
      assert (a + b)[..|a + b| - 1] == a + b[..|b| - 1];
      WithoutConcat(a, b[..|b| - 1], x);
    }
  }

  lemma {:induction false} WithoutAbsent<T>(s: seq<T>, x: T)
    requires x !in s
    ensures Without(s, x) == s
  {
    if s != [] {
      ElementsSnoc(s);
      WithoutAbsent(s[..|s| - 1], x);
    }
  }

  lemma {:induction false} WithoutOnce<T>(s: seq<T>, x: T)
    requires NoDuplicates(s) && x in s
    ensures |Without(s, x)| == |s| - 1
  {
    ElementsSnoc(s);
    if s[|s| - 1] == x {
      WithoutAbsent(s[..|s| - 1], x);
    } else {
      WithoutOnce(s[..|s| - 1], x);
    }
  }

  /** One element dropped from a duplicate-free list shifts the rest up by one. */
  lemma TakeWithout<T>(d: seq<T>, x: T, n: nat)
    requires NoDuplicates(d)
    ensures Take(Without(d, x), n) == Take(Without(Take(d, n + 1), x), n)
  {
    if n + 1 < |d| {
      var a, b := d[..n + 1], d[n + 1..];
      assert d == a + b;
      WithoutConcat(a, b, x);
      if x in a {
        WithoutOnce(a, x);
      } else {
        WithoutAbsent(a, x);
      }
      assert (Without(a, x) + Without(b, x))[..n] == Without(a, x)[..n];
    } else {
      assert Take(d, n + 1) == d;
    }
  }

  lemma TakeWithoutLater<T>(d: seq<T>, x: T, n: nat)
    requires x !in Take(d, n)
    ensures Take(Without(Take(d, n + 1), x), n) == Take(d, n)
  {
    WithoutAbsent(Take(d, n), x);
    if n < |d| {
      assert Take(d, n + 1) == d[..n] + [d[n]];
      WithoutConcat(d[..n], [d[n]], x);
      assert (d[..n] + Without([d[n]], x))[..n] == d[..n];
    } else {
      assert Take(d, n + 1) == d == Take(d, n);
    }
  }

  /** Dropping an element and removing repetitions commute. */
  lemma {:induction false} DistinctWithout<T>(s: seq<T>, x: T)
    ensures Distinct(Without(s, x)) == Without(Distinct(s), x)
  {
    if s != [] {
      var front, last := s[..|s| - 1], s[|s| - 1];
      DistinctWithout(front, x);
      if last != x {
        assert (Without(front, x) + [last])[..|Without(front, x)|] == Without(front, x);
        WithoutElements(Distinct(front), x);
        assert last in Elements(Distinct(front)) - {x} <==> last in Distinct(front);
      }
      WithoutConcat(Distinct(front), [last], x);
      assert [last][..0] == [];
    }
  }

  /** Repeating elements that were already met changes nothing. */
  lemma {:induction false} DistinctAbsorbs<T>(a: seq<T>, b: seq<T>)
    requires Elements(b) <= Elements(a)
    ensures Distinct(a + b) == Distinct(a)
  {
    if b == [] {
      assert a + b == a;
    } else {
      assert (a + b)[..|a + b| - 1] == a + b[..|b| - 1];
      ElementsSnoc(b);
      DistinctAbsorbs(a, b[..|b| - 1]);
      DistinctElements(a);
      assert b[|b| - 1] in Elements(Distinct(a));
    }
  }

  lemma {:induction false} DistinctPrefix<T>(s: seq<T>, n: nat)
    requires n <= |s|
    ensures Distinct(s[..n]) <= Distinct(s)
  {
    if n < |s| {
      assert s[..|s| - 1][..n] == s[..n];
      DistinctPrefix(s[..|s| - 1], n);
    } else {
      assert s[..n] == s;
    }
  }

  /** Element j of Distinct(s) is where s first leaves the set of the j elements before it. */
  lemma {:induction false} DistinctOrder<T>(s: seq<T>, j: nat) returns (k: nat)
    requires j < |Distinct(s)|
    ensures k < |s| && s[k] == Distinct(s)[j]
    ensures Elements(s[..k]) == Elements(Distinct(s)[..j])
  {
    var front := s[..|s| - 1];
    if j < |Distinct(front)| {
      k := DistinctOrder(front, j);
      assert front[..k] == s[..k];
      assert Distinct(s)[..j] == Distinct(front)[..j];
    } else {
      k := |s| - 1;
      DistinctElements(front);
      assert Distinct(s)[..j] == Distinct(front);
    }
  }

  ghost predicate IsMax(m: int, s: set<int>) {
    m in s && forall x :: x in s ==> x <= m
  }

  lemma {:induction false} MaxExists(s: set<int>)
    requires s != {}
    ensures exists m :: IsMax(m, s)
  {
    var y := Pick(s);
    assert forall x :: x in s ==> x == y || x in s - {y};
    if s - {y} == {} {
      assert IsMax(y, s);
    } else {
      MaxExists(s - {y});
      var m :| IsMax(m, s - {y});
      assert IsMax(if m < y then y else m, s);
    }
  }

  function Max(s: set<int>): (m: int)
    requires s != {}
    ensures IsMax(m, s)
  {
    MaxExists(s);
    assert exists m :: m in s && forall x :: x in s ==> x <= m by {
      var m :| IsMax(m, s);
    }
    var m :| m in s && forall x :: x in s ==> x <= m;
    m
  }

  // ---------------------------------------------------------------- arithmetic

  lemma ProductGrows(m: nat, n: nat, d: nat)
    requires m <= n
    ensures m * d <= n * d
  {
  }

  lemma QuotientBound(n: nat, d: nat, length: nat)
    requires d > 0 && n * d <= length
    ensures n <= length / d
  {
    var q := length / d;
    assert length < (q + 1) * d;
    if q + 1 <= n {
      ProductGrows(q + 1, n, d);
    }
  }

  lemma QuotientUnique(a: nat, q: nat, r: nat, n: nat)
    requires r < n && a == q * n + r
    ensures a / n == q && a % n == r
  {
    var q', r' := a / n, a % n;
    assert a == q' * n + r';
    assert (q + 1) * n == q * n + n && (q' + 1) * n == q' * n + n;
    if q < q' {
      ProductGrows(q + 1, q', n);
    } else if q' < q {
      ProductGrows(q' + 1, q, n);
    }
  }

  /** Counting one further moves the remainder on, or starts the next round. */
  lemma NextRemainder(a: nat, n: nat)
    requires n > 0
    ensures a % n < n - 1 ==> (a + 1) / n == a / n && (a + 1) % n == a % n + 1
    ensures a % n == n - 1 ==> (a + 1) / n == a / n + 1 && (a + 1) % n == 0
  {
    var q, r := a / n, a % n;
    assert a == q * n + r;
    if r < n - 1 {
      QuotientUnique(a + 1, q, r + 1, n);
    } else {
      assert (q + 1) * n == q * n + n;
      QuotientUnique(a + 1, q + 1, 0, n);
    }
  }
}
