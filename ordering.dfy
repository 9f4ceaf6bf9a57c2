/**
 * `ORDER BY` over a set of rows: each row has a sort key, a sequence of
 * integers compared lexicographically, and the rows are listed from the
 * least key up. Keys are distinct, as they are when the row id is the last
 * key component.
 */
module Ordering {

  /** Lexicographic order on integer sequences; a proper prefix comes first. */
  predicate LexLess(a: seq<int>, b: seq<int>)
  {
    |b| > 0 && (|a| == 0 || a[0] < b[0] || (a[0] == b[0] && LexLess(a[1..], b[1..])))
  }

  lemma {:induction false} LexIrreflexive(a: seq<int>)
    ensures !LexLess(a, a)
  {
    if |a| > 0 {
      LexIrreflexive(a[1..]);
    }
  }

  lemma {:induction false} LexTransitive(a: seq<int>, b: seq<int>, c: seq<int>)
    requires LexLess(a, b) && LexLess(b, c)
    ensures LexLess(a, c)
  {
    if |a| > 0 && a[0] == b[0] && b[0] == c[0] {
      LexTransitive(a[1..], b[1..], c[1..]);
    }
  }

  lemma {:induction false} LexTotal(a: seq<int>, b: seq<int>)
    requires a != b
    ensures LexLess(a, b) || LexLess(b, a)
  {
    if |a| > 0 && |b| > 0 && a[0] == b[0] {
      assert a == [a[0]] + a[1..] && b == [b[0]] + b[1..];
      LexTotal(a[1..], b[1..]);
    }
  }

  lemma {:induction false} LexAsymmetric(a: seq<int>, b: seq<int>)
    requires LexLess(a, b)
    ensures !LexLess(b, a)
  {
    if |a| > 0 && a[0] == b[0] {
      LexAsymmetric(a[1..], b[1..]);
    }
  }

  /** Distinct rows have distinct keys. */
  ghost predicate KeyInjective<T>(s: set<T>, key: T -> seq<int>)
  {
    forall x, y :: x in s && y in s && key(x) == key(y) ==> x == y
  }

  /** `m` is the row of `s` with the least key. */
  predicate IsLeast<T>(m: T, s: set<T>, key: T -> seq<int>)
  {
    m in s && forall x :: x in s && x != m ==> LexLess(key(m), key(x))
  }

  lemma {:induction false} LeastExists<T>(s: set<T>, key: T -> seq<int>)
    requires s != {} && KeyInjective(s, key)
    ensures exists m :: IsLeast(m, s, key)
    decreases |s|
  {
    var x :| x in s;
    var rest := s - {x};
    if rest == {} {
      assert s == {x};
      assert IsLeast(x, s, key);
    } else {
      LeastExists(rest, key);
      var y :| IsLeast(y, rest, key);
      if LexLess(key(x), key(y)) {
        forall z | z in s && z != x
          ensures LexLess(key(x), key(z))
        {
          if z != y {
            LexTransitive(key(x), key(y), key(z));
          }
        }
        assert IsLeast(x, s, key);
      } else {
        LexTotal(key(x), key(y));
        assert IsLeast(y, s, key);
      }
    }
  }

  lemma LeastUnique<T>(s: set<T>, key: T -> seq<int>)
    ensures forall m1, m2 :: IsLeast(m1, s, key) && IsLeast(m2, s, key) ==> m1 == m2
  {
    forall m1, m2 | IsLeast(m1, s, key) && IsLeast(m2, s, key)
      ensures m1 == m2
    {
      if m1 != m2 {
        LexAsymmetric(key(m1), key(m2));
      }
    }
  }

  /** Keys strictly increase along `r`. */
  predicate Ascending<T>(r: seq<T>, key: T -> seq<int>)
  {
    forall i, j :: 0 <= i < j < |r| ==> LexLess(key(r[i]), key(r[j]))
  }

  /** The rows of `s` listed by ascending key: each row exactly once. */
  function SortedBy<T(==,!new)>(s: set<T>, key: T -> seq<int>): (r: seq<T>)
    requires KeyInjective(s, key)
    ensures |r| == |s|
    ensures forall x :: x in r <==> x in s
    ensures forall i :: 0 <= i < |r| ==> r[i] in s
    ensures Ascending(r, key)
    decreases |s|
  {
    if s == {} then []
    else
      LeastExists(s, key);
      LeastUnique(s, key);
      var m :| IsLeast(m, s, key);
      var rest := SortedBy(s - {m}, key);
      PrependLeast(m, s, rest, key);
      [m] + rest
  }

  lemma PrependLeast<T>(m: T, s: set<T>, rest: seq<T>, key: T -> seq<int>)
    requires IsLeast(m, s, key)
    requires |rest| == |s - {m}|
    requires forall x :: x in rest <==> x in s - {m}
    requires Ascending(rest, key)
    ensures |[m] + rest| == |s|
    ensures forall x :: x in [m] + rest <==> x in s
    ensures Ascending([m] + rest, key)
  {
    var r := [m] + rest;
    forall i, j | 0 <= i < j < |r|
      ensures LexLess(key(r[i]), key(r[j]))
    {
      if i == 0 {
        assert r[j] == rest[j - 1] && rest[j - 1] in s - {m};
      } else {
        assert r[i] == rest[i - 1] && r[j] == rest[j - 1];
      }
    }
  }

  /** Ascending keys never repeat, so neither do the rows. */
  lemma SortedDistinct<T>(r: seq<T>, key: T -> seq<int>, i: int, j: int)
    requires Ascending(r, key)
    requires 0 <= i < j < |r|
    ensures r[i] != r[j]
  {
    LexIrreflexive(key(r[i]));
  }
}
