/** Values and finite-set facts shared by the other modules. */
module Common {

  datatype Option<+T> = None | Some(value: T)

  datatype Result<+T, +E> = Ok(value: T) | Err(error: E)

  function Min(a: int, b: int): int {
    if a < b then a else b
  }

  function Max(a: int, b: int): int {
    if a < b then b else a
  }

  /** A set that maps injectively into `0..n` has at most `n` elements. */
  lemma {:induction false} InjectionBound<T>(s: set<T>, f: T -> int, n: nat)
    requires forall x :: x in s ==> 0 <= f(x) < n
    requires forall x, y :: x in s && y in s && f(x) == f(y) ==> x == y
    ensures |s| <= n
    decreases n
  {
    if s != {} {
      assert n > 0 by {
        var x :| x in s;
        assert 0 <= f(x) < n;
      }
      if x :| x in s && f(x) == n - 1 {
        InjectionBound(s - {x}, f, n - 1);
      } else {
        InjectionBound(s, f, n - 1);
      }
    }
  }

  /** An image is no larger than the set it comes from. */
  lemma {:induction false} ImageBound<S, T>(source: set<S>, image: set<T>, f: S -> T)
    requires forall y :: y in image ==> exists x :: x in source && f(x) == y
    ensures |image| <= |source|
    decreases |source|
  {
    if image != {} {
      var y :| y in image;
      var x :| x in source && f(x) == y;
      forall z | z in image - {y}
        ensures exists w :: w in source - {x} && f(w) == z
      {
        var w :| w in source && f(w) == z;
        assert w in source - {x} && f(w) == z;
      }
      ImageBound(source - {x}, image - {y}, f);
    }
  }

  /** The integers `lo..hi`, as a set. */
  function Range(lo: int, hi: int): (s: set<int>)
    requires lo <= hi
    ensures |s| == hi - lo
    ensures forall i :: i in s <==> lo <= i < hi
    decreases hi - lo
  {
    if lo == hi then {} else Range(lo, hi - 1) + {hi - 1}
  }

  /** Without the last occurrence of `x`. */
  function Remove<T(==)>(s: seq<T>, x: T): seq<T> {
    if s == [] then []
    else if s[|s| - 1] == x then s[..|s| - 1]
    else Remove(s[..|s| - 1], x) + [s[|s| - 1]]
  }

  lemma {:induction false} RemoveKeepsUnique<T>(s: seq<T>, x: T)
    requires forall i, j :: 0 <= i < j < |s| ==> s[i] != s[j]
    ensures
      var r := Remove(s, x);
      && (forall i, j :: 0 <= i < j < |r| ==> r[i] != r[j])
      && (forall y :: y in r <==> y in s && y != x)
  {
    if s != [] {
      var n := |s| - 1;
      assert s == s[..n] + [s[n]];
      RemoveKeepsUnique(s[..n], x);
      assert s[n] !in s[..n];
    }
  }

  /** The unfinished work after one piece of it is done and possibly leaves another. */
  function Proceed<T>(tasks: multiset<T>, done: T, next: Option<T>): multiset<T> {
    var rest := tasks - multiset{done};
    if next.Some? then rest + multiset{next.value} else rest
  }

  lemma ProceedCounts<T>(tasks: multiset<T>, done: T, next: Option<T>, t: T)
    requires done in tasks
    ensures Proceed(tasks, done, next)[t] ==
            tasks[t] - (if t == done then 1 else 0) + (if next == Some(t) then 1 else 0)
  {
  }

  lemma SeparatorComesFirst(a: string, b: string, separator: char)
    requires separator !in a
    ensures
      var joined := a + [separator] + b;
      && joined[|a|] == separator && forall k :: 0 <= k < |a| ==> joined[k] != separator
  {
    var joined := a + [separator] + b;
    forall k | 0 <= k < |a|
      ensures joined[k] != separator
    {
      assert joined[k] == a[k] && a[k] in a;
    }
  }

  /** Two parts joined by a separator that occurs in neither first part can be told apart again. */
  lemma SeparatorSplits(a: string, b: string, c: string, d: string, separator: char)
    requires separator !in a && separator !in c
    requires a + [separator] + b == c + [separator] + d
    ensures a == c && b == d
  {
    var left, right := a + [separator] + b, c + [separator] + d;
    SeparatorComesFirst(a, b, separator);
    SeparatorComesFirst(c, d, separator);
    assert |a| == |c|;
    assert left[..|a|] == a && right[..|a|] == c;
    assert left[|a| + 1..] == b && right[|a| + 1..] == d;
  }
}
