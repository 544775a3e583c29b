/** Sequence operations that the engine's queries are built from: a table
    query is a filter, an ORDER BY over the row id is the storage order or
    its reverse, and a LIMIT is a prefix. */
module Seqs {

  /** The elements of `s` that satisfy `p`, in their original order. */
  function Filter<T(!new)>(s: seq<T>, p: T -> bool): (r: seq<T>)
    ensures |r| <= |s|
    ensures forall x :: x in r <==> x in s && p(x)
  {
    if s == [] then [] else (if p(s[0]) then [s[0]] else []) + Filter(s[1..], p)
  }

  /** Filtering distributes over concatenation. */
  lemma {:induction false} FilterAppend<T(!new)>(s: seq<T>, t: seq<T>, p: T -> bool)
    ensures Filter(s + t, p) == Filter(s, p) + Filter(t, p)
  {
    if s == [] {
      assert s + t == t;
    } else {
      assert (s + t)[1..] == s[1..] + t;
      FilterAppend(s[1..], t, p);
    }
  }

  /** Nothing passes a filter that no element satisfies. */
  lemma {:induction false} FilterNone<T(!new)>(s: seq<T>, p: T -> bool)
    requires forall x :: x in s ==> !p(x)
    ensures Filter(s, p) == []
  {
    if s != [] {
      assert s[0] in s;
      assert forall x :: x in s[1..] ==> x in s;
      FilterNone(s[1..], p);
    }
  }

  /** Filtering keeps the relative order: every element of the result comes
      from a position of `s`, positions increasing. */
  lemma {:induction false} FilterIsSubsequence<T(!new)>(s: seq<T>, p: T -> bool, key: T -> int)
    requires StrictlyIncreasing(s, key)
    ensures StrictlyIncreasing(Filter(s, p), key)
  {
    if s != [] {
      FilterIsSubsequence(s[1..], p, key);
      var rest := Filter(s[1..], p);
      forall x | x in rest ensures key(s[0]) < key(x) {
        var j :| 0 <= j < |s[1..]| && s[1..][j] == x;
        assert s[j + 1] == x;
      }
    }
  }

  /** Keys strictly increase along `s`. */
  ghost predicate StrictlyIncreasing<T>(s: seq<T>, key: T -> int) {
    forall i, j :: 0 <= i < j < |s| ==> key(s[i]) < key(s[j])
  }

  /** Elements with strictly increasing keys are as many as the set of them. */
  lemma {:induction false} DistinctCardinality<T>(s: seq<T>, key: T -> int)
    requires StrictlyIncreasing(s, key)
    ensures |set x | x in s| == |s|
  {
    if s != [] {
      var t := s[1..];
      assert StrictlyIncreasing(t, key) by {
        forall i, j | 0 <= i < j < |t| ensures key(t[i]) < key(t[j]) {
          assert t[i] == s[i + 1] && t[j] == s[j + 1];
        }
      }
      DistinctCardinality(t, key);
      assert s[0] !in t by {
        forall j | 0 <= j < |t| ensures t[j] != s[0] {
          assert t[j] == s[j + 1];
        }
      }
      assert (set x | x in s) == (set x | x in t) + {s[0]} by {
        assert s == [s[0]] + t;
      }
    }
  }

  /** Under strictly increasing keys, the last element that passes a filter
      has the largest key of all the elements that pass it. */
  lemma FilterLastIsMax<T(!new)>(s: seq<T>, p: T -> bool, key: T -> int)
    requires StrictlyIncreasing(s, key) && Filter(s, p) != []
    ensures var f := Filter(s, p);
      && f[|f| - 1] in s && p(f[|f| - 1])
      && forall x :: x in s && p(x) ==> key(x) <= key(f[|f| - 1])
  {
    var f := Filter(s, p);
    FilterIsSubsequence(s, p, key);
    assert f[|f| - 1] in f;
    forall x | x in s && p(x) ensures key(x) <= key(f[|f| - 1]) {
      var j :| 0 <= j < |f| && f[j] == x;
    }
  }

  /** `s` in reverse order. */
  function Reverse<T>(s: seq<T>): (r: seq<T>)
    ensures |r| == |s|
    ensures forall i :: 0 <= i < |s| ==> r[i] == s[|s| - 1 - i]
  {
    if s == [] then [] else Reverse(s[1..]) + [s[0]]
  }

  /** The first `n` elements of `s` (all of them when `s` is shorter): an SQL LIMIT. */
  function Take<T>(s: seq<T>, n: nat): (r: seq<T>)
    ensures |r| == if |s| <= n then |s| else n
    ensures r == s[..|r|]
  {
    if |s| <= n then s else s[..n]
  }

  /** Of a sequence with increasing keys, the first `n` of its reverse are
      in decreasing key order, and every element left out has a smaller key
      than all of them. */
  lemma NewestPrefix<T>(s: seq<T>, n: nat, key: T -> int)
    requires StrictlyIncreasing(s, key)
    ensures forall i, j :: 0 <= i < j < |Take(Reverse(s), n)| ==>
      key(Take(Reverse(s), n)[i]) > key(Take(Reverse(s), n)[j])
    ensures forall x, y :: x in s && x !in Take(Reverse(s), n) && y in Take(Reverse(s), n) ==> key(x) < key(y)
  {
    var rev := Reverse(s);
    var out := Take(rev, n);
    assert out == rev[..|out|];
    forall i, j | 0 <= i < j < |out| ensures key(out[i]) > key(out[j]) {
      assert out[i] == s[|s| - 1 - i] && out[j] == s[|s| - 1 - j];
    }
    forall x, y | x in s && x !in out && y in out ensures key(x) < key(y) {
      var a :| 0 <= a < |s| && s[a] == x;
      var b :| 0 <= b < |out| && out[b] == y;
      assert rev[|s| - 1 - a] == x;
      assert |s| - 1 - a >= |out|;
      assert y == s[|s| - 1 - b];
    }
  }

  /** `n` copies of `x`. */
  function Repeat<T>(x: T, n: nat): (r: seq<T>)
    ensures |r| == n && forall i :: 0 <= i < n ==> r[i] == x
  {
    seq(n, _ => x)
  }

  /** `f` applied to every element of `s`. */
  function Map<T, U>(s: seq<T>, f: T -> U): (r: seq<U>)
    ensures |r| == |s| && forall i :: 0 <= i < |s| ==> r[i] == f(s[i])
  {
    seq(|s|, i requires 0 <= i < |s| => f(s[i]))
  }

  /** Mapping one more element appends its image. */
  lemma MapSnoc<T, U>(s: seq<T>, x: T, f: T -> U)
    ensures Map(s + [x], f) == Map(s, f) + [f(x)]
  {
  }

  function Min(a: int, b: int): int { if a <= b then a else b }
}
