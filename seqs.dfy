/** Facts about sequences used by the list operations of the views:
    `Array.prototype.filter` with `!==`, `includes`, duplicates and order. */
module Seqs {
  import opened Wrappers

  /** No element occurs twice. */
  predicate NoDup<T(==)>(s: seq<T>) {
    forall i, j :: 0 <= i < j < |s| ==> s[i] != s[j]
  }

  /** `s.filter(x => x !== y)`: every occurrence of `y` removed, the rest in order. */
  function RemoveAll<T(==,!new)>(s: seq<T>, y: T): (r: seq<T>)
    ensures |r| <= |s|
    ensures forall x :: x in r <==> x in s && x != y
  {
    if s == [] then []
    else (if s[0] == y then [] else [s[0]]) + RemoveAll(s[1..], y)
  }

  /** Number of occurrences of `x` in `s`. */
  function Count<T(==)>(s: seq<T>, x: T): nat {
    if s == [] then 0 else (if s[0] == x then 1 else 0) + Count(s[1..], x)
  }

  /** `a` is obtained from `b` by deleting elements. */
  predicate IsSubsequence<T(==)>(a: seq<T>, b: seq<T>)
    decreases |b|
  {
    if a == [] then true
    else if b == [] then false
    else if a[0] == b[0] then IsSubsequence(a[1..], b[1..])
    else IsSubsequence(a, b[1..])
  }

  lemma {:induction false} SubsequenceElements<T>(a: seq<T>, b: seq<T>)
    requires IsSubsequence(a, b)
    ensures forall x :: x in a ==> x in b
    decreases |b|
  {
    if a != [] {
      if a[0] == b[0] {
        SubsequenceElements(a[1..], b[1..]);
        assert forall x :: x in a ==> x == a[0] || x in a[1..];
        assert forall x :: x in b[1..] ==> x in b;
      } else {
        SubsequenceElements(a, b[1..]);
        assert forall x :: x in b[1..] ==> x in b;
      }
    }
  }

  lemma {:induction false} RemoveAllNoDup<T(!new)>(s: seq<T>, y: T)
    requires NoDup(s)
    ensures NoDup(RemoveAll(s, y))
  {
    if s != [] {
      assert NoDup(s[1..]) by {
        forall i, j | 0 <= i < j < |s[1..]| ensures s[1..][i] != s[1..][j] {
          assert s[1..][i] == s[i + 1] && s[1..][j] == s[j + 1];
        }
      }
      RemoveAllNoDup(s[1..], y);
      var rest := RemoveAll(s[1..], y);
      assert s[0] !in s[1..];
      assert s[0] !in rest;
      if s[0] != y {
        var r := [s[0]] + rest;
        forall i, j | 0 <= i < j < |r| ensures r[i] != r[j] {
          if i == 0 {
            assert r[j] == rest[j - 1];
          } else {
            assert r[i] == rest[i - 1] && r[j] == rest[j - 1];
          }
        }
      }
    }
  }

  lemma {:induction false} RemoveAllAbsent<T(!new)>(s: seq<T>, y: T)
    requires y !in s
    ensures RemoveAll(s, y) == s
  {
    if s != [] {
      assert y !in s[1..];
      RemoveAllAbsent(s[1..], y);
      assert s == [s[0]] + s[1..];
    }
  }

  lemma {:induction false} RemoveAllAppend<T(!new)>(s: seq<T>, t: seq<T>, y: T)
    ensures RemoveAll(s + t, y) == RemoveAll(s, y) + RemoveAll(t, y)
  {
    if s != [] {
      assert (s + t)[1..] == s[1..] + t;
      RemoveAllAppend(s[1..], t, y);
    } else {
      assert s + t == t;
    }
  }

  lemma {:induction false} NoDupAppend<T>(s: seq<T>, y: T)
    requires NoDup(s) && y !in s
    ensures NoDup(s + [y])
  {
    var r := s + [y];
    forall i, j | 0 <= i < j < |r| ensures r[i] != r[j] {
      assert r[i] == s[i];
      if j == |s| { assert r[j] == y; } else { assert r[j] == s[j]; }
    }
  }

  /** `xs.map(f)` with the misses left out, as React leaves out the `null`s a
      list rendering returns: the hits in order. */
  function FilterMap<A, B>(xs: seq<A>, f: A -> Option<B>): (r: seq<B>)
    ensures |r| <= |xs|
    ensures forall y :: y in r ==> exists x :: x in xs && f(x) == Some(y)
    ensures forall x :: x in xs && f(x).Some? ==> f(x).value in r
  {
    if xs == [] then [] else AsSeq(f(xs[0])) + FilterMap(xs[1..], f)
  }

  /** One element gives its hit, or nothing. */
  lemma FilterMapSingle<A, B>(x: A, f: A -> Option<B>)
    ensures FilterMap([x], f) == AsSeq(f(x))
  {
    assert [x][1..] == [];
  }

  /** The hits of a concatenation are those of each part, in order. */
  lemma {:induction false} FilterMapAppend<A, B>(a: seq<A>, b: seq<A>, f: A -> Option<B>)
    ensures FilterMap(a + b, f) == FilterMap(a, f) + FilterMap(b, f)
  {
    if a == [] {
      assert a + b == b;
    } else {
      var ab, h := a + b, AsSeq(f(a[0]));
      assert ab[0] == a[0] && ab[1..] == a[1..] + b;
      FilterMapAppend(a[1..], b, f);
      assert FilterMap(ab, f) == h + FilterMap(a[1..] + b, f);
      assert h + (FilterMap(a[1..], f) + FilterMap(b, f)) == (h + FilterMap(a[1..], f)) + FilterMap(b, f);
    }
  }
}
