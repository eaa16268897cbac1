/**
 * The order-preserving array operations the pipeline is built from:
 * Array.prototype.map, Array.prototype.filter, and the filter that drops the
 * nulls a map produced.
 */
module Seqs {
  import opened Wrappers

  /** ys with some of its elements deleted, the rest kept in their order. */
  ghost predicate IsSubsequence<T>(xs: seq<T>, ys: seq<T>)
    decreases |ys|
  {
    if xs == [] then true
    else if ys == [] then false
    else (xs[0] == ys[0] && IsSubsequence(xs[1..], ys[1..])) || IsSubsequence(xs, ys[1..])
  }

  /** Array.prototype.map. */
  function Map<T, U>(f: T -> U, s: seq<T>): (r: seq<U>)
    ensures |r| == |s|
    ensures forall i :: 0 <= i < |s| ==> r[i] == f(s[i])
    decreases |s|
  {
    if s == [] then [] else [f(s[0])] + Map(f, s[1..])
  }

  /**
   * Array.prototype.filter: the elements of s that satisfy p, all of them,
   * and nothing else, in their original order.
   */
  function Filter<T>(p: T -> bool, s: seq<T>): (r: seq<T>)
    ensures |r| <= |s|
    ensures forall i :: 0 <= i < |r| ==> p(r[i])
    ensures forall x :: x in r ==> x in s
    ensures forall i :: 0 <= i < |s| && p(s[i]) ==> s[i] in r
    ensures IsSubsequence(r, s)
    decreases |s|
  {
    if s == [] then []
    else if p(s[0]) then [s[0]] + Filter(p, s[1..])
      else Filter(p, s[1..])
  }

  /**
   * Filtering fixes multiplicity: a value that passes occurs in the result
   * exactly as often as in the input, and a value that fails not at all.
   */
  lemma {:induction false} FilterCount<T>(p: T -> bool, s: seq<T>)
    ensures forall x :: x in s ==> multiset(Filter(p, s))[x] == if p(x) then multiset(s)[x] else 0
    decreases |s|
  {
    if s != [] {
      var first := if p(s[0]) then [s[0]] else [];
      var rest := Filter(p, s[1..]);
      FilterCount(p, s[1..]);
      FilterFirst(p, s);
      assert s == [s[0]] + s[1..];
      assert multiset(s) == multiset([s[0]]) + multiset(s[1..]);
      assert multiset(Filter(p, s)) == multiset(first) + multiset(rest);
      forall x | x in s
        ensures multiset(Filter(p, s))[x] == if p(x) then multiset(s)[x] else 0
      {
        if x !in s[1..] {
          assert x !in rest;
        }
      }
    }
  }

  /** Mapping a concatenation maps each half. */
  lemma MapConcat<T, U>(f: T -> U, a: seq<T>, b: seq<T>)
    ensures Map(f, a + b) == Map(f, a) + Map(f, b)
  {
    assert forall i :: 0 <= i < |a + b| ==> (a + b)[i] == if i < |a| then a[i] else b[i - |a|];
  }

  /** Filtering a concatenation filters each half. */
  lemma {:induction false} FilterConcat<T>(p: T -> bool, a: seq<T>, b: seq<T>)
    ensures Filter(p, a + b) == Filter(p, a) + Filter(p, b)
    decreases |a|
  {
    if a == [] {
      assert a + b == b;
    } else {
      var first := if p(a[0]) then [a[0]] else [];
      calc {
        Filter(p, a + b);
        == { FilterFirst(p, a + b); assert (a + b)[0] == a[0] && (a + b)[1..] == a[1..] + b; }
        first + Filter(p, a[1..] + b);
        == { FilterConcat(p, a[1..], b); }
        first + (Filter(p, a[1..]) + Filter(p, b));
        == { FilterFirst(p, a); }
        Filter(p, a) + Filter(p, b);
      }
    }
  }

  /** The filter of a non-empty sequence decides on the first element and filters the rest. */
  lemma FilterFirst<T>(p: T -> bool, s: seq<T>)
    requires s != []
    ensures Filter(p, s) == (if p(s[0]) then [s[0]] else []) + Filter(p, s[1..])
  {
  }

  /** Every element kept from a mapped sequence is the image of some element, and every image that passes is kept. */
  lemma FilterMapOrigin<T, U>(f: T -> U, p: U -> bool, s: seq<T>)
    ensures forall i :: 0 <= i < |s| && p(f(s[i])) ==> f(s[i]) in Filter(p, Map(f, s))
    ensures forall y :: y in Filter(p, Map(f, s)) ==> exists i :: 0 <= i < |s| && y == f(s[i])
  {
    var mapped := Map(f, s);
    forall i | 0 <= i < |s| && p(f(s[i]))
      ensures f(s[i]) in Filter(p, mapped)
    {
      assert mapped[i] == f(s[i]);
    }
    forall y | y in Filter(p, mapped)
      ensures exists i :: 0 <= i < |s| && y == f(s[i])
    {
      assert y in mapped;
      var i :| 0 <= i < |mapped| && mapped[i] == y;
    }
  }

  /** `.filter(x => x !== null)` after a map that returns null for rejected items. */
  function Somes<T>(s: seq<Option<T>>): (r: seq<T>)
    ensures |r| <= |s|
    ensures forall x :: x in r ==> Some(x) in s
    decreases |s|
  {
    if s == [] then []
    else match s[0]
      case Some(x) => [x] + Somes(s[1..])
      case None => Somes(s[1..])
  }

  /**
   * Mapping with a partial f and dropping the nulls is filtering by "f is
   * defined" and then mapping: the i-th survivor is f of the i-th element
   * that passes.
   */
  lemma {:induction false} SomesOfMap<T, U>(f: T -> Option<U>, defined: T -> bool, s: seq<T>)
    requires forall x :: defined(x) <==> f(x).Some?
    ensures |Somes(Map(f, s))| == |Filter(defined, s)|
    ensures forall i :: 0 <= i < |Filter(defined, s)| ==> f(Filter(defined, s)[i]) == Some(Somes(Map(f, s))[i])
    decreases |s|
  {
    if s != [] {
      SomesOfMap(f, defined, s[1..]);
      var mapped := Map(f, s);
      assert mapped[1..] == Map(f, s[1..]);
      if defined(s[0]) {
        assert Somes(mapped) == [f(s[0]).value] + Somes(mapped[1..]);
      } else {
        assert Somes(mapped) == Somes(mapped[1..]);
      }
    }
  }
}
