/** Shared building blocks: an optional value, the order-preserving filter that
    every `Array.prototype.filter` in the app amounts to, and the list of
    distinct keys in first-occurrence order that a JavaScript `Map` keeps. */
module Common {

  /** A JavaScript value that may be `undefined`. */
  datatype Option<T> = None | Some(value: T)

  /** `s.filter(keep)`: the elements of `s` that `keep` accepts, in their order. */
  function Filter<T(!new)>(s: seq<T>, keep: T -> bool): (r: seq<T>)
    ensures |r| <= |s|
    ensures forall x :: x in r <==> x in s && keep(x)
  {
    if |s| == 0 then []
    else
      assert s == [s[0]] + s[1..];
      (if keep(s[0]) then [s[0]] else []) + Filter(s[1..], keep)
  }

  /** Filtering a sequence with one more element in front. */
  lemma FilterCons<T(!new)>(x: T, s: seq<T>, keep: T -> bool)
    ensures keep(x) ==> Filter([x] + s, keep) == [x] + Filter(s, keep)
    ensures !keep(x) ==> Filter([x] + s, keep) == Filter(s, keep)
  {
    assert ([x] + s)[0] == x;
    assert ([x] + s)[1..] == s;
    assert [] + Filter(s, keep) == Filter(s, keep);
  }

  /** Filtering a concatenation filters each part: the filter keeps relative order. */
  lemma {:induction false} FilterConcat<T(!new)>(a: seq<T>, b: seq<T>, keep: T -> bool)
    ensures Filter(a + b, keep) == Filter(a, keep) + Filter(b, keep)
  {
    if |a| == 0 {
      assert a + b == b;
    } else {
      assert (a + b)[0] == a[0];
      assert (a + b)[1..] == a[1..] + b;
      FilterConcat(a[1..], b, keep);
    }
  }

  /** Appending one element: it is kept at the end exactly when `keep` accepts it. */
  lemma {:induction false} FilterSnoc<T(!new)>(s: seq<T>, x: T, keep: T -> bool)
    ensures Filter(s + [x], keep) == Filter(s, keep) + (if keep(x) then [x] else [])
  {
    var one := [x];
    FilterConcat(s, one, keep);
    assert one[1..] == [];
    assert Filter(one, keep) == (if keep(x) then [x] else []) + Filter(one[1..], keep);
  }

  /** A filter that accepts no element returns nothing. */
  lemma {:induction false} FilterNone<T(!new)>(s: seq<T>, keep: T -> bool)
    requires forall x :: x in s ==> !keep(x)
    ensures Filter(s, keep) == []
  {
    if |s| > 0 {
      assert s[0] in s;
      forall x | x in s[1..] ensures !keep(x) {
        assert x in s;
      }
      FilterNone(s[1..], keep);
    }
  }

  /** A filter that accepts every element returns the sequence unchanged. */
  lemma {:induction false} FilterKeepsAll<T(!new)>(s: seq<T>, keep: T -> bool)
    requires forall x :: x in s ==> keep(x)
    ensures Filter(s, keep) == s
  {
    if |s| > 0 {
      assert s[0] in s;
      forall x | x in s[1..] ensures keep(x) {
        assert x in s;
      }
      FilterKeepsAll(s[1..], keep);
      assert s == [s[0]] + s[1..];
    }
  }

  /** Filtering twice with the same test is filtering once. */
  lemma {:induction false} FilterIdempotent<T(!new)>(s: seq<T>, keep: T -> bool)
    ensures Filter(Filter(s, keep), keep) == Filter(s, keep)
  {
    FilterKeepsAll(Filter(s, keep), keep);
  }

  /** Filtering by a narrower test after a broader one is filtering by the
      narrower test alone. */
  lemma {:induction false} FilterNarrower<T(!new)>(s: seq<T>, broad: T -> bool, narrow: T -> bool)
    requires forall x :: narrow(x) ==> broad(x)
    ensures Filter(Filter(s, broad), narrow) == Filter(s, narrow)
  {
    if |s| > 0 {
      var x, tail := s[0], s[1..];
      assert s == [x] + tail;
      FilterNarrower(tail, broad, narrow);
      FilterCons(x, tail, broad);
      FilterCons(x, tail, narrow);
      FilterCons(x, Filter(tail, broad), narrow);
    }
  }

  /** True when no key occurs twice in `ks`. */
  predicate Distinct<K(==)>(ks: seq<K>)
  {
    forall a, b :: 0 <= a < b < |ks| ==> ks[a] != ks[b]
  }

  /** The keys `key(x)` of the elements of `s`, each once, in order of first
      occurrence: the key order of a `Map` filled by `set(key(x), ...)` over `s`. */
  function DistinctKeys<T(!new), K(==,!new)>(s: seq<T>, key: T -> K): (ks: seq<K>)
    ensures Distinct(ks)
    ensures |ks| <= |s|
    ensures forall k :: k in ks <==> exists x :: x in s && key(x) == k
  {
    if |s| == 0 then []
    else
      var prev := DistinctKeys(s[..|s| - 1], key);
      var last := s[|s| - 1];
      assert s == s[..|s| - 1] + [last];
      assert forall x :: x in s <==> x in s[..|s| - 1] || x == last;
      if key(last) in prev then prev else prev + [key(last)]
  }
}
