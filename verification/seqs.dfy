/** `Array.prototype.filter` and the facts the roadmap views rely on. */
module Seqs {
  /** `xs.filter(p)`: the elements satisfying `p`, in their original order. */
  function Where<T(==)>(xs: seq<T>, p: T -> bool): (r: seq<T>)
    ensures |r| <= |xs|
    ensures forall k | 0 <= k < |r| :: p(r[k])
    ensures forall k | 0 <= k < |r| :: r[k] in xs
    ensures forall k | 0 <= k < |xs| :: p(xs[k]) ==> xs[k] in r
  {
    if xs == [] then [] else (if p(xs[0]) then [xs[0]] else []) + Where(xs[1..], p)
  }

  /** `a` is `b` with some elements left out, the rest in the same order. */
  predicate IsSubsequence<T(==)>(a: seq<T>, b: seq<T>)
    decreases |b|
  {
    if a == [] then true
    else if b == [] then false
    else if a[0] == b[0] then IsSubsequence(a[1..], b[1..])
    else IsSubsequence(a, b[1..])
  }

  lemma {:induction false} WhereIsSubsequence<T>(xs: seq<T>, p: T -> bool)
    ensures IsSubsequence(Where(xs, p), xs)
  {
    if xs != [] {
      WhereIsSubsequence(xs[1..], p);
      if !p(xs[0]) {
        assert Where(xs, p) == Where(xs[1..], p);
        SubsequenceOfTail(Where(xs, p), xs);
      } else {
        assert Where(xs, p) == [xs[0]] + Where(xs[1..], p);
        assert Where(xs, p)[1..] == Where(xs[1..], p);
      }
    }
  }

  /** A subsequence of the tail is a subsequence of the whole. */
  lemma {:induction false} SubsequenceOfTail<T>(a: seq<T>, b: seq<T>)
    requires b != [] && IsSubsequence(a, b[1..])
    ensures IsSubsequence(a, b)
    decreases |b|, |a|
  {
    if a != [] && a[0] == b[0] {
      DropFirst(a, b[1..]);
    }
  }

  /** Dropping the first element of a subsequence keeps it a subsequence. */
  lemma {:induction false} DropFirst<T>(a: seq<T>, b: seq<T>)
    requires a != [] && IsSubsequence(a, b)
    ensures IsSubsequence(a[1..], b)
    decreases |b|, |a|
  {
    if a[0] != b[0] {
      DropFirst(a, b[1..]);
    }
    if a[1..] != [] {
      SubsequenceOfTail(a[1..], b);
    }
  }

  /** Filtering twice by the same predicate is filtering once. */
  lemma {:induction false} WhereIdempotent<T>(xs: seq<T>, p: T -> bool)
    ensures Where(Where(xs, p), p) == Where(xs, p)
  {
    WhereKeepsAll(Where(xs, p), p);
  }

  /** A filter that every element passes changes nothing. */
  lemma {:induction false} WhereKeepsAll<T>(xs: seq<T>, p: T -> bool)
    requires forall k | 0 <= k < |xs| :: p(xs[k])
    ensures Where(xs, p) == xs
  {
    if xs != [] {
      WhereKeepsAll(xs[1..], p);
    }
  }

  /** A filter nothing passes leaves nothing. */
  lemma {:induction false} WhereNone<T>(xs: seq<T>, p: T -> bool)
    requires forall k | 0 <= k < |xs| :: !p(xs[k])
    ensures Where(xs, p) == []
  {
    if xs != [] {
      WhereNone(xs[1..], p);
    }
  }

  lemma {:induction false} WhereAppend<T>(a: seq<T>, b: seq<T>, p: T -> bool)
    ensures Where(a + b, p) == Where(a, p) + Where(b, p)
  {
    if a == [] {
      assert a + b == b;
    } else {
      assert (a + b)[1..] == a[1..] + b;
      WhereAppend(a[1..], b, p);
    }
  }

  /** The elements whose key is `k`: `xs.filter(x => key(x) === k)`. */
  function WithKey<T(==), K(==)>(xs: seq<T>, key: T -> K, k: K): (r: seq<T>)
    ensures forall j | 0 <= j < |r| :: key(r[j]) == k
    ensures forall j | 0 <= j < |xs| :: key(xs[j]) == k ==> xs[j] in r
    ensures IsSubsequence(r, xs)
  {
    var p := (x: T) => key(x) == k;
    WhereIsSubsequence(xs, p);
    Where(xs, p)
  }

  /** The sizes of the groups for `keys`, added up. */
  function SumSizes<T(==), K(==)>(xs: seq<T>, key: T -> K, keys: seq<K>): nat
  {
    if keys == [] then 0 else |WithKey(xs, key, keys[0])| + SumSizes(xs, key, keys[1..])
  }

  predicate Distinct<K(==)>(keys: seq<K>) {
    forall i, j | 0 <= i < j < |keys| :: keys[i] != keys[j]
  }

  lemma {:induction false} SumSizesEmpty<T, K>(key: T -> K, keys: seq<K>)
    ensures SumSizes([], key, keys) == 0
  {
    if keys != [] {
      SumSizesEmpty(key, keys[1..]);
    }
  }

  /** Taking one element off the front lowers the total by one exactly when its key is listed. */
  lemma {:induction false} SumSizesStep<T, K>(xs: seq<T>, key: T -> K, keys: seq<K>)
    requires xs != [] && Distinct(keys)
    ensures SumSizes(xs, key, keys) == SumSizes(xs[1..], key, keys) + (if key(xs[0]) in keys then 1 else 0)
  {
    if keys != [] {
      var p := (x: T) => key(x) == keys[0];
      assert Where(xs, p) == (if p(xs[0]) then [xs[0]] else []) + Where(xs[1..], p);
      assert Distinct(keys[1..]);
      SumSizesStep(xs, key, keys[1..]);
      assert key(xs[0]) in keys <==> key(xs[0]) == keys[0] || key(xs[0]) in keys[1..];
      if key(xs[0]) == keys[0] {
        assert keys[0] !in keys[1..];
      }
    }
  }

  /**
   * Grouping by a key whose every value is listed once puts each element
   * in exactly one group: the group sizes add up to the length.
   */
  lemma {:induction false} PartitionSizes<T, K>(xs: seq<T>, key: T -> K, keys: seq<K>)
    requires Distinct(keys)
    requires forall j | 0 <= j < |xs| :: key(xs[j]) in keys
    ensures SumSizes(xs, key, keys) == |xs|
  {
    if xs == [] {
      SumSizesEmpty(key, keys);
    } else {
      SumSizesStep(xs, key, keys);
      PartitionSizes(xs[1..], key, keys);
    }
  }
}
