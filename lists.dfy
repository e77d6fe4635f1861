/** The two array operations the storage facade is built from:
    `Array.prototype.filter` and `Array.prototype.map`, on sequences. */
module Lists {

  /** The elements of `s` that `keep` accepts, in their order in `s`. */
  function Filter<T(!new)>(s: seq<T>, keep: T -> bool): (r: seq<T>)
    ensures |r| <= |s|
    ensures forall x :: x in r <==> x in s && keep(x)
  {
    if s == [] then []
    else if keep(s[0]) then [s[0]] + Filter(s[1..], keep)
    else Filter(s[1..], keep)
  }

  /** Filtering distributes over concatenation: the relative order of the
      kept elements is the order of the input. */
  lemma {:induction false} FilterConcat<T(!new)>(s: seq<T>, t: seq<T>, keep: T -> bool)
    ensures Filter(s + t, keep) == Filter(s, keep) + Filter(t, keep)
  {
    if s == [] {
      assert s + t == t;
    } else {
      assert (s + t)[1..] == s[1..] + t;
      FilterConcat(s[1..], t, keep);
    }
  }

  /** A filter leaves a sequence unchanged exactly when it accepts every element. */
  lemma {:induction false} FilterKeepsAll<T(!new)>(s: seq<T>, keep: T -> bool)
    ensures Filter(s, keep) == s <==> forall x :: x in s ==> keep(x)
  {
    if s != [] {
      FilterKeepsAll(s[1..], keep);
      if !keep(s[0]) {
        assert |Filter(s, keep)| < |s| by {
          assert |Filter(s[1..], keep)| <= |s[1..]|;
        }
      } else {
        assert forall x :: x in s ==> x == s[0] || x in s[1..];
      }
    }
  }

  /** Filtering twice with the same predicate is filtering once. */
  lemma {:induction false} FilterIdempotent<T(!new)>(s: seq<T>, keep: T -> bool)
    ensures Filter(Filter(s, keep), keep) == Filter(s, keep)
  {
    FilterKeepsAll(Filter(s, keep), keep);
  }

  /** `f` applied to every element, position by position. */
  function Map<T, U>(s: seq<T>, f: T -> U): (r: seq<U>)
    ensures |r| == |s|
    ensures forall i :: 0 <= i < |s| ==> r[i] == f(s[i])
  {
    if s == [] then [] else [f(s[0])] + Map(s[1..], f)
  }
}
