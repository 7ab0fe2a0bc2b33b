/** Sequence helpers shared by the restaurant and member lists. */
module Seqs {

  /** True iff no element occurs twice in `s`. */
  predicate NoDup<T(==)>(s: seq<T>) {
    forall i, j :: 0 <= i < j < |s| ==> s[i] != s[j]
  }

  /** `Array.prototype.filter`: the elements of `s` that `keep` accepts, in their original order. */
  function Filter<T(==,!new)>(s: seq<T>, keep: T -> bool): (r: seq<T>)
    ensures |r| <= |s|
    ensures forall x :: x in r <==> x in s && keep(x)
    ensures NoDup(s) ==> NoDup(r)
  {
    if |s| == 0 then []
    else
      var rest := Filter(s[1..], keep);
      assert NoDup(s) ==> s[0] !in s[1..];
      (if keep(s[0]) then [s[0]] else []) + rest
  }

  /** Filtering distributes over concatenation: the survivors keep their relative order. */
  lemma {:induction false} FilterConcat<T(!new)>(a: seq<T>, b: seq<T>, keep: T -> bool)
    ensures Filter(a + b, keep) == Filter(a, keep) + Filter(b, keep)
  {
    if |a| == 0 {
      assert a + b == b;
    } else {
      assert (a + b)[1..] == a[1..] + b;
      FilterConcat(a[1..], b, keep);
    }
  }

  /** A filter that rejects nothing returns its input unchanged. */
  lemma {:induction false} FilterKeepsAll<T(!new)>(s: seq<T>, keep: T -> bool)
    requires forall x :: x in s ==> keep(x)
    ensures Filter(s, keep) == s
  {
    if |s| > 0 {
      assert forall x :: x in s[1..] ==> x in s;
      FilterKeepsAll(s[1..], keep);
      assert [s[0]] + s[1..] == s;
    }
  }

  /** Appending one element keeps a sequence duplicate-free exactly when the element is new. */
  lemma NoDupSnoc<T>(s: seq<T>, y: T)
    ensures NoDup(s + [y]) <==> NoDup(s) && y !in s
  {
    var t := s + [y];
    if NoDup(t) {
      assert forall i, j :: 0 <= i < j < |s| ==> s[i] == t[i] && s[j] == t[j];
      forall k | 0 <= k < |s| ensures s[k] != y {
        assert t[k] == s[k] && t[|s|] == y;
      }
    }
  }

  /** A sequence is duplicate-free exactly when every value occurs in it at most once. */
  lemma {:induction false} NoDupIffSingleCounts<T>(s: seq<T>)
    ensures NoDup(s) <==> forall x :: multiset(s)[x] <= 1
  {
    if |s| > 0 {
      var init, y := s[..|s| - 1], s[|s| - 1];
      assert s == init + [y];
      NoDupIffSingleCounts(init);
      NoDupSnoc(init, y);
      assert multiset(s) == multiset(init) + multiset{y};
      if NoDup(s) {
        forall x ensures multiset(s)[x] <= 1 {
          if x == y {
            assert multiset(init)[y] == 0;
          }
        }
      } else if NoDup(init) {
        assert y in init;
        assert multiset(s)[y] > 1;
      } else {
        var x :| multiset(init)[x] > 1;
        assert multiset(s)[x] > 1;
      }
    }
  }

  /** Two sequences holding the same values with the same multiplicities agree on being duplicate-free. */
  lemma PermutationKeepsNoDup<T>(s: seq<T>, t: seq<T>)
    requires multiset(s) == multiset(t)
    ensures NoDup(s) <==> NoDup(t)
  {
    NoDupIffSingleCounts(s);
    NoDupIffSingleCounts(t);
  }
}
