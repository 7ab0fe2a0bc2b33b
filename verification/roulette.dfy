/** The arithmetic of the two spins: `Math.random()` arrives as a parameter. */
module Roulette {

  import opened Wrappers

  function Min(a: int, b: int): int {
    if a <= b then a else b
  }

  /** `Math.floor(rand * n)`: the slot a uniform draw lands in. */
  function ScaledIndex(rand: real, n: int): (k: int)
    ensures 0.0 <= rand < 1.0 && 0 <= n ==> 0 <= k && (n > 0 ==> k < n)
  {
    var x := rand * n as real;
    assert 0.0 <= rand < 1.0 && n > 0 ==> x < n as real;
    x.Floor
  }

  /** `s[k]` in JavaScript: the element, or `undefined` outside the array. */
  function At<T>(s: seq<T>, k: int): (r: Option<T>)
    ensures r.Some? <==> 0 <= k < |s|
    ensures r.Some? ==> r.value == s[k]
  {
    if 0 <= k < |s| then Some(s[k]) else None
  }

  /** `Math.floor(rand * Math.min(3, n - 1)) + 1`: how many of `n` members pay.
      With at least two members it is at least one and at most three, and
      always leaves at least one member who does not pay. */
  function WinnerCount(rand: real, n: nat): (k: int)
    ensures 0.0 <= rand < 1.0 && n >= 2 ==> 1 <= k <= Min(3, n - 1)
  {
    ScaledIndex(rand, Min(3, n - 1)) + 1
  }

  /** `s.slice(0, end)`: a prefix of `s`, counting a negative end back from the end. */
  function SliceFromStart<T>(s: seq<T>, end: int): (r: seq<T>)
    ensures |r| <= |s| && r == s[..|r|]
    ensures 0 <= end ==> |r| == Min(end, |s|)
    ensures end < 0 ==> |r| == if |s| + end < 0 then 0 else |s| + end
  {
    var stop := if end < 0 then (if |s| + end < 0 then 0 else |s| + end) else Min(end, |s|);
    s[..stop]
  }

  /** Every slot is reachable: the draw `i / n` lands in slot `i`. */
  lemma ScaledIndexHits(i: nat, n: nat)
    requires i < n
    ensures var rand := i as real / n as real;
            0.0 <= rand < 1.0 && ScaledIndex(rand, n) == i
  {
    var rand := i as real / n as real;
    assert rand * n as real == i as real;
  }

  /** Every count the coffee spin promises is reachable: with `m = min(3, n - 1)`,
      the draw `(k - 1) / m` makes `k` members pay. */
  lemma WinnerCountHits(n: nat, k: int)
    requires n >= 2 && 1 <= k <= Min(3, n - 1)
    ensures var rand := (k - 1) as real / Min(3, n - 1) as real;
            0.0 <= rand < 1.0 && WinnerCount(rand, n) == k
  {
    ScaledIndexHits(k - 1, Min(3, n - 1));
  }
}
