/** The bounded histories of the analyzer: the price history and the change
    log are trimmed back to a configured length, the trend history to its
    last two tags. Each trimming rule drops at most the oldest element. */
module Bounded {

  /** The seed of the price history: `n` zero placeholders. */
  function Zeros(n: nat): seq<real>
  {
    seq(n, _ => 0.0)
  }

  /** The last `n` elements of `s`: the oldest element is dropped until at
      most `n` remain. */
  function LastN<T>(s: seq<T>, n: nat): (r: seq<T>)
    ensures |r| == if |s| <= n then |s| else n
    decreases |s|
  {
    if |s| <= n then s else LastN(s[1..], n)
  }

  /** The window is the suffix of length `n` (all of `s` when it is
      shorter). */
  lemma {:induction false} LastNIsSuffix<T>(s: seq<T>, n: nat)
    ensures LastN(s, n) == if |s| <= n then s else s[|s| - n..]
    decreases |s|
  {
    if |s| > n {
      var rest := s[1..];
      LastNIsSuffix(rest, n);
      if |rest| > n {
        assert rest[|rest| - n..] == s[|s| - n..];
      } else {
        assert |s| - n == 1;
      }
    }
  }

  /** The rule for the price history and the change log: pop the first
      element only when the list has exactly `n + 1` elements. */
  function PopIfLength<T>(s: seq<T>, n: nat): seq<T>
  {
    if |s| == n + 1 then s[1..] else s
  }

  /** The rule for the trend history: pop the first element when the list is
      longer than `k`. */
  function PopIfLonger<T>(s: seq<T>, k: nat): seq<T>
  {
    if |s| > k then s[1..] else s
  }

  /** Appending to a window of the last `n` elements and then applying the
      exact-length rule gives the window of the last `n` elements of the
      extended history: the element dropped is always the oldest one. */
  lemma {:induction false} PopIfLengthAppend<T>(s: seq<T>, x: T, n: nat)
    ensures PopIfLength(LastN(s, n) + [x], n) == LastN(s + [x], n)
  {
    LastNIsSuffix(s, n);
    LastNIsSuffix(s + [x], n);
    if |s| >= n {
      var w := s[|s| - n..];
      assert (w + [x])[1..] == (s + [x])[|s| + 1 - n..];
    }
  }

  /** A window no longer than `n` is left alone by the exact-length rule. */
  lemma PopIfLengthIdle<T>(s: seq<T>, n: nat)
    ensures PopIfLength(LastN(s, n), n) == LastN(s, n)
    ensures |LastN(s, n)| <= n
  {
    LastNIsSuffix(s, n);
  }

  /** The same as PopIfLengthAppend for the "longer than" rule. */
  lemma {:induction false} PopIfLongerAppend<T>(s: seq<T>, x: T, k: nat)
    ensures PopIfLonger(LastN(s, k) + [x], k) == LastN(s + [x], k)
  {
    LastNIsSuffix(s, k);
    LastNIsSuffix(s + [x], k);
    if |s| >= k {
      var w := s[|s| - k..];
      assert (w + [x])[1..] == (s + [x])[|s| + 1 - k..];
    }
  }

  /** Element `i` of the last-`n` window of a seeded history: a placeholder
      zero while the seed still reaches that position, a fetched value after. */
  lemma {:induction false} SeededWindowAt(n: nat, xs: seq<real>, i: nat)
    requires i < n
    ensures |LastN(Zeros(n) + xs, n)| == n
    ensures LastN(Zeros(n) + xs, n)[i] == if |xs| + i < n then 0.0 else xs[|xs| + i - n]
  {
    var h := Zeros(n) + xs;
    LastNIsSuffix(h, n);
    assert LastN(h, n) == h[|xs|..];
    assert h[|xs|..][i] == h[|xs| + i];
  }

  /** The price history after each fetched price of `xs` in turn has been
      appended to the seeded history and the exact-length rule applied. */
  function Trimmed(n: nat, xs: seq<real>): seq<real>
    decreases |xs|
  {
    if xs == [] then Zeros(n) else PopIfLength(Trimmed(n, xs[..|xs| - 1]) + [xs[|xs| - 1]], n)
  }

  /** Eviction: however many prices are fetched, appending and trimming one
      at a time leaves exactly the last `n` entries of the seed followed by
      the fetched prices; between the append and the trim the history holds
      exactly `n + 1` entries, and never more. */
  lemma {:induction false} TrimmedIsWindow(n: nat, xs: seq<real>)
    ensures Trimmed(n, xs) == LastN(Zeros(n) + xs, n)
    ensures |Trimmed(n, xs)| == n
    ensures xs != [] ==> |Trimmed(n, xs[..|xs| - 1]) + [xs[|xs| - 1]]| == n + 1
    decreases |xs|
  {
    if xs == [] {
      assert Zeros(n) + xs == Zeros(n);
    } else {
      var p, x := xs[..|xs| - 1], xs[|xs| - 1];
      TrimmedIsWindow(n, p);
      SeededStep(n, p, x);
      assert p + [x] == xs;
    }
  }

  /** One step of the price history: appending a fetched price to the
      seeded window and trimming gives the window of the longer history. */
  lemma SeededStep(n: nat, xs: seq<real>, x: real)
    ensures PopIfLength(LastN(Zeros(n) + xs, n) + [x], n) == LastN(Zeros(n) + (xs + [x]), n)
  {
    PopIfLengthAppend(Zeros(n) + xs, x, n);
    assert Zeros(n) + xs + [x] == Zeros(n) + (xs + [x]);
  }
}
