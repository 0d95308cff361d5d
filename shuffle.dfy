/**
 * `chars.shuffle(&mut rng)` on the letters of the chosen word. The random
 * number generator is outside the model: its successive draws are the
 * parameter `draws`, and step `k` of the swap loop uses `draws(k) % (k + 1)`
 * as the index it exchanges with position `k`, which is how `SliceRandom::shuffle`
 * walks the slice from its end towards its start.
 */
module Shuffle {

  function Swap<T>(s: seq<T>, i: nat, j: nat): (r: seq<T>)
    requires i < |s| && j < |s|
    ensures |r| == |s| && r[i] == s[j] && r[j] == s[i]
    ensures forall k :: 0 <= k < |s| && k != i && k != j ==> r[k] == s[k]
  {
    s[i := s[j]][j := s[i]]
  }

  /** The slice after the whole swap loop: position `|s| - 1` is settled first, then the rest is shuffled the same way. */
  function Shuffled<T>(s: seq<T>, draws: nat -> nat): (r: seq<T>)
    decreases |s|
    ensures |r| == |s|
  {
    if |s| <= 1 then s
    else
      var k := |s| - 1;
      var t := Swap(s, k, draws(k) % |s|);
      Shuffled(t[..k], draws) + [t[k]]
  }

  /** Shuffling only reorders: the result holds the same letters, each as often as the input. */
  lemma {:induction false} ShuffledIsPermutation<T>(s: seq<T>, draws: nat -> nat)
    ensures multiset(Shuffled(s, draws)) == multiset(s)
    decreases |s|
  {
    if |s| > 1 {
      var k := |s| - 1;
      var t := Swap(s, k, draws(k) % |s|);
      ShuffledIsPermutation(t[..k], draws);
      assert t == t[..k] + [t[k]];
      assert multiset(t) == multiset(s) by {
        assert t == s[k := s[draws(k) % |s|]][draws(k) % |s| := s[k]];
      }
    }
  }

  /** Nothing forces the shuffled word to differ from the word: draws that always pick the current position leave it unchanged. */
  lemma {:induction false} ShuffleMayKeepWord<T>(s: seq<T>)
    ensures Shuffled(s, k => k) == s
    decreases |s|
  {
    if |s| > 1 {
      var k := |s| - 1;
      var t := Swap(s, k, k % |s|);
      assert t == s;
      ShuffleMayKeepWord(s[..k]);
      assert s == s[..k] + [s[k]];
    }
  }

  /** One turn of the swap loop on the unsettled prefix `u[..k]` keeps the final outcome the same. */
  lemma ShuffledStep<T>(u: seq<T>, k: nat, draws: nat -> nat)
    requires 1 < k <= |u|
    ensures Shuffled(u[..k], draws) + u[k..]
         == Shuffled(Swap(u, k - 1, draws(k - 1) % k)[..k - 1], draws) + Swap(u, k - 1, draws(k - 1) % k)[k - 1..]
  {
    var i, j := k - 1, draws(k - 1) % k;
    var v := Swap(u, i, j);
    var t := Swap(u[..k], i, j);
    assert t[..i] == v[..i];
    assert v[i..] == [t[i]] + u[k..];
  }

  /** The swap loop itself, run in place on the letter buffer. */
  method ShuffleInPlace<T>(a: array<T>, draws: nat -> nat)
    modifies a
    ensures a[..] == Shuffled(old(a[..]), draws)
  {
    var k := a.Length;
    assert a[..k] == a[..] && a[k..] == [];
    while k > 1
      invariant 0 <= k <= a.Length
      invariant a.Length > 0 ==> k >= 1
      invariant Shuffled(old(a[..]), draws) == Shuffled(a[..k], draws) + a[k..]
    {
      var i := k - 1;
      var j := draws(i) % k;
      ghost var u := a[..];
      a[i], a[j] := a[j], a[i];
      assert a[..] == Swap(u, i, j);
      ShuffledStep(u, k, draws);
      k := i;
    }
    assert a[..] == a[..k] + a[k..];
  }
}
