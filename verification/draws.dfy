/** Python's `random.choice`, `random.sample` and `random.shuffle`, with the
    random source made explicit. Each draw is given as a sequence of arbitrary
    natural numbers ("picks"); the j-th pick, reduced modulo the number of
    elements still available, selects the j-th element drawn. Every pick
    sequence is valid, and every outcome the library can produce is reached by
    some pick sequence (see `DrawComplete`). */
module Draws {
  import opened Wrappers

  function RemoveAt<T>(xs: seq<T>, i: nat): (r: seq<T>)
    requires i < |xs|
    ensures |r| == |xs| - 1
    ensures forall p :: 0 <= p < |r| ==> r[p] == xs[if p < i then p else p + 1]
  {
    xs[..i] + xs[i + 1..]
  }

  lemma RemoveAtMultiset<T>(xs: seq<T>, i: nat)
    requires i < |xs|
    ensures multiset(RemoveAt(xs, i)) + multiset{xs[i]} == multiset(xs)
  {
    assert xs == xs[..i] + [xs[i]] + xs[i + 1..];
  }

  /** The position a raw pick selects among `n` available elements. */
  function Slot(pick: nat, n: nat): (r: nat)
    requires n > 0
    ensures r < n
    ensures pick < n ==> r == pick
  {
    pick % n
  }

  function Head(picks: seq<nat>): nat {
    if |picks| > 0 then picks[0] else 0
  }

  function Tail(picks: seq<nat>): seq<nat> {
    if |picks| > 0 then picks[1..] else []
  }

  /** `random.choice(xs)`: one element of a non-empty sequence. */
  function Choose<T>(xs: seq<T>, pick: nat): (r: T)
    requires |xs| > 0
    ensures r in xs
  {
    xs[Slot(pick, |xs|)]
  }

  /** `k` successive draws without replacement from `xs` (all of them when `k >= |xs|`). */
  function Draw<T>(xs: seq<T>, k: nat, picks: seq<nat>): (r: seq<T>)
    ensures |r| == Min(k, |xs|)
    decreases k
  {
    if k == 0 || |xs| == 0 then []
    else
      var i := Slot(Head(picks), |xs|);
      [xs[i]] + Draw(RemoveAt(xs, i), k - 1, Tail(picks))
  }

  lemma DrawStep<T>(xs: seq<T>, k: nat, picks: seq<nat>)
    requires k > 0 && |xs| > 0
    ensures Draw(xs, k, picks)
         == [xs[Slot(Head(picks), |xs|)]] + Draw(RemoveAt(xs, Slot(Head(picks), |xs|)), k - 1, Tail(picks))
  {
  }

  /** Soundness: what is drawn is taken from `xs` without replacement, and drawing
      at least `|xs|` times takes everything. */
  lemma {:induction false} DrawFromSource<T>(xs: seq<T>, k: nat, picks: seq<nat>)
    ensures multiset(Draw(xs, k, picks)) <= multiset(xs)
    ensures k >= |xs| ==> multiset(Draw(xs, k, picks)) == multiset(xs)
    decreases k
  {
    if k > 0 && |xs| > 0 {
      var i := Slot(Head(picks), |xs|);
      var rest := RemoveAt(xs, i);
      var d := Draw(rest, k - 1, Tail(picks));
      DrawStep(xs, k, picks);
      assert multiset(Draw(xs, k, picks)) == multiset{xs[i]} + multiset(d);
      DrawFromSource(rest, k - 1, Tail(picks));
      RemoveAtMultiset(xs, i);
      AddKeepsSub(multiset(d), multiset(rest), multiset{xs[i]});
    }
  }

  lemma AddKeepsSub<T>(a: multiset<T>, b: multiset<T>, c: multiset<T>)
    requires a <= b
    ensures c + a <= c + b
  {
    forall x ensures (c + a)[x] <= (c + b)[x] {
      assert a[x] <= b[x];
    }
  }

  /** `random.sample(xs, k)`: `k` elements drawn without replacement. */
  function Sample<T>(xs: seq<T>, k: nat, picks: seq<nat>): (r: seq<T>)
    requires k <= |xs|
    ensures |r| == k
    ensures multiset(r) <= multiset(xs)
  {
    DrawFromSource(xs, k, picks);
    Draw(xs, k, picks)
  }

  /** `random.shuffle(xs)`: a rearrangement of `xs`. */
  function Shuffle<T>(xs: seq<T>, picks: seq<nat>): (r: seq<T>)
    ensures |r| == |xs|
    ensures multiset(r) == multiset(xs)
  {
    DrawFromSource(xs, |xs|, picks);
    Draw(xs, |xs|, picks)
  }

  lemma SubMultisetMembers<T>(ys: seq<T>, xs: seq<T>)
    requires multiset(ys) <= multiset(xs)
    ensures forall y :: y in ys ==> y in xs
  {
    forall y | y in ys
      ensures y in xs
    {
      assert y in multiset(ys);
    }
  }

  /** The position of a value in a sequence that contains it. */
  function IndexOf<T(==)>(xs: seq<T>, y: T): (i: nat)
    requires y in xs
    ensures i < |xs| && xs[i] == y
  {
    if xs[0] == y then 0 else 1 + IndexOf(xs[1..], y)
  }

  lemma RemoveHeadSub<T>(ys: seq<T>, xs: seq<T>, i: nat)
    requires |ys| > 0 && i < |xs| && xs[i] == ys[0]
    requires multiset(ys) <= multiset(xs)
    ensures multiset(ys[1..]) <= multiset(RemoveAt(xs, i))
  {
    assert ys == [ys[0]] + ys[1..];
    assert multiset(ys) == multiset{ys[0]} + multiset(ys[1..]);
    var rem := RemoveAt(xs, i);
    RemoveAtMultiset(xs, i);
    forall z
      ensures multiset(ys[1..])[z] <= multiset(rem)[z]
    {
      assert multiset(ys)[z] <= multiset(xs)[z];
    }
  }

  /** Picks that make `Draw` produce exactly `ys`. */
  function PicksFor<T(==)>(xs: seq<T>, ys: seq<T>): seq<nat>
    requires multiset(ys) <= multiset(xs)
    decreases |ys|
  {
    if |ys| == 0 then []
    else
      assert ys[0] in multiset(ys);
      var i := IndexOf(xs, ys[0]);
      RemoveHeadSub(ys, xs, i);
      [i] + PicksFor(RemoveAt(xs, i), ys[1..])
  }

  /** Completeness: every sequence of `|ys|` draws without replacement from `xs`
      is the outcome of some pick sequence. */
  lemma {:induction false} DrawComplete<T>(xs: seq<T>, ys: seq<T>)
    requires multiset(ys) <= multiset(xs)
    ensures Draw(xs, |ys|, PicksFor(xs, ys)) == ys
    decreases |ys|
  {
    if |ys| > 0 {
      assert ys[0] in multiset(ys);
      var i := IndexOf(xs, ys[0]);
      RemoveHeadSub(ys, xs, i);
      assert ys == [ys[0]] + ys[1..];
      var picks := PicksFor(xs, ys);
      assert Head(picks) == i && Tail(picks) == PicksFor(RemoveAt(xs, i), ys[1..]);
      DrawStep(xs, |ys|, picks);
      DrawComplete(RemoveAt(xs, i), ys[1..]);
    }
  }

  /** Every rearrangement of `xs` is a possible shuffle. */
  lemma ShuffleComplete<T>(xs: seq<T>, ys: seq<T>)
    requires multiset(ys) == multiset(xs)
    ensures Shuffle(xs, PicksFor(xs, ys)) == ys
  {
    assert |ys| == |multiset(ys)| == |multiset(xs)| == |xs|;
    DrawComplete(xs, ys);
  }
}
