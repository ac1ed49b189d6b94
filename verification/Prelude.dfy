/** Small shared vocabulary: optional values, results, and a few sequence facts. */
module Prelude {
  datatype Option<+T> = None | Some(value: T)

  datatype Result<+T, +E> = Ok(value: T) | Err(error: E)

  /** A formatted timestamp; never empty. */
  type Stamp = s: string | s != "" witness "t"

  /** The first n natural numbers, in order. */
  function Upto(n: nat): (r: seq<nat>)
    ensures |r| == n
    ensures forall i :: 0 <= i < n ==> r[i] == i
  {
    seq(n, i requires 0 <= i < n => i)
  }

  ghost predicate StrictlyIncreasing(xs: seq<nat>) {
    forall i, j :: 0 <= i < j < |xs| ==> xs[i] < xs[j]
  }

  function Max(a: nat, b: nat): nat { if a < b then b else a }

  lemma Distribute(a: nat, b: nat)
    ensures a * (b + 1) == a * b + a
  {}

  // ----- subsequences -----

  ghost predicate Embeds<T>(xs: seq<T>, ys: seq<T>, at: seq<nat>) {
    && |at| == |xs| && StrictlyIncreasing(at)
    && forall i :: 0 <= i < |xs| ==> at[i] < |ys| && xs[i] == ys[at[i]]
  }

  /** xs is ys with some elements left out. */
  ghost predicate Kept<T>(xs: seq<T>, ys: seq<T>) {
    exists at :: Embeds(xs, ys, at)
  }

  lemma KeptAll<T>(xs: seq<T>)
    ensures Kept(xs, xs)
  {
    assert Embeds(xs, xs, Upto(|xs|));
  }

  lemma KeptAppend<T>(xs: seq<T>, ys: seq<T>, more: seq<T>)
    requires Kept(xs, ys)
    ensures Kept(xs + more, ys + more)
  {
    var at :| Embeds(xs, ys, at);
    var tail: seq<nat> := seq(|more|, i requires 0 <= i < |more| => |ys| + i);
    assert Embeds(xs + more, ys + more, at + tail);
  }

  lemma KeptWithout<T>(a: seq<T>, b: seq<T>, c: seq<T>, ys: seq<T>)
    requires Kept(a + b + c, ys)
    ensures Kept(a + c, ys)
  {
    var at :| Embeds(a + b + c, ys, at);
    var at' := at[..|a|] + at[|a| + |b|..];
    forall i | 0 <= i < |a + c| ensures at'[i] < |ys| && (a + c)[i] == ys[at'[i]] {
      var j := if i < |a| then i else i + |b|;
      assert (a + b + c)[j] == (a + c)[i] && at'[i] == at[j];
    }
    assert Embeds(a + c, ys, at');
  }

  /** Positions that increase lie between their index and what the length leaves. */
  lemma {:induction false} Spread(at: seq<nat>, n: nat, i: nat)
    requires StrictlyIncreasing(at) && i < |at| && at[|at| - 1] < n
    ensures i <= at[i] <= n - |at| + i
    decreases |at|
  {
    if i < |at| - 1 {
      Spread(at[..|at| - 1], n - 1, i);
    } else if i > 0 {
      Spread(at[..|at| - 1], n - 1, i - 1);
    }
  }

  /** A subsequence of the same length is the whole, and any other is shorter. */
  lemma KeptWhole<T>(xs: seq<T>, ys: seq<T>)
    requires Kept(xs, ys)
    ensures |xs| <= |ys| && (xs == ys <==> |xs| == |ys|)
  {
    var at :| Embeds(xs, ys, at);
    forall i | 0 <= i < |xs| ensures i <= at[i] <= |ys| - |xs| + i {
      Spread(at, |ys|, i);
    }
    if xs != [] {
      assert at[0] <= |ys| - |xs|;
    }
  }

  lemma KeptPrefix<T>(xs: seq<T>, ys: seq<T>)
    requires xs != [] && Kept(xs, ys)
    ensures exists j :: 0 <= j < |ys| && ys[j] == xs[|xs| - 1] && Kept(xs[..|xs| - 1], ys[..j])
  {
    var at :| Embeds(xs, ys, at);
    var j := at[|xs| - 1];
    assert Embeds(xs[..|xs| - 1], ys[..j], at[..|xs| - 1]);
  }
}
