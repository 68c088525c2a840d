/** Promise.all over a batch, and the cutting of a sequence into batches. */
module Async {
  import opened Common

  /** The fetches launched for a batch: one per item, in batch order. */
  function Launch<L, T>(fetch: L -> Outcome<T>, batch: seq<L>): (r: seq<Outcome<T>>)
    ensures |r| == |batch|
    ensures forall k :: 0 <= k < |batch| ==> r[k] == fetch(batch[k])
  {
    seq(|batch|, k requires 0 <= k < |batch| => fetch(batch[k]))
  }

  /** Promise.all: it throws when one of the awaited outcomes throws; otherwise it yields
      every value, in the order the outcomes were given. */
  function AwaitAll<T>(outs: seq<Outcome<T>>): (r: Outcome<seq<T>>)
    ensures r.Thrown? <==> exists k :: 0 <= k < |outs| && outs[k].Thrown?
    ensures r.Done? ==> |r.value| == |outs| && forall k :: 0 <= k < |outs| ==> outs[k] == Done(r.value[k])
  {
    if exists k :: 0 <= k < |outs| && outs[k].Thrown? then Thrown
    else Done(seq(|outs|, k requires 0 <= k < |outs| => outs[k].value))
  }

  /** The fetch of some item of xs throws. */
  predicate SomeThrows<L, T>(fetch: L -> Outcome<T>, xs: seq<L>) {
    exists k :: 0 <= k < |xs| && fetch(xs[k]).Thrown?
  }

  /** The fetches of xs[..|vals|] all settled, to vals. */
  ghost predicate Settled<L, T>(fetch: L -> Outcome<T>, xs: seq<L>, vals: seq<T>) {
    |vals| <= |xs| && forall k :: 0 <= k < |vals| ==> fetch(xs[k]) == Done(vals[k])
  }

  /** A batch xs[i..end] that Promise.all rejects holds an item whose fetch throws. */
  lemma BatchThrows<L, T>(fetch: L -> Outcome<T>, xs: seq<L>, i: nat, end: nat)
    requires i <= end <= |xs| && AwaitAll(Launch(fetch, xs[i..end])).Thrown?
    ensures exists k :: i <= k < end && fetch(xs[k]).Thrown?
    ensures SomeThrows(fetch, xs)
  {
    var batch := xs[i..end];
    var k :| 0 <= k < |batch| && Launch(fetch, batch)[k].Thrown?;
    assert batch[k] == xs[i + k];
  }

  /** The values of a batch xs[i..end] that Promise.all resolves extend those settled so far. */
  lemma BatchSettles<L, T>(fetch: L -> Outcome<T>, xs: seq<L>, vals: seq<T>, end: nat)
    requires Settled(fetch, xs, vals) && |vals| <= end <= |xs|
    requires AwaitAll(Launch(fetch, xs[|vals|..end])).Done?
    ensures Settled(fetch, xs, vals + AwaitAll(Launch(fetch, xs[|vals|..end])).value)
  {
    var i := |vals|;
    var batch := xs[i..end];
    var outs := Launch(fetch, batch);
    var more := AwaitAll(outs).value;
    var all := vals + more;
    forall k | 0 <= k < |all|
      ensures fetch(xs[k]) == Done(all[k])
    {
      if k >= i {
        assert all[k] == more[k - i] && batch[k - i] == xs[k];
        assert outs[k - i] == Done(more[k - i]);
      }
    }
  }

  /** Once every item has settled, nothing threw and Promise.all over all of them yields
      the settled values. */
  lemma AllSettled<L, T>(fetch: L -> Outcome<T>, xs: seq<L>, vals: seq<T>)
    requires Settled(fetch, xs, vals) && |vals| == |xs|
    ensures !SomeThrows(fetch, xs)
    ensures AwaitAll(Launch(fetch, xs)) == Done(vals)
  {
    var outs := Launch(fetch, xs);
    assert forall k :: 0 <= k < |xs| ==> outs[k] == Done(vals[k]);
    assert AwaitAll(outs).value == vals;
  }

  /** The slices of s of length b (the last one possibly shorter) starting at from,
      from + b, from + 2b, ... while the start is inside s. */
  function Batches<T>(s: seq<T>, b: nat, from: nat): seq<seq<T>>
    requires b > 0 && from <= |s|
    decreases |s| - from
  {
    if from == |s| then [] else [s[from..Min(from + b, |s|)]] + Batches(s, b, Min(from + b, |s|))
  }

  function Flatten<T>(ss: seq<seq<T>>): seq<T> {
    if ss == [] then [] else ss[0] + Flatten(ss[1..])
  }

  /** The batches are non-empty, hold at most b items each, and together are s[from..] in order. */
  lemma {:induction false} BatchesPartition<T>(s: seq<T>, b: nat, from: nat)
    requires b > 0 && from <= |s|
    ensures Flatten(Batches(s, b, from)) == s[from..]
    ensures forall k :: 0 <= k < |Batches(s, b, from)| ==> 0 < |Batches(s, b, from)[k]| <= b
    decreases |s| - from
  {
    if from < |s| {
      var n := Min(from + b, |s|);
      BatchesPartition(s, b, n);
      assert Batches(s, b, from)[1..] == Batches(s, b, n);
      assert s[from..] == s[from..n] + s[n..];
    }
  }

  /** Batch j starts j * b items after from. */
  lemma {:induction false} BatchAt<T>(s: seq<T>, b: nat, from: nat, j: nat)
    requires b > 0 && from <= |s| && j < |Batches(s, b, from)|
    ensures from + j * b < |s|
    ensures Batches(s, b, from)[j] == s[from + j * b..Min(from + j * b + b, |s|)]
    decreases |s| - from
  {
    if j > 0 {
      var n := Min(from + b, |s|);
      assert Batches(s, b, from)[j] == Batches(s, b, n)[j - 1];
      BatchAt(s, b, n, j - 1);
      assert n == from + b;
      assert n + (j - 1) * b == from + j * b;
    }
  }
}
