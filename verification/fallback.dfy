/** `getBookInfo` (index.js:201-215): the first provider is asked at
    once, and each later provider is chained behind the previous promise
    with `.catch`, so it is asked only when everything before it failed. */
module Fallback {
  import opened Outcomes

  /** The settled outcome of a chain and the providers it invoked, in order. */
  datatype Trace<P, T> = Trace(outcome: Outcome<T>, invoked: seq<P>)

  /** The characterisation of a fallback chain over `providers` whose
      lookups settle as `call` says: it invoked a non-empty prefix of the
      list, every invoked provider but the last failed, the outcome is the
      last invoked provider's own, and a failure means the list was exhausted. */
  ghost predicate IsFallback<P, T>(providers: seq<P>, call: P -> Outcome<T>, r: Trace<P, T>) {
    && 1 <= |r.invoked| <= |providers|
    && r.invoked == providers[..|r.invoked|]
    && (forall i :: 0 <= i < |r.invoked| - 1 ==> call(r.invoked[i]).Err?)
    && r.outcome == call(r.invoked[|r.invoked| - 1])
    && (r.outcome.Err? ==> |r.invoked| == |providers|)
  }

  /** One step of the `reduce`: `promise.catch(err => resolver(provider))`.
      A fulfilled chain passes through untouched; a rejected one asks `p`. */
  function Catch<P, T>(acc: Trace<P, T>, p: P, call: P -> Outcome<T>): (r: Trace<P, T>)
    ensures r.outcome.Ok? <==> acc.outcome.Ok? || call(p).Ok?
    ensures |r.invoked| == |acc.invoked| + (if acc.outcome.Err? then 1 else 0)
    ensures r.invoked[..|acc.invoked|] == acc.invoked
  {
    if acc.outcome.Err? then Trace(call(p), acc.invoked + [p]) else acc
  }

  /** Each `.catch` step extends a fallback over a list to a fallback over
      the list with one more provider behind it. */
  lemma {:induction false} CatchExtends<P, T>(providers: seq<P>, p: P, call: P -> Outcome<T>, acc: Trace<P, T>)
    requires IsFallback(providers, call, acc)
    ensures IsFallback(providers + [p], call, Catch(acc, p, call))
  {
    var ps := providers + [p];
    var n := |acc.invoked|;
    assert ps[..n] == providers[..n];
    if acc.outcome.Err? {
      var inv := acc.invoked + [p];
      assert n == |providers|;
      assert inv == ps[..n + 1];
      assert forall i :: 0 <= i < n ==> inv[i] == acc.invoked[i];
    }
  }

  /** The `reduce` over the remaining providers, left to right. */
  function Chain<P, T>(acc: Trace<P, T>, rest: seq<P>, call: P -> Outcome<T>): Trace<P, T>
    decreases |rest|
  {
    if |rest| == 0 then acc else Chain(Catch(acc, rest[0], call), rest[1..], call)
  }

  /** `getBookInfo` as written: the seed lookup of the first provider,
      returned alone when there are no others, else with the rest chained
      behind it. An empty list would fail before any lookup, reading the
      resolver of `undefined`; the only caller passes a non-empty order. */
  function GetBookInfo<P, T>(providers: seq<P>, call: P -> Outcome<T>): (r: Trace<P, T>)
    requires |providers| > 0
    ensures IsFallback(providers, call, r)
  {
    var seed := Trace(call(providers[0]), [providers[0]]);
    ChainIsFirstSuccess(seed, providers[1..], call);
    assert providers == [providers[0]] + providers[1..];
    if |providers| == 1 then seed else Chain(seed, providers[1..], call)
  }

  /** An independent definition of the same fallback: ask the head; keep its
      outcome if it succeeds or nothing is left, and otherwise fall back to
      the tail. */
  function FirstSuccess<P, T>(providers: seq<P>, call: P -> Outcome<T>): (r: Trace<P, T>)
    requires |providers| > 0
    ensures IsFallback(providers, call, r)
    decreases |providers|
  {
    var head := call(providers[0]);
    if head.Ok? || |providers| == 1 then Trace(head, [providers[0]])
    else
      var tail := FirstSuccess(providers[1..], call);
      assert forall i :: 1 <= i < |tail.invoked| + 1 ==> ([providers[0]] + tail.invoked)[i] == tail.invoked[i - 1];
      Trace(tail.outcome, [providers[0]] + tail.invoked)
  }

  /** Continuing a chain: once fulfilled it stays as it is; while rejected,
      it proceeds exactly as the fallback over the remaining providers. */
  lemma {:induction false} ChainIsFirstSuccess<P, T>(acc: Trace<P, T>, rest: seq<P>, call: P -> Outcome<T>)
    ensures acc.outcome.Ok? ==> Chain(acc, rest, call) == acc
    ensures acc.outcome.Err? && |rest| > 0 ==>
      var f := FirstSuccess(rest, call);
      Chain(acc, rest, call) == Trace(f.outcome, acc.invoked + f.invoked)
    decreases |rest|
  {
    if acc.outcome.Ok? {
      ChainKeepsOk(acc, rest, call);
    } else if |rest| > 0 {
      var head := call(rest[0]);
      var next := Trace(head, acc.invoked + [rest[0]]);
      assert Chain(acc, rest, call) == Chain(next, rest[1..], call);
      FirstSuccessStep(rest, call);
      if head.Ok? {
        ChainKeepsOk(next, rest[1..], call);
      } else if |rest| > 1 {
        ChainIsFirstSuccess(next, rest[1..], call);
        var tail := FirstSuccess(rest[1..], call);
        assert next.invoked + tail.invoked == acc.invoked + ([rest[0]] + tail.invoked);
      }
    }
  }

  /** One unfolding of the reference fallback. */
  lemma FirstSuccessStep<P, T>(rest: seq<P>, call: P -> Outcome<T>)
    requires |rest| > 0
    ensures call(rest[0]).Ok? || |rest| == 1 ==> FirstSuccess(rest, call) == Trace(call(rest[0]), [rest[0]])
    ensures call(rest[0]).Err? && |rest| > 1 ==>
      var tail := FirstSuccess(rest[1..], call);
      FirstSuccess(rest, call) == Trace(tail.outcome, [rest[0]] + tail.invoked)
  {
  }

  /** A fulfilled chain passes through every later `.catch` step unchanged. */
  lemma {:induction false} ChainKeepsOk<P, T>(acc: Trace<P, T>, rest: seq<P>, call: P -> Outcome<T>)
    requires acc.outcome.Ok?
    ensures Chain(acc, rest, call) == acc
    decreases |rest|
  {
    if |rest| > 0 {
      ChainKeepsOk(acc, rest[1..], call);
    }
  }

  /** The chain as written and the independent definition agree on every
      list and every set of lookup outcomes. */
  lemma GetBookInfoIsFirstSuccess<P, T>(providers: seq<P>, call: P -> Outcome<T>)
    requires |providers| > 0
    ensures GetBookInfo(providers, call) == FirstSuccess(providers, call)
  {
    var seed := Trace(call(providers[0]), [providers[0]]);
    ChainIsFirstSuccess(seed, providers[1..], call);
  }

  /** The first provider in list order that succeeds decides the outcome,
      and no provider after it is invoked. */
  lemma FirstOkWins<P, T>(providers: seq<P>, call: P -> Outcome<T>, k: nat)
    requires k < |providers|
    requires call(providers[k]).Ok?
    requires forall i :: 0 <= i < k ==> call(providers[i]).Err?
    ensures GetBookInfo(providers, call) == Trace(call(providers[k]), providers[..k + 1])
  {
  }

  /** When every provider fails, the chain fails with the last provider's
      error, having invoked every provider in order. */
  lemma AllFailLastError<P, T>(providers: seq<P>, call: P -> Outcome<T>)
    requires |providers| > 0
    requires forall i :: 0 <= i < |providers| ==> call(providers[i]).Err?
    ensures GetBookInfo(providers, call) == Trace(call(providers[|providers| - 1]), providers)
  {
    var r := GetBookInfo(providers, call);
    assert r.invoked[|r.invoked| - 1] == providers[|r.invoked| - 1];
  }

  /** The chain succeeds exactly when some provider in the list would. */
  lemma SucceedsIffSomeSucceeds<P, T>(providers: seq<P>, call: P -> Outcome<T>)
    requires |providers| > 0
    ensures GetBookInfo(providers, call).outcome.Ok? <==> exists i :: 0 <= i < |providers| && call(providers[i]).Ok?
  {
    var r := GetBookInfo(providers, call);
    if r.outcome.Ok? {
      assert call(providers[|r.invoked| - 1]).Ok?;
    }
  }

  /** A one-element list settles with that provider's outcome unchanged. */
  lemma SingleProvider<P, T>(p: P, call: P -> Outcome<T>)
    ensures GetBookInfo([p], call) == Trace(call(p), [p])
  {
  }
}
