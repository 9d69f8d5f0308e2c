/** Failure outcomes shared by the whole model.

    The program signals failure in two ways: a Python exception that nobody
    catches, and `msg(color, text, 1)`, which prints `text` and ends the
    process with status 1. Both become an `Error`; a computation that can
    fail returns a `Result`. */
module Outcomes {

  datatype Error =
    | KeyError(key: string)          // a dictionary has no such key
    | TypeError(reason: string)      // an operation met a value of the wrong shape
    | ValueError(reason: string)     // a helper rejected its argument
    | AttributeError(name: string)   // the facade has no accessor of that name
    | IndexError(reason: string)     // a sequence is too short for the position asked
    | ZeroDivisionError
    | ClientError(message: string)   // the cloud provider refused a request
    | Exit(message: string)          // msg(..., 1): message printed, exit status 1

  /** The failures of reading a document: a missing key or a value of the
      wrong shape. */
  predicate LookupFailure(e: Error)
  {
    e.KeyError? || e.TypeError?
  }

  datatype Option<+T> = None | Some(value: T)

  datatype Result<+T> = Ok(value: T) | Err(error: Error) {
    predicate IsFailure() { Err? }
    function PropagateFailure<U>(): Result<U> requires Err? { Err(error) }
    function Extract(): T requires Ok? { value }
  }

  /** Applies `f` to the elements in order and stops at the first failure,
      as a Python loop or list comprehension does when an element raises. */
  function MapAll<A, B>(xs: seq<A>, f: A -> Result<B>): Result<seq<B>>
  {
    if xs == [] then Ok([])
    else
      var init :- MapAll(xs[..|xs| - 1], f);
      var last :- f(xs[|xs| - 1]);
      Ok(init + [last])
  }

  /** The concatenation of a sequence of blocks, in order. */
  function Flatten<B>(blocks: seq<seq<B>>): seq<B>
  {
    if blocks == [] then [] else Flatten(blocks[..|blocks| - 1]) + blocks[|blocks| - 1]
  }

  /** Like MapAll, for a loop whose every step appends a block of results. */
  function FlatMapAll<A, B>(xs: seq<A>, f: A -> Result<seq<B>>): Result<seq<B>>
  {
    var blocks :- MapAll(xs, f);
    Ok(Flatten(blocks))
  }

  /** MapAll succeeds exactly when every application does; its values are
      then the applications' values, one per element, in order. */
  lemma {:induction false} MapAllOk<A, B>(xs: seq<A>, f: A -> Result<B>)
    ensures MapAll(xs, f).Ok? <==> forall i :: 0 <= i < |xs| ==> f(xs[i]).Ok?
    ensures MapAll(xs, f).Ok? ==>
              |MapAll(xs, f).value| == |xs| &&
              forall i :: 0 <= i < |xs| ==> MapAll(xs, f).value[i] == f(xs[i]).value
  {
    if xs != [] {
      var init := xs[..|xs| - 1];
      MapAllOk(init, f);
      assert forall i :: 0 <= i < |init| ==> init[i] == xs[i];
    }
  }

  /** MapAll over elements whose applications all give the expected values. */
  lemma MapAllIs<A, B>(xs: seq<A>, f: A -> Result<B>, ys: seq<B>)
    requires |ys| == |xs| && forall i :: 0 <= i < |xs| ==> f(xs[i]) == Ok(ys[i])
    ensures MapAll(xs, f) == Ok(ys)
  {
    MapAllOk(xs, f);
    assert MapAll(xs, f).value == ys;
  }

  /** Element `k` of a successful MapAll. */
  lemma MapAllAt<A, B>(xs: seq<A>, f: A -> Result<B>, ys: seq<B>, k: nat)
    requires MapAll(xs, f) == Ok(ys) && k < |xs|
    ensures |ys| == |xs| && f(xs[k]) == Ok(ys[k])
  {
    MapAllOk(xs, f);
  }

  /** A failure of MapAll is the failure of the first element that fails. */
  lemma {:induction false} MapAllErr<A, B>(xs: seq<A>, f: A -> Result<B>)
    requires MapAll(xs, f).Err?
    ensures exists k :: 0 <= k < |xs| && f(xs[k]) == Err(MapAll(xs, f).error) &&
                        forall i :: 0 <= i < k ==> f(xs[i]).Ok?
  {
    var init := xs[..|xs| - 1];
    assert forall i :: 0 <= i < |init| ==> init[i] == xs[i];
    if MapAll(init, f).Err? {
      MapAllErr(init, f);
    } else {
      MapAllOk(init, f);
      assert f(xs[|xs| - 1]) == Err(MapAll(xs, f).error);
    }
  }

  /** When no element can fail other than as a lookup fails, neither can MapAll. */
  lemma MapAllFailure<A, B>(xs: seq<A>, f: A -> Result<B>)
    requires forall i :: 0 <= i < |xs| && f(xs[i]).Err? ==> LookupFailure(f(xs[i]).error)
    ensures MapAll(xs, f).Err? ==> LookupFailure(MapAll(xs, f).error)
  {
    if MapAll(xs, f).Err? {
      MapAllErr(xs, f);
    }
  }

  /** One more step of the loop that MapAll describes. */
  lemma MapAllStep<A, B>(xs: seq<A>, i: nat, f: A -> Result<B>)
    requires i < |xs|
    ensures MapAll(xs[..i + 1], f) ==
              (var init :- MapAll(xs[..i], f); var last :- f(xs[i]); Ok(init + [last]))
  {
    assert xs[..i + 1][..i] == xs[..i];
  }

  /** Once a prefix has failed, the loop over the whole sequence fails the same way. */
  lemma {:induction false} MapAllPrefixErr<A, B>(xs: seq<A>, k: nat, f: A -> Result<B>)
    requires k <= |xs| && MapAll(xs[..k], f).Err?
    ensures MapAll(xs, f) == MapAll(xs[..k], f)
    decreases |xs| - k
  {
    if k < |xs| {
      MapAllStep(xs, k, f);
      MapAllPrefixErr(xs, k + 1, f);
    } else {
      assert xs[..k] == xs;
    }
  }

  lemma ConcatAssoc<T>(a: seq<T>, b: seq<T>, c: seq<T>)
    ensures a + b + c == a + (b + c)
  {
  }

  lemma FlattenStep<B>(blocks: seq<seq<B>>, b: seq<B>)
    ensures Flatten(blocks + [b]) == Flatten(blocks) + b
  {
    assert (blocks + [b])[..|blocks|] == blocks;
  }

  /** MapAll over two sequences in turn, when both succeed. */
  lemma {:induction false} MapAllAppend<A, B>(xs: seq<A>, ys: seq<A>, f: A -> Result<B>)
    requires MapAll(xs, f).Ok? && MapAll(ys, f).Ok?
    ensures MapAll(xs + ys, f) == Ok(MapAll(xs, f).value + MapAll(ys, f).value)
  {
    MapAllOk(xs, f);
    MapAllOk(ys, f);
    forall i | 0 <= i < |xs + ys| ensures f((xs + ys)[i]).Ok? {
      if i >= |xs| { assert (xs + ys)[i] == ys[i - |xs|]; }
    }
    MapAllOk(xs + ys, f);
    var joined := MapAll(xs, f).value + MapAll(ys, f).value;
    forall i | 0 <= i < |xs + ys| ensures MapAll(xs + ys, f).value[i] == joined[i] {
      if i >= |xs| { assert (xs + ys)[i] == ys[i - |xs|]; }
    }
    assert MapAll(xs + ys, f).value == joined;
  }

  lemma {:induction false} FlattenAppend<B>(b1: seq<seq<B>>, b2: seq<seq<B>>)
    ensures Flatten(b1 + b2) == Flatten(b1) + Flatten(b2)
    decreases |b2|
  {
    if b2 == [] {
      assert b1 + b2 == b1;
    } else {
      var init := b2[..|b2| - 1];
      assert (b1 + b2)[..|b1 + b2| - 1] == b1 + init;
      FlattenAppend(b1, init);
    }
  }

  /** The length of a concatenation is the sum of the block lengths. */
  function TotalLength<B>(blocks: seq<seq<B>>): nat
  {
    if blocks == [] then 0 else TotalLength(blocks[..|blocks| - 1]) + |blocks[|blocks| - 1]|
  }

  lemma {:induction false} FlattenLength<B>(blocks: seq<seq<B>>)
    ensures |Flatten(blocks)| == TotalLength(blocks)
  {
    if blocks != [] { FlattenLength(blocks[..|blocks| - 1]); }
  }

  /** Every element of a concatenation comes from some block, and every
      element of every block is in the concatenation. */
  lemma {:induction false} FlattenMembers<B>(blocks: seq<seq<B>>, x: B)
    ensures x in Flatten(blocks) <==> exists i :: 0 <= i < |blocks| && x in blocks[i]
  {
    if blocks != [] {
      var init := blocks[..|blocks| - 1];
      FlattenMembers(init, x);
      assert forall i :: 0 <= i < |init| ==> init[i] == blocks[i];
      if x in blocks[|blocks| - 1] {
        assert x in Flatten(blocks);
      }
    }
  }

  /** A loop that stops at the first element whose step fails. */
  lemma MapAllStops<A, B>(xs: seq<A>, i: nat, f: A -> Result<B>)
    requires i < |xs| && MapAll(xs[..i], f).Ok? && f(xs[i]).Err?
    ensures MapAll(xs, f) == Err(f(xs[i]).error)
  {
    MapAllStep(xs, i, f);
    MapAllPrefixErr(xs, i + 1, f);
  }

  /** One step of a loop that computes MapAll: the next element either
      extends the results or ends the whole computation with its failure. */
  lemma MapAllNext<A, B>(xs: seq<A>, i: nat, f: A -> Result<B>, acc: seq<B>, y: Result<B>)
    requires i < |xs| && MapAll(xs[..i], f) == Ok(acc) && y == f(xs[i])
    ensures y.Ok? ==> MapAll(xs[..i + 1], f) == Ok(acc + [y.value])
    ensures y.Err? ==> MapAll(xs, f) == Err(y.error)
  {
    MapAllStep(xs, i, f);
    if y.Err? {
      MapAllStops(xs, i, f);
    }
  }

  /** The loop behind a list comprehension, `[f(x) for x in xs]`: applies
      `f` in order and stops at the first failure. */
  method ForEach<A, B>(xs: seq<A>, f: A -> Result<B>) returns (r: Result<seq<B>>)
    ensures r == MapAll(xs, f)
    ensures r.Ok? ==> |r.value| == |xs|
  {
    var out: seq<B> := [];
    for i := 0 to |xs|
      invariant MapAll(xs[..i], f) == Ok(out)
    {
      var y := f(xs[i]);
      MapAllNext(xs, i, f, out, y);
      if y.Err? {
        return Err(y.error);
      }
      out := out + [y.value];
    }
    assert xs[..|xs|] == xs;
    MapAllOk(xs, f);
    return Ok(out);
  }
}
