/**
 * Keeping, in order, the values a partial function yields for the elements
 * of a sequence: the shape of a loop that pushes a result for each element
 * it can handle and skips the others.
 */
module FilterMaps {
  import opened Results

  /** What one element contributes: the value `f` yields for it, or nothing. */
  function Kept<T, U>(f: T -> Option<U>, x: T): (k: seq<U>)
    ensures |k| == if f(x).Some? then 1 else 0
    ensures f(x).Some? ==> k == [f(x).value]
  {
    if f(x).Some? then [f(x).value] else []
  }

  /** The values `f` yields for the elements of `xs`, in element order. */
  function FilterMap<T, U>(f: T -> Option<U>, xs: seq<T>): (out: seq<U>)
    ensures |out| <= |xs|
  {
    if xs == [] then [] else FilterMap(f, xs[..|xs| - 1]) + Kept(f, xs[|xs| - 1])
  }

  /** Handling more elements only appends: the output for a prefix is a prefix of the output. */
  lemma {:induction false} PrefixOutput<T, U>(f: T -> Option<U>, xs: seq<T>, i: nat)
    requires i <= |xs|
    ensures FilterMap(f, xs[..i]) <= FilterMap(f, xs)
    decreases |xs|
  {
    if i < |xs| {
      assert xs[..|xs| - 1][..i] == xs[..i];
      PrefixOutput(f, xs[..|xs| - 1], i);
    } else {
      assert xs[..i] == xs;
    }
  }

  /** An element `f` maps to a value has that value in the output, after the outputs of the elements before it. */
  lemma Position<T, U>(f: T -> Option<U>, xs: seq<T>, i: nat)
    requires i < |xs| && f(xs[i]).Some?
    ensures |FilterMap(f, xs[..i])| < |FilterMap(f, xs)|
    ensures FilterMap(f, xs)[|FilterMap(f, xs[..i])|] == f(xs[i]).value
  {
    var upto := xs[..i + 1];
    assert upto[..i] == xs[..i] && upto[i] == xs[i];
    assert FilterMap(f, upto) == FilterMap(f, xs[..i]) + [f(xs[i]).value];
    PrefixOutput(f, xs, i + 1);
  }

  /** The element whose value is entry `k` of the output. */
  lemma {:induction false} Origin<T, U>(f: T -> Option<U>, xs: seq<T>, k: nat) returns (i: nat)
    requires k < |FilterMap(f, xs)|
    ensures i < |xs| && |FilterMap(f, xs[..i])| == k && f(xs[i]) == Some(FilterMap(f, xs)[k])
    decreases |xs|
  {
    var init := xs[..|xs| - 1];
    var last := xs[|xs| - 1];
    assert FilterMap(f, xs) == FilterMap(f, init) + Kept(f, last);
    if k < |FilterMap(f, init)| {
      i := Origin(f, init, k);
      assert init[..i] == xs[..i] && init[i] == xs[i];
      assert FilterMap(f, xs)[k] == FilterMap(f, init)[k];
    } else {
      i := |xs| - 1;
      assert xs[..i] == init;
      assert FilterMap(f, xs)[k] == f(last).value;
    }
  }

  /** When `f` maps every element to a value, the output is as long as the input. */
  lemma {:induction false} NoneDropped<T, U>(f: T -> Option<U>, xs: seq<T>)
    requires forall i :: 0 <= i < |xs| ==> f(xs[i]).Some?
    ensures |FilterMap(f, xs)| == |xs|
    decreases |xs|
  {
    if xs != [] {
      var init := xs[..|xs| - 1];
      assert forall i :: 0 <= i < |init| ==> init[i] == xs[i];
      NoneDropped(f, init);
    }
  }

  /** An element `f` maps to nothing makes the output shorter than the input. */
  lemma {:induction false} OneDropped<T, U>(f: T -> Option<U>, xs: seq<T>, i: nat)
    requires i < |xs| && f(xs[i]).None?
    ensures |FilterMap(f, xs)| < |xs|
    decreases |xs|
  {
    var init := xs[..|xs| - 1];
    assert |FilterMap(f, xs)| == |FilterMap(f, init)| + |Kept(f, xs[|xs| - 1])|;
    if i < |init| {
      assert init[i] == xs[i];
      OneDropped(f, init, i);
    }
  }
}
