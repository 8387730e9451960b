/** Option and Result, the two failure-carrying datatypes the model uses in place of
    Python's None / exceptions and JavaScript's null / rejected promises. */
module Wrappers {

  datatype Option<+T> = None | Some(value: T) {
    /** The value, or `default` when absent (Python's `dict.get(key, default)`). */
    function GetOr(default: T): T {
      match this
      case Some(v) => v
      case None => default
    }
  }

  datatype Result<+T, +E> = Ok(value: T) | Err(error: E)

  /** The values present in `xs`, in order (a filter-and-map over optional results). */
  function Somes<T>(xs: seq<Option<T>>): (r: seq<T>)
    ensures |r| <= |xs|
  {
    if xs == [] then []
    else
      var rest := Somes(xs[..|xs| - 1]);
      match xs[|xs| - 1]
      case None => rest
      case Some(v) => rest + [v]
  }

  lemma SomesSnoc<T>(xs: seq<Option<T>>, x: Option<T>)
    ensures Somes(xs + [x]) == Somes(xs) + (if x.Some? then [x.value] else [])
  {
    assert (xs + [x])[..|xs|] == xs;
  }

  /** Every value kept was present. */
  lemma {:induction false} SomesPresent<T>(xs: seq<Option<T>>, v: T)
    requires v in Somes(xs)
    ensures Some(v) in xs
  {
    var init := xs[..|xs| - 1];
    if xs[|xs| - 1] != Some(v) {
      SomesPresent(init, v);
      assert forall j :: 0 <= j < |init| ==> init[j] == xs[j];
    }
  }

  /** When every value is present, all are kept, in order. */
  lemma {:induction false} SomesAll<T>(xs: seq<Option<T>>)
    requires forall j :: 0 <= j < |xs| ==> xs[j].Some?
    ensures |Somes(xs)| == |xs|
    ensures forall j :: 0 <= j < |xs| ==> Some(Somes(xs)[j]) == xs[j]
  {
    if xs != [] {
      var init := xs[..|xs| - 1];
      SomesAll(init);
      assert forall j :: 0 <= j < |init| ==> init[j] == xs[j];
    }
  }

  /** Walks `xs` in order, keeping the values present. */
  method KeepPresent<T>(xs: seq<Option<T>>) returns (values: seq<T>)
    ensures values == Somes(xs)
  {
    values := [];
    for i := 0 to |xs|
      invariant values == Somes(xs[..i])
    {
      assert xs[..i + 1] == xs[..i] + [xs[i]];
      SomesSnoc(xs[..i], xs[i]);
      if xs[i].Some? {
        values := values + [xs[i].value];
      }
    }
    assert xs[..|xs|] == xs;
  }
}
