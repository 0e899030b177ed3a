/** The optional value Python code expresses with `None`, and the
    list comprehension `[f(x) for x in xs if f(x) is not None]`. */
module Wrappers {

  datatype Option<+T> = None | Some(value: T)

  /** The zero-or-one element sequence an optional value contributes to a list. */
  function Keep<T>(o: Option<T>): seq<T>
  {
    if o.Some? then [o.value] else []
  }

  /** The values `f` gives for the elements of `xs`, in order, skipping
      the elements it rejects. */
  function FilterMap<T, U>(xs: seq<T>, f: T -> Option<U>): (r: seq<U>)
    ensures |r| <= |xs|
  {
    if xs == [] then [] else Keep(f(xs[0])) + FilterMap(xs[1..], f)
  }

  /** The sequences `f` gives for the elements of `xs`, one after the other. */
  function FlatMap<T, U>(xs: seq<T>, f: T -> seq<U>): seq<U> {
    if xs == [] then [] else f(xs[0]) + FlatMap(xs[1..], f)
  }

  lemma {:induction false} FlatMapAppend<T, U>(a: seq<T>, b: seq<T>, f: T -> seq<U>)
    ensures FlatMap(a + b, f) == FlatMap(a, f) + FlatMap(b, f)
  {
    if a == [] {
      assert a + b == b;
    } else {
      assert (a + b)[0] == a[0] && (a + b)[1..] == a[1..] + b;
      FlatMapAppend(a[1..], b, f);
    }
  }

  lemma FlatMapSingle<T, U>(x: T, f: T -> seq<U>)
    ensures FlatMap([x], f) == f(x)
  {
    assert [x][1..] == [];
  }

  /** Filtering a concatenation filters each part. */
  lemma {:induction false} FilterMapAppend<T, U>(a: seq<T>, b: seq<T>, f: T -> Option<U>)
    ensures FilterMap(a + b, f) == FilterMap(a, f) + FilterMap(b, f)
  {
    if a == [] {
      assert a + b == b;
    } else {
      assert (a + b)[0] == a[0] && (a + b)[1..] == a[1..] + b;
      FilterMapAppend(a[1..], b, f);
    }
  }

  /** One more element adds what `f` gives for it at the end: the step of a
      loop that appends as it goes. */
  lemma FilterMapSnoc<T, U>(xs: seq<T>, x: T, f: T -> Option<U>)
    ensures FilterMap(xs + [x], f) == FilterMap(xs, f) + Keep(f(x))
  {
    FilterMapAppend(xs, [x], f);
    FilterMapSingle(x, f);
  }

  /** The step of a loop over `xs` that appends as it goes: one more
      element of the prefix adds what `f` gives for it at the end. */
  lemma FilterMapPrefix<T, U>(xs: seq<T>, k: nat, f: T -> Option<U>)
    requires k < |xs|
    ensures FilterMap(xs[..k + 1], f) == FilterMap(xs[..k], f) + Keep(f(xs[k]))
  {
    assert xs[..k + 1] == xs[..k] + [xs[k]];
    FilterMapSnoc(xs[..k], xs[k], f);
  }

  /** A single element contributes what `f` gives for it. */
  lemma FilterMapSingle<T, U>(x: T, f: T -> Option<U>)
    ensures FilterMap([x], f) == Keep(f(x))
  {
    assert [x][1..] == [];
  }

  /** Every value kept satisfies what `f` promises of its results. */
  lemma {:induction false} FilterMapAll<T, U>(xs: seq<T>, f: T -> Option<U>, p: U -> bool)
    requires forall x :: f(x).Some? ==> p(f(x).value)
    ensures forall k :: 0 <= k < |FilterMap(xs, f)| ==> p(FilterMap(xs, f)[k])
  {
    if xs != [] {
      FilterMapAll(xs[1..], f, p);
    }
  }

  /** A function that rejects nothing keeps every element. */
  lemma {:induction false} FilterMapTotal<T, U>(xs: seq<T>, f: T -> Option<U>)
    requires forall k :: 0 <= k < |xs| ==> f(xs[k]).Some?
    ensures |FilterMap(xs, f)| == |xs|
    ensures forall k :: 0 <= k < |xs| ==> FilterMap(xs, f)[k] == f(xs[k]).value
  {
    if xs != [] {
      FilterMapTotal(xs[1..], f);
    }
  }
}
