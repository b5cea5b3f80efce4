/** Kotlin's `mapNotNull` on lists. */
module Lists {
  import opened Wrappers

  /** `xs.mapNotNull(f)`: the present results of `f`, in the order of `xs`. */
  function MapNotNull<A, B>(xs: seq<A>, f: A -> Option<B>): (r: seq<B>)
    ensures |r| <= |xs|
    ensures forall y :: y in r ==> exists x :: x in xs && f(x) == Some(y)
  {
    if xs == [] then []
    else
      var rest := MapNotNull(xs[1..], f);
      assert forall y :: y in rest ==> exists x :: x in xs && f(x) == Some(y) by {
        forall y | y in rest ensures exists x :: x in xs && f(x) == Some(y) {
          var x :| x in xs[1..] && f(x) == Some(y);
          assert x in xs;
        }
      }
      if f(xs[0]).Some? then [f(xs[0]).value] + rest else rest
  }

  lemma {:induction false} MapNotNullAppend<A, B>(xs: seq<A>, ys: seq<A>, f: A -> Option<B>)
    ensures MapNotNull(xs + ys, f) == MapNotNull(xs, f) + MapNotNull(ys, f)
    decreases |xs|
  {
    if xs == [] {
      assert xs + ys == ys;
    } else {
      MapNotNullAppend(xs[1..], ys, f);
      assert (xs + ys)[0] == xs[0];
      assert (xs + ys)[1..] == xs[1..] + ys;
    }
  }

  /** When `f` gives a value for every element, `mapNotNull` is a plain map. */
  lemma {:induction false} MapNotNullTotal<A, B>(xs: seq<A>, f: A -> Option<B>, ys: seq<B>)
    requires |xs| == |ys|
    requires forall i :: 0 <= i < |xs| ==> f(xs[i]) == Some(ys[i])
    ensures MapNotNull(xs, f) == ys
    decreases |xs|
  {
    if xs != [] {
      MapNotNullTotal(xs[1..], f, ys[1..]);
    }
  }

  /** `xs.indexOf(x)`, with `|xs|` standing for "absent". */
  function FirstIndex<T(==)>(xs: seq<T>, x: T): (i: nat)
    ensures i <= |xs|
    ensures i < |xs| ==> xs[i] == x
    ensures forall j :: 0 <= j < i ==> xs[j] != x
  {
    if xs == [] then 0
    else if xs[0] == x then 0
    else 1 + FirstIndex(xs[1..], x)
  }

  /** `xs.remove(x)` on a mutable list: the first element equal to `x` is taken out. */
  function RemoveFirst<T(==)>(xs: seq<T>, x: T): seq<T>
  {
    if xs == [] then []
    else if xs[0] == x then xs[1..]
    else [xs[0]] + RemoveFirst(xs[1..], x)
  }

  /** The element taken out is the first one equal to `x`, the others keep their order, and without one nothing changes. */
  lemma {:induction false} RemoveFirstSplices<T>(xs: seq<T>, x: T)
    ensures FirstIndex(xs, x) < |xs| ==> RemoveFirst(xs, x) == xs[..FirstIndex(xs, x)] + xs[FirstIndex(xs, x) + 1..]
    ensures FirstIndex(xs, x) == |xs| ==> RemoveFirst(xs, x) == xs
  {
    if xs != [] && xs[0] != x {
      var tail := xs[1..];
      RemoveFirstSplices(tail, x);
      var k := FirstIndex(tail, x);
      assert FirstIndex(xs, x) == k + 1;
      if k < |tail| {
        assert xs[..k + 1] == [xs[0]] + tail[..k];
        assert xs[k + 2..] == tail[k + 1..];
      } else {
        assert xs == [xs[0]] + tail;
      }
    }
  }

  /** As a multiset, the result is the list with one copy of `x` fewer. */
  lemma {:induction false} RemoveFirstMultiset<T>(xs: seq<T>, x: T)
    ensures multiset(RemoveFirst(xs, x)) == multiset(xs) - multiset{x}
  {
    if xs != [] {
      assert xs == [xs[0]] + xs[1..];
      if xs[0] != x {
        RemoveFirstMultiset(xs[1..], x);
      }
    }
  }

  /** Every element after the one removed is still in the list. */
  lemma {:induction false} RemoveFirstKeepsLater<T>(xs: seq<T>, x: T, j: nat)
    requires FirstIndex(xs, x) < j < |xs|
    ensures xs[j] in RemoveFirst(xs, x)
  {
    if xs[0] != x {
      RemoveFirstKeepsLater(xs[1..], x, j - 1);
    }
  }
}
