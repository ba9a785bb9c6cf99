/**
 * A loop that appends, item by item, whatever an item yields and skips the
 * items that yield nothing (`if x: out.append(x)`): the result keeps the
 * order of the items, holds every value some item yields, and nothing else.
 */
module FilterMap {
  import opened Values

  /** What `f` yields for the items `xs`, in order, skipping the items it yields nothing for. */
  function Collect<T, U>(f: T -> Option<U>, xs: seq<T>): (ys: seq<U>)
    ensures |ys| <= |xs|
  {
    if xs == [] then []
    else
      var rest := Collect(f, xs[..|xs| - 1]);
      match f(xs[|xs| - 1])
      case None => rest
      case Some(y) => rest + [y]
  }

  lemma CollectNext<T, U>(f: T -> Option<U>, xs: seq<T>, i: nat)
    requires i < |xs|
    ensures Collect(f, xs[..i + 1]) == Collect(f, xs[..i]) + (if f(xs[i]).Some? then [f(xs[i]).value] else [])
  {
    assert xs[..i + 1][..i] == xs[..i];
  }

  /** Each collected value comes from some item. */
  lemma {:induction false} CollectFrom<T, U>(f: T -> Option<U>, xs: seq<T>, y: U)
    requires y in Collect(f, xs)
    ensures exists j | 0 <= j < |xs| :: f(xs[j]) == Some(y)
  {
    var n := |xs| - 1;
    CollectNext(f, xs, n);
    assert xs[..n + 1] == xs;
    if y in Collect(f, xs[..n]) {
      CollectFrom(f, xs[..n], y);
      var j :| 0 <= j < n && f(xs[..n][j]) == Some(y);
      assert xs[..n][j] == xs[j];
    } else {
      assert f(xs[n]) == Some(y);
    }
  }

  /** Each item that yields a value contributes it. */
  lemma {:induction false} CollectHas<T, U>(f: T -> Option<U>, xs: seq<T>, j: nat)
    requires j < |xs| && f(xs[j]).Some?
    ensures f(xs[j]).value in Collect(f, xs)
  {
    var n := |xs| - 1;
    CollectNext(f, xs, n);
    assert xs[..n + 1] == xs;
    if j < n {
      assert xs[..n][j] == xs[j];
      CollectHas(f, xs[..n], j);
    }
  }

  /** The values collected from a prefix of the items come first. */
  lemma {:induction false} CollectPrefix<T, U>(f: T -> Option<U>, xs: seq<T>, i: nat)
    requires i <= |xs|
    ensures Collect(f, xs[..i]) <= Collect(f, xs)
    decreases |xs|
  {
    if i < |xs| {
      var n := |xs| - 1;
      CollectNext(f, xs, n);
      assert xs[..n + 1] == xs;
      assert xs[..n][..i] == xs[..i];
      CollectPrefix(f, xs[..n], i);
    } else {
      assert xs[..i] == xs;
    }
  }
}
