/**
 * The two shapes of the collection loops of `Program.Main`, stated once for
 * any element type: `Collect` keeps, in order, what a partial step yields
 * (`continue` when it yields nothing), and `Gather` concatenates, in order,
 * the lists a step yields.
 */
module Sequences {
  import opened Wrappers

  /** `p` is a prefix of `s`, compared element by element. */
  predicate StartsWith<T(==)>(s: seq<T>, p: seq<T>)
  {
    |p| <= |s| && s[..|p|] == p
  }

  /** The values `f` yields on the elements of `xs`, in order. */
  function Collect<A, B>(xs: seq<A>, f: A -> Option<B>): (r: seq<B>)
    ensures |r| <= |xs|
  {
    if xs == [] then []
    else
      Collect(xs[..|xs| - 1], f) + (match f(xs[|xs| - 1]) case Some(y) => [y] case None => [])
  }

  /** The lists `f` yields on the elements of `xs`, concatenated in order. */
  function Gather<A, B>(xs: seq<A>, f: A -> seq<B>): (r: seq<B>)
  {
    if xs == [] then [] else Gather(xs[..|xs| - 1], f) + f(xs[|xs| - 1])
  }

  lemma {:induction false} CollectAppend<A, B>(a: seq<A>, b: seq<A>, f: A -> Option<B>)
    ensures Collect(a + b, f) == Collect(a, f) + Collect(b, f)
    decreases |b|
  {
    if b == [] {
      assert a + b == a;
    } else {
      var b' := b[..|b| - 1];
      assert (a + b)[..|a + b| - 1] == a + b';
      CollectAppend(a, b', f);
    }
  }

  lemma {:induction false} CollectSound<A, B>(xs: seq<A>, f: A -> Option<B>, y: B)
    requires y in Collect(xs, f)
    ensures exists k :: 0 <= k < |xs| && f(xs[k]) == Some(y)
  {
    var n := |xs| - 1;
    var pre := xs[..n];
    if f(xs[n]) != Some(y) {
      assert y in Collect(pre, f);
      CollectSound(pre, f, y);
      var k :| 0 <= k < |pre| && f(pre[k]) == Some(y);
      assert xs[k] == pre[k];
    }
  }

  lemma {:induction false} CollectComplete<A, B>(xs: seq<A>, f: A -> Option<B>, k: nat, y: B)
    requires k < |xs| && f(xs[k]) == Some(y)
    ensures y in Collect(xs, f)
  {
    var n := |xs| - 1;
    var pre := xs[..n];
    if k < n {
      assert pre[k] == xs[k];
      CollectComplete(pre, f, k, y);
    }
  }

  lemma {:induction false} GatherSound<A, B>(xs: seq<A>, f: A -> seq<B>, y: B)
    requires y in Gather(xs, f)
    ensures exists k :: 0 <= k < |xs| && y in f(xs[k])
  {
    var n := |xs| - 1;
    var pre := xs[..n];
    if y !in f(xs[n]) {
      assert y in Gather(pre, f);
      GatherSound(pre, f, y);
      var k :| 0 <= k < |pre| && y in f(pre[k]);
      assert xs[k] == pre[k];
    }
  }

  lemma {:induction false} GatherComplete<A, B>(xs: seq<A>, f: A -> seq<B>, k: nat, y: B)
    requires k < |xs| && y in f(xs[k])
    ensures y in Gather(xs, f)
  {
    var n := |xs| - 1;
    var pre := xs[..n];
    if k < n {
      assert pre[k] == xs[k];
      GatherComplete(pre, f, k, y);
    }
  }
}
