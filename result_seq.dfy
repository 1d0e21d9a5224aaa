// Applying a step that can raise to each element of a list in turn, as a Python loop that appends
// each result and lets the first exception escape.
module ResultSeq {
  import opened Wrappers

  /** The results of f on xs in order, or the error of the first element on which f fails. */
  function MapResult<A, B, E>(xs: seq<A>, f: A -> Result<B, E>): (r: Result<seq<B>, E>)
    ensures r.Ok? ==> |r.value| == |xs|
  {
    if xs == [] then Ok([])
    else
      var prev := MapResult(xs[..|xs| - 1], f);
      if prev.Err? then prev
      else
        var c := f(xs[|xs| - 1]);
        if c.Err? then Err(c.error) else Ok(prev.value + [c.value])
  }

  /** Element i of a successful result is f of element i. */
  lemma {:induction false} MapResultAt<A, B, E>(xs: seq<A>, f: A -> Result<B, E>, i: nat)
    requires i < |xs| && MapResult(xs, f).Ok?
    ensures f(xs[i]).Ok? && MapResult(xs, f).value[i] == f(xs[i]).value
  {
    var pre := xs[..|xs| - 1];
    if i < |pre| {
      MapResultAt(pre, f, i);
    }
  }

  /** Once a prefix has failed, the whole list fails. */
  lemma {:induction false} MapResultFailurePersists<A, B, E>(xs: seq<A>, f: A -> Result<B, E>, k: nat)
    requires k <= |xs| && MapResult(xs[..k], f).Err?
    ensures MapResult(xs, f).Err?
    decreases |xs| - k
  {
    if k < |xs| {
      assert xs[..k + 1][..k] == xs[..k];
      MapResultFailurePersists(xs, f, k + 1);
    } else {
      assert xs[..k] == xs;
    }
  }

  /** The list fails exactly when f fails on one of its elements. */
  lemma {:induction false} MapResultFails<A, B, E>(xs: seq<A>, f: A -> Result<B, E>)
    ensures MapResult(xs, f).Err? <==> exists i :: 0 <= i < |xs| && f(xs[i]).Err?
  {
    if xs != [] {
      var pre := xs[..|xs| - 1];
      MapResultFails(pre, f);
      if exists i :: 0 <= i < |pre| && f(pre[i]).Err? {
        var i :| 0 <= i < |pre| && f(pre[i]).Err?;
        assert xs[i] == pre[i];
      }
      if exists i :: 0 <= i < |xs| && f(xs[i]).Err? {
        var i :| 0 <= i < |xs| && f(xs[i]).Err?;
        if i < |pre| {
          assert pre[i] == xs[i];
        }
      }
    }
  }

  /**
   * The outputs of f on the elements in order, numbering them from 1, each output a list of rows
   * appended to the earlier ones; or the error of the first element on which f fails.
   */
  function ConcatNumbered<A, R, E>(xs: seq<A>, f: (nat, A) -> Result<seq<R>, E>): Result<seq<R>, E>
  {
    if xs == [] then Ok([])
    else
      match ConcatNumbered(xs[..|xs| - 1], f)
      case Err(e) => Err(e)
      case Ok(acc) =>
        match f(|xs|, xs[|xs| - 1])
        case Err(e) => Err(e)
        case Ok(rows) => Ok(acc + rows)
  }

  lemma ConcatNumberedSnoc<A, R, E>(xs: seq<A>, f: (nat, A) -> Result<seq<R>, E>, i: nat, acc: seq<R>, rows: seq<R>)
    requires i < |xs| && ConcatNumbered(xs[..i], f) == Ok(acc) && f(i + 1, xs[i]) == Ok(rows)
    ensures ConcatNumbered(xs[..i + 1], f) == Ok(acc + rows)
  {
    assert xs[..i + 1][..i] == xs[..i];
  }

  /** Once a prefix has failed, the whole list fails with the same error. */
  lemma {:induction false} ConcatNumberedErrSticks<A, R, E>(xs: seq<A>, f: (nat, A) -> Result<seq<R>, E>, n: nat)
    requires n <= |xs| && ConcatNumbered(xs[..n], f).Err?
    ensures ConcatNumbered(xs, f) == ConcatNumbered(xs[..n], f)
    decreases |xs| - n
  {
    if n < |xs| {
      assert xs[..n + 1][..n] == xs[..n];
      ConcatNumberedErrSticks(xs, f, n + 1);
    } else {
      assert xs[..n] == xs;
    }
  }

  /** The first element on which f fails decides the result. */
  lemma ConcatNumberedFailsAt<A, R, E>(xs: seq<A>, f: (nat, A) -> Result<seq<R>, E>, i: nat, acc: seq<R>)
    requires i < |xs| && ConcatNumbered(xs[..i], f) == Ok(acc) && f(i + 1, xs[i]).Err?
    ensures ConcatNumbered(xs, f) == Err(f(i + 1, xs[i]).error)
  {
    assert xs[..i + 1][..i] == xs[..i];
    ConcatNumberedErrSticks(xs, f, i + 1);
  }

  /** The rows of the first n elements come first. */
  lemma {:induction false} ConcatNumberedPrefix<A, R, E>(xs: seq<A>, f: (nat, A) -> Result<seq<R>, E>, n: nat)
    requires n <= |xs| && ConcatNumbered(xs, f).Ok?
    ensures ConcatNumbered(xs[..n], f).Ok? && ConcatNumbered(xs[..n], f).value <= ConcatNumbered(xs, f).value
    decreases |xs| - n
  {
    if n < |xs| {
      var init := xs[..|xs| - 1];
      assert init[..n] == xs[..n];
      ConcatNumberedPrefix(init, f, n);
    } else {
      assert xs[..n] == xs;
    }
  }
}
