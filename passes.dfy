/**
  A pass over a list that rewrites its elements in place, in order, and stops
  at the first element it cannot rewrite, as the per-block loops of the
  pipeline passes do.
 */
module Passes {
  import opened Ir

  /**
    A pass that rewrites the elements of `s` in place, in order, and stops at
    the first one `f` rejects: the error, if any, and the list as it is then
    (rewritten before the failing element, untouched from it on).
   */
  function Pass<A>(s: seq<A>, f: A -> Result<A>, i: nat): (r: (Option<Error>, seq<A>))
    requires i <= |s|
    ensures |r.1| == |s|
    decreases i
  {
    if i == 0 then (None, s)
    else
      var prev := Pass(s, f, i - 1);
      if prev.0.Some? then prev
      else match f(s[i - 1])
        case Err(x) => (Some(x), prev.1)
        case Ok(y) => (None, prev.1[i - 1 := y])
  }

  /** Once the pass has failed, the later elements are not visited. */
  lemma {:induction false} PassStops<A>(s: seq<A>, f: A -> Result<A>, j: nat, k: nat)
    requires j <= k <= |s| && Pass(s, f, j).0.Some?
    ensures Pass(s, f, k) == Pass(s, f, j)
    decreases k - j
  {
    if j < k {
      PassStops(s, f, j, k - 1);
    }
  }

  lemma {:induction false} PassUntouched<A>(s: seq<A>, f: A -> Result<A>, i: nat, k: nat)
    requires i <= k < |s| && Pass(s, f, i).0.None?
    ensures Pass(s, f, i).1[k] == s[k]
    decreases i
  {
    if i > 0 {
      PassUntouched(s, f, i - 1, k);
    }
  }

  /**
    The pass succeeds exactly when `f` accepts every element, and then each
    element is replaced by its image.
   */
  lemma {:induction false} PassAllOk<A>(s: seq<A>, f: A -> Result<A>, i: nat)
    requires i <= |s|
    ensures Pass(s, f, i).0.None? <==> forall k :: 0 <= k < i ==> f(s[k]).Ok?
    ensures Pass(s, f, i).0.None? ==> forall k :: 0 <= k < i ==> Pass(s, f, i).1[k] == f(s[k]).value
    decreases i
  {
    if i > 0 {
      PassAllOk(s, f, i - 1);
      var prev := Pass(s, f, i - 1);
      if prev.0.Some? {
        PassStops(s, f, i - 1, i);
      }
    }
  }

  /**
    When the pass fails, it fails with the error of the first rejected
    element, and every other element is its image before it and untouched
    from it on.
   */
  lemma {:induction false} PassFirstError<A>(s: seq<A>, f: A -> Result<A>, i: nat)
    requires i <= |s| && Pass(s, f, i).0.Some?
    ensures exists j :: (0 <= j < i && f(s[j]).Err? && Pass(s, f, i).0 == Some(f(s[j]).error) &&
      (forall k :: 0 <= k < j ==> f(s[k]).Ok? && Pass(s, f, i).1[k] == f(s[k]).value) &&
      (forall k :: j <= k < |s| ==> Pass(s, f, i).1[k] == s[k]))
    decreases i
  {
    var prev := Pass(s, f, i - 1);
    if prev.0.Some? {
      PassFirstError(s, f, i - 1);
    } else {
      PassAllOk(s, f, i - 1);
      forall k | i - 1 <= k < |s| ensures Pass(s, f, i).1[k] == s[k] {
        PassUntouched(s, f, i - 1, k);
      }
      assert f(s[i - 1]).Err?;
    }
  }

  lemma PassVisits<A>(s: seq<A>, f: A -> Result<A>, b: nat, t: seq<A>)
    requires b < |s| && Pass(s, f, b) == (None, t)
    ensures |t| == |s| && t[b] == s[b]
  {
    PassUntouched(s, f, b, b);
  }

  lemma PassStep<A>(s: seq<A>, f: A -> Result<A>, b: nat, j: nat, t: seq<A>, y: A)
    requires b < |s| && j == b + 1 && Pass(s, f, b) == (None, t) && f(s[b]) == Ok(y)
    ensures Pass(s, f, j) == (None, t[b := y])
  {
    var prev := Pass(s, f, j - 1);
    assert prev == (None, t);
    assert f(s[j - 1]) == Ok(y);
    assert Pass(s, f, j) == (None, prev.1[j - 1 := y]);
    assert prev.1[j - 1 := y] == t[b := y];
  }

  lemma PassFails<A>(s: seq<A>, f: A -> Result<A>, b: nat, t: seq<A>, e: Error)
    requires b < |s| && Pass(s, f, b) == (None, t) && f(s[b]) == Err(e)
    ensures Pass(s, f, |s|) == (Some(e), t)
  {
    var j := b + 1;
    PassFailsAt(s, f, b, j, t, e);
    PassStops(s, f, j, |s|);
  }

  lemma PassFailsAt<A>(s: seq<A>, f: A -> Result<A>, b: nat, j: nat, t: seq<A>, e: Error)
    requires b < |s| && j == b + 1 && Pass(s, f, b) == (None, t) && f(s[b]) == Err(e)
    ensures Pass(s, f, j) == (Some(e), t)
  {
    var prev := Pass(s, f, j - 1);
    assert prev == (None, t);
    assert f(s[j - 1]) == Err(e);
    assert Pass(s, f, j) == (Some(e), prev.1);
  }
}
