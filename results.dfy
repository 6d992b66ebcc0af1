/** Failure-carrying results, and the loop shape the walker uses twice: a Python
    `for` loop that appends one converted item per input item, where converting
    an item may look at the items converted before it, and which is aborted by
    the first exception raised for an item. */
module Results {

  datatype Result<+T, +E> = Ok(value: T) | Err(error: E)

  /** Converts every element of `s` in order with `f`, which is given the element
      and the results of the elements before it; stops at the first element `f`
      rejects, and the error then carries that element's index. */
  function Traverse<A, B, E>(s: seq<A>, f: (A, seq<B>) -> Result<B, E>): Result<seq<B>, (nat, E)>
    decreases |s|
  {
    if s == [] then Ok([])
    else
      match Traverse(s[..|s| - 1], f)
      case Err(e) => Err(e)
      case Ok(done) =>
        match f(s[|s| - 1], done)
        case Err(e) => Err((|s| - 1, e))
        case Ok(b) => Ok(done + [b])
  }

  /** Traverse succeeds with one result per element, result k being what `f`
      gives for element k after results 0..k-1; otherwise it reports the first
      rejected element j, after the elements before j all converted. */
  lemma {:induction false} TraverseSpec<A, B, E>(s: seq<A>, f: (A, seq<B>) -> Result<B, E>)
    ensures Traverse(s, f).Ok? ==>
              |Traverse(s, f).value| == |s| &&
              forall k :: 0 <= k < |s| ==>
                f(s[k], Traverse(s, f).value[..k]) == Ok(Traverse(s, f).value[k])
    ensures Traverse(s, f).Err? ==>
              var (j, e) := Traverse(s, f).error;
              j < |s| && Traverse(s[..j], f).Ok? && f(s[j], Traverse(s[..j], f).value) == Err(e)
  {
    if s != [] {
      var front := s[..|s| - 1];
      TraverseSpec(front, f);
      assert forall k :: 0 <= k < |front| ==> front[k] == s[k];
      match Traverse(front, f)
      case Err((j, e)) =>
        assert front[..j] == s[..j];
      case Ok(done) =>
        assert s[..|s| - 1] == front;
        if Traverse(s, f).Ok? {
          var out := Traverse(s, f).value;
          assert out[..|s| - 1] == done;
          forall k | 0 <= k < |front|
            ensures f(s[k], out[..k]) == Ok(out[k])
          {
            assert out[..k] == done[..k];
          }
        }
    }
  }

  /** When `out` holds, element by element, what `f` gives after the results
      before it, Traverse returns exactly `out`. */
  lemma {:induction false} TraverseAllOk<A, B, E>(s: seq<A>, f: (A, seq<B>) -> Result<B, E>, out: seq<B>)
    requires |out| == |s|
    requires forall k :: 0 <= k < |s| ==> f(s[k], out[..k]) == Ok(out[k])
    ensures Traverse(s, f) == Ok(out)
  {
    if s != [] {
      var n := |s| - 1;
      forall k | 0 <= k < n
        ensures f(s[..n][k], out[..n][..k]) == Ok(out[..n][k])
      {
        assert out[..n][..k] == out[..k];
      }
      TraverseAllOk(s[..n], f, out[..n]);
      assert out[..n] + [out[n]] == out;
    }
  }

  /** When the elements before `j` convert to `done` and `f` rejects element `j`
      after them, Traverse fails at `j`. */
  lemma {:induction false} TraverseFirstErr<A, B, E>(s: seq<A>, f: (A, seq<B>) -> Result<B, E>, j: nat, done: seq<B>)
    requires j < |s| && |done| == j
    requires forall k :: 0 <= k < j ==> f(s[k], done[..k]) == Ok(done[k])
    requires f(s[j], done).Err?
    ensures Traverse(s, f) == Err((j, f(s[j], done).error))
    decreases |s|
  {
    var front := s[..|s| - 1];
    if j == |s| - 1 {
      TraverseAllOk(front, f, done);
    } else {
      assert forall k :: 0 <= k <= j ==> front[k] == s[k];
      TraverseFirstErr(front, f, j, done);
    }
  }

  /** A successful Traverse succeeds on every prefix, with the prefix of its results. */
  lemma TraversePrefix<A, B, E>(s: seq<A>, f: (A, seq<B>) -> Result<B, E>, m: nat)
    requires Traverse(s, f).Ok? && m <= |s|
    ensures |Traverse(s, f).value| == |s|
    ensures Traverse(s[..m], f) == Ok(Traverse(s, f).value[..m])
  {
    TraverseSpec(s, f);
    var out := Traverse(s, f).value;
    forall k | 0 <= k < m
      ensures f(s[..m][k], out[..m][..k]) == Ok(out[..m][k])
    {
      assert out[..m][..k] == out[..k];
    }
    TraverseAllOk(s[..m], f, out[..m]);
  }
}
