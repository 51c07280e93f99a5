/** Sequence facts shared by the skip list, the aggregator and the result view. */
module Seqs {

  /** The elements of `s` that `keep` accepts, in their original relative order
      (the shape of every "append when the test passes" loop in the core). */
  function Select<T>(s: seq<T>, keep: T -> bool): (r: seq<T>)
    ensures |r| <= |s|
    ensures forall i :: 0 <= i < |r| ==> keep(r[i])
  {
    if s == [] then []
    else Select(s[..|s| - 1], keep) + (if keep(s[|s| - 1]) then [s[|s| - 1]] else [])
  }

  /** `idx` lists, strictly increasing, positions of `b` holding the elements of `a`. */
  ghost predicate Embeds<T>(idx: seq<nat>, a: seq<T>, b: seq<T>) {
    && |idx| == |a|
    && (forall i :: 0 <= i < |idx| ==> idx[i] < |b| && a[i] == b[idx[i]])
    && (forall i, j :: 0 <= i < j < |idx| ==> idx[i] < idx[j])
  }

  /** `a` is obtained from `b` by deleting elements: order is preserved. */
  ghost predicate IsSubsequence<T>(a: seq<T>, b: seq<T>) {
    exists idx :: Embeds(idx, a, b)
  }

  lemma {:induction false} SelectSubsequence<T>(s: seq<T>, keep: T -> bool)
    ensures IsSubsequence(Select(s, keep), s)
  {
    if s == [] {
      assert Embeds([], Select(s, keep), s);
    } else {
      var init, x := s[..|s| - 1], s[|s| - 1];
      assert s == init + [x];
      SelectSubsequence(init, keep);
      var idx: seq<nat> :| Embeds(idx, Select(init, keep), init);
      if keep(x) {
        var idx' := idx + [|init|];
        assert Select(s, keep) == Select(init, keep) + [x];
        assert Embeds(idx', Select(s, keep), s);
      } else {
        assert Embeds(idx, Select(s, keep), s);
      }
    }
  }

  lemma {:induction false} SelectMembership<T>(s: seq<T>, keep: T -> bool, x: T)
    ensures x in Select(s, keep) <==> x in s && keep(x)
  {
    if s != [] {
      SelectMembership(s[..|s| - 1], keep, x);
      assert s == s[..|s| - 1] + [s[|s| - 1]];
    }
  }

  lemma {:induction false} SelectAll<T>(s: seq<T>, keep: T -> bool)
    requires forall i :: 0 <= i < |s| ==> keep(s[i])
    ensures Select(s, keep) == s
  {
    if s != [] {
      SelectAll(s[..|s| - 1], keep);
    }
  }

  /** Nothing survives exactly when no element is accepted. */
  lemma SelectEmpty<T>(s: seq<T>, keep: T -> bool)
    ensures Select(s, keep) == [] <==> forall i :: 0 <= i < |s| ==> !keep(s[i])
  {
    if Select(s, keep) != [] {
      SelectMembership(s, keep, Select(s, keep)[0]);
    }
    if exists i :: 0 <= i < |s| && keep(s[i]) {
      var i :| 0 <= i < |s| && keep(s[i]);
      SelectMembership(s, keep, s[i]);
    }
  }

  /** Selecting by `p` and then by `q` is selecting by their conjunction. */
  lemma {:induction false} SelectTwice<T>(s: seq<T>, p: T -> bool, q: T -> bool, both: T -> bool)
    requires forall x :: both(x) == (p(x) && q(x))
    ensures Select(Select(s, p), q) == Select(s, both)
  {
    if s != [] {
      var init, x := s[..|s| - 1], s[|s| - 1];
      SelectTwice(init, p, q, both);
      var a := Select(init, p);
      if p(x) {
        assert (a + [x])[..|a|] == a;
      } else {
        assert a + [] == a;
      }
    }
  }

  /** Selecting from a concatenation selects from each part. */
  lemma {:induction false} SelectConcat<T>(a: seq<T>, b: seq<T>, keep: T -> bool)
    ensures Select(a + b, keep) == Select(a, keep) + Select(b, keep)
  {
    if b != [] {
      SelectConcat(a, b[..|b| - 1], keep);
      assert (a + b)[..|a + b| - 1] == a + b[..|b| - 1];
    } else {
      assert a + b == a;
    }
  }
}
