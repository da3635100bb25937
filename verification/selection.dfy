/**
 * Order-preserving selection of the elements of a list that satisfy a
 * decision, as both filters compute it: each element is tested once, in
 * order, and the kept ones are copied into a new list.
 */
module Selection {

  /** The elements of `s` for which `keep` holds, in their original order. */
  function Select<T>(s: seq<T>, keep: T -> bool): (r: seq<T>)
    ensures |r| <= |s|
    ensures forall x :: x in r ==> x in s && keep(x)
  {
    if s == [] then []
    else
      var init := s[..|s| - 1];
      assert forall x :: x in init ==> x in s;
      Select(init, keep) + (if keep(s[|s| - 1]) then [s[|s| - 1]] else [])
  }

  /** The positions of `s` whose elements `keep` accepts, in increasing order. */
  function KeptIndices<T>(s: seq<T>, keep: T -> bool): (ix: seq<nat>)
    ensures forall j :: 0 <= j < |ix| ==> ix[j] < |s|
  {
    if s == [] then []
    else
      var n := |s| - 1;
      var init := KeptIndices(s[..n], keep);
      if keep(s[n]) then init + [n] else init
  }

  /**
   * The selection is the subsequence of `s` at the kept positions: these are
   * strictly increasing, each names the element found at that place of the
   * result, and a position is among them exactly when `keep` accepts the
   * element there.
   */
  lemma {:induction false} SelectIsSubsequence<T>(s: seq<T>, keep: T -> bool)
    ensures var ix, r := KeptIndices(s, keep), Select(s, keep);
      && |ix| == |r|
      && (forall j :: 0 <= j < |ix| ==> r[j] == s[ix[j]])
      && (forall j, k :: 0 <= j < k < |ix| ==> ix[j] < ix[k])
      && (forall i :: 0 <= i < |s| ==> (keep(s[i]) <==> i in ix))
  {
    if s != [] {
      var n := |s| - 1;
      var init := s[..n];
      SelectIsSubsequence(init, keep);
      var ix0, r0 := KeptIndices(init, keep), Select(init, keep);
      var ix, r := KeptIndices(s, keep), Select(s, keep);
      assert n !in ix0;
      if keep(s[n]) {
        assert ix == ix0 + [n] && r == r0 + [s[n]];
        assert forall j :: 0 <= j < |ix0| ==> ix[j] == ix0[j] && r[j] == r0[j];
      } else {
        assert ix == ix0 && r == r0;
      }
      forall i | 0 <= i < |s|
        ensures keep(s[i]) <==> i in ix
      {
        if i < n {
          assert s[i] == init[i];
        }
      }
    }
  }

  /** Every element of `s` that satisfies `keep` appears in the selection. */
  lemma {:induction false} SelectComplete<T>(s: seq<T>, keep: T -> bool, x: T)
    requires x in s && keep(x)
    ensures x in Select(s, keep)
  {
    var n := |s| - 1;
    if s[n] != x {
      assert s == s[..n] + [s[n]];
      SelectComplete(s[..n], keep, x);
    }
  }

  /** Appending an element extends the selection by that element when it is kept. */
  lemma SelectSnoc<T>(s: seq<T>, x: T, keep: T -> bool)
    ensures Select(s + [x], keep) == Select(s, keep) + (if keep(x) then [x] else [])
  {
    assert (s + [x])[..|s|] == s;
  }

  /** Selecting again from a selection changes nothing. */
  lemma {:induction false} SelectIdempotent<T>(s: seq<T>, keep: T -> bool)
    ensures Select(Select(s, keep), keep) == Select(s, keep)
  {
    if s != [] {
      var n := |s| - 1;
      SelectIdempotent(s[..n], keep);
      var r := Select(s[..n], keep);
      if keep(s[n]) {
        assert Select(s, keep) == r + [s[n]];
        SelectSnoc(r, s[n], keep);
      } else {
        assert Select(s, keep) == r;
      }
    }
  }
}
