/**
 * In-order selection of the elements of a sequence whose flag is set.
 *
 * Two loops of the Supabase client have this shape: the de-duplication of
 * candidates (keep a row when its id has not been seen) and the collection
 * of the issue ids whose increment RPC returned data.
 */
module Selection {

  /** The elements `s[i]` with `keep[i]` set, in their original order. */
  function Keep<T>(s: seq<T>, keep: seq<bool>): (r: seq<T>)
    requires |s| == |keep|
    ensures |r| <= |s|
    ensures forall x :: x in r ==> x in s
  {
    if |s| == 0 then []
    else
      var n := |s| - 1;
      Keep(s[..n], keep[..n]) + (if keep[n] then [s[n]] else [])
  }

  /** The positions whose flag is set, in increasing order. */
  function KeptIndices(keep: seq<bool>): seq<nat>
  {
    if |keep| == 0 then []
    else
      var n := |keep| - 1;
      KeptIndices(keep[..n]) + (if keep[n] then [n] else [])
  }

  /**
   * KeptIndices lists exactly the flagged positions, each once, in strictly
   * increasing order.
   */
  lemma {:induction false} KeptIndicesExact(keep: seq<bool>)
    ensures forall k :: 0 <= k < |KeptIndices(keep)| ==>
              KeptIndices(keep)[k] < |keep| && keep[KeptIndices(keep)[k]]
    ensures forall a, b :: 0 <= a < b < |KeptIndices(keep)| ==>
              KeptIndices(keep)[a] < KeptIndices(keep)[b]
    ensures forall i :: 0 <= i < |keep| && keep[i] ==> i in KeptIndices(keep)
  {
    if |keep| > 0 {
      var n := |keep| - 1;
      var front := keep[..n];
      KeptIndicesExact(front);
      assert forall i :: 0 <= i < n ==> front[i] == keep[i];
    }
  }

  /**
   * Keep(s, keep) is the subsequence of `s` at the positions
   * KeptIndices(keep): element k of the result is `s` at the k-th flagged
   * position.
   */
  lemma {:induction false} KeepSelects<T>(s: seq<T>, keep: seq<bool>)
    requires |s| == |keep|
    ensures |Keep(s, keep)| == |KeptIndices(keep)|
    ensures forall k :: 0 <= k < |Keep(s, keep)| ==>
              KeptIndices(keep)[k] < |s| && Keep(s, keep)[k] == s[KeptIndices(keep)[k]]
  {
    KeptIndicesExact(keep);
    if |s| > 0 {
      var n := |s| - 1;
      KeepSelects(s[..n], keep[..n]);
      KeptIndicesExact(keep[..n]);
    }
  }

  /** The selection is non-empty exactly when some flag is set. */
  lemma {:induction false} KeepNonEmpty<T>(s: seq<T>, keep: seq<bool>)
    requires |s| == |keep|
    ensures Keep(s, keep) != [] <==> exists i :: 0 <= i < |keep| && keep[i]
  {
    if |s| > 0 {
      var n := |s| - 1;
      KeepNonEmpty(s[..n], keep[..n]);
      if exists i :: 0 <= i < n && keep[..n][i] {
        var i :| 0 <= i < n && keep[..n][i];
        assert keep[i];
      }
    }
  }

  /** Selecting from a concatenation selects from each part in turn. */
  lemma {:induction false} KeepAppend<T>(a: seq<T>, fa: seq<bool>, b: seq<T>, fb: seq<bool>)
    requires |a| == |fa| && |b| == |fb|
    ensures Keep(a + b, fa + fb) == Keep(a, fa) + Keep(b, fb)
  {
    if |b| > 0 {
      var n := |b| - 1;
      KeepAppend(a, fa, b[..n], fb[..n]);
      assert (a + b)[..|a| + n] == a + b[..n];
      assert (fa + fb)[..|a| + n] == fa + fb[..n];
    } else {
      assert a + b == a;
      assert fa + fb == fa;
    }
  }
}
