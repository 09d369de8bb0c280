/** Boolean-mask selection over sequences: the shape shared by the comment window filter,
    the post window take-while and the DataFrame row filter. */
module Selection {

  /** The positions whose mask entry is true, in increasing order. */
  function Kept(keep: seq<bool>): (ks: seq<nat>)
    ensures forall j :: 0 <= j < |ks| ==> ks[j] < |keep| && keep[ks[j]]
    ensures forall j, j' :: 0 <= j < j' < |ks| ==> ks[j] < ks[j']
    ensures forall i :: 0 <= i < |keep| && keep[i] ==> i in ks
    ensures |ks| <= |keep|
  {
    if keep == [] then []
    else
      var n := |keep| - 1;
      var front := Kept(keep[..n]);
      assert forall i :: 0 <= i < n ==> keep[..n][i] == keep[i];
      front + (if keep[n] then [n] else [])
  }

  /** The elements of xs at the positions the mask selects, in their original order. */
  function Select<T>(xs: seq<T>, keep: seq<bool>): seq<T>
    requires |xs| == |keep|
  {
    var ks := Kept(keep);
    seq(|ks|, j requires 0 <= j < |ks| => xs[ks[j]])
  }

  /** The length of the longest prefix of the mask that holds only true. */
  function PrefixLength(keep: seq<bool>): (n: nat)
    ensures n <= |keep|
    ensures forall i :: 0 <= i < n ==> keep[i]
    ensures n < |keep| ==> !keep[n]
  {
    if keep == [] || !keep[0] then 0 else 1 + PrefixLength(keep[1..])
  }

  /** PrefixLength is the only length with the three properties its contract states. */
  lemma PrefixLengthUnique(keep: seq<bool>, n: nat)
    requires n <= |keep|
    requires forall i :: 0 <= i < n ==> keep[i]
    requires n < |keep| ==> !keep[n]
    ensures PrefixLength(keep) == n
  {
  }

  /** A strictly increasing sequence of naturals has ks[j] >= j everywhere. */
  lemma {:induction false} IncreasingAtLeastIndex(ks: seq<nat>)
    requires forall j, j' :: 0 <= j < j' < |ks| ==> ks[j] < ks[j']
    ensures forall j :: 0 <= j < |ks| ==> ks[j] >= j
  {
    if |ks| > 0 {
      IncreasingAtLeastIndex(ks[..|ks| - 1]);
      assert forall j :: 0 <= j < |ks| - 1 ==> ks[..|ks| - 1][j] == ks[j];
      if |ks| > 1 { assert ks[|ks| - 2] < ks[|ks| - 1]; }
    }
  }

  /** The take-while of a mask is a prefix of its filter: the first PrefixLength(keep)
      selected positions are 0, 1, 2, ... */
  lemma PrefixOfKept(keep: seq<bool>)
    ensures PrefixLength(keep) <= |Kept(keep)|
    ensures forall j :: 0 <= j < PrefixLength(keep) ==> Kept(keep)[j] == j
  {
    var p, ks := PrefixLength(keep), Kept(keep);
    IncreasingAtLeastIndex(ks);
    var j := 0;
    while j < p
      invariant j <= p && j <= |ks|
      invariant forall k :: 0 <= k < j ==> ks[k] == k
    {
      assert keep[j];
      var m :| 0 <= m < |ks| && ks[m] == j;
      assert forall k :: 0 <= k < j ==> ks[k] != j;
      assert ks[j] <= ks[m];
      j := j + 1;
    }
  }

  /** In a mask whose trues all precede its falses, everything after a false is false. */
  lemma SortedMaskFalseFrom(keep: seq<bool>, p: nat)
    requires forall i, i' :: 0 <= i < i' < |keep| && keep[i'] ==> keep[i]
    requires p < |keep| && !keep[p]
    ensures forall i :: p <= i < |keep| ==> !keep[i]
  {
  }

  /** When every true of the mask precedes every false, the filter and the take-while select the same positions. */
  lemma KeptOfSortedMask(keep: seq<bool>)
    requires forall i, i' :: 0 <= i < i' < |keep| && keep[i'] ==> keep[i]
    ensures |Kept(keep)| == PrefixLength(keep)
  {
    var p, ks := PrefixLength(keep), Kept(keep);
    PrefixOfKept(keep);
    IncreasingAtLeastIndex(ks);
    if p < |keep| {
      SortedMaskFalseFrom(keep, p);
    }
    if |ks| > 0 {
      var last := ks[|ks| - 1];
      assert keep[last] && last >= |ks| - 1;
    }
  }
}
