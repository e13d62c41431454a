/** The array operations Titan_orbit.py applies to its sampled ephemeris, on sequences:
    element-wise absolute value and comparison, boolean-mask indexing, maximum and
    minimum, the first position of a date, the slices `[::2]` and `[1::2]`, and the
    division of a day count by 4. */
module Samples {
  import opened Optional
  import opened Maths

  /** `np.abs(s)`. */
  function AbsAll(s: seq<real>): (r: seq<real>)
    ensures |r| == |s| && forall i :: 0 <= i < |s| ==> r[i] == Abs(s[i])
  {
    seq(|s|, i requires 0 <= i < |s| => Abs(s[i]))
  }

  /** The mask `s < t`. */
  function Below(s: seq<real>, t: real): (mask: seq<bool>)
    ensures |mask| == |s| && forall i :: 0 <= i < |s| ==> (mask[i] <==> s[i] < t)
  {
    seq(|s|, i requires 0 <= i < |s| => s[i] < t)
  }

  /** The mask `s > t`. */
  function Above(s: seq<real>, t: real): (mask: seq<bool>)
    ensures |mask| == |s| && forall i :: 0 <= i < |s| ==> (mask[i] <==> s[i] > t)
  {
    seq(|s|, i requires 0 <= i < |s| => s[i] > t)
  }

  /** The positions where `mask` holds, in increasing order (that none is missed is
      `SelectedComplete`). */
  function Selected(mask: seq<bool>): (r: seq<nat>)
    ensures forall k :: 0 <= k < |r| ==> r[k] < |mask| && mask[r[k]]
    ensures forall j, k :: 0 <= j < k < |r| ==> r[j] < r[k]
    decreases |mask|
  {
    if |mask| == 0 then []
    else
      var n := |mask| - 1;
      Selected(mask[..n]) + if mask[n] then [n] else []
  }

  /** Every position where the mask holds is selected. */
  lemma {:induction false} SelectedComplete(mask: seq<bool>)
    ensures forall i :: 0 <= i < |mask| && mask[i] ==> i in Selected(mask)
    decreases |mask|
  {
    if |mask| > 0 {
      var n := |mask| - 1;
      SelectedComplete(mask[..n]);
      assert forall i :: 0 <= i < n ==> mask[..n][i] == mask[i];
    }
  }

  /** Some position is selected exactly when some element of the mask holds. */
  lemma SelectedNonEmpty(mask: seq<bool>)
    ensures |Selected(mask)| > 0 <==> exists i :: 0 <= i < |mask| && mask[i]
  {
    if exists i :: 0 <= i < |mask| && mask[i] {
      var i :| 0 <= i < |mask| && mask[i];
      SelectedComplete(mask);
    }
    if |Selected(mask)| > 0 {
      assert mask[Selected(mask)[0]];
    }
  }

  /** The first selected position is the earliest position where the mask holds. */
  lemma FirstSelected(mask: seq<bool>)
    requires |Selected(mask)| > 0
    ensures var j := Selected(mask)[0]; j < |mask| && mask[j] && forall i :: 0 <= i < j ==> !mask[i]
  {
    var r := Selected(mask);
    SelectedComplete(mask);
    forall i | 0 <= i < r[0]
      ensures i !in r
    {
      forall k | 0 <= k < |r|
        ensures r[k] != i
      {
        assert k == 0 || r[0] < r[k];
      }
    }
  }

  /** `s[mask]`: the elements of `s` at the selected positions, in order. */
  function Masked<T>(s: seq<T>, mask: seq<bool>): (r: seq<T>)
    requires |s| == |mask|
    ensures |r| == |Selected(mask)|
    ensures forall k :: 0 <= k < |r| ==> r[k] == s[Selected(mask)[k]]
  {
    var idx := Selected(mask);
    seq(|idx|, k requires 0 <= k < |idx| => s[idx[k]])
  }

  /** An element of `s[mask]` is an element of `s` at a selected position. */
  lemma MaskedElement<T>(s: seq<T>, mask: seq<bool>, x: T)
    requires |s| == |mask| && x in Masked(s, mask)
    ensures exists i :: 0 <= i < |s| && mask[i] && s[i] == x
  {
    var r := Masked(s, mask);
    var k :| 0 <= k < |r| && r[k] == x;
    var i := Selected(mask)[k];
    assert mask[i] && s[i] == x;
  }

  /** `np.max(s)` of a non-empty `s`. */
  function MaxOf(s: seq<real>): (r: real)
    requires |s| > 0
    ensures r in s && forall i :: 0 <= i < |s| ==> s[i] <= r
  {
    if |s| == 1 then s[0]
    else
      var m := MaxOf(s[1..]);
      assert forall i :: 1 <= i < |s| ==> s[i] == s[1..][i - 1];
      if s[0] >= m then s[0] else m
  }

  /** `np.min(s)` of a non-empty `s`. */
  function MinOf(s: seq<real>): (r: real)
    requires |s| > 0
    ensures r in s && forall i :: 0 <= i < |s| ==> r <= s[i]
  {
    if |s| == 1 then s[0]
    else
      var m := MinOf(s[1..]);
      assert forall i :: 1 <= i < |s| ==> s[i] == s[1..][i - 1];
      if s[0] <= m then s[0] else m
  }

  /** The first position of `x` in `s`, if any (`s == x` used as a mask, then `[0]`). */
  function FirstIndex(s: seq<int>, x: int): (r: Option<nat>)
    ensures r.Some? ==> r.value < |s| && s[r.value] == x && forall i :: 0 <= i < r.value ==> s[i] != x
    ensures r.None? <==> x !in s
  {
    if |s| == 0 then None
    else if s[0] == x then Some(0)
    else
      match FirstIndex(s[1..], x)
      case None => None
      case Some(i) => Some(i + 1)
  }

  /** `s[::2]`: the elements at even positions. */
  function Evens<T>(s: seq<T>): (r: seq<T>)
    ensures |r| == (|s| + 1) / 2 && forall k :: 0 <= k < |r| ==> r[k] == s[2 * k]
  {
    seq((|s| + 1) / 2, k requires 0 <= k < (|s| + 1) / 2 => s[2 * k])
  }

  /** `s[1::2]`: the elements at odd positions. */
  function Odds<T>(s: seq<T>): (r: seq<T>)
    ensures |r| == |s| / 2 && forall k :: 0 <= k < |r| ==> r[k] == s[2 * k + 1]
  {
    seq(|s| / 2, k requires 0 <= k < |s| / 2 => s[2 * k + 1])
  }

  /** Taking the even and the odd positions splits `s`: together they hold exactly the
      elements of `s`, and the even part has as many elements as the odd part, or one
      more. */
  lemma {:induction false} SplitCovers<T>(s: seq<T>)
    ensures multiset(Evens(s)) + multiset(Odds(s)) == multiset(s)
    ensures |Evens(s)| == |Odds(s)| || |Evens(s)| == |Odds(s)| + 1
    decreases |s|
  {
    if |s| >= 2 {
      var t := s[2..];
      SplitCovers(t);
      SplitStep(s);
      assert s == [s[0], s[1]] + t;
      calc {
        multiset(Evens(s)) + multiset(Odds(s));
        multiset([s[0]]) + multiset(Evens(t)) + (multiset([s[1]]) + multiset(Odds(t)));
        multiset([s[0], s[1]]) + multiset(t);
      }
    } else if |s| == 1 {
      assert Evens(s) == s;
      assert Odds(s) == [];
    } else {
      assert Evens(s) == [] && Odds(s) == [];
    }
  }

  /** Dropping the first two elements drops the first element of each half. */
  lemma SplitStep<T>(s: seq<T>)
    requires |s| >= 2
    ensures Evens(s) == [s[0]] + Evens(s[2..]) && Odds(s) == [s[1]] + Odds(s[2..])
  {
    var t := s[2..];
    assert forall k :: 0 <= k < |Evens(t)| ==> Evens(t)[k] == s[2 * (k + 1)];
    assert forall k :: 0 <= k < |Odds(t)| ==> Odds(t)[k] == s[2 * (k + 1) + 1];
  }

  /** An element of either half is an element of `s`. */
  lemma SplitElements<T>(s: seq<T>, x: T)
    requires x in Evens(s) || x in Odds(s)
    ensures x in s
  {
    SplitCovers(s);
    assert x in multiset(Evens(s)) + multiset(Odds(s));
  }

  /** `n / 4` for a day count `n`, truncated toward zero as the integer division of a
      `timedelta64` by an integer does. */
  function Quarter(n: int): (q: int)
    ensures 0 <= n ==> 0 <= 4 * q <= n < 4 * q + 4
    ensures n < 0 ==> 4 * q - 4 < n <= 4 * q <= 0
  {
    if n >= 0 then n / 4 else -((-n) / 4)
  }
}
