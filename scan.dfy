/** The scan that `setEquinox`, `setSolstice`, `setAphelion` and `setPerihelion` in
    Titan_orbit.py each run over their filtered samples. It walks the (value, date)
    pairs, keeping the best value seen and its date as the candidate. A strictly better
    value replaces the candidate. Otherwise, once a sample lies more than `gap` days
    after the candidate, the candidate is committed and the best value is reset. At the
    end the pending candidate is committed too, unless it is the last date of the
    record. "Better" is "lower" for equinoxes and aphelia, "higher" for solstices and
    perihelia. */
module EventScan {
  import opened Samples

  /** The scan state: best value, candidate date, committed events. */
  datatype Scan = Scan(best: real, cand: int, events: seq<int>)

  /** Whether `l` replaces the best value `best`: strictly lower, or strictly higher. */
  predicate Better(lower: bool, l: real, best: real)
  {
    if lower then l < best else l > best
  }

  /** One pass of the loop body on the sample `(l, d)`. */
  function Step(lower: bool, reset: real, gap: int, st: Scan, l: real, d: int): (r: Scan)
    ensures Better(lower, l, st.best) ==> r == Scan(l, d, st.events)
    ensures !Better(lower, l, st.best) ==> r.cand == st.cand
    ensures r.events != st.events <==> !Better(lower, l, st.best) && d - st.cand > gap
    ensures r.events != st.events ==> r.events == st.events + [st.cand] && r.best == reset
    ensures !Better(lower, l, st.best) && d - st.cand <= gap ==> r == st
  {
    if Better(lower, l, st.best) then Scan(l, d, st.events)
    else if d - st.cand > gap then Scan(reset, st.cand, st.events + [st.cand])
    else st
  }

  /** The state after the loop has run over all of `values` and `dates`. */
  function Fold(lower: bool, reset: real, gap: int, st: Scan, values: seq<real>, dates: seq<int>): Scan
    requires |values| == |dates|
    decreases |values|
  {
    if |values| == 0 then st
    else
      var n := |values| - 1;
      Step(lower, reset, gap, Fold(lower, reset, gap, st, values[..n], dates[..n]), values[n], dates[n])
  }

  /** The events the scan reports: those committed in the loop, then the pending
      candidate unless it equals `last`. The scan starts from the best value `init`
      with the candidate `start`. */
  function Events(lower: bool, init: real, reset: real, gap: int, start: int, last: int,
                  values: seq<real>, dates: seq<int>): (r: seq<int>)
    requires |values| == |dates|
  {
    var st := Fold(lower, reset, gap, Scan(init, start, []), values, dates);
    if st.cand != last then st.events + [st.cand] else st.events
  }

  /** The loop itself, with the final commit. */
  method DetectEvents(lower: bool, init: real, reset: real, gap: int, start: int, last: int,
                      values: seq<real>, dates: seq<int>) returns (events: seq<int>)
    requires |values| == |dates|
    ensures events == Events(lower, init, reset, gap, start, last, values, dates)
  {
    var best, cand, found := init, start, [];
    var i := 0;
    while i < |values|
      invariant 0 <= i <= |values|
      invariant Scan(best, cand, found) == Fold(lower, reset, gap, Scan(init, start, []), values[..i], dates[..i])
    {
      var l, d := values[i], dates[i];
      assert values[..i + 1][..i] == values[..i] && dates[..i + 1][..i] == dates[..i];
      if Better(lower, l, best) {
        best, cand := l, d;
      } else if d - cand > gap {
        best := reset;
        found := found + [cand];
      }
      i := i + 1;
    }
    assert values[..i] == values && dates[..i] == dates;
    if cand != last {
      found := found + [cand];
    }
    events := found;
  }

  /** The final commit can repeat the last event: when the sample that commits the
      candidate is the last one, the candidate stays pending and is appended a second
      time. Here the samples at days 0 and 30 are 30 > 20 days apart, so day 0 is
      committed by the second sample and then appended again. */
  lemma RepeatedLastEvent()
    ensures Events(true, 90.0, 90.0, 20, 0, 100, [0.01, 0.02], [0, 30]) == [0, 0]
  {
    var st0 := Scan(90.0, 0, []);
    assert [0.01, 0.02][..1] == [0.01] && [0, 30][..1] == [0];
    assert [0.01][..0] == [] && [0][..0] == [];
    assert Fold(true, 90.0, 20, st0, [0.01], [0]) == Scan(0.01, 0, []);
    assert Fold(true, 90.0, 20, st0, [0.01, 0.02], [0, 30]) == Scan(90.0, 0, [0]);
  }

  /** The loop only ever appends: the events it started with stay a prefix, and every
      event it adds, like its final candidate, is the starting candidate or one of the
      sample dates. */
  lemma {:induction false} FoldSources(lower: bool, reset: real, gap: int, st: Scan,
                                       values: seq<real>, dates: seq<int>)
    requires |values| == |dates|
    ensures var r := Fold(lower, reset, gap, st, values, dates);
      && st.events <= r.events
      && (r.cand == st.cand || r.cand in dates)
      && forall k :: |st.events| <= k < |r.events| ==> r.events[k] == st.cand || r.events[k] in dates
    decreases |values|
  {
    if |values| > 0 {
      var n := |values| - 1;
      FoldSources(lower, reset, gap, st, values[..n], dates[..n]);
      var q := Fold(lower, reset, gap, st, values[..n], dates[..n]);
      assert forall x :: x in dates[..n] ==> x in dates;
      assert dates[n] in dates;
      var r := Step(lower, reset, gap, q, values[n], dates[n]);
      assert forall k :: |st.events| <= k < |q.events| ==> r.events[k] == q.events[k];
    }
  }

  /** When the first sample beats the starting best value, the starting candidate is
      replaced at once, so every event added and the final candidate are sample dates. */
  lemma {:induction false} FoldFromFirstSample(lower: bool, reset: real, gap: int, st: Scan,
                                               values: seq<real>, dates: seq<int>)
    requires |values| == |dates| && |values| > 0 && Better(lower, values[0], st.best)
    ensures var r := Fold(lower, reset, gap, st, values, dates);
      && r.cand in dates
      && forall k :: |st.events| <= k < |r.events| ==> r.events[k] in dates
    decreases |values|
  {
    var n := |values| - 1;
    if n == 0 {
      assert Fold(lower, reset, gap, st, values[..0], dates[..0]) == st;
    } else {
      assert values[..n][0] == values[0];
      FoldFromFirstSample(lower, reset, gap, st, values[..n], dates[..n]);
      var q := Fold(lower, reset, gap, st, values[..n], dates[..n]);
      FoldSources(lower, reset, gap, st, values[..n], dates[..n]);
      assert forall x :: x in dates[..n] ==> x in dates;
      assert dates[n] in dates;
      var r := Step(lower, reset, gap, q, values[n], dates[n]);
      assert forall k :: |st.events| <= k < |q.events| ==> r.events[k] == q.events[k];
    }
  }

  /** Every event the loop commits was followed by a sample more than `gap` days
      after it. */
  lemma {:induction false} FoldCommitsAfterGap(lower: bool, reset: real, gap: int, st: Scan,
                                               values: seq<real>, dates: seq<int>)
    requires |values| == |dates|
    ensures var r := Fold(lower, reset, gap, st, values, dates);
      forall k :: |st.events| <= k < |r.events| ==>
        exists j :: 0 <= j < |dates| && dates[j] - r.events[k] > gap
    decreases |values|
  {
    if |values| > 0 {
      var n := |values| - 1;
      FoldCommitsAfterGap(lower, reset, gap, st, values[..n], dates[..n]);
      FoldSources(lower, reset, gap, st, values[..n], dates[..n]);
      var q := Fold(lower, reset, gap, st, values[..n], dates[..n]);
      var r := Step(lower, reset, gap, q, values[n], dates[n]);
      forall k | |st.events| <= k < |r.events|
        ensures exists j :: 0 <= j < |dates| && dates[j] - r.events[k] > gap
      {
        if k < |q.events| {
          assert r.events[k] == q.events[k];
          var j :| 0 <= j < n && dates[..n][j] - q.events[k] > gap;
          assert dates[j] == dates[..n][j];
        } else {
          assert dates[n] - r.events[k] > gap;
        }
      }
    }
  }

  /** The scan's events, as `setEquinox` and the others return them: when the first
      sample beats the starting value, every event is a sample date; every event but
      possibly the last was followed by a sample more than `gap` days later; and the
      last event is the pending candidate exactly when that differs from `last`. */
  lemma EventsFromSamples(lower: bool, init: real, reset: real, gap: int, start: int, last: int,
                          values: seq<real>, dates: seq<int>)
    requires |values| == |dates|
    ensures var e := Events(lower, init, reset, gap, start, last, values, dates);
      && (|values| > 0 && Better(lower, values[0], init) ==> forall x :: x in e ==> x in dates)
      && (forall x :: x in e ==> x == start || x in dates)
      && forall k :: 0 <= k < |e| - 1 ==> exists j :: 0 <= j < |dates| && dates[j] - e[k] > gap
  {
    var st := Scan(init, start, []);
    var r := Fold(lower, reset, gap, st, values, dates);
    FoldSources(lower, reset, gap, st, values, dates);
    FoldCommitsAfterGap(lower, reset, gap, st, values, dates);
    if |values| > 0 && Better(lower, values[0], init) {
      FoldFromFirstSample(lower, reset, gap, st, values, dates);
    }
    var e := Events(lower, init, reset, gap, start, last, values, dates);
    assert forall k :: 0 <= k < |r.events| ==> e[k] == r.events[k];
    assert forall x :: x in e ==> x == r.cand || x in r.events;
  }

  /** Whether `x` is the date of a sample the mask selects. */
  ghost predicate Picked(dates: seq<int>, mask: seq<bool>, x: int)
  {
    exists i :: 0 <= i < |dates| && i < |mask| && mask[i] && dates[i] == x
  }

  /** The scan as the source runs it, over the samples a mask selects (`values[mask]`,
      `dates[mask]`): every event is the starting candidate or a selected date, and only
      a selected date when the first selected sample beats the starting value; every
      event but possibly the last was followed by a selected sample more than `gap`
      days later. */
  lemma FilteredEvents(lower: bool, init: real, reset: real, gap: int, start: int, last: int,
                       values: seq<real>, dates: seq<int>, mask: seq<bool>)
    requires |values| == |mask| && |dates| == |mask|
    ensures var e := Events(lower, init, reset, gap, start, last, Masked(values, mask), Masked(dates, mask));
      && (forall x :: x in e ==> x == start || Picked(dates, mask, x))
      && (|Selected(mask)| > 0 && Better(lower, values[Selected(mask)[0]], init) ==>
            forall x :: x in e ==> Picked(dates, mask, x))
      && forall k :: 0 <= k < |e| - 1 ==> exists i :: 0 <= i < |mask| && mask[i] && dates[i] - e[k] > gap
  {
    var mv, md := Masked(values, mask), Masked(dates, mask);
    EventsFromSamples(lower, init, reset, gap, start, last, mv, md);
    var e := Events(lower, init, reset, gap, start, last, mv, md);
    forall x | x in md
      ensures Picked(dates, mask, x)
    {
      MaskedElement(dates, mask, x);
    }
    forall k | 0 <= k < |e| - 1
      ensures exists i :: 0 <= i < |mask| && mask[i] && dates[i] - e[k] > gap
    {
      var j :| 0 <= j < |md| && md[j] - e[k] > gap;
      var i := Selected(mask)[j];
      assert mask[i] && dates[i] == md[j];
    }
    if |Selected(mask)| > 0 {
      assert mv[0] == values[Selected(mask)[0]];
    }
  }

  /** The scan as `setAphelion` and `setPerihelion` run it: it starts from and resets to
      the threshold `t` of its mask, and some sample passes the mask. Then every event
      is the date of a sample that beats `t`, and every event but possibly the last was
      followed by such a sample more than `gap` days later. */
  lemma ThresholdEvents(lower: bool, t: real, gap: int, start: int, last: int,
                        values: seq<real>, dates: seq<int>, mask: seq<bool>)
    requires |values| == |mask| && |dates| == |mask|
    requires forall i :: 0 <= i < |mask| ==> (mask[i] <==> Better(lower, values[i], t))
    requires exists i :: 0 <= i < |mask| && mask[i]
    ensures var e := Events(lower, t, t, gap, start, last, Masked(values, mask), Masked(dates, mask));
      && (forall x :: x in e ==> exists i :: 0 <= i < |dates| && dates[i] == x && Better(lower, values[i], t))
      && forall k :: 0 <= k < |e| - 1 ==>
           exists i :: 0 <= i < |dates| && Better(lower, values[i], t) && dates[i] - e[k] > gap
  {
    SelectedNonEmpty(mask);
    assert mask[Selected(mask)[0]];
    FilteredEvents(lower, t, t, gap, start, last, values, dates, mask);
    var e := Events(lower, t, t, gap, start, last, Masked(values, mask), Masked(dates, mask));
    forall x | x in e
      ensures exists i :: 0 <= i < |dates| && dates[i] == x && Better(lower, values[i], t)
    {
      assert Picked(dates, mask, x);
      var i :| 0 <= i < |dates| && i < |mask| && mask[i] && dates[i] == x;
    }
    forall k | 0 <= k < |e| - 1
      ensures exists i :: 0 <= i < |dates| && Better(lower, values[i], t) && dates[i] - e[k] > gap
    {
      var i :| 0 <= i < |mask| && mask[i] && dates[i] - e[k] > gap;
    }
  }
}
