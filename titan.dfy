/** The orbital bookkeeping of Titan_orbit.py. A record of the `TITAN` object's state,
    one function per step of `reload` (`setObliquity`, `setEquinox`, `setSolstice`,
    `setAphelion`, `setPerihelion`) as the specification of that step, and the class
    `Titan` whose methods update the fields in place and are proved to follow those
    functions.

    Dates are day counts since 1970-01-01, the epoch of `datetime64[D]`; time spans are
    day counts too. A Python exception is a `Status` returned beside the state reached
    when it is raised, since the source assigns some fields before it raises. */
module TitanOrbit {
  import opened Optional
  import opened Maths
  import opened Samples
  import opened EventScan

  /** The exceptions the steps raise. */
  datatype PyError = IndexError | ValueError | AttributeError

  datatype Status = Done | Raised(error: PyError)

  /** The object's fields. `loaded` says whether `lat` and `dist` exist yet: the
      constructor does not set them, only `read` does. */
  datatype Record = Record(
    date: seq<int>, lat: seq<real>, dist: seq<real>, loaded: bool,
    obl: real, orbit: int,
    eqV: seq<int>, solS: seq<int>, eqA: seq<int>, solW: seq<int>,
    aphs: seq<int>, pers: seq<int>,
    rV: real, rS: real, rA: real, rW: real, rAph: real, rPer: real)

  /** The state a step leaves and whether it returned or raised. */
  datatype Outcome = Outcome(rec: Record, status: Status)

  /** An equinox candidate has |latitude| below this (degrees). */
  const EquinoxLatitude: real := 0.05
  /** The best equinox value the scan starts from and resets to. */
  const EquinoxStart: real := 90.0
  /** Days after an equinox candidate past which it is committed. */
  const EquinoxGap: int := 20
  /** A solstice candidate has |latitude| above this fraction of the obliquity. */
  const SolsticeFraction: real := 0.999
  /** The best solstice value the scan starts from and resets to. */
  const SolsticeStart: real := 0.0
  /** An aphelion candidate is nearer than this multiple of the least distance. */
  const AphelionFraction: real := 1.01
  /** A perihelion candidate is farther than this fraction of the greatest distance. */
  const PerihelionFraction: real := 0.99

  /** The samples that `read` loads are parallel arrays. */
  predicate Consistent(r: Record)
  {
    r.loaded ==> |r.lat| == |r.date| && |r.dist| == |r.date|
  }

  /** The state `__init__` sets: the default date range 1980-01-02 to 2032-12-31 and
      the default events and distances. The defaults agree with each other: the orbit
      is the span between the two vernal equinoxes, and in each year the seasons come
      in the order vernal equinox, summer solstice, autumnal equinox, winter
      solstice. */
  function Defaults(): (r: Record)
    ensures Consistent(r) && !r.loaded && |r.date| == 2 && r.date[0] < r.date[1]
    ensures |r.eqV| == |r.solS| == |r.eqA| == |r.solW| == 2
    ensures r.orbit == r.eqV[1] - r.eqV[0]
    ensures forall k :: 0 <= k < 2 ==> r.eqV[k] < r.solS[k] < r.eqA[k] < r.solW[k]
    ensures r.solW[0] < r.eqV[1]
    ensures r.date[0] <= r.eqV[0] && r.solW[1] <= r.date[1]
  {
    Record(
      [3653, 23010], [], [], false,                    // 1980-01-02, 2032-12-31
      26.730882944988142, 10751,
      [3704, 14455], [6537, 17300],                    // 1980-02-22, 2009-07-30; 1987-11-25, 2017-05-14
      [9441, 20202], [11983, 22730],                   // 1995-11-07, 2025-04-24; 2002-10-23, 2032-03-26
      [12254, 22970], [6817, 17628],                   // 2003-07-21, 2032-11-21; 1988-08-31, 2018-04-07
      9.443302157356690, 10.030529604959204, 9.587968538637037, 9.031185737728954,
      9.0077428463331, 10.0728723166560)
  }

  /** `read`, with the file's columns given as parameters. */
  function WithSamples(r: Record, d: seq<int>, l: seq<real>, s: seq<real>): (w: Record)
    requires |l| == |d| && |s| == |d|
    ensures Consistent(w) && w.loaded
    ensures w.date == d && w.lat == l && w.dist == s
    ensures w == r.(date := w.date, lat := w.lat, dist := w.dist, loaded := true)
  {
    r.(date := d, lat := l, dist := s, loaded := true)
  }

  /** `dist` is the distance `v` at the first sample dated `d`. */
  ghost predicate DistanceOf(date: seq<int>, dist: seq<real>, d: int, v: real)
  {
    exists i :: 0 <= i < |date| && i < |dist| && date[i] == d && dist[i] == v
      && forall k :: 0 <= k < i ==> date[k] != d
  }

  /** `dist[date == d][0]`, or nothing where it raises `IndexError`. */
  function DistanceOn(date: seq<int>, dist: seq<real>, d: int): (o: Option<real>)
    requires |dist| == |date|
    ensures o.None? <==> d !in date
    ensures o.Some? ==> DistanceOf(date, dist, d, o.value)
  {
    match FirstIndex(date, d)
    case None => None
    case Some(i) => Some(dist[i])
  }

  /** `x` is the date of a sample within .05 degrees of the equator. */
  ghost predicate EquinoxDate(date: seq<int>, lat: seq<real>, x: int)
  {
    exists i :: 0 <= i < |date| && i < |lat| && date[i] == x && Abs(lat[i]) < EquinoxLatitude
  }

  /** `x` is the date of a sample whose |latitude| exceeds .999 of `obl`. */
  ghost predicate SolsticeDate(date: seq<int>, lat: seq<real>, obl: real, x: int)
  {
    exists i :: 0 <= i < |date| && i < |lat| && date[i] == x && Abs(lat[i]) > SolsticeFraction * obl
  }

  /** `x` is the date of a sample nearer than 1.01 times `rAph`. */
  ghost predicate AphelionDate(date: seq<int>, dist: seq<real>, rAph: real, x: int)
  {
    exists i :: 0 <= i < |date| && i < |dist| && date[i] == x && dist[i] < AphelionFraction * rAph
  }

  /** `x` is the date of a sample farther than .99 times `rPer`. */
  ghost predicate PerihelionDate(date: seq<int>, dist: seq<real>, rPer: real, x: int)
  {
    exists i :: 0 <= i < |date| && i < |dist| && date[i] == x && dist[i] > PerihelionFraction * rPer
  }

  // ---- setObliquity ----

  /** `setObliquity`: the obliquity becomes the greatest |latitude| of the samples. */
  function Obliquity(r: Record): (o: Outcome)
    requires Consistent(r)
    ensures !r.loaded ==> o == Outcome(r, Raised(AttributeError))
    ensures r.loaded && |r.lat| == 0 ==> o == Outcome(r, Raised(ValueError))
    ensures r.loaded && |r.lat| > 0 ==>
      && o.status == Done
      && o.rec == r.(obl := o.rec.obl)
      && (exists i :: 0 <= i < |r.lat| && o.rec.obl == Abs(r.lat[i]))
      && forall i :: 0 <= i < |r.lat| ==> Abs(r.lat[i]) <= o.rec.obl
  {
    if !r.loaded then Outcome(r, Raised(AttributeError))
    else if |r.lat| == 0 then Outcome(r, Raised(ValueError))
    else
      var m := MaxOf(AbsAll(r.lat));
      assert m in AbsAll(r.lat);
      Outcome(r.(obl := m), Done)
  }

  // ---- setEquinox ----

  /** `abs(lat) < .05`. */
  function EquatorMask(lat: seq<real>): (mask: seq<bool>)
    ensures |mask| == |lat| && forall i :: 0 <= i < |lat| ==> (mask[i] <==> Abs(lat[i]) < EquinoxLatitude)
  {
    Below(AbsAll(lat), EquinoxLatitude)
  }

  /** Some sample lies within .05 degrees of the equator. */
  ghost predicate NearEquator(r: Record)
  {
    exists i :: 0 <= i < |r.lat| && Abs(r.lat[i]) < EquinoxLatitude
  }

  /** The earliest sample within .05 degrees of the equator is south of it. */
  ghost predicate SouthFirst(r: Record)
  {
    exists j :: 0 <= j < |r.lat| && Abs(r.lat[j]) < EquinoxLatitude && r.lat[j] < 0.0
      && forall i :: 0 <= i < j ==> Abs(r.lat[i]) >= EquinoxLatitude
  }

  /** `eqs`: the equinox scan over the samples near the equator. */
  function EquinoxEvents(r: Record): seq<int>
    requires Consistent(r) && r.loaded && |r.date| > 0
  {
    var mask := EquatorMask(r.lat);
    Events(true, EquinoxStart, EquinoxStart, EquinoxGap, r.date[0], r.date[|r.date| - 1],
           Masked(AbsAll(r.lat), mask), Masked(r.date, mask))
  }

  /** The end of `setEquinox`, once `eq_v` and `eq_a` are set: look up `r_v`, then
      `r_a`, then derive the orbit. */
  function LookUpEquinoxes(r: Record): (o: Outcome)
    requires |r.dist| == |r.date|
    ensures o.rec == r.(rV := o.rec.rV, rA := o.rec.rA, orbit := o.rec.orbit)
    ensures o.status == Raised(IndexError) <==>
      |r.eqV| == 0 || r.eqV[0] !in r.date || |r.eqA| == 0 || r.eqA[0] !in r.date
    ensures o.status != Raised(AttributeError)
    ensures o.status != Raised(IndexError) ==>
      && |r.eqV| > 0 && DistanceOf(r.date, r.dist, r.eqV[0], o.rec.rV)
      && |r.eqA| > 0 && DistanceOf(r.date, r.dist, r.eqA[0], o.rec.rA)
    ensures o.status == Raised(ValueError) <==> o.status != Raised(IndexError) && |r.eqV| < 2
    ensures o.status == Done ==> |r.eqV| >= 2 && o.rec.orbit == r.eqV[1] - r.eqV[0]
    ensures o.status != Done ==> o.rec.orbit == r.orbit
    ensures (|r.eqV| == 0 || r.eqV[0] !in r.date) ==> o.rec == r
    ensures o.status == Raised(IndexError) && |r.eqV| > 0 && r.eqV[0] in r.date ==>
      DistanceOf(r.date, r.dist, r.eqV[0], o.rec.rV) && o.rec.rA == r.rA
  {
    if |r.eqV| == 0 then Outcome(r, Raised(IndexError))
    else match DistanceOn(r.date, r.dist, r.eqV[0])
      case None => Outcome(r, Raised(IndexError))
      case Some(v) =>
        var r2 := r.(rV := v);
        if |r2.eqA| == 0 then Outcome(r2, Raised(IndexError))
        else match DistanceOn(r2.date, r2.dist, r2.eqA[0])
          case None => Outcome(r2, Raised(IndexError))
          case Some(a) =>
            var r3 := r2.(rA := a);
            if |r3.eqV| < 2 then Outcome(r3, Raised(ValueError))
            else Outcome(r3.(orbit := r3.eqV[1] - r3.eqV[0]), Done)
  }

  /** `setEquinox`: scan the samples near the equator, split the equinoxes into vernal
      and autumnal ones, look up their distances and derive the orbit from the first
      two vernal equinoxes. */
  function Equinox(r: Record): (o: Outcome)
    requires Consistent(r)
    ensures |r.date| == 0 ==> o == Outcome(r, Raised(IndexError))
    ensures |r.date| > 0 && !r.loaded ==> o == Outcome(r, Raised(AttributeError))
    ensures |r.date| > 0 && r.loaded && !NearEquator(r) ==> o == Outcome(r, Raised(IndexError))
    ensures o.rec == r.(eqV := o.rec.eqV, eqA := o.rec.eqA, rV := o.rec.rV, rA := o.rec.rA, orbit := o.rec.orbit)
    ensures o.status == Done ==> |o.rec.eqV| >= 2 && o.rec.orbit == o.rec.eqV[1] - o.rec.eqV[0]
    ensures o.status == Raised(ValueError) ==> |o.rec.eqV| == 1 && o.rec.orbit == r.orbit
    ensures o.status == Done || o.status == Raised(ValueError) ==>
      && |o.rec.eqV| > 0 && DistanceOf(r.date, r.dist, o.rec.eqV[0], o.rec.rV)
      && |o.rec.eqA| > 0 && DistanceOf(r.date, r.dist, o.rec.eqA[0], o.rec.rA)
  {
    if |r.date| == 0 then Outcome(r, Raised(IndexError))
    else if !r.loaded then Outcome(r, Raised(AttributeError))
    else
      var mask := EquatorMask(r.lat);
      var picked := Masked(r.lat, mask);
      SelectedNonEmpty(mask);
      if |picked| == 0 then Outcome(r, Raised(IndexError))
      else
        var eqs := EquinoxEvents(r);
        var r1 := if picked[0] < 0.0 then r.(eqV := Evens(eqs), eqA := Odds(eqs))
                  else r.(eqV := Odds(eqs), eqA := Evens(eqs));
        LookUpEquinoxes(r1)
  }

  /** Every equinox the scan finds is the date of a sample within .05 degrees of the
      equator, and every one but the last was followed by such a sample more than 20
      days later. */
  lemma EquinoxScan(r: Record)
    requires Consistent(r) && r.loaded && |r.date| > 0 && NearEquator(r)
    ensures var e := EquinoxEvents(r);
      && (forall x :: x in e ==> EquinoxDate(r.date, r.lat, x))
      && forall k :: 0 <= k < |e| - 1 ==>
           exists i :: 0 <= i < |r.date| && Abs(r.lat[i]) < EquinoxLatitude && r.date[i] - e[k] > EquinoxGap
  {
    var mask := EquatorMask(r.lat);
    SelectedNonEmpty(mask);
    var j := Selected(mask)[0];
    assert AbsAll(r.lat)[j] < EquinoxLatitude < EquinoxStart;
    FilteredEvents(true, EquinoxStart, EquinoxStart, EquinoxGap, r.date[0], r.date[|r.date| - 1],
                   AbsAll(r.lat), r.date, mask);
  }

  /** The split of `setEquinox`: when the earliest sample near the equator is south of
      it, the vernal equinoxes are the even-indexed entries of `eqs` and the autumnal
      ones the odd-indexed entries, the other way round otherwise; together they hold
      exactly the entries of `eqs`, and there are as many vernal as autumnal ones, or
      one more or one fewer. */
  lemma EquinoxSplit(r: Record)
    requires Consistent(r) && r.loaded && |r.date| > 0 && NearEquator(r)
    ensures var o, eqs := Equinox(r), EquinoxEvents(r);
      && (SouthFirst(r) ==> o.rec.eqV == Evens(eqs) && o.rec.eqA == Odds(eqs))
      && (!SouthFirst(r) ==> o.rec.eqV == Odds(eqs) && o.rec.eqA == Evens(eqs))
      && multiset(o.rec.eqV) + multiset(o.rec.eqA) == multiset(eqs)
      && -1 <= |o.rec.eqV| - |o.rec.eqA| <= 1
  {
    var mask := EquatorMask(r.lat);
    var eqs := EquinoxEvents(r);
    SouthFirstSample(r);
    var picked := Masked(r.lat, mask);
    var r1 := if picked[0] < 0.0 then r.(eqV := Evens(eqs), eqA := Odds(eqs))
              else r.(eqV := Odds(eqs), eqA := Evens(eqs));
    assert Equinox(r) == LookUpEquinoxes(r1);
    SplitCovers(eqs);
  }

  /** The first sample near the equator decides the split: it exists, and it is south
      of the equator exactly when `SouthFirst` holds. */
  lemma SouthFirstSample(r: Record)
    requires NearEquator(r)
    ensures var mask := EquatorMask(r.lat);
      |Selected(mask)| > 0 && (SouthFirst(r) <==> Masked(r.lat, mask)[0] < 0.0)
  {
    var mask := EquatorMask(r.lat);
    SelectedNonEmpty(mask);
    FirstSelected(mask);
    var j := Selected(mask)[0];
    assert Masked(r.lat, mask)[0] == r.lat[j];
    if SouthFirst(r) {
      var j' :| 0 <= j' < |r.lat| && Abs(r.lat[j']) < EquinoxLatitude && r.lat[j'] < 0.0
        && forall i :: 0 <= i < j' ==> Abs(r.lat[i]) >= EquinoxLatitude;
      assert !(j' < j) && !(j < j');
    }
  }

  /** The distance lookups of `setEquinox` always find their date: once some sample is
      near the equator, the step raises `IndexError` exactly when it finds no vernal or
      no autumnal equinox. */
  lemma EquinoxLookUps(r: Record)
    requires Consistent(r) && r.loaded && |r.date| > 0 && NearEquator(r)
    ensures var o := Equinox(r);
      o.status == Raised(IndexError) <==> |o.rec.eqV| == 0 || |o.rec.eqA| == 0
  {
    EquinoxScan(r);
    var o, eqs := Equinox(r), EquinoxEvents(r);
    EquinoxSplit(r);
    forall x | x in o.rec.eqV || x in o.rec.eqA
      ensures x in r.date
    {
      SplitElements(eqs, x);
      var i :| 0 <= i < |r.date| && r.date[i] == x && Abs(r.lat[i]) < EquinoxLatitude;
    }
    if |o.rec.eqV| > 0 { assert o.rec.eqV[0] in o.rec.eqV; }
    if |o.rec.eqA| > 0 { assert o.rec.eqA[0] in o.rec.eqA; }
  }

  /** When `setEquinox` finishes, every vernal and autumnal equinox is the date of a
      sample within .05 degrees of the equator. */
  lemma EquinoxDates(r: Record)
    requires Consistent(r)
    ensures var o := Equinox(r);
      o.status == Done ==> forall x :: x in o.rec.eqV || x in o.rec.eqA ==>
        EquinoxDate(r.date, r.lat, x)
  {
    var o := Equinox(r);
    if o.status == Done {
      EquinoxScan(r);
      EquinoxSplit(r);
      forall x | x in o.rec.eqV || x in o.rec.eqA
        ensures EquinoxDate(r.date, r.lat, x)
      {
        SplitElements(EquinoxEvents(r), x);
      }
    }
  }

  // ---- setSolstice ----

  /** `abs(lat) > .999 * obl`. */
  function TropicMask(lat: seq<real>, obl: real): (mask: seq<bool>)
    ensures |mask| == |lat|
    ensures forall i :: 0 <= i < |lat| ==> (mask[i] <==> Abs(lat[i]) > SolsticeFraction * obl)
  {
    Above(AbsAll(lat), SolsticeFraction * obl)
  }

  /** Some sample's |latitude| exceeds .999 of the obliquity. */
  ghost predicate NearTropic(r: Record)
  {
    exists i :: 0 <= i < |r.lat| && Abs(r.lat[i]) > SolsticeFraction * r.obl
  }

  /** `sols`: the solstice scan, committing after a quarter of the orbit. */
  function SolsticeEvents(r: Record): seq<int>
    requires Consistent(r) && r.loaded && |r.date| > 0
  {
    var mask := TropicMask(r.lat, r.obl);
    Events(false, SolsticeStart, SolsticeStart, Quarter(r.orbit), r.date[0], r.date[|r.date| - 1],
           Masked(AbsAll(r.lat), mask), Masked(r.date, mask))
  }

  /** The first solstice lies after the first vernal equinox and before the first
      autumnal one. */
  predicate SummerFirst(eqV: seq<int>, eqA: seq<int>, sols: seq<int>)
  {
    |eqV| > 0 && |sols| > 0 && |eqA| > 0 && eqV[0] < sols[0] && sols[0] < eqA[0]
  }

  /** The end of `setSolstice`, once `sol_s` and `sol_w` are set: look up `r_s`, then
      `r_w`. */
  function LookUpSolstices(r: Record): (o: Outcome)
    requires |r.dist| == |r.date|
    ensures o.rec == r.(rS := o.rec.rS, rW := o.rec.rW)
    ensures o.status == Done || o.status == Raised(IndexError)
    ensures o.status == Raised(IndexError) <==>
      |r.solS| == 0 || r.solS[0] !in r.date || |r.solW| == 0 || r.solW[0] !in r.date
    ensures o.status == Done ==>
      && |r.solS| > 0 && DistanceOf(r.date, r.dist, r.solS[0], o.rec.rS)
      && |r.solW| > 0 && DistanceOf(r.date, r.dist, r.solW[0], o.rec.rW)
    ensures (|r.solS| == 0 || r.solS[0] !in r.date) ==> o.rec == r
    ensures o.status == Raised(IndexError) && |r.solS| > 0 && r.solS[0] in r.date ==>
      DistanceOf(r.date, r.dist, r.solS[0], o.rec.rS) && o.rec.rW == r.rW
  {
    if |r.solS| == 0 then Outcome(r, Raised(IndexError))
    else match DistanceOn(r.date, r.dist, r.solS[0])
      case None => Outcome(r, Raised(IndexError))
      case Some(v) =>
        var r2 := r.(rS := v);
        if |r2.solW| == 0 then Outcome(r2, Raised(IndexError))
        else match DistanceOn(r2.date, r2.dist, r2.solW[0])
          case None => Outcome(r2, Raised(IndexError))
          case Some(w) => Outcome(r2.(rW := w), Done)
  }

  /** `setSolstice`: scan the samples near the greatest |latitude|, split the
      solstices into summer and winter ones by where the first falls among the
      equinoxes, and look up their distances. */
  function Solstice(r: Record): (o: Outcome)
    requires Consistent(r)
    ensures |r.date| == 0 ==> o == Outcome(r, Raised(IndexError))
    ensures |r.date| > 0 && !r.loaded ==> o == Outcome(r, Raised(AttributeError))
    ensures |r.date| > 0 && r.loaded && |r.eqV| == 0 ==> o == Outcome(r, Raised(IndexError))
    ensures o.rec == r.(solS := o.rec.solS, solW := o.rec.solW, rS := o.rec.rS, rW := o.rec.rW)
    ensures o.status != Raised(ValueError)
    ensures o.status == Done ==>
      && |o.rec.solS| > 0 && DistanceOf(r.date, r.dist, o.rec.solS[0], o.rec.rS)
      && |o.rec.solW| > 0 && DistanceOf(r.date, r.dist, o.rec.solW[0], o.rec.rW)
  {
    if |r.date| == 0 then Outcome(r, Raised(IndexError))
    else if !r.loaded then Outcome(r, Raised(AttributeError))
    else
      var sols := SolsticeEvents(r);
      if |r.eqV| == 0 || |sols| == 0 then Outcome(r, Raised(IndexError))
      else if r.eqV[0] < sols[0] && |r.eqA| == 0 then Outcome(r, Raised(IndexError))
      else
        var r1 := if SummerFirst(r.eqV, r.eqA, sols) then r.(solS := Evens(sols), solW := Odds(sols))
                  else r.(solS := Odds(sols), solW := Evens(sols));
        LookUpSolstices(r1)
  }

  /** Every solstice the scan finds is the date of a sample whose |latitude| exceeds
      .999 of the obliquity, and every one but the last was followed by such a sample
      more than a quarter of the orbit later. */
  lemma SolsticeScan(r: Record)
    requires Consistent(r) && r.loaded && |r.date| > 0 && r.obl >= 0.0 && NearTropic(r)
    ensures var e := SolsticeEvents(r);
      && (forall x :: x in e ==> SolsticeDate(r.date, r.lat, r.obl, x))
      && forall k :: 0 <= k < |e| - 1 ==>
           exists i :: 0 <= i < |r.date| && Abs(r.lat[i]) > SolsticeFraction * r.obl && r.date[i] - e[k] > Quarter(r.orbit)
  {
    var mask := TropicMask(r.lat, r.obl);
    SelectedNonEmpty(mask);
    var j := Selected(mask)[0];
    assert AbsAll(r.lat)[j] > SolsticeFraction * r.obl >= SolsticeStart;
    FilteredEvents(false, SolsticeStart, SolsticeStart, Quarter(r.orbit), r.date[0], r.date[|r.date| - 1],
                   AbsAll(r.lat), r.date, mask);
  }

  /** The split of `setSolstice`: when the first solstice falls between the first
      vernal and the first autumnal equinox, summer takes the even-indexed entries and
      winter the odd-indexed ones, the other way round otherwise; together they hold
      exactly the entries of `sols`. The step finishes exactly when there are two
      solstices or more, at least one vernal equinox, and an autumnal one whenever the
      first solstice comes after the first vernal equinox. */
  lemma SolsticeSplit(r: Record)
    requires Consistent(r) && r.loaded && |r.date| > 0
    ensures var o, sols := Solstice(r), SolsticeEvents(r);
      && (o.status == Done <==>
            |r.eqV| > 0 && |sols| >= 2 && (r.eqV[0] < sols[0] ==> |r.eqA| > 0))
      && (o.status == Done ==>
            && (SummerFirst(r.eqV, r.eqA, sols) ==> o.rec.solS == Evens(sols) && o.rec.solW == Odds(sols))
            && (!SummerFirst(r.eqV, r.eqA, sols) ==> o.rec.solS == Odds(sols) && o.rec.solW == Evens(sols))
            && multiset(o.rec.solS) + multiset(o.rec.solW) == multiset(sols))
  {
    var sols := SolsticeEvents(r);
    SolsticesInRecord(r);
    forall x | x in Evens(sols) || x in Odds(sols)
      ensures x in r.date
    {
      SplitElements(sols, x);
    }
    if |Evens(sols)| > 0 { assert Evens(sols)[0] in Evens(sols); }
    if |Odds(sols)| > 0 { assert Odds(sols)[0] in Odds(sols); }
    if |r.eqV| > 0 && |sols| > 0 && !(r.eqV[0] < sols[0] && |r.eqA| == 0) {
      var r1 := if SummerFirst(r.eqV, r.eqA, sols) then r.(solS := Evens(sols), solW := Odds(sols))
                else r.(solS := Odds(sols), solW := Evens(sols));
      assert Solstice(r) == LookUpSolstices(r1);
    }
    SplitCovers(sols);
  }

  /** Every date the solstice scan reports is a sample date: the scan starts from the
      first sample's date. */
  lemma SolsticesInRecord(r: Record)
    requires Consistent(r) && r.loaded && |r.date| > 0
    ensures forall x :: x in SolsticeEvents(r) ==> x in r.date
  {
    var mask := TropicMask(r.lat, r.obl);
    FilteredEvents(false, SolsticeStart, SolsticeStart, Quarter(r.orbit), r.date[0], r.date[|r.date| - 1],
                   AbsAll(r.lat), r.date, mask);
    forall x | x in SolsticeEvents(r)
      ensures x in r.date
    {
      if x != r.date[0] {
        var i :| 0 <= i < |r.date| && i < |mask| && mask[i] && r.date[i] == x;
      }
    }
  }

  /** When `setSolstice` finishes and some sample exceeds .999 of a non-negative
      obliquity, every summer and winter solstice is the date of such a sample. */
  lemma SolsticeDates(r: Record)
    requires Consistent(r) && r.obl >= 0.0 && NearTropic(r)
    ensures var o := Solstice(r);
      o.status == Done ==> forall x :: x in o.rec.solS || x in o.rec.solW ==>
        SolsticeDate(r.date, r.lat, r.obl, x)
  {
    var o := Solstice(r);
    if o.status == Done {
      SolsticeScan(r);
      SolsticeSplit(r);
      forall x | x in o.rec.solS || x in o.rec.solW
        ensures SolsticeDate(r.date, r.lat, r.obl, x)
      {
        SplitElements(SolsticeEvents(r), x);
      }
    }
  }

  // ---- setAphelion and setPerihelion ----

  /** `dist < 1.01 * r_aph`. */
  function NearMask(dist: seq<real>, rAph: real): (mask: seq<bool>)
    ensures |mask| == |dist| && forall i :: 0 <= i < |dist| ==> (mask[i] <==> dist[i] < AphelionFraction * rAph)
  {
    Below(dist, AphelionFraction * rAph)
  }

  /** `dist > .99 * r_per`. */
  function FarMask(dist: seq<real>, rPer: real): (mask: seq<bool>)
    ensures |mask| == |dist| && forall i :: 0 <= i < |dist| ==> (mask[i] <==> dist[i] > PerihelionFraction * rPer)
  {
    Above(dist, PerihelionFraction * rPer)
  }

  /** The aphelion scan over the samples nearer than 1.01 times `rAph`. */
  function AphelionEvents(r: Record, rAph: real): seq<int>
    requires Consistent(r) && r.loaded && |r.date| > 0
  {
    var mask := NearMask(r.dist, rAph);
    Events(true, AphelionFraction * rAph, AphelionFraction * rAph, Quarter(r.orbit),
           r.date[0], r.date[|r.date| - 1], Masked(r.dist, mask), Masked(r.date, mask))
  }

  /** The perihelion scan over the samples farther than .99 times `rPer`. */
  function PerihelionEvents(r: Record, rPer: real): seq<int>
    requires Consistent(r) && r.loaded && |r.date| > 0
  {
    var mask := FarMask(r.dist, rPer);
    Events(false, PerihelionFraction * rPer, PerihelionFraction * rPer, Quarter(r.orbit),
           r.date[0], r.date[|r.date| - 1], Masked(r.dist, mask), Masked(r.date, mask))
  }

  /** `setAphelion`: the least distance, and the dates the scan finds near it. The
      source names this distance after the aphelion. */
  function Aphelion(r: Record): (o: Outcome)
    requires Consistent(r)
    ensures !r.loaded ==> o == Outcome(r, Raised(AttributeError))
    ensures r.loaded && |r.dist| == 0 ==> o == Outcome(r, Raised(ValueError))
    ensures r.loaded && |r.dist| > 0 ==>
      && o.status == Done
      && o.rec == r.(rAph := o.rec.rAph, aphs := o.rec.aphs)
      && o.rec.rAph in r.dist
      && (forall i :: 0 <= i < |r.dist| ==> o.rec.rAph <= r.dist[i])
      && o.rec.aphs == AphelionEvents(r, o.rec.rAph)
  {
    if !r.loaded then Outcome(r, Raised(AttributeError))
    else if |r.dist| == 0 then Outcome(r, Raised(ValueError))
    else
      // `date[0]` exists: `date` and `dist` have the same length
      var m := MinOf(r.dist);
      Outcome(r.(rAph := m, aphs := AphelionEvents(r, m)), Done)
  }

  /** `setPerihelion`: the greatest distance, and the dates the scan finds near it. */
  function Perihelion(r: Record): (o: Outcome)
    requires Consistent(r)
    ensures !r.loaded ==> o == Outcome(r, Raised(AttributeError))
    ensures r.loaded && |r.dist| == 0 ==> o == Outcome(r, Raised(ValueError))
    ensures r.loaded && |r.dist| > 0 ==>
      && o.status == Done
      && o.rec == r.(rPer := o.rec.rPer, pers := o.rec.pers)
      && o.rec.rPer in r.dist
      && (forall i :: 0 <= i < |r.dist| ==> r.dist[i] <= o.rec.rPer)
      && o.rec.pers == PerihelionEvents(r, o.rec.rPer)
  {
    if !r.loaded then Outcome(r, Raised(AttributeError))
    else if |r.dist| == 0 then Outcome(r, Raised(ValueError))
    else
      var m := MaxOf(r.dist);
      Outcome(r.(rPer := m, pers := PerihelionEvents(r, m)), Done)
  }

  /** With positive distances, every aphelion date is the date of a sample nearer than
      1.01 times the least distance, and every one but the last was followed by such a
      sample more than a quarter of the orbit later. */
  lemma AphelionDates(r: Record)
    requires Consistent(r) && r.loaded && |r.dist| > 0
    requires forall i :: 0 <= i < |r.dist| ==> r.dist[i] > 0.0
    ensures var o := Aphelion(r);
      && (forall x :: x in o.rec.aphs ==>
            AphelionDate(r.date, r.dist, o.rec.rAph, x))
      && forall k :: 0 <= k < |o.rec.aphs| - 1 ==>
           exists i :: 0 <= i < |r.date| && r.dist[i] < AphelionFraction * o.rec.rAph && r.date[i] - o.rec.aphs[k] > Quarter(r.orbit)
  {
    var m := MinOf(r.dist);
    var t := AphelionFraction * m;
    var mask := NearMask(r.dist, m);
    var e := AphelionEvents(r, m);
    assert Aphelion(r).rec.rAph == m && Aphelion(r).rec.aphs == e;
    var i :| 0 <= i < |r.dist| && r.dist[i] == m;
    assert mask[i];
    ThresholdEvents(true, t, Quarter(r.orbit), r.date[0], r.date[|r.date| - 1], r.dist, r.date, mask);
  }

  /** With positive distances, every perihelion date is the date of a sample farther
      than .99 times the greatest distance, and every one but the last was followed by
      such a sample more than a quarter of the orbit later. */
  lemma PerihelionDates(r: Record)
    requires Consistent(r) && r.loaded && |r.dist| > 0
    requires forall i :: 0 <= i < |r.dist| ==> r.dist[i] > 0.0
    ensures var o := Perihelion(r);
      && (forall x :: x in o.rec.pers ==>
            PerihelionDate(r.date, r.dist, o.rec.rPer, x))
      && forall k :: 0 <= k < |o.rec.pers| - 1 ==>
           exists i :: 0 <= i < |r.date| && r.dist[i] > PerihelionFraction * o.rec.rPer && r.date[i] - o.rec.pers[k] > Quarter(r.orbit)
  {
    var m := MaxOf(r.dist);
    var t := PerihelionFraction * m;
    var mask := FarMask(r.dist, m);
    var e := PerihelionEvents(r, m);
    assert Perihelion(r).rec.rPer == m && Perihelion(r).rec.pers == e;
    var i :| 0 <= i < |r.dist| && r.dist[i] == m;
    assert mask[i];
    ThresholdEvents(false, t, Quarter(r.orbit), r.date[0], r.date[|r.date| - 1], r.dist, r.date, mask);
  }

  // ---- reload ----

  /** `reload` up to `fitLs`: read the samples, then run the five steps in order,
      stopping at the first that raises. */
  function ReloadRecord(r: Record, d: seq<int>, l: seq<real>, s: seq<real>): (o: Outcome)
    requires |l| == |d| && |s| == |d|
    ensures o.status != Raised(AttributeError)
    ensures o.rec.date == d && o.rec.lat == l && o.rec.dist == s && o.rec.loaded
  {
    var o1 := Obliquity(WithSamples(r, d, l, s));
    if o1.status.Raised? then o1
    else
      var o2 := Equinox(o1.rec);
      if o2.status.Raised? then o2
      else
        var o3 := Solstice(o2.rec);
        if o3.status.Raised? then o3
        else
          var o4 := Aphelion(o3.rec);
          if o4.status.Raised? then o4
          else Perihelion(o4.rec)
  }

  /** In a `reload` that finishes, the obliquity is the greatest |latitude| of the
      samples read, and there is at least one sample. */
  lemma ReloadObliquity(r: Record, d: seq<int>, l: seq<real>, s: seq<real>)
    requires |l| == |d| && |s| == |d|
    ensures var o := ReloadRecord(r, d, l, s);
      o.status == Done ==>
        && |d| > 0
        && (forall i :: 0 <= i < |l| ==> Abs(l[i]) <= o.rec.obl)
        && (exists i :: 0 <= i < |l| && Abs(l[i]) == o.rec.obl)
  {
    var o := ReloadRecord(r, d, l, s);
    if o.status == Done {
      var o1 := Obliquity(WithSamples(r, d, l, s));
      var o2 := Equinox(o1.rec);
      var o3 := Solstice(o2.rec);
      var o4 := Aphelion(o3.rec);
      assert o == Perihelion(o4.rec);
      assert o.rec.obl == o1.rec.obl;
    }
  }

  /** In a `reload` that finishes, the orbit is the span between the first two vernal
      equinoxes, which `setSolstice` and the later steps do not change, and every
      equinox is a sample date within .05 degrees of the equator. */
  lemma ReloadEquinoxes(r: Record, d: seq<int>, l: seq<real>, s: seq<real>)
    requires |l| == |d| && |s| == |d|
    ensures var o := ReloadRecord(r, d, l, s);
      o.status == Done ==>
        && |o.rec.eqV| >= 2 && o.rec.orbit == o.rec.eqV[1] - o.rec.eqV[0]
        && forall x :: x in o.rec.eqV || x in o.rec.eqA ==>
             EquinoxDate(d, l, x)
  {
    var o := ReloadRecord(r, d, l, s);
    if o.status == Done {
      var o1 := Obliquity(WithSamples(r, d, l, s));
      var o2 := Equinox(o1.rec);
      var o3 := Solstice(o2.rec);
      var o4 := Aphelion(o3.rec);
      assert o == Perihelion(o4.rec);
      assert o.rec.eqV == o2.rec.eqV && o.rec.eqA == o2.rec.eqA && o.rec.orbit == o2.rec.orbit;
      assert o1.rec.date == d && o1.rec.lat == l;
      EquinoxDates(o1.rec);
    }
  }

  /** In a `reload` that finishes with a positive obliquity, every solstice is a sample
      date whose |latitude| exceeds .999 of that obliquity: `setSolstice` reads the
      obliquity `setObliquity` set. */
  lemma ReloadSolstices(r: Record, d: seq<int>, l: seq<real>, s: seq<real>)
    requires |l| == |d| && |s| == |d|
    ensures var o := ReloadRecord(r, d, l, s);
      o.status == Done && o.rec.obl > 0.0 ==>
        forall x :: x in o.rec.solS || x in o.rec.solW ==>
          SolsticeDate(d, l, o.rec.obl, x)
  {
    var o := ReloadRecord(r, d, l, s);
    if o.status == Done && o.rec.obl > 0.0 {
      var o1 := Obliquity(WithSamples(r, d, l, s));
      var o2 := Equinox(o1.rec);
      var o3 := Solstice(o2.rec);
      var o4 := Aphelion(o3.rec);
      assert o == Perihelion(o4.rec);
      assert o.rec.solS == o3.rec.solS && o.rec.solW == o3.rec.solW && o.rec.obl == o2.rec.obl;
      assert o2.rec.date == d && o2.rec.lat == l;
      var k :| 0 <= k < |l| && Abs(l[k]) == o.rec.obl;
      assert Abs(l[k]) > SolsticeFraction * o.rec.obl;
      SolsticeDates(o2.rec);
    }
  }

  /** In a `reload` that finishes with positive distances, every aphelion date is a
      sample date nearer than 1.01 times the least distance. */
  lemma ReloadAphelia(r: Record, d: seq<int>, l: seq<real>, s: seq<real>)
    requires |l| == |d| && |s| == |d|
    requires forall i :: 0 <= i < |s| ==> s[i] > 0.0
    ensures var o := ReloadRecord(r, d, l, s);
      o.status == Done ==>
        && (forall i :: 0 <= i < |s| ==> o.rec.rAph <= s[i])
        && forall x :: x in o.rec.aphs ==>
             AphelionDate(d, s, o.rec.rAph, x)
  {
    var o := ReloadRecord(r, d, l, s);
    if o.status == Done {
      var o1 := Obliquity(WithSamples(r, d, l, s));
      var o2 := Equinox(o1.rec);
      var o3 := Solstice(o2.rec);
      var o4 := Aphelion(o3.rec);
      assert o == Perihelion(o4.rec);
      assert o.rec.aphs == o4.rec.aphs && o.rec.rAph == o4.rec.rAph;
      assert o3.rec.date == d && o3.rec.dist == s;
      AphelionDates(o3.rec);
    }
  }

  /** In a `reload` that finishes with positive distances, every perihelion date is a
      sample date farther than .99 times the greatest distance. */
  lemma ReloadPerihelia(r: Record, d: seq<int>, l: seq<real>, s: seq<real>)
    requires |l| == |d| && |s| == |d|
    requires forall i :: 0 <= i < |s| ==> s[i] > 0.0
    ensures var o := ReloadRecord(r, d, l, s);
      o.status == Done ==>
        && (forall i :: 0 <= i < |s| ==> s[i] <= o.rec.rPer)
        && forall x :: x in o.rec.pers ==>
             PerihelionDate(d, s, o.rec.rPer, x)
  {
    var o := ReloadRecord(r, d, l, s);
    if o.status == Done {
      var o1 := Obliquity(WithSamples(r, d, l, s));
      var o2 := Equinox(o1.rec);
      var o3 := Solstice(o2.rec);
      var o4 := Aphelion(o3.rec);
      assert o == Perihelion(o4.rec);
      assert o4.rec.date == d && o4.rec.dist == s;
      PerihelionDates(o4.rec);
    }
  }

  /** The `TITAN` object: the same fields, updated in place by its methods. */
  class Titan {
    var date: seq<int>
    var lat: seq<real>
    var dist: seq<real>
    var loaded: bool
    var obl: real
    var orbit: int
    var eqV: seq<int>
    var solS: seq<int>
    var eqA: seq<int>
    var solW: seq<int>
    var aphs: seq<int>
    var pers: seq<int>
    var rV: real
    var rS: real
    var rA: real
    var rW: real
    var rAph: real
    var rPer: real

    /** The fields as a record. */
    function Snapshot(): Record
      reads this
    {
      Record(date, lat, dist, loaded, obl, orbit, eqV, solS, eqA, solW, aphs, pers,
             rV, rS, rA, rW, rAph, rPer)
    }

    /** The samples are parallel arrays. */
    predicate Valid()
      reads this
    {
      Consistent(Snapshot())
    }

    /** `__init__`. */
    constructor ()
      ensures Valid() && Snapshot() == Defaults()
    {
      var r := Defaults();
      date, lat, dist, loaded := r.date, r.lat, r.dist, r.loaded;
      obl, orbit := r.obl, r.orbit;
      eqV, solS, eqA, solW, aphs, pers := r.eqV, r.solS, r.eqA, r.solW, r.aphs, r.pers;
      rV, rS, rA, rW, rAph, rPer := r.rV, r.rS, r.rA, r.rW, r.rAph, r.rPer;
    }

    /** `read`: the dates, latitudes and distances of the file, as parameters. */
    method Load(d: seq<int>, l: seq<real>, s: seq<real>)
      requires |l| == |d| && |s| == |d|
      modifies this
      ensures Valid() && Snapshot() == WithSamples(old(Snapshot()), d, l, s)
    {
      date, lat, dist, loaded := d, l, s, true;
    }

    /** `setObliquity`. */
    method SetObliquity() returns (status: Status)
      requires Valid()
      modifies this
      ensures Valid() && Outcome(Snapshot(), status) == Obliquity(old(Snapshot()))
    {
      if !loaded {
        return Raised(AttributeError);
      }
      if |lat| == 0 {
        return Raised(ValueError);
      }
      obl := MaxOf(AbsAll(lat));
      return Done;
    }

    /** `setEquinox`. */
    method SetEquinox() returns (status: Status)
      requires Valid()
      modifies this
      ensures Valid() && Outcome(Snapshot(), status) == Equinox(old(Snapshot()))
    {
      if |date| == 0 {
        return Raised(IndexError);
      }
      if !loaded {
        return Raised(AttributeError);
      }
      ghost var r := Snapshot();
      var cond := EquatorMask(lat);
      var eqs := ScanEquinoxes();
      var picked := Masked(lat, cond);
      if |picked| == 0 {
        return Raised(IndexError);
      }
      if picked[0] < 0.0 {
        eqV, eqA := Evens(eqs), Odds(eqs);
      } else {
        eqV, eqA := Odds(eqs), Evens(eqs);
      }
      assert Equinox(r) == LookUpEquinoxes(Snapshot());
      status := LookUpEquinoxDistances();
    }

    /** The end of `setEquinox`: `r_v`, `r_a` and the orbit. */
    method LookUpEquinoxDistances() returns (status: Status)
      requires Valid() && loaded
      modifies this
      ensures Valid() && Outcome(Snapshot(), status) == LookUpEquinoxes(old(Snapshot()))
    {
      if |eqV| == 0 {
        return Raised(IndexError);
      }
      var v := DistanceOn(date, dist, eqV[0]);
      if v.None? {
        return Raised(IndexError);
      }
      rV := v.value;
      if |eqA| == 0 {
        return Raised(IndexError);
      }
      var a := DistanceOn(date, dist, eqA[0]);
      if a.None? {
        return Raised(IndexError);
      }
      rA := a.value;
      if |eqV| < 2 {
        return Raised(ValueError);
      }
      orbit := eqV[1] - eqV[0];
      return Done;
    }

    /** `setSolstice`. */
    method SetSolstice() returns (status: Status)
      requires Valid()
      modifies this
      ensures Valid() && Outcome(Snapshot(), status) == Solstice(old(Snapshot()))
    {
      if |date| == 0 {
        return Raised(IndexError);
      }
      if !loaded {
        return Raised(AttributeError);
      }
      ghost var r := Snapshot();
      var sols := ScanSolstices();
      if |eqV| == 0 || |sols| == 0 {
        return Raised(IndexError);
      }
      if eqV[0] < sols[0] && |eqA| == 0 {
        return Raised(IndexError);
      }
      if eqV[0] < sols[0] && sols[0] < eqA[0] {
        solS, solW := Evens(sols), Odds(sols);
      } else {
        solS, solW := Odds(sols), Evens(sols);
      }
      assert Solstice(r) == LookUpSolstices(Snapshot());
      status := LookUpSolsticeDistances();
    }

    /** The end of `setSolstice`: `r_s` and `r_w`. */
    method LookUpSolsticeDistances() returns (status: Status)
      requires Valid() && loaded
      modifies this
      ensures Valid() && Outcome(Snapshot(), status) == LookUpSolstices(old(Snapshot()))
    {
      if |solS| == 0 {
        return Raised(IndexError);
      }
      var v := DistanceOn(date, dist, solS[0]);
      if v.None? {
        return Raised(IndexError);
      }
      rS := v.value;
      if |solW| == 0 {
        return Raised(IndexError);
      }
      var w := DistanceOn(date, dist, solW[0]);
      if w.None? {
        return Raised(IndexError);
      }
      rW := w.value;
      return Done;
    }

    /** `setAphelion`. */
    method SetAphelion() returns (status: Status)
      requires Valid()
      modifies this
      ensures Valid() && Outcome(Snapshot(), status) == Aphelion(old(Snapshot()))
    {
      if !loaded {
        return Raised(AttributeError);
      }
      if |dist| == 0 {
        return Raised(ValueError);
      }
      ghost var r := Snapshot();
      var m := MinOf(dist);
      var found := ScanAphelia(m);
      rAph, aphs := m, found;
      assert Snapshot() == r.(rAph := m, aphs := found);
      return Done;
    }

    /** `setPerihelion`. */
    method SetPerihelion() returns (status: Status)
      requires Valid()
      modifies this
      ensures Valid() && Outcome(Snapshot(), status) == Perihelion(old(Snapshot()))
    {
      if !loaded {
        return Raised(AttributeError);
      }
      if |dist| == 0 {
        return Raised(ValueError);
      }
      ghost var r := Snapshot();
      var m := MaxOf(dist);
      var found := ScanPerihelia(m);
      rPer, pers := m, found;
      assert Snapshot() == r.(rPer := m, pers := found);
      return Done;
    }

    /** The scan of `setEquinox`, over the samples within 0.05 of the equator. */
    method ScanEquinoxes() returns (eqs: seq<int>)
      requires Valid() && loaded && |date| > 0
      ensures eqs == EquinoxEvents(Snapshot())
    {
      var cond := EquatorMask(lat);
      eqs := DetectEvents(true, EquinoxStart, EquinoxStart, EquinoxGap, date[0], date[|date| - 1],
                          Masked(AbsAll(lat), cond), Masked(date, cond));
    }

    /** The scan of `setSolstice`, over the samples near a tropic. */
    method ScanSolstices() returns (sols: seq<int>)
      requires Valid() && loaded && |date| > 0
      ensures sols == SolsticeEvents(Snapshot())
    {
      var cond := TropicMask(lat, obl);
      sols := DetectEvents(false, SolsticeStart, SolsticeStart, Quarter(orbit), date[0], date[|date| - 1],
                           Masked(AbsAll(lat), cond), Masked(date, cond));
    }

    /** The scan of `setAphelion`, over the samples nearer than 1.01 times `m`. */
    method ScanAphelia(m: real) returns (found: seq<int>)
      requires Valid() && loaded && |date| > 0
      ensures found == AphelionEvents(Snapshot(), m)
    {
      var cond := NearMask(dist, m);
      found := DetectEvents(true, AphelionFraction * m, AphelionFraction * m, Quarter(orbit),
                            date[0], date[|date| - 1], Masked(dist, cond), Masked(date, cond));
    }

    /** The scan of `setPerihelion`, over the samples farther than .99 times `m`. */
    method ScanPerihelia(m: real) returns (found: seq<int>)
      requires Valid() && loaded && |date| > 0
      ensures found == PerihelionEvents(Snapshot(), m)
    {
      var cond := FarMask(dist, m);
      found := DetectEvents(false, PerihelionFraction * m, PerihelionFraction * m, Quarter(orbit),
                            date[0], date[|date| - 1], Masked(dist, cond), Masked(date, cond));
    }

    /** `reload` up to `fitLs`: read, then the five steps in order, stopping at the
        first that raises. */
    method Reload(d: seq<int>, l: seq<real>, s: seq<real>) returns (status: Status)
      requires Valid() && |l| == |d| && |s| == |d|
      modifies this
      ensures Valid() && Outcome(Snapshot(), status) == ReloadRecord(old(Snapshot()), d, l, s)
    {
      Load(d, l, s);
      status := SetObliquity();
      if status.Raised? {
        return;
      }
      status := SetEquinox();
      if status.Raised? {
        return;
      }
      status := SetSolstice();
      if status.Raised? {
        return;
      }
      status := SetAphelion();
      if status.Raised? {
        return;
      }
      status := SetPerihelion();
    }
  }
}
