# Titan seasons: orbit geometry and event detection

This project models two parts of the `d3js-titan-seasons` repository in Dafny and proves
properties of them.

- **Orbit geometry** (`assets/Seasons.js`). `Orbit` is a rotated ellipse centred on the
  origin. `ell_Y` and `ell_X` meet it with a vertical or a horizontal line. `Sun` sits
  inside the orbit at `e·a·(cos r, sin r)`. `Sun.Ls` turns a solar longitude into a
  point of the orbit. `tick`, `coverage` and `legend` place marks along the line from
  that point through the sun. `Planet.dShadow` draws the dark half of the moon, and
  `Titan` is the moon preset.
- **Event detection** (`Titan_orbit.py`). The `TITAN` object holds a sampled ephemeris:
  dates, sub-solar latitudes and distances to the sun. `setObliquity`, `setEquinox`,
  `setSolstice`, `setAphelion` and `setPerihelion` each derive one kind of event.
  `reload` runs the five steps in order.

Files, one module each:

| file | module | models |
|---|---|---|
| `optional.dfy` | `Optional` | optional arguments (`x != null ? x : default`) |
| `maths.dfy` | `Maths` | `dcos`, `dsin`, `Math.sqrt` as real functions with stated properties, and real-arithmetic lemmas |
| `shapes.dfy` | `Shapes` | points, lines, circles, labels and path segments, in place of SVG attribute strings |
| `orbit.dfy` | `OrbitGeometry` | `Orbit`, `ell_Y`, `ell_X`, and the line-ellipse intersection inside `Sun.Ls` |
| `sun.dfy` | `SunGeometry` | the `Sun` constructor and `Sun.Ls` |
| `marks.dfy` | `SunMarks` | the geometry of `tick`, `coverage` and `legend` |
| `planet.dfy` | `PlanetShadow` | the `Planet` constructor, `dShadow`, `Titan` |
| `samples.dfy` | `Samples` | the numpy operations of `Titan_orbit.py`: `abs`, comparison masks, `s[mask]`, `max`, `min`, `[::2]`, `[1::2]`, `date == d`, `orbit / 4` |
| `scan.dfy` | `EventScan` | the candidate-and-commit loop that the four event steps share |
| `titan.dfy` | `TitanOrbit` | the `TITAN` object: each step as a function on a record of its fields, and the class `Titan` whose methods update the fields in place |

The geometry is pure and is modelled as functions and lemmas. The ephemeris code changes
its object step by step. It is modelled as the class `TitanOrbit.Titan`. Each method is
proved to leave the object as a record-level function says, for example
`Outcome(Snapshot(), status) == Equinox(old(Snapshot()))`. The scan loop is the method
`EventScan.DetectEvents`, proved equal to the fold `EventScan.Events`.

How the model represents the source:

- **Library functions.** `sin`, `cos` and `sqrt` are the three fields of a `Maths.Maths`
  value. `Maths.Sound` states what the proofs assume about them:
  - `sin² + cos² = 1`;
  - for `x ≥ 0`, `sqrt(x) ≥ 0` and `sqrt(x)² = x`;
  - the exact values at 0, 90, 180 and 270 degrees;
  - the signs of sine and cosine over one turn.
- **NaN and division by zero.** The source produces NaN when a discriminant is negative,
  and divides by zero when `sin(angle) = 0` away from 0 and 180. Both become
  preconditions (`LsDefined`).
- **Dates.** Dates are whole days since 1970-01-01, the epoch of `datetime64[D]`. Time
  spans are day counts. `orbit / 4` divides a `timedelta64` by an integer, which
  truncates toward zero; `Samples.Quarter` models that.
- **Exceptions.** A Python exception is a `Status` (`Raised(IndexError)`,
  `Raised(ValueError)` or `Raised(AttributeError)`), returned together with the state
  the object has at that point. Some steps assign fields before they raise, and the
  model keeps those assignments.
- **Samples not yet read.** `__init__` does not create `lat` and `dist`. The field
  `loaded` records whether `read` has created them. Reading them before that raises
  `AttributeError`.

Facts about the code that the model keeps as written:

- **`Ls` root choice.** For `angle <= 180`, `Sun.Ls` takes the root with `−√D`, which is
  the leftmost intersection; otherwise it takes `+√D` (`assets/Seasons.js:259`). So with
  no rotation and the sun at the centre, `Ls(90)` is `(−a, 0)` and `Ls(270)` is `(a, 0)`
  (`SunGeometry.LsOnRay`, `SunGeometry.CentredQuarterTurns`). On a centred circle of
  radius R, `Ls(angle)` is `−R·(sin, cos)` of the angle at every angle of a turn
  (`SunGeometry.CentredCircle`).
- **Direction of band corners and ticks.** Band corners and ticks are offset along
  `(sin, cos)` of the angle. For a sun inside the orbit this direction points from
  `Ls(angle)` toward the sun (`SunGeometry.SunSeenAlong`), so the offset corners lie
  inward, on the side of the inner arc of radii `(a − t, b − t)`.
- **Legend distance.** `legend` steps back from the sun, along `(sin, cos)` of the
  angle, by `leg.r·|Ls(angle)|`, where `|Ls(angle)|` is measured from the orbit's centre
  and not from the sun. When the sun is at the centre this puts the label at the
  fraction `leg.r` of the way to the orbit point (`SunMarks.CentredLegendAtFraction`).
- **Aphelion and perihelion names.** `setAphelion` takes the least distance and
  `setPerihelion` the greatest, as the code does; the model keeps the code's names.
- **Repeated last event.** The final append of a scan can repeat the last committed
  event (`EventScan.RepeatedLastEvent`), so no contract claims the events are distinct.

## Model

| member | source | states |
|---|---|---|
| `OrbitGeometry.NewOrbit` | assets/Seasons.js:150-159 | absent axes default to 200 and the rotation to 0; the stored coefficients are cos r, sin r, their squares, 1/a² and 1/b², with cos² + sin² = 1 and 1/a²·a² = 1 |
| `OrbitGeometry.ValidFacts` | assets/Seasons.js:154-159 | on a valid orbit cos² r + sin² r = 1, both squares are non-negative, and 1/a² and 1/b² are positive inverses of a² and b² |
| `OrbitGeometry.FormInAxes` | assets/Seasons.js:191-193 | the stored coefficients give the rotated-ellipse equation `(X cos r + Y sin r)²/a² + (X sin r − Y cos r)²/b²` written with a and b |
| `OrbitGeometry.Roots` | assets/Seasons.js:195 | the two values `.5·(−B ± √D)/A` are roots of the quadratic, the `+` one is the larger, and their sum is −B/A |
| `OrbitGeometry.RootsAreAll` | assets/Seasons.js:195 | with A > 0 and D ≥ 0 the quadratic vanishes exactly at those two roots and is negative exactly strictly between them |
| `OrbitGeometry.YQuadraticIsEllipse` | assets/Seasons.js:191-193 | the A, B, C of `ell_Y` are the ellipse equation with X fixed: the quadratic at Y equals Form(X, Y) − 1 |
| `OrbitGeometry.XQuadraticIsEllipse` | assets/Seasons.js:200-202 | the A, B, C of `ell_X` are the ellipse equation with Y fixed |
| `OrbitGeometry.LeadingPositive` | assets/Seasons.js:191 | the leading coefficients of both `ell_Y` and `ell_X` are positive, so neither divides by zero |
| `OrbitGeometry.DiscriminantsClosedForm` | assets/Seasons.js:194 | D = 4·(A − X²/(a²b²)), so the line x = X meets the orbit exactly when that is non-negative |
| `OrbitGeometry.EllY` | assets/Seasons.js:189-196 | both values of `ell_Y(X)` are roots of its quadratic and put (X, Y) on the ellipse, and the first is at least the second |
| `OrbitGeometry.EllX` | assets/Seasons.js:198-205 | both values of `ell_X(Y)` put (X, Y) on the ellipse, and the first is at least the second |
| `OrbitGeometry.EllYAllIntersections` | assets/Seasons.js:189-196 | (X, Y) is on the orbit exactly when Y is one of the two values, and inside it exactly when Y lies strictly between them |
| `OrbitGeometry.EllXAllIntersections` | assets/Seasons.js:198-205 | (X, Y) is on the orbit exactly when X is one of the two values, and inside it exactly when X lies strictly between them |
| `OrbitGeometry.LineLeadingPositive` | assets/Seasons.js:255 | the A of `Ls` is positive on every valid orbit, for every slope |
| `OrbitGeometry.LineQuadraticIsEllipse` | assets/Seasons.js:255-257 | the A, B, C of `Ls` are the ellipse equation with Y = cX + d substituted |
| `OrbitGeometry.EllLine` | assets/Seasons.js:255-259 | both roots give points of the orbit on the line Y = cX + d, the `+√D` one first |
| `OrbitGeometry.EllLineAllIntersections` | assets/Seasons.js:255-259 | a point of the line is on the orbit exactly when it is one of the two roots, and inside it exactly when strictly between them |
| `OrbitGeometry.EllLineExtremes` | assets/Seasons.js:259 | every intersection of the line and the orbit lies between the two roots |
| `OrbitGeometry.LinePoint` | assets/Seasons.js:259-260 | the point `(X, cX + d)` chosen with `−√D` is the leftmost intersection, and with `+√D` the rightmost |
| `OrbitGeometry.LinePointSides` | assets/Seasons.js:258-260 | a point strictly inside the orbit on the line has the leftmost intersection strictly to its left and the rightmost strictly to its right |
| `OrbitGeometry.InsideCrosses` | assets/Seasons.js:258 | a line through a point strictly inside the orbit has a positive discriminant |
| `SunGeometry.NewSun` | assets/Seasons.js:212-235 | the sun sits at `e·a·(cos r, sin r)`; the equinox line is vertical at sun.x, the solstice line horizontal at sun.y, and every end of both lines is on the orbit, the larger end first; R defaults to 25 |
| `SunGeometry.SunForm` | assets/Seasons.js:216-217 | the sun at eccentricity e lies on the scaled ellipse Form = e² |
| `SunGeometry.PlaceableWithinUnit` | assets/Seasons.js:231-234 | for −1 ≤ e ≤ 1 both chords through the sun meet the orbit, so the constructor never computes NaN |
| `SunGeometry.EquinoxChordMeets` | assets/Seasons.js:231 | the `ell_Y(sun.x)` discriminant is non-negative for −1 ≤ e ≤ 1 |
| `SunGeometry.SolsticeChordMeets` | assets/Seasons.js:233 | the `ell_X(sun.y)` discriminant is non-negative for −1 ≤ e ≤ 1 |
| `SunGeometry.Ls` | assets/Seasons.js:247-251 | `Ls(0)` is `(sun.x, yEq[1])`, the lower end of the equinox line, and `Ls(180)` is `(sun.x, yEq[0])`, the upper end |
| `SunGeometry.LsOnRay` | assets/Seasons.js:252-262 | away from 0 and 180 the result lies on Y = cX + d with c = cos/sin and d = sun.y − sun.x·c, and is the leftmost intersection when angle ≤ 180 (the `−√D` root) and the rightmost otherwise (`+√D`) |
| `SunGeometry.LsAligned` | assets/Seasons.js:245-263 | every value of `Ls` is on the line through the sun with direction (sin, cos) of the angle |
| `SunGeometry.LsOnOrbit` | assets/Seasons.js:245-263 | every value of `Ls` satisfies the ellipse equation |
| `SunGeometry.SunSeenAlong` | assets/Seasons.js:247-262 | for a sun strictly inside the orbit, `Ls` is defined at every angle in [0, 360) and the sun lies ahead of the returned point in direction (sin, cos) |
| `SunGeometry.CentredSun` | assets/Seasons.js:212-234 | with e = 0 and no rotation the sun is at the origin and the orbit is the one of axes a and b |
| `SunGeometry.CentredQuarterTurns` | assets/Seasons.js:249-259 | with no rotation and the sun at the centre, Ls(0) = (0, −b), Ls(90) = (−a, 0), Ls(180) = (0, b), Ls(270) = (a, 0) |
| `SunGeometry.CentredEquinoxes` | assets/Seasons.js:231 | with the sun at the centre the equinox line runs from b to −b |
| `SunGeometry.CentredSolstices` | assets/Seasons.js:252-262 | with the sun at the centre Ls(90) = (−a, 0) and Ls(270) = (a, 0) |
| `SunGeometry.CentredCircle` | assets/Seasons.js:245-263 | on a circle of radius R with no rotation and the sun at the centre, `Ls` is defined at every angle in [0, 360) and equals `(−R·sin, −R·cos)` of the angle, so the special cases at 0 and 180 and the general branch form one closed form |
| `SunMarks.AlongAligned` | assets/Seasons.js:271-272 | a step along (sin, cos) keeps a point on the line through the sun |
| `SunMarks.AlongDistance` | assets/Seasons.js:271-272 | a step of k along (sin, cos) covers distance \|k\| |
| `SunMarks.SunAlongLine` | assets/Seasons.js:271-272 | from a point on the sun's line, a step along (sin, cos) by the signed distance reaches the sun |
| `SunMarks.LabelRotation` | assets/Seasons.js:311 | the rotation is 90 − Ls exactly when Ls < 180 and −90 − Ls otherwise, and for Ls in [0, 360) it is in (−90, 90] up to a full turn |
| `SunMarks.TickAt` | assets/Seasons.js:265-281 | the tick moves to the point and draws a relative line of the given length (default 10) along (sin, cos); its label, present exactly when a text is given, sits 2.5 lengths away, size 10, unrotated |
| `SunMarks.Tick` | assets/Seasons.js:270-279 | the tick is drawn at `Ls(angle)`, and its end and its label stay on the line through the sun |
| `SunMarks.TickTowardSun` | assets/Seasons.js:271-273 | for a sun inside the orbit a tick points toward the sun exactly when its length is positive |
| `SunMarks.Corner` | assets/Seasons.js:293-296 | a band corner is on the sun's line at distance t from `Ls(angle)` |
| `SunMarks.Coverage` | assets/Seasons.js:283-314 | the outline is move to Ls(Ls1), arc (a, b, rot, flags 0 0) to Ls(Ls2), line to the corner of Ls2, arc (a − t, b − t, rot, flags 0 1) to the corner of Ls1, close; t defaults to 30 and the fill to "gray"; the label exists exactly when named, at the corner of Ls2 stepped 0.85·t along (sin, cos) of Ls2, so on the sun's line at distance 0.85·t from the corner, with the upright rotation |
| `SunMarks.CornerTowardSun` | assets/Seasons.js:293-296 | for a sun inside the orbit the sun is a positive distance k ahead of `Ls(angle)` along (sin, cos), and the corner is `Ls(angle)` stepped t along that same direction |
| `SunMarks.CentredCornersOnInnerArc` | assets/Seasons.js:293-302 | with the sun at the centre and no rotation, the corners at the quarter turns lie on the ellipse of axes (a − t, b − t) that the inner arc draws |
| `SunMarks.AxisEndInward` | assets/Seasons.js:297-298 | an end of an axis moved t toward the centre is on the (a − t) × (b − t) ellipse |
| `SunMarks.Norm` | assets/Seasons.js:319 | `sqrt(x² + y²)` is non-negative and squares to x² + y² |
| `SunMarks.LegendAt` | assets/Seasons.js:316-325 | the label keeps the text, takes size 10 and the upright rotation unless given, is on the sun's line, and is `leg.r·\|p\|` back from the sun: stepping that far along (sin, cos) from the label reaches the sun |
| `SunMarks.LegendLabel` | assets/Seasons.js:318-324 | the legend is placed for `Ls(leg.Ls)`, `leg.r·\|Ls(leg.Ls)\|` back from the sun along (sin, cos) of the angle |
| `SunMarks.LegendPlacement` | assets/Seasons.js:320-321 | a point k back from the sun along (sin, cos) is on the sun's line at distance k |
| `SunMarks.CentredLegendAtFraction` | assets/Seasons.js:318-321 | with the sun at the centre the label is at the fraction `leg.r` of the way from the sun to `Ls(leg.Ls)` |
| `PlanetShadow.NewPlanet` | assets/Seasons.js:332-358 | defaults R = 15, obliquity 0, "blue", "Planet"; the pole spans ±2R, the disc has radius R, the pole labels sit at (R, −2R) and (−R, 2.5R), size 12; the equator runs from (R, 0) along an arc of radii (R, 0.3R), flags 0 1, to (−R, 0) |
| `PlanetShadow.Titan` | assets/Seasons.js:407-416 | the preset is the planet of radius 15, obliquity 26.73, colour "gold" and kind "Titan" |
| `PlanetShadow.DShadow` | assets/Seasons.js:395-401 | the path moves to (0, R), takes a half circle of radius R to (0, −R), flags `1 1` exactly when Ls ≤ 180, and returns along an arc of radii (R·\|cos Ls\|, R), flags `0 1` when cos·sin < 0, else `0 0` when Ls < 90, else `1 0` |
| `PlanetShadow.TerminatorWidth` | assets/Seasons.js:397 | 0 ≤ h ≤ R, with h = 0 exactly when cos Ls = 0 and h = R exactly when \|cos Ls\| = 1 |
| `PlanetShadow.ShadowQuadrants` | assets/Seasons.js:398-399 | over one turn the terminator flags are `0 0` exactly on [0, 90), `0 1` exactly on (90, 180) and (270, 360), `1 0` exactly at 90 and on [180, 270] |
| `PlanetShadow.ShadowAtQuarterTurns` | assets/Seasons.js:397-400 | at 0 and 180 the terminator is the full disc, at 90 and 270 the vertical diameter |
| `Samples.AbsAll` | Titan_orbit.py:72 | `np.abs` has the same length and takes the absolute value elementwise |
| `Samples.Below` | Titan_orbit.py:78 | the mask `s < t` holds exactly where the element is below t |
| `Samples.Above` | Titan_orbit.py:109 | the mask `s > t` holds exactly where the element is above t |
| `Samples.Selected` | Titan_orbit.py:79 | the selected positions are in range, selected, and strictly increasing |
| `Samples.SelectedComplete` | Titan_orbit.py:79 | every position where the mask holds is selected |
| `Samples.SelectedNonEmpty` | Titan_orbit.py:90 | some position is selected exactly when the mask holds somewhere, so `lat[cond][0]` exists exactly then |
| `Samples.FirstSelected` | Titan_orbit.py:90 | the first selected position is the earliest where the mask holds |
| `Samples.Masked` | Titan_orbit.py:79 | `s[mask]` has one element per selected position, in order |
| `Samples.MaskedElement` | Titan_orbit.py:79 | every element of `s[mask]` is an element of s at a selected position |
| `Samples.MaxOf` | Titan_orbit.py:72 | `np.max` is an element and no element exceeds it |
| `Samples.MinOf` | Titan_orbit.py:134 | `np.min` is an element and no element is below it |
| `Samples.FirstIndex` | Titan_orbit.py:97 | the first position of a date, absent exactly when the date does not occur |
| `Samples.Evens` | Titan_orbit.py:91 | `s[::2]` has ⌈n/2⌉ elements, the ones at even positions |
| `Samples.Odds` | Titan_orbit.py:92 | `s[1::2]` has ⌊n/2⌋ elements, the ones at odd positions |
| `Samples.SplitCovers` | Titan_orbit.py:90-95 | the two halves together hold exactly the elements of s, as a multiset, and differ in length by at most one |
| `Samples.SplitElements` | Titan_orbit.py:90-95 | an element of either half is an element of s |
| `Samples.Quarter` | Titan_orbit.py:114 | `orbit / 4` truncated toward zero: 4q ≤ n < 4q + 4 for n ≥ 0, and 4q − 4 < n ≤ 4q ≤ 0 otherwise |
| `EventScan.Step` | Titan_orbit.py:80-85 | a strictly better sample becomes the candidate; otherwise the candidate stays, and the events grow exactly when the sample is more than the gap after the candidate, by that candidate, with the best value reset; a sample neither better nor past the gap leaves the whole state unchanged |
| `EventScan.DetectEvents` | Titan_orbit.py:77-87 | the loop and the final append return exactly `Events`: the fold of `Step` over the samples, then the pending candidate unless it is the last date |
| `EventScan.RepeatedLastEvent` | Titan_orbit.py:83-87 | with samples at days 0 and 30 and the last date 100, the events are [0, 0]: the final append repeats a committed event |
| `EventScan.FoldSources` | Titan_orbit.py:79-85 | the loop only appends, and each added event and the final candidate is the starting date or a sample date |
| `EventScan.FoldFromFirstSample` | Titan_orbit.py:79-82 | when the first sample beats the starting value, each added event and the final candidate is a sample date |
| `EventScan.FoldCommitsAfterGap` | Titan_orbit.py:83-85 | every committed event was followed by a sample more than the gap later |
| `EventScan.EventsFromSamples` | Titan_orbit.py:77-87 | the reported events come from the samples (all of them when the first sample beats the start), and all but the last were followed by a sample more than the gap later |
| `EventScan.FilteredEvents` | Titan_orbit.py:78-87 | over `values[mask]`, `dates[mask]`: every event is the start or a selected date, only selected dates once the first selected sample beats the start, and all but the last were followed by a selected sample more than the gap later |
| `EventScan.ThresholdEvents` | Titan_orbit.py:135-145 | when the scan starts and resets at its mask's threshold and some sample passes the mask, every event is the date of a sample beating the threshold, and each but the last is followed by such a sample more than the gap later |
| `TitanOrbit.Defaults` | Titan_orbit.py:8-31 | the default range 1980-01-02 to 2032-12-31; in each of the two years the seasons come in the order vernal equinox, summer solstice, autumnal equinox, winter solstice; the orbit (10751 days) is the span between the two vernal equinoxes |
| `TitanOrbit.WithSamples` | Titan_orbit.py:65-67 | `read` replaces the dates, latitudes and distances and changes nothing else |
| `TitanOrbit.DistanceOn` | Titan_orbit.py:97 | `dist[date == d][0]` is absent exactly when d is not a sample date, and is otherwise the distance of the first sample dated d |
| `TitanOrbit.Obliquity` | Titan_orbit.py:70-73 | raises AttributeError before `read` and ValueError on no samples; otherwise only `obl` changes, to the largest \|lat\| |
| `TitanOrbit.EquatorMask` | Titan_orbit.py:78 | the mask holds exactly at the samples with \|lat\| < .05 |
| `TitanOrbit.LookUpEquinoxes` | Titan_orbit.py:97-103 | IndexError exactly when there is no vernal or autumnal equinox or its date is not a sample date; when the r_v look-up raises nothing changes, and when the r_a look-up raises r_v is already stored and r_a kept; otherwise r_v and r_a are the distances at the first samples so dated; ValueError exactly when there is one vernal equinox; otherwise orbit = eq_v[1] − eq_v[0] |
| `TitanOrbit.Equinox` | Titan_orbit.py:75-104 | IndexError on no samples or none near the equator, AttributeError before `read`; only eq_v, eq_a, r_v, r_a and orbit change; on success orbit = eq_v[1] − eq_v[0], on ValueError one vernal equinox and the orbit kept |
| `TitanOrbit.EquinoxScan` | Titan_orbit.py:77-85 | every entry of `eqs` is the date of a sample with \|lat\| < .05, and each but the last was followed by such a sample more than 20 days later |
| `TitanOrbit.EquinoxSplit` | Titan_orbit.py:90-95 | when the first sample near the equator is south of it, eq_v = eqs[::2] and eq_a = eqs[1::2], the other way round otherwise; together they hold exactly the entries of eqs and their lengths differ by at most one |
| `TitanOrbit.SouthFirstSample` | Titan_orbit.py:90 | `lat[cond][0] < 0` exactly when the earliest sample near the equator is south of it |
| `TitanOrbit.EquinoxLookUps` | Titan_orbit.py:97-98 | once a sample is near the equator, IndexError is raised exactly when there is no vernal or no autumnal equinox: the dates looked up are always sample dates |
| `TitanOrbit.EquinoxDates` | Titan_orbit.py:75-104 | after a successful step every vernal and autumnal equinox is the date of a sample with \|lat\| < .05 |
| `TitanOrbit.TropicMask` | Titan_orbit.py:109 | the mask holds exactly at the samples with \|lat\| > .999·obl |
| `TitanOrbit.LookUpSolstices` | Titan_orbit.py:128-129 | IndexError exactly when either list is empty or its first date is not a sample date; when the r_s look-up raises nothing changes, and when the r_w look-up raises r_s is already stored and r_w kept; otherwise r_s and r_w are the distances at the first samples so dated; nothing else changes |
| `TitanOrbit.Solstice` | Titan_orbit.py:106-130 | IndexError on no samples or no vernal equinox, AttributeError before `read`, never ValueError; only sol_s, sol_w, r_s and r_w change; on success both lists are non-empty and r_s, r_w are their distances |
| `TitanOrbit.SolsticeScan` | Titan_orbit.py:108-118 | for obl ≥ 0 and some sample beyond .999·obl: every entry of `sols` is such a sample's date, and each but the last was followed by one more than orbit/4 later |
| `TitanOrbit.SolsticeSplit` | Titan_orbit.py:120-126 | the step finishes exactly when there is a vernal equinox, at least two solstices, and an autumnal equinox whenever eq_v[0] < sols[0]; summer takes sols[::2] when eq_v[0] < sols[0] < eq_a[0] and sols[1::2] otherwise, and the two lists together hold exactly sols |
| `TitanOrbit.SolsticesInRecord` | Titan_orbit.py:108-118 | every date the solstice scan reports is a sample date |
| `TitanOrbit.SolsticeDates` | Titan_orbit.py:106-130 | after a successful step every summer and winter solstice is the date of a sample with \|lat\| > .999·obl |
| `TitanOrbit.NearMask` | Titan_orbit.py:136 | the mask holds exactly where dist < 1.01·r_aph |
| `TitanOrbit.FarMask` | Titan_orbit.py:152 | the mask holds exactly where dist > .99·r_per |
| `TitanOrbit.Aphelion` | Titan_orbit.py:132-146 | AttributeError before `read`, ValueError on no samples; otherwise only r_aph and aphs change, r_aph is the least distance and aphs is the scan below 1.01·r_aph |
| `TitanOrbit.Perihelion` | Titan_orbit.py:148-162 | AttributeError before `read`, ValueError on no samples; otherwise only r_per and pers change, r_per is the greatest distance and pers is the scan above .99·r_per |
| `TitanOrbit.AphelionDates` | Titan_orbit.py:134-145 | for positive distances, every aphelion date has dist < 1.01·r_aph, and each but the last is followed by such a sample more than orbit/4 later |
| `TitanOrbit.PerihelionDates` | Titan_orbit.py:150-161 | for positive distances, every perihelion date has dist > .99·r_per, and each but the last is followed by such a sample more than orbit/4 later |
| `TitanOrbit.ReloadRecord` | Titan_orbit.py:184-191 | `reload` up to `fitLs` runs read and the five steps in order, stops at the first that raises, never raises AttributeError, and keeps the samples read |
| `TitanOrbit.ReloadObliquity` | Titan_orbit.py:186-187 | after a complete reload there are samples and obl is the largest \|lat\| |
| `TitanOrbit.ReloadEquinoxes` | Titan_orbit.py:186-188 | after a complete reload orbit = eq_v[1] − eq_v[0] and every equinox is a sample date with \|lat\| < .05 |
| `TitanOrbit.ReloadSolstices` | Titan_orbit.py:186-189 | after a complete reload with obl > 0 every solstice is a sample date with \|lat\| > .999·obl |
| `TitanOrbit.ReloadAphelia` | Titan_orbit.py:186-190 | after a complete reload with positive distances r_aph is the least distance and every aphelion date has dist < 1.01·r_aph |
| `TitanOrbit.ReloadPerihelia` | Titan_orbit.py:186-191 | after a complete reload with positive distances r_per is the greatest distance and every perihelion date has dist > .99·r_per |
| `TitanOrbit.Titan.constructor` | Titan_orbit.py:8-31 | `__init__` sets the default fields |
| `TitanOrbit.Titan.Load` | Titan_orbit.py:65-67 | `read` stores the three columns and changes nothing else |
| `TitanOrbit.Titan.SetObliquity` | Titan_orbit.py:70-73 | updates the object in place exactly as `Obliquity` says |
| `TitanOrbit.Titan.SetEquinox` | Titan_orbit.py:75-104 | updates the object in place exactly as `Equinox` says, including the fields assigned before an exception |
| `TitanOrbit.Titan.ScanEquinoxes` | Titan_orbit.py:77-87 | the loop over the samples near the equator returns exactly `EquinoxEvents` |
| `TitanOrbit.Titan.LookUpEquinoxDistances` | Titan_orbit.py:97-103 | updates the object in place exactly as `LookUpEquinoxes` says |
| `TitanOrbit.Titan.SetSolstice` | Titan_orbit.py:106-130 | updates the object in place exactly as `Solstice` says |
| `TitanOrbit.Titan.ScanSolstices` | Titan_orbit.py:108-118 | the loop over the samples near a tropic returns exactly `SolsticeEvents` |
| `TitanOrbit.Titan.LookUpSolsticeDistances` | Titan_orbit.py:128-129 | updates the object in place exactly as `LookUpSolstices` says |
| `TitanOrbit.Titan.SetAphelion` | Titan_orbit.py:132-146 | updates the object in place exactly as `Aphelion` says |
| `TitanOrbit.Titan.ScanAphelia` | Titan_orbit.py:135-145 | the loop over the samples below 1.01·m returns exactly `AphelionEvents` |
| `TitanOrbit.Titan.SetPerihelion` | Titan_orbit.py:148-162 | updates the object in place exactly as `Perihelion` says |
| `TitanOrbit.Titan.ScanPerihelia` | Titan_orbit.py:151-161 | the loop over the samples above .99·m returns exactly `PerihelionEvents` |
| `TitanOrbit.Titan.Reload` | Titan_orbit.py:184-191 | updates the object in place exactly as `ReloadRecord` says |

## Left out

- The SVG and D3 plumbing of `assets/Seasons.js` is not modelled: the `SVG` class, the `draw` and `update` methods, `dSun`, the style and attribute dictionaries (among them the sun's colour and the orbit's drawn ellipse and major axis), and `extend`. These only create and style DOM elements. The fixed parts of each mark (colours, sizes, path shape) are kept as values.
- Path strings are modelled as lists of segments, and label anchors and rotations as numbers. The decimal rendering of numbers is left out.
- Floating point is not modelled: all arithmetic is on the reals. `tick(360)` in the year loops works only because a float `sin(2π)` is not exactly 0. Over the reals it divides by zero, so the general branch of `Ls` requires `sin(angle) ≠ 0`.
- `PlanetShadow.DShadow`, `PlanetShadow.ShadowQuadrants`, `PlanetShadow.ShadowAtQuarterTurns`: at exactly Ls = 180 the program computes a float `sin(π)` of about 1.2e-16, so `cos·sin` is slightly negative and `dShadow` takes the shadow flags `0 1`. The model's sine is exactly 0 there, so it gives `1 0`, which with the side flags `1 1` draws a zero-area path instead of the full disc the program draws.
- NaN from a negative discriminant is not modelled; a non-negative discriminant is a precondition instead (`LsDefined`, `Placeable`).
- `Maths.Sound`: the facts about sine, cosine and square root are assumptions about the math library, not proved.
- `read` is not modelled (`np.loadtxt`, `arcsin`, the division by the astronomical unit). It is replaced by `Titan.Load`, which receives the three columns. The model therefore also assumes the columns have equal lengths.
- `fitLs`, `dump`, `__repr__` and the script part of `Titan_orbit.py` are not modelled. They use curve fitting, plotting and printing. `Reload` stops where `fitLs` would start.
- `TITAN.Ls` and `TITAN.Date` are not modelled. `Ls` solves a transcendental equation by Newton iteration, whose convergence depends on floating point. `Date` uses a sine and rounding.
- `Tday`, `A`, `B` and `C` are not model fields: no modelled step reads or writes them (`fitLs` sets `A`, `B`, `C`).
- Dates are day counts. Calendar conversion and the `Y` and `M` units of `timedelta64` used by `dump` are left out.
- `TitanOrbit.Aphelion`, `TitanOrbit.Perihelion`: setAphelion and setPerihelion read `date[0]` once `dist` is non-empty. Because `read` loads columns of equal length, the `IndexError` that empty dates would raise there is unreachable and is not modelled.
- `TitanOrbit.SolsticeScan`, `TitanOrbit.SolsticeDates`: state where the solstices come from only for `obl ≥ 0`. `setObliquity` always gives that, but an `obl` set directly could be negative.
- `TitanOrbit.AphelionDates`, `TitanOrbit.PerihelionDates`: assume positive distances, as distances to the sun are; with distances ≤ 0 the least or greatest sample might not pass its own mask.
