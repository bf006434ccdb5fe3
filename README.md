# what-hills: angle and selection rules

what-hills is an augmented-reality hill finder. A phone points its camera at
the landscape. The hills service returns the hills within a radius of the
phone, each with its distance and compass bearing. The app keeps the nearest
hill for each whole degree of bearing and turns each marker by the hill's
bearing relative to the phone's heading.

This project models the rules that decide what is shown, on exact reals:

- `Angles` (`angles.dfy`): JavaScript's `Math.round` and `%`, Python's `%`,
  and congruence modulo 360.
- `Magnetometer` (`magnetometer.dfy`): the heading derived from a raw
  magnetometer sample (`_angle`) and the quarter-turn shift `_degree`. The
  component's only use of these values is at Magnetometer.jsx:63, which sits
  inside a JSX comment (lines 59-80), so nothing on screen shows them. The
  heading the screen uses is `heading.magHeading` from `watchHeadingAsync`,
  which `App` takes as an input.
- `HillsApi` (`hills_api.dfy`): the `/nearest` endpoint. It keeps the rows
  within `furthest`, attaches their bearing, normalises that bearing with
  `(b + 360) % 360`, and stably sorts the list by distance. The distance
  (`haversine`) and the trigonometric part of `calculate_bearing` are given
  as function parameters (`Geodesy`).
- `App` (`app.dfy`): the screen's computations.
  - The heading text and compass rotation.
  - The `closestHills` reduce, written as a loop over the list that updates
    a map. It is proved against the predicate `NearestPerBearing`: one hill
    per rounded bearing, the nearest, and the first one on ties.
  - The relative bearing of each kept hill.
- `Optional` (`option.dfy`): the option type that stands for JavaScript's
  `null`.

`Math.atan2` is a function parameter of `Magnetometer.Angle`. The only thing
assumed about it is its range [-Pi, Pi] at the sample. `Pi` is the decimal
value of `Math.PI`.

Facts about the code that the model makes explicit:

- On ties of distance within a bucket the first hill is kept, because
  replacement needs a strictly smaller distance (`App.TieKeepsFirst`).
- `Math.round` sends halves up: bearings 10.4 and 10.6 fall into buckets 10
  and 11, and a bearing of 359.5 falls into bucket 360, separate from bucket
  0 (`App.SeamBucketsStayApart`).
- `_angle` returns a whole degree in [0, 360]; it returns 360 for angles
  within half a degree below a full turn (`Magnetometer.AngleCanBe360`).
- The relative bearing is not rounded: with heading 90 and hills at 95 and
  95.4, the marker of the kept hill stands at 5.4 (`App.SessionExample`).

## Model

| member | source | states |
|---|---|---|
| `Angles.Round` | frontend/app/index.jsx:88 | `Math.round(x)` is the integer r with r - 0.5 <= x < r + 0.5: the nearest integer, halves going up |
| `Angles.TruncMod360` | frontend/app/index.jsx:129-130 | JavaScript's `x % 360` is congruent to x modulo 360, lies in [0, 360) for non-negative x and in (-360, 0] for negative x |
| `Angles.FloorMod360` | hills-api/main.py:43 | Python's `x % 360` is congruent to x modulo 360 and always lies in [0, 360) |
| `Angles.FloorMod360Characterised` | hills-api/main.py:43 | Python's `x % 360` is the only value in [0, 360) congruent to x |
| `Angles.TruncModIsFloorModWhenNonNegative` | frontend/app/index.jsx:129-130 | for non-negative dividends the JavaScript and Python remainders agree |
| `Magnetometer.DegreesFromArctangent` | frontend/components/Magnetometer.jsx:39-43 | for an arctangent t in [-Pi, Pi] the angle before rounding is in [0, 360); converted back to radians it is t when t >= 0 and t + 2 Pi when t < 0 |
| `Magnetometer.Angle` | frontend/components/Magnetometer.jsx:35-46 | `_angle` is 0 without a sample; otherwise it is the corrected angle rounded to within half a degree; it is always a whole degree in [0, 360] |
| `Magnetometer.AngleCanBe360` | frontend/components/Magnetometer.jsx:45 | an arctangent of -Pi/1000 makes `_angle` return 360, not 0 |
| `Magnetometer.Degree` | frontend/components/Magnetometer.jsx:48-50 | `_degree` sends [90, 360] into [0, 270] and [0, 89] into [271, 360] |
| `Magnetometer.DegreeBijective` | frontend/components/Magnetometer.jsx:49 | on 0..360 `_degree` has an inverse on both sides, so no two angles collide and every value in 0..360 is reached |
| `Magnetometer.DegreeSamples` | frontend/components/Magnetometer.jsx:49 | 90 maps to 0, 89 to 360 and 0 to 271 |
| `HillsApi.CompassBearing` | hills-api/main.py:43-44 | `(b + 360) % 360` lies in [0, 360) and is congruent to b |
| `HillsApi.CompassBearingIsFloorMod` | hills-api/main.py:43 | adding 360 before Python's `%` changes nothing: the result equals `b % 360` |
| `HillsApi.CompassBearingOfSignedAngle` | hills-api/main.py:39-44 | an initial bearing in [0, 360) is returned unchanged; one in [-360, 0) is increased by 360 |
| `HillsApi.CalculateBearing` | hills-api/main.py:32-44 | `calculate_bearing` returns a compass bearing in [0, 360) congruent to the initial bearing |
| `HillsApi.Selected` | hills-api/main.py:50-59 | the appended hills are all within `furthest` and have bearings in [0, 360); every row within range contributes its hill; every hill comes from a row within range |
| `HillsApi.SelectedCounts` | hills-api/main.py:50-59 | each hill occurs in the appended list exactly as many times as there are rows within range that produce it, so every in-range row contributes exactly once |
| `HillsApi.SelectedHillFromRow` | hills-api/main.py:50-59 | every appended hill is within range with a bearing in [0, 360) and carries the name, height, distance and bearing of some row within range |
| `HillsApi.SameHillsAsSelected` | hills-api/main.py:50-61 | any reordering of the appended list holds only in-range hills built from in-range rows, and holds the hill of every in-range row |
| `HillsApi.SelectedAppend` | hills-api/main.py:57-59 | one more row appends its hill exactly when its distance is at most `furthest` |
| `HillsApi.InsertKeepsSorted` | hills-api/main.py:61 | inserting a hill into a list sorted by distance keeps it sorted |
| `HillsApi.InsertAddsOne` | hills-api/main.py:61 | inserting adds exactly the hill inserted |
| `HillsApi.InsertFrontOfEqual` | hills-api/main.py:61 | an inserted hill goes in front of the hills at its own distance and leaves the order of the others unchanged |
| `HillsApi.SortByDistance` | hills-api/main.py:61 | the sorted list is non-decreasing in distance, is a permutation of its input, and keeps the hills at each distance in their input order |
| `HillsApi.SortedStableUnique` | hills-api/main.py:61 | two lists that are sorted by distance and have the same hills in the same order at each distance are equal, so those properties determine the stable sort |
| `HillsApi.Nearest` | hills-api/main.py:46-63 | `nearest` returns the hills within `furthest` in non-decreasing order of distance. Equal distances keep data-set order. The result is a permutation of the in-range hills. Each result is within range with a bearing in [0, 360). Every in-range row's hill is in the result, and every result carries the name, height, distance and bearing of an in-range row |
| `App.ToFixed0` | frontend/app/index.jsx:82 | `toFixed(0)` gives the nearest integer to x, resolving a .5 tie away from zero, with the sign of x |
| `App.HeadingDisplay` | frontend/app/index.jsx:76-84 | a set error message is shown with rotation 0 whatever the heading. Without an error or heading, "Waiting for heading.." is shown with rotation 0. Otherwise rotation + magHeading = -90 and the label is `toFixed(0)` of the heading. A non-zero rotation means no error and a heading present |
| `App.HeadingDisplayInRange` | frontend/app/index.jsx:82-83 | for a heading in [0, 360) the label is in 0..360 and the rotation in (-450, -90] |
| `App.ClosestHills` | frontend/app/index.jsx:87-96 | the reduce yields one entry per rounded bearing of the input. Each entry is an input hill with that rounded bearing and the minimum distance among them, and the first such hill on ties |
| `App.BucketStepKeepsNearest` | frontend/app/index.jsx:89-94 | inserting when the key is absent or the stored hill is strictly farther keeps the nearest-per-bearing property for the longer list |
| `App.NearestPerBearingUnique` | frontend/app/index.jsx:87-96 | the nearest-per-bearing property determines the map: two maps that have it are equal |
| `App.KeptHillsComeFromInput` | frontend/app/index.jsx:87-96 | every stored hill is one of the input hills, is stored under its own rounded bearing, and is no farther than any input hill with that rounded bearing |
| `App.NoHillsNoBuckets` | frontend/app/index.jsx:87-96 | an empty hills list gives an empty map |
| `App.TieKeepsFirst` | frontend/app/index.jsx:89-93 | of two hills with the same rounded bearing and the same distance, the first is kept |
| `App.SeamBucketsStayApart` | frontend/app/index.jsx:88 | bearings 359.5 and 0.2 land in two different buckets, 360 and 0 |
| `App.RelativeBearing` | frontend/app/index.jsx:129-130 | the relative bearing is congruent to bearing - heading, and lies in [0, 360) when both angles do |
| `App.RelativeBearingIsDirection` | frontend/app/index.jsx:129-130 | for angles in [0, 360) the relative bearing equals the non-negative remainder of bearing - heading |
| `App.RelativeBearingSamples` | frontend/app/index.jsx:129-130 | a hill straight ahead is at 0; heading 359 and bearing 1 give 2 |
| `App.TurningMovesEveryHill` | frontend/app/index.jsx:129-130 | turning the device by delta moves every relative bearing by -delta modulo 360, across the seam too |
| `App.Project` | frontend/app/index.jsx:127-130 | the markers are keyed like the kept hills. Each marker's angle is congruent to the hill's bearing minus the magnetic heading, and lies in [0, 360) when both angles do |
| `App.SessionExample` | frontend/app/index.jsx:87-130 | with heading 90 and hills at (95, 100) and (95.4, 50), bucket 95 keeps the closer hill and its marker stands at 5.4 |

## Left out

- frontend/components/Accelerometer.jsx: it only forwards raw sensor vectors and has no logic.
- The sensor subscriptions, update intervals and the `Vector3` construction in Magnetometer.jsx: these are sensor plumbing and a foreign library.
- The permission flow, the heading and position subscriptions, and `fetchNearbyHills` in index.jsx. These are asynchronous I/O and framework state. The error message they set and the hills list they store are inputs of the model.
- Movement-gated refresh: the app passes `distanceInterval: 1` to the location service, so the source has no refresh logic of its own to model.
- Rendering and styles, including the cosine/sine marker placement. Markers are given by their relative bearing only.
- The order of the markers: `Project` returns a map from bucket to angle, not the array that `Object.values` would produce in key order.
- `Math.atan2`, `haversine` and the trigonometry of `calculate_bearing`: these are floating-point trigonometry, given as function parameters. Only the range of `atan2` is assumed.
- Loading the spreadsheet (including dropping rows with missing values), request parsing, response encoding and server start-up: these are pandas, FastAPI and uvicorn.
- IEEE-754 rounding: all arithmetic is exact. For example, Python's float `%` can return 360.0 for a tiny negative dividend, and the model cannot show this.
- JavaScript object keys are strings. The model uses integer keys, which makes no difference for finite bearings. NaN and infinite bearings and distances are not modelled.
- `ToFixed0`: `toFixed(0)` prints "-0" for values in (-0.5, 0); the integer result is 0 there and cannot show the sign. It also models only the digits of `toFixed(0)`. It does not model the exponent notation used for magnitudes of 1e21 and above, or the string concatenation with the degree sign.
- `Project`: requires a heading sample whenever a hill is kept. The source reads `heading.magHeading` there and would throw a TypeError when no heading sample has arrived yet. The model does not cover that crash.
