/**
 * The computations of the app screen (frontend/app/index.jsx): the text and
 * rotation of the compass, the reduction of the hills list to the nearest
 * hill per whole degree of bearing, and the bearing of each kept hill
 * relative to the device's heading.
 *
 * The hills list and the heading sample are the screen's state; how they
 * arrive (permissions, subscriptions, the request to the hills service) and
 * how the result is drawn are not modelled.
 */
module App {
  import opened Angles
  import opened Optional
  import opened HillsApi

  /** A heading sample from the location service; the screen reads only the magnetic heading. */
  datatype HeadingSample = HeadingSample(magHeading: real)

  // ---------------------------------------------------------------------------
  // Heading text and compass rotation
  // ---------------------------------------------------------------------------

  /** The text shown above the compass: a message, or the heading as whole degrees followed by a degree sign. */
  datatype HeadingLabel = Message(text: string) | Degrees(whole: int)

  /** What the compass shows: the label and the rotation of the compass image, in degrees. */
  datatype Display = Display(headingValue: HeadingLabel, rotationAngle: real)

  const WaitingText: string := "Waiting for heading.."

  /** An error message is set (JavaScript treats `null` and the empty string as false). */
  predicate HasError(errorMsg: Option<string>)
  {
    errorMsg.Some? && errorMsg.value != ""
  }

  /**
   * The digits of `x.toFixed(0)`: the nearest integer, with ties away from
   * zero (the sign is set aside before rounding).
   */
  function ToFixed0(x: real): (r: int)
    ensures 0.0 <= x ==> r as real - 0.5 <= x < r as real + 0.5
    ensures x < 0.0 ==> r as real - 0.5 < x <= r as real + 0.5
    ensures 0.0 <= x ==> 0 <= r
    ensures x < 0.0 ==> r <= 0
  {
    if x >= 0.0 then Round(x) else -Round(-x)
  }

  /**
   * The heading text and the compass rotation: an error message wins over
   * everything; without a heading sample the screen waits with the compass
   * unrotated; otherwise the compass turns against the heading, a quarter
   * turn further.
   */
  function HeadingDisplay(errorMsg: Option<string>, heading: Option<HeadingSample>): (r: Display)
    ensures HasError(errorMsg) ==> r == Display(Message(errorMsg.value), 0.0)
    ensures !HasError(errorMsg) && heading.None? ==> r == Display(Message(WaitingText), 0.0)
    ensures !HasError(errorMsg) && heading.Some? ==>
      && r.rotationAngle + heading.value.magHeading == -90.0
      && r.headingValue == Degrees(ToFixed0(heading.value.magHeading))
    ensures r.rotationAngle != 0.0 ==> !HasError(errorMsg) && heading.Some?
  {
    if HasError(errorMsg) then
      Display(Message(errorMsg.value), 0.0)
    else if heading.Some? then
      Display(Degrees(ToFixed0(heading.value.magHeading)), -heading.value.magHeading - 90.0)
    else
      Display(Message(WaitingText), 0.0)
  }

  /** For a heading in [0, 360) the label is a whole degree in [0, 360] and the rotation lies in (-450, -90]. */
  lemma HeadingDisplayInRange(heading: HeadingSample)
    requires 0.0 <= heading.magHeading < 360.0
    ensures var r := HeadingDisplay(None, Some(heading));
      && 0 <= r.headingValue.whole <= 360
      && -450.0 < r.rotationAngle <= -90.0
  {
  }

  // ---------------------------------------------------------------------------
  // Nearest hill per whole degree of bearing
  // ---------------------------------------------------------------------------

  /** The bucket of a hill: its bearing rounded with `Math.round`. */
  function BearingKey(hill: Hill): int
  {
    Round(hill.bearing)
  }

  /**
   * `hills[i]` is the hill kept for key `k`: its bearing rounds to `k`, no
   * hill of that key is closer, and every earlier hill of that key is
   * strictly farther (ties go to the first).
   */
  ghost predicate KeptFor(hills: seq<Hill>, k: int, i: int)
  {
    && 0 <= i < |hills|
    && BearingKey(hills[i]) == k
    && (forall j :: 0 <= j < |hills| && BearingKey(hills[j]) == k ==> hills[i].distance <= hills[j].distance)
    && (forall j :: 0 <= j < i && BearingKey(hills[j]) == k ==> hills[i].distance < hills[j].distance)
  }

  /** The rounded bearings of the hills. */
  ghost function Buckets(hills: seq<Hill>): set<int>
  {
    set i | 0 <= i < |hills| :: BearingKey(hills[i])
  }

  /**
   * `closest` holds exactly one hill for each rounded bearing of `hills`:
   * the first of the nearest hills with that rounded bearing.
   */
  ghost predicate NearestPerBearing(hills: seq<Hill>, closest: map<int, Hill>)
  {
    && closest.Keys == Buckets(hills)
    && forall k :: k in closest ==> exists i :: KeptFor(hills, k, i) && closest[k] == hills[i]
  }

  /** At most one index is kept for a key. */
  lemma KeptForUnique(hills: seq<Hill>, k: int, i: int, i': int)
    requires KeptFor(hills, k, i) && KeptFor(hills, k, i')
    ensures i == i'
  {
  }

  /** `NearestPerBearing` determines the map: two maps that satisfy it are equal. */
  lemma NearestPerBearingUnique(hills: seq<Hill>, m1: map<int, Hill>, m2: map<int, Hill>)
    requires NearestPerBearing(hills, m1) && NearestPerBearing(hills, m2)
    ensures m1 == m2
  {
    forall k | k in m1 ensures m1[k] == m2[k] {
      var i1 :| KeptFor(hills, k, i1) && m1[k] == hills[i1];
      var i2 :| KeptFor(hills, k, i2) && m2[k] == hills[i2];
      KeptForUnique(hills, k, i1, i2);
    }
  }

  /** Every kept hill is one of the input hills, in the bucket of its own rounded bearing. */
  lemma KeptHillsComeFromInput(hills: seq<Hill>, closest: map<int, Hill>, k: int)
    requires NearestPerBearing(hills, closest)
    requires k in closest
    ensures closest[k] in hills
    ensures BearingKey(closest[k]) == k
    ensures forall h :: h in hills && BearingKey(h) == k ==> closest[k].distance <= h.distance
  {
    var i :| KeptFor(hills, k, i) && closest[k] == hills[i];
    forall h | h in hills && BearingKey(h) == k ensures closest[k].distance <= h.distance {
      var j :| 0 <= j < |hills| && hills[j] == h;
    }
  }

  /** One step of the reduce: the hill of `k` is replaced only by a strictly closer one. */
  function BucketStep(closest: map<int, Hill>, hill: Hill): map<int, Hill>
  {
    var k := BearingKey(hill);
    if k !in closest || closest[k].distance > hill.distance then closest[k := hill] else closest
  }

  /** The buckets of a list extended by one hill. */
  lemma BucketsAppend(hills: seq<Hill>, hill: Hill)
    ensures Buckets(hills + [hill]) == Buckets(hills) + {BearingKey(hill)}
  {
    var s := hills + [hill];
    forall x | x in Buckets(s) ensures x in Buckets(hills) + {BearingKey(hill)} {
      var i :| 0 <= i < |s| && BearingKey(s[i]) == x;
      if i < |hills| {
        assert s[i] == hills[i];
      }
    }
    forall x | x in Buckets(hills) ensures x in Buckets(s) {
      var i :| 0 <= i < |hills| && BearingKey(hills[i]) == x;
      assert s[i] == hills[i];
    }
    assert s[|hills|] == hill;
  }

  /** A kept hill stays kept when a hill of another key, or a hill no closer, is appended. */
  lemma KeptForAppendOther(hills: seq<Hill>, hill: Hill, k: int, i: int)
    requires KeptFor(hills, k, i)
    requires BearingKey(hill) != k || hills[i].distance <= hill.distance
    ensures KeptFor(hills + [hill], k, i)
  {
    var s := hills + [hill];
    assert forall j :: 0 <= j < |hills| ==> s[j] == hills[j];
    assert s[|hills|] == hill;
  }

  /** An appended hill strictly closer than every earlier hill of its key is the one kept. */
  lemma KeptForAppendNew(hills: seq<Hill>, hill: Hill)
    requires forall j :: 0 <= j < |hills| && BearingKey(hills[j]) == BearingKey(hill) ==> hill.distance < hills[j].distance
    ensures KeptFor(hills + [hill], BearingKey(hill), |hills|)
  {
    var s := hills + [hill];
    assert forall j :: 0 <= j < |hills| ==> s[j] == hills[j];
    assert s[|hills|] == hill;
  }

  /** One step of the reduce keeps `NearestPerBearing` for the list extended by one hill. */
  lemma {:induction false} BucketStepKeepsNearest(hills: seq<Hill>, closest: map<int, Hill>, hill: Hill)
    requires NearestPerBearing(hills, closest)
    ensures NearestPerBearing(hills + [hill], BucketStep(closest, hill))
  {
    var s := hills + [hill];
    var k := BearingKey(hill);
    var m := BucketStep(closest, hill);
    BucketsAppend(hills, hill);
    forall x | x in m ensures exists i :: KeptFor(s, x, i) && m[x] == s[i] {
      if x != k {
        var i :| KeptFor(hills, x, i) && closest[x] == hills[i];
        KeptForAppendOther(hills, hill, x, i);
        assert s[i] == hills[i];
      } else if k !in closest {
        assert forall j :: 0 <= j < |hills| ==> BearingKey(hills[j]) in Buckets(hills);
        KeptForAppendNew(hills, hill);
        assert s[|hills|] == hill;
      } else {
        var i :| KeptFor(hills, k, i) && closest[k] == hills[i];
        if closest[k].distance > hill.distance {
          KeptForAppendNew(hills, hill);
          assert s[|hills|] == hill;
        } else {
          KeptForAppendOther(hills, hill, k, i);
          assert s[i] == hills[i];
        }
      }
    }
  }

  /** The reduce after `n + 1` hills is one step past the reduce after `n`. */
  lemma BucketPrefixStep(hills: seq<Hill>, n: nat, closest: map<int, Hill>)
    requires n < |hills|
    requires NearestPerBearing(hills[..n], closest)
    ensures NearestPerBearing(hills[..n + 1], BucketStep(closest, hills[n]))
  {
    BucketStepKeepsNearest(hills[..n], closest, hills[n]);
    assert hills[..n] + [hills[n]] == hills[..n + 1];
  }

  /**
   * The `closestHills` reduce: starting from an empty map, each hill is
   * stored under its rounded bearing unless a hill at least as close is
   * already there.
   */
  method ClosestHills(hills: seq<Hill>) returns (closest: map<int, Hill>)
    ensures NearestPerBearing(hills, closest)
  {
    closest := map[];
    for n := 0 to |hills|
      invariant NearestPerBearing(hills[..n], closest)
    {
      var hill := hills[n];
      var roundedBearing := Round(hill.bearing);
      ghost var before := closest;
      if roundedBearing !in closest || closest[roundedBearing].distance > hill.distance {
        closest := closest[roundedBearing := hill];
      }
      assert closest == BucketStep(before, hill);
      BucketPrefixStep(hills, n, before);
    }
    assert hills[..|hills|] == hills;
  }

  /** An empty list leaves the map empty. */
  lemma NoHillsNoBuckets(closest: map<int, Hill>)
    requires NearestPerBearing([], closest)
    ensures closest == map[]
  {
    assert closest.Keys == {};
  }

  /** Two hills with the same rounded bearing and the same distance: the first is kept. */
  lemma TieKeepsFirst(a: Hill, b: Hill, closest: map<int, Hill>)
    requires BearingKey(a) == BearingKey(b) && a.distance == b.distance
    requires NearestPerBearing([a, b], closest)
    ensures closest == map[BearingKey(a) := a]
  {
    var k := BearingKey(a);
    assert BearingKey([a, b][0]) == k;
    assert closest.Keys == {k};
    var i :| KeptFor([a, b], k, i) && closest[k] == [a, b][i];
  }

  /** Rounding is half-up: a bearing of 359.5 lands in bucket 360, apart from a bearing of 0.2 in bucket 0. */
  lemma SeamBucketsStayApart(a: Hill, b: Hill, closest: map<int, Hill>)
    requires a.bearing == 359.5 && b.bearing == 0.2
    requires NearestPerBearing([a, b], closest)
    ensures closest == map[360 := a, 0 := b]
  {
    assert BearingKey([a, b][0]) == 360 && BearingKey([a, b][1]) == 0;
    assert closest.Keys == {360, 0};
    var i :| KeptFor([a, b], 360, i) && closest[360] == [a, b][i];
    var j :| KeptFor([a, b], 0, j) && closest[0] == [a, b][j];
  }

  // ---------------------------------------------------------------------------
  // Bearing relative to the heading
  // ---------------------------------------------------------------------------

  /**
   * `(bearing - heading + 360) % 360` with JavaScript's `%`: the direction
   * of the hill as seen from the device, in [0, 360) when both angles are.
   */
  function RelativeBearing(bearing: real, heading: real): (r: real)
    ensures Congruent360(r, bearing - heading)
    ensures 0.0 <= bearing < 360.0 && 0.0 <= heading < 360.0 ==> 0.0 <= r < 360.0
  {
    var x := bearing - heading + 360.0;
    var r := TruncMod360(x);
    WholeTurns(x, 1);
    CongruentViaCommon(r, x, bearing - heading);
    r
  }

  /** In range, the relative bearing is the one direction in [0, 360) congruent to `bearing - heading`. */
  lemma RelativeBearingIsDirection(bearing: real, heading: real)
    requires 0.0 <= bearing < 360.0 && 0.0 <= heading < 360.0
    ensures RelativeBearing(bearing, heading) == FloorMod360(bearing - heading)
  {
    FloorMod360Characterised(bearing - heading, RelativeBearing(bearing, heading));
  }

  /** A hill straight ahead is at 0; across the seam, heading 359 and bearing 1 give 2. */
  lemma RelativeBearingSamples(b: real)
    requires 0.0 <= b < 360.0
    ensures RelativeBearing(b, b) == 0.0
    ensures RelativeBearing(1.0, 359.0) == 2.0
  {
    RelativeBearingIsDirection(b, b);
    FloorMod360Characterised(0.0, 0.0);
    RelativeBearingIsDirection(1.0, 359.0);
    FloorMod360Characterised(-358.0, 2.0);
  }

  /** Turning the device by `delta` turns every hill by `-delta`, whatever the seam. */
  lemma TurningMovesEveryHill(bearing: real, heading: real, delta: real)
    ensures Congruent360(RelativeBearing(bearing, heading + delta), RelativeBearing(bearing, heading) - delta)
  {
    var before := RelativeBearing(bearing, heading);
    var after := RelativeBearing(bearing, heading + delta);
    var x := bearing - heading - delta;
    assert (before - delta - x) / 360.0 == (before - (bearing - heading)) / 360.0;
    CongruentViaCommon(after, x, before - delta);
  }

  /**
   * The markers: for each kept hill, its bearing relative to the heading.
   * The source reads the heading for every kept hill, so a heading sample
   * must be present unless no hill is kept.
   */
  function Project(closest: map<int, Hill>, heading: Option<HeadingSample>): (r: map<int, real>)
    requires heading.Some? || closest == map[]
    ensures r.Keys == closest.Keys
    ensures forall k :: k in r ==> Congruent360(r[k], closest[k].bearing - heading.value.magHeading)
    ensures forall k :: k in r && 0.0 <= closest[k].bearing < 360.0 && 0.0 <= heading.value.magHeading < 360.0 ==>
      0.0 <= r[k] < 360.0
  {
    if closest == map[] then map[]
    else map k | k in closest :: RelativeBearing(closest[k].bearing, heading.value.magHeading)
  }

  /**
   * The session of a device facing 90 with hills at bearings 95 (distance
   * 100) and 95.4 (distance 50): one bucket, 95, keeps the closer hill, whose
   * marker stands at 5.4 (the relative bearing is not rounded).
   */
  lemma SessionExample(far: Hill, near: Hill, closest: map<int, Hill>)
    requires far.bearing == 95.0 && far.distance == 100.0
    requires near.bearing == 95.4 && near.distance == 50.0
    requires NearestPerBearing([far, near], closest)
    ensures closest == map[95 := near]
    ensures Project(closest, Some(HeadingSample(90.0))) == map[95 := 5.4]
  {
    var hs := [far, near];
    assert BearingKey(hs[0]) == 95 && BearingKey(hs[1]) == 95;
    assert closest.Keys == {95};
    var i :| KeptFor(hs, 95, i) && closest[95] == hs[i];
    RelativeBearingIsDirection(95.4, 90.0);
    FloorMod360Characterised(5.4, 5.4);
  }
}
