/**
 * The `/nearest` endpoint of the hills service (hills-api/main.py): every hill
 * of the data set within `furthest` of the caller, with its distance and
 * compass bearing, in non-decreasing order of distance.
 *
 * The great-circle distance (`haversine`) and the trigonometric part of
 * `calculate_bearing` are not modelled: they are supplied as the functions of
 * a `Geodesy` value. The model covers the normalisation of the bearing, the
 * filter, and the stable sort.
 */
module HillsApi {
  import opened Angles

  /** A hill as the service returns it and the app consumes it. */
  datatype Hill = Hill(name: string, distance: real, bearing: real, height: real)

  /** A row of the hills data set: name, position and height in metres. */
  datatype Row = Row(name: string, latitude: real, longitude: real, metres: real)

  /** A function of two positions (lat1, lon1, lat2, lon2). */
  type Geodesic = (real, real, real, real) -> real

  /**
   * `haversine` gives the distance between two positions; `initialBearing`
   * gives the initial bearing in degrees, before normalisation, as
   * `degrees(atan2(x, y))` does in `calculate_bearing`.
   */
  datatype Geodesy = Geodesy(haversine: Geodesic, initialBearing: Geodesic)

  /** The caller's position and the search radius of one request. */
  datatype Query = Query(latitude: real, longitude: real, furthest: real)

  /** The radius used when a request gives none. */
  const DefaultFurthest: real := 25.0

  /**
   * The last step of `calculate_bearing`: `(b + 360) % 360` with Python's
   * `%`. The result is the one direction in [0, 360) congruent to `b`.
   */
  function CompassBearing(b: real): (r: real)
    ensures 0.0 <= r < 360.0
    ensures Congruent360(r, b)
  {
    var r := FloorMod360(b + 360.0);
    WholeTurns(b + 360.0, 1);
    CongruentViaCommon(r, b + 360.0, b);
    r
  }

  /** Adding 360 before Python's `%` changes nothing: the result is `b % 360`. */
  lemma CompassBearingIsFloorMod(b: real)
    ensures CompassBearing(b) == FloorMod360(b)
  {
    FloorMod360Characterised(b, CompassBearing(b));
  }

  /** An initial bearing already in [0, 360) is returned unchanged; one in [-360, 0) is taken one turn round. */
  lemma CompassBearingOfSignedAngle(b: real)
    requires -360.0 <= b < 360.0
    ensures CompassBearing(b) == if b >= 0.0 then b else b + 360.0
  {
    var r := if b >= 0.0 then b else b + 360.0;
    WholeTurns(b + 360.0, 1);
    if b < 0.0 {
      assert Congruent360(r, b) by { WholeTurns(r, 1); }
    } else {
      assert Congruent360(r, b) by { WholeTurns(r, 0); }
    }
    CompassBearingIsFloorMod(b);
    FloorMod360Characterised(b, r);
  }

  /** `calculate_bearing`: the compass bearing from the caller to the hill. */
  function CalculateBearing(geo: Geodesy, lat1: real, lon1: real, lat2: real, lon2: real): (r: real)
    ensures 0.0 <= r < 360.0
    ensures Congruent360(r, geo.initialBearing(lat1, lon1, lat2, lon2))
  {
    CompassBearing(geo.initialBearing(lat1, lon1, lat2, lon2))
  }

  /** Distance from the caller to the hill of a row. */
  function DistanceTo(geo: Geodesy, q: Query, row: Row): real
  {
    geo.haversine(q.latitude, q.longitude, row.latitude, row.longitude)
  }

  /** The row is close enough to be returned. */
  predicate Within(geo: Geodesy, q: Query, row: Row)
  {
    DistanceTo(geo, q, row) <= q.furthest
  }

  /** The `Hill` built for a row: its name and height, its distance and its bearing. */
  function HillFor(geo: Geodesy, q: Query, row: Row): Hill
  {
    Hill(row.name, DistanceTo(geo, q, row),
         CalculateBearing(geo, q.latitude, q.longitude, row.latitude, row.longitude), row.metres)
  }

  /**
   * The hills of the rows within range, in data-set order: what the loop of
   * `nearest` has appended once it has seen `rows`.
   */
  function Selected(geo: Geodesy, q: Query, rows: seq<Row>): (r: seq<Hill>)
    ensures |r| <= |rows|
    ensures forall h :: h in r ==> h.distance <= q.furthest && 0.0 <= h.bearing < 360.0
    ensures forall i :: 0 <= i < |rows| && Within(geo, q, rows[i]) ==> HillFor(geo, q, rows[i]) in r
    ensures forall h :: h in r ==>
      exists i :: 0 <= i < |rows| && Within(geo, q, rows[i]) && h == HillFor(geo, q, rows[i])
  {
    if rows == [] then []
    else
      var init := rows[..|rows| - 1];
      var row := rows[|rows| - 1];
      var r := Selected(geo, q, init) + (if Within(geo, q, row) then [HillFor(geo, q, row)] else []);
      assert forall i :: 0 <= i < |init| ==> init[i] == rows[i];
      r
  }

  /** One more row: its hill is appended when it is within range. */
  lemma SelectedAppend(geo: Geodesy, q: Query, rows: seq<Row>, row: Row)
    ensures Selected(geo, q, rows + [row]) ==
      Selected(geo, q, rows) + if Within(geo, q, row) then [HillFor(geo, q, row)] else []
  {
    assert (rows + [row])[..|rows|] == rows;
  }

  /** The indices of the rows within range whose hill is `h`. */
  ghost function RowsProducing(geo: Geodesy, q: Query, rows: seq<Row>, h: Hill): set<int>
  {
    set i | 0 <= i < |rows| && Within(geo, q, rows[i]) && HillFor(geo, q, rows[i]) == h
  }

  /**
   * Every row within range contributes exactly one hill: each hill occurs in
   * the list as many times as there are rows within range that produce it.
   */
  lemma {:induction false} SelectedCounts(geo: Geodesy, q: Query, rows: seq<Row>, h: Hill)
    ensures multiset(Selected(geo, q, rows))[h] == |RowsProducing(geo, q, rows, h)|
  {
    if rows == [] {
      assert RowsProducing(geo, q, rows, h) == {};
    } else {
      var init := rows[..|rows| - 1];
      var row := rows[|rows| - 1];
      SelectedCounts(geo, q, init, h);
      assert init + [row] == rows;
      SelectedAppend(geo, q, init, row);
      var tail := if Within(geo, q, row) then [HillFor(geo, q, row)] else [];
      assert multiset(Selected(geo, q, rows)) == multiset(Selected(geo, q, init)) + multiset(tail);
      RowsProducingAppend(geo, q, init, row, h);
    }
  }

  /** The producing rows of a list extended by one row. */
  lemma RowsProducingAppend(geo: Geodesy, q: Query, rows: seq<Row>, row: Row, h: Hill)
    ensures |RowsProducing(geo, q, rows + [row], h)| ==
      |RowsProducing(geo, q, rows, h)| + if Within(geo, q, row) && HillFor(geo, q, row) == h then 1 else 0
  {
    var s := rows + [row];
    var n := |rows|;
    var before := RowsProducing(geo, q, rows, h);
    var after := RowsProducing(geo, q, s, h);
    assert forall i :: 0 <= i < n ==> s[i] == rows[i];
    assert s[n] == row;
    if Within(geo, q, row) && HillFor(geo, q, row) == h {
      assert after == before + {n};
      assert n !in before;
    } else {
      assert after == before;
    }
  }

  /** Distances never decrease along `s`. */
  ghost predicate SortedByDistance(s: seq<Hill>)
  {
    forall i, j :: 0 <= i < j < |s| ==> s[i].distance <= s[j].distance
  }

  /** The hills of `s` at distance exactly `d`, in their order in `s`. */
  function AtDistance(s: seq<Hill>, d: real): seq<Hill>
  {
    if s == [] then []
    else (if s[0].distance == d then [s[0]] else []) + AtDistance(s[1..], d)
  }

  /** Inserts `h` into `s` before the first hill that is not closer. */
  function InsertByDistance(h: Hill, s: seq<Hill>): seq<Hill>
  {
    if s == [] || h.distance <= s[0].distance then [h] + s
    else [s[0]] + InsertByDistance(h, s[1..])
  }

  /** Inserting into a sorted sequence keeps it sorted. */
  lemma {:induction false} InsertKeepsSorted(h: Hill, s: seq<Hill>)
    requires SortedByDistance(s)
    ensures SortedByDistance(InsertByDistance(h, s))
    ensures InsertByDistance(h, s) != []
    ensures InsertByDistance(h, s)[0] == h || (s != [] && InsertByDistance(h, s)[0] == s[0])
  {
    if s != [] && h.distance > s[0].distance {
      var rest := InsertByDistance(h, s[1..]);
      InsertKeepsSorted(h, s[1..]);
      var t := [s[0]] + rest;
      assert t == InsertByDistance(h, s);
      forall i, j | 0 <= i < j < |t| ensures t[i].distance <= t[j].distance {
        if i == 0 {
          assert rest[0].distance >= s[0].distance;
          assert t[j] == rest[j - 1];
        }
      }
    }
  }

  /** Inserting adds exactly `h`. */
  lemma {:induction false} InsertAddsOne(h: Hill, s: seq<Hill>)
    ensures multiset(InsertByDistance(h, s)) == multiset(s) + multiset{h}
  {
    if s != [] && h.distance > s[0].distance {
      InsertAddsOne(h, s[1..]);
      assert s == [s[0]] + s[1..];
    }
  }

  /** Inserting into a sorted sequence puts `h` in front of the hills at its own distance. */
  lemma {:induction false} InsertFrontOfEqual(h: Hill, s: seq<Hill>, d: real)
    requires SortedByDistance(s)
    ensures AtDistance(InsertByDistance(h, s), d) == (if h.distance == d then [h] else []) + AtDistance(s, d)
  {
    var t := InsertByDistance(h, s);
    if s == [] || h.distance <= s[0].distance {
      assert t[1..] == s;
    } else {
      var rest := InsertByDistance(h, s[1..]);
      assert SortedByDistance(s[1..]);
      InsertFrontOfEqual(h, s[1..], d);
      assert t == [s[0]] + rest;
      assert t[1..] == rest;
      var head := if s[0].distance == d then [s[0]] else [];
      var mid := if h.distance == d then [h] else [];
      calc {
        AtDistance(t, d);
        head + AtDistance(rest, d);
        head + (mid + AtDistance(s[1..], d));
        { assert head == [] || mid == []; }
        mid + (head + AtDistance(s[1..], d));
        mid + AtDistance(s, d);
      }
    }
  }

  /**
   * `results.sort(key=lambda x: x.distance)`: Python's sort is stable, so the
   * result is sorted by distance, holds the same hills, and keeps the hills
   * at any one distance in their original order.
   */
  function SortByDistance(s: seq<Hill>): (r: seq<Hill>)
    ensures SortedByDistance(r)
    ensures multiset(r) == multiset(s)
    ensures forall d :: AtDistance(r, d) == AtDistance(s, d)
  {
    if s == [] then []
    else
      var rest := SortByDistance(s[1..]);
      InsertKeepsSorted(s[0], rest);
      InsertAddsOne(s[0], rest);
      forall d ensures AtDistance(InsertByDistance(s[0], rest), d) == AtDistance(s, d) {
        InsertFrontOfEqual(s[0], rest, d);
      }
      assert s == [s[0]] + s[1..];
      InsertByDistance(s[0], rest)
  }

  /** What `AtDistance` picks out are hills of `s` at distance `d`; the first hill of `s` is picked out at its own distance. */
  lemma {:induction false} AtDistanceMembers(s: seq<Hill>, d: real)
    ensures forall h :: h in AtDistance(s, d) ==> h in s && h.distance == d
    ensures s != [] && s[0].distance == d ==> AtDistance(s, d) == [s[0]] + AtDistance(s[1..], d)
  {
    if s != [] {
      AtDistanceMembers(s[1..], d);
    }
  }

  /**
   * Sortedness and stability pin the result down: two sorted sequences with
   * the same hills at every distance, in the same order, are equal.
   */
  lemma {:induction false} SortedStableUnique(a: seq<Hill>, b: seq<Hill>)
    requires SortedByDistance(a) && SortedByDistance(b)
    requires forall d :: AtDistance(a, d) == AtDistance(b, d)
    ensures a == b
  {
    if a == [] || b == [] {
      if a != [] {
        AtDistanceMembers(a, a[0].distance);
      } else if b != [] {
        AtDistanceMembers(b, b[0].distance);
      }
    } else {
      var d := a[0].distance;
      var e := b[0].distance;
      AtDistanceMembers(a, d);
      AtDistanceMembers(b, e);
      AtDistanceMembers(a, e);
      AtDistanceMembers(b, d);
      assert b[0] in AtDistance(a, e);
      assert a[0] in AtDistance(b, d);
      assert d == e;
      assert AtDistance(a, d) == AtDistance(b, d);
      assert AtDistance(a, d)[0] == a[0] && AtDistance(b, d)[0] == b[0];
      forall x ensures AtDistance(a[1..], x) == AtDistance(b[1..], x) {
        var head := if d == x then [a[0]] else [];
        assert AtDistance(a, x) == head + AtDistance(a[1..], x);
        assert AtDistance(b, x) == head + AtDistance(b[1..], x);
        assert AtDistance(a, x) == AtDistance(b, x);
        assert AtDistance(a[1..], x) == AtDistance(a, x)[|head|..];
        assert AtDistance(b[1..], x) == AtDistance(b, x)[|head|..];
      }
      SortedStableUnique(a[1..], b[1..]);
      assert a == [a[0]] + a[1..];
      assert b == [b[0]] + b[1..];
    }
  }

  /** A selected hill carries the name, height, distance and bearing of an in-range row. */
  lemma SelectedHillFromRow(geo: Geodesy, q: Query, rows: seq<Row>, h: Hill)
    requires h in Selected(geo, q, rows)
    ensures h.distance <= q.furthest && 0.0 <= h.bearing < 360.0
    ensures exists i ::
      && 0 <= i < |rows| && Within(geo, q, rows[i])
      && h.name == rows[i].name && h.height == rows[i].metres
      && h.distance == DistanceTo(geo, q, rows[i])
      && h.bearing == CalculateBearing(geo, q.latitude, q.longitude, rows[i].latitude, rows[i].longitude)
  {
    var i :| 0 <= i < |rows| && Within(geo, q, rows[i]) && h == HillFor(geo, q, rows[i]);
    var row := rows[i];
    assert h.name == row.name && h.height == row.metres;
  }

  /**
   * A list holding the same hills as the selection holds only in-range hills,
   * each carrying the name, height, distance and bearing of an in-range row,
   * and holds the hill of every in-range row.
   */
  lemma SameHillsAsSelected(geo: Geodesy, q: Query, rows: seq<Row>, results: seq<Hill>)
    requires multiset(results) == multiset(Selected(geo, q, rows))
    ensures forall h :: h in results ==> h.distance <= q.furthest && 0.0 <= h.bearing < 360.0
    ensures forall h :: h in results ==> exists i ::
      && 0 <= i < |rows| && Within(geo, q, rows[i])
      && h.name == rows[i].name && h.height == rows[i].metres
      && h.distance == DistanceTo(geo, q, rows[i])
      && h.bearing == CalculateBearing(geo, q.latitude, q.longitude, rows[i].latitude, rows[i].longitude)
    ensures forall i :: 0 <= i < |rows| && Within(geo, q, rows[i]) ==>
      HillFor(geo, q, rows[i]) in results
  {
    var selected := Selected(geo, q, rows);
    forall h | h in results
      ensures h.distance <= q.furthest && 0.0 <= h.bearing < 360.0
      ensures exists i ::
        && 0 <= i < |rows| && Within(geo, q, rows[i])
        && h.name == rows[i].name && h.height == rows[i].metres
        && h.distance == DistanceTo(geo, q, rows[i])
        && h.bearing == CalculateBearing(geo, q.latitude, q.longitude, rows[i].latitude, rows[i].longitude)
    {
      assert h in multiset(selected);
      SelectedHillFromRow(geo, q, rows, h);
    }
    forall i | 0 <= i < |rows| && Within(geo, q, rows[i])
      ensures HillFor(geo, q, rows[i]) in results
    {
      assert HillFor(geo, q, rows[i]) in multiset(selected);
    }
  }

  /**
   * `nearest`: walks the rows once, appending the hill of every row within
   * `furthest`, then sorts the list by distance.
   */
  method Nearest(rows: seq<Row>, geo: Geodesy, latitude: real, longitude: real, furthest: real := DefaultFurthest)
    returns (results: seq<Hill>)
    ensures var selected := Selected(geo, Query(latitude, longitude, furthest), rows);
      && SortedByDistance(results)
      && multiset(results) == multiset(selected)
      && forall d :: AtDistance(results, d) == AtDistance(selected, d)
    ensures forall h :: h in results ==> h.distance <= furthest && 0.0 <= h.bearing < 360.0
    ensures forall h :: h in results ==> exists i ::
      && 0 <= i < |rows| && Within(geo, Query(latitude, longitude, furthest), rows[i])
      && h.name == rows[i].name && h.height == rows[i].metres
      && h.distance == DistanceTo(geo, Query(latitude, longitude, furthest), rows[i])
      && h.bearing == CalculateBearing(geo, latitude, longitude, rows[i].latitude, rows[i].longitude)
    ensures forall i :: 0 <= i < |rows| && Within(geo, Query(latitude, longitude, furthest), rows[i]) ==>
      HillFor(geo, Query(latitude, longitude, furthest), rows[i]) in results
  {
    var q := Query(latitude, longitude, furthest);
    results := [];
    for n := 0 to |rows|
      invariant results == Selected(geo, q, rows[..n])
    {
      var row := rows[n];
      var distance := geo.haversine(latitude, longitude, row.latitude, row.longitude);
      if distance <= furthest {
        var bearing := CalculateBearing(geo, latitude, longitude, row.latitude, row.longitude);
        results := results + [Hill(row.name, distance, bearing, row.metres)];
      }
      SelectedAppend(geo, q, rows[..n], row);
      assert rows[..n] + [row] == rows[..n + 1];
    }
    assert rows[..|rows|] == rows;
    ghost var selected := results;
    results := SortByDistance(results);
    SameHillsAsSelected(geo, q, rows, results);
  }
}
