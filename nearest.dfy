/**
 * The nearest-location lookup: a linear scan over the static list of named
 * places that keeps the closest place seen so far, replacing it only on a
 * strictly smaller distance.
 */
module Nearest {
  import opened Wrappers

  /** A named place of the location dataset (`LocationInfo`). */
  datatype Location = Location(name: string, lat: real, lng: real)

  /**
   * The distance between (lat1, lng1) and (lat2, lng2). The application uses
   * the haversine great-circle distance; the scan depends on nothing about it.
   */
  type DistanceFn = (real, real, real, real) -> real

  /** `Number.MAX_VALUE`, (2^53 - 1) * 2^971, the distance the scan starts from. */
  const MaxValue: real := 179769313486231570814527423731704356798070567525844996598917476803157260780028538760589558632766878171540458953514382464234321326889464182768467546703537516986049910576551282076245490090389328944075868508455133942304583236903222948165808559332123348274797826204144723168738177180919299881250404026184124858368.0

  /** Distance from a place to the target, with the place's coordinates first. */
  function DistanceTo(distance: DistanceFn, location: Location, lat: real, lng: real): real {
    distance(location.lat, location.lng, lat, lng)
  }

  /**
   * Index of the place the scan holds after visiting all of `locations`, or
   * None while it still holds `null`: the last place is taken exactly when it
   * is strictly closer than what the scan of the earlier places holds.
   */
  function ClosestIndex(locations: seq<Location>, lat: real, lng: real, distance: DistanceFn): (r: Option<nat>)
    ensures r.Some? ==> r.value < |locations|
  {
    if locations == [] then None
    else
      var last := |locations| - 1;
      var best := ClosestIndex(locations[..last], lat, lng, distance);
      var bestDistance := if best.Some? then DistanceTo(distance, locations[best.value], lat, lng) else MaxValue;
      if DistanceTo(distance, locations[last], lat, lng) < bestDistance then Some(last) else best
  }

  /** The place the scan returns, None standing for `null`. */
  function Closest(locations: seq<Location>, lat: real, lng: real, distance: DistanceFn): Option<Location> {
    var k := ClosestIndex(locations, lat, lng, distance);
    if k.Some? then Some(locations[k.value]) else None
  }

  /** No place is strictly closer than the `MAX_VALUE` seed. */
  ghost predicate NoneBelowSeed(locations: seq<Location>, lat: real, lng: real, distance: DistanceFn) {
    forall j | 0 <= j < |locations| :: DistanceTo(distance, locations[j], lat, lng) >= MaxValue
  }

  /**
   * `k` is the first place of minimal distance, and that distance is below
   * the seed: no place is closer, and every earlier place is strictly farther.
   */
  ghost predicate IsFirstNearest(locations: seq<Location>, k: nat, lat: real, lng: real, distance: DistanceFn) {
    && k < |locations|
    && DistanceTo(distance, locations[k], lat, lng) < MaxValue
    && (forall j | 0 <= j < |locations| ::
          DistanceTo(distance, locations[k], lat, lng) <= DistanceTo(distance, locations[j], lat, lng))
    && (forall j | 0 <= j < k ::
          DistanceTo(distance, locations[k], lat, lng) < DistanceTo(distance, locations[j], lat, lng))
  }

  /** The scan ends on nothing exactly when no place beats the seed, and otherwise on the first nearest place. */
  lemma {:induction false} ClosestIndexSpec(locations: seq<Location>, lat: real, lng: real, distance: DistanceFn)
    ensures ClosestIndex(locations, lat, lng, distance).None? <==> NoneBelowSeed(locations, lat, lng, distance)
    ensures ClosestIndex(locations, lat, lng, distance).Some? ==>
      IsFirstNearest(locations, ClosestIndex(locations, lat, lng, distance).value, lat, lng, distance)
  {
    if locations != [] {
      var last := |locations| - 1;
      var prefix := locations[..last];
      ClosestIndexSpec(prefix, lat, lng, distance);
      assert forall j | 0 <= j < last :: prefix[j] == locations[j];
    }
  }

  /** The first nearest place is unique, so it is exactly where the scan ends. */
  lemma ClosestIndexIsFirstNearest(locations: seq<Location>, k: nat, lat: real, lng: real, distance: DistanceFn)
    ensures ClosestIndex(locations, lat, lng, distance) == Some(k) <==> IsFirstNearest(locations, k, lat, lng, distance)
  {
    ClosestIndexSpec(locations, lat, lng, distance);
    var r := ClosestIndex(locations, lat, lng, distance);
    if IsFirstNearest(locations, k, lat, lng, distance) {
      assert r.Some?;
      assert r.value == k;
    }
  }

  /**
   * `findClosestLocation`: the scan itself. The result is `null` exactly when
   * no place is closer than `MAX_VALUE` (in particular for an empty list), and
   * otherwise the first place of the list at minimal distance.
   */
  method FindClosestLocation(locations: seq<Location>, targetLatitude: real, targetLongitude: real, distance: DistanceFn)
    returns (closestLocation: Option<Location>)
    ensures closestLocation == Closest(locations, targetLatitude, targetLongitude, distance)
    ensures closestLocation.None? <==> NoneBelowSeed(locations, targetLatitude, targetLongitude, distance)
    ensures closestLocation.Some? ==> exists k: nat ::
      IsFirstNearest(locations, k, targetLatitude, targetLongitude, distance) && locations[k] == closestLocation.value
  {
    closestLocation := None;
    var closestDistance := MaxValue;
    ghost var index: Option<nat> := None;
    for i := 0 to |locations|
      invariant index == ClosestIndex(locations[..i], targetLatitude, targetLongitude, distance)
      invariant index.Some? ==> index.value < i
      invariant closestLocation == (if index.Some? then Some(locations[index.value]) else None)
      invariant closestDistance ==
        (if index.Some? then DistanceTo(distance, locations[index.value], targetLatitude, targetLongitude) else MaxValue)
    {
      var location := locations[i];
      var d := DistanceTo(distance, location, targetLatitude, targetLongitude);
      assert locations[..i + 1][..i] == locations[..i];
      if d < closestDistance {
        closestLocation := Some(location);
        closestDistance := d;
        index := Some(i);
      }
    }
    assert locations[..|locations|] == locations;
    ClosestIndexSpec(locations, targetLatitude, targetLongitude, distance);
  }

  /**
   * A place at distance zero, with every distance non-negative and every
   * earlier place at a positive distance, is the one returned: the target
   * standing exactly on a listed place finds that place.
   */
  lemma ExactMatchWins(locations: seq<Location>, k: nat, lat: real, lng: real, distance: DistanceFn)
    requires k < |locations|
    requires DistanceTo(distance, locations[k], lat, lng) == 0.0
    requires forall j | 0 <= j < |locations| :: DistanceTo(distance, locations[j], lat, lng) >= 0.0
    requires forall j | 0 <= j < k :: DistanceTo(distance, locations[j], lat, lng) > 0.0
    ensures Closest(locations, lat, lng, distance) == Some(locations[k])
  {
    ClosestIndexIsFirstNearest(locations, k, lat, lng, distance);
  }

  /** With at least one place, and every distance below the seed, the result is never `null`. */
  lemma ClosestExists(locations: seq<Location>, lat: real, lng: real, distance: DistanceFn)
    requires |locations| > 0
    requires forall j | 0 <= j < |locations| :: DistanceTo(distance, locations[j], lat, lng) < MaxValue
    ensures Closest(locations, lat, lng, distance).Some?
  {
  }
}
