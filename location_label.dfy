/**
 * The "Approximate location" label, updated whenever the coordinate or the
 * location list changes: the (-1, -1) sentinel asks the user to use GPS,
 * otherwise the nearest known place is shown when there is one, and the
 * label is left as it was when there is none.
 */
module LocationLabel {
  import opened Nearest

  /**
   * The label's content: empty before the first update, the request to use
   * GPS, or a place (rendered as name followed by its coordinates).
   */
  datatype Label = Blank | UnknownUseGps | Near(location: Location)

  /** The coordinate the application holds before any GPS reading. */
  predicate IsSentinel(lat: real, lng: real) {
    lat == -1.0 && lng == -1.0
  }

  /** The label after the update for coordinate (lat, lng). */
  function NextLabel(current: Label, lat: real, lng: real, locations: seq<Location>, distance: DistanceFn): (next: Label)
    ensures IsSentinel(lat, lng) ==> next == UnknownUseGps
    ensures !IsSentinel(lat, lng) && Closest(locations, lat, lng, distance).Some? ==>
      next == Near(Closest(locations, lat, lng, distance).value)
    ensures !IsSentinel(lat, lng) && Closest(locations, lat, lng, distance).None? ==> next == current
  {
    if IsSentinel(lat, lng) then UnknownUseGps
    else
      var loc := Closest(locations, lat, lng, distance);
      if loc.Some? then Near(loc.value) else current
  }

  /**
   * After an update for a real coordinate the label is kept exactly when no
   * place beats the `MAX_VALUE` seed, and otherwise shows the first nearest
   * listed place.
   */
  lemma NextLabelKeptOrNearest(current: Label, lat: real, lng: real, locations: seq<Location>, distance: DistanceFn)
    requires !IsSentinel(lat, lng)
    ensures NoneBelowSeed(locations, lat, lng, distance) ==> NextLabel(current, lat, lng, locations, distance) == current
    ensures forall k: nat | IsFirstNearest(locations, k, lat, lng, distance) ::
      NextLabel(current, lat, lng, locations, distance) == Near(locations[k])
  {
    ClosestIndexSpec(locations, lat, lng, distance);
    forall k: nat | IsFirstNearest(locations, k, lat, lng, distance)
      ensures NextLabel(current, lat, lng, locations, distance) == Near(locations[k])
    {
      ClosestIndexIsFirstNearest(locations, k, lat, lng, distance);
    }
  }

  /**
   * When the location list is non-empty and every listed place is closer
   * than `MAX_VALUE`, a real coordinate always replaces the label by the first nearest
   * listed place.
   */
  lemma LabelShowsPlace(current: Label, lat: real, lng: real, locations: seq<Location>, distance: DistanceFn)
    requires !IsSentinel(lat, lng)
    requires |locations| > 0
    requires forall j | 0 <= j < |locations| :: DistanceTo(distance, locations[j], lat, lng) < MaxValue
    ensures exists k: nat ::
      && IsFirstNearest(locations, k, lat, lng, distance)
      && NextLabel(current, lat, lng, locations, distance) == Near(locations[k])
  {
    ClosestIndexSpec(locations, lat, lng, distance);
    var k := ClosestIndex(locations, lat, lng, distance);
    assert DistanceTo(distance, locations[0], lat, lng) < MaxValue;
    assert k.Some? && IsFirstNearest(locations, k.value, lat, lng, distance);
  }
}
