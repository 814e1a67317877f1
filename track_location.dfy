/**
 * hooks/use-track-location.ts: the hook that asks the browser for the
 * user's position. Its two state variables move through a request, a
 * success, a failure, or the lack of geolocation support; a success
 * dispatches the coordinates to the store.
 */
module TrackLocation {
  import opened CoffeeStores
  import opened StoreContext

  const UnableToRetrieve: string := "Unable to retrieve your location"
  const NotSupported: string := "Geolocation is not supported by your browser"

  /**
   * The payload `${latitude},${longitude}`. The coordinates are taken as
   * the text the browser's number formatting gives them.
   */
  function Coordinates(latitude: string, longitude: string): (payload: string)
    ensures |payload| == |latitude| + 1 + |longitude|
    ensures payload[|latitude|] == ','
    ensures payload[..|latitude|] == latitude && payload[|latitude| + 1..] == longitude
  {
    latitude + "," + longitude
  }

  /** Splitting the payload at `,` gives back both coordinates when neither holds a comma. */
  lemma CoordinatesRoundTrip(latitude: string, longitude: string)
    requires ',' !in latitude && ',' !in longitude
    ensures Split(Coordinates(latitude, longitude), ',') == [latitude, longitude]
  {
    assert Coordinates(latitude, longitude) == latitude + [','] + longitude;
    SplitCons(latitude, ',', longitude);
    SplitSingle(longitude, ',');
  }

  /** A coordinate with a comma of its own makes the payload ambiguous: it splits into more than two parts. */
  lemma CoordinatesWithCommaAreAmbiguous(latitude: string, longitude: string)
    requires ',' in latitude || ',' in longitude
    ensures |Split(Coordinates(latitude, longitude), ',')| > 2
  {
    var payload := Coordinates(latitude, longitude);
    assert payload == latitude + [','] + longitude;
    assert multiset(payload) == multiset(latitude) + multiset([',']) + multiset(longitude);
    assert multiset(latitude)[','] > 0 || multiset(longitude)[','] > 0;
  }

  /**
   * The hook's state. `dispatched` holds the actions sent to the store,
   * in order, and `positionRequests` counts the calls to
   * `getCurrentPosition`, whose answer arrives later as `Success` or
   * `Error`.
   */
  class LocationTracker {
    var locationErrorMsg: string
    var isFindingLocation: bool
    var dispatched: seq<StoreAction>
    var positionRequests: nat

    /** The hook's first render. */
    constructor ()
      ensures locationErrorMsg == "" && !isFindingLocation
      ensures dispatched == [] && positionRequests == 0
    {
      locationErrorMsg := "";
      isFindingLocation := false;
      dispatched := [];
      positionRequests := 0;
    }

    /** `success`: the position arrived. */
    method Success(latitude: string, longitude: string)
      modifies this
      ensures dispatched == old(dispatched) + [SetLatLong(Coordinates(latitude, longitude))]
      ensures locationErrorMsg == "" && !isFindingLocation
      ensures positionRequests == old(positionRequests)
    {
      dispatched := dispatched + [SetLatLong(Coordinates(latitude, longitude))];
      locationErrorMsg := "";
      isFindingLocation := false;
    }

    /** `error`: the browser could not give a position. */
    method Error()
      modifies this
      ensures !isFindingLocation && locationErrorMsg == UnableToRetrieve
      ensures dispatched == old(dispatched) && positionRequests == old(positionRequests)
    {
      isFindingLocation := false;
      locationErrorMsg := UnableToRetrieve;
    }

    /**
     * `handleTrackLocation`: marks the search as running, then either
     * gives up at once, when the browser has no geolocation, or asks for
     * the position exactly once.
     */
    method HandleTrackLocation(geolocationAvailable: bool)
      modifies this
      ensures dispatched == old(dispatched)
      ensures !geolocationAvailable ==>
        && !isFindingLocation && locationErrorMsg == NotSupported
        && positionRequests == old(positionRequests)
      ensures geolocationAvailable ==>
        && isFindingLocation && locationErrorMsg == old(locationErrorMsg)
        && positionRequests == old(positionRequests) + 1
    {
      isFindingLocation := true;
      if !geolocationAvailable {
        locationErrorMsg := NotSupported;
        isFindingLocation := false;
      } else {
        positionRequests := positionRequests + 1;
      }
    }
  }

  /**
   * Once a success has been dispatched, the store holds its coordinates,
   * whatever was dispatched before.
   */
  lemma {:induction false} SuccessSetsStoreLocation(state: StoreState, before: seq<StoreAction>, latitude: string, longitude: string)
    ensures Replay(state, before + [SetLatLong(Coordinates(latitude, longitude))]).latLong == Coordinates(latitude, longitude)
    ensures Replay(state, before + [SetLatLong(Coordinates(latitude, longitude))]).coffeeStores
         == Replay(state, before).coffeeStores
  {
    var action := SetLatLong(Coordinates(latitude, longitude));
    ReplayAppend(state, before, [action]);
    assert [action][1..] == [];
  }
}
