/**
 * store/store-context.tsx: the client-side store of the page. Its state is
 * the user's coordinates and the stores found near them; a reducer moves
 * it from one state to the next.
 */
module StoreContext {
  import opened Js
  import opened CoffeeStores

  datatype StoreState = StoreState(latLong: string, coffeeStores: seq<CoffeeStore>)

  /** A dispatched action: the two known kinds, or any other action type. */
  datatype StoreAction =
    | SetLatLong(latLong: string)
    | SetCoffeeStores(coffeeStores: seq<CoffeeStore>)
    | Unrecognised(kind: string)

  /** The provider's initial state. */
  function InitialState(): (s: StoreState)
    ensures s.latLong == "" && s.coffeeStores == []
  {
    StoreState("", [])
  }

  /**
   * `storeReducer`: each known action replaces its own field with the
   * payload and keeps the other; any other action keeps the state.
   */
  function StoreReducer(state: StoreState, action: StoreAction): (next: StoreState)
    ensures action.SetLatLong? ==> next.latLong == action.latLong && next.coffeeStores == state.coffeeStores
    ensures action.SetCoffeeStores? ==> next.coffeeStores == action.coffeeStores && next.latLong == state.latLong
    ensures action.Unrecognised? ==> next == state
  {
    match action
    case SetLatLong(ll) => state.(latLong := ll)
    case SetCoffeeStores(stores) => state.(coffeeStores := stores)
    case Unrecognised(_) => state
  }

  /** Dispatching the same action twice is dispatching it once. */
  lemma ReducerIsIdempotent(state: StoreState, action: StoreAction)
    ensures StoreReducer(StoreReducer(state, action), action) == StoreReducer(state, action)
  {
  }

  /** Actions of different kinds touch different fields, so their order does not matter. */
  lemma ReducerCommutes(state: StoreState, latLong: string, stores: seq<CoffeeStore>)
    ensures StoreReducer(StoreReducer(state, SetLatLong(latLong)), SetCoffeeStores(stores))
         == StoreReducer(StoreReducer(state, SetCoffeeStores(stores)), SetLatLong(latLong))
  {
  }

  /** The state after dispatching `actions` in order. */
  function Replay(state: StoreState, actions: seq<StoreAction>): StoreState
    decreases |actions|
  {
    if actions == [] then state
    else Replay(StoreReducer(state, actions[0]), actions[1..])
  }

  /** The payload of the last `SetLatLong` in `actions`, if any. */
  function LastLatLong(actions: seq<StoreAction>): (r: Option<string>)
    ensures r.Some? <==> exists i :: 0 <= i < |actions| && actions[i].SetLatLong?
    decreases |actions|
  {
    if actions == [] then None
    else
      var last := actions[|actions| - 1];
      if last.SetLatLong? then Some(last.latLong)
      else
        var r := LastLatLong(actions[..|actions| - 1]);
        assert forall i :: 0 <= i < |actions| - 1 ==> actions[..|actions| - 1][i] == actions[i];
        r
  }

  /** The payload of the last `SetCoffeeStores` in `actions`, if any. */
  function LastStores(actions: seq<StoreAction>): (r: Option<seq<CoffeeStore>>)
    ensures r.Some? <==> exists i :: 0 <= i < |actions| && actions[i].SetCoffeeStores?
    decreases |actions|
  {
    if actions == [] then None
    else
      var last := actions[|actions| - 1];
      if last.SetCoffeeStores? then Some(last.coffeeStores)
      else
        var r := LastStores(actions[..|actions| - 1]);
        assert forall i :: 0 <= i < |actions| - 1 ==> actions[..|actions| - 1][i] == actions[i];
        r
  }

  /** Dispatching `a` then `b` is dispatching `b` after the state `a` leaves. */
  lemma {:induction false} ReplayAppend(state: StoreState, a: seq<StoreAction>, b: seq<StoreAction>)
    ensures Replay(state, a + b) == Replay(Replay(state, a), b)
    decreases |a|
  {
    if a == [] {
      assert a + b == b;
    } else {
      assert (a + b)[1..] == a[1..] + b;
      ReplayAppend(StoreReducer(state, a[0]), a[1..], b);
    }
  }

  /**
   * After any sequence of dispatches, each field holds the payload of the
   * last action that sets it, or its earlier value when none does.
   */
  lemma {:induction false} LastActionWins(state: StoreState, actions: seq<StoreAction>)
    ensures var s := Replay(state, actions);
      && s.latLong == (if LastLatLong(actions).Some? then LastLatLong(actions).value else state.latLong)
      && s.coffeeStores == (if LastStores(actions).Some? then LastStores(actions).value else state.coffeeStores)
    decreases |actions|
  {
    if actions != [] {
      var init := actions[..|actions| - 1];
      var last := actions[|actions| - 1];
      assert actions == init + [last];
      ReplayAppend(state, init, [last]);
      LastActionWins(state, init);
    }
  }

  /** From the initial state, a location then a list of stores leaves both in place. */
  lemma LocationThenStores(latLong: string, stores: seq<CoffeeStore>)
    ensures Replay(InitialState(), [SetLatLong(latLong), SetCoffeeStores(stores)]) == StoreState(latLong, stores)
  {
    var actions := [SetLatLong(latLong), SetCoffeeStores(stores)];
    LastActionWins(InitialState(), actions);
    assert actions[..1] == [SetLatLong(latLong)];
    assert LastLatLong(actions) == Some(latLong);
  }
}
