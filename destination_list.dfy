/** The button handlers of the destination list screen
    (LookAround/DestinationTab/DestinationListView.swift): the view's state is
    the alert flag, the text buffer of the new destination's name and the
    navigation path, and it shares the store with the rest of the app. */
module DestinationListView {
  import opened Wrappers
  import opened Destinations
  import opened Persistence

  class DestinationList {
    /** The environment's model context. */
    const store: Store
    /** Whether the "Enter New Destination Name" alert is presented. */
    var newDestination: bool
    /** The alert's text field. */
    var destinationName: string
    /** The navigation stack's path: the destinations navigated into. */
    var path: seq<Destination>

    ghost predicate Valid()
      reads this, store
    {
      store.Valid()
    }

    constructor (store: Store)
      requires store.Valid()
      ensures Valid() && this.store == store
      ensures !newDestination && destinationName == "" && path == []
    {
      this.store := store;
      newDestination := false;
      destinationName := "";
      path := [];
    }

    /** The toolbar's plus button toggles the alert. */
    method PlusPressed()
      requires Valid()
      modifies this
      ensures Valid()
      ensures newDestination == !old(newDestination)
      ensures destinationName == old(destinationName) && path == old(path)
    {
      newDestination := !newDestination;
    }

    /** The alert's "OK" button: with a non-empty name (no trimming: a name of
        blanks is accepted) create a destination with default viewport, insert
        it, clear the text field and navigate into the new destination; with an
        empty name do nothing. `created` names the new destination. */
    method OkPressed() returns (ghost created: Option<Destination>)
      requires Valid()
      modifies this, store
      ensures Valid() && newDestination == old(newDestination)
      ensures store.placemarks == old(store.placemarks)
      ensures old(destinationName) == "" ==>
        created == None && destinationName == "" && path == old(path) &&
        store.destinations == old(store.destinations)
      ensures old(destinationName) != "" ==>
        created.Some? && fresh(created.value) &&
        created.value.name == old(destinationName) && created.value.Region() == None &&
        store.destinations == old(store.destinations) + [created.value] &&
        destinationName == "" && path == old(path) + [created.value]
    {
      created := None;
      if destinationName != "" {
        var destination := new Destination(destinationName);
        store.InsertDestination(destination);
        destinationName := "";
        path := path + [destination];
        created := Some(destination);
      }
    }

    /** The alert's "Cancel" button clears the text field. */
    method CancelPressed()
      requires Valid()
      modifies this
      ensures Valid() && newDestination == old(newDestination)
      ensures destinationName == "" && path == old(path)
    {
      destinationName := "";
    }

    /** The row's swipe action deletes that destination from the store; the
        other destinations remain, in order. */
    method SwipeDelete(destination: Destination)
      requires Valid()
      modifies store
      ensures Valid()
      ensures store.placemarks == old(store.placemarks)
      ensures store.destinations == Without(old(store.destinations), destination)
      ensures destination !in store.destinations
      ensures destination in old(store.destinations) ==>
        |store.destinations| == |old(store.destinations)| - 1
      ensures forall k :: 0 <= k < |old(store.destinations)| && old(store.destinations)[k] == destination ==>
        store.destinations == old(store.destinations)[..k] + old(store.destinations)[k + 1..]
    {
      store.DeleteDestination(destination);
    }
  }

  /** Pressing the plus button twice restores the alert flag. */
  method PlusPressedTwice(view: DestinationList)
    requires view.Valid()
    modifies view
    ensures view.Valid() && view.newDestination == old(view.newDestination)
    ensures view.destinationName == old(view.destinationName) && view.path == old(view.path)
  {
    view.PlusPressed();
    view.PlusPressed();
  }
}
