# LookAround store core, modelled in Dafny

LookAround is an iOS trip planner. Users create named destinations, search
for places on a map and keep the places they find as placemarks. Under the
SwiftUI views there is a small core that works on the app's store. This
project models that core:

- **Placemark** (`Placemarks.Placemark`): name, address, latitude, longitude
  and an optional destination. A placemark without a destination is a
  transient search result.
- **Destination** (`Destinations.Destination`): a name plus four optional
  viewport numbers. The derived `Region()` exists only when all four are set.
- **Store** (`Persistence.Store`): the shared model context. It holds a
  sequence of placemark objects and a sequence of destination objects, and
  identity is object identity. Inserting an object the store already holds
  changes nothing.
- **Search-result lifecycle** (module `MapManager`):
  - `RemoveSearchResults` deletes every placemark whose destination is nil.
  - `SearchPlaces` first clears those. It then builds the request and
    inserts one new unattached placemark per provider result, in order.
  - The place-search provider is an input sequence of `MapItem`s. A failed
    or empty search is the empty sequence.
- **Destination list handlers** (`DestinationListView.DestinationList`): the
  plus button, the alert's "OK" and "Cancel" buttons and the swipe-delete
  action. They work on the view's state (alert flag, name buffer,
  navigation path) and on the store.

The source uses two names for each entity. It says both `Destinations` and
`Destination`, and both `MTPlacemark` and `LOPlacemark` (or `LAPlacemark`). The
model has one `Destination` and one `Placemark`. `MTPlacemark.destination` is
declared non-optional (LookAround/Models/MTPlacemark.swift:17). Yet the
initialiser never sets it, and the search-result predicate compares it with
`nil`. So the model makes it an optional reference that a new placemark
leaves null.

The "OK" handler tests the name with `isEmpty`, with no trimming, so a name
of only blanks creates a destination. The model follows the code here.

Latitudes, longitudes and deltas are only ever copied, never computed on, so
`Geo.Degrees` is an integer that stands for Swift's `Double`.

## Model

| member | source | states |
|---|---|---|
| `Destinations.RegionFrom` | LookAround/Models/Destinations.swift:27-36 | the region is present iff latitude, longitude, latitudeDelta and longitudeDelta are all present; if any one is nil there is no region; when present, its center is (latitude, longitude) and its span is (latitudeDelta, longitudeDelta), copied unchanged |
| `Destinations.RegionRoundTrip` | LookAround/Models/Destinations.swift:28-32 | storing a region's four components and deriving the region again gives back the same region |
| `Destinations.RegionDeterminesFields` | LookAround/Models/Destinations.swift:28-31 | a derived region fixes all four stored fields, each to the matching component |
| `Destinations.Destination.constructor` | LookAround/Models/Destinations.swift:19-25 | stores the name and the four optional fields exactly as given; the region exists iff all four are given, so `Destination(name:)` with the defaults has no region |
| `Destinations.Destination.Region` | LookAround/Models/Destinations.swift:27-36 | the computed `region` of a destination is present iff its four stored fields are all present; then its center is (latitude, longitude) and its span is (latitudeDelta, longitudeDelta), copied from the fields |
| `Placemarks.Placemark.IsSearchResult` | LookAround/Services/MapManager.swift:36 | the search-result predicate holds exactly when the placemark's destination is nil |
| `Placemarks.Placemark.constructor` | LookAround/Models/MTPlacemark.swift:19-24 | stores name, address, latitude and longitude exactly as given; takes no destination, so the new placemark is unattached and is matched by the search-result predicate |
| `Persistence.Without` | LookAround/DestinationTab/DestinationListView.swift:37 | deleting an object keeps exactly the elements that differ from it; deleting an absent object changes nothing |
| `Persistence.WithoutAt` | LookAround/DestinationTab/DestinationListView.swift:37 | in a store without duplicates, deleting the object at position k removes that position only and keeps every other element in order; the count drops by one |
| `Persistence.WithoutDistinct` | LookAround/DestinationTab/DestinationListView.swift:37 | deleting keeps the store free of duplicates |
| `Persistence.Store.InsertPlacemark` | LookAround/Services/MapManager.swift:31 | inserting a new placemark appends it; inserting one already held changes nothing; destinations are unchanged |
| `Persistence.Store.InsertDestination` | LookAround/DestinationTab/DestinationListView.swift:71 | inserting a new destination appends it; inserting one already held changes nothing; placemarks are unchanged |
| `Persistence.Store.DeleteDestination` | LookAround/DestinationTab/DestinationListView.swift:37 | the destinations afterwards are the old ones without the deleted one; if it was present at position k, exactly that position is removed and the others keep their order, so the count drops by one; placemarks are unchanged |
| `MapManager.Select` | LookAround/Services/MapManager.swift:36 | everything selected comes from the input and has the selected kind (destination nil, or set); the result is no longer than the input |
| `MapManager.SelectKeeps` | LookAround/Services/MapManager.swift:36 | every placemark of the selected kind is selected |
| `MapManager.SelectConcat` | LookAround/Services/MapManager.swift:36-37 | selecting from a concatenation selects from each part in turn, so relative order is kept |
| `MapManager.SelectUniform` | LookAround/Services/MapManager.swift:36-37 | if every placemark has the selected kind, selection keeps them all and selecting the other kind keeps none |
| `MapManager.SelectIdempotent` | LookAround/Services/MapManager.swift:35-37 | selecting twice equals selecting once, and a selection has no placemark of the other kind |
| `MapManager.NoSearchResultsAllAttached` | LookAround/Services/MapManager.swift:35-37 | a store with no search results keeps all its placemarks when search results are removed |
| `MapManager.SelectDistinct` | LookAround/Services/MapManager.swift:37 | selection keeps a store without duplicates free of duplicates |
| `MapManager.AppendSearchResults` | LookAround/Services/MapManager.swift:24-32 | appending unattached placemarks to a store with no search results makes them exactly its search results and leaves its attached placemarks as they were |
| `MapManager.KeepAttached` | LookAround/Services/MapManager.swift:36-37 | the loop returns exactly the attached placemarks of the input, in their order |
| `MapManager.RemoveSearchResults` | LookAround/Services/MapManager.swift:35-38 | afterwards no placemark has a nil destination; the placemarks are the old attached ones, unchanged and in their old order; destinations are untouched; a second call changes nothing |
| `MapManager.BuildRequest` | LookAround/Services/MapManager.swift:15-20 | the query is always the search text; the region is set iff a visible region is known, and then equals it |
| `MapManager.InsertResults` | LookAround/Services/MapManager.swift:24-32 | appends one new placemark per provider result, in result order; each has the result's name or "", its title or "", its coordinate, and no destination |
| `MapManager.SearchPlaces` | LookAround/Services/MapManager.swift:13-33 | afterwards the store's unattached placemarks are exactly the ones built from this call's results, one per result and in order, so earlier results do not accumulate; with no results (failure) there are none; attached placemarks and destinations are untouched; the request is as `BuildRequest` states |
| `DestinationListView.DestinationList.constructor` | LookAround/DestinationTab/DestinationListView.swift:14-16 | the alert is off, the name buffer is empty and the path is empty |
| `DestinationListView.DestinationList.PlusPressed` | LookAround/DestinationTab/DestinationListView.swift:57-58 | toggles the alert flag and changes nothing else |
| `DestinationListView.DestinationList.OkPressed` | LookAround/DestinationTab/DestinationListView.swift:68-75 | with an empty name nothing changes; otherwise exactly one new destination with that name and no region is appended to the store, the name buffer becomes "", and the new destination is the last element of the path |
| `DestinationListView.DestinationList.CancelPressed` | LookAround/DestinationTab/DestinationListView.swift:77-79 | empties the name buffer and leaves the path and the store unchanged |
| `DestinationListView.DestinationList.SwipeDelete` | LookAround/DestinationTab/DestinationListView.swift:35-37 | removes exactly the chosen destination from the store; the others remain in their order; placemarks are untouched |
| `DestinationListView.PlusPressedTwice` | LookAround/DestinationTab/DestinationListView.swift:57-58 | pressing the plus button twice restores the alert flag |

## Left out

- The place search itself (`MKLocalSearch` and its network request). Its results are an input of `SearchPlaces`, and a thrown error (`try?`) is the empty input.
- `async` and `@MainActor`. A search's results could arrive after a later search has started, because no search is ever cancelled. The model runs each search to completion.
- The `try?` around the predicate delete: deleting from an in-memory store cannot fail.
- SwiftData mechanics (`@Model`, `@Query`, `#Predicate`, persistence). The store is an in-memory sequence in insertion order. The list's sort by name is not modelled, because Swift's string ordering is not part of the model.
- The default region of a fresh `MKLocalSearch.Request` is modelled as "no region".
- SwiftUI resets the alert's presentation flag when a button in it is tapped. That is framework behaviour, not code of the handlers, so the handlers leave `newDestination` as it was.
- The `placemarks` relationship of a destination is not declared in LookAround/Models/Destinations.swift. Among the modelled files only LookAround/DestinationTab/DestinationListView.swift:29 reads it, in the count text. LookAround/Shared Views/LocationDetailView.swift appends to it when a placemark is attached; that file is not part of this model.
- The delete rule of that relationship is not shown, so it is not modelled. `DeleteDestination` and `SwipeDelete` leave every placemark untouched. A placemark attached to the deleted destination then still points at an object that is no longer in the store's destinations. It is not a search result, so no later `RemoveSearchResults` removes it either.
- View layout and navigation chrome: the list rendering, `ContentUnavailableView`, the plural count text, LookAround/StartTab.swift, LookAround/LookAroundApp.swift and LookAround/DestinationTab/DestinationLocationsMapView.swift (a fixed camera region set on appear).
- LookAround/Shared Views/LocationDetailView.swift (the placemark detail editor) is not part of this model. Tap-to-place, attach/detach, region capture and look-around previews live outside the modelled files.
- Floating point: no arithmetic is done on coordinates, so they are integers here.
