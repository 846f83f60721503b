/** The search-result lifecycle (LookAround/Services/MapManager.swift): transient
    placemarks are those with no destination; a search first deletes them, then
    inserts one new transient placemark per result of the place-search provider.
    The provider is not called: its results are an input, and a failed or empty
    search is the empty sequence. */
module MapManager {
  import opened Wrappers
  import opened Geo
  import opened Placemarks
  import opened Persistence

  /** One result of the place-search provider (an `MKMapItem`'s placemark). */
  datatype MapItem = MapItem(name: Option<string>, title: Option<string>, coordinate: Coordinate)

  /** What the place-search request carries: the query text and an optional bias region. */
  datatype SearchRequest = SearchRequest(naturalLanguageQuery: string, region: Option<CoordinateRegion>)

  /** The placemarks of `ps` that are search results (`searchResults`) or that are
      attached to a destination (`!searchResults`), in their order in `ps`. */
  function Select(ps: seq<Placemark>, searchResults: bool): (r: seq<Placemark>)
    reads ps
    ensures |r| <= |ps|
    ensures forall p :: p in r ==> p in ps && p.IsSearchResult() == searchResults
  {
    if ps == [] then []
    else
      var last := ps[|ps| - 1];
      Select(ps[..|ps| - 1], searchResults) + (if last.IsSearchResult() == searchResults then [last] else [])
  }

  /** The transient placemarks: those matched by the `destination == nil` predicate. */
  function SearchResults(ps: seq<Placemark>): seq<Placemark>
    reads ps
  {
    Select(ps, true)
  }

  /** The placemarks attached to some destination. */
  function Attached(ps: seq<Placemark>): seq<Placemark>
    reads ps
  {
    Select(ps, false)
  }

  /** Every placemark of the selected kind is selected. */
  lemma {:induction false} SelectKeeps(ps: seq<Placemark>, searchResults: bool, p: Placemark)
    ensures p in ps && p.IsSearchResult() == searchResults ==> p in Select(ps, searchResults)
  {
    if ps != [] && p != ps[|ps| - 1] && p in ps {
      var ps' := ps[..|ps| - 1];
      assert ps == ps' + [ps[|ps| - 1]];
      SelectKeeps(ps', searchResults, p);
    }
  }

  /** Selecting from a concatenation selects from each part, keeping the order. */
  lemma {:induction false} SelectConcat(a: seq<Placemark>, b: seq<Placemark>, searchResults: bool)
    ensures Select(a + b, searchResults) == Select(a, searchResults) + Select(b, searchResults)
  {
    if b == [] {
      assert a + b == a;
    } else {
      var b' := b[..|b| - 1];
      assert (a + b)[..|a + b| - 1] == a + b';
      assert (a + b)[|a + b| - 1] == b[|b| - 1];
      SelectConcat(a, b', searchResults);
    }
  }

  /** When every placemark is of the selected kind, selection keeps them all and
      selecting the other kind keeps none. */
  lemma {:induction false} SelectUniform(ps: seq<Placemark>, searchResults: bool)
    requires forall i :: 0 <= i < |ps| ==> ps[i].IsSearchResult() == searchResults
    ensures Select(ps, searchResults) == ps
    ensures Select(ps, !searchResults) == []
  {
    if ps != [] {
      var ps', last := ps[..|ps| - 1], ps[|ps| - 1];
      SelectUniform(ps', searchResults);
      assert Select(ps, searchResults) == Select(ps', searchResults) + [last];
      assert Select(ps, !searchResults) == Select(ps', !searchResults);
      assert ps' + [last] == ps;
    }
  }

  /** Selecting twice is selecting once; what is selected has nothing of the other kind. */
  lemma SelectIdempotent(ps: seq<Placemark>, searchResults: bool)
    ensures Select(Select(ps, searchResults), searchResults) == Select(ps, searchResults)
    ensures Select(Select(ps, searchResults), !searchResults) == []
  {
    SelectUniform(Select(ps, searchResults), searchResults);
  }

  /** A store with no search results is a store whose placemarks are all attached. */
  lemma NoSearchResultsAllAttached(ps: seq<Placemark>)
    requires SearchResults(ps) == []
    ensures Attached(ps) == ps
  {
    forall p | p in ps ensures !p.IsSearchResult() {
      SelectKeeps(ps, true, p);
    }
    SelectUniform(ps, false);
  }

  /** Selection keeps a sequence without repetitions free of repetitions. */
  lemma {:induction false} SelectDistinct(ps: seq<Placemark>, searchResults: bool)
    requires Distinct(ps)
    ensures Distinct(Select(ps, searchResults))
  {
    if ps != [] {
      var ps' := ps[..|ps| - 1];
      var last := ps[|ps| - 1];
      assert Distinct(ps') by {
        forall i, j | 0 <= i < j < |ps'| ensures ps'[i] != ps'[j] { assert ps'[i] == ps[i] && ps'[j] == ps[j]; }
      }
      SelectDistinct(ps', searchResults);
      assert last !in ps' by {
        forall i | 0 <= i < |ps'| ensures ps'[i] != last { assert ps'[i] == ps[i]; }
      }
      var s' := Select(ps', searchResults);
      assert last !in s';
      var r := Select(ps, searchResults);
      forall i, j | 0 <= i < j < |r| ensures r[i] != r[j] {
        if j >= |s'| {
          assert r[i] in s';
        }
      }
    }
  }

  /** Appending search results to a store that holds none: they become exactly
      the store's search results, and the attached placemarks stay as they were. */
  lemma AppendSearchResults(kept: seq<Placemark>, added: seq<Placemark>)
    requires SearchResults(kept) == []
    requires forall i :: 0 <= i < |added| ==> added[i].IsSearchResult()
    ensures SearchResults(kept + added) == added
    ensures Attached(kept + added) == kept
  {
    NoSearchResultsAllAttached(kept);
    SelectUniform(added, true);
    SelectConcat(kept, added, true);
    SelectConcat(kept, added, false);
  }

  /** The rows that survive the store's predicate delete with the predicate
      `destination == nil`: the attached placemarks, in order. */
  method KeepAttached(ps: seq<Placemark>) returns (kept: seq<Placemark>)
    ensures kept == Attached(ps)
  {
    kept := [];
    var i := 0;
    while i < |ps|
      invariant 0 <= i <= |ps|
      invariant kept == Attached(ps[..i])
    {
      assert ps[..i + 1][..i] == ps[..i];
      if !ps[i].IsSearchResult() {
        kept := kept + [ps[i]];
      }
      i := i + 1;
    }
    assert ps[..|ps|] == ps;
  }

  /** `removeSearchResults`: delete every placemark whose destination is nil. */
  method RemoveSearchResults(store: Store)
    requires store.Valid()
    modifies store
    ensures store.Valid() && store.destinations == old(store.destinations)
    ensures store.placemarks == old(Attached(store.placemarks))
    ensures SearchResults(store.placemarks) == []
    ensures old(SearchResults(store.placemarks)) == [] ==> store.placemarks == old(store.placemarks)
  {
    var ps := store.placemarks;
    var kept := KeepAttached(ps);
    SelectDistinct(ps, false);
    SelectIdempotent(ps, false);
    if SearchResults(ps) == [] {
      NoSearchResultsAllAttached(ps);
    }
    store.placemarks := kept;
  }

  /** The request built before calling the provider: the query is the search
      text, and the region is set exactly when a visible region is known. */
  method BuildRequest(searchText: string, visibleRegion: Option<CoordinateRegion>)
    returns (request: SearchRequest)
    ensures request.naturalLanguageQuery == searchText
    ensures request.region.Some? <==> visibleRegion.Some?
    ensures visibleRegion.Some? ==> request.region == visibleRegion
  {
    request := SearchRequest("", None);
    request := request.(naturalLanguageQuery := searchText);
    if visibleRegion.Some? {
      request := request.(region := visibleRegion);
    }
  }

  /** The placemark built for one provider result: missing name and title become
      the empty string, the coordinate is copied, and no destination is set. */
  ghost predicate BuiltFrom(p: Placemark, item: MapItem)
    reads p
  {
    p.name == item.name.GetOr("") && p.address == item.title.GetOr("") &&
    p.latitude == item.coordinate.latitude && p.longitude == item.coordinate.longitude &&
    p.IsSearchResult()
  }

  /** The `forEach` over the provider results: one new placemark per result,
      inserted in result order. */
  method InsertResults(store: Store, items: seq<MapItem>) returns (ghost added: seq<Placemark>)
    requires store.Valid()
    modifies store
    ensures store.Valid() && store.destinations == old(store.destinations)
    ensures store.placemarks == old(store.placemarks) + added
    ensures |added| == |items|
    ensures forall j :: 0 <= j < |added| ==> fresh(added[j]) && BuiltFrom(added[j], items[j])
  {
    added := [];
    for i := 0 to |items|
      invariant store.Valid() && store.destinations == old(store.destinations)
      invariant store.placemarks == old(store.placemarks) + added
      invariant |added| == i
      invariant forall j :: 0 <= j < i ==> fresh(added[j]) && BuiltFrom(added[j], items[j])
    {
      var item := items[i];
      var p := new Placemark(item.name.GetOr(""), item.title.GetOr(""),
                             item.coordinate.latitude, item.coordinate.longitude);
      store.InsertPlacemark(p);
      added := added + [p];
    }
  }

  /** `searchPlaces`: clear the previous search results, build the request, then
      insert one new transient placemark per provider result, in result order.
      `added` names the inserted placemarks. */
  method SearchPlaces(store: Store, searchText: string, visibleRegion: Option<CoordinateRegion>,
                      items: seq<MapItem>)
    returns (request: SearchRequest, ghost added: seq<Placemark>)
    requires store.Valid()
    modifies store
    ensures store.Valid() && store.destinations == old(store.destinations)
    ensures request.naturalLanguageQuery == searchText
    ensures request.region.Some? <==> visibleRegion.Some?
    ensures visibleRegion.Some? ==> request.region == visibleRegion
    ensures store.placemarks == old(Attached(store.placemarks)) + added
    ensures |added| == |items|
    ensures forall j :: 0 <= j < |added| ==> fresh(added[j]) && BuiltFrom(added[j], items[j])
    ensures SearchResults(store.placemarks) == added
    ensures Attached(store.placemarks) == old(Attached(store.placemarks))
  {
    RemoveSearchResults(store);
    ghost var kept := store.placemarks;
    request := BuildRequest(searchText, visibleRegion);
    added := InsertResults(store, items);
    assert SearchResults(kept) == [];
    AppendSearchResults(kept, added);
  }
}
