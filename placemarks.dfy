/** The Placemark entity (LookAround/Models/MTPlacemark.swift): a point of interest
    with a name, an address and a coordinate, optionally attached to a destination.
    A placemark with no destination is a transient search result. */
module Placemarks {
  import opened Geo
  import opened Destinations

  class Placemark {
    var name: string
    var address: string
    var latitude: Degrees
    var longitude: Degrees
    var destination: Destination?

    /** The initialiser takes no destination: a new placemark is unattached. */
    constructor (name: string, address: string, latitude: Degrees, longitude: Degrees)
      ensures this.name == name && this.address == address
      ensures this.latitude == latitude && this.longitude == longitude
      ensures destination == null && IsSearchResult()
    {
      this.name := name;
      this.address := address;
      this.latitude := latitude;
      this.longitude := longitude;
      this.destination := null;
    }

    /** The `destination == nil` test of the search-result predicate. */
    predicate IsSearchResult(): (r: bool)
      reads this
      ensures r <==> destination == null
    {
      destination == null
    }
  }
}
