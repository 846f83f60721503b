/** The Destination entity (LookAround/Models/Destinations.swift): a name and an
    optional persisted map viewport given by four optional numbers. */
module Destinations {
  import opened Wrappers
  import opened Geo

  /** The derived viewport: present exactly when all four stored fields are. */
  function RegionFrom(latitude: Option<Degrees>, longitude: Option<Degrees>,
                      latitudeDelta: Option<Degrees>, longitudeDelta: Option<Degrees>)
    : (r: Option<CoordinateRegion>)
    ensures r.Some? <==>
      latitude.Some? && longitude.Some? && latitudeDelta.Some? && longitudeDelta.Some?
    ensures r.Some? ==>
      r.value.center.latitude == latitude.value && r.value.center.longitude == longitude.value &&
      r.value.span.latitudeDelta == latitudeDelta.value && r.value.span.longitudeDelta == longitudeDelta.value
  {
    match (latitude, longitude, latitudeDelta, longitudeDelta)
    case (Some(lat), Some(lon), Some(dLat), Some(dLon)) =>
      Some(CoordinateRegion(Coordinate(lat, lon), Span(dLat, dLon)))
    case _ => None
  }

  /** Storing the four components of a region and deriving the region again gives it back. */
  lemma RegionRoundTrip(r: CoordinateRegion)
    ensures RegionFrom(Some(r.center.latitude), Some(r.center.longitude),
                       Some(r.span.latitudeDelta), Some(r.span.longitudeDelta)) == Some(r)
  {
  }

  /** A derived region determines the four stored fields. */
  lemma RegionDeterminesFields(latitude: Option<Degrees>, longitude: Option<Degrees>,
                               latitudeDelta: Option<Degrees>, longitudeDelta: Option<Degrees>,
                               r: CoordinateRegion)
    requires RegionFrom(latitude, longitude, latitudeDelta, longitudeDelta) == Some(r)
    ensures latitude == Some(r.center.latitude) && longitude == Some(r.center.longitude)
    ensures latitudeDelta == Some(r.span.latitudeDelta) && longitudeDelta == Some(r.span.longitudeDelta)
  {
  }

  class Destination {
    var name: string
    var latitude: Option<Degrees>
    var longitude: Option<Degrees>
    var latitudeDelta: Option<Degrees>
    var longitudeDelta: Option<Degrees>

    /** The viewport fields default to absent, as in `Destination(name:)`. */
    constructor (name: string, latitude: Option<Degrees> := None, longitude: Option<Degrees> := None,
                 latitudeDelta: Option<Degrees> := None, longitudeDelta: Option<Degrees> := None)
      ensures this.name == name
      ensures this.latitude == latitude && this.longitude == longitude
      ensures this.latitudeDelta == latitudeDelta && this.longitudeDelta == longitudeDelta
      ensures Region().Some? <==>
        latitude.Some? && longitude.Some? && latitudeDelta.Some? && longitudeDelta.Some?
    {
      this.name := name;
      this.latitude := latitude;
      this.longitude := longitude;
      this.latitudeDelta := latitudeDelta;
      this.longitudeDelta := longitudeDelta;
    }

    /** The computed `region` property. */
    function Region(): (r: Option<CoordinateRegion>)
      reads this
      ensures r.Some? <==>
        latitude.Some? && longitude.Some? && latitudeDelta.Some? && longitudeDelta.Some?
      ensures r.Some? ==>
        r.value.center == Coordinate(latitude.value, longitude.value) &&
        r.value.span == Span(latitudeDelta.value, longitudeDelta.value)
    {
      RegionFrom(latitude, longitude, latitudeDelta, longitudeDelta)
    }
  }
}
