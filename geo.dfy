/** Map coordinates and regions (MapKit's CLLocationCoordinate2D, MKCoordinateSpan
    and MKCoordinateRegion). The core only ever copies latitudes, longitudes and
    deltas, it never computes on them, so an integer stands for Swift's Double. */
module Geo {

  type Degrees = int

  datatype Coordinate = Coordinate(latitude: Degrees, longitude: Degrees)

  datatype Span = Span(latitudeDelta: Degrees, longitudeDelta: Degrees)

  datatype CoordinateRegion = CoordinateRegion(center: Coordinate, span: Span)
}
