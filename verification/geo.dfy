/**
 * The two coordinate records the app passes around: the platform's
 * `android.location.Location` (only latitude and longitude are ever read or
 * set) and the map widget's `GeoPoint`.
 */
module Geo {

  /** A `Location` built as `Location("")` with its two `Double` coordinates set. */
  datatype Location = Location(latitude: real, longitude: real)

  /** The map widget's point type. */
  datatype GeoPoint = GeoPoint(latitude: real, longitude: real)

  /** `GeoPoint(it.latitude, it.longitude)`. */
  function ToGeoPoint(l: Location): (g: GeoPoint)
    ensures g.latitude == l.latitude && g.longitude == l.longitude
  {
    GeoPoint(l.latitude, l.longitude)
  }

  /**
   * `Math.round(a.distanceTo(b))`: the platform's rounded geodesic distance in
   * metres. The app never computes it, so the model receives it as a parameter.
   */
  type Distance = (Location, Location) -> nat

  /**
   * `Double.toFloat()`: rounding a coordinate to single precision. The model
   * receives it as a parameter and relies on no property of it.
   */
  type Narrowing = real -> real
}
