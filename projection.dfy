/**
 * The values either script hands to geopy's geodesic projection. The
 * projection itself is not modelled.
 */
module Projection {

  /** The centre, the bearing in degrees and the distance in kilometres. */
  datatype Draw = Draw(latitude: real, longitude: real, bearing: real, distanceKm: real)
}
