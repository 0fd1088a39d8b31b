/** Geographic coordinates shared by the backend and the anomaly detector. */
module Geo {
  /** A (latitude, longitude) pair in degrees. */
  datatype Coord = Coord(lat: real, lon: real)

  /** A great-circle distance `(lat1, lon1, lat2, lon2) -> distance`. Both programs
      use the haversine formula (kilometres in the backend, metres in the detector);
      the trigonometry is not modelled, so operations take the function as a parameter. */
  type DistanceFn = (real, real, real, real) -> real
}
