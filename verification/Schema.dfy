/** The records the services exchange. `float64` is an exact real and `time.Time` an integer:
    the nanoseconds since Go's zero time, so that a record built without a time has time 0. */
module Schema {
  type Time = int

  const ZERO_TIME: Time := 0

  datatype Coord = Coord(x: real, y: real, time: Time)

  datatype Polygon = Polygon(coords: seq<Coord>, runner: string, time: Time)

  datatype LiveLine = LiveLine(x: real, y: real, time: Time, sender: string, groupCode: string)

  /** Equality of coordinates; the time stamps may differ. */
  predicate SamePlace(p: Coord, q: Coord) {
    p.x == q.x && p.y == q.y
  }
}
