/** One priced, dated, directed leg between two airports. */
module FlightSegments {
  import opened Wrappers

  /** A fare for one leg. `date` is a day number (the proleptic Gregorian ordinal
      Python's `date.toordinal()` gives, so that adding a day is `+ 1`). The record is
      a value: overriding its date makes a new segment. */
  datatype FlightSegment = FlightSegment(
    fromAirport: string,
    toAirport: string,
    price: int,
    provider: string,
    date: int,
    flightNumber: Option<string>,
    departureTime: Option<string>,
    arrivalTime: Option<string>)

  function Price(s: FlightSegment): int { s.price }
}
