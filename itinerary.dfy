/** Search request, itinerary and response records, and the route-pattern strings. */
module Itineraries {
  import opened Wrappers
  import opened Strings
  import opened FlightSegments

  /** A search for a round trip from `departure` to `destination`, leaving on a day of
      `startDate..endDate`, for `tripNights` nights (absent: the default applies). */
  datatype SearchRequest = SearchRequest(
    departure: string,
    destination: string,
    startDate: int,
    endDate: int,
    tripNights: Option<int>)

  /** The request validator admits only airport codes of exactly three characters. */
  predicate ValidSearchRequest(r: SearchRequest) {
    |r.departure| == 3 && |r.destination| == 3
  }

  datatype Itinerary = Itinerary(segments: seq<FlightSegment>, totalCost: int)

  datatype SearchResponse = SearchResponse(
    totalCost: int,
    segments: seq<FlightSegment>,
    routePattern: string,
    cheaperThanDirect: bool,
    directCost: Option<int>)

  /** The separator of a route pattern: space, RIGHTWARDS ARROW (U+2192), space. */
  const ARROW: string := " → "

  /** The airports an itinerary visits: every segment's origin, then the last
      segment's destination. */
  function RouteAirports(segments: seq<FlightSegment>): (r: seq<string>)
    ensures |r| == if segments == [] then 0 else |segments| + 1
    ensures forall i :: 0 <= i < |segments| ==> r[i] == segments[i].fromAirport
    ensures segments != [] ==> r[|segments|] == segments[|segments| - 1].toAirport
  {
    var origins := seq(|segments|, i requires 0 <= i < |segments| => segments[i].fromAirport);
    if segments == [] then origins else origins + [segments[|segments| - 1].toAirport]
  }

  lemma {:induction false} JoinNonEmpty(parts: seq<string>, sep: string)
    requires |parts| >= 2 && sep != ""
    ensures Join(parts, sep) != ""
  {
    assert |Join(parts, sep)| >= |sep|;
  }

  /** The route pattern: the visited airports joined by arrows; empty for an itinerary
      without segments. */
  function GetRoutePattern(it: Itinerary): (r: string)
    ensures r == "" <==> it.segments == []
  {
    var airports := RouteAirports(it.segments);
    if it.segments == [] then Join(airports, ARROW)
    else JoinNonEmpty(airports, ARROW); Join(airports, ARROW)
  }

  /** No airport code contains the arrow character. */
  predicate ArrowFree(parts: seq<string>) {
    forall i :: 0 <= i < |parts| ==> Count(parts[i], '→') == 0
  }

  lemma {:induction false} JoinArrowCount(parts: seq<string>)
    requires |parts| >= 1 && ArrowFree(parts)
    ensures Count(Join(parts, ARROW), '→') == |parts| - 1
  {
    if |parts| > 1 {
      var init := parts[..|parts| - 1];
      assert ArrowFree(init) by {
        forall i | 0 <= i < |init| ensures Count(init[i], '→') == 0 { assert init[i] == parts[i]; }
      }
      JoinArrowCount(init);
      CountAppend(Join(init, ARROW), ARROW, '→');
      CountAppend(Join(init, ARROW) + ARROW, parts[|parts| - 1], '→');
      assert Count(ARROW, '→') == 1 by {
        assert ARROW[1..][1..][1..] == [];
      }
    }
  }

  /** A pattern of an itinerary with n segments names n + 1 airports: it holds n arrows
      when no code contains one. */
  lemma RoutePatternHasOneArrowPerSegment(it: Itinerary)
    requires forall s :: s in it.segments ==> Count(s.fromAirport, '→') == 0 && Count(s.toAirport, '→') == 0
    ensures Count(GetRoutePattern(it), '→') == |it.segments|
  {
    var airports := RouteAirports(it.segments);
    if it.segments != [] {
      assert ArrowFree(airports) by {
        forall i | 0 <= i < |airports| ensures Count(airports[i], '→') == 0 {
          if i < |it.segments| { assert it.segments[i] in it.segments; }
          else { assert it.segments[|it.segments| - 1] in it.segments; }
        }
      }
      JoinArrowCount(airports);
    }
  }

  /** The pattern of the direct round trip, used when only the direct fare is known. */
  function GetDirectRoutePattern(departure: string, destination: string): (r: string)
    ensures r == Join([departure, destination, departure], ARROW)
  {
    var parts := [departure, destination, departure];
    assert parts[..2] == [departure, destination] && parts[..2][..1] == [departure];
    assert Join(parts[..2], ARROW) == departure + ARROW + destination;
    assert Join(parts, ARROW) == Join(parts[..2], ARROW) + ARROW + departure;
    departure + ARROW + destination + ARROW + departure
  }

  /** The direct pattern is the route pattern of the out-and-back itinerary. */
  lemma DirectPatternIsRoundTripPattern(outbound: FlightSegment, inbound: FlightSegment, cost: int)
    requires inbound.fromAirport == outbound.toAirport && inbound.toAirport == outbound.fromAirport
    ensures GetRoutePattern(Itinerary([outbound, inbound], cost))
      == GetDirectRoutePattern(outbound.fromAirport, outbound.toAirport)
  {
    var airports := RouteAirports([outbound, inbound]);
    assert airports[0] == outbound.fromAirport && airports[1] == inbound.fromAirport;
    assert airports == [outbound.fromAirport, outbound.toAirport, outbound.fromAirport];
  }
}
