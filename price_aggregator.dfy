/** The itinerary assembler: walks a template leg by leg with a date cursor, resolves
    each leg to a priced segment of the graph, and picks the cheapest itinerary. */
module PriceAggregation {
  import opened Wrappers
  import opened Strings
  import opened Order
  import opened FlightSegments
  import opened Graph
  import opened DateUtils
  import opened Itineraries

  /** No fare is negative. */
  predicate NonNegativeFares(segments: seq<FlightSegment>) {
    forall s :: s in segments ==> s.price >= 0
  }

  /** `sum(segment.price for segment in segments)`. */
  function CalculateTotalCost(segments: seq<FlightSegment>): (total: int)
    ensures segments == [] ==> total == 0
    ensures NonNegativeFares(segments) ==> total >= 0
  {
    if segments == [] then 0
    else
      assert NonNegativeFares(segments) ==> NonNegativeFares(segments[..|segments| - 1]) by {
        assert forall s :: s in segments[..|segments| - 1] ==> s in segments;
      }
      CalculateTotalCost(segments[..|segments| - 1]) + segments[|segments| - 1].price
  }

  /** The total is additive over a split of the segments. */
  lemma {:induction false} TotalCostAppend(a: seq<FlightSegment>, b: seq<FlightSegment>)
    ensures CalculateTotalCost(a + b) == CalculateTotalCost(a) + CalculateTotalCost(b)
  {
    if b != [] {
      var init := b[..|b| - 1];
      assert (a + b)[..|a + b| - 1] == a + init;
      TotalCostAppend(a, init);
    } else {
      assert a + b == a;
    }
  }

  /** The total of non-negative fares is at least each fare. */
  lemma {:induction false} TotalCostBounds(segments: seq<FlightSegment>, i: int)
    requires forall s :: s in segments ==> s.price >= 0
    requires 0 <= i < |segments|
    ensures segments[i].price <= CalculateTotalCost(segments)
  {
    var init := segments[..|segments| - 1];
    assert forall s :: s in init ==> s in segments;
    if i < |segments| - 1 {
      TotalCostBounds(init, i);
      assert segments[i] == init[i];
    } else if init != [] {
      TotalCostBounds(init, 0);
    }
  }

  function TotalCost(it: Itinerary): int { it.totalCost }

  /** `min(itineraries, key=total_cost)`: the first of the cheapest; none for no input. */
  function FindCheapestItinerary(itineraries: seq<Itinerary>): (r: Option<Itinerary>)
    ensures r.None? <==> itineraries == []
    ensures r.Some? ==> r.value in itineraries
    ensures r.Some? ==> forall it :: it in itineraries ==> r.value.totalCost <= it.totalCost
    ensures r.Some? ==> exists k ::
      0 <= k < |itineraries| && itineraries[k] == r.value && forall j :: 0 <= j < k ==> r.value.totalCost < itineraries[j].totalCost
  {
    if itineraries == [] then None
    else
      ArgMinSpec(itineraries, TotalCost);
      Some(itineraries[ArgMin(itineraries, TotalCost)])
  }

  /** An itinerary counts as cheaper than the direct fare when there is no direct fare
      (absent or zero) or its total is strictly lower. */
  function CompareWithDirect(itinerary: Itinerary, directCost: Option<int>): (r: bool)
    ensures directCost.None? || directCost.value == 0 ==> r
    ensures directCost.Some? && directCost.value != 0 ==> (r <==> itinerary.totalCost < directCost.value)
  {
    if directCost.None? || directCost.value == 0 then true
    else itinerary.totalCost < directCost.value
  }

  /** The segment a leg resolves to on `flightDate`: with strict matching the cheapest
      on exactly that day; otherwise that one, or failing it the cheapest on any day. */
  function ResolveLeg(g: EdgeMap, fromAirport: string, toAirport: string, flightDate: int, strict: bool): Option<FlightSegment> {
    if strict then CheapestStrict(g, fromAirport, toAirport, flightDate)
    else
      var onDay := Cheapest(g, fromAirport, toAirport, Some(flightDate));
      if onDay.Some? then onDay else Cheapest(g, fromAirport, toAirport, None)
  }

  /** The date cursor of leg `i`: it jumps to the return date after the leg reaching
      the destination, and otherwise moves on a day unless same-day transfers are on. */
  function LegDate(template: seq<string>, departureDate: int, returnDate: int, destination: string,
      allowSameDayTransfer: bool, i: nat): int
    requires 1 <= |template| && i <= |template| - 1
  {
    CursorAt(Arrivals(template), Upper(destination), departureDate, returnDate, allowSameDayTransfer, i)
  }

  /** The upper-cased airport each leg of the template arrives at. */
  function Arrivals(template: seq<string>): (r: seq<string>)
    requires 1 <= |template|
    ensures |r| == |template| - 1
    ensures forall i :: 0 <= i < |r| ==> r[i] == Upper(template[i + 1])
  {
    UpperAll(template[1..])
  }

  lemma LegDateStep(template: seq<string>, departureDate: int, returnDate: int, destination: string,
      allowSameDayTransfer: bool, i: nat)
    requires i < |template| - 1
    ensures LegDate(template, departureDate, returnDate, destination, allowSameDayTransfer, i + 1)
      == NextCursor(LegDate(template, departureDate, returnDate, destination, allowSameDayTransfer, i),
           Upper(template[i + 1]), Upper(destination), returnDate, allowSameDayTransfer)
  {
  }

  /** The date cursor of every leg of the template. */
  function LegDates(template: seq<string>, departureDate: int, returnDate: int, destination: string,
      allowSameDayTransfer: bool): (dates: seq<int>)
    requires 1 <= |template|
    ensures |dates| == |template| - 1
    ensures forall i :: 0 <= i < |dates| ==>
      dates[i] == LegDate(template, departureDate, returnDate, destination, allowSameDayTransfer, i)
  {
    seq(|template| - 1, i requires 0 <= i < |template| - 1 =>
      LegDate(template, departureDate, returnDate, destination, allowSameDayTransfer, i))
  }

  /** What every leg of the template resolves to on its cursor date. */
  function ResolvedLegs(g: EdgeMap, template: seq<string>, departureDate: int, returnDate: int, destination: string,
      allowSameDayTransfer: bool, strictDateMatch: bool): (legs: seq<Option<FlightSegment>>)
    requires 1 <= |template|
    ensures |legs| == |template| - 1
    ensures forall i :: 0 <= i < |legs| ==> legs[i] == ResolveLeg(g, Upper(template[i]), Upper(template[i + 1]),
      LegDate(template, departureDate, returnDate, destination, allowSameDayTransfer, i), strictDateMatch)
  {
    seq(|template| - 1, i requires 0 <= i < |template| - 1 =>
      ResolveLeg(g, Upper(template[i]), Upper(template[i + 1]),
        LegDate(template, departureDate, returnDate, destination, allowSameDayTransfer, i), strictDateMatch))
  }

  /** The first `n` resolved legs, each pinned to its date; none as soon as one leg is
      unresolved. */
  function Pinned(legs: seq<Option<FlightSegment>>, dates: seq<int>, n: nat): Option<seq<FlightSegment>>
    requires |legs| == |dates| && n <= |legs|
  {
    if n == 0 then Some([])
    else
      var prefix := Pinned(legs, dates, n - 1);
      if prefix.None? || legs[n - 1].None? then None
      else Some(prefix.value + [legs[n - 1].value.(date := dates[n - 1])])
  }

  lemma {:induction false} PinnedFailureStays(legs: seq<Option<FlightSegment>>, dates: seq<int>, n: nat, m: nat)
    requires |legs| == |dates| && n <= m <= |legs|
    requires Pinned(legs, dates, n).None?
    ensures Pinned(legs, dates, m).None?
    decreases m - n
  {
    if n < m {
      PinnedFailureStays(legs, dates, n + 1, m);
    }
  }

  /** What `build_itinerary_from_template` returns: none for a template of fewer than
      three airports or with an unresolved leg, otherwise the resolved segments pinned
      to their dates, and their total. */
  function Assembly(g: EdgeMap, template: seq<string>, departureDate: int, returnDate: int, destination: string,
      allowSameDayTransfer: bool, strictDateMatch: bool): Option<Itinerary>
  {
    if |template| < 3 then None
    else
      var legs := ResolvedLegs(g, template, departureDate, returnDate, destination, allowSameDayTransfer, strictDateMatch);
      var dates := LegDates(template, departureDate, returnDate, destination, allowSameDayTransfer);
      var segs := Pinned(legs, dates, |legs|);
      if segs.None? then None else Some(Itinerary(segs.value, CalculateTotalCost(segs.value)))
  }

  /** A prefix is assembled exactly when each of its legs resolved; it then holds each
      resolved segment, in leg order, with its date replaced by the leg's date. */
  lemma {:induction false} PinnedShape(legs: seq<Option<FlightSegment>>, dates: seq<int>, n: nat)
    requires |legs| == |dates| && n <= |legs|
    ensures Pinned(legs, dates, n).Some? <==> forall i :: 0 <= i < n ==> legs[i].Some?
    ensures Pinned(legs, dates, n).Some? ==>
      |Pinned(legs, dates, n).value| == n
      && forall i :: 0 <= i < n ==> Pinned(legs, dates, n).value[i] == legs[i].value.(date := dates[i])
  {
    if n > 0 {
      PinnedShape(legs, dates, n - 1);
    }
  }

  /** Assembly succeeds exactly for a template of at least three airports each of
      whose legs resolves on its cursor date. */
  lemma AssemblySucceedsIff(g: EdgeMap, template: seq<string>, departureDate: int, returnDate: int, destination: string,
      allowSameDayTransfer: bool, strictDateMatch: bool)
    ensures Assembly(g, template, departureDate, returnDate, destination, allowSameDayTransfer, strictDateMatch).Some?
      <==> |template| >= 3 && forall i :: 0 <= i < |template| - 1 ==>
             ResolveLeg(g, Upper(template[i]), Upper(template[i + 1]),
               LegDate(template, departureDate, returnDate, destination, allowSameDayTransfer, i), strictDateMatch).Some?
  {
    if |template| >= 3 {
      var legs := ResolvedLegs(g, template, departureDate, returnDate, destination, allowSameDayTransfer, strictDateMatch);
      PinnedShape(legs, LegDates(template, departureDate, returnDate, destination, allowSameDayTransfer), |legs|);
    }
  }

  /** An assembled itinerary has one segment per leg of a template of at least three
      airports, and its cost is the sum of the segment prices. */
  lemma AssembledItineraryShape(g: EdgeMap, template: seq<string>, departureDate: int, returnDate: int, destination: string,
      allowSameDayTransfer: bool, strictDateMatch: bool, it: Itinerary)
    requires Assembly(g, template, departureDate, returnDate, destination, allowSameDayTransfer, strictDateMatch) == Some(it)
    ensures |template| >= 3
    ensures |it.segments| == |template| - 1
    ensures it.totalCost == CalculateTotalCost(it.segments)
  {
    var legs := ResolvedLegs(g, template, departureDate, returnDate, destination, allowSameDayTransfer, strictDateMatch);
    PinnedShape(legs, LegDates(template, departureDate, returnDate, destination, allowSameDayTransfer), |legs|);
  }

  /** Segment i of an assembled itinerary is what leg i resolves to on its cursor date,
      with its date set to that cursor date. */
  lemma AssembledSegmentAt(g: EdgeMap, template: seq<string>, departureDate: int, returnDate: int, destination: string,
      allowSameDayTransfer: bool, strictDateMatch: bool, it: Itinerary, i: int)
    requires Assembly(g, template, departureDate, returnDate, destination, allowSameDayTransfer, strictDateMatch) == Some(it)
    requires 0 <= i < |template| - 1
    ensures |it.segments| == |template| - 1
    ensures ResolveLeg(g, Upper(template[i]), Upper(template[i + 1]),
      LegDate(template, departureDate, returnDate, destination, allowSameDayTransfer, i), strictDateMatch).Some?
    ensures it.segments[i] == ResolveLeg(g, Upper(template[i]), Upper(template[i + 1]),
      LegDate(template, departureDate, returnDate, destination, allowSameDayTransfer, i), strictDateMatch).value
      .(date := LegDate(template, departureDate, returnDate, destination, allowSameDayTransfer, i))
  {
    var legs := ResolvedLegs(g, template, departureDate, returnDate, destination, allowSameDayTransfer, strictDateMatch);
    var dates := LegDates(template, departureDate, returnDate, destination, allowSameDayTransfer);
    PinnedShape(legs, dates, |legs|);
    assert legs[i] == ResolveLeg(g, Upper(template[i]), Upper(template[i + 1]),
      LegDate(template, departureDate, returnDate, destination, allowSameDayTransfer, i), strictDateMatch);
    assert dates[i] == LegDate(template, departureDate, returnDate, destination, allowSameDayTransfer, i);
  }

  /** With strict date matching every assembled segment is a stored segment of its leg,
      unchanged, on exactly the leg's cursor date, and no dearer than any other stored
      segment of that leg on that date. */
  lemma StrictAssemblyUsesStoredSegments(g: EdgeMap, template: seq<string>, departureDate: int, returnDate: int,
      destination: string, allowSameDayTransfer: bool, it: Itinerary, i: int)
    requires Assembly(g, template, departureDate, returnDate, destination, allowSameDayTransfer, true) == Some(it)
    requires 0 <= i < |template| - 1
    ensures |it.segments| == |template| - 1
    ensures var stored := Lookup(g, Upper(template[i]), Upper(template[i + 1]));
      && it.segments[i] in stored
      && it.segments[i].date == LegDate(template, departureDate, returnDate, destination, allowSameDayTransfer, i)
      && forall s :: s in stored && s.date == it.segments[i].date ==> it.segments[i].price <= s.price
  {
    AssembledSegmentAt(g, template, departureDate, returnDate, destination, allowSameDayTransfer, true, it, i);
    var d := LegDate(template, departureDate, returnDate, destination, allowSameDayTransfer, i);
    UpperIdempotent(template[i]);
    UpperIdempotent(template[i + 1]);
    CheapestStrictSpec(g, Upper(template[i]), Upper(template[i + 1]), d);
  }

  /** Relaxed matching only adds a fallback: whenever strict assembly succeeds,
      relaxed assembly yields the very same itinerary. */
  lemma StrictSuccessImpliesRelaxedSame(g: EdgeMap, template: seq<string>, departureDate: int, returnDate: int,
      destination: string, allowSameDayTransfer: bool)
    requires Assembly(g, template, departureDate, returnDate, destination, allowSameDayTransfer, true).Some?
    ensures Assembly(g, template, departureDate, returnDate, destination, allowSameDayTransfer, false)
      == Assembly(g, template, departureDate, returnDate, destination, allowSameDayTransfer, true)
  {
    AssemblySucceedsIff(g, template, departureDate, returnDate, destination, allowSameDayTransfer, true);
    var strict := ResolvedLegs(g, template, departureDate, returnDate, destination, allowSameDayTransfer, true);
    var relaxed := ResolvedLegs(g, template, departureDate, returnDate, destination, allowSameDayTransfer, false);
    assert strict == relaxed;
  }

  /** In relaxed mode a leg resolves exactly when its pair has any stored segment. */
  lemma RelaxedLegResolvesIffEdge(g: EdgeMap, f: string, t: string, d: int)
    ensures ResolveLeg(g, f, t, d, false).Some? <==> Lookup(g, Upper(f), Upper(t)) != []
  {
    CheapestSpec(g, f, t, Some(d));
    CheapestSpec(g, f, t, None);
    SegmentsSpec(g, f, t, Some(d));
    SegmentsSpec(g, f, t, None);
  }

  /** Relaxed assembly succeeds exactly for a template of at least three airports all
      of whose legs are edges of the graph, whatever the dates. */
  lemma RelaxedAssemblySucceedsIffEdges(g: EdgeMap, template: seq<string>, departureDate: int, returnDate: int,
      destination: string, allowSameDayTransfer: bool)
    ensures Assembly(g, template, departureDate, returnDate, destination, allowSameDayTransfer, false).Some?
      <==> |template| >= 3 && forall i :: 0 <= i < |template| - 1 ==> Lookup(g, Upper(template[i]), Upper(template[i + 1])) != []
  {
    AssemblySucceedsIff(g, template, departureDate, returnDate, destination, allowSameDayTransfer, false);
    forall i | 0 <= i < |template| - 1
      ensures Lookup(g, Upper(template[i]), Upper(template[i + 1])) != [] <==>
        ResolveLeg(g, Upper(template[i]), Upper(template[i + 1]),
          LegDate(template, departureDate, returnDate, destination, allowSameDayTransfer, i), false).Some?
    {
      UpperIdempotent(template[i]);
      UpperIdempotent(template[i + 1]);
      RelaxedLegResolvesIffEdge(g, Upper(template[i]), Upper(template[i + 1]),
        LegDate(template, departureDate, returnDate, destination, allowSameDayTransfer, i));
    }
  }

  /** In a well-formed graph an assembled itinerary is a connected walk along the
      template: segment i runs from airport i to airport i + 1, up to case. */
  lemma AssembledSegmentsFollowTemplate(g: EdgeMap, template: seq<string>, departureDate: int, returnDate: int,
      destination: string, allowSameDayTransfer: bool, strictDateMatch: bool, it: Itinerary, i: int)
    requires WellFormed(g)
    requires Assembly(g, template, departureDate, returnDate, destination, allowSameDayTransfer, strictDateMatch) == Some(it)
    requires 0 <= i < |template| - 1
    ensures |it.segments| == |template| - 1
    ensures Upper(it.segments[i].fromAirport) == Upper(template[i])
    ensures Upper(it.segments[i].toAirport) == Upper(template[i + 1])
    ensures it.segments[i].fromAirport != "" && it.segments[i].toAirport != ""
  {
    AssembledSegmentAt(g, template, departureDate, returnDate, destination, allowSameDayTransfer, strictDateMatch, it, i);
    var f, t := Upper(template[i]), Upper(template[i + 1]);
    var d := LegDate(template, departureDate, returnDate, destination, allowSameDayTransfer, i);
    var leg := ResolveLeg(g, f, t, d, strictDateMatch).value;
    assert it.segments[i] == leg.(date := d);
    UpperIdempotent(template[i]);
    UpperIdempotent(template[i + 1]);
    CheapestSpec(g, f, t, Some(d));
    CheapestSpec(g, f, t, None);
    if strictDateMatch || Cheapest(g, f, t, Some(d)).Some? {
      SegmentsRunBetween(g, f, t, Some(d), leg);
    } else {
      SegmentsRunBetween(g, f, t, None, leg);
    }
  }

  /** When the destination is reached exactly once, at leg k, the outbound segments
      fall on consecutive days from the departure date (all on it with same-day
      transfers) and the remaining ones likewise from the return date. */
  lemma AssembledDatesOutboundThenInbound(g: EdgeMap, template: seq<string>, departureDate: int, returnDate: int,
      destination: string, allowSameDayTransfer: bool, strictDateMatch: bool, it: Itinerary, k: nat, i: nat)
    requires Assembly(g, template, departureDate, returnDate, destination, allowSameDayTransfer, strictDateMatch) == Some(it)
    requires k < |template| - 1 && Upper(template[k + 1]) == Upper(destination)
    requires forall j :: 1 <= j < |template| && j != k + 1 ==> Upper(template[j]) != Upper(destination)
    requires i < |template| - 1
    ensures |it.segments| == |template| - 1
    ensures it.segments[i].date == if i <= k then departureDate + Step(allowSameDayTransfer, i)
                                   else returnDate + Step(allowSameDayTransfer, i - k - 1)
  {
    AssembledSegmentAt(g, template, departureDate, returnDate, destination, allowSameDayTransfer, strictDateMatch, it, i);
    var arrivals := Arrivals(template);
    forall j | 0 <= j < |arrivals| && j != k ensures arrivals[j] != Upper(destination) {
      assert arrivals[j] == Upper(template[j + 1]);
    }
    CursorOutboundThenInbound(arrivals, Upper(destination), departureDate, returnDate, allowSameDayTransfer, k, i);
  }

  class PriceAggregator {
    const graph: FlightGraph

    constructor (graph: FlightGraph)
      ensures this.graph == graph
    {
      this.graph := graph;
    }

    method BuildItineraryFromTemplate(template: seq<string>, departureDate: int, returnDate: int, destination: string,
        allowSameDayTransfer: bool, strictDateMatch: bool)
      returns (r: Option<Itinerary>)
      ensures r == Assembly(graph.graph, template, departureDate, returnDate, destination, allowSameDayTransfer, strictDateMatch)
    {
      if |template| < 3 {
        return None;
      }
      ghost var legs := ResolvedLegs(graph.graph, template, departureDate, returnDate, destination, allowSameDayTransfer, strictDateMatch);
      ghost var dates := LegDates(template, departureDate, returnDate, destination, allowSameDayTransfer);
      var segments: seq<FlightSegment> := [];
      var currentDate := departureDate;
      var finalDestination := Upper(destination);
      for i := 0 to |template| - 1
        invariant currentDate == LegDate(template, departureDate, returnDate, destination, allowSameDayTransfer, i)
        invariant Pinned(legs, dates, i) == Some(segments)
      {
        var fromAirport := Upper(template[i]);
        var toAirport := Upper(template[i + 1]);
        var segment := FindLegSegment(fromAirport, toAirport, currentDate, strictDateMatch);
        assert segment == legs[i];
        if segment.None? {
          PinnedFailureStays(legs, dates, i + 1, |legs|);
          return None;
        }
        assert dates[i] == currentDate;
        segments := segments + [segment.value.(date := currentDate)];
        LegDateStep(template, departureDate, returnDate, destination, allowSameDayTransfer, i);
        if toAirport == finalDestination {
          currentDate := returnDate;
        } else if !allowSameDayTransfer {
          currentDate := currentDate + 1;
        }
      }
      var totalCost := CalculateTotalCost(segments);
      return Some(Itinerary(segments, totalCost));
    }

    /** One leg's lookup: the strict day-exact search, or the day's cheapest with the
        any-day cheapest as fallback. */
    method FindLegSegment(fromAirport: string, toAirport: string, flightDate: int, strictDateMatch: bool)
      returns (segment: Option<FlightSegment>)
      ensures segment == ResolveLeg(graph.graph, fromAirport, toAirport, flightDate, strictDateMatch)
    {
      if strictDateMatch {
        segment := graph.GetCheapestSegmentStrict(fromAirport, toAirport, flightDate);
      } else {
        segment := graph.GetCheapestSegment(fromAirport, toAirport, Some(flightDate));
        if segment.None? {
          segment := graph.GetCheapestSegment(fromAirport, toAirport, None);
        }
      }
    }
  }
}
