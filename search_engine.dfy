/** The search orchestration: fill the price graph with fares for every leg the route
    templates need, refresh the gateways, assemble an itinerary per usable template
    and date pair, and answer with the cheapest one or, failing that, the direct fare. */
module Search {
  import opened Wrappers
  import opened Strings
  import opened FlightSegments
  import opened Graph
  import opened RouteTemplates
  import opened PriceAggregation
  import opened DateUtils
  import opened Itineraries
  import opened Caching
  import opened IsoDates

  /** Fares are asked for on at most this many days of the window per leg. */
  const MAX_DATES_PER_LEG := 7
  /** At most this many departure/return pairs are assembled per template. */
  const MAX_DATE_PAIRS := 5
  /** The stay used when the request gives none (or zero nights). */
  const DEFAULT_TRIP_NIGHTS := 3
  /** Cache lifetimes, in seconds, of international and domestic fares. */
  const INTERNATIONAL_TTL := 10800
  const DOMESTIC_TTL := 21600
  const INTERNATIONAL_PREFIX := "amadeus"
  const DOMESTIC_PREFIX := "airlabs"

  /** A fare provider: the fare it quotes for a leg on a day, if any. A provider that
      fails is one that quotes nothing. */
  type Provider = (string, string, int) -> Option<FlightSegment>

  /** A fare lookup: origin, destination and day. */
  type Query = (string, string, int)

  /** Providers quote real calendar days (Python `date` values). */
  ghost predicate QuotesValidDates(p: Provider) {
    forall f, t, d :: p(f, t, d).Some? ==> ValidOrdinal(p(f, t, d).value.date)
  }

  /** A segment as the cache holds it: the record with its date written as text. */
  datatype CachedSegment = CachedSegment(
    fromAirport: string,
    toAirport: string,
    price: int,
    provider: string,
    date: string,
    flightNumber: Option<string>,
    departureTime: Option<string>,
    arrivalTime: Option<string>)

  type Store = Option<map<string, (CachedSegment, int)>>

  function ToCache(s: FlightSegment): CachedSegment
    requires ValidOrdinal(s.date)
  {
    CachedSegment(s.fromAirport, s.toAirport, s.price, s.provider, FormatDateForApi(s.date),
      s.flightNumber, s.departureTime, s.arrivalTime)
  }

  /** The segment a cache entry decodes to; none when its date text does not parse. */
  function FromCache(c: CachedSegment): Option<FlightSegment> {
    var d := ParseApiDate(c.date);
    if d.None? then None
    else Some(FlightSegment(c.fromAirport, c.toAirport, c.price, c.provider, d.value,
      c.flightNumber, c.departureTime, c.arrivalTime))
  }

  /** A segment read back from the cache is the segment written to it. */
  lemma CacheRoundTrip(s: FlightSegment)
    requires ValidOrdinal(s.date)
    ensures FromCache(ToCache(s)) == Some(s)
  {
    ParseFormatApiDate(s.date);
  }

  /** A cache entry that decodes is exactly the encoding of what it decodes to. */
  lemma CacheEntryDetermined(c: CachedSegment)
    requires FromCache(c).Some?
    ensures ValidOrdinal(FromCache(c).value.date) && ToCache(FromCache(c).value) == c
  {
    FormatParseApiDate(c.date);
  }

  /** A leg is international when it joins a Korean and a Japanese airport, in either
      direction; every other leg is domestic. */
  function IsInternationalRoute(fromAirport: string, toAirport: string): (r: bool)
    ensures r ==> Upper(fromAirport) in KOREAN_AIRPORTS + JAPANESE_AIRPORTS
    ensures r ==> Upper(toAirport) in KOREAN_AIRPORTS + JAPANESE_AIRPORTS
  {
    var f := Upper(fromAirport);
    var t := Upper(toAirport);
    var fromKr := f in KOREAN_AIRPORTS;
    var toKr := t in KOREAN_AIRPORTS;
    var fromJp := f in JAPANESE_AIRPORTS;
    var toJp := t in JAPANESE_AIRPORTS;
    if (fromKr && toJp) || (fromJp && toKr) then true
    else if fromJp && toJp then false
    else false
  }

  /** The classification ignores direction and case. */
  lemma InternationalSymmetric(f: string, t: string)
    ensures IsInternationalRoute(f, t) == IsInternationalRoute(t, f)
    ensures IsInternationalRoute(f, t) == IsInternationalRoute(Upper(f), Upper(t))
  {
    UpperIdempotent(f);
    UpperIdempotent(t);
  }

  /** No airport is both Korean and Japanese, so a leg within one country is domestic
      and a leg between them international. */
  lemma InternationalIffCrossesBorder(f: string, t: string)
    ensures IsInternationalRoute(f, t) <==>
      (Upper(f) in KOREAN_AIRPORTS && Upper(t) in JAPANESE_AIRPORTS)
      || (Upper(f) in JAPANESE_AIRPORTS && Upper(t) in KOREAN_AIRPORTS)
    ensures Upper(f) in JAPANESE_AIRPORTS && Upper(t) in JAPANESE_AIRPORTS ==> !IsInternationalRoute(f, t)
    ensures Upper(f) in KOREAN_AIRPORTS && Upper(t) in KOREAN_AIRPORTS ==> !IsInternationalRoute(f, t)
  {
    assert KOREAN_AIRPORTS * JAPANESE_AIRPORTS == {};
  }

  /** `request.trip_nights or 3`. */
  function TripNights(request: SearchRequest): (n: int)
    ensures request.tripNights.None? ==> n == DEFAULT_TRIP_NIGHTS
    ensures request.tripNights.Some? ==> n == if request.tripNights.value == 0 then DEFAULT_TRIP_NIGHTS else request.tripNights.value
    ensures n != 0
  {
    if request.tripNights.None? || request.tripNights.value == 0 then DEFAULT_TRIP_NIGHTS
    else request.tripNights.value
  }

  /** The cache key of a fare: provider prefix, then the date, origin and destination
      parts in name order. */
  function FareKey(prefix: string, fromAirport: string, toAirport: string, date: int): string
    requires ValidOrdinal(date)
  {
    var params := [("from_airport", fromAirport), ("to_airport", toAirport), ("date", FormatDateForApi(date))];
    assert DistinctNames(params);
    Key(prefix, params)
  }

  /** What one cached fare lookup answers and leaves in the store: a cached entry that
      decodes, else the provider's quote, which is then cached (when there is a store). */
  function FetchOutcome(store: Store, prefix: string, provider: Provider, ttl: int,
      fromAirport: string, toAirport: string, date: int): (Option<FlightSegment>, Store)
    requires ValidOrdinal(date) && QuotesValidDates(provider)
  {
    var f := Upper(fromAirport);
    var t := Upper(toAirport);
    var key := FareKey(prefix, f, t, date);
    var cached := if store.Some? && key in store.value then FromCache(store.value[key].0) else None;
    if cached.Some? then (cached, store)
    else
      var segment := provider(f, t, date);
      if segment.Some? && store.Some? then (segment, Some(store.value[key := (ToCache(segment.value), ttl)]))
      else (segment, store)
  }

  /** With a store, asking twice gives the same answer: a quote is cached and decodes
      back to itself, and the second lookup changes nothing. */
  lemma FetchTwiceSame(store: Store, prefix: string, provider: Provider, ttl: int,
      fromAirport: string, toAirport: string, date: int)
    requires ValidOrdinal(date) && QuotesValidDates(provider) && store.Some?
    ensures var first := FetchOutcome(store, prefix, provider, ttl, fromAirport, toAirport, date);
      FetchOutcome(first.1, prefix, provider, ttl, fromAirport, toAirport, date) == first
  {
    var first := FetchOutcome(store, prefix, provider, ttl, fromAirport, toAirport, date);
    var segment := provider(Upper(fromAirport), Upper(toAirport), date);
    if segment.Some? {
      CacheRoundTrip(segment.value);
    }
  }

  /** Without a store every lookup is a provider call and nothing is kept. */
  lemma FetchWithoutStore(prefix: string, provider: Provider, ttl: int, fromAirport: string, toAirport: string, date: int)
    requires ValidOrdinal(date) && QuotesValidDates(provider)
    ensures FetchOutcome(None, prefix, provider, ttl, fromAirport, toAirport, date)
      == (provider(Upper(fromAirport), Upper(toAirport), date), None)
  {
  }

  /** The lookup a leg uses: international legs go to the first provider, cached for
      three hours, the others to the second, cached for six. */
  function LegFetch(store: Store, international: Provider, domestic: Provider, q: Query): (Option<FlightSegment>, Store)
    requires ValidOrdinal(q.2) && QuotesValidDates(international) && QuotesValidDates(domestic)
  {
    if IsInternationalRoute(q.0, q.1) then FetchOutcome(store, INTERNATIONAL_PREFIX, international, INTERNATIONAL_TTL, q.0, q.1, q.2)
    else FetchOutcome(store, DOMESTIC_PREFIX, domestic, DOMESTIC_TTL, q.0, q.1, q.2)
  }

  /** The answers to a list of leg-and-day queries asked one after the other, and the
      store they leave. */
  function FetchAll(store: Store, international: Provider, domestic: Provider, queries: seq<Query>): (r: (seq<Option<FlightSegment>>, Store))
    requires forall q :: q in queries ==> ValidOrdinal(q.2)
    requires QuotesValidDates(international) && QuotesValidDates(domestic)
    ensures |r.0| == |queries|
  {
    if queries == [] then ([], store)
    else
      var init := queries[..|queries| - 1];
      assert forall q :: q in init ==> q in queries;
      var before := FetchAll(store, international, domestic, init);
      var last := LegFetch(before.1, international, domestic, queries[|queries| - 1]);
      (before.0 + [last.0], last.1)
  }

  /** No leg-and-day query is asked twice. */
  predicate AskedOnce(queries: seq<Query>) {
    forall i, j :: 0 <= i < j < |queries| ==> queries[i] != queries[j]
  }

  /** Asking a query not asked before keeps every query asked once. */
  lemma AskedOnceStep(queries: seq<Query>, q: Query)
    requires AskedOnce(queries) && q !in queries
    ensures AskedOnce(queries + [q])
  {
    forall i, j | 0 <= i < j < |queries| + 1 ensures (queries + [q])[i] != (queries + [q])[j] {
      if j == |queries| {
        assert (queries + [q])[i] == queries[i];
      }
    }
  }

  /** The codes of a request the validator admits stay three letters long once
      upper-cased, so the destination the search validates against is never empty:
      the direct template comes first and always passes, and any generated template
      passes exactly when its interior stops differ. */
  lemma ValidRequestTemplates(request: SearchRequest, entries: seq<string>, exits: seq<string>,
      allowTwoEntries: bool, t: Template)
    requires ValidSearchRequest(request)
    requires forall e :: e in entries ==> IsUpper(e)
    requires forall x :: x in exits ==> IsUpper(x)
    requires t in Templates(Upper(request.departure), Upper(request.destination), entries, exits, allowTwoEntries)
    ensures |Upper(request.departure)| == 3 && |Upper(request.destination)| == 3
    ensures var dep, dest := Upper(request.departure), Upper(request.destination);
      Templates(dep, dest, entries, exits, allowTwoEntries)[0] == [dep, dest, dep]
      && ValidateTemplate([dep, dest, dep], Some(dest))
    ensures 3 <= |t| <= 6
    ensures ValidateTemplate(t, Some(Upper(request.destination))) <==> Distinct(t[1..|t| - 1])
  {
    var dep, dest := Upper(request.departure), Upper(request.destination);
    UpperIdempotent(request.departure);
    UpperIdempotent(request.destination);
    DirectTemplateFirst(dep, dest, entries, exits, allowTwoEntries);
    RoundTripValidates([dep, dest, dep], dep, [dest], dest);
    GeneratedTemplateValidates(dep, dest, entries, exits, allowTwoEntries, t);
  }

  /** The queries of one leg on each of `days`, in the order of the days. */
  function LegQueries(leg: (string, string), days: seq<int>): (qs: seq<Query>)
    ensures |qs| == |days| && forall j :: 0 <= j < |days| ==> qs[j] == (leg.0, leg.1, days[j])
  {
    seq(|days|, j requires 0 <= j < |days| => (leg.0, leg.1, days[j]))
  }

  /** The queries of several legs, one leg after the other, each on every one of `days`. */
  function LegsQueries(legs: seq<(string, string)>, days: seq<int>): seq<Query> {
    if legs == [] then [] else LegsQueries(legs[..|legs| - 1], days) + LegQueries(legs[|legs| - 1], days)
  }

  /** Asking a leg on the next day extends its queries by that day. */
  lemma LegQueriesAppend(queries: seq<Query>, leg: (string, string), days: seq<int>, j: int)
    requires 0 <= j < |days|
    ensures queries + LegQueries(leg, days[..j + 1]) == queries + LegQueries(leg, days[..j]) + [(leg.0, leg.1, days[j])]
  {
    assert LegQueries(leg, days[..j + 1]) == LegQueries(leg, days[..j]) + [(leg.0, leg.1, days[j])];
  }

  /** Leg i of a template under its upper-cased codes. */
  function LegOf(t: Template, i: int): (string, string)
    requires 0 <= i < |t| - 1
  {
    (Upper(t[i]), Upper(t[i + 1]))
  }

  /** The upper-cased legs of one template. */
  function Legs(t: Template): set<(string, string)> {
    set i | 0 <= i < |t| - 1 :: LegOf(t, i)
  }

  /** The upper-cased legs of all templates. */
  function NeededLegs(templates: seq<Template>): set<(string, string)> {
    if templates == [] then {}
    else NeededLegs(templates[..|templates| - 1]) + Legs(templates[|templates| - 1])
  }

  /** A leg is needed exactly when it is a leg of one of the templates. */
  lemma {:induction false} NeededLegsSpec(templates: seq<Template>, leg: (string, string))
    ensures leg in NeededLegs(templates) <==>
      exists k, i :: 0 <= k < |templates| && 0 <= i < |templates[k]| - 1 && LegOf(templates[k], i) == leg
  {
    if templates != [] {
      var n := |templates| - 1;
      var init := templates[..n];
      NeededLegsSpec(init, leg);
      if leg in NeededLegs(templates) {
        if leg in NeededLegs(init) {
          var k, i :| 0 <= k < |init| && 0 <= i < |init[k]| - 1 && LegOf(init[k], i) == leg;
          assert templates[k] == init[k];
        } else {
          var i :| 0 <= i < |templates[n]| - 1 && LegOf(templates[n], i) == leg;
        }
      } else {
        forall k, i | 0 <= k < |templates| && 0 <= i < |templates[k]| - 1
          ensures LegOf(templates[k], i) != leg
        {
          if k < n {
            assert templates[k] == init[k];
          }
        }
      }
    }
  }

  /** The legs of a template are edges of the graph (what expansion checks). */
  predicate LegsPresent(g: EdgeMap, t: Template) {
    |t| >= 2 && forall i :: 0 <= i < |t| - 1 ==> Lookup(g, Upper(t[i]), Upper(t[i + 1])) != []
  }

  /** One assembly attempt: strict date matching first, relaxed matching when that
      fails; no same-day transfers. */
  function Attempt(g: EdgeMap, t: Template, departureDate: int, returnDate: int, destination: string): Option<Itinerary> {
    var strict := Assembly(g, t, departureDate, returnDate, destination, false, true);
    if strict.Some? then strict else Assembly(g, t, departureDate, returnDate, destination, false, false)
  }

  /** The itineraries one template yields, one per date pair whose attempt succeeds. */
  function CollectedForTemplate(g: EdgeMap, t: Template, pairs: seq<(int, int)>, destination: string): (r: seq<Itinerary>)
    ensures |r| <= |pairs|
  {
    if pairs == [] then []
    else
      var p := pairs[|pairs| - 1];
      var it := Attempt(g, t, p.0, p.1, destination);
      CollectedForTemplate(g, t, pairs[..|pairs| - 1], destination) + (if it.Some? then [it.value] else [])
  }

  /** The templates the search assembles: valid for the destination, every leg an edge. */
  predicate Usable(g: EdgeMap, t: Template, destination: string) {
    ValidateTemplate(t, Some(destination)) && LegsPresent(g, t)
  }

  /** The itineraries the search collects, template by template, in order. */
  function Collected(g: EdgeMap, templates: seq<Template>, pairs: seq<(int, int)>, destination: string): seq<Itinerary> {
    if templates == [] then []
    else
      var t := templates[|templates| - 1];
      Collected(g, templates[..|templates| - 1], pairs, destination)
        + (if Usable(g, t, destination) then CollectedForTemplate(g, t, pairs, destination) else [])
  }

  /** The strict attempt never changes the outcome: an attempt is relaxed assembly. */
  lemma AttemptIsRelaxedAssembly(g: EdgeMap, t: Template, departureDate: int, returnDate: int, destination: string)
    ensures Attempt(g, t, departureDate, returnDate, destination) == Assembly(g, t, departureDate, returnDate, destination, false, false)
  {
    if Assembly(g, t, departureDate, returnDate, destination, false, true).Some? {
      StrictSuccessImpliesRelaxedSame(g, t, departureDate, returnDate, destination, false);
    }
  }

  /** A usable template yields an itinerary for every date pair. */
  lemma {:induction false} UsableTemplateYieldsEveryPair(g: EdgeMap, t: Template, pairs: seq<(int, int)>, destination: string)
    requires Usable(g, t, destination)
    ensures |CollectedForTemplate(g, t, pairs, destination)| == |pairs|
  {
    if pairs != [] {
      var p := pairs[|pairs| - 1];
      UsableTemplateYieldsEveryPair(g, t, pairs[..|pairs| - 1], destination);
      AttemptIsRelaxedAssembly(g, t, p.0, p.1, destination);
      RelaxedAssemblySucceedsIffEdges(g, t, p.0, p.1, destination, false);
    }
  }

  /** Every collected itinerary is the relaxed assembly of a usable template on one of
      the date pairs. */
  lemma {:induction false} CollectedForTemplateSound(g: EdgeMap, t: Template, pairs: seq<(int, int)>, destination: string, it: Itinerary)
    requires it in CollectedForTemplate(g, t, pairs, destination)
    ensures exists k :: 0 <= k < |pairs| && Assembly(g, t, pairs[k].0, pairs[k].1, destination, false, false) == Some(it)
  {
    var p := pairs[|pairs| - 1];
    var init := pairs[..|pairs| - 1];
    AttemptIsRelaxedAssembly(g, t, p.0, p.1, destination);
    if it in CollectedForTemplate(g, t, init, destination) {
      CollectedForTemplateSound(g, t, init, destination, it);
      var k :| 0 <= k < |init| && Assembly(g, t, init[k].0, init[k].1, destination, false, false) == Some(it);
      assert init[k] == pairs[k];
    } else {
      assert Assembly(g, t, pairs[|pairs| - 1].0, pairs[|pairs| - 1].1, destination, false, false) == Some(it);
    }
  }

  lemma {:induction false} CollectedSound(g: EdgeMap, templates: seq<Template>, pairs: seq<(int, int)>, destination: string, it: Itinerary)
    requires it in Collected(g, templates, pairs, destination)
    ensures exists t, k :: (t in templates && Usable(g, t, destination) && 0 <= k < |pairs|
      && Assembly(g, t, pairs[k].0, pairs[k].1, destination, false, false) == Some(it))
  {
    var t := templates[|templates| - 1];
    var init := templates[..|templates| - 1];
    if it in Collected(g, init, pairs, destination) {
      CollectedSound(g, init, pairs, destination, it);
      var t', k :| t' in init && Usable(g, t', destination) && 0 <= k < |pairs|
        && Assembly(g, t', pairs[k].0, pairs[k].1, destination, false, false) == Some(it);
      assert t' in templates;
    } else {
      CollectedForTemplateSound(g, t, pairs, destination, it);
    }
  }

  /** How many of the templates are usable. */
  function UsableCount(g: EdgeMap, templates: seq<Template>, destination: string): (n: nat)
    ensures n <= |templates|
  {
    if templates == [] then 0
    else UsableCount(g, templates[..|templates| - 1], destination) + (if Usable(g, templates[|templates| - 1], destination) then 1 else 0)
  }

  /** The search collects one itinerary per usable template and date pair. */
  lemma {:induction false} CollectedCount(g: EdgeMap, templates: seq<Template>, pairs: seq<(int, int)>, destination: string)
    ensures |Collected(g, templates, pairs, destination)| == |pairs| * UsableCount(g, templates, destination)
  {
    if templates != [] {
      var n := |templates| - 1;
      CollectedCount(g, templates[..n], pairs, destination);
      var usable := CollectedStep(g, templates, pairs, destination);
      if usable {
        UsableTemplateYieldsEveryPair(g, templates[n], pairs, destination);
      }
      CountStep(|Collected(g, templates, pairs, destination)|, |Collected(g, templates[..n], pairs, destination)|,
        |CollectedForTemplate(g, templates[n], pairs, destination)|, |pairs|,
        UsableCount(g, templates[..n], destination), UsableCount(g, templates, destination), usable);
    }
  }

  lemma CollectedStep(g: EdgeMap, templates: seq<Template>, pairs: seq<(int, int)>, destination: string) returns (usable: bool)
    requires templates != []
    ensures var n := |templates| - 1;
      usable == Usable(g, templates[n], destination)
      && |Collected(g, templates, pairs, destination)|
         == |Collected(g, templates[..n], pairs, destination)| + (if usable then |CollectedForTemplate(g, templates[n], pairs, destination)| else 0)
      && UsableCount(g, templates, destination) == UsableCount(g, templates[..n], destination) + (if usable then 1 else 0)
  {
    usable := Usable(g, templates[|templates| - 1], destination);
  }

  lemma CountStep(total: int, before: int, extra: int, pairs: int, usableBefore: int, usable: int, last: bool)
    requires before == pairs * usableBefore
    requires total == before + (if last then extra else 0)
    requires usable == usableBefore + (if last then 1 else 0)
    requires last ==> extra == pairs
    ensures total == pairs * usable
  {
  }

  /** `[seg for seg in segments if seg.from_airport and seg.to_airport]`: a date is
      always present, so only the codes can make a segment invalid. */
  function ValidSegments(segments: seq<FlightSegment>): (r: seq<FlightSegment>)
    ensures |r| <= |segments|
    ensures forall s :: s in r <==> s in segments && s.fromAirport != "" && s.toAirport != ""
  {
    if segments == [] then []
    else
      var s := segments[|segments| - 1];
      ValidSegments(segments[..|segments| - 1]) + (if s.fromAirport != "" && s.toAirport != "" then [s] else [])
  }

  lemma {:induction false} ValidSegmentsKeepsValid(segments: seq<FlightSegment>)
    requires forall i :: 0 <= i < |segments| ==> segments[i].fromAirport != "" && segments[i].toAirport != ""
    ensures ValidSegments(segments) == segments
  {
    if segments != [] {
      var init := segments[..|segments| - 1];
      assert forall i :: 0 <= i < |init| ==> init[i] == segments[i];
      ValidSegmentsKeepsValid(init);
      var last := segments[|segments| - 1];
      assert last.fromAirport != "" && last.toAirport != "";
      assert ValidSegments(segments) == ValidSegments(init) + [last];
      InitAndLast(segments);
    }
  }

  /** A non-empty sequence is its initial part followed by its last element. */
  lemma InitAndLast<T>(s: seq<T>)
    requires |s| > 0
    ensures s[..|s| - 1] + [s[|s| - 1]] == s
  {
  }

  /** In a well-formed graph every collected itinerary has segments, none of which the
      response filter drops: the search's second fallback to the direct fare never
      fires. */
  lemma CollectedSurvivesFilter(g: EdgeMap, templates: seq<Template>, pairs: seq<(int, int)>, destination: string, it: Itinerary)
    requires WellFormed(g) && it in Collected(g, templates, pairs, destination)
    ensures it.segments != [] && ValidSegments(it.segments) == it.segments
  {
    CollectedSound(g, templates, pairs, destination, it);
    var t, k :| t in templates && Usable(g, t, destination) && 0 <= k < |pairs|
      && Assembly(g, t, pairs[k].0, pairs[k].1, destination, false, false) == Some(it);
    AssembledItineraryShape(g, t, pairs[k].0, pairs[k].1, destination, false, false, it);
    forall i | 0 <= i < |it.segments|
      ensures it.segments[i].fromAirport != "" && it.segments[i].toAirport != ""
    {
      AssembledSegmentsFollowTemplate(g, t, pairs[k].0, pairs[k].1, destination, false, false, it, i);
    }
    ValidSegmentsKeepsValid(it.segments);
  }

  /** The date pairs assembled: the first five of the window's departure/return pairs. */
  function CandidatePairs(request: SearchRequest): (pairs: seq<(int, int)>)
    ensures |pairs| <= MAX_DATE_PAIRS
    ensures forall i :: 0 <= i < |pairs| ==>
      pairs[i] == (request.startDate + i, request.startDate + i + TripNights(request))
      && request.startDate + i <= request.endDate
      && pairs[i].1 <= request.endDate + MAX_RETURN_LOOKAHEAD
  {
    var nights := TripNights(request);
    var last := LastPairedDeparture(request.endDate, nights);
    var count := if request.startDate <= last then last - request.startDate + 1 else 0;
    seq(Min(MAX_DATE_PAIRS, count), i requires 0 <= i < Min(MAX_DATE_PAIRS, count) =>
      (request.startDate + i, request.startDate + i + nights))
  }

  /** The answer when no itinerary could be built: the direct fare, no segments. */
  function DirectResponse(departure: string, destination: string, directCost: Option<int>): (r: SearchResponse)
    ensures r.segments == [] && !r.cheaperThanDirect && r.directCost == directCost
    ensures r.totalCost == if directCost.Some? then directCost.value else 0
  {
    SearchResponse(directCost.GetOr(0), [], GetDirectRoutePattern(departure, destination), false, directCost)
  }

  /** The answer the search gives for the itineraries it collected and a direct
      fare: the first of the cheapest with its valid segments, or the direct-fare
      answer when there is no itinerary or no valid segment. */
  function Answer(departure: string, destination: string, found: seq<Itinerary>, directCost: Option<int>): (r: SearchResponse)
    ensures r.directCost == directCost
    ensures found == [] ==> r == DirectResponse(departure, destination, directCost)
  {
    if found == [] then DirectResponse(departure, destination, directCost)
    else
      var best := FindCheapestItinerary(found).value;
      var segments := ValidSegments(best.segments);
      if segments == [] then DirectResponse(departure, destination, directCost)
      else SearchResponse(best.totalCost, segments, GetRoutePattern(best), CompareWithDirect(best, directCost), directCost)
  }

  /** When the itineraries come from a well-formed graph, the answer is the first of
      the cheapest, with all its segments: no collected itinerary is cheaper, none
      before it is as cheap, and the route pattern and comparison are its own. */
  lemma AnswerIsCheapest(g: EdgeMap, templates: seq<Template>, pairs: seq<(int, int)>, destination: string,
      departure: string, directCost: Option<int>)
    requires WellFormed(g)
    ensures var found := Collected(g, templates, pairs, destination);
      var r := Answer(departure, destination, found, directCost);
      found != [] ==>
        && r.segments != []
        && (exists k :: 0 <= k < |found| && r.segments == found[k].segments && r.totalCost == found[k].totalCost
              && r.routePattern == GetRoutePattern(found[k]) && r.cheaperThanDirect == CompareWithDirect(found[k], directCost)
              && forall j :: 0 <= j < k ==> r.totalCost < found[j].totalCost)
        && (forall it :: it in found ==> r.totalCost <= it.totalCost)
  {
    var found := Collected(g, templates, pairs, destination);
    if found != [] {
      var best := FindCheapestItinerary(found).value;
      CollectedSurvivesFilter(g, templates, pairs, destination, best);
    }
  }

  /** The direct fare of a request and the store it leaves: the outbound fare on the
      first day plus the inbound fare on the return day, both looked up as
      international legs; none unless both are quoted. */
  function DirectCostOutcome(store: Store, international: Provider, request: SearchRequest): (Option<int>, Store)
    requires ValidOrdinal(request.startDate) && ValidOrdinal(request.startDate + TripNights(request))
    requires QuotesValidDates(international)
  {
    var dep := Upper(request.departure);
    var dest := Upper(request.destination);
    var outbound := FetchOutcome(store, INTERNATIONAL_PREFIX, international, INTERNATIONAL_TTL, dep, dest, request.startDate);
    var returnDate := CalculateReturnDate(request.startDate, TripNights(request));
    var inbound := FetchOutcome(outbound.1, INTERNATIONAL_PREFIX, international, INTERNATIONAL_TTL, dest, dep, returnDate);
    (RoundTripFare(outbound.0, inbound.0), inbound.1)
  }

  /** The sum of both directions' fares, when both are quoted. */
  function RoundTripFare(outbound: Option<FlightSegment>, inbound: Option<FlightSegment>): (r: Option<int>)
    ensures r.Some? <==> outbound.Some? && inbound.Some?
    ensures r.Some? ==> r.value == outbound.value.price + inbound.value.price
  {
    if outbound.Some? && inbound.Some? then Some(outbound.value.price + inbound.value.price) else None
  }

  /** The direct fare is quoted exactly when both directions are, and is their sum. */
  lemma DirectCostIsRoundTripSum(store: Store, international: Provider, request: SearchRequest)
    requires ValidOrdinal(request.startDate) && ValidOrdinal(request.startDate + TripNights(request))
    requires QuotesValidDates(international) && store.None?
    ensures var dep, dest := Upper(request.departure), Upper(request.destination);
      var out := international(dep, dest, request.startDate);
      var back := international(dest, dep, request.startDate + TripNights(request));
      DirectCostOutcome(store, international, request).0
        == if out.Some? && back.Some? then Some(out.value.price + back.value.price) else None
  {
    var dep, dest := Upper(request.departure), Upper(request.destination);
    UpperIdempotent(request.departure);
    UpperIdempotent(request.destination);
    FetchWithoutStore(INTERNATIONAL_PREFIX, international, INTERNATIONAL_TTL, dep, dest, request.startDate);
    FetchWithoutStore(INTERNATIONAL_PREFIX, international, INTERNATIONAL_TTL, dest, dep, request.startDate + TripNights(request));
  }

  class SearchEngine {
    const graph: FlightGraph
    const templateEngine: RouteTemplateEngine
    const priceAggregator: PriceAggregator
    const cache: CacheManager<CachedSegment>
    const amadeus: Provider
    const airlabs: Provider

    /** The template engine and the assembler share the engine's graph. */
    ghost predicate Valid()
      reads this, graph
    {
      templateEngine.graph == graph && priceAggregator.graph == graph && graph.Valid()
      && QuotesValidDates(amadeus) && QuotesValidDates(airlabs)
    }

    /** `store` is what connecting to the cache gave: none when it failed. */
    constructor (amadeus: Provider, airlabs: Provider, store: Store)
      requires QuotesValidDates(amadeus) && QuotesValidDates(airlabs)
      ensures Valid() && fresh(graph) && graph.graph == map[] && cache.store == store
      ensures graph.entryAirports == DEFAULT_ENTRY_AIRPORTS && graph.exitAirports == DEFAULT_EXIT_AIRPORTS
    {
      var g := new FlightGraph(None, None);
      UpperAllFixed(DEFAULT_ENTRY_AIRPORTS);
      graph := g;
      templateEngine := new RouteTemplateEngine(g);
      priceAggregator := new PriceAggregator(g);
      cache := new CacheManager(store);
      this.amadeus := amadeus;
      this.airlabs := airlabs;
    }

    /** One cached fare lookup: a cached entry that decodes is returned as it is;
        otherwise the provider is asked and its quote cached for `ttl` seconds. */
    method FetchWithCache(prefix: string, provider: Provider, ttl: int, fromAirport: string, toAirport: string, date: int)
      returns (segment: Option<FlightSegment>)
      requires ValidOrdinal(date) && QuotesValidDates(provider)
      modifies cache
      ensures (segment, cache.store) == FetchOutcome(old(cache.store), prefix, provider, ttl, fromAirport, toAirport, date)
    {
      var f := Upper(fromAirport);
      var t := Upper(toAirport);
      var params := [("from_airport", f), ("to_airport", t), ("date", FormatDateForApi(date))];
      assert DistinctNames(params);
      var key := cache.GenerateKey(prefix, params);
      var cached := cache.Get(key);
      if cached.Some? {
        var decoded := FromCache(cached.value);
        if decoded.Some? {
          return decoded;
        }
      }
      segment := provider(f, t, date);
      if segment.Some? {
        var _ := cache.Set(key, ToCache(segment.value), ttl);
      }
    }

    method FetchInternationalSegment(fromAirport: string, toAirport: string, date: int) returns (segment: Option<FlightSegment>)
      requires Valid() && ValidOrdinal(date)
      modifies cache
      ensures (segment, cache.store)
        == FetchOutcome(old(cache.store), INTERNATIONAL_PREFIX, amadeus, INTERNATIONAL_TTL, fromAirport, toAirport, date)
    {
      segment := FetchWithCache(INTERNATIONAL_PREFIX, amadeus, INTERNATIONAL_TTL, fromAirport, toAirport, date);
    }

    method FetchDomesticSegment(fromAirport: string, toAirport: string, date: int) returns (segment: Option<FlightSegment>)
      requires Valid() && ValidOrdinal(date)
      modifies cache
      ensures (segment, cache.store)
        == FetchOutcome(old(cache.store), DOMESTIC_PREFIX, airlabs, DOMESTIC_TTL, fromAirport, toAirport, date)
    {
      segment := FetchWithCache(DOMESTIC_PREFIX, airlabs, DOMESTIC_TTL, fromAirport, toAirport, date);
    }

    /** The set of upper-cased legs over all templates. */
    static method CollectNeededSegments(templates: seq<Template>) returns (needed: set<(string, string)>)
      ensures needed == NeededLegs(templates)
    {
      needed := {};
      for k := 0 to |templates|
        invariant needed == NeededLegs(templates[..k])
      {
        var template := templates[k];
        ghost var before := needed;
        var i := 0;
        while i + 1 < |template|
          invariant 0 <= i
          invariant needed == before + set j | 0 <= j < i && j + 1 < |template| :: LegOf(template, j)
        {
          needed := needed + {(Upper(template[i]), Upper(template[i + 1]))};
          assert (set j | 0 <= j < i + 1 && j + 1 < |template| :: LegOf(template, j))
            == (set j | 0 <= j < i && j + 1 < |template| :: LegOf(template, j)) + {LegOf(template, i)};
          i := i + 1;
        }
        assert needed == before + Legs(template);
        assert templates[..k + 1][..k] == templates[..k];
      }
      assert templates[..|templates|] == templates;
    }

    /** Asks for a fare on each of the first seven days of the window for every needed
        leg, then files every quoted segment in the graph, in the order asked. */
    method PopulateGraph(request: SearchRequest, templates: seq<Template>)
      returns (ghost queries: seq<Query>, ghost fetched: seq<Option<FlightSegment>>)
      requires Valid() && ValidOrdinal(request.startDate) && ValidOrdinal(request.endDate)
      modifies graph, cache
      ensures Valid()
      ensures graph.entryAirports == old(graph.entryAirports) && graph.exitAirports == old(graph.exitAirports)
      ensures forall q :: q in queries ==> ValidOrdinal(q.2)
      ensures forall q :: q in queries <==>
        (q.0, q.1) in NeededLegs(templates)
        && request.startDate <= q.2 <= request.endDate && q.2 < request.startDate + MAX_DATES_PER_LEG
      ensures AskedOnce(queries)
      ensures (fetched, cache.store) == FetchAll(old(cache.store), amadeus, airlabs, queries)
      ensures graph.graph == IngestAll(old(graph.graph), Somes(fetched))
    {
      var needed := CollectNeededSegments(templates);
      var dateRange := GetDateRange(request.startDate, request.endDate);
      var window := dateRange[..Min(MAX_DATES_PER_LEG, |dateRange|)];
      forall d ensures d in window <==>
        request.startDate <= d <= request.endDate && d < request.startDate + MAX_DATES_PER_LEG
      {
        if request.startDate <= d <= request.endDate && d < request.startDate + MAX_DATES_PER_LEG {
          assert window[d - request.startDate] == d;
        }
      }
      var results;
      ghost var order;
      queries, results, order := FetchLegs(needed, window);
      IngestFetched(results);
      fetched := results;
    }

    /** The fetch loop: every needed leg (in the set's iteration order) on every day. */
    method FetchLegs(needed: set<(string, string)>, dateRange: seq<int>)
      returns (ghost queries: seq<Query>, results: seq<Option<FlightSegment>>, ghost order: seq<(string, string)>)
      requires Valid() && forall d :: d in dateRange ==> ValidOrdinal(d)
      requires forall i, j :: 0 <= i < j < |dateRange| ==> dateRange[i] != dateRange[j]
      modifies cache
      ensures forall q :: q in queries ==> ValidOrdinal(q.2)
      ensures forall q :: q in queries <==> (q.0, q.1) in needed && q.2 in dateRange
      ensures AskedOnce(queries)
      ensures (forall l :: l in order <==> l in needed) && |order| == |needed|
      ensures queries == LegsQueries(order, dateRange)
      ensures (results, cache.store) == FetchAll(old(cache.store), amadeus, airlabs, queries)
    {
      queries := [];
      results := [];
      order := [];
      var remaining := needed;
      while remaining != {}
        invariant remaining <= needed
        invariant forall q :: q in queries ==> ValidOrdinal(q.2)
        invariant forall q :: q in queries <==> (q.0, q.1) in needed - remaining && q.2 in dateRange
        invariant AskedOnce(queries)
        invariant (forall l :: l in order <==> l in needed - remaining) && |order| + |remaining| == |needed|
        invariant queries == LegsQueries(order, dateRange)
        invariant (results, cache.store) == FetchAll(old(cache.store), amadeus, airlabs, queries)
        decreases |remaining|
      {
        var leg :| leg in remaining;
        queries, results := FetchLegOnDates(leg, dateRange, old(cache.store), queries, results);
        assert (order + [leg])[..|order|] == order;
        order := order + [leg];
        remaining := remaining - {leg};
      }
    }

    /** Asks for the fare of one leg on every day of the range, continuing a run of
        lookups that began with the store `start`. */
    method FetchLegOnDates(leg: (string, string), dateRange: seq<int>, ghost start: Store,
        ghost queries: seq<Query>, results: seq<Option<FlightSegment>>)
      returns (ghost queries': seq<Query>, results': seq<Option<FlightSegment>>)
      requires Valid() && forall d :: d in dateRange ==> ValidOrdinal(d)
      requires forall i, j :: 0 <= i < j < |dateRange| ==> dateRange[i] != dateRange[j]
      requires forall q :: q in queries ==> ValidOrdinal(q.2) && (q.0, q.1) != leg
      requires AskedOnce(queries)
      requires (results, cache.store) == FetchAll(start, amadeus, airlabs, queries)
      modifies cache
      ensures forall q :: q in queries' ==> ValidOrdinal(q.2)
      ensures forall q :: q in queries' <==> q in queries || ((q.0, q.1) == leg && q.2 in dateRange)
      ensures AskedOnce(queries')
      ensures queries' == queries + LegQueries(leg, dateRange)
      ensures (results', cache.store) == FetchAll(start, amadeus, airlabs, queries')
    {
      queries' := queries;
      results' := results;
      for j := 0 to |dateRange|
        invariant forall q :: q in queries' ==> ValidOrdinal(q.2)
        invariant forall q :: q in queries' <==> q in queries || ((q.0, q.1) == leg && q.2 in dateRange[..j])
        invariant AskedOnce(queries')
        invariant queries' == queries + LegQueries(leg, dateRange[..j])
        invariant (results', cache.store) == FetchAll(start, amadeus, airlabs, queries')
      {
        ghost var q := (leg.0, leg.1, dateRange[j]);
        NewDayNotAsked(queries, queries', leg, dateRange, j);
        AskedOnceStep(queries', q);
        var segment := FetchLeg(leg.0, leg.1, dateRange[j]);
        FetchAllStep(start, amadeus, airlabs, queries', q);
        LegQueriesStep(queries, queries', leg, dateRange, j);
        LegQueriesAppend(queries, leg, dateRange, j);
        queries' := queries' + [q];
        results' := results' + [segment];
      }
      assert dateRange[..|dateRange|] == dateRange;
    }

    /** The lookup of one leg on one day, from the provider its route calls for. */
    method FetchLeg(fromAirport: string, toAirport: string, date: int) returns (segment: Option<FlightSegment>)
      requires Valid() && ValidOrdinal(date)
      modifies cache
      ensures (segment, cache.store) == LegFetch(old(cache.store), amadeus, airlabs, (fromAirport, toAirport, date))
    {
      if IsInternationalRoute(fromAirport, toAirport) {
        segment := FetchInternationalSegment(fromAirport, toAirport, date);
      } else {
        segment := FetchDomesticSegment(fromAirport, toAirport, date);
      }
    }

    /** Files every quoted segment in the graph, in order. */
    method IngestFetched(results: seq<Option<FlightSegment>>)
      requires graph.Valid()
      modifies graph
      ensures graph.Valid()
      ensures graph.entryAirports == old(graph.entryAirports) && graph.exitAirports == old(graph.exitAirports)
      ensures graph.graph == IngestAll(old(graph.graph), Somes(results))
    {
      for k := 0 to |results|
        invariant graph.Valid()
        invariant graph.entryAirports == old(graph.entryAirports) && graph.exitAirports == old(graph.exitAirports)
        invariant graph.graph == IngestAll(old(graph.graph), Somes(results[..k]))
      {
        SomesStep(results, k);
        if results[k].Some? {
          graph.AddSegment(results[k]);
          IngestAppend(old(graph.graph), Somes(results[..k]), results[k].value);
        }
      }
      assert results[..|results|] == results;
    }

    /** Every usable template is assembled on every candidate pair; each success is
        collected. */
    method CollectItineraries(templates: seq<Template>, pairs: seq<(int, int)>, destination: string)
      returns (itineraries: seq<Itinerary>)
      requires Valid()
      ensures itineraries == Collected(graph.graph, templates, pairs, destination)
    {
      itineraries := [];
      for k := 0 to |templates|
        invariant itineraries == Collected(graph.graph, templates[..k], pairs, destination)
      {
        var found := ItinerariesOfTemplate(templates[k], pairs, destination);
        CollectedPrefixStep(graph.graph, templates, pairs, destination, k);
        itineraries := itineraries + found;
      }
      assert templates[..|templates|] == templates;
    }

    /** What one template contributes: nothing when it fails validation or one of its
        legs has no edge, otherwise its assembly on every pair. */
    method ItinerariesOfTemplate(template: Template, pairs: seq<(int, int)>, destination: string)
      returns (found: seq<Itinerary>)
      requires Valid()
      ensures found == if Usable(graph.graph, template, destination) then CollectedForTemplate(graph.graph, template, pairs, destination) else []
    {
      if !ValidateTemplate(template, Some(destination)) {
        return [];
      }
      var expanded := templateEngine.ExpandTemplate(template, None);
      if expanded == [] {
        assert !LegsPresent(graph.graph, template);
        return [];
      }
      assert LegsPresent(graph.graph, template) by {
        forall i | 0 <= i < |template| - 1 ensures Lookup(graph.graph, Upper(template[i]), Upper(template[i + 1])) != [] {
          ExpandedLegsAreEdges(templateEngine, template, i);
        }
      }
      found := AssembleOnPairs(template, pairs, destination);
    }

    /** One template on every pair; each success is collected. */
    method AssembleOnPairs(template: Template, pairs: seq<(int, int)>, destination: string)
      returns (itineraries: seq<Itinerary>)
      requires Valid()
      ensures itineraries == CollectedForTemplate(graph.graph, template, pairs, destination)
    {
      itineraries := [];
      for j := 0 to |pairs|
        invariant itineraries == CollectedForTemplate(graph.graph, template, pairs[..j], destination)
      {
        var (departureDate, returnDate) := pairs[j];
        var itinerary := AssembleWithFallback(template, departureDate, returnDate, destination);
        CollectedForTemplateStep(graph.graph, template, pairs, destination, j);
        if itinerary.Some? {
          itineraries := itineraries + [itinerary.value];
        }
      }
      assert pairs[..|pairs|] == pairs;
    }

    /** One assembly attempt: strict date matching first, relaxed matching when that
        fails, no same-day transfers. */
    method AssembleWithFallback(template: Template, departureDate: int, returnDate: int, destination: string)
      returns (itinerary: Option<Itinerary>)
      requires Valid()
      ensures itinerary == Attempt(graph.graph, template, departureDate, returnDate, destination)
    {
      itinerary := priceAggregator.BuildItineraryFromTemplate(template, departureDate, returnDate, destination, false, true);
      if itinerary.None? {
        itinerary := priceAggregator.BuildItineraryFromTemplate(template, departureDate, returnDate, destination, false, false);
      }
    }

    /** The direct fare: outbound on the first day plus inbound on the return day. */
    method GetDirectCost(request: SearchRequest) returns (directCost: Option<int>)
      requires Valid() && ValidOrdinal(request.startDate) && ValidOrdinal(request.startDate + TripNights(request))
      modifies cache
      ensures (directCost, cache.store) == DirectCostOutcome(old(cache.store), amadeus, request)
    {
      var dep := Upper(request.departure);
      var dest := Upper(request.destination);
      var outbound := FetchInternationalSegment(dep, dest, request.startDate);
      var returnDate := CalculateReturnDate(request.startDate, TripNights(request));
      var inbound := FetchInternationalSegment(dest, dep, returnDate);
      if outbound.Some? && inbound.Some? {
        directCost := Some(outbound.value.price + inbound.value.price);
      } else {
        directCost := None;
      }
      assert directCost == RoundTripFare(outbound, inbound);
    }

    method CreateDirectResponse(request: SearchRequest) returns (response: SearchResponse)
      requires Valid() && ValidOrdinal(request.startDate) && ValidOrdinal(request.startDate + TripNights(request))
      modifies cache
      ensures (response.directCost, cache.store) == DirectCostOutcome(old(cache.store), amadeus, request)
      ensures response == DirectResponse(Upper(request.departure), Upper(request.destination), response.directCost)
    {
      var directCost := GetDirectCost(request);
      var dep := Upper(request.departure);
      var dest := Upper(request.destination);
      response := SearchResponse(directCost.GetOr(0), [], GetDirectRoutePattern(dep, dest), false, directCost);
    }

    /** The whole search: fill the graph from scratch with the fares of every leg the
        initial templates need, refresh the gateways from it, collect the itineraries
        of the regenerated templates, and answer. The answer is the cheapest collected
        itinerary (the first of the cheapest) with its valid segments, compared with
        the direct fare; the direct-fare answer when nothing was collected or no
        segment is valid. */
    method Search(request: SearchRequest) returns (response: SearchResponse, ghost queries: seq<Query>, ghost fetched: seq<Option<FlightSegment>>)
      requires Valid()
      requires ValidOrdinal(request.startDate) && ValidOrdinal(request.endDate)
      requires ValidOrdinal(request.startDate + TripNights(request))
      modifies graph, cache
      ensures Valid()
      ensures forall q :: q in queries <==>
        (q.0, q.1) in NeededLegs(Templates(Upper(request.departure), Upper(request.destination),
          UpperAll(old(graph.entryAirports)), UpperAll(old(graph.exitAirports)), true))
        && request.startDate <= q.2 <= request.endDate && q.2 < request.startDate + MAX_DATES_PER_LEG
      ensures forall q :: q in queries ==> ValidOrdinal(q.2)
      ensures AskedOnce(queries)
      ensures fetched == FetchAll(old(cache.store), amadeus, airlabs, queries).0
      ensures graph.graph == IngestAll(map[], Somes(fetched))
      ensures var entries := EntryCandidates(graph.graph, KOREAN_AIRPORTS, JAPANESE_AIRPORTS);
        graph.entryAirports == if entries != {} then SortedSet(entries) else old(graph.entryAirports)
      ensures var exits := ExitCandidates(graph.graph, KOREAN_AIRPORTS, JAPANESE_AIRPORTS);
        graph.exitAirports == if exits != {} then SortedSet(exits) else old(graph.exitAirports)
      ensures var dep, dest := Upper(request.departure), Upper(request.destination);
        var templates := Templates(dep, dest, UpperAll(graph.entryAirports), UpperAll(graph.exitAirports), true);
        response == Answer(dep, dest, Collected(graph.graph, templates, CandidatePairs(request), dest), response.directCost)
      ensures var afterFetch := FetchAll(old(cache.store), amadeus, airlabs, queries).1;
        (response.directCost, cache.store) == DirectCostOutcome(afterFetch, amadeus, request)
    {
      var dep := Upper(request.departure);
      var dest := Upper(request.destination);
      var templates;
      templates, queries, fetched := PrepareGraph(request, dep, dest);
      response := SearchDates(request, templates, dest);
    }

    /** The last steps of the search: every usable template on the first date pairs,
        then the answer built from the cheapest result. */
    method SearchDates(request: SearchRequest, templates: seq<Template>, dest: string) returns (response: SearchResponse)
      requires Valid() && ValidOrdinal(request.startDate) && ValidOrdinal(request.endDate)
      requires ValidOrdinal(request.startDate + TripNights(request))
      requires dest == Upper(request.destination)
      modifies cache
      ensures response == Answer(Upper(request.departure), dest, Collected(graph.graph, templates, CandidatePairs(request), dest), response.directCost)
      ensures (response.directCost, cache.store) == DirectCostOutcome(old(cache.store), amadeus, request)
    {
      var tripNights := TripNights(request);
      var datePairs := GetDepartureReturnPairs(request.startDate, request.endDate, tripNights);
      var candidatePairs := datePairs[..Min(MAX_DATE_PAIRS, |datePairs|)];
      CandidatePairsAreFirstPairs(request, datePairs);

      var itineraries := CollectItineraries(templates, candidatePairs, dest);
      if itineraries != [] {
        CollectedSurvivesFilter(graph.graph, templates, candidatePairs, dest, FindCheapestItinerary(itineraries).value);
      }
      response := RespondWithCheapest(request, itineraries);
    }

    /** The first steps of the search: clear the graph, fill it for the initial
        templates, refresh the gateways and regenerate the templates. */
    method PrepareGraph(request: SearchRequest, dep: string, dest: string)
      returns (templates: seq<Template>, ghost queries: seq<Query>, ghost fetched: seq<Option<FlightSegment>>)
      requires Valid() && ValidOrdinal(request.startDate) && ValidOrdinal(request.endDate)
      requires dep == Upper(request.departure) && dest == Upper(request.destination)
      modifies graph, cache
      ensures Valid()
      ensures forall q :: q in queries <==>
        (q.0, q.1) in NeededLegs(Templates(dep, dest, UpperAll(old(graph.entryAirports)), UpperAll(old(graph.exitAirports)), true))
        && request.startDate <= q.2 <= request.endDate && q.2 < request.startDate + MAX_DATES_PER_LEG
      ensures forall q :: q in queries ==> ValidOrdinal(q.2)
      ensures AskedOnce(queries)
      ensures (fetched, cache.store) == FetchAll(old(cache.store), amadeus, airlabs, queries)
      ensures graph.graph == IngestAll(map[], Somes(fetched))
      ensures var entries := EntryCandidates(graph.graph, KOREAN_AIRPORTS, JAPANESE_AIRPORTS);
        graph.entryAirports == if entries != {} then SortedSet(entries) else old(graph.entryAirports)
      ensures var exits := ExitCandidates(graph.graph, KOREAN_AIRPORTS, JAPANESE_AIRPORTS);
        graph.exitAirports == if exits != {} then SortedSet(exits) else old(graph.exitAirports)
      ensures templates == Templates(dep, dest, UpperAll(graph.entryAirports), UpperAll(graph.exitAirports), true)
    {
      UpperIdempotent(request.departure);
      UpperIdempotent(request.destination);
      graph.Clear();
      templates := templateEngine.GenerateTemplates(dep, dest, true);
      queries, fetched := PopulateGraph(request, templates);
      graph.RefreshEntryExitFromGraph(Some(KOREAN_AIRPORTS), Some(JAPANESE_AIRPORTS));
      templates := templateEngine.GenerateTemplates(dep, dest, true);
    }

    /** The last steps of the search: the cheapest itinerary (the first of the
        cheapest) with its valid segments, compared with the direct fare; the
        direct-fare answer when there is no itinerary or no valid segment. Each
        direct-fare answer looks the direct fare up again. */
    method RespondWithCheapest(request: SearchRequest, itineraries: seq<Itinerary>) returns (response: SearchResponse)
      requires Valid() && ValidOrdinal(request.startDate) && ValidOrdinal(request.startDate + TripNights(request))
      modifies cache
      ensures response == Answer(Upper(request.departure), Upper(request.destination), itineraries, response.directCost)
      ensures var first := DirectCostOutcome(old(cache.store), amadeus, request);
        if itineraries != [] && ValidSegments(FindCheapestItinerary(itineraries).value.segments) == [] then
          var second := DirectCostOutcome(first.1, amadeus, request);
          response.directCost == second.0 && cache.store == second.1
        else response.directCost == first.0 && cache.store == first.1
    {
      var cheapest := FindCheapestItinerary(itineraries);
      if cheapest.None? {
        response := CreateDirectResponse(request);
        return;
      }
      var directCost := GetDirectCost(request);
      var cheaperThanDirect := CompareWithDirect(cheapest.value, directCost);
      var validSegments := ValidSegments(cheapest.value.segments);
      if validSegments == [] {
        response := CreateDirectResponse(request);
        return;
      }
      response := SearchResponse(cheapest.value.totalCost, validSegments, GetRoutePattern(cheapest.value),
        cheaperThanDirect, directCost);
    }
  }

  /** The first five pairs `get_departure_return_pairs` lists are the candidate pairs. */
  lemma CandidatePairsAreFirstPairs(request: SearchRequest, datePairs: seq<(int, int)>)
    requires var last := LastPairedDeparture(request.endDate, TripNights(request));
      |datePairs| == if request.startDate <= last then last - request.startDate + 1 else 0
    requires forall i :: 0 <= i < |datePairs| ==> datePairs[i] == (request.startDate + i, request.startDate + i + TripNights(request))
    ensures datePairs[..Min(MAX_DATE_PAIRS, |datePairs|)] == CandidatePairs(request)
  {
  }

  lemma CollectedPrefixStep(g: EdgeMap, templates: seq<Template>, pairs: seq<(int, int)>, destination: string, k: int)
    requires 0 <= k < |templates|
    ensures Collected(g, templates[..k + 1], pairs, destination)
      == Collected(g, templates[..k], pairs, destination)
         + (if Usable(g, templates[k], destination) then CollectedForTemplate(g, templates[k], pairs, destination) else [])
  {
    assert templates[..k + 1][..k] == templates[..k];
  }

  lemma CollectedForTemplateStep(g: EdgeMap, t: Template, pairs: seq<(int, int)>, destination: string, j: int)
    requires 0 <= j < |pairs|
    ensures var it := Attempt(g, t, pairs[j].0, pairs[j].1, destination);
      CollectedForTemplate(g, t, pairs[..j + 1], destination)
        == CollectedForTemplate(g, t, pairs[..j], destination) + (if it.Some? then [it.value] else [])
  {
    assert pairs[..j + 1][..j] == pairs[..j];
  }

  /** The next day of a leg has not been asked yet: the days are different and the
      earlier queries are of other legs. */
  lemma NewDayNotAsked(queries: seq<Query>, queries': seq<Query>, leg: (string, string), dateRange: seq<int>, j: int)
    requires 0 <= j < |dateRange|
    requires forall i, k :: 0 <= i < k < |dateRange| ==> dateRange[i] != dateRange[k]
    requires forall q :: q in queries ==> (q.0, q.1) != leg
    requires forall q :: q in queries' <==> q in queries || ((q.0, q.1) == leg && q.2 in dateRange[..j])
    ensures (leg.0, leg.1, dateRange[j]) !in queries'
  {
  }

  lemma LegQueriesStep(queries: seq<Query>, queries': seq<Query>, leg: (string, string), dateRange: seq<int>, j: int)
    requires 0 <= j < |dateRange|
    requires forall q :: q in queries' <==> q in queries || ((q.0, q.1) == leg && q.2 in dateRange[..j])
    ensures forall q :: q in queries' + [(leg.0, leg.1, dateRange[j])] <==>
      q in queries || ((q.0, q.1) == leg && q.2 in dateRange[..j + 1])
  {
    assert dateRange[..j + 1] == dateRange[..j] + [dateRange[j]];
  }

  lemma FetchAllStep(store: Store, international: Provider, domestic: Provider, queries: seq<Query>, q: Query)
    requires forall x :: x in queries ==> ValidOrdinal(x.2)
    requires ValidOrdinal(q.2) && QuotesValidDates(international) && QuotesValidDates(domestic)
    ensures forall x :: x in queries + [q] ==> ValidOrdinal(x.2)
    ensures var before := FetchAll(store, international, domestic, queries);
      var last := LegFetch(before.1, international, domestic, q);
      FetchAll(store, international, domestic, queries + [q]) == (before.0 + [last.0], last.1)
  {
    assert (queries + [q])[..|queries|] == queries;
  }

  lemma IngestAppend(g: EdgeMap, segs: seq<FlightSegment>, s: FlightSegment)
    ensures IngestAll(g, segs + [s]) == Insert(IngestAll(g, segs), s)
  {
    assert (segs + [s])[..|segs|] == segs;
  }

  lemma SomesStep<T>(os: seq<Option<T>>, k: int)
    requires 0 <= k < |os|
    ensures os[k].None? ==> Somes(os[..k + 1]) == Somes(os[..k])
    ensures os[k].Some? ==> Somes(os[..k + 1]) == Somes(os[..k]) + [os[k].value]
  {
    assert os[..k + 1][..k] == os[..k];
    assert Somes(os[..k]) + [] == Somes(os[..k]);
  }
}
