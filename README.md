# Flown itinerary search, modelled in Dafny

Flown searches round trips from a Korean airport to a Japanese destination. It
prices each trip as a chain of one-way fares that may enter and leave Japan through
different gateway airports.

The core works in four steps:
- It fills a **price graph** (origin → destination → the fare segments found) with
  fares from two providers. International legs go to one provider and domestic legs
  to the other, both behind a cache.
- It enumerates **route templates**: the direct round trip, and round trips through
  one entry gateway, through an entry and an exit gateway, or through two entry
  gateways. It validates each template and keeps those whose every leg is an edge
  of the graph.
- An **assembler** walks each template with a date cursor. It resolves each leg to
  the cheapest stored fare, first strictly on the cursor date, then relaxed, and
  sums the prices.
- The search answers with the cheapest itinerary, compared with the direct
  round-trip fare, or with the direct fare alone when nothing could be assembled.

This project models that core and proves what each part promises.

| file | models |
|---|---|
| `wrappers.dfy` | `Option`, and the values present in a list of optional results |
| `order.dfy` | Python's `min(xs, key=…)`: the first element with the least key |
| `strings.dfy` | `str.upper` (ASCII letters), `str.join`, string ordering and `sorted` on a set of strings |
| `flight_segment.dfy` | the fare-segment record |
| `flight_graph.dfy` | the price graph and its gateway lists |
| `route_templates.dfy` | template generation, validation and expansion |
| `price_aggregator.dfy` | the cost sum, itinerary assembly, the cheapest itinerary, the comparison with the direct fare |
| `date_utils.dfy` | date ranges, departure/return pairs and the per-template date helper |
| `iso_dates.dfy` | the YYYY-MM-DD text of a date (ISO 8601 calendar date, extended format) and its parsing |
| `itinerary.dfy` | the request, itinerary and response records and the route-pattern strings |
| `cache.dfy` | the cache key builder and reads and writes over an optional store |
| `search_engine.dfy` | the search: graph population, leg classification, cached fetches, collection, the direct fare and the answer |

**Dates.** A date is an integer day number: Python's `date.toordinal()`, where
0001-01-01 is day 1. `+ timedelta(days=1)` is therefore `+ 1`. Text dates go through
`IsoDates`, which converts between day numbers and calendar dates and proves the
round trip.

**Providers and cache store.** Each fare provider is a function from (origin,
destination, day) to an optional segment. A provider that fails quotes nothing.
The cache store is an optional map from key to (entry, time to live). It is absent
when no connection could be made.

**Shape of each core file.**
- Code that updates state in place is modelled as classes: `FlightGraph`,
  `RouteTemplateEngine`, `PriceAggregator`, `CacheManager` and `SearchEngine`. Their
  methods have `modifies` clauses, and their loops are `while`/`for` loops with
  invariants.
- Each such method is proved equal to a specification function, for example:
  - `Insert`/`IngestAll` for the graph;
  - `Templates` for the generator;
  - `Assembly` for the assembler;
  - `Collected` and `Answer` for the search;
  - `FetchOutcome`/`FetchAll`/`DirectCostOutcome` for the cached fetches.
- The properties the source promises are lemmas about those functions.

## Model

| member | source | states |
|---|---|---|
| Order.ArgMinSpec | backend/app/services/price_aggregator.py:123 | the index `min(key=)` picks holds a least key, and every element before it has a strictly greater key (the first of the cheapest) |
| Strings.UpperIdempotent | backend/app/services/flight_graph.py:56-57 | upper-casing keeps the length and is idempotent |
| Strings.UpperAll | backend/app/services/route_templates.py:48-49 | `[a.upper() for a in xs]`: same length, element i is `xs[i]` upper-cased |
| Strings.UpperNonEmpty | backend/app/services/flight_graph.py:180 | `[a.upper() for a in xs if a]`: no longer than the input, only non-empty upper-case codes, every non-empty input code appears upper-cased, nothing else appears |
| Strings.SortedSet | backend/app/services/flight_graph.py:214 | `sorted(s)` of a set of strings is strictly increasing and holds exactly the set's elements |
| Strings.SortedUnique | backend/app/services/flight_graph.py:214-216 | two strictly sorted lists with the same elements are equal, so `sorted` of a set is determined by the set |
| Strings.LessTotal | backend/app/utils/cache.py:146 | Python's string order is total |
| Strings.LessTransitive | backend/app/utils/cache.py:146 | Python's string order is transitive |
| Graph.FlightGraph.constructor | backend/app/services/flight_graph.py:30-46 | the graph starts empty; an absent or empty gateway list falls back to `["NRT","KIX","FUK"]`, upper-cased |
| Graph.FlightGraph.AddSegment | backend/app/services/flight_graph.py:51-62 | `None` or a segment with an empty code leaves the graph unchanged; otherwise the segment is appended, unchanged and without de-duplication, to the list under its upper-cased codes, and every other list is unchanged; the invariant is kept and the gateways are untouched |
| Graph.InsertLookup | backend/app/services/flight_graph.py:56-62 | after one insertion each pair's list is its old list plus the segment exactly when the segment files under that pair |
| Graph.IngestLookup | backend/app/services/flight_graph.py:64-67 | after inserting a list, each pair's list is its old list followed by exactly the inserted segments filed under it, in order |
| Graph.IngestWellFormed | backend/app/services/flight_graph.py:56-62 | insertion keeps every segment under its own upper-cased non-empty codes |
| Graph.FlightGraph.AddSegments | backend/app/services/flight_graph.py:64-67 | the graph becomes the segments inserted one after the other; the invariant is kept |
| Graph.FlightGraph.Clear | backend/app/services/flight_graph.py:69-71 | the graph is emptied; the gateway lists are unchanged |
| Graph.FlightGraph.HasEdge | backend/app/services/flight_graph.py:76-80 | true exactly when the upper-cased pair has a non-empty list |
| Graph.HasEdgeIgnoresCase | backend/app/services/flight_graph.py:76-80 | the edge test does not depend on the case of the codes asked about |
| Graph.OnDateSpec | backend/app/services/flight_graph.py:99-100 | the date filter keeps each segment on the date as often as it is stored, and no other |
| Graph.SegmentsSpec | backend/app/services/flight_graph.py:82-102 | an unknown pair gives `[]`; without a filter the stored list is returned; with one, exactly the stored segments on that date, with their multiplicities |
| Graph.CheapestSpec | backend/app/services/flight_graph.py:104-120 | none exactly when the (filtered) list is empty; otherwise the first segment of the list whose price is at most every other's |
| Graph.OnDateAppend | backend/app/services/flight_graph.py:99-100 | filtering a concatenation by date filters each part and concatenates the results |
| Graph.OnDateInStoredOrder | backend/app/services/flight_graph.py:99-100 | the filter keeps stored order: around any segment, what it keeps of the earlier segments comes first, then the segment itself when it is on the date, then what it keeps of the later ones |
| Graph.SegmentsInStoredOrder | backend/app/services/flight_graph.py:91-102 | the date-filtered query lists the matching segments in stored order, which is the order `min` breaks price ties by |
| Graph.FlightGraph.GetSegments | backend/app/services/flight_graph.py:82-102 | the stored list of the upper-cased pair, or exactly its segments on the filter date, with their multiplicities and in stored order |
| Graph.FlightGraph.GetCheapestSegment | backend/app/services/flight_graph.py:104-120 | none exactly when the query finds no segment; otherwise the first segment of the query whose price is at most every other's |
| Graph.FlightGraph.GetCheapestSegmentStrict | backend/app/services/flight_graph.py:122-137 | none exactly when no stored segment of the pair is on the date; otherwise a stored segment on that date, no dearer than any other on it |
| Graph.CheapestStrictSpec | backend/app/services/flight_graph.py:122-137 | the strict query is none exactly when no stored segment of the pair is on the date; otherwise a stored segment on that date, no dearer than any other on it |
| Graph.AnyDateNoDearerThanOneDate | backend/app/services/flight_graph.py:113-120 | when a date-filtered query finds a segment, the all-dates query finds one too, at a price no higher |
| Graph.SegmentsRunBetween | backend/app/services/flight_graph.py:56-102 | in a well-formed graph every segment returned for a pair runs between the pair's airports, up to case, with non-empty codes |
| Graph.FlightGraph.GetAllEdges | backend/app/services/flight_graph.py:150-157 | the result is exactly the set of pairs with a non-empty list |
| Graph.CollectGateways | backend/app/services/flight_graph.py:204-211 | the loop over the edges collects exactly the destination-country airports reached from home and those with an edge back home |
| Graph.FlightGraph.SetEntryAirports | backend/app/services/flight_graph.py:178-180 | the entry list becomes the input upper-cased with empty codes dropped; nothing else changes |
| Graph.FlightGraph.SetExitAirports | backend/app/services/flight_graph.py:182-184 | the same for the exit list |
| Graph.FlightGraph.RefreshEntryExitFromGraph | backend/app/services/flight_graph.py:186-216 | the default Korean and Japanese sets are used when none is given; each list becomes the sorted candidate set when that set is non-empty and is kept otherwise; the graph is unchanged |
| RouteTemplates.TemplatesMembers | backend/app/services/route_templates.py:43-82 | the generated list holds exactly the direct trip, shape B for entries other than the destination, shape C for such entries and exits other than the entry, and shape D (only with two entries allowed and at least two entries) for ordered pairs of different entries other than the destination with any exit |
| RouteTemplates.DirectTemplateFirst | backend/app/services/route_templates.py:52 | the first template is always `[dep, dest, dep]` |
| RouteTemplates.TemplatesCount | backend/app/services/route_templates.py:52-80 | with n entries and m exits at most 1 + n + n·m + n·(n−1)·m templates are generated |
| RouteTemplates.ShapeBAppend | backend/app/services/route_templates.py:55-58 | the shape-B templates of a concatenated entry list are those of each part, in order |
| RouteTemplates.ShapeBInEntryOrder | backend/app/services/route_templates.py:55-58 | each entry other than the destination gives exactly one shape-B template, after those of the earlier entries and before those of the later ones; the destination gives none |
| RouteTemplates.ShapeBMembers | backend/app/services/route_templates.py:55-58 | shape B is `[dep, e, dest, dep]` for each entry e other than the destination |
| RouteTemplates.ShapeCMembers | backend/app/services/route_templates.py:61-69 | shape C skips entry = destination and entry = exit but never compares the exit with the destination |
| RouteTemplates.ShapeDMembers | backend/app/services/route_templates.py:72-80 | shape D uses two different entries, neither the destination, and any exit |
| RouteTemplates.RouteTemplateEngine.GenerateTemplates | backend/app/services/route_templates.py:20-82 | the nested loops produce exactly `Templates` over the upper-cased codes and gateway lists, in that order |
| RouteTemplates.DistinctCardinality | backend/app/services/route_templates.py:108 | `len(set(s)) == len(s)` exactly when no element repeats |
| RouteTemplates.ValidateTemplate | backend/app/services/route_templates.py:84-124 | true exactly for at least 3 codes, equal first and last codes up to case, pairwise different upper-cased interior codes, at most 4 of them, and the given non-empty destination among them |
| RouteTemplates.GeneratedTemplateValidates | backend/app/services/route_templates.py:52-124 | a generated upper-case template has 3 to 6 codes and is valid for its destination exactly when its interior codes differ |
| RouteTemplates.ShapeDTemplateAccepted | backend/app/services/route_templates.py:111-116 | shape D, with four interior codes, passes validation when they differ |
| RouteTemplates.RepeatedStopRejected | backend/app/services/route_templates.py:105-109 | a template with a repeated interior code (up to case) is rejected whatever the destination |
| RouteTemplates.RouteTemplateEngine.ExpandTemplate | backend/app/services/route_templates.py:126-161 | `[]` for fewer than 2 codes; otherwise `[template]` exactly when every upper-cased leg is true in the given map, or is an edge of the graph when no map is given |
| RouteTemplates.ExpandedLegsAreEdges | backend/app/services/route_templates.py:146-161 | a template that survives expansion against the graph has a stored segment on every leg |
| PriceAggregation.CalculateTotalCost | backend/app/services/price_aggregator.py:21-29 | the total of no segments is 0, and a total of non-negative fares is non-negative (additivity and bounds are the next two rows) |
| PriceAggregation.TotalCostAppend | backend/app/services/price_aggregator.py:21-29 | the total of a concatenation is the sum of the totals |
| PriceAggregation.TotalCostBounds | backend/app/services/price_aggregator.py:21-29 | with non-negative fares the total is at least each fare |
| PriceAggregation.FindCheapestItinerary | backend/app/services/price_aggregator.py:116-123 | none exactly for an empty list; otherwise a member whose cost is at most every other's, and the first such |
| PriceAggregation.CompareWithDirect | backend/app/services/price_aggregator.py:125-133 | true when the direct cost is absent or 0, otherwise exactly when the itinerary is strictly cheaper |
| PriceAggregation.PriceAggregator.BuildItineraryFromTemplate | backend/app/services/price_aggregator.py:31-114 | the loop with its date cursor computes exactly `Assembly`: none for fewer than 3 codes or as soon as a leg does not resolve |
| PriceAggregation.PriceAggregator.FindLegSegment | backend/app/services/price_aggregator.py:69-84 | a leg resolves strictly on the cursor date, or relaxed to the day's cheapest with the all-dates cheapest as fallback |
| PriceAggregation.LegDateStep | backend/app/services/price_aggregator.py:101-111 | the cursor jumps to the return date after the leg arriving at the destination, otherwise moves on a day unless same-day transfers are allowed |
| PriceAggregation.PinnedShape | backend/app/services/price_aggregator.py:65-94 | a prefix of legs is assembled exactly when each leg resolved, and then holds each resolved segment with its date replaced by the cursor date |
| PriceAggregation.AssemblySucceedsIff | backend/app/services/price_aggregator.py:57-94 | assembly succeeds exactly for 3 or more codes each of whose legs resolves on its cursor date |
| PriceAggregation.AssembledItineraryShape | backend/app/services/price_aggregator.py:113-114 | an assembled itinerary has one segment per leg, and its cost is the sum of its segment prices |
| PriceAggregation.AssembledSegmentAt | backend/app/services/price_aggregator.py:90-94 | segment i is what leg i resolves to, copied with the cursor date |
| PriceAggregation.StrictAssemblyUsesStoredSegments | backend/app/services/price_aggregator.py:70-75 | with strict matching each segment is a stored segment of its leg on exactly the cursor date, no dearer than any other stored on that date |
| PriceAggregation.StrictSuccessImpliesRelaxedSame | backend/app/services/price_aggregator.py:69-84 | when strict assembly succeeds, relaxed assembly gives the same itinerary |
| PriceAggregation.RelaxedLegResolvesIffEdge | backend/app/services/price_aggregator.py:76-84 | in relaxed mode a leg resolves exactly when its pair has a stored segment |
| PriceAggregation.RelaxedAssemblySucceedsIffEdges | backend/app/services/price_aggregator.py:76-88 | relaxed assembly succeeds exactly for 3 or more codes whose every leg is an edge, whatever the dates |
| PriceAggregation.AssembledSegmentsFollowTemplate | backend/app/services/price_aggregator.py:65-94 | in a well-formed graph segment i runs from code i to code i + 1 of the template, up to case |
| PriceAggregation.AssembledDatesOutboundThenInbound | backend/app/services/price_aggregator.py:61-111 | when the destination is reached once, at leg k, legs 0..k fall on consecutive days from departure and the rest on consecutive days from the return date (all on one day with same-day transfers) |
| DateUtils.GetDateRange | backend/app/utils/date_utils.py:12-19 | the days start..end inclusive: `end − start + 1` of them, or none when start > end |
| DateUtils.CalculateReturnDate | backend/app/utils/date_utils.py:22-24 | the return day is exactly `nights` days after departure |
| DateUtils.GetDepartureReturnPairs | backend/app/utils/date_utils.py:27-42 | every pair has its departure in the window, the return `nights` later and at most 30 days past the window; departures strictly increase; the list is the consecutive departures from the start up to the last one allowed |
| DateUtils.CursorOutboundThenInbound | backend/app/utils/date_utils.py:77-85 | with one arrival at the final destination, the cursor counts days from the departure up to it and from the return date after it |
| DateUtils.ComputeSegmentDatesForTemplate | backend/app/utils/date_utils.py:55-87 | one date per leg, the first the departure, each the cursor taking `template[-2]` as the jump point |
| DateUtils.ShapeCDatesDiffer | backend/app/utils/date_utils.py:75 | the helper's `template[-2]` disagrees with the assembler's destination on shape C: for `ICN KIX CTS FUK ICN` towards CTS the third leg's dates differ |
| IsoDates.OrdinalRoundTrip | backend/app/utils/date_utils.py:45-52 | calendar dates and day numbers correspond one to one |
| IsoDates.FormatDateForApi | backend/app/utils/date_utils.py:45-47 | the text of a day is ten characters in the YYYY-MM-DD shape: digits, with hyphens at positions 4 and 7 |
| IsoDates.ParseApiDate | backend/app/utils/date_utils.py:50-52 | text parses exactly when the YYYY-MM-DD parser accepts it; a parsed day is a valid day number whose calendar date is the parsed date, and the text it came from has the YYYY-MM-DD shape |
| IsoDates.ParseFormatApiDate | backend/app/utils/date_utils.py:45-52 | parsing the YYYY-MM-DD text of a day gives the day back |
| IsoDates.FormatParseApiDate | backend/app/utils/date_utils.py:45-52 | text that parses is exactly the text of the day it parses to |
| IsoDates.DaysBeforeYearStep | backend/app/utils/date_utils.py:45-52 | the day count advances by the year's length (366 in leap years), which the ordinal conversion relies on |
| Itineraries.RouteAirports | backend/app/models/itinerary.py:39-41 | the visited airports: each segment's origin, then the last segment's destination; none without segments |
| Itineraries.GetRoutePattern | backend/app/models/itinerary.py:37-42 | the pattern is empty exactly when there are no segments |
| Itineraries.RoutePatternHasOneArrowPerSegment | backend/app/models/itinerary.py:37-42 | with arrow-free codes the pattern of n segments holds n arrows, so n + 1 airport tokens |
| Itineraries.GetDirectRoutePattern | backend/app/models/itinerary.py:44-46 | `dep → dest → dep` is the arrow-join of `[dep, dest, dep]` |
| Itineraries.DirectPatternIsRoundTripPattern | backend/app/models/itinerary.py:37-46 | the direct pattern is the route pattern of the out-and-back itinerary |
| Caching.CacheManager.Get | backend/app/utils/cache.py:64-86 | a miss without a store; otherwise the stored value exactly when the key is present |
| Caching.CacheManager.Set | backend/app/utils/cache.py:88-112 | false and no change without a store; otherwise true, the key maps to the value with its time to live, and no other key changes |
| Caching.CacheManager.Delete | backend/app/utils/cache.py:114-132 | false and no change without a store; otherwise true, the key is gone, and no other key changes |
| Caching.CacheManager.GenerateKey | backend/app/utils/cache.py:134-148 | the loop builds exactly `Key`: the prefix, then `name:value` in name order, joined by colons |
| Caching.KeyStartsWithPrefix | backend/app/utils/cache.py:145 | every key begins with its prefix |
| Caching.KeyIgnoresArgumentOrder | backend/app/utils/cache.py:146-147 | the key does not depend on the order the arguments are passed in |
| Caching.KeyFromSortedNames | backend/app/utils/cache.py:146-148 | the key is the prefix and the parts of any strictly sorted listing of the names |
| Caching.FareKeyOrder | backend/app/utils/cache.py:143-148 | the fare key puts `date` first, then `from_airport`, then `to_airport`, unlike the documented example |
| Search.CacheRoundTrip | backend/app/services/search_engine.py:292-310 | a segment cached with its date as text decodes back to itself |
| Search.CacheEntryDetermined | backend/app/services/search_engine.py:292-299 | an entry that decodes is exactly the encoding of what it decodes to |
| Search.IsInternationalRoute | backend/app/services/search_engine.py:254-273 | an international leg joins two airports of the Korean and Japanese sets |
| Search.InternationalIffCrossesBorder | backend/app/services/search_engine.py:254-273 | international exactly when one upper-cased end is Korean and the other Japanese; legs within Japan or within Korea are domestic |
| Search.InternationalSymmetric | backend/app/services/search_engine.py:254-273 | the classification ignores direction and case |
| Search.TripNights | backend/app/services/search_engine.py:92 | none or 0 nights becomes 3; the result is never 0 |
| Search.FetchTwiceSame | backend/app/services/search_engine.py:285-312 | with a store, a second identical lookup gives the same answer and leaves the store as the first left it |
| Search.FetchWithoutStore | backend/app/services/search_engine.py:285-312 | without a store every lookup is the provider's quote and nothing is kept |
| Search.SearchEngine.constructor | backend/app/services/search_engine.py:31-45 | the engine starts with an empty graph and the default gateways; the template engine and the aggregator share that graph; the cache holds the store that connecting gave |
| Search.SearchEngine.FetchWithCache | backend/app/services/search_engine.py:282-312 | the lookup returns a decoding cached entry, else the provider's quote, which is cached when there is a store |
| Search.SearchEngine.FetchInternationalSegment | backend/app/services/search_engine.py:275-312 | the first provider, the `amadeus` prefix and a 10800-second lifetime |
| Search.SearchEngine.FetchDomesticSegment | backend/app/services/search_engine.py:314-351 | the second provider, the `airlabs` prefix and a 21600-second lifetime |
| Search.NeededLegsSpec | backend/app/services/search_engine.py:198-203 | a leg is needed exactly when it is an upper-cased consecutive pair of some template |
| Search.SearchEngine.CollectNeededSegments | backend/app/services/search_engine.py:197-203 | the nested loops collect exactly the needed legs |
| Search.ValidRequestTemplates | backend/app/models/itinerary.py:13-14 | with the three-letter codes the request validator demands, the upper-cased codes keep three letters, so the destination is never empty: the direct template is generated first and always passes validation, and every generated template passes exactly when its interior stops differ |
| Search.SearchEngine.PopulateGraph | backend/app/services/search_engine.py:190-252 | every needed leg is asked for on exactly the days of the window that are among its first seven, each leg and day once; the answers and the store follow those lookups in order; the graph gains exactly the quoted segments in order; the gateways are untouched |
| Search.SearchEngine.FetchLegs | backend/app/services/search_engine.py:221-237 | every needed leg is asked for on every day of the range, each leg and day exactly once, each lookup with the provider its route calls for; the legs come one after the other, in an order that lists each needed leg once, and each leg's days are asked in range order |
| Search.SearchEngine.FetchLegOnDates | backend/app/services/search_engine.py:221-235 | one leg is asked for on every day of the range, in range order, after the earlier lookups; no leg and day is asked twice |
| Search.SearchEngine.FetchLeg | backend/app/services/search_engine.py:224-233 | international legs go to the international lookup, all others to the domestic one |
| Search.SearchEngine.IngestFetched | backend/app/services/search_engine.py:242-250 | every quoted segment is added to the graph in order; failures add nothing |
| Search.CandidatePairs | backend/app/services/search_engine.py:96-101 | at most 5 pairs, each a departure in the window with its return `trip_nights` later and at most 30 days past the window |
| Search.CandidatePairsAreFirstPairs | backend/app/services/search_engine.py:96-101 | the candidate pairs are the first five pairs the date helper lists |
| Search.AttemptIsRelaxedAssembly | backend/app/services/search_engine.py:118-138 | trying strict assembly first, then relaxed, gives exactly the relaxed assembly |
| Search.UsableTemplateYieldsEveryPair | backend/app/services/search_engine.py:104-141 | a template that passes validation and expansion yields an itinerary for every date pair |
| Search.CollectedSound | backend/app/services/search_engine.py:104-141 | every collected itinerary is the assembly of a template passing both checks on one of the pairs |
| Search.CollectedCount | backend/app/services/search_engine.py:104-141 | the search collects exactly one itinerary per usable template and candidate pair |
| Search.SearchEngine.CollectItineraries | backend/app/services/search_engine.py:104-141 | the template loop collects exactly `Collected`: templates failing validation or expansion contribute nothing |
| Search.SearchEngine.ItinerariesOfTemplate | backend/app/services/search_engine.py:105-112 | one template contributes its assemblies when it passes validation and expansion, and nothing otherwise |
| Search.SearchEngine.AssembleOnPairs | backend/app/services/search_engine.py:115-141 | one template on every pair, each success appended in pair order |
| Search.SearchEngine.AssembleWithFallback | backend/app/services/search_engine.py:118-138 | relaxed assembly is tried only when strict assembly failed |
| Search.ValidSegments | backend/app/services/search_engine.py:168-171 | the filter keeps exactly the segments with both codes non-empty |
| Search.ValidSegmentsKeepsValid | backend/app/services/search_engine.py:168-171 | the filter is the identity on segments with non-empty codes |
| Search.CollectedSurvivesFilter | backend/app/services/search_engine.py:168-180 | in a well-formed graph every collected itinerary has segments and the filter drops none, so the second direct-fare fallback never fires |
| Search.DirectResponse | backend/app/services/search_engine.py:375-387 | the direct-only answer has no segments, is not cheaper than direct, and costs the direct fare or 0 |
| Search.Answer | backend/app/services/search_engine.py:153-188 | the answer carries the direct fare, and is the direct-only answer when nothing was collected |
| Search.AnswerIsCheapest | backend/app/services/search_engine.py:153-188 | over a well-formed graph, when something was collected the answer is the first cheapest itinerary, with all its segments, its pattern and its comparison with the direct fare, and nothing collected is cheaper |
| Search.RoundTripFare | backend/app/services/search_engine.py:371-373 | a fare exactly when both directions are quoted, and then their sum |
| Search.DirectCostIsRoundTripSum | backend/app/services/search_engine.py:353-373 | without a store the direct fare is the outbound quote on the start day plus the inbound quote `trip_nights or 3` days later, when both exist |
| Search.SearchEngine.GetDirectCost | backend/app/services/search_engine.py:353-373 | the direct fare and the store are those of the two international lookups in order |
| Search.SearchEngine.CreateDirectResponse | backend/app/services/search_engine.py:375-387 | the direct fare is looked up again and the direct-only answer built from it |
| Search.SearchEngine.RespondWithCheapest | backend/app/services/search_engine.py:152-188 | the answer is `Answer` over the collected itineraries; the direct fare is looked up once, or twice when the filter leaves no segment |
| Search.SearchEngine.SearchDates | backend/app/services/search_engine.py:92-188 | the answer for the first five date pairs; the direct fare is looked up exactly once |
| Search.SearchEngine.PrepareGraph | backend/app/services/search_engine.py:57-88 | the graph is rebuilt from scratch with the fares of the initial templates' legs, each leg and day asked once, the gateways refreshed, and the templates regenerated from them |
| Search.SearchEngine.Search | backend/app/services/search_engine.py:47-188 | what was fetched (each leg and day once), the graph, the refreshed gateways, the answer (the cheapest itinerary of the regenerated templates on the first five pairs, or the direct-only answer) and the direct fare, all as functions of the request, the providers and the store the search started with |

## Left out

- Concurrency is not modelled. The source fetches concurrently under a semaphore of 20 (`asyncio.gather`). The model asks one leg and day after the other and then adds the results in the order asked. The in-flight cap has no sequential counterpart.
- The order of the needed legs is not fixed. The source iterates a Python set in an order the language leaves unspecified. The model picks any remaining leg at each step, so its contracts hold for every order.
- Provider internals are not modelled: HTTP, retries and random mock prices. Each provider is a function of (origin, destination, day), and an empty answer or a failure is "no segment". During graph population this matches the source: `gather(return_exceptions=True)` and the fetch wrapper turn an exception into no segment.
- Search.SearchEngine.GetDirectCost: the source's direct-fare lookups run without a `try`, and the provider re-raises after its last retry. A provider failure on a direct leg therefore ends `search` (and `_create_direct_response`) with an exception. The model instead answers with no direct fare, so `GetDirectCost`, `CreateDirectResponse`, `RespondWithCheapest`, `SearchDates` and `Search` do not capture that exception path.
- Redis is not modelled: connection, JSON (de)serialisation, read and write errors, and time-to-live expiry. The store is a map that is present or absent. A write to a present store always succeeds, and entries never expire. A cached entry whose date text does not parse falls through to the provider, as the source's `except` does.
- Logging is left out throughout.
- Upper-casing covers only the ASCII letters. Python's `str.upper` also maps other scripts and can lengthen a string. Airport codes are ASCII.
- Dates are limited to years 1 to 9999. Python raises `OverflowError` when date arithmetic leaves that range. `Search`, `GetDirectCost` and the fetch methods require the dates they pass to the fare lookups to be valid days. Date ranges and pairs are computed on unbounded day numbers.
- IsoDates.Format always writes the year with four digits, zero-padded below 1000. The source's `strftime("%Y-%m-%d")` pads only on some C libraries. On glibc, year 999 gives `999-01-01`, which `date.fromisoformat` rejects, so there a cached segment dated before year 1000 never decodes and the lookup falls through to the provider. `IsoDates.FormatDateForApi` states the four-digit shape, and `IsoDates.ParseFormatApiDate` and `Search.CacheRoundTrip` state the round trip for every year from 1 to 9999, so they hold on the padding platforms only.
- `IsoDates.Parse` covers only the YYYY-MM-DD form. Python 3.11's `date.fromisoformat` also accepts the basic and week-date forms; any text the model does not parse is treated like text Python rejects.
- `FlightGraph.get_available_destinations`, `get_available_origins`, `is_entry_airport`, `is_exit_airport`, `get_entry_airports` and `get_exit_airports` are left out. They are read-only accessors that the core never calls, except the last two. Those two copy a list, and the model reads the field directly.
- `ValidSegments` drops the source's `seg` and `seg.date` tests. Segments in an itinerary are never `None`, and a `date` object is always true.
- `DateUtils.ComputeSegmentDatesForTemplate` requires at least two codes. With fewer, the source's `template[-2]` raises `IndexError`.
- `RouteTemplates.ValidateTemplate` is a module-level function. The source's method reads no engine state.
- Pydantic runtime validation is left out beyond the three-letter code rule on `SearchRequest`, which is stated by `Itineraries.ValidSearchRequest`.
- HTTP routing, startup, settings and re-exports (`main.py`, the controller, `config/settings.py` and the package `__init__` files) are not part of this model.
