/** The price graph: origin -> destination -> the fare segments found for that pair,
    plus the candidate entry and exit gateways of the destination country. */
module Graph {
  import opened Wrappers
  import opened Strings
  import opened Order
  import opened FlightSegments

  type EdgeMap = map<string, map<string, seq<FlightSegment>>>

  const DEFAULT_ENTRY_AIRPORTS: seq<string> := ["NRT", "KIX", "FUK"]
  const DEFAULT_EXIT_AIRPORTS: seq<string> := ["NRT", "KIX", "FUK"]

  /** The home-country and destination-country airport sets used when the caller of
      the refresh supplies none. */
  const KOREAN_AIRPORTS: set<string> := {"ICN", "GMP", "PUS", "CJU"}
  const JAPANESE_AIRPORTS: set<string> := {"NRT", "HND", "KIX", "CTS", "FUK", "OKA", "NGO", "ITM"}

  /** The segments stored under (f, t); none for an unknown pair. */
  function Lookup(g: EdgeMap, f: string, t: string): seq<FlightSegment> {
    if f in g && t in g[f] then g[f][t] else []
  }

  /** What `add_segment` does to the dictionary: file the segment, unchanged, under its
      upper-cased codes, after the ones already there; ignore it if a code is empty. */
  function Insert(g: EdgeMap, s: FlightSegment): EdgeMap {
    var f := Upper(s.fromAirport);
    var t := Upper(s.toAirport);
    if f == "" || t == "" then g
    else g[f := (if f in g then g[f] else map[])[t := Lookup(g, f, t) + [s]]]
  }

  /** Adding the segments one after the other. */
  function IngestAll(g: EdgeMap, segs: seq<FlightSegment>): EdgeMap {
    if segs == [] then g else Insert(IngestAll(g, segs[..|segs| - 1]), segs[|segs| - 1])
  }

  /** The segments of `segs` that `add_segment` files under (f, t), in order. */
  function Matching(segs: seq<FlightSegment>, f: string, t: string): seq<FlightSegment> {
    if segs == [] then []
    else
      var s := segs[|segs| - 1];
      Matching(segs[..|segs| - 1], f, t)
        + (if Upper(s.fromAirport) == f && Upper(s.toAirport) == t && f != "" && t != "" then [s] else [])
  }

  /** The invariant of the dictionary: every segment sits under its own upper-cased,
      non-empty codes. */
  ghost predicate WellFormed(g: EdgeMap) {
    forall f, t, s :: f in g && t in g[f] && s in g[f][t] ==>
      Upper(s.fromAirport) == f && Upper(s.toAirport) == t && f != "" && t != ""
  }

  lemma InsertLookup(g: EdgeMap, s: FlightSegment, f: string, t: string)
    ensures Lookup(Insert(g, s), f, t) == Lookup(g, f, t) + Matching([s], f, t)
  {
    assert [s][..0] == [];
  }

  lemma InsertWellFormed(g: EdgeMap, s: FlightSegment)
    requires WellFormed(g)
    ensures WellFormed(Insert(g, s))
  {
    UpperIdempotent(s.fromAirport);
    UpperIdempotent(s.toAirport);
  }

  lemma {:induction false} IngestWellFormed(g: EdgeMap, segs: seq<FlightSegment>)
    requires WellFormed(g)
    ensures WellFormed(IngestAll(g, segs))
  {
    if segs != [] {
      IngestWellFormed(g, segs[..|segs| - 1]);
      InsertWellFormed(IngestAll(g, segs[..|segs| - 1]), segs[|segs| - 1]);
    }
  }

  /** Ingesting a list appends to each pair's list exactly the ingested segments filed
      under that pair, in their order; no other list changes and nothing is merged. */
  lemma {:induction false} IngestLookup(g: EdgeMap, segs: seq<FlightSegment>, f: string, t: string)
    ensures Lookup(IngestAll(g, segs), f, t) == Lookup(g, f, t) + Matching(segs, f, t)
  {
    if segs != [] {
      var init := segs[..|segs| - 1];
      var s := segs[|segs| - 1];
      IngestLookup(g, init, f, t);
      InsertLookup(IngestAll(g, init), s, f, t);
      assert Matching([s], f, t) == (if Upper(s.fromAirport) == f && Upper(s.toAirport) == t && f != "" && t != "" then [s] else []) by {
        assert [s][..0] == [];
      }
    }
  }

  /** `[s for s in segs if s.date == d]`. */
  function OnDate(segs: seq<FlightSegment>, d: int): seq<FlightSegment> {
    if segs == [] then []
    else OnDate(segs[..|segs| - 1], d) + (if segs[|segs| - 1].date == d then [segs[|segs| - 1]] else [])
  }

  /** The filter keeps each segment on the date as often as it occurs, and no other. */
  lemma {:induction false} OnDateSpec(segs: seq<FlightSegment>, d: int)
    ensures forall s :: multiset(OnDate(segs, d))[s] == if s.date == d then multiset(segs)[s] else 0
  {
    if segs != [] {
      var init := segs[..|segs| - 1];
      assert segs == init + [segs[|segs| - 1]];
      OnDateSpec(init, d);
    }
  }

  /** The filter works segment by segment: filtering a concatenation filters each part. */
  lemma {:induction false} OnDateAppend(a: seq<FlightSegment>, b: seq<FlightSegment>, d: int)
    ensures OnDate(a + b, d) == OnDate(a, d) + OnDate(b, d)
  {
    if b == [] {
      assert a + b == a;
    } else {
      var init := b[..|b| - 1];
      assert (a + b)[..|a + b| - 1] == a + init;
      assert (a + b)[|a + b| - 1] == b[|b| - 1];
      OnDateAppend(a, init, d);
    }
  }

  /** The filter keeps stored order: what it keeps of the segments before a given one
      comes first, then that segment when it is on the date, then what it keeps of the
      segments after it. */
  lemma OnDateInStoredOrder(a: seq<FlightSegment>, s: FlightSegment, b: seq<FlightSegment>, d: int)
    ensures OnDate(a + [s] + b, d) == OnDate(a, d) + (if s.date == d then [s] else []) + OnDate(b, d)
  {
    OnDateAppend(a + [s], b, d);
    OnDateAppend(a, [s], d);
    assert [s][..0] == [];
  }

  /** The (from, to) pairs that have at least one segment. */
  function Edges(g: EdgeMap): set<(string, string)> {
    set f, t | f in g && t in g[f] && g[f][t] != [] :: (f, t)
  }

  /** Destination-country airports reached by one of `edges` from a home-country airport. */
  function EntriesOf(edges: set<(string, string)>, home: set<string>, away: set<string>): set<string> {
    set p | p in edges && p.0 in home && p.1 in away :: p.1
  }

  /** Destination-country airports with one of `edges` back to a home-country airport. */
  function ExitsOf(edges: set<(string, string)>, home: set<string>, away: set<string>): set<string> {
    set p | p in edges && p.0 in away && p.1 in home :: p.0
  }

  lemma GatewaysStep(edges: set<(string, string)>, p: (string, string), home: set<string>, away: set<string>)
    ensures EntriesOf(edges + {p}, home, away)
      == EntriesOf(edges, home, away) + (if p.0 in home && p.1 in away then {p.1} else {})
    ensures ExitsOf(edges + {p}, home, away)
      == ExitsOf(edges, home, away) + (if p.0 in away && p.1 in home then {p.0} else {})
  {
  }

  /** The loop of the refresh: one pass over the edges, collecting both candidate sets. */
  method CollectGateways(edges: set<(string, string)>, home: set<string>, away: set<string>)
    returns (entries: set<string>, exits: set<string>)
    ensures entries == EntriesOf(edges, home, away)
    ensures exits == ExitsOf(edges, home, away)
  {
    entries, exits := {}, {};
    var remaining := edges;
    while remaining != {}
      invariant remaining <= edges
      invariant entries == EntriesOf(edges - remaining, home, away)
      invariant exits == ExitsOf(edges - remaining, home, away)
      decreases remaining
    {
      var p :| p in remaining;
      GatewaysStep(edges - remaining, p, home, away);
      if p.0 in home && p.1 in away {
        entries := entries + {p.1};
      }
      if p.0 in away && p.1 in home {
        exits := exits + {p.0};
      }
      assert edges - (remaining - {p}) == (edges - remaining) + {p};
      remaining := remaining - {p};
    }
    assert edges - remaining == edges;
  }

  /** The gateway candidates the graph's present edges give. */
  function EntryCandidates(g: EdgeMap, home: set<string>, away: set<string>): set<string> {
    EntriesOf(Edges(g), home, away)
  }

  function ExitCandidates(g: EdgeMap, home: set<string>, away: set<string>): set<string> {
    ExitsOf(Edges(g), home, away)
  }

  /** `get_segments`: the segments stored under the upper-cased pair, all of them or
      only those on `dateFilter`, in stored order. */
  function Segments(g: EdgeMap, fromAirport: string, toAirport: string, dateFilter: Option<int>): seq<FlightSegment> {
    var f := Upper(fromAirport);
    var t := Upper(toAirport);
    if f !in g || t !in g[f] then []
    else
      var segments := g[f][t];
      if dateFilter.Some? then OnDate(segments, dateFilter.value) else segments
  }

  /** Without a filter the query returns the stored list; with one, exactly the stored
      segments on that date, each as often as it is stored. */
  lemma SegmentsSpec(g: EdgeMap, fromAirport: string, toAirport: string, dateFilter: Option<int>)
    ensures var stored := Lookup(g, Upper(fromAirport), Upper(toAirport));
      var r := Segments(g, fromAirport, toAirport, dateFilter);
      && (dateFilter.None? ==> r == stored)
      && (dateFilter.Some? ==> forall s ::
            multiset(r)[s] == if s.date == dateFilter.value then multiset(stored)[s] else 0)
      && (dateFilter.Some? ==> forall s :: s in r <==> s in stored && s.date == dateFilter.value)
  {
    var stored := Lookup(g, Upper(fromAirport), Upper(toAirport));
    var r := Segments(g, fromAirport, toAirport, dateFilter);
    if dateFilter.Some? {
      OnDateSpec(stored, dateFilter.value);
      forall s ensures s in r <==> s in stored && s.date == dateFilter.value {
        assert multiset(r)[s] == if s.date == dateFilter.value then multiset(stored)[s] else 0;
      }
    }
  }

  /** The date-filtered query keeps stored order: around any stored segment, what it
      keeps of the earlier ones comes first, then that segment when it is on the date,
      then what it keeps of the later ones. */
  lemma SegmentsInStoredOrder(g: EdgeMap, fromAirport: string, toAirport: string, d: int)
    ensures var stored := Lookup(g, Upper(fromAirport), Upper(toAirport));
      forall k :: 0 <= k < |stored| ==>
        Segments(g, fromAirport, toAirport, Some(d))
          == OnDate(stored[..k], d) + (if stored[k].date == d then [stored[k]] else []) + OnDate(stored[k + 1..], d)
  {
    var stored := Lookup(g, Upper(fromAirport), Upper(toAirport));
    forall k | 0 <= k < |stored|
      ensures Segments(g, fromAirport, toAirport, Some(d))
        == OnDate(stored[..k], d) + (if stored[k].date == d then [stored[k]] else []) + OnDate(stored[k + 1..], d)
    {
      assert stored == stored[..k] + [stored[k]] + stored[k + 1..];
      OnDateInStoredOrder(stored[..k], stored[k], stored[k + 1..], d);
    }
  }

  /** `get_cheapest_segment`: the first cheapest of the pair's segments (of those on
      `dateFilter`, when given); none when there are none. */
  function Cheapest(g: EdgeMap, fromAirport: string, toAirport: string, dateFilter: Option<int>): Option<FlightSegment> {
    var segments := Segments(g, fromAirport, toAirport, dateFilter);
    if segments == [] then None else Some(segments[ArgMin(segments, Price)])
  }

  lemma CheapestSpec(g: EdgeMap, fromAirport: string, toAirport: string, dateFilter: Option<int>)
    ensures var segs := Segments(g, fromAirport, toAirport, dateFilter);
      var r := Cheapest(g, fromAirport, toAirport, dateFilter);
      && (r.None? <==> segs == [])
      && (r.Some? ==> exists k ::
            0 <= k < |segs| && segs[k] == r.value && (forall j :: 0 <= j < k ==> r.value.price < segs[j].price))
      && (r.Some? ==> forall s :: s in segs ==> r.value.price <= s.price)
  {
    var segs := Segments(g, fromAirport, toAirport, dateFilter);
    if segs != [] {
      ArgMinSpec(segs, Price);
    }
  }

  /** `get_cheapest_segment_strict`: the cheapest segment of the pair on exactly
      `flightDate`, with no fallback to other days. */
  function CheapestStrict(g: EdgeMap, fromAirport: string, toAirport: string, flightDate: int): Option<FlightSegment> {
    Cheapest(g, fromAirport, toAirport, Some(flightDate))
  }

  lemma CheapestStrictSpec(g: EdgeMap, fromAirport: string, toAirport: string, flightDate: int)
    ensures var stored := Lookup(g, Upper(fromAirport), Upper(toAirport));
      var r := CheapestStrict(g, fromAirport, toAirport, flightDate);
      && (r.None? <==> forall s :: s in stored ==> s.date != flightDate)
      && (r.Some? ==> r.value in stored && r.value.date == flightDate)
      && (r.Some? ==> forall s :: s in stored && s.date == flightDate ==> r.value.price <= s.price)
  {
    SegmentsSpec(g, fromAirport, toAirport, Some(flightDate));
    CheapestSpec(g, fromAirport, toAirport, Some(flightDate));
  }

  /** The all-dates query is never dearer than the query for one date: it is the
      fallback the assembler uses, and it only widens the candidates. */
  lemma AnyDateNoDearerThanOneDate(g: EdgeMap, f: string, t: string, d: int)
    requires Cheapest(g, f, t, Some(d)).Some?
    ensures Cheapest(g, f, t, None).Some?
    ensures Cheapest(g, f, t, None).value.price <= Cheapest(g, f, t, Some(d)).value.price
  {
    CheapestSpec(g, f, t, Some(d));
    CheapestSpec(g, f, t, None);
    SegmentsSpec(g, f, t, Some(d));
    SegmentsSpec(g, f, t, None);
  }

  /** In a well-formed dictionary a segment found for a pair runs between the pair's
      airports, up to case. */
  lemma SegmentsRunBetween(g: EdgeMap, f: string, t: string, dateFilter: Option<int>, s: FlightSegment)
    requires WellFormed(g) && s in Segments(g, f, t, dateFilter)
    ensures Upper(s.fromAirport) == Upper(f) && Upper(s.toAirport) == Upper(t)
    ensures s.fromAirport != "" && s.toAirport != ""
  {
    SegmentsSpec(g, f, t, dateFilter);
    UpperIdempotent(s.fromAirport);
    UpperIdempotent(s.toAirport);
  }

  class FlightGraph {
    var graph: EdgeMap
    var entryAirports: seq<string>
    var exitAirports: seq<string>

    ghost predicate Valid()
      reads this
    {
      WellFormed(graph)
    }

    /** An empty graph; absent or empty candidate lists fall back to the defaults. */
    constructor (entry: Option<seq<string>>, exit: Option<seq<string>>)
      ensures Valid() && graph == map[]
      ensures entryAirports == UpperAll(if entry.Some? && entry.value != [] then entry.value else DEFAULT_ENTRY_AIRPORTS)
      ensures exitAirports == UpperAll(if exit.Some? && exit.value != [] then exit.value else DEFAULT_EXIT_AIRPORTS)
    {
      graph := map[];
      entryAirports := UpperAll(if entry.Some? && entry.value != [] then entry.value else DEFAULT_ENTRY_AIRPORTS);
      exitAirports := UpperAll(if exit.Some? && exit.value != [] then exit.value else DEFAULT_EXIT_AIRPORTS);
    }

    /** Files one segment under its upper-cased codes; `None` or an empty code is ignored. */
    method AddSegment(segment: Option<FlightSegment>)
      requires Valid()
      modifies this
      ensures Valid()
      ensures entryAirports == old(entryAirports) && exitAirports == old(exitAirports)
      ensures graph == if segment.Some? then Insert(old(graph), segment.value) else old(graph)
      ensures forall f, t ::
        Lookup(graph, f, t) == Lookup(old(graph), f, t) + (if segment.Some? then Matching([segment.value], f, t) else [])
    {
      if segment.None? {
        return;
      }
      var s := segment.value;
      var fromAirport := Upper(s.fromAirport);
      var toAirport := Upper(s.toAirport);
      if fromAirport == "" || toAirport == "" {
        assert [s][..0] == [];
        return;
      }
      var inner := if fromAirport in graph then graph[fromAirport] else map[];
      var list := if toAirport in inner then inner[toAirport] else [];
      graph := graph[fromAirport := inner[toAirport := list + [s]]];
      InsertWellFormed(old(graph), s);
      forall f, t ensures Lookup(graph, f, t) == Lookup(old(graph), f, t) + Matching([s], f, t) {
        InsertLookup(old(graph), s, f, t);
      }
    }

    method AddSegments(segments: seq<FlightSegment>)
      requires Valid()
      modifies this
      ensures Valid()
      ensures entryAirports == old(entryAirports) && exitAirports == old(exitAirports)
      ensures graph == IngestAll(old(graph), segments)
    {
      for i := 0 to |segments|
        invariant Valid()
        invariant entryAirports == old(entryAirports) && exitAirports == old(exitAirports)
        invariant graph == IngestAll(old(graph), segments[..i])
      {
        AddSegment(Some(segments[i]));
        assert segments[..i + 1][..i] == segments[..i];
      }
      assert segments[..|segments|] == segments;
    }

    /** Empties the dictionary; the gateway candidates stay as they are. */
    method Clear()
      modifies this
      ensures Valid() && graph == map[]
      ensures entryAirports == old(entryAirports) && exitAirports == old(exitAirports)
    {
      graph := map[];
    }

    function HasEdge(fromAirport: string, toAirport: string): (r: bool)
      reads this
      ensures r <==> Lookup(graph, Upper(fromAirport), Upper(toAirport)) != []
    {
      var f := Upper(fromAirport);
      var t := Upper(toAirport);
      f in graph && t in graph[f] && |graph[f][t]| > 0
    }

    /** The stored list of the upper-cased pair, or the part of it on `dateFilter`. */
    function GetSegments(fromAirport: string, toAirport: string, dateFilter: Option<int>): (r: seq<FlightSegment>)
      reads this
      ensures var stored := Lookup(graph, Upper(fromAirport), Upper(toAirport));
        && (dateFilter.None? ==> r == stored)
        && (dateFilter.Some? ==> forall s ::
              multiset(r)[s] == if s.date == dateFilter.value then multiset(stored)[s] else 0)
        && (dateFilter.Some? ==> forall k :: 0 <= k < |stored| ==>
              r == OnDate(stored[..k], dateFilter.value)
                + (if stored[k].date == dateFilter.value then [stored[k]] else [])
                + OnDate(stored[k + 1..], dateFilter.value))
    {
      SegmentsSpec(graph, fromAirport, toAirport, dateFilter);
      if dateFilter.Some? then
        SegmentsInStoredOrder(graph, fromAirport, toAirport, dateFilter.value);
        Segments(graph, fromAirport, toAirport, dateFilter)
      else
        Segments(graph, fromAirport, toAirport, dateFilter)
    }

    /** None when the query finds no segment; otherwise the first of the cheapest. */
    function GetCheapestSegment(fromAirport: string, toAirport: string, dateFilter: Option<int>): (r: Option<FlightSegment>)
      reads this
      ensures var segs := GetSegments(fromAirport, toAirport, dateFilter);
        && (r.None? <==> segs == [])
        && (r.Some? ==> exists k ::
              0 <= k < |segs| && segs[k] == r.value && (forall j :: 0 <= j < k ==> r.value.price < segs[j].price))
        && (r.Some? ==> forall s :: s in segs ==> r.value.price <= s.price)
    {
      CheapestSpec(graph, fromAirport, toAirport, dateFilter);
      Cheapest(graph, fromAirport, toAirport, dateFilter)
    }

    /** None when no stored segment of the pair is on `flightDate`; otherwise the
        cheapest of those on it. */
    function GetCheapestSegmentStrict(fromAirport: string, toAirport: string, flightDate: int): (r: Option<FlightSegment>)
      reads this
      ensures var stored := Lookup(graph, Upper(fromAirport), Upper(toAirport));
        && (r.None? <==> forall s :: s in stored ==> s.date != flightDate)
        && (r.Some? ==> r.value in stored && r.value.date == flightDate)
        && (r.Some? ==> forall s :: s in stored && s.date == flightDate ==> r.value.price <= s.price)
    {
      CheapestStrictSpec(graph, fromAirport, toAirport, flightDate);
      CheapestStrict(graph, fromAirport, toAirport, flightDate)
    }

    method GetAllEdges() returns (edges: set<(string, string)>)
      ensures edges == Edges(graph)
      ensures forall f, t :: (f, t) in edges <==> Lookup(graph, f, t) != []
    {
      edges := {};
      var froms := graph.Keys;
      while froms != {}
        invariant froms <= graph.Keys
        invariant forall p :: p in edges <==> p in Edges(graph) && p.0 !in froms
        decreases froms
      {
        var f :| f in froms;
        var tos := graph[f].Keys;
        while tos != {}
          invariant tos <= graph[f].Keys
          invariant forall p :: p in edges <==>
            p in Edges(graph) && (p.0 !in froms || (p.0 == f && p.1 !in tos))
          decreases tos
        {
          var t :| t in tos;
          if graph[f][t] != [] {
            edges := edges + {(f, t)};
          }
          tos := tos - {t};
        }
        froms := froms - {f};
      }
    }

    method SetEntryAirports(airports: seq<string>)
      modifies this
      ensures entryAirports == UpperNonEmpty(airports)
      ensures graph == old(graph) && exitAirports == old(exitAirports)
    {
      entryAirports := UpperNonEmpty(airports);
    }

    method SetExitAirports(airports: seq<string>)
      modifies this
      ensures exitAirports == UpperNonEmpty(airports)
      ensures graph == old(graph) && entryAirports == old(entryAirports)
    {
      exitAirports := UpperNonEmpty(airports);
    }

    /** Re-derives the gateway candidates from the edges actually present: entries are
        the away airports reached from home, exits the away airports with an edge home.
        A list is replaced, by the sorted candidates, only when some candidate exists. */
    method RefreshEntryExitFromGraph(home: Option<set<string>>, away: Option<set<string>>)
      modifies this
      ensures graph == old(graph)
      ensures var entries := EntryCandidates(graph, home.GetOr(KOREAN_AIRPORTS), away.GetOr(JAPANESE_AIRPORTS));
        entryAirports == if entries != {} then SortedSet(entries) else old(entryAirports)
      ensures var exits := ExitCandidates(graph, home.GetOr(KOREAN_AIRPORTS), away.GetOr(JAPANESE_AIRPORTS));
        exitAirports == if exits != {} then SortedSet(exits) else old(exitAirports)
    {
      var homeSet := home.GetOr(KOREAN_AIRPORTS);
      var awaySet := away.GetOr(JAPANESE_AIRPORTS);
      var edges := GetAllEdges();
      var entries, exits := CollectGateways(edges, homeSet, awaySet);
      if entries != {} {
        entryAirports := SortedSet(entries);
      }
      if exits != {} {
        exitAirports := SortedSet(exits);
      }
    }
  }

  /** Edge queries do not depend on the case of the codes asked about. */
  lemma HasEdgeIgnoresCase(g: FlightGraph, f: string, t: string)
    ensures g.HasEdge(f, t) == g.HasEdge(Upper(f), Upper(t))
  {
    UpperIdempotent(f);
    UpperIdempotent(t);
  }
}
