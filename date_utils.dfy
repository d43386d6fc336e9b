/** Date arithmetic on day numbers: ranges, departure/return pairs and the date cursor
    that walks a route template leg by leg. */
module DateUtils {

  /** How far past the end of the window a return date may fall. */
  const MAX_RETURN_LOOKAHEAD := 30

  function Min(a: int, b: int): int { if a <= b then a else b }

  /** The consecutive days from `start` to `end`, both included. */
  method GetDateRange(start: int, end: int) returns (dates: seq<int>)
    ensures |dates| == if start <= end then end - start + 1 else 0
    ensures forall i :: 0 <= i < |dates| ==> dates[i] == start + i
  {
    dates := [];
    var current := start;
    while current <= end
      invariant start <= current
      invariant start <= end ==> current <= end + 1
      invariant start > end ==> current == start
      invariant |dates| == current - start
      invariant forall i :: 0 <= i < |dates| ==> dates[i] == start + i
      decreases end - current
    {
      dates := dates + [current];
      current := current + 1;
    }
  }

  /** The return day of a trip of `nights` nights leaving on `departure`. */
  function CalculateReturnDate(departure: int, nights: int): (r: int)
    ensures r - departure == nights
    ensures departure <= r <==> 0 <= nights
  {
    departure + nights
  }

  /** The last departure day whose return still falls within the look-ahead. */
  function LastPairedDeparture(end: int, nights: int): int {
    Min(end, end + MAX_RETURN_LOOKAHEAD - nights)
  }

  /** Every departure day of the window, in order, paired with its return day, keeping
      only the pairs whose return is at most 30 days past the window's end. */
  method GetDepartureReturnPairs(start: int, end: int, nights: int) returns (pairs: seq<(int, int)>)
    ensures forall p :: p in pairs ==>
      start <= p.0 <= end && p.1 == p.0 + nights && p.1 <= end + MAX_RETURN_LOOKAHEAD
    ensures forall i, j :: 0 <= i < j < |pairs| ==> pairs[i].0 < pairs[j].0
    ensures |pairs| <= if start <= end then end - start + 1 else 0
    ensures var last := LastPairedDeparture(end, nights);
      |pairs| == if start <= last then last - start + 1 else 0
    ensures forall i :: 0 <= i < |pairs| ==> pairs[i] == (start + i, start + i + nights)
  {
    pairs := [];
    var current := start;
    ghost var last := LastPairedDeparture(end, nights);
    while current <= end
      invariant start <= current
      invariant start <= end ==> current <= end + 1
      invariant start > end ==> current == start
      invariant |pairs| == if start <= last then Min(current - 1, last) - start + 1 else 0
      invariant forall i :: 0 <= i < |pairs| ==> pairs[i] == (start + i, start + i + nights)
      decreases end - current
    {
      var returnDate := CalculateReturnDate(current, nights);
      if returnDate <= end + MAX_RETURN_LOOKAHEAD {
        pairs := pairs + [(current, returnDate)];
      }
      current := current + 1;
    }
  }

  /** One step of the date cursor: after a leg arriving at `finalDestination` it jumps to
      `returnDate`; otherwise it moves on a day, or stays when same-day transfers are allowed. */
  function NextCursor(current: int, arrival: string, finalDestination: string, returnDate: int, sameDay: bool): int {
    if arrival == finalDestination then returnDate
    else if sameDay then current
    else current + 1
  }

  /** The travel date of leg `i` of a walk whose legs arrive at `arrivals[0]`,
      `arrivals[1]`, ... and which starts on `departure`. */
  function CursorAt(arrivals: seq<string>, finalDestination: string, departure: int, returnDate: int, sameDay: bool, i: nat): int
    requires i <= |arrivals|
  {
    if i == 0 then departure
    else NextCursor(CursorAt(arrivals, finalDestination, departure, returnDate, sameDay, i - 1),
                    arrivals[i - 1], finalDestination, returnDate, sameDay)
  }

  function Step(sameDay: bool, n: int): int { if sameDay then 0 else n }

  /** When the walk reaches the final destination exactly once, at leg `k`, the outbound
      legs 0..k fall on consecutive days from the departure (or all on it, with same-day
      transfers) and the legs after it on consecutive days from the return date. */
  lemma {:induction false} CursorOutboundThenInbound(arrivals: seq<string>, finalDestination: string,
      departure: int, returnDate: int, sameDay: bool, k: nat, i: nat)
    requires k < |arrivals| && arrivals[k] == finalDestination
    requires forall j :: 0 <= j < |arrivals| && j != k ==> arrivals[j] != finalDestination
    requires i <= |arrivals|
    ensures CursorAt(arrivals, finalDestination, departure, returnDate, sameDay, i)
      == if i <= k then departure + Step(sameDay, i) else returnDate + Step(sameDay, i - k - 1)
  {
    if i > 0 {
      CursorOutboundThenInbound(arrivals, finalDestination, departure, returnDate, sameDay, k, i - 1);
    }
  }

  /** The travel date of every leg of `template`, taking its second-to-last airport as the
      point where the cursor jumps to the return date. The source indexes `template[-2]`
      and fails on a template of fewer than two airports. */
  method ComputeSegmentDatesForTemplate(template: seq<string>, departure: int, returnDate: int, sameDay: bool)
    returns (dates: seq<int>)
    requires |template| >= 2
    ensures |dates| == |template| - 1
    ensures dates[0] == departure
    ensures forall i :: 0 <= i < |dates| ==>
      dates[i] == CursorAt(template[1..], template[|template| - 2], departure, returnDate, sameDay, i)
  {
    dates := [];
    var current := departure;
    var finalDestination := template[|template| - 2];
    ghost var arrivals := template[1..];
    for i := 0 to |template| - 1
      invariant |dates| == i
      invariant current == CursorAt(arrivals, finalDestination, departure, returnDate, sameDay, i)
      invariant forall j :: 0 <= j < i ==> dates[j] == CursorAt(arrivals, finalDestination, departure, returnDate, sameDay, j)
    {
      var toAirport := template[i + 1];
      dates := dates + [current];
      if toAirport == finalDestination {
        current := returnDate;
      } else if !sameDay {
        current := current + 1;
      }
    }
  }

  /** The helper above and the assembler disagree on templates whose final destination
      is not the second-to-last airport: for `ICN KIX CTS FUK ICN` towards CTS, the
      helper keeps counting days up to FUK while the assembler jumps to the return date
      right after CTS. */
  lemma ShapeCDatesDiffer(departure: int, returnDate: int)
    requires returnDate != departure + 2
    ensures var template := ["ICN", "KIX", "CTS", "FUK", "ICN"];
      CursorAt(template[1..], template[|template| - 2], departure, returnDate, false, 2)
        != CursorAt(template[1..], "CTS", departure, returnDate, false, 2)
  {
    var template := ["ICN", "KIX", "CTS", "FUK", "ICN"];
    var arrivals := template[1..];
    assert arrivals == ["KIX", "CTS", "FUK", "ICN"];
    assert arrivals[0] != "FUK" && arrivals[1] != "FUK";
    assert CursorAt(arrivals, "FUK", departure, returnDate, false, 1) == departure + 1;
    assert CursorAt(arrivals, "FUK", departure, returnDate, false, 2) == departure + 2;
    assert CursorAt(template[1..], "CTS", departure, returnDate, false, 2) == returnDate;
  }
}
