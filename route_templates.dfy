/** The route template engine: the bounded set of round-trip airport sequences a
    search prices, their validation, and the check that every leg is in the graph. */
module RouteTemplates {
  import opened Wrappers
  import opened Strings
  import opened Graph

  /** A candidate round trip, as a sequence of airport codes. */
  type Template = seq<string>

  /** Shape B, `[dep, entry, dest, dep]` for each entry other than the destination. */
  function ShapeB(dep: string, dest: string, entries: seq<string>): seq<Template> {
    if entries == [] then []
    else
      var e := entries[|entries| - 1];
      ShapeB(dep, dest, entries[..|entries| - 1]) + (if e == dest then [] else [[dep, e, dest, dep]])
  }

  /** Shape C for one entry: `[dep, entry, dest, exit, dep]` for each exit other than the entry. */
  function ShapeCRow(dep: string, dest: string, entry: string, exits: seq<string>): seq<Template> {
    if exits == [] then []
    else
      var x := exits[|exits| - 1];
      ShapeCRow(dep, dest, entry, exits[..|exits| - 1]) + (if entry == x then [] else [[dep, entry, dest, x, dep]])
  }

  function ShapeC(dep: string, dest: string, entries: seq<string>, exits: seq<string>): seq<Template> {
    if entries == [] then []
    else
      var e := entries[|entries| - 1];
      ShapeC(dep, dest, entries[..|entries| - 1], exits) + (if e == dest then [] else ShapeCRow(dep, dest, e, exits))
  }

  /** Shape D for one ordered entry pair: `[dep, entry1, entry2, dest, exit, dep]` for every exit. */
  function ShapeDRow(dep: string, dest: string, e1: string, e2: string, exits: seq<string>): seq<Template> {
    if exits == [] then []
    else ShapeDRow(dep, dest, e1, e2, exits[..|exits| - 1]) + [[dep, e1, e2, dest, exits[|exits| - 1], dep]]
  }

  /** Shape D for a first entry: every second entry that is neither the destination nor the first. */
  function ShapeDInner(dep: string, dest: string, e1: string, seconds: seq<string>, exits: seq<string>): seq<Template> {
    if seconds == [] then []
    else
      var e2 := seconds[|seconds| - 1];
      ShapeDInner(dep, dest, e1, seconds[..|seconds| - 1], exits)
        + (if e2 == dest || e2 == e1 then [] else ShapeDRow(dep, dest, e1, e2, exits))
  }

  function ShapeD(dep: string, dest: string, firsts: seq<string>, entries: seq<string>, exits: seq<string>): seq<Template> {
    if firsts == [] then []
    else
      var e1 := firsts[|firsts| - 1];
      ShapeD(dep, dest, firsts[..|firsts| - 1], entries, exits)
        + (if e1 == dest then [] else ShapeDInner(dep, dest, e1, entries, exits))
  }

  /** Every template `generate_templates` lists, in its order: the direct round trip,
      then shapes B and C, then shape D when two entries are allowed and there are two. */
  function Templates(dep: string, dest: string, entries: seq<string>, exits: seq<string>, allowTwoEntries: bool): seq<Template> {
    [[dep, dest, dep]] + ShapeB(dep, dest, entries) + ShapeC(dep, dest, entries, exits)
      + (if allowTwoEntries && |entries| >= 2 then ShapeD(dep, dest, entries, entries, exits) else [])
  }

  /** The templates described shape by shape, independently of the generation order. */
  predicate IsTemplate(t: Template, dep: string, dest: string, entries: seq<string>, exits: seq<string>, allowTwoEntries: bool) {
    || t == [dep, dest, dep]
    || (exists e :: e in entries && e != dest && t == [dep, e, dest, dep])
    || (exists e, x :: e in entries && x in exits && e != dest && e != x && t == [dep, e, dest, x, dep])
    || (allowTwoEntries && |entries| >= 2 && exists e1, e2, x ::
          e1 in entries && e2 in entries && x in exits && e1 != dest && e2 != dest && e1 != e2
          && t == [dep, e1, e2, dest, x, dep])
  }

  lemma {:induction false} ShapeBMembers(dep: string, dest: string, entries: seq<string>, t: Template)
    ensures t in ShapeB(dep, dest, entries) <==> exists e :: e in entries && e != dest && t == [dep, e, dest, dep]
  {
    if entries != [] {
      var init := entries[..|entries| - 1];
      assert entries == init + [entries[|entries| - 1]];
      ShapeBMembers(dep, dest, init, t);
    }
  }

  /** Shape B is built entry by entry: the templates of a concatenation are those of
      each part, in order. */
  lemma {:induction false} ShapeBAppend(dep: string, dest: string, a: seq<string>, b: seq<string>)
    ensures ShapeB(dep, dest, a + b) == ShapeB(dep, dest, a) + ShapeB(dep, dest, b)
  {
    if b == [] {
      assert a + b == a;
    } else {
      var init := b[..|b| - 1];
      assert (a + b)[..|a + b| - 1] == a + init;
      assert (a + b)[|a + b| - 1] == b[|b| - 1];
      ShapeBAppend(dep, dest, a, init);
    }
  }

  /** Shape B follows the entry list: each entry other than the destination gives its
      one template, after those of the earlier entries and before those of the later. */
  lemma ShapeBInEntryOrder(dep: string, dest: string, a: seq<string>, e: string, b: seq<string>)
    ensures ShapeB(dep, dest, a + [e] + b)
      == ShapeB(dep, dest, a) + (if e == dest then [] else [[dep, e, dest, dep]]) + ShapeB(dep, dest, b)
  {
    ShapeBAppend(dep, dest, a + [e], b);
    ShapeBAppend(dep, dest, a, [e]);
    assert [e][..0] == [];
  }

  lemma {:induction false} ShapeCRowMembers(dep: string, dest: string, entry: string, exits: seq<string>, t: Template)
    ensures t in ShapeCRow(dep, dest, entry, exits) <==> exists x :: x in exits && entry != x && t == [dep, entry, dest, x, dep]
  {
    if exits != [] {
      var init := exits[..|exits| - 1];
      assert exits == init + [exits[|exits| - 1]];
      ShapeCRowMembers(dep, dest, entry, init, t);
    }
  }

  lemma {:induction false} ShapeCMembers(dep: string, dest: string, entries: seq<string>, exits: seq<string>, t: Template)
    ensures t in ShapeC(dep, dest, entries, exits)
      <==> exists e, x :: e in entries && x in exits && e != dest && e != x && t == [dep, e, dest, x, dep]
  {
    if entries != [] {
      var init := entries[..|entries| - 1];
      var e := entries[|entries| - 1];
      assert entries == init + [e];
      ShapeCMembers(dep, dest, init, exits, t);
      ShapeCRowMembers(dep, dest, e, exits, t);
    }
  }

  lemma {:induction false} ShapeDRowMembers(dep: string, dest: string, e1: string, e2: string, exits: seq<string>, t: Template)
    ensures t in ShapeDRow(dep, dest, e1, e2, exits) <==> exists x :: x in exits && t == [dep, e1, e2, dest, x, dep]
  {
    if exits != [] {
      var init := exits[..|exits| - 1];
      assert exits == init + [exits[|exits| - 1]];
      ShapeDRowMembers(dep, dest, e1, e2, init, t);
    }
  }

  lemma {:induction false} ShapeDInnerMembers(dep: string, dest: string, e1: string, seconds: seq<string>, exits: seq<string>, t: Template)
    ensures t in ShapeDInner(dep, dest, e1, seconds, exits)
      <==> exists e2, x :: e2 in seconds && x in exits && e2 != dest && e2 != e1 && t == [dep, e1, e2, dest, x, dep]
  {
    if seconds != [] {
      var init := seconds[..|seconds| - 1];
      var e2 := seconds[|seconds| - 1];
      assert seconds == init + [e2];
      ShapeDInnerMembers(dep, dest, e1, init, exits, t);
      ShapeDRowMembers(dep, dest, e1, e2, exits, t);
    }
  }

  lemma {:induction false} ShapeDMembers(dep: string, dest: string, firsts: seq<string>, entries: seq<string>, exits: seq<string>, t: Template)
    ensures t in ShapeD(dep, dest, firsts, entries, exits)
      <==> exists e1, e2, x :: e1 in firsts && e2 in entries && x in exits && e1 != dest && e2 != dest && e1 != e2
             && t == [dep, e1, e2, dest, x, dep]
  {
    if firsts != [] {
      var init := firsts[..|firsts| - 1];
      var e1 := firsts[|firsts| - 1];
      assert firsts == init + [e1];
      ShapeDMembers(dep, dest, init, entries, exits, t);
      ShapeDInnerMembers(dep, dest, e1, entries, exits, t);
    }
  }

  /** The generated list holds exactly the templates of the four shapes. */
  lemma TemplatesMembers(dep: string, dest: string, entries: seq<string>, exits: seq<string>, allowTwoEntries: bool, t: Template)
    ensures t in Templates(dep, dest, entries, exits, allowTwoEntries) <==> IsTemplate(t, dep, dest, entries, exits, allowTwoEntries)
  {
    ShapeBMembers(dep, dest, entries, t);
    ShapeCMembers(dep, dest, entries, exits, t);
    ShapeDMembers(dep, dest, entries, entries, exits, t);
  }

  /** The direct round trip always comes first. */
  lemma DirectTemplateFirst(dep: string, dest: string, entries: seq<string>, exits: seq<string>, allowTwoEntries: bool)
    ensures var ts := Templates(dep, dest, entries, exits, allowTwoEntries);
      |ts| >= 1 && ts[0] == [dep, dest, dep]
  {
  }

  lemma {:induction false} ShapeBCount(dep: string, dest: string, entries: seq<string>)
    ensures |ShapeB(dep, dest, entries)| <= |entries|
  {
    if entries != [] {
      ShapeBCount(dep, dest, entries[..|entries| - 1]);
    }
  }

  lemma {:induction false} ShapeCRowCount(dep: string, dest: string, entry: string, exits: seq<string>)
    ensures |ShapeCRow(dep, dest, entry, exits)| <= |exits|
  {
    if exits != [] {
      ShapeCRowCount(dep, dest, entry, exits[..|exits| - 1]);
    }
  }

  lemma {:induction false} ShapeCCount(dep: string, dest: string, entries: seq<string>, exits: seq<string>)
    ensures |ShapeC(dep, dest, entries, exits)| <= |entries| * |exits|
  {
    if entries != [] {
      var init := entries[..|entries| - 1];
      ShapeCCount(dep, dest, init, exits);
      ShapeCRowCount(dep, dest, entries[|entries| - 1], exits);
      MulSucc(|init|, |exits|);
    }
  }

  lemma {:induction false} ShapeDRowCount(dep: string, dest: string, e1: string, e2: string, exits: seq<string>)
    ensures |ShapeDRow(dep, dest, e1, e2, exits)| == |exits|
  {
    if exits != [] {
      ShapeDRowCount(dep, dest, e1, e2, exits[..|exits| - 1]);
    }
  }

  lemma MulSucc(a: int, b: int)
    ensures (a + 1) * b == a * b + b
  {
  }

  /** A first entry is never paired with itself, so it loses one row of exits. */
  lemma {:induction false} ShapeDInnerCount(dep: string, dest: string, e1: string, seconds: seq<string>, exits: seq<string>)
    ensures |ShapeDInner(dep, dest, e1, seconds, exits)| + (if e1 in seconds then |exits| else 0) <= |seconds| * |exits|
  {
    if seconds != [] {
      var init := seconds[..|seconds| - 1];
      var e2 := seconds[|seconds| - 1];
      assert seconds == init + [e2];
      assert e1 in seconds <==> e1 in init || e1 == e2;
      ShapeDInnerCount(dep, dest, e1, init, exits);
      ShapeDRowCount(dep, dest, e1, e2, exits);
      MulSucc(|init|, |exits|);
    }
  }

  lemma {:induction false} ShapeDCount(dep: string, dest: string, firsts: seq<string>, entries: seq<string>, exits: seq<string>)
    requires forall e :: e in firsts ==> e in entries
    ensures |ShapeD(dep, dest, firsts, entries, exits)| <= |firsts| * ((|entries| - 1) * |exits|)
  {
    if firsts != [] {
      var init := firsts[..|firsts| - 1];
      var e1 := firsts[|firsts| - 1];
      assert forall e :: e in init ==> e in firsts;
      ShapeDCount(dep, dest, init, entries, exits);
      ShapeDInnerCount(dep, dest, e1, entries, exits);
      assert e1 in entries;
      MulSucc(|entries| - 1, |exits|);
      MulSucc(|init|, (|entries| - 1) * |exits|);
    }
  }

  lemma ShapeDStep(dep: string, dest: string, entries: seq<string>, i: int, exits: seq<string>)
    requires 0 <= i < |entries|
    ensures ShapeD(dep, dest, entries[..i + 1], entries, exits)
      == ShapeD(dep, dest, entries[..i], entries, exits)
         + (if entries[i] == dest then [] else ShapeDInner(dep, dest, entries[i], entries, exits))
  {
    var firsts := entries[..i + 1];
    assert firsts[..|firsts| - 1] == entries[..i];
    assert firsts[|firsts| - 1] == entries[i];
  }

  /** The generator is bounded: with n entries and m exits it lists at most
      1 + n + n*m + n*(n-1)*m templates. */
  lemma TemplatesCount(dep: string, dest: string, entries: seq<string>, exits: seq<string>, allowTwoEntries: bool)
    ensures var n, m := |entries|, |exits|;
      |Templates(dep, dest, entries, exits, allowTwoEntries)| <= 1 + n + n * m + n * ((n - 1) * m)
  {
    var n, m := |entries|, |exits|;
    var b := ShapeB(dep, dest, entries);
    var c := ShapeC(dep, dest, entries, exits);
    var d := if allowTwoEntries && n >= 2 then ShapeD(dep, dest, entries, entries, exits) else [];
    assert |Templates(dep, dest, entries, exits, allowTwoEntries)| == 1 + |b| + |c| + |d|;
    ShapeBCount(dep, dest, entries);
    ShapeCCount(dep, dest, entries, exits);
    if allowTwoEntries && n >= 2 {
      ShapeDCount(dep, dest, entries, entries, exits);
    } else if n >= 1 {
      ProductNonNegative(n - 1, m);
      ProductNonNegative(n, (n - 1) * m);
    }
  }

  lemma AppendAssociative<T>(a: seq<T>, b: seq<T>, c: seq<T>)
    ensures (a + b) + c == a + (b + c)
  {
  }

  lemma ProductNonNegative(a: int, b: int)
    requires a >= 0 && b >= 0
    ensures a * b >= 0
  {
  }

  predicate Distinct(s: seq<string>) {
    forall i, j :: 0 <= i < j < |s| ==> s[i] != s[j]
  }

  /** `len(set(s)) == len(s)` exactly when `s` repeats nothing. */
  lemma {:induction false} DistinctCardinality(s: seq<string>)
    ensures |set a | a in s| <= |s|
    ensures |set a | a in s| == |s| <==> Distinct(s)
  {
    if s != [] {
      var init := s[..|s| - 1];
      var x := s[|s| - 1];
      assert s == init + [x];
      DistinctCardinality(init);
      assert (set a | a in s) == (set a | a in init) + {x};
      if x in init {
        assert (set a | a in s) == (set a | a in init);
        var k :| 0 <= k < |init| && init[k] == x;
        assert s[k] == s[|s| - 1];
      } else {
        assert Distinct(s) <==> Distinct(init);
      }
    }
  }

  /** `validate_template`: a round trip of 3 to 6 stops, no interior airport twice,
      and the destination, when one is given, among the interior stops. The engine's
      method uses no engine state. */
  function ValidateTemplate(template: Template, destination: Option<string>): (r: bool)
    ensures r <==>
      && |template| >= 3
      && Upper(template[0]) == Upper(template[|template| - 1])
      && Distinct(UpperAll(template[1..|template| - 1]))
      && |template| <= 6
      && (destination.Some? && destination.value != "" ==> Upper(destination.value) in UpperAll(template[1..|template| - 1]))
  {
    if |template| < 3 then false
    else if Upper(template[0]) != Upper(template[|template| - 1]) then false
    else
      var middle := UpperAll(template[1..|template| - 1]);
      DistinctCardinality(middle);
      if |middle| != |set a | a in middle| then false
      else if |middle| > 4 then false
      else if destination.Some? && destination.value != "" && Upper(destination.value) !in middle then false
      else true
  }

  lemma UpperAllFixed(xs: seq<string>)
    requires forall x :: x in xs ==> IsUpper(x)
    ensures UpperAll(xs) == xs
  {
    forall i | 0 <= i < |xs| ensures UpperAll(xs)[i] == xs[i] {
      assert xs[i] in xs;
    }
  }

  /** A generated template over upper-case codes passes validation for its
      destination exactly when its interior stops are all different: shapes A and B
      always, shape C unless the exit is the destination, shape D unless the exit
      repeats an entry or the destination. */
  lemma GeneratedTemplateValidates(dep: string, dest: string, entries: seq<string>, exits: seq<string>, allowTwoEntries: bool, t: Template)
    requires IsUpper(dep) && IsUpper(dest) && dest != ""
    requires forall e :: e in entries ==> IsUpper(e)
    requires forall x :: x in exits ==> IsUpper(x)
    requires t in Templates(dep, dest, entries, exits, allowTwoEntries)
    ensures 3 <= |t| <= 6
    ensures ValidateTemplate(t, Some(dest)) <==> Distinct(t[1..|t| - 1])
  {
    TemplatesMembers(dep, dest, entries, exits, allowTwoEntries, t);
    var middle: seq<string>;
    if t == [dep, dest, dep] {
      middle := [dest];
    } else if exists e :: e in entries && e != dest && t == [dep, e, dest, dep] {
      var e :| e in entries && e != dest && t == [dep, e, dest, dep];
      middle := [e, dest];
    } else if exists e, x :: e in entries && x in exits && e != dest && e != x && t == [dep, e, dest, x, dep] {
      var e, x :| e in entries && x in exits && e != dest && e != x && t == [dep, e, dest, x, dep];
      middle := [e, dest, x];
    } else {
      var e1, e2, x :| e1 in entries && e2 in entries && x in exits && e1 != dest && e2 != dest && e1 != e2
        && t == [dep, e1, e2, dest, x, dep];
      middle := [e1, e2, dest, x];
    }
    RoundTripValidates(t, dep, middle, dest);
  }

  /** An upper-case round trip with one to four interior stops, the destination among
      them, is accepted exactly when its interior stops differ. */
  lemma RoundTripValidates(t: Template, dep: string, middle: seq<string>, dest: string)
    requires t == [dep] + middle + [dep] && 1 <= |middle| <= 4
    requires IsUpper(dep) && forall x :: x in middle ==> IsUpper(x)
    requires dest in middle && dest != ""
    ensures 3 <= |t| <= 6
    ensures t[1..|t| - 1] == middle
    ensures ValidateTemplate(t, Some(dest)) <==> Distinct(middle)
  {
    assert t[1..|t| - 1] == middle;
    UpperAllFixed(middle);
  }

  /** Shape D's four interior stops are within the bound: an upper-case shape-D
      template whose interior stops differ is accepted for its destination. */
  lemma ShapeDTemplateAccepted(dep: string, e1: string, e2: string, dest: string, x: string)
    requires IsUpper(dep) && IsUpper(e1) && IsUpper(e2) && IsUpper(dest) && IsUpper(x)
    requires Distinct([e1, e2, dest, x]) && dest != ""
    ensures ValidateTemplate([dep, e1, e2, dest, x, dep], Some(dest))
  {
    var t := [dep, e1, e2, dest, x, dep];
    assert t[1..5] == [e1, e2, dest, x];
    UpperAllFixed(t[1..5]);
  }

  /** A repeated interior airport is rejected whatever the destination. */
  lemma RepeatedStopRejected(t: Template, destination: Option<string>, i: int, j: int)
    requires |t| >= 3 && 1 <= i < j < |t| - 1 && Upper(t[i]) == Upper(t[j])
    ensures !ValidateTemplate(t, destination)
  {
    var inner := t[1..|t| - 1];
    var middle := UpperAll(inner);
    assert inner[i - 1] == t[i] && inner[j - 1] == t[j];
    assert middle[i - 1] == middle[j - 1];
    assert !Distinct(middle);
  }

  /** `available_segments.get((f, t), False)`. */
  predicate Available(available: map<(string, string), bool>, f: string, t: string) {
    (f, t) in available && available[(f, t)]
  }

  class RouteTemplateEngine {
    const graph: FlightGraph

    constructor (graph: FlightGraph)
      ensures this.graph == graph
    {
      this.graph := graph;
    }

    /** Leg i of the template is usable: in the given availability map under its
        upper-cased codes, or, when no map is given, an edge of the graph. */
    predicate LegAvailable(template: Template, available: Option<map<(string, string), bool>>, i: int)
      requires 0 <= i < |template| - 1
      reads graph
    {
      if available.Some? then Available(available.value, Upper(template[i]), Upper(template[i + 1]))
      else graph.HasEdge(template[i], template[i + 1])
    }

    method GenerateTemplates(departure: string, destination: string, allowTwoEntries: bool) returns (templates: seq<Template>)
      ensures templates == Templates(Upper(departure), Upper(destination),
        UpperAll(graph.entryAirports), UpperAll(graph.exitAirports), allowTwoEntries)
    {
      var dep := Upper(departure);
      var dest := Upper(destination);
      var entries := UpperAll(graph.entryAirports);
      var exits := UpperAll(graph.exitAirports);

      templates := [[dep, dest, dep]];
      templates := AppendShapeB(dep, dest, entries, templates);
      templates := AppendShapeC(dep, dest, entries, exits, templates);
      if allowTwoEntries && |entries| >= 2 {
        templates := AppendShapeD(dep, dest, entries, exits, templates);
      }
    }

    /** The loop of shape B. */
    static method AppendShapeB(dep: string, dest: string, entries: seq<string>, before: seq<Template>)
      returns (templates: seq<Template>)
      ensures templates == before + ShapeB(dep, dest, entries)
    {
      templates := before;
      for i := 0 to |entries|
        invariant templates == before + ShapeB(dep, dest, entries[..i])
      {
        assert ShapeB(dep, dest, entries[..i + 1])
          == ShapeB(dep, dest, entries[..i]) + (if entries[i] == dest then [] else [[dep, entries[i], dest, dep]]) by {
          assert entries[..i + 1][..i] == entries[..i];
        }
        if entries[i] != dest {
          templates := templates + [[dep, entries[i], dest, dep]];
        }
      }
      assert entries[..|entries|] == entries;
    }

    /** The loops of shape C. */
    static method AppendShapeC(dep: string, dest: string, entries: seq<string>, exits: seq<string>, before: seq<Template>)
      returns (templates: seq<Template>)
      ensures templates == before + ShapeC(dep, dest, entries, exits)
    {
      templates := before;
      for i := 0 to |entries|
        invariant templates == before + ShapeC(dep, dest, entries[..i], exits)
      {
        var entry := entries[i];
        assert ShapeC(dep, dest, entries[..i + 1], exits)
          == ShapeC(dep, dest, entries[..i], exits) + (if entry == dest then [] else ShapeCRow(dep, dest, entry, exits)) by {
          assert entries[..i + 1][..i] == entries[..i];
        }
        if entry != dest {
          templates := AppendShapeCRow(dep, dest, entry, exits, templates);
        }
      }
      assert entries[..|entries|] == entries;
    }

    static method AppendShapeCRow(dep: string, dest: string, entry: string, exits: seq<string>, before: seq<Template>)
      returns (templates: seq<Template>)
      ensures templates == before + ShapeCRow(dep, dest, entry, exits)
    {
      templates := before;
      for j := 0 to |exits|
        invariant templates == before + ShapeCRow(dep, dest, entry, exits[..j])
      {
        assert ShapeCRow(dep, dest, entry, exits[..j + 1])
          == ShapeCRow(dep, dest, entry, exits[..j]) + (if entry == exits[j] then [] else [[dep, entry, dest, exits[j], dep]]) by {
          assert exits[..j + 1][..j] == exits[..j];
        }
        if entry != exits[j] {
          templates := templates + [[dep, entry, dest, exits[j], dep]];
        }
      }
      assert exits[..|exits|] == exits;
    }

    /** The loops of shape D. */
    static method AppendShapeD(dep: string, dest: string, entries: seq<string>, exits: seq<string>, before: seq<Template>)
      returns (templates: seq<Template>)
      ensures templates == before + ShapeD(dep, dest, entries, entries, exits)
    {
      templates := before;
      for i := 0 to |entries|
        invariant templates == before + ShapeD(dep, dest, entries[..i], entries, exits)
      {
        var entry1 := entries[i];
        ShapeDStep(dep, dest, entries, i, exits);
        ghost var done := ShapeD(dep, dest, entries[..i], entries, exits);
        if entry1 != dest {
          templates := AppendShapeDInner(dep, dest, entry1, entries, exits, templates);
          AppendAssociative(before, done, ShapeDInner(dep, dest, entry1, entries, exits));
        } else {
          assert done + [] == done;
        }
      }
      assert entries[..|entries|] == entries;
    }

    static method AppendShapeDInner(dep: string, dest: string, entry1: string, seconds: seq<string>, exits: seq<string>, before: seq<Template>)
      returns (templates: seq<Template>)
      ensures templates == before + ShapeDInner(dep, dest, entry1, seconds, exits)
    {
      templates := before;
      for j := 0 to |seconds|
        invariant templates == before + ShapeDInner(dep, dest, entry1, seconds[..j], exits)
      {
        var entry2 := seconds[j];
        assert ShapeDInner(dep, dest, entry1, seconds[..j + 1], exits)
          == ShapeDInner(dep, dest, entry1, seconds[..j], exits)
             + (if entry2 == dest || entry2 == entry1 then [] else ShapeDRow(dep, dest, entry1, entry2, exits)) by {
          assert seconds[..j + 1][..j] == seconds[..j];
        }
        if entry2 != dest && entry2 != entry1 {
          templates := AppendShapeDRow(dep, dest, entry1, entry2, exits, templates);
        }
      }
      assert seconds[..|seconds|] == seconds;
    }

    static method AppendShapeDRow(dep: string, dest: string, entry1: string, entry2: string, exits: seq<string>, before: seq<Template>)
      returns (templates: seq<Template>)
      ensures templates == before + ShapeDRow(dep, dest, entry1, entry2, exits)
    {
      templates := before;
      for k := 0 to |exits|
        invariant templates == before + ShapeDRow(dep, dest, entry1, entry2, exits[..k])
      {
        assert ShapeDRow(dep, dest, entry1, entry2, exits[..k + 1])
          == ShapeDRow(dep, dest, entry1, entry2, exits[..k]) + [[dep, entry1, entry2, dest, exits[k], dep]] by {
          assert exits[..k + 1][..k] == exits[..k];
        }
        templates := templates + [[dep, entry1, entry2, dest, exits[k], dep]];
      }
      assert exits[..|exits|] == exits;
    }

    /** `[template]` when every leg is available, otherwise nothing. */
    method ExpandTemplate(template: Template, available: Option<map<(string, string), bool>>) returns (r: seq<Template>)
      ensures r == if |template| >= 2 && forall i :: 0 <= i < |template| - 1 ==> LegAvailable(template, available, i)
        then [template] else []
    {
      if |template| < 2 {
        return [];
      }
      var legs: map<(string, string), bool>;
      if available.None? {
        legs := map[];
        for i := 0 to |template| - 1
          invariant forall key :: key in legs ==> legs[key] == graph.HasEdge(key.0, key.1)
          invariant forall k :: 0 <= k < i ==> (Upper(template[k]), Upper(template[k + 1])) in legs
        {
          var f := Upper(template[i]);
          var t := Upper(template[i + 1]);
          legs := legs[(f, t) := graph.HasEdge(f, t)];
        }
      } else {
        legs := available.value;
      }
      for i := 0 to |template| - 1
        invariant forall k :: 0 <= k < i ==> LegAvailable(template, available, k)
      {
        var f := Upper(template[i]);
        var t := Upper(template[i + 1]);
        HasEdgeIgnoresCase(graph, template[i], template[i + 1]);
        if !((f, t) in legs && legs[(f, t)]) {
          assert !LegAvailable(template, available, i);
          return [];
        }
      }
      return [template];
    }
  }

  /** A template that survives expansion against the graph has a stored segment on
      every leg, under the legs' upper-cased codes. */
  lemma ExpandedLegsAreEdges(engine: RouteTemplateEngine, template: Template, i: int)
    requires |template| >= 2 && forall k :: 0 <= k < |template| - 1 ==> engine.LegAvailable(template, None, k)
    requires 0 <= i < |template| - 1
    ensures Lookup(engine.graph.graph, Upper(template[i]), Upper(template[i + 1])) != []
  {
    assert engine.LegAvailable(template, None, i);
  }
}
