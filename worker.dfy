/**
 * DownloadMonthRunnable: one worker per calendar month. For every year from
 * START_YEAR up to END_YEAR it fetches that month's climate summary, and for
 * each station element either appends a reading to the station already in
 * its list or adds the new station. The first exception ends the run and
 * leaves the list as it stood.
 */
module MonthDownload {
  import opened Wrappers
  import opened Stations

  const START_YEAR: int := 1850
  const END_YEAR: int := 2023

  /** What getStation finds: a station with the identifier, none, or a listed station whose null identifier it dereferences. */
  datatype Lookup = Found(index: nat) | NotFound | NullIdentifier(index: nat)

  /** The exceptions a station element raises; either one, like a document that does not parse, ends the run. */
  datatype WorkerError =
    | UnknownProvince        // Province.valueOf on a missing or unknown code
    | NullStationIdentifier  // getStation reaching a listed station without an identifier

  /** A listed station answers the lookup: its identifier is non-null and equals `id`. */
  predicate Matches(v: StationValue, id: Option<string>)
  {
    v.identifier.Some? && v.identifier == id
  }

  /** getStation's loop from position `from` on: the first station that matches or cannot be compared. */
  function FindFrom(vs: seq<StationValue>, id: Option<string>, from: nat): (r: Lookup)
    ensures r.Found? ==> from <= r.index < |vs| && Matches(vs[r.index], id)
    ensures r.NullIdentifier? ==> from <= r.index < |vs| && vs[r.index].identifier.None?
    ensures r.Found? || r.NullIdentifier? ==>
              forall j :: from <= j < r.index ==> vs[j].identifier.Some? && vs[j].identifier != id
    ensures r.NotFound? <==> forall j :: from <= j < |vs| ==> vs[j].identifier.Some? && vs[j].identifier != id
    decreases |vs| - from
  {
    if from >= |vs| then NotFound
    else if vs[from].identifier.None? then NullIdentifier(from)
    else if vs[from].identifier == id then Found(from)
    else FindFrom(vs, id, from + 1)
  }

  /** getStation over the station values of the list. */
  function FindStation(vs: seq<StationValue>, id: Option<string>): (r: Lookup)
    ensures r.Found? ==> r.index < |vs| && Matches(vs[r.index], id)
    ensures r.NullIdentifier? ==> r.index < |vs| && vs[r.index].identifier.None?
    ensures r.Found? || r.NullIdentifier? ==>
              forall j :: 0 <= j < r.index ==> vs[j].identifier.Some? && vs[j].identifier != id
    ensures r.NotFound? <==> forall j :: 0 <= j < |vs| ==> vs[j].identifier.Some? && vs[j].identifier != id
  {
    FindFrom(vs, id, 0)
  }

  /** No two listed stations share an identifier (a null one included). */
  predicate DistinctIds(vs: seq<StationValue>)
  {
    forall i, j :: 0 <= i < j < |vs| ==> vs[i].identifier != vs[j].identifier
  }

  /**
   * The lookup after construction: the listed station gets `reading`
   * appended, or the new station `parsed` is added to the list.
   */
  function Place(vs: seq<StationValue>, parsed: StationValue, reading: Reading): Result<seq<StationValue>, WorkerError>
  {
    match FindStation(vs, parsed.identifier)
    case NullIdentifier(_) => Failure(NullStationIdentifier)
    case Found(i) => Success(vs[i := vs[i].(readings := vs[i].readings + [reading])])
    case NotFound => Success(vs + [parsed])
  }

  /** One station element of one year, as run handles it, on the worker's station values. */
  function WorkerStep(vs: seq<StationValue>, node: StationNode, year: int, month: int, parse: FloatParser)
    : Result<seq<StationValue>, WorkerError>
  {
    match ParseStation(node, year, month, parse)
    case None => Failure(UnknownProvince)
    case Some(parsed) => Place(vs, parsed, NewReading(node, year, month, parse))
  }

  /** How a run ends: the station values it leaves, and whether it got through without an exception. */
  datatype Outcome = Outcome(stations: seq<StationValue>, completed: bool)

  /** The station loop of one year, from element k on; the first failure stops it. */
  function NodesFrom(vs: seq<StationValue>, nodes: seq<StationNode>, k: nat, year: int, month: int, parse: FloatParser)
    : Outcome
    decreases |nodes| - k
  {
    if k >= |nodes| then Outcome(vs, true)
    else
      match WorkerStep(vs, nodes[k], year, month, parse)
      case Failure(_) => Outcome(vs, false)
      case Success(next) => NodesFrom(next, nodes, k + 1, year, month, parse)
  }

  /** The year loop of run from `year` on; `fetch` gives a year's station elements, None where the document does not parse. */
  function RunFrom(vs: seq<StationValue>, year: int, month: int, fetch: int -> Option<seq<StationNode>>, parse: FloatParser)
    : Outcome
    decreases END_YEAR - year
  {
    if year >= END_YEAR then Outcome(vs, true)
    else
      match fetch(year)
      case None => Outcome(vs, false)
      case Some(nodes) =>
        var o := NodesFrom(vs, nodes, 0, year, month, parse);
        if o.completed then RunFrom(o.stations, year + 1, month, fetch, parse) else o
  }

  /** The number of readings over all stations of a list. */
  function TotalReadings(vs: seq<StationValue>): nat
  {
    if vs == [] then 0 else TotalReadings(vs[..|vs| - 1]) + |vs[|vs| - 1].readings|
  }

  /** Replacing one station changes the total by the difference of its reading counts. */
  lemma {:induction false} TotalReadingsUpdate(vs: seq<StationValue>, i: nat, v: StationValue)
    requires i < |vs|
    ensures TotalReadings(vs[i := v]) + |vs[i].readings| == TotalReadings(vs) + |v.readings|
  {
    var n := |vs| - 1;
    if i < n {
      assert vs[i := v][..n] == vs[..n][i := v];
      TotalReadingsUpdate(vs[..n], i, v);
    } else {
      assert vs[i := v][..n] == vs[..n];
    }
  }

  /** Adding a station adds its readings to the total. */
  lemma TotalReadingsAppend(vs: seq<StationValue>, v: StationValue)
    ensures TotalReadings(vs + [v]) == TotalReadings(vs) + |v.readings|
  {
    assert (vs + [v])[..|vs|] == vs;
  }

  /** Every reading of every listed station is of `month` and of a year a run visits. */
  predicate ReadingsWithin(vs: seq<StationValue>, month: int)
  {
    forall i, j :: 0 <= i < |vs| && 0 <= j < |vs[i].readings| ==>
      vs[i].readings[j].month == month && START_YEAR <= vs[i].readings[j].year < END_YEAR
  }

  /** `ws` keeps every station of `vs` in place, with the same identity, and may list more. */
  predicate Extends(vs: seq<StationValue>, ws: seq<StationValue>)
  {
    |vs| <= |ws| && forall j :: 0 <= j < |vs| ==> SameIdentity(ws[j], vs[j])
  }

  lemma ExtendsReflexive(vs: seq<StationValue>)
    ensures Extends(vs, vs)
  {
  }

  lemma ExtendsTransitive(us: seq<StationValue>, vs: seq<StationValue>, ws: seq<StationValue>)
    requires Extends(us, vs) && Extends(vs, ws)
    ensures Extends(us, ws)
  {
    forall j | 0 <= j < |us| ensures SameIdentity(ws[j], us[j]) {
      assert SameIdentity(vs[j], us[j]);
    }
  }

  /** Placing a station lists at most one more and keeps the others in place. */
  lemma PlaceExtends(vs: seq<StationValue>, parsed: StationValue, reading: Reading)
    requires Place(vs, parsed, reading).Success?
    ensures Extends(vs, Place(vs, parsed, reading).value)
    ensures |Place(vs, parsed, reading).value| <= |vs| + 1
  {
  }

  /**
   * The lookup's two successful outcomes: a listed identifier keeps the list's
   * length, and only that station changes, by gaining `reading`; a new
   * identifier appends exactly the parsed station.
   */
  lemma PlaceCases(vs: seq<StationValue>, parsed: StationValue, reading: Reading)
    requires Place(vs, parsed, reading).Success?
    ensures var ws := Place(vs, parsed, reading).value;
            var look := FindStation(vs, parsed.identifier);
            && !look.NullIdentifier?
            && (look.Found? ==>
                  |ws| == |vs| && ws[look.index] == vs[look.index].(readings := vs[look.index].readings + [reading])
                  && forall j :: 0 <= j < |vs| && j != look.index ==> ws[j] == vs[j])
            && (look.NotFound? ==> ws == vs + [parsed])
  {
  }

  /** Placing a station that holds one reading adds exactly one reading. */
  lemma PlaceAddsOneReading(vs: seq<StationValue>, parsed: StationValue, reading: Reading)
    requires Place(vs, parsed, reading).Success? && |parsed.readings| == 1
    ensures TotalReadings(Place(vs, parsed, reading).value) == TotalReadings(vs) + 1
  {
    match FindStation(vs, parsed.identifier)
    case Found(i) =>
      TotalReadingsUpdate(vs, i, vs[i].(readings := vs[i].readings + [reading]));
    case NotFound =>
      TotalReadingsAppend(vs, parsed);
  }

  /** Placing a station keeps the identifiers distinct: a new one is added only when no listed station has its identifier. */
  lemma PlaceKeepsDistinct(vs: seq<StationValue>, parsed: StationValue, reading: Reading)
    requires Place(vs, parsed, reading).Success? && DistinctIds(vs)
    ensures DistinctIds(Place(vs, parsed, reading).value)
  {
  }

  /** Placing a station whose readings, like `reading`, are of `month` and of a run year keeps ReadingsWithin. */
  lemma PlaceKeepsWithin(vs: seq<StationValue>, parsed: StationValue, reading: Reading, month: int)
    requires Place(vs, parsed, reading).Success? && ReadingsWithin(vs, month)
    requires parsed.readings == [reading] && reading.month == month && START_YEAR <= reading.year < END_YEAR
    ensures ReadingsWithin(Place(vs, parsed, reading).value, month)
  {
    var ws := Place(vs, parsed, reading).value;
    match FindStation(vs, parsed.identifier)
    case Found(i) =>
      forall a, b | 0 <= a < |ws| && 0 <= b < |ws[a].readings|
        ensures ws[a].readings[b].month == month && START_YEAR <= ws[a].readings[b].year < END_YEAR
      {
        if a == i && b == |vs[i].readings| {
          assert ws[a].readings[b] == reading;
        }
      }
    case NotFound =>
      forall a, b | 0 <= a < |ws| && 0 <= b < |ws[a].readings|
        ensures ws[a].readings[b].month == month && START_YEAR <= ws[a].readings[b].year < END_YEAR
      {
        if a == |vs| {
          assert ws[a] == parsed;
        }
      }
  }

  /**
   * One element handled without an exception keeps the identifiers distinct,
   * keeps every listed station's identity in place, lists at most one
   * station more, and adds exactly one reading, of the element's year and
   * month.
   */
  lemma WorkerStepFacts(vs: seq<StationValue>, node: StationNode, year: int, month: int, parse: FloatParser)
    requires WorkerStep(vs, node, year, month, parse).Success?
    ensures var ws := WorkerStep(vs, node, year, month, parse).value;
      Extends(vs, ws) && |ws| <= |vs| + 1
      && TotalReadings(ws) == TotalReadings(vs) + 1
      && (DistinctIds(vs) ==> DistinctIds(ws))
      && (ReadingsWithin(vs, month) && START_YEAR <= year < END_YEAR ==> ReadingsWithin(ws, month))
  {
    var parsed := ParseStation(node, year, month, parse).value;
    var reading := NewReading(node, year, month, parse);
    assert parsed.readings == [reading];
    assert WorkerStep(vs, node, year, month, parse) == Place(vs, parsed, reading);
    PlaceExtends(vs, parsed, reading);
    PlaceAddsOneReading(vs, parsed, reading);
    if DistinctIds(vs) {
      PlaceKeepsDistinct(vs, parsed, reading);
    }
    if ReadingsWithin(vs, month) && START_YEAR <= year < END_YEAR {
      PlaceKeepsWithin(vs, parsed, reading, month);
    }
  }

  /**
   * One station element handled without an exception: the reading it adds is
   * NewReading of the element, of the loop's year and the worker's month; it
   * goes to the listed station with the element's identifier, the only one
   * that changes, or arrives with the new station appended at the end.
   */
  lemma WorkerStepPlaces(vs: seq<StationValue>, node: StationNode, year: int, month: int, parse: FloatParser)
    requires WorkerStep(vs, node, year, month, parse).Success?
    ensures var ws := WorkerStep(vs, node, year, month, parse).value;
            var reading := NewReading(node, year, month, parse);
            var look := FindStation(vs, GetElementValue(node, Identifier));
            && reading.year == year && reading.month == month
            && !look.NullIdentifier?
            && (look.Found? ==>
                  |ws| == |vs| && ws[look.index] == vs[look.index].(readings := vs[look.index].readings + [reading])
                  && forall j :: 0 <= j < |vs| && j != look.index ==> ws[j] == vs[j])
            && (look.NotFound? ==>
                  ws == vs + [ParseStation(node, year, month, parse).value]
                  && ParseStation(node, year, month, parse).value.readings == [reading])
  {
    var parsed := ParseStation(node, year, month, parse).value;
    var reading := NewReading(node, year, month, parse);
    assert parsed.readings == [reading];
    assert WorkerStep(vs, node, year, month, parse) == Place(vs, parsed, reading);
    PlaceCases(vs, parsed, reading);
  }

  /** How many readings station `i` of `vs` holds; none for a position past the list. */
  function KnownReadings(vs: seq<StationValue>, i: nat): nat
  {
    if i < |vs| then |vs[i].readings| else 0
  }

  /**
   * `ws` keeps every station of `vs` in place with its readings as a prefix,
   * and every reading it holds beyond those is of `year` and `month`.
   */
  predicate AddsOnly(vs: seq<StationValue>, ws: seq<StationValue>, year: int, month: int)
  {
    && Extends(vs, ws)
    && (forall i :: 0 <= i < |vs| ==> vs[i].readings <= ws[i].readings)
    && (forall i, j :: 0 <= i < |ws| && KnownReadings(vs, i) <= j < |ws[i].readings| ==>
          ws[i].readings[j].year == year && ws[i].readings[j].month == month)
  }

  lemma AddsOnlyReflexive(vs: seq<StationValue>, year: int, month: int)
    ensures AddsOnly(vs, vs, year, month)
  {
  }

  lemma AddsOnlyTransitive(us: seq<StationValue>, vs: seq<StationValue>, ws: seq<StationValue>, year: int, month: int)
    requires AddsOnly(us, vs, year, month) && AddsOnly(vs, ws, year, month)
    ensures AddsOnly(us, ws, year, month)
  {
    ExtendsTransitive(us, vs, ws);
    forall i | 0 <= i < |us| ensures us[i].readings <= ws[i].readings {
      assert us[i].readings <= vs[i].readings && vs[i].readings <= ws[i].readings;
    }
    forall i, j | 0 <= i < |ws| && KnownReadings(us, i) <= j < |ws[i].readings|
      ensures ws[i].readings[j].year == year && ws[i].readings[j].month == month
    {
      if i < |vs| && j < |vs[i].readings| {
        assert ws[i].readings[j] == vs[i].readings[j];
      }
    }
  }

  /** Placing a station that holds only `reading`, of `year` and `month`, adds only that reading. */
  lemma PlaceAddsOnly(vs: seq<StationValue>, parsed: StationValue, reading: Reading, year: int, month: int)
    requires Place(vs, parsed, reading).Success?
    requires parsed.readings == [reading] && reading.year == year && reading.month == month
    ensures AddsOnly(vs, Place(vs, parsed, reading).value, year, month)
  {
    var ws := Place(vs, parsed, reading).value;
    PlaceCases(vs, parsed, reading);
    match FindStation(vs, parsed.identifier)
    case Found(k) =>
      forall i, j | 0 <= i < |ws| && KnownReadings(vs, i) <= j < |ws[i].readings|
        ensures ws[i].readings[j].year == year && ws[i].readings[j].month == month
      {
        assert i == k && ws[i].readings[j] == reading;
      }
    case NotFound =>
      forall i, j | 0 <= i < |ws| && KnownReadings(vs, i) <= j < |ws[i].readings|
        ensures ws[i].readings[j].year == year && ws[i].readings[j].month == month
      {
        assert i == |vs| && ws[i].readings[j] == reading;
      }
  }

  /** One station element adds only its reading, of the loop's year and the worker's month. */
  lemma WorkerStepAddsOnly(vs: seq<StationValue>, node: StationNode, year: int, month: int, parse: FloatParser)
    requires WorkerStep(vs, node, year, month, parse).Success?
    ensures AddsOnly(vs, WorkerStep(vs, node, year, month, parse).value, year, month)
  {
    var parsed := ParseStation(node, year, month, parse).value;
    var reading := NewReading(node, year, month, parse);
    assert parsed.readings == [reading];
    assert WorkerStep(vs, node, year, month, parse) == Place(vs, parsed, reading);
    PlaceAddsOnly(vs, parsed, reading, year, month);
  }

  /** The station loop of one year adds only readings of that year and the worker's month. */
  lemma {:induction false} NodesAddOnly(vs: seq<StationValue>, nodes: seq<StationNode>, k: nat, year: int, month: int, parse: FloatParser)
    requires k <= |nodes|
    ensures AddsOnly(vs, NodesFrom(vs, nodes, k, year, month, parse).stations, year, month)
    decreases |nodes| - k
  {
    if k < |nodes| {
      match WorkerStep(vs, nodes[k], year, month, parse)
      case Failure(_) =>
        AddsOnlyReflexive(vs, year, month);
      case Success(next) =>
        WorkerStepAddsOnly(vs, nodes[k], year, month, parse);
        NodesAddOnly(next, nodes, k + 1, year, month, parse);
        AddsOnlyTransitive(vs, next, NodesFrom(next, nodes, k + 1, year, month, parse).stations, year, month);
    } else {
      AddsOnlyReflexive(vs, year, month);
    }
  }

  /** The station loop of one year never drops a station and keeps identities in place. */
  lemma {:induction false} NodesExtend(vs: seq<StationValue>, nodes: seq<StationNode>, k: nat, year: int, month: int, parse: FloatParser)
    requires k <= |nodes|
    ensures Extends(vs, NodesFrom(vs, nodes, k, year, month, parse).stations)
    decreases |nodes| - k
  {
    if k < |nodes| {
      match WorkerStep(vs, nodes[k], year, month, parse)
      case Failure(_) =>
      case Success(next) =>
        WorkerStepFacts(vs, nodes[k], year, month, parse);
        NodesExtend(next, nodes, k + 1, year, month, parse);
        ExtendsTransitive(vs, next, NodesFrom(next, nodes, k + 1, year, month, parse).stations);
    }
  }

  /** Completing the station loop of one year adds one reading per element. */
  lemma {:induction false} NodesAddOneReadingPerElement(vs: seq<StationValue>, nodes: seq<StationNode>, k: nat, year: int, month: int, parse: FloatParser)
    requires k <= |nodes|
    ensures var o := NodesFrom(vs, nodes, k, year, month, parse);
      o.completed ==> TotalReadings(o.stations) == TotalReadings(vs) + |nodes| - k
    decreases |nodes| - k
  {
    if k < |nodes| {
      match WorkerStep(vs, nodes[k], year, month, parse)
      case Failure(_) =>
      case Success(next) =>
        WorkerStepFacts(vs, nodes[k], year, month, parse);
        NodesAddOneReadingPerElement(next, nodes, k + 1, year, month, parse);
    }
  }

  /** The station loop of one year keeps the identifiers distinct. */
  lemma {:induction false} NodesKeepDistinct(vs: seq<StationValue>, nodes: seq<StationNode>, k: nat, year: int, month: int, parse: FloatParser)
    requires k <= |nodes| && DistinctIds(vs)
    ensures DistinctIds(NodesFrom(vs, nodes, k, year, month, parse).stations)
    decreases |nodes| - k
  {
    if k < |nodes| {
      match WorkerStep(vs, nodes[k], year, month, parse)
      case Failure(_) =>
      case Success(next) =>
        WorkerStepFacts(vs, nodes[k], year, month, parse);
        NodesKeepDistinct(next, nodes, k + 1, year, month, parse);
    }
  }

  /** The station loop of a run year records only readings of the month and of run years. */
  lemma {:induction false} NodesKeepWithin(vs: seq<StationValue>, nodes: seq<StationNode>, k: nat, year: int, month: int, parse: FloatParser)
    requires k <= |nodes| && ReadingsWithin(vs, month) && START_YEAR <= year < END_YEAR
    ensures ReadingsWithin(NodesFrom(vs, nodes, k, year, month, parse).stations, month)
    decreases |nodes| - k
  {
    if k < |nodes| {
      match WorkerStep(vs, nodes[k], year, month, parse)
      case Failure(_) =>
      case Success(next) =>
        WorkerStepFacts(vs, nodes[k], year, month, parse);
        NodesKeepWithin(next, nodes, k + 1, year, month, parse);
    }
  }

  /** The number of station elements of the years from `year` on. */
  function ElementsFrom(year: int, fetch: int -> Option<seq<StationNode>>): nat
    decreases END_YEAR - year
  {
    if year >= END_YEAR then 0
    else (if fetch(year).Some? then |fetch(year).value| else 0) + ElementsFrom(year + 1, fetch)
  }

  /** One year of a run: the year's station loop, then the remaining years when the loop completed. */
  lemma RunStep(vs: seq<StationValue>, year: int, next: int, month: int, fetch: int -> Option<seq<StationNode>>, parse: FloatParser)
    requires year < END_YEAR && fetch(year).Some? && next == year + 1
    ensures var o := NodesFrom(vs, fetch(year).value, 0, year, month, parse);
            RunFrom(vs, year, month, fetch, parse) == if o.completed then RunFrom(o.stations, next, month, fetch, parse) else o
  {
  }

  /** A run ends at END_YEAR, and at a year whose document does not parse, leaving the list as it was. */
  lemma RunDone(vs: seq<StationValue>, year: int, month: int, fetch: int -> Option<seq<StationNode>>, parse: FloatParser)
    requires year >= END_YEAR || fetch(year).None?
    ensures RunFrom(vs, year, month, fetch, parse).stations == vs
    ensures RunFrom(vs, year, month, fetch, parse).completed <==> year >= END_YEAR
  {
  }

  /**
   * A property of station lists that every year's station loop keeps holds
   * for the list a run leaves.
   */
  lemma {:induction false} RunPreserves(P: seq<StationValue> -> bool, vs: seq<StationValue>, year: int, month: int,
                                        fetch: int -> Option<seq<StationNode>>, parse: FloatParser)
    requires P(vs)
    requires forall ws, nodes, y :: START_YEAR <= y < END_YEAR && P(ws) ==> P(NodesFrom(ws, nodes, 0, y, month, parse).stations)
    requires START_YEAR <= year
    ensures P(RunFrom(vs, year, month, fetch, parse).stations)
    decreases END_YEAR - year
  {
    if year >= END_YEAR || fetch(year).None? {
      RunDone(vs, year, month, fetch, parse);
    } else {
      var o := NodesFrom(vs, fetch(year).value, 0, year, month, parse);
      assert P(o.stations);
      var next := year + 1;
      RunStep(vs, year, next, month, fetch, parse);
      if o.completed {
        RunPreserves(P, o.stations, next, month, fetch, parse);
        assert RunFrom(vs, year, month, fetch, parse) == RunFrom(o.stations, next, month, fetch, parse);
      } else {
        assert RunFrom(vs, year, month, fetch, parse) == o;
      }
    }
  }

  /** A run never drops a station and keeps every station's identity in place. */
  lemma RunExtends(vs: seq<StationValue>, year: int, month: int,
                   fetch: int -> Option<seq<StationNode>>, parse: FloatParser)
    requires START_YEAR <= year
    ensures Extends(vs, RunFrom(vs, year, month, fetch, parse).stations)
  {
    var P := (ws: seq<StationValue>) => Extends(vs, ws);
    forall ws, nodes, y | START_YEAR <= y < END_YEAR && P(ws)
      ensures P(NodesFrom(ws, nodes, 0, y, month, parse).stations)
    {
      NodesExtend(ws, nodes, 0, y, month, parse);
      ExtendsTransitive(vs, ws, NodesFrom(ws, nodes, 0, y, month, parse).stations);
    }
    assert P(vs) by {
      ExtendsReflexive(vs);
    }
    RunPreserves(P, vs, year, month, fetch, parse);
  }

  /** A run that no exception ends adds exactly one reading per station element of every year. */
  lemma {:induction false} RunAddsOneReadingPerElement(vs: seq<StationValue>, year: int, month: int,
                                                       fetch: int -> Option<seq<StationNode>>, parse: FloatParser)
    ensures var o := RunFrom(vs, year, month, fetch, parse);
      o.completed ==> TotalReadings(o.stations) == TotalReadings(vs) + ElementsFrom(year, fetch)
    decreases END_YEAR - year
  {
    if year >= END_YEAR {
      assert RunFrom(vs, year, month, fetch, parse) == Outcome(vs, true);
    } else if fetch(year).None? {
      assert !RunFrom(vs, year, month, fetch, parse).completed;
    } else {
      var nodes := fetch(year).value;
      NodesAddOneReadingPerElement(vs, nodes, 0, year, month, parse);
      var next := year + 1;
      RunStep(vs, year, next, month, fetch, parse);
      var o := NodesFrom(vs, nodes, 0, year, month, parse);
      if o.completed {
        var r := RunFrom(o.stations, next, month, fetch, parse);
        assert ElementsFrom(year, fetch) == |nodes| + ElementsFrom(next, fetch);
        RunAddsOneReadingPerElement(o.stations, next, month, fetch, parse);
        assert r.completed ==> TotalReadings(r.stations) == TotalReadings(o.stations) + ElementsFrom(next, fetch);
      }
    }
  }

  /** A run keeps the stations' identifiers distinct. */
  lemma RunKeepsDistinct(vs: seq<StationValue>, year: int, month: int,
                         fetch: int -> Option<seq<StationNode>>, parse: FloatParser)
    requires START_YEAR <= year && DistinctIds(vs)
    ensures DistinctIds(RunFrom(vs, year, month, fetch, parse).stations)
  {
    var P := (ws: seq<StationValue>) => DistinctIds(ws);
    forall ws, nodes, y | START_YEAR <= y < END_YEAR && P(ws)
      ensures P(NodesFrom(ws, nodes, 0, y, month, parse).stations)
    {
      NodesKeepDistinct(ws, nodes, 0, y, month, parse);
    }
    RunPreserves(P, vs, year, month, fetch, parse);
  }

  /** A run records only readings of its month and of the years it visits. */
  lemma RunKeepsWithin(vs: seq<StationValue>, year: int, month: int,
                       fetch: int -> Option<seq<StationNode>>, parse: FloatParser)
    requires START_YEAR <= year && ReadingsWithin(vs, month)
    ensures ReadingsWithin(RunFrom(vs, year, month, fetch, parse).stations, month)
  {
    var P := (ws: seq<StationValue>) => ReadingsWithin(ws, month);
    forall ws, nodes, y | START_YEAR <= y < END_YEAR && P(ws)
      ensures P(NodesFrom(ws, nodes, 0, y, month, parse).stations)
    {
      NodesKeepWithin(ws, nodes, 0, y, month, parse);
    }
    RunPreserves(P, vs, year, month, fetch, parse);
  }

  /** A fresh worker's run: distinct identifiers, readings of its month only, and one reading per element when it completes. */
  lemma FreshRun(month: int, fetch: int -> Option<seq<StationNode>>, parse: FloatParser)
    ensures var o := RunFrom([], START_YEAR, month, fetch, parse);
      DistinctIds(o.stations)
      && ReadingsWithin(o.stations, month)
      && (o.completed ==> TotalReadings(o.stations) == ElementsFrom(START_YEAR, fetch))
  {
    RunKeepsDistinct([], START_YEAR, month, fetch, parse);
    RunKeepsWithin([], START_YEAR, month, fetch, parse);
    RunAddsOneReadingPerElement([], START_YEAR, month, fetch, parse);
  }

  class MonthWorker {
    const month: int
    var stations: seq<Station>

    /** The worker's list holds each station object once. */
    ghost predicate Valid()
      reads this
    {
      forall i, j :: 0 <= i < j < |stations| ==> stations[i] != stations[j]
    }

    constructor (month: int)
      ensures this.month == month && stations == [] && Valid()
    {
      this.month := month;
      stations := [];
    }

    /** getStation: the first listed station with identifier `id`; a null listed identifier throws. */
    method GetStation(id: Option<string>) returns (r: Lookup)
      ensures r == FindStation(Snapshot(stations), id)
    {
      ghost var vs := Snapshot(stations);
      var i := 0;
      while i < |stations|
        invariant 0 <= i <= |stations|
        invariant FindFrom(vs, id, i) == FindFrom(vs, id, 0)
      {
        var station := stations[i];
        if station.identifier.None? {
          return NullIdentifier(i);
        }
        if station.identifier == id {
          return Found(i);
        }
        i := i + 1;
      }
      return NotFound;
    }

    /** addReading on the i-th listed station: its value gains the element's reading, the others stay. */
    method ExtendStation(i: nat, node: StationNode, year: int, parse: FloatParser)
      requires Valid() && i < |stations|
      modifies stations[i]
      ensures Snapshot(stations)
           == old(Snapshot(stations))[i := old(stations[i].Value()).(readings := old(stations[i].readings) + [NewReading(node, year, month, parse)])]
    {
      ghost var vs := Snapshot(stations);
      var target := stations[i];
      target.AddReading(node, year, month, parse);
      ghost var ws := Snapshot(stations);
      forall j | 0 <= j < |vs|
        ensures ws[j] == vs[i := vs[i].(readings := vs[i].readings + [NewReading(node, year, month, parse)])][j]
      {
        if j != i {
          assert stations[j] != target;
        }
      }
    }

    /** stations.add: the new station goes to the end of the list. */
    method AppendStation(newStation: Station)
      requires Valid() && newStation !in stations
      modifies this
      ensures Valid() && stations == old(stations) + [newStation]
      ensures Snapshot(stations) == old(Snapshot(stations)) + [newStation.Value()]
    {
      stations := stations + [newStation];
      SnapshotAppend(old(stations), newStation);
    }

    /**
     * The lookup and its two outcomes in run, for a constructed station that
     * is not listed; `goal` is what Place computes on the current values.
     */
    method PlaceStation(newStation: Station, node: StationNode, year: int, parse: FloatParser,
                        ghost goal: Result<seq<StationValue>, WorkerError>) returns (ok: bool)
      requires Valid() && newStation !in stations
      requires goal == Place(Snapshot(stations), newStation.Value(), NewReading(node, year, month, parse))
      modifies this, set s | s in stations
      ensures Valid()
      ensures forall s :: s in stations ==> s in old(stations) || s == newStation
      ensures ok == goal.Success?
      ensures ok ==> Snapshot(stations) == goal.value
      ensures !ok ==> Snapshot(stations) == old(Snapshot(stations))
    {
      ghost var vs := Snapshot(stations);
      var existing := GetStation(newStation.identifier);
      match existing
      case NullIdentifier(_) =>
        return false;
      case Found(i) =>
        ExtendStation(i, node, year, parse);
        return true;
      case NotFound =>
        AppendStation(newStation);
        return true;
    }

    /**
     * The body of the station loop in run for one element: construct the
     * station, then extend the listed one or add the new one. `ok` is false
     * where an exception ends the run; the list is then unchanged.
     */
    method ProcessStationNode(node: StationNode, year: int, parse: FloatParser) returns (ok: bool)
      requires Valid()
      modifies this, set s | s in stations
      ensures Valid()
      ensures forall s :: s in stations ==> s in old(stations) || fresh(s)
      ensures ok == WorkerStep(old(Snapshot(stations)), node, year, month, parse).Success?
      ensures ok ==> WorkerStep(old(Snapshot(stations)), node, year, month, parse).value == Snapshot(stations)
      ensures !ok ==> Snapshot(stations) == old(Snapshot(stations))
    {
      if ProvinceOf(node).None? {
        return false;
      }
      ghost var vs := Snapshot(stations);
      ghost var goal := WorkerStep(vs, node, year, month, parse);
      var newStation := new Station(node, year, month, parse);
      assert Snapshot(stations) == vs;
      assert goal == Place(vs, newStation.Value(), NewReading(node, year, month, parse));
      ok := PlaceStation(newStation, node, year, parse, goal);
    }

    /** The station loop in run for one year's elements. */
    method ProcessYear(nodes: seq<StationNode>, year: int, parse: FloatParser) returns (ok: bool)
      requires Valid()
      modifies this, set s | s in stations
      ensures Valid()
      ensures forall s :: s in stations ==> s in old(stations) || fresh(s)
      ensures NodesFrom(old(Snapshot(stations)), nodes, 0, year, month, parse) == Outcome(Snapshot(stations), ok)
    {
      ghost var goal := NodesFrom(Snapshot(stations), nodes, 0, year, month, parse);
      for k := 0 to |nodes|
        invariant Valid()
        invariant forall s :: s in stations ==> s in old(stations) || fresh(s)
        invariant NodesFrom(Snapshot(stations), nodes, k, year, month, parse) == goal
      {
        ok := ProcessStationNode(nodes[k], year, parse);
        if !ok {
          return;
        }
      }
      ok := true;
    }

    /** One iteration of run's year loop: fetch and parse the year's document, then its station loop. */
    method RunYear(i: int, next: int, fetch: int -> Option<seq<StationNode>>, parse: FloatParser, ghost goal: Outcome) returns (ok: bool)
      requires Valid() && START_YEAR <= i < END_YEAR && next == i + 1
      requires RunFrom(Snapshot(stations), i, month, fetch, parse) == goal
      modifies this, set s | s in stations
      ensures Valid()
      ensures forall s :: s in stations ==> s in old(stations) || fresh(s)
      ensures ok && next < END_YEAR ==> RunFrom(Snapshot(stations), next, month, fetch, parse) == goal
      ensures !ok || next == END_YEAR ==> Snapshot(stations) == goal.stations
    {
      ghost var before := Snapshot(stations);
      var doc := fetch(i);
      if doc.None? {
        RunDone(before, i, month, fetch, parse);
        return false;
      }
      RunStep(before, i, next, month, fetch, parse);
      ok := ProcessYear(doc.value, i, parse);
      if ok && i + 1 == END_YEAR {
        RunDone(Snapshot(stations), i + 1, month, fetch, parse);
      }
    }

    /** run: the year loop, stopping at the first exception. */
    method Run(fetch: int -> Option<seq<StationNode>>, parse: FloatParser)
      requires Valid()
      modifies this, set s | s in stations
      ensures Valid()
      ensures Snapshot(stations) == RunFrom(old(Snapshot(stations)), START_YEAR, month, fetch, parse).stations
    {
      ghost var goal := RunFrom(Snapshot(stations), START_YEAR, month, fetch, parse);
      var i, ok := START_YEAR, true;
      while ok && i < END_YEAR
        invariant START_YEAR <= i <= END_YEAR && Valid()
        invariant forall s :: s in stations ==> s in old(stations) || fresh(s)
        invariant ok && i < END_YEAR ==> RunFrom(Snapshot(stations), i, month, fetch, parse) == goal
        invariant !ok || i == END_YEAR ==> Snapshot(stations) == goal.stations
        decreases END_YEAR - i
      {
        var next := i + 1;
        ok := RunYear(i, next, fetch, parse, goal);
        i := next;
      }
    }
  }
}
