/**
 * Graph: the data behind one chart. For every year of a range the query is
 * run with that year; years with data give the main series, a 7-year
 * rolling average of the main values gives the second series, and a
 * straight line fitted to the main points gives the third.
 */
module Graphs {
  import opened Wrappers
  import opened Floats
  import opened Stations
  import opened QuerySpec
  import Queries
  import WeatherData

  const ROLLING_NUMBER: nat := 7

  /** A time-series item: a year and its value. */
  datatype Point = Point(year: int, value: real)

  /** The three series of a chart. */
  datatype Dataset = Dataset(main: seq<Point>, rolling: seq<Point>, trend: seq<Point>)

  /** The fitter: intercept and slope of the least-squares line through the points. */
  type LineFitter = seq<Point> -> (real, real)

  /** The last ROLLING_NUMBER values, or all of them while there are fewer. */
  function Window(vs: seq<real>): (w: seq<real>)
    ensures |vs| < ROLLING_NUMBER ==> w == vs
    ensures |vs| >= ROLLING_NUMBER ==> |w| == ROLLING_NUMBER && vs == vs[..|vs| - ROLLING_NUMBER] + w
  {
    if |vs| < ROLLING_NUMBER then vs else vs[|vs| - ROLLING_NUMBER..]
  }

  /** The sum of the last `n` values of `vs`, or of all of them when there are fewer. */
  function SumLast(vs: seq<real>, n: nat): real
    decreases n
  {
    if n == 0 || vs == [] then 0.0 else SumLast(vs[..|vs| - 1], n - 1) + vs[|vs| - 1]
  }

  /** Summing the last `n` values is summing the suffix of length `n`. */
  lemma {:induction false} SumLastIsSum(vs: seq<real>, n: nat)
    requires n <= |vs|
    ensures SumLast(vs, n) == Sum(vs[|vs| - n..])
  {
    if n > 0 {
      var init := vs[..|vs| - 1];
      SumLastIsSum(init, n - 1);
      assert init[|init| - (n - 1)..] + [vs[|vs| - 1]] == vs[|vs| - n..];
      SumAppend(init[|init| - (n - 1)..], vs[|vs| - 1]);
    }
  }

  /** getValue after the updates `vs`: MIN_VALUE until seven values are in, then the sum of the last seven over seven. */
  function RollingAt(vs: seq<real>): real
  {
    if |vs| < ROLLING_NUMBER then MIN_VALUE else SumLast(vs, ROLLING_NUMBER) / ROLLING_NUMBER as real
  }

  /** A 7-year rolling average. */
  class RollingAverage {
    var numbers: seq<real>
    /** Every value update was given, in order. */
    ghost var history: seq<real>

    ghost predicate Valid()
      reads this
    {
      numbers == Window(history)
    }

    constructor ()
      ensures Valid() && history == [] && numbers == []
    {
      numbers := [];
      history := [];
    }

    /** update: append the value, then drop the oldest once there are more than seven. */
    method Update(newValue: real)
      requires Valid()
      modifies this
      ensures Valid() && history == old(history) + [newValue]
      ensures numbers == if ROLLING_NUMBER < |old(numbers)| + 1 then (old(numbers) + [newValue])[1..] else old(numbers) + [newValue]
    {
      history := history + [newValue];
      numbers := numbers + [newValue];
      if ROLLING_NUMBER < |numbers| {
        numbers := numbers[1..];
      }
    }

    /** getValue: the sentinel until seven values are in, then the mean of the last seven. */
    method GetValue() returns (r: real)
      requires Valid()
      ensures r == RollingAt(history)
    {
      if |numbers| < ROLLING_NUMBER {
        return MIN_VALUE;
      }
      var total := 0.0;
      for i := 0 to |numbers|
        invariant total == Sum(numbers[..i])
      {
        SumAppend(numbers[..i], numbers[i]);
        assert numbers[..i + 1] == numbers[..i] + [numbers[i]];
        total := total + numbers[i];
      }
      assert numbers[..|numbers|] == numbers;
      SumLastIsSum(history, ROLLING_NUMBER);
      return total / ROLLING_NUMBER as real;
    }
  }

  /** Once seven values are in, the rolling value is the arithmetic mean of exactly the last seven. */
  lemma RollingIsMeanOfLastSeven(vs: seq<real>)
    requires |vs| >= ROLLING_NUMBER
    ensures RollingAt(vs) == Sum(vs[|vs| - ROLLING_NUMBER..]) / ROLLING_NUMBER as real
    ensures |vs[|vs| - ROLLING_NUMBER..]| == ROLLING_NUMBER
  {
    SumLastIsSum(vs, ROLLING_NUMBER);
  }

  /** The window of the updates always holds min(n, 7) values, the newest last. */
  lemma {:induction false} WindowSlides(vs: seq<real>, v: real)
    ensures |Window(vs + [v])| == if |vs| + 1 < ROLLING_NUMBER then |vs| + 1 else ROLLING_NUMBER
    ensures Window(vs + [v])[|Window(vs + [v])| - 1] == v
    ensures |vs| >= ROLLING_NUMBER ==> Window(vs + [v]) == Window(vs)[1..] + [v]
  {
    if |vs| >= ROLLING_NUMBER {
      assert (vs + [v])[|vs| + 1 - ROLLING_NUMBER..] == vs[|vs| - ROLLING_NUMBER..][1..] + [v];
    }
  }

  /**
   * Years 1900-1906 valued 1.0 except 1905 valued 8.0: no rolling value
   * through 1905, and (6 * 1.0 + 8.0) / 7 = 2.0 at 1906.
   */
  lemma RollingExample()
    ensures RollingAt([1.0, 1.0, 1.0, 1.0, 1.0, 8.0]) == MIN_VALUE
    ensures RollingAt([1.0, 1.0, 1.0, 1.0, 1.0, 8.0, 1.0]) == 2.0
  {
    var vs := [1.0, 1.0, 1.0, 1.0, 1.0, 8.0, 1.0];
    RollingIsMeanOfLastSeven(vs);
    assert vs[|vs| - ROLLING_NUMBER..] == vs;
    ExampleSum();
  }

  /** The sum the rolling example averages. */
  lemma ExampleSum()
    ensures Sum([1.0, 1.0, 1.0, 1.0, 1.0, 8.0, 1.0]) == 14.0
  {
    assert Sum([1.0]) == 1.0 by {
      SumAppend([], 1.0);
      assert [] + [1.0] == [1.0];
    }
    assert Sum([1.0, 1.0]) == 2.0 by {
      SumAppend([1.0], 1.0);
      assert [1.0] + [1.0] == [1.0, 1.0];
    }
    assert Sum([1.0, 1.0, 1.0]) == 3.0 by {
      SumAppend([1.0, 1.0], 1.0);
      assert [1.0, 1.0] + [1.0] == [1.0, 1.0, 1.0];
    }
    assert Sum([1.0, 1.0, 1.0, 1.0]) == 4.0 by {
      SumAppend([1.0, 1.0, 1.0], 1.0);
      assert [1.0, 1.0, 1.0] + [1.0] == [1.0, 1.0, 1.0, 1.0];
    }
    assert Sum([1.0, 1.0, 1.0, 1.0, 1.0]) == 5.0 by {
      SumAppend([1.0, 1.0, 1.0, 1.0], 1.0);
      assert [1.0, 1.0, 1.0, 1.0] + [1.0] == [1.0, 1.0, 1.0, 1.0, 1.0];
    }
    assert Sum([1.0, 1.0, 1.0, 1.0, 1.0, 8.0]) == 13.0 by {
      SumAppend([1.0, 1.0, 1.0, 1.0, 1.0], 8.0);
      assert [1.0, 1.0, 1.0, 1.0, 1.0] + [8.0] == [1.0, 1.0, 1.0, 1.0, 1.0, 8.0];
    }
    assert Sum([1.0, 1.0, 1.0, 1.0, 1.0, 8.0, 1.0]) == 14.0 by {
      SumAppend([1.0, 1.0, 1.0, 1.0, 1.0, 8.0], 1.0);
      assert [1.0, 1.0, 1.0, 1.0, 1.0, 8.0] + [1.0] == [1.0, 1.0, 1.0, 1.0, 1.0, 8.0, 1.0];
    }
  }

  /** The query's value for one year. */
  function YearValue(ss: seq<StationValue>, q: QueryParams, within: WithinFn, y: int): Result<real, QueryError>
  {
    QueryResult(ss, q.(year := y), within)
  }

  /**
   * The main series of the years startYear..last: the years whose value is
   * not the no-data sentinel, in year order; the first failing query ends
   * createDataset.
   */
  function MainPoints(ss: seq<StationValue>, q: QueryParams, within: WithinFn, startYear: int, last: int)
    : Result<seq<Point>, QueryError>
    decreases last - startYear
  {
    if last < startYear then Success([])
    else
      match MainPoints(ss, q, within, startYear, last - 1)
      case Failure(e) => Failure(e)
      case Success(ps) =>
        match YearValue(ss, q, within, last)
        case Failure(e) => Failure(e)
        case Success(v) => Success(if v != MIN_VALUE then ps + [Point(last, v)] else ps)
  }

  /** A failing year ends the series: every later range fails with the same error. */
  lemma {:induction false} MainPointsFailureSticks(ss: seq<StationValue>, q: QueryParams, within: WithinFn, startYear: int, i: int, last: int)
    requires i <= last
    requires MainPoints(ss, q, within, startYear, i).Failure?
    ensures MainPoints(ss, q, within, startYear, last) == MainPoints(ss, q, within, startYear, i)
    decreases last - i
  {
    if i < last {
      MainPointsFailureSticks(ss, q, within, startYear, i, last - 1);
    }
  }

  /** The values of a series. */
  function Values(ps: seq<Point>): (vs: seq<real>)
    ensures |vs| == |ps| && forall i {:trigger vs[i]} :: 0 <= i < |ps| ==> vs[i] == ps[i].value
  {
    if ps == [] then [] else Values(ps[..|ps| - 1]) + [ps[|ps| - 1].value]
  }

  /** The rolling series: at each main point, the rolling value over the main values so far, where it is not the sentinel. */
  function RollingSeries(ps: seq<Point>): seq<Point>
  {
    if ps == [] then []
    else
      var v := RollingAt(Values(ps));
      RollingSeries(ps[..|ps| - 1]) + (if v != MIN_VALUE then [Point(ps[|ps| - 1].year, v)] else [])
  }

  /** The fitted line at year x: x * slope + b. */
  function LineAt(x: int, b: real, slope: real): real
  {
    x as real * slope + b
  }

  /** The trend line at the years of the points. */
  function TrendSeries(ps: seq<Point>, b: real, slope: real): (r: seq<Point>)
    ensures |r| == |ps| && forall i {:trigger r[i]} :: 0 <= i < |ps| ==> r[i] == Point(ps[i].year, LineAt(ps[i].year, b, slope))
  {
    if ps == [] then [] else TrendSeries(ps[..|ps| - 1], b, slope) + [Point(ps[|ps| - 1].year, LineAt(ps[|ps| - 1].year, b, slope))]
  }

  /** The trend series, with the fitter run only on a non-empty point list. */
  function Trend(ps: seq<Point>, fit: LineFitter): seq<Point>
  {
    if |ps| > 0 then TrendSeries(ps, fit(ps).0, fit(ps).1) else []
  }

  /** createDataset over the stations' values. */
  function DatasetOf(ss: seq<StationValue>, q: QueryParams, within: WithinFn, startYear: int, endYear: int, fit: LineFitter)
    : Result<Dataset, QueryError>
  {
    match MainPoints(ss, q, within, startYear, endYear)
    case Failure(e) => Failure(e)
    case Success(ps) => Success(Dataset(ps, RollingSeries(ps), Trend(ps, fit)))
  }

  /** The years of a series. */
  function Years(ps: seq<Point>): set<int>
  {
    if ps == [] then {} else Years(ps[..|ps| - 1]) + {ps[|ps| - 1].year}
  }

  lemma YearsAppend(ps: seq<Point>, p: Point)
    ensures Years(ps + [p]) == Years(ps) + {p.year}
  {
    assert (ps + [p])[..|ps|] == ps;
  }

  /** A year belongs to a series exactly when one of its points carries it. */
  lemma {:induction false} YearsMembers(ps: seq<Point>, y: int)
    ensures y in Years(ps) <==> exists k :: 0 <= k < |ps| && ps[k].year == y
  {
    if ps != [] {
      var init := ps[..|ps| - 1];
      YearsMembers(init, y);
      if y in Years(init) {
        var k :| 0 <= k < |init| && init[k].year == y;
        assert ps[k].year == y;
      }
      if exists k :: 0 <= k < |ps| && ps[k].year == y {
        var k :| 0 <= k < |ps| && ps[k].year == y;
        if k < |init| {
          assert init[k].year == y;
        }
      }
    }
  }

  /** Points in strictly increasing year order. */
  predicate YearsIncrease(ps: seq<Point>)
  {
    forall j, k :: 0 <= j < k < |ps| ==> ps[j].year < ps[k].year
  }

  /**
   * Each main point lies in startYear..last, carries that year's query value
   * and is never the sentinel.
   */
  lemma {:induction false} MainPointsValues(ss: seq<StationValue>, q: QueryParams, within: WithinFn, startYear: int, last: int)
    requires MainPoints(ss, q, within, startYear, last).Success?
    ensures var ps := MainPoints(ss, q, within, startYear, last).value;
            forall k :: 0 <= k < |ps| ==>
              startYear <= ps[k].year <= last && ps[k].value != MIN_VALUE
              && YearValue(ss, q, within, ps[k].year) == Success(ps[k].value)
    decreases last - startYear
  {
    if startYear <= last {
      MainPointsValues(ss, q, within, startYear, last - 1);
      var prev := MainPoints(ss, q, within, startYear, last - 1).value;
      var v := YearValue(ss, q, within, last).value;
      var ps := MainPoints(ss, q, within, startYear, last).value;
      assert ps == if v != MIN_VALUE then prev + [Point(last, v)] else prev;
    }
  }

  /** The main points are in strictly increasing year order, so no year is added twice. */
  lemma {:induction false} MainPointsOrdered(ss: seq<StationValue>, q: QueryParams, within: WithinFn, startYear: int, last: int)
    requires MainPoints(ss, q, within, startYear, last).Success?
    ensures YearsIncrease(MainPoints(ss, q, within, startYear, last).value)
    decreases last - startYear
  {
    if startYear <= last {
      MainPointsOrdered(ss, q, within, startYear, last - 1);
      MainPointsValues(ss, q, within, startYear, last - 1);
      var prev := MainPoints(ss, q, within, startYear, last - 1).value;
      var v := YearValue(ss, q, within, last).value;
      var ps := MainPoints(ss, q, within, startYear, last).value;
      assert ps == if v != MIN_VALUE then prev + [Point(last, v)] else prev;
    }
  }

  /** A successful main series means every year of the range was queried without error; each year with data contributes a point. */
  lemma {:induction false} MainPointsComplete(ss: seq<StationValue>, q: QueryParams, within: WithinFn, startYear: int, last: int, y: int)
    requires MainPoints(ss, q, within, startYear, last).Success?
    requires startYear <= y <= last
    ensures YearValue(ss, q, within, y).Success?
    ensures YearValue(ss, q, within, y).value != MIN_VALUE <==> y in Years(MainPoints(ss, q, within, startYear, last).value)
    decreases last - startYear
  {
    var ps := MainPoints(ss, q, within, startYear, last).value;
    var prev := MainPoints(ss, q, within, startYear, last - 1).value;
    var v := YearValue(ss, q, within, last).value;
    assert ps == if v != MIN_VALUE then prev + [Point(last, v)] else prev;
    YearsAppend(prev, Point(last, v));
    if y < last {
      MainPointsComplete(ss, q, within, startYear, last - 1, y);
    } else if v == MIN_VALUE {
      MainPointsValues(ss, q, within, startYear, last - 1);
      YearsMembers(prev, last);
    }
  }

  /** The rolling series has no point before seven main points, and at most one point per main point. */
  lemma {:induction false} RollingSeriesLength(ps: seq<Point>)
    ensures |ps| < ROLLING_NUMBER ==> RollingSeries(ps) == []
    ensures |RollingSeries(ps)| <= |ps|
  {
    if ps != [] {
      var init := ps[..|ps| - 1];
      RollingSeriesLength(init);
      var v := RollingAt(Values(ps));
      assert |ps| < ROLLING_NUMBER ==> v == MIN_VALUE;
    }
  }

  /** Every rolling point sits at a year of the main series. */
  lemma {:induction false} RollingSeriesYears(ps: seq<Point>)
    ensures Years(RollingSeries(ps)) <= Years(ps)
  {
    if ps != [] {
      var init := ps[..|ps| - 1];
      var last := ps[|ps| - 1];
      RollingSeriesYears(init);
      var extra := if RollingAt(Values(ps)) != MIN_VALUE then [Point(last.year, RollingAt(Values(ps)))] else [];
      assert RollingSeries(ps) == RollingSeries(init) + extra;
      assert Years(ps) == Years(init) + {last.year};
      if extra != [] {
        YearsAppend(RollingSeries(init), extra[0]);
      } else {
        assert RollingSeries(ps) == RollingSeries(init);
      }
    }
  }

  /**
   * Over main points in strictly increasing year order, the rolling points
   * are in strictly increasing year order too, so no year is added twice.
   */
  lemma {:induction false} RollingSeriesOrdered(ps: seq<Point>)
    requires YearsIncrease(ps)
    ensures YearsIncrease(RollingSeries(ps))
  {
    if ps != [] {
      var init := ps[..|ps| - 1];
      var last := ps[|ps| - 1];
      assert YearsIncrease(init);
      RollingSeriesOrdered(init);
      var rs := RollingSeries(init);
      var extra := if RollingAt(Values(ps)) != MIN_VALUE then [Point(last.year, RollingAt(Values(ps)))] else [];
      assert RollingSeries(ps) == rs + extra;
      if extra != [] {
        RollingSeriesYears(init);
        forall j | 0 <= j < |rs| ensures rs[j].year < last.year {
          YearsMembers(rs, rs[j].year);
          YearsMembers(init, rs[j].year);
          var k :| 0 <= k < |init| && init[k].year == rs[j].year;
          assert ps[k] == init[k];
        }
      }
    }
  }

  /** Neither the main series nor the rolling series of a year range adds a year twice. */
  lemma SeriesYearsIncrease(ss: seq<StationValue>, q: QueryParams, within: WithinFn, startYear: int, last: int)
    requires MainPoints(ss, q, within, startYear, last).Success?
    ensures YearsIncrease(MainPoints(ss, q, within, startYear, last).value)
    ensures YearsIncrease(RollingSeries(MainPoints(ss, q, within, startYear, last).value))
  {
    MainPointsOrdered(ss, q, within, startYear, last);
    RollingSeriesOrdered(MainPoints(ss, q, within, startYear, last).value);
  }

  /** No rolling point carries the sentinel. */
  lemma {:induction false} RollingSeriesValues(ps: seq<Point>)
    ensures forall j :: 0 <= j < |RollingSeries(ps)| ==> RollingSeries(ps)[j].value != MIN_VALUE
  {
    if ps != [] {
      var init := ps[..|ps| - 1];
      RollingSeriesValues(init);
    }
  }

  /** The rolling value at a main point is the mean of the last seven main values up to it. */
  lemma RollingSeriesLast(ps: seq<Point>)
    requires |ps| >= ROLLING_NUMBER
    requires RollingAt(Values(ps)) != MIN_VALUE
    ensures RollingSeries(ps)[|RollingSeries(ps)| - 1]
         == Point(ps[|ps| - 1].year, Sum(Values(ps)[|ps| - ROLLING_NUMBER..]) / ROLLING_NUMBER as real)
  {
    RollingIsMeanOfLastSeven(Values(ps));
  }

  /** The trend series is empty without main points; otherwise it has one point per main point, at the same years, on one line. */
  lemma TrendShape(ps: seq<Point>, fit: LineFitter)
    ensures |Trend(ps, fit)| == |ps|
    ensures forall k :: 0 <= k < |ps| ==> Trend(ps, fit)[k].year == ps[k].year
    ensures ps != [] ==> forall k :: 0 <= k < |ps| ==> Trend(ps, fit)[k].value == LineAt(ps[k].year, fit(ps).0, fit(ps).1)
  {
  }

  /** One more main point: its value joins the values, and the rolling series gains the point's rolling value unless it is the sentinel. */
  lemma SeriesStep(ps: seq<Point>, p: Point)
    ensures Values(ps + [p]) == Values(ps) + [p.value]
    ensures RollingSeries(ps + [p])
         == RollingSeries(ps) + (if RollingAt(Values(ps) + [p.value]) != MIN_VALUE then [Point(p.year, RollingAt(Values(ps) + [p.value]))] else [])
  {
    assert (ps + [p])[..|ps|] == ps;
  }

  lemma TrendSeriesAppend(ps: seq<Point>, p: Point, b: real, slope: real)
    ensures TrendSeries(ps + [p], b, slope) == TrendSeries(ps, b, slope) + [Point(p.year, LineAt(p.year, b, slope))]
  {
    assert (ps + [p])[..|ps|] == ps;
  }

  /** The trend loop of createDataset: the fitted line at every point's year, or no line without points. */
  method LinearTrend(allPoints: seq<Point>, fit: LineFitter) returns (series: seq<Point>)
    ensures series == Trend(allPoints, fit)
  {
    series := [];
    if |allPoints| > 0 {
      var coef := fit(allPoints);
      var b, slope := coef.0, coef.1;
      for k := 0 to |allPoints|
        invariant series == TrendSeries(allPoints[..k], b, slope)
      {
        var p := allPoints[k];
        assert allPoints[..k + 1] == allPoints[..k] + [p];
        TrendSeriesAppend(allPoints[..k], p, b, slope);
        series := series + [Point(p.year, LineAt(p.year, b, slope))];
      }
      assert allPoints[..|allPoints|] == allPoints;
    }
  }

  /** A main value joins the rolling average: the rolling series gains the new rolling value unless it is the sentinel. */
  method AddToRolling(rollingAverage: RollingAverage, ps: seq<Point>, p: Point) returns (rolling: real)
    requires rollingAverage.Valid() && rollingAverage.history == Values(ps)
    modifies rollingAverage
    ensures rollingAverage.Valid() && rollingAverage.history == Values(ps + [p])
    ensures RollingSeries(ps + [p]) == RollingSeries(ps) + (if rolling != MIN_VALUE then [Point(p.year, rolling)] else [])
  {
    SeriesStep(ps, p);
    rollingAverage.Update(p.value);
    rolling := rollingAverage.GetValue();
  }

  class Graph {
    const data: WeatherData.Data

    constructor ()
      ensures fresh(data) && data.stations == []
    {
      data := new WeatherData.Data();
    }

    /** setYear, then query: the query's value for year `y`. */
    method QueryYear(query: Queries.Query, y: int, within: WithinFn) returns (result: Result<real, QueryError>)
      modifies query
      ensures query.Params() == old(query.Params()).(year := y)
      ensures Snapshot(data.stations) == old(Snapshot(data.stations))
      ensures result == YearValue(Snapshot(data.stations), old(query.Params()), within, y)
    {
      query.SetYear(y);
      result := data.Query(query, within);
    }

    /**
     * A main value joins the rolling average: the rolling series gains the
     * new rolling value unless it is the sentinel. The query and the station
     * list are left as they are.
     */
    method Roll(rollingAverage: RollingAverage, ps: seq<Point>, p: Point, query: Queries.Query) returns (rolling: real)
      requires rollingAverage.Valid() && rollingAverage.history == Values(ps)
      modifies rollingAverage
      ensures rollingAverage.Valid() && rollingAverage.history == Values(ps + [p])
      ensures RollingSeries(ps + [p]) == RollingSeries(ps) + (if rolling != MIN_VALUE then [Point(p.year, rolling)] else [])
      ensures query.Params() == old(query.Params()) && Snapshot(data.stations) == old(Snapshot(data.stations))
    {
      rolling := AddToRolling(rollingAverage, ps, p);
      SnapshotFrame(data.stations);
    }

    /** setYear and query for year `i`: the main series of the years up to `i` follows from its result. */
    method QueryNext(query: Queries.Query, i: int, within: WithinFn, startYear: int,
                     ghost ss: seq<StationValue>, ghost q0: QueryParams, ghost ps: seq<Point>)
      returns (result: Result<real, QueryError>)
      requires startYear <= i && query.Params() == q0.(year := query.year) && Snapshot(data.stations) == ss
      requires MainPoints(ss, q0, within, startYear, i - 1) == Success(ps)
      modifies query
      ensures query.Params() == q0.(year := i) && Snapshot(data.stations) == ss
      ensures MainPoints(ss, q0, within, startYear, i)
           == match result
              case Failure(e) => Failure(e)
              case Success(v) => Success(if v != MIN_VALUE then ps + [Point(i, v)] else ps)
    {
      result := QueryYear(query, i, within);
    }

    /**
     * One pass of the year loop of createDataset: query year `i`, and when
     * its value is not the sentinel, add it to the main series and the
     * rolling average.
     */
    method YearStep(i: int, startYear: int, query: Queries.Query, within: WithinFn, rollingAverage: RollingAverage,
                    ghost ss: seq<StationValue>, ghost q0: QueryParams, mainValueSeries: seq<Point>, rollingAverageSeries: seq<Point>)
      returns (r: Result<(seq<Point>, seq<Point>), QueryError>)
      requires startYear <= i && query.Params() == q0.(year := query.year) && Snapshot(data.stations) == ss
      requires MainPoints(ss, q0, within, startYear, i - 1) == Success(mainValueSeries)
      requires rollingAverage.Valid() && rollingAverage.history == Values(mainValueSeries)
      requires rollingAverageSeries == RollingSeries(mainValueSeries)
      modifies query, rollingAverage
      ensures query.Params() == q0.(year := i) && Snapshot(data.stations) == ss
      ensures MainPoints(ss, q0, within, startYear, i) == match r case Failure(e) => Failure(e) case Success(p) => Success(p.0)
      ensures r.Success? ==> rollingAverage.Valid() && rollingAverage.history == Values(r.value.0)
                             && r.value.1 == RollingSeries(r.value.0)
    {
      var result := QueryNext(query, i, within, startYear, ss, q0, mainValueSeries);
      if result.Failure? {
        return Failure(result.error);
      }
      var mainValue := result.value;
      if mainValue == MIN_VALUE {
        return Success((mainValueSeries, rollingAverageSeries));
      }
      var rolling := Roll(rollingAverage, mainValueSeries, Point(i, mainValue), query);
      var main := mainValueSeries + [Point(i, mainValue)];
      if rolling != MIN_VALUE {
        return Success((main, rollingAverageSeries + [Point(i, rolling)]));
      }
      return Success((main, rollingAverageSeries));
    }

    /**
     * The year loop of createDataset: the main series of the years with
     * data and the rolling series; a failing query propagates.
     */
    method YearSeries(startYear: int, endYear: int, query: Queries.Query, within: WithinFn)
      returns (r: Result<(seq<Point>, seq<Point>), QueryError>)
      modifies query
      ensures MainPoints(Snapshot(data.stations), old(query.Params()), within, startYear, endYear).Success? <==> r.Success?
      ensures r.Success? ==>
                var ps := MainPoints(Snapshot(data.stations), old(query.Params()), within, startYear, endYear).value;
                r.value == (ps, RollingSeries(ps))
      ensures r.Failure? ==> r.error == MainPoints(Snapshot(data.stations), old(query.Params()), within, startYear, endYear).error
      ensures query.Params() == old(query.Params()).(year := query.year)
      ensures startYear <= endYear && r.Success? ==> query.year == endYear
      ensures endYear < startYear ==> query.year == old(query.year)
    {
      ghost var q0 := query.Params();
      ghost var ss := Snapshot(data.stations);
      var mainValueSeries: seq<Point> := [];
      var rollingAverageSeries: seq<Point> := [];
      var rollingAverage := new RollingAverage();
      if endYear < startYear {
        return Success((mainValueSeries, rollingAverageSeries));
      }
      for i := startYear to endYear + 1
        invariant query.Params() == q0.(year := query.year)
        invariant i > startYear ==> query.year == i - 1
        invariant Snapshot(data.stations) == ss
        invariant MainPoints(ss, q0, within, startYear, i - 1) == Success(mainValueSeries)
        invariant rollingAverage.Valid() && rollingAverage.history == Values(mainValueSeries)
        invariant rollingAverageSeries == RollingSeries(mainValueSeries)
      {
        var step := YearStep(i, startYear, query, within, rollingAverage, ss, q0, mainValueSeries, rollingAverageSeries);
        if step.Failure? {
          MainPointsFailureSticks(ss, q0, within, startYear, i, endYear);
          return Failure(step.error);
        }
        mainValueSeries, rollingAverageSeries := step.value.0, step.value.1;
      }
      return Success((mainValueSeries, rollingAverageSeries));
    }

    /** createDataset: one query per year, the rolling average over the main values, and the fitted line. */
    method CreateDataset(startYear: int, endYear: int, query: Queries.Query, within: WithinFn, fit: LineFitter)
      returns (r: Result<Dataset, QueryError>)
      modifies query
      ensures r == DatasetOf(Snapshot(data.stations), old(query.Params()), within, startYear, endYear, fit)
      ensures query.Params() == old(query.Params()).(year := query.year)
      ensures startYear <= endYear && r.Success? ==> query.year == endYear
      ensures endYear < startYear ==> query.year == old(query.year)
    {
      var series := YearSeries(startYear, endYear, query, within);
      if series.Failure? {
        return Failure(series.error);
      }
      var (mainValueSeries, rollingAverageSeries) := series.value;
      // allPoints holds the same (year, value) pairs as the main series.
      var allPoints := mainValueSeries;
      var linearTrendSeries := LinearTrend(allPoints, fit);
      return Success(Dataset(mainValueSeries, rollingAverageSeries, linearTrendSeries));
    }
  }
}
