/**
 * The meaning of Data.query as functions on station values: the province
 * filter, the radius filter (which restarts from the whole station list),
 * the conjunctive year/month/season filter, and the reduction that skips
 * absent measurements.
 */
module QuerySpec {
  import opened Wrappers
  import opened Floats
  import opened Enums
  import opened Stations

  /** The fields of a Data.Query, as a value. */
  datatype QueryParams = QueryParams(province: Option<Province>, season: Option<Season>, year: int, month: int,
                                     readingOf: Option<ReadingOf>, withinRangeKM: real,
                                     longitude: real, latitude: real, stationsOption: Option<StationsOption>)

  /** isWithin(distanceKM, lat1, lat2, lon1, lon2), left abstract. */
  type WithinFn = (real, real, real, real, real) -> bool

  /** The NullPointerExceptions query can throw: a null selector, or a null reduction mode. */
  datatype QueryError = NullReadingOf | NullStationsOption

  /** The province step filters only for a concrete province: null and CANADA mean "all". */
  predicate ProvinceFilterOn(q: QueryParams)
  {
    q.province.Some? && q.province.value != CANADA
  }

  /** The province loop: the stations of province `p`, in list order. */
  function ProvinceFilter(ss: seq<StationValue>, p: Province): (r: seq<StationValue>)
    ensures forall s :: s in r <==> s in ss && s.province == p
    ensures |r| <= |ss|
  {
    if ss == [] then []
    else
      var last := ss[|ss| - 1];
      assert ss == ss[..|ss| - 1] + [last];
      var r := ProvinceFilter(ss[..|ss| - 1], p);
      if last.province == p then r + [last] else r
  }

  /** The station lies within the query's radius of the query's centre, as isWithin decides it. */
  predicate Near(s: StationValue, q: QueryParams, within: WithinFn)
  {
    within(q.withinRangeKM, s.latitude, q.latitude, s.longitude, q.longitude)
  }

  /** The same test, given the radius and the centre directly. */
  predicate NearTo(s: StationValue, km: real, lat: real, lon: real, within: WithinFn)
  {
    within(km, s.latitude, lat, s.longitude, lon)
  }

  /** The radius loop: the stations near the query's centre, in list order. */
  function RadiusFilter(ss: seq<StationValue>, km: real, lat: real, lon: real, within: WithinFn): (r: seq<StationValue>)
    ensures forall s :: s in r <==> s in ss && NearTo(s, km, lat, lon, within)
    ensures |r| <= |ss|
  {
    if ss == [] then []
    else
      var last := ss[|ss| - 1];
      assert ss == ss[..|ss| - 1] + [last];
      var r := RadiusFilter(ss[..|ss| - 1], km, lat, lon, within);
      if NearTo(last, km, lat, lon, within) then r + [last] else r
  }

  /**
   * The stations whose readings the query looks at: the province step, then,
   * for a nonzero radius, the radius step run over the WHOLE list, which
   * discards what the province step kept.
   */
  function Candidates(ss: seq<StationValue>, q: QueryParams, within: WithinFn): (r: seq<StationValue>)
    ensures q.withinRangeKM == 0.0 && ProvinceFilterOn(q) ==>
              forall s :: s in r <==> s in ss && s.province == q.province.value
    ensures q.withinRangeKM == 0.0 && !ProvinceFilterOn(q) ==> r == ss
    ensures q.withinRangeKM != 0.0 ==> forall s :: s in r <==> s in ss && Near(s, q, within)
  {
    var afterProvince := if ProvinceFilterOn(q) then ProvinceFilter(ss, q.province.value) else ss;
    if q.withinRangeKM != 0.0 then RadiusFilter(ss, q.withinRangeKM, q.latitude, q.longitude, within)
    else afterProvince
  }

  /** CANADA is a wildcard, exactly like a null province. */
  lemma CanadaIsWildcard(ss: seq<StationValue>, q: QueryParams, within: WithinFn)
    ensures Candidates(ss, q.(province := Some(CANADA)), within) == Candidates(ss, q.(province := None), within)
  {
  }

  /** With a nonzero radius the province filter has no effect at all. */
  lemma RadiusIgnoresProvince(ss: seq<StationValue>, q: QueryParams, within: WithinFn)
    requires q.withinRangeKM != 0.0
    ensures Candidates(ss, q, within) == Candidates(ss, q.(province := None), within)
  {
  }

  /** The year, month and season tests a reading must ALL pass; 0 and null are "any". */
  predicate ReadingMatches(r: Reading, q: QueryParams)
  {
    && (q.year == 0 || q.year == r.year)
    && (q.month == 0 || q.month == r.month)
    && (q.season.None? || q.season == Some(ALL) || q.season == GetSeason(r.month))
  }

  /** The inner reading loop for one station: its matching readings, in order. */
  function MatchingReadings(rs: seq<Reading>, q: QueryParams): (r: seq<Reading>)
    ensures forall x :: x in r <==> x in rs && ReadingMatches(x, q)
  {
    if rs == [] then []
    else
      var last := rs[|rs| - 1];
      assert rs == rs[..|rs| - 1] + [last];
      MatchingReadings(rs[..|rs| - 1], q) + (if ReadingMatches(last, q) then [last] else [])
  }

  /** validReadings: the matching readings of the given stations, station by station. */
  function SelectedReadings(ss: seq<StationValue>, q: QueryParams): (r: seq<Reading>)
    ensures forall x :: x in r <==> ReadingMatches(x, q) && exists s :: s in ss && x in s.readings
  {
    if ss == [] then []
    else
      var last := ss[|ss| - 1];
      assert ss == ss[..|ss| - 1] + [last];
      SelectedReadings(ss[..|ss| - 1], q) + MatchingReadings(last.readings, q)
  }

  /** The selected field of each reading, in order. */
  function SelectedValues(rs: seq<Reading>, sel: ReadingOf): (r: seq<real>)
    ensures |r| == |rs| && forall i {:trigger r[i]} :: 0 <= i < |rs| ==> r[i] == Field(rs[i], sel)
  {
    if rs == [] then [] else SelectedValues(rs[..|rs| - 1], sel) + [Field(rs[|rs| - 1], sel)]
  }

  /** The values that are counted: every value but the absence sentinel, in order. */
  function Counted(vs: seq<real>): (r: seq<real>)
    ensures forall v :: v in r <==> v in vs && v != MIN_VALUE
    ensures |r| <= |vs|
  {
    if vs == [] then []
    else
      var last := vs[|vs| - 1];
      assert vs == vs[..|vs| - 1] + [last];
      Counted(vs[..|vs| - 1]) + (if last != MIN_VALUE then [last] else [])
  }

  /** A non-empty sequence's elements are those of its prefix and its last element. */
  lemma MultisetOfSnoc<T>(s: seq<T>)
    requires s != []
    ensures multiset(s) == multiset(s[..|s| - 1]) + multiset{s[|s| - 1]}
  {
    assert s == s[..|s| - 1] + [s[|s| - 1]];
  }

  /** The province loop keeps each station of the province as often as it is listed, and no other. */
  lemma {:induction false} ProvinceFilterCounts(ss: seq<StationValue>, p: Province, s: StationValue)
    ensures multiset(ProvinceFilter(ss, p))[s] == if s.province == p then multiset(ss)[s] else 0
  {
    if ss != [] {
      var init := ss[..|ss| - 1];
      ProvinceFilterCounts(init, p, s);
      MultisetOfSnoc(ss);
    }
  }

  /** The radius loop keeps each near station as often as it is listed, and no other. */
  lemma {:induction false} RadiusFilterCounts(ss: seq<StationValue>, km: real, lat: real, lon: real, within: WithinFn, s: StationValue)
    ensures multiset(RadiusFilter(ss, km, lat, lon, within))[s] == if NearTo(s, km, lat, lon, within) then multiset(ss)[s] else 0
  {
    if ss != [] {
      var init := ss[..|ss| - 1];
      RadiusFilterCounts(init, km, lat, lon, within, s);
      MultisetOfSnoc(ss);
    }
  }

  /** The inner reading loop keeps each matching reading as often as the station holds it, and no other. */
  lemma {:induction false} MatchingReadingsCounts(rs: seq<Reading>, q: QueryParams, x: Reading)
    ensures multiset(MatchingReadings(rs, q))[x] == if ReadingMatches(x, q) then multiset(rs)[x] else 0
  {
    if rs != [] {
      var init := rs[..|rs| - 1];
      MatchingReadingsCounts(init, q, x);
      MultisetOfSnoc(rs);
    }
  }

  /** How often reading `x` occurs over all the stations' reading lists. */
  function Occurrences(ss: seq<StationValue>, x: Reading): nat
  {
    if ss == [] then 0 else Occurrences(ss[..|ss| - 1], x) + multiset(ss[|ss| - 1].readings)[x]
  }

  /**
   * validReadings keeps each matching reading as often as it occurs over the
   * stations (the same reading of two stations, or twice in one station, is
   * kept twice), and no other.
   */
  lemma {:induction false} SelectedReadingsCounts(ss: seq<StationValue>, q: QueryParams, x: Reading)
    ensures multiset(SelectedReadings(ss, q))[x] == if ReadingMatches(x, q) then Occurrences(ss, x) else 0
  {
    if ss != [] {
      var init := ss[..|ss| - 1];
      var last := ss[|ss| - 1];
      SelectedReadingsCounts(init, q, x);
      MatchingReadingsCounts(last.readings, q, x);
      assert SelectedReadings(ss, q) == SelectedReadings(init, q) + MatchingReadings(last.readings, q);
    }
  }

  /** Each value other than the sentinel is counted as often as it occurs; the sentinel never. */
  lemma {:induction false} CountedCounts(vs: seq<real>, v: real)
    ensures multiset(Counted(vs))[v] == if v != MIN_VALUE then multiset(vs)[v] else 0
  {
    if vs != [] {
      var init := vs[..|vs| - 1];
      var last := vs[|vs| - 1];
      CountedCounts(init, v);
      MultisetOfSnoc(vs);
      if last != MIN_VALUE {
        assert Counted(vs) == Counted(init) + [last];
        assert multiset(Counted(vs)) == multiset(Counted(init)) + multiset{last};
      } else {
        assert Counted(vs) == Counted(init);
      }
    }
  }

  /** The running total, count, maximum and minimum of the reduction loop. */
  datatype Totals = Totals(total: real, count: nat, max: real, min: real)

  /** Their start values: the maximum starts at MIN_VALUE, the minimum at MAX_VALUE. */
  const Initial: Totals := Totals(0.0, 0, MIN_VALUE, MAX_VALUE)

  /** One step of the reduction loop: a sentinel value leaves the totals alone. */
  function AddValue(t: Totals, v: real): Totals
  {
    if v != MIN_VALUE then
      Totals(t.total + v, t.count + 1, if v > t.max then v else t.max, if v < t.min then v else t.min)
    else t
  }

  /** The reduction loop over `vs`, value by value. */
  function Accumulate(vs: seq<real>): Totals
  {
    if vs == [] then Initial else AddValue(Accumulate(vs[..|vs| - 1]), vs[|vs| - 1])
  }

  /**
   * What the reduction loop computes: count and total are those of the
   * counted values; the maximum is at least every counted value and the start
   * value MIN_VALUE, and is one of the two; the minimum likewise with MAX_VALUE.
   */
  lemma {:induction false} AccumulateFacts(vs: seq<real>)
    ensures var t := Accumulate(vs);
            && t.count == |Counted(vs)| && t.total == Sum(Counted(vs))
            && (forall v :: v in Counted(vs) ==> t.min <= v <= t.max)
            && t.max >= MIN_VALUE && (t.max == MIN_VALUE || t.max in Counted(vs))
            && t.min <= MAX_VALUE && (t.min == MAX_VALUE || t.min in Counted(vs))
  {
    if vs != [] {
      var prefix := vs[..|vs| - 1];
      var last := vs[|vs| - 1];
      AccumulateFacts(prefix);
      if last != MIN_VALUE {
        assert Counted(vs) == Counted(prefix) + [last];
        SumAppend(Counted(prefix), last);
      } else {
        assert Counted(vs) == Counted(prefix);
      }
    }
  }

  /** Sentinel values play no part: reducing only the counted values gives the same totals. */
  lemma {:induction false} AccumulateSkipsSentinel(vs: seq<real>)
    ensures Accumulate(vs) == Accumulate(Counted(vs))
  {
    if vs != [] {
      var prefix := vs[..|vs| - 1];
      var last := vs[|vs| - 1];
      AccumulateSkipsSentinel(prefix);
      if last != MIN_VALUE {
        var c := Counted(prefix) + [last];
        assert Counted(vs) == c;
        assert c[..|c| - 1] == Counted(prefix);
      } else {
        assert Counted(vs) == Counted(prefix);
      }
    }
  }

  /** The return statement: the sentinel when nothing was counted, else the requested reduction. */
  function Reduce(t: Totals, opt: Option<StationsOption>): Result<real, QueryError>
  {
    if t.count > 0 then
      match opt
      case None => Failure(NullStationsOption)
      case Some(AVERAGE) => Success(t.total / t.count as real)
      case Some(EXTREME_MAX) => Success(t.max)
      case Some(EXTREME_MIN) => Success(t.min)
    else Success(MIN_VALUE)
  }

  /**
   * What query makes of the readings it selected: a null selector fails on
   * the first reading, otherwise the selected values are folded and reduced.
   */
  function Summary(rs: seq<Reading>, q: QueryParams): Result<real, QueryError>
  {
    match q.readingOf
    case None => if |rs| > 0 then Failure(NullReadingOf) else Success(MIN_VALUE)
    case Some(sel) => Reduce(Accumulate(SelectedValues(rs, sel)), q.stationsOption)
  }

  /** Data.query over station values. */
  function QueryResult(ss: seq<StationValue>, q: QueryParams, within: WithinFn): Result<real, QueryError>
  {
    Summary(SelectedReadings(Candidates(ss, q, within), q), q)
  }

  /** The values a query with selector `sel` counts. */
  function CountedValues(ss: seq<StationValue>, q: QueryParams, within: WithinFn, sel: ReadingOf): seq<real>
  {
    Counted(SelectedValues(SelectedReadings(Candidates(ss, q, within), q), sel))
  }

  /**
   * A counted value is the selected, non-sentinel field of a reading that
   * passes the year, month AND season tests, of a candidate station.
   */
  lemma CountedValueOrigin(ss: seq<StationValue>, q: QueryParams, within: WithinFn, sel: ReadingOf, v: real)
    requires v in CountedValues(ss, q, within, sel)
    ensures v != MIN_VALUE
    ensures exists s, x :: s in Candidates(ss, q, within) && x in s.readings && ReadingMatches(x, q) && Field(x, sel) == v
  {
    var rs := SelectedReadings(Candidates(ss, q, within), q);
    var vs := SelectedValues(rs, sel);
    var i :| 0 <= i < |vs| && vs[i] == v;
    assert rs[i] in rs;
  }

  /** No counted value: the result is the sentinel, whatever the reduction mode. */
  lemma NoDataIsSentinel(ss: seq<StationValue>, q: QueryParams, within: WithinFn)
    requires q.readingOf.Some? && CountedValues(ss, q, within, q.readingOf.value) == []
    ensures QueryResult(ss, q, within) == Success(MIN_VALUE)
  {
    AccumulateFacts(SelectedValues(SelectedReadings(Candidates(ss, q, within), q), q.readingOf.value));
  }

  /** AVERAGE is the mean of the counted values. */
  lemma AverageIsMean(ss: seq<StationValue>, q: QueryParams, within: WithinFn)
    requires q.readingOf.Some? && q.stationsOption == Some(AVERAGE)
    requires CountedValues(ss, q, within, q.readingOf.value) != []
    ensures var c := CountedValues(ss, q, within, q.readingOf.value);
            QueryResult(ss, q, within) == Success(Sum(c) / |c| as real)
  {
    AccumulateFacts(SelectedValues(SelectedReadings(Candidates(ss, q, within), q), q.readingOf.value));
  }

  /**
   * EXTREME_MIN is at most every counted value and is one of them, unless
   * every counted value exceeds MAX_VALUE (no finite float does).
   */
  lemma ExtremeMinIsMinimum(ss: seq<StationValue>, q: QueryParams, within: WithinFn)
    requires q.readingOf.Some? && q.stationsOption == Some(EXTREME_MIN)
    requires CountedValues(ss, q, within, q.readingOf.value) != []
    ensures var c := CountedValues(ss, q, within, q.readingOf.value);
            var r := QueryResult(ss, q, within);
            && r.Success?
            && (forall v :: v in c ==> r.value <= v)
            && ((forall v :: v in c ==> v <= MAX_VALUE) ==> r.value in c)
  {
    var vs := SelectedValues(SelectedReadings(Candidates(ss, q, within), q), q.readingOf.value);
    assert Counted(vs) == CountedValues(ss, q, within, q.readingOf.value);
    MinOfCounted(vs);
    assert QueryResult(ss, q, within) == Success(Accumulate(vs).min);
  }

  /** The reduction loop's minimum is at most every counted value, and one of them unless one exceeds MAX_VALUE. */
  lemma MinOfCounted(vs: seq<real>)
    requires Counted(vs) != []
    ensures Accumulate(vs).count > 0
    ensures forall v :: v in Counted(vs) ==> Accumulate(vs).min <= v
    ensures (forall v :: v in Counted(vs) ==> v <= MAX_VALUE) ==> Accumulate(vs).min in Counted(vs)
  {
    AccumulateFacts(vs);
    var c := Counted(vs);
    if (forall v :: v in c ==> v <= MAX_VALUE) && Accumulate(vs).min == MAX_VALUE {
      assert c[0] in c;
    }
  }

  /** EXTREME_MAX is at least every counted value and at least the start value MIN_VALUE. */
  lemma ExtremeMaxIsBound(ss: seq<StationValue>, q: QueryParams, within: WithinFn)
    requires q.readingOf.Some? && q.stationsOption == Some(EXTREME_MAX)
    requires CountedValues(ss, q, within, q.readingOf.value) != []
    ensures var c := CountedValues(ss, q, within, q.readingOf.value);
            var r := QueryResult(ss, q, within);
            && r.Success?
            && (forall v :: v in c ==> v <= r.value)
            && r.value >= MIN_VALUE
            && (r.value == MIN_VALUE || r.value in c)
  {
    AccumulateFacts(SelectedValues(SelectedReadings(Candidates(ss, q, within), q), q.readingOf.value));
  }

  /**
   * Because the maximum starts at the smallest positive float, EXTREME_MAX
   * over values that are all negative (or zero) returns the sentinel, which
   * reads as "no data".
   */
  lemma ExtremeMaxOfNonPositiveIsSentinel(ss: seq<StationValue>, q: QueryParams, within: WithinFn)
    requires q.readingOf.Some? && q.stationsOption == Some(EXTREME_MAX)
    requires forall v :: v in CountedValues(ss, q, within, q.readingOf.value) ==> v <= 0.0
    ensures QueryResult(ss, q, within) == Success(MIN_VALUE)
  {
    var vs := SelectedValues(SelectedReadings(Candidates(ss, q, within), q), q.readingOf.value);
    AccumulateFacts(vs);
    assert CountedValues(ss, q, within, q.readingOf.value) == Counted(vs);
  }

  /** A query with a selector and a reduction mode never throws. */
  lemma ConfiguredQuerySucceeds(ss: seq<StationValue>, q: QueryParams, within: WithinFn)
    requires q.readingOf.Some? && q.stationsOption.Some?
    ensures QueryResult(ss, q, within).Success?
  {
  }

  /**
   * The null-reference failures: a null selector throws exactly when some
   * reading is selected, a null mode exactly when some value is counted.
   */
  lemma QueryFailures(ss: seq<StationValue>, q: QueryParams, within: WithinFn)
    ensures q.readingOf.None? ==>
              (QueryResult(ss, q, within) == Failure(NullReadingOf) <==> SelectedReadings(Candidates(ss, q, within), q) != [])
    ensures q.readingOf.Some? && q.stationsOption.None? ==>
              (QueryResult(ss, q, within) == Failure(NullStationsOption) <==> CountedValues(ss, q, within, q.readingOf.value) != [])
  {
    if q.readingOf.Some? {
      AccumulateFacts(SelectedValues(SelectedReadings(Candidates(ss, q, within), q), q.readingOf.value));
    }
  }

  /** The reductions of 10, 20 and 30: mean 20, minimum 10, maximum 30; all-sentinel values give no data. */
  lemma ReductionExamples()
    ensures Reduce(Accumulate([10.0, 20.0, 30.0]), Some(AVERAGE)) == Success(20.0)
    ensures Reduce(Accumulate([10.0, 20.0, 30.0]), Some(EXTREME_MIN)) == Success(10.0)
    ensures Reduce(Accumulate([10.0, 20.0, 30.0]), Some(EXTREME_MAX)) == Success(30.0)
    ensures Reduce(Accumulate([MIN_VALUE, MIN_VALUE]), Some(AVERAGE)) == Success(MIN_VALUE)
  {
    assert [10.0, 20.0, 30.0][..2] == [10.0, 20.0];
    assert [10.0, 20.0][..1] == [10.0];
    assert [MIN_VALUE, MIN_VALUE][..1] == [MIN_VALUE];
  }
}
