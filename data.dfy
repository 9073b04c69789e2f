/**
 * Data: the station list, the query engine run over it, and the merge of
 * the month workers' station lists that download performs after joining
 * them.
 */
module WeatherData {
  import opened Wrappers
  import opened Floats
  import opened Enums
  import opened Stations
  import opened QuerySpec
  import opened MergeSpec
  import Queries

  /** Snapshot of a one-longer prefix. */
  lemma SnapshotPrefix(ss: seq<Station>, i: nat)
    requires i < |ss|
    ensures Snapshot(ss[..i + 1]) == Snapshot(ss[..i]) + [ss[i].Value()]
    ensures (Snapshot(ss[..i]) + [ss[i].Value()])[..i] == Snapshot(ss[..i])
  {
    assert ss[..i + 1] == ss[..i] + [ss[i]];
    SnapshotAppend(ss[..i], ss[i]);
  }

  /** The province loop of query: keeps the stations of province p, in order. */
  method FilterProvince(ss: seq<Station>, p: Province) returns (valid: seq<Station>)
    ensures Snapshot(valid) == ProvinceFilter(Snapshot(ss), p)
  {
    valid := [];
    for i := 0 to |ss|
      invariant Snapshot(valid) == ProvinceFilter(Snapshot(ss[..i]), p)
    {
      var s := ss[i];
      SnapshotPrefix(ss, i);
      if s.province == p {
        SnapshotAppend(valid, s);
        valid := valid + [s];
      }
    }
    assert ss[..|ss|] == ss;
  }

  /** The radius loop of query: keeps the stations that isWithin accepts, in order. */
  method FilterRadius(ss: seq<Station>, km: real, lat: real, lon: real, within: WithinFn)
    returns (valid: seq<Station>)
    ensures Snapshot(valid) == RadiusFilter(Snapshot(ss), km, lat, lon, within)
  {
    valid := [];
    for i := 0 to |ss|
      invariant Snapshot(valid) == RadiusFilter(Snapshot(ss[..i]), km, lat, lon, within)
    {
      var s := ss[i];
      SnapshotPrefix(ss, i);
      if within(km, s.latitude, lat, s.longitude, lon) {
        SnapshotAppend(valid, s);
        valid := valid + [s];
      }
    }
    assert ss[..|ss|] == ss;
  }

  /** The nested reading loops of query: every matching reading, station by station. */
  method CollectReadings(ss: seq<Station>, q: QueryParams) returns (valid: seq<Reading>)
    ensures valid == SelectedReadings(Snapshot(ss), q)
  {
    valid := [];
    for k := 0 to |ss|
      invariant valid == SelectedReadings(Snapshot(ss[..k]), q)
    {
      var rs := ss[k].readings;
      for j := 0 to |rs|
        invariant valid == SelectedReadings(Snapshot(ss[..k]), q) + MatchingReadings(rs[..j], q)
      {
        var x := rs[j];
        assert rs[..j + 1][..j] == rs[..j];
        if (q.year == 0 || q.year == x.year)
           && (q.month == 0 || q.month == x.month)
           && (q.season.None? || q.season == Some(ALL) || q.season == GetSeason(x.month))
        {
          valid := valid + [x];
        }
      }
      assert rs[..|rs|] == rs;
      SnapshotPrefix(ss, k);
    }
    assert ss[..|ss|] == ss;
  }

  /** Extending a prefix by one value is one AddValue step of the fold. */
  lemma AccumulatePrefix(vs: seq<real>, i: nat)
    requires i < |vs|
    ensures Accumulate(vs[..i + 1]) == AddValue(Accumulate(vs[..i]), vs[i])
  {
    assert vs[..i + 1][..i] == vs[..i];
  }

  /** The accumulation loop of query: sum, count, maximum and minimum of the non-sentinel values. */
  method AccumulateReadings(rs: seq<Reading>, sel: ReadingOf) returns (t: Totals)
    ensures t == Accumulate(SelectedValues(rs, sel))
  {
    ghost var vs := SelectedValues(rs, sel);
    var total, max, min := 0.0, MIN_VALUE, MAX_VALUE;
    var count: nat := 0;
    for i := 0 to |rs|
      invariant Totals(total, count, max, min) == Accumulate(vs[..i])
    {
      AccumulatePrefix(vs, i);
      var value := Field(rs[i], sel);
      if value != MIN_VALUE {
        count := count + 1;
        total := total + value;
        if value > max {
          max := value;
        }
        if value < min {
          min := value;
        }
      }
    }
    assert vs[..|rs|] == vs;
    t := Totals(total, count, max, min);
  }

  /**
   * The end of query: the reduction loop, which dereferences a null selector
   * on its first reading, then the return for the requested reduction.
   */
  method Summarize(rs: seq<Reading>, q: QueryParams) returns (r: Result<real, QueryError>)
    ensures r == Summary(rs, q)
  {
    if q.readingOf.None? {
      if |rs| > 0 {
        return Failure(NullReadingOf);
      }
      return Success(MIN_VALUE);
    }
    var t := AccumulateReadings(rs, q.readingOf.value);
    if t.count > 0 {
      match q.stationsOption
      case None => return Failure(NullStationsOption);
      case Some(AVERAGE) => return Success(t.total / t.count as real);
      case Some(EXTREME_MAX) => return Success(t.max);
      case Some(EXTREME_MIN) => return Success(t.min);
    }
    return Success(MIN_VALUE);
  }

  /**
   * One iteration of the merge loop: station `s` joins the map. A known
   * identifier gets `s`'s readings appended to its entry in place; a new one
   * maps to `s` itself.
   */
  method MergeStation(stationsId: map<Id, Station>, s: Station, ghost m: map<Id, StationValue>)
    returns (r: map<Id, Station>)
    requires stationsId.Keys == m.Keys
    requires forall k :: k in stationsId ==>
               stationsId[k].identifier == k && stationsId[k] != s && stationsId[k].Value() == m[k]
    modifies if s.identifier in stationsId then {stationsId[s.identifier]} else {}
    ensures r == if s.identifier in stationsId then stationsId else stationsId[s.identifier := s]
    ensures r.Keys == MergeStep(m, old(s.Value())).Keys
    ensures forall k :: k in r ==> r[k].identifier == k && r[k].Value() == MergeStep(m, old(s.Value()))[k]
  {
    if s.identifier in stationsId {
      var target := stationsId[s.identifier];
      target.readings := target.readings + s.readings;
      r := stationsId;
    } else {
      r := stationsId[s.identifier := s];
    }
  }

  /**
   * The state of the merge loop after the first `pos` stations of `flat`
   * (whose values were `vals` before the loop), `merged` being the merge of
   * their values: each identifier seen maps to the first station object
   * that carried it, which now holds the merged value; stations not reached
   * yet are untouched.
   */
  ghost predicate Indexed(stationsId: map<Id, Station>, first: map<Id, nat>, flat: seq<Station>,
                          vals: seq<StationValue>, pos: nat, merged: map<Id, StationValue>)
    reads set s | s in flat
  {
    |vals| == |flat| && pos <= |flat|
    && stationsId.Keys == first.Keys == merged.Keys
    && (forall k :: k in stationsId ==>
          first[k] < pos && stationsId[k] == flat[first[k]] && stationsId[k].identifier == k
          && stationsId[k].Value() == merged[k])
    && (forall j :: pos <= j < |flat| ==> flat[j].Value() == vals[j])
  }

  /** The station objects of the workers' lists are pairwise distinct objects. */
  ghost predicate Distinct(flat: seq<Station>)
  {
    forall i, j :: 0 <= i < j < |flat| ==> flat[i] != flat[j]
  }

  /** The merge loop's body on station s, the one at position pos of the workers' lists. */
  method MergeAt(stationsId: map<Id, Station>, s: Station, ghost first: map<Id, nat>, ghost flat: seq<Station>,
                 ghost vals: seq<StationValue>, ghost pos: nat, ghost next: nat, ghost merged: map<Id, StationValue>)
    returns (r: map<Id, Station>, ghost first': map<Id, nat>)
    requires Distinct(flat) && Indexed(stationsId, first, flat, vals, pos, merged) && pos < |flat| && s == flat[pos]
    requires next == pos + 1
    modifies set s | s in flat
    ensures Indexed(r, first', flat, vals, next, MergeStep(merged, vals[pos]))
  {
    ghost var known := s.identifier in stationsId;
    ghost var f := if known then first[s.identifier] else pos;
    assert known ==> f < pos && stationsId[s.identifier] == flat[f];
    r := MergeStation(stationsId, s, merged);
    first' := if known then first else first[s.identifier := pos];
  }

  /** Merging one more fragment extends the fold by one step. */
  lemma MergeAllNext(vals: seq<StationValue>, pos: nat, next: nat)
    requires pos < |vals| && next == pos + 1
    ensures MergeAll(vals[..next]) == MergeStep(MergeAll(vals[..pos]), vals[pos])
  {
    assert vals[..next][..pos] == vals[..pos];
  }

  /**
   * The nested merge loops of download over the workers' station lists:
   * the map's entries are the first station objects of each identifier,
   * holding the merged values.
   */
  method IndexStations(fragments: seq<seq<Station>>) returns (stationsId: map<Id, Station>)
    requires Distinct(Flatten(fragments))
    modifies set s | s in Flatten(fragments)
    ensures stationsId.Keys == MergeAll(old(Snapshot(Flatten(fragments)))).Keys
    ensures forall k :: k in stationsId ==>
              stationsId[k].identifier == k && stationsId[k].Value() == MergeAll(old(Snapshot(Flatten(fragments))))[k]
  {
    ghost var flat := Flatten(fragments);
    ghost var vals := Snapshot(flat);
    ghost var pos := 0;
    ghost var first: map<Id, nat> := map[];
    stationsId := map[];
    for i := 0 to |fragments|
      invariant pos == |Flatten(fragments[..i])|
      invariant pos <= |vals| == |flat|
      invariant Indexed(stationsId, first, flat, vals, pos, MergeAll(vals[..pos]))
    {
      FlattenStep(fragments, i);
      FlattenPrefix(fragments, i + 1);
      var dm := fragments[i];
      for j := 0 to |dm|
        invariant pos == |Flatten(fragments[..i])| + j
        invariant pos <= |vals| == |flat|
      invariant Indexed(stationsId, first, flat, vals, pos, MergeAll(vals[..pos]))
      {
        FlattenIndex(fragments, i, j);
        var s := dm[j];
        assert s == flat[pos];
        ghost var next := pos + 1;
        MergeAllNext(vals, pos, next);
        stationsId, first := MergeAt(stationsId, s, first, flat, vals, pos, next, MergeAll(vals[..pos]));
        pos := next;
      }
    }
    assert fragments[..|fragments|] == fragments;
    assert vals[..pos] == vals;
  }

  /** The set of identifiers of a station list. */
  function IdsOf(ss: seq<Station>): set<Id>
  {
    set s | s in ss :: s.identifier
  }

  /** Appending a station adds its identifier; an identifier not in the set is on no listed station. */
  lemma IdsOfAppend(ss: seq<Station>, s: Station)
    ensures IdsOf(ss + [s]) == IdsOf(ss) + {s.identifier}
    ensures s.identifier !in IdsOf(ss) ==> forall i :: 0 <= i < |ss| ==> ss[i].identifier != s.identifier
  {
    assert forall x :: x in ss + [s] <==> x in ss || x == s;
    forall i | 0 <= i < |ss| ensures ss[i].identifier in IdsOf(ss) {
      assert ss[i] in ss;
    }
  }

  /** new ArrayList<>(stationsId.values()): every entry once, in an unspecified order. */
  method ListValues(stationsId: map<Id, Station>) returns (list: seq<Station>)
    requires forall k :: k in stationsId ==> stationsId[k].identifier == k
    ensures IdsOf(list) == stationsId.Keys
    ensures forall i :: 0 <= i < |list| ==> list[i].identifier in stationsId && stationsId[list[i].identifier] == list[i]
    ensures forall i, j :: 0 <= i < j < |list| ==> list[i].identifier != list[j].identifier
  {
    list := [];
    var rest := stationsId.Keys;
    while rest != {}
      invariant rest <= stationsId.Keys
      invariant IdsOf(list) == stationsId.Keys - rest
      invariant forall i :: 0 <= i < |list| ==> list[i].identifier in stationsId && stationsId[list[i].identifier] == list[i]
      invariant forall i, j :: 0 <= i < j < |list| ==> list[i].identifier != list[j].identifier
      decreases rest
    {
      var k :| k in rest;
      var s := stationsId[k];
      IdsOfAppend(list, s);
      list := list + [s];
      rest := rest - {k};
    }
  }

  /** The identifiers of a station list's values are the list's identifiers. */
  lemma SnapshotIds(ss: seq<Station>)
    ensures Ids(Snapshot(ss)) == IdsOf(ss)
  {
    var vs := Snapshot(ss);
    forall k | k in IdsOf(ss) ensures k in Ids(vs) {
      var s :| s in ss && s.identifier == k;
      var i :| 0 <= i < |ss| && ss[i] == s;
      assert vs[i] in vs;
    }
    forall k | k in Ids(vs) ensures k in IdsOf(ss) {
      var v :| v in vs && v.identifier == k;
      var i :| 0 <= i < |vs| && vs[i] == v;
      assert ss[i] in ss;
    }
  }

  class Data {
    var stations: seq<Station>

    constructor ()
      ensures stations == []
    {
      stations := [];
    }

    /**
     * The station steps of query: the province filter, then, for a nonzero
     * radius, the radius filter restarted from the whole station list.
     */
    method SelectStations(q: QueryParams, within: WithinFn) returns (validStations: seq<Station>)
      ensures Snapshot(validStations) == Candidates(Snapshot(stations), q, within)
    {
      validStations := stations;
      if q.province.Some? && q.province.value != CANADA {
        validStations := FilterProvince(stations, q.province.value);
      }
      if q.withinRangeKM != 0.0 {
        validStations := FilterRadius(stations, q.withinRangeKM, q.latitude, q.longitude, within);
      }
    }

    /**
     * query: the reduction of the selected measurement over the readings the
     * query selects, exactly as QueryResult defines it on the stations' values.
     */
    method Query(query: Queries.Query, within: WithinFn) returns (r: Result<real, QueryError>)
      ensures r == QueryResult(Snapshot(stations), query.Params(), within)
    {
      var q := query.Params();
      ghost var all := Snapshot(stations);
      var validStations := SelectStations(q, within);
      ghost var candidates := Candidates(all, q, within);
      var validReadings := CollectReadings(validStations, q);
      assert validReadings == SelectedReadings(candidates, q);
      r := Summarize(validReadings, q);
    }


    /**
     * The merge in download: the workers' station lists are folded into a
     * map keyed by identifier, and the station list becomes its values.
     */
    method Merge(fragments: seq<seq<Station>>)
      requires Distinct(Flatten(fragments))
      modifies this, set s | s in Flatten(fragments)
      ensures Enumerates(Snapshot(stations), MergeAll(old(Snapshot(Flatten(fragments)))))
    {
      var stationsId := IndexStations(fragments);
      var list := ListValues(stationsId);
      stations := list;
      SnapshotIds(stations);
    }
  }
}
