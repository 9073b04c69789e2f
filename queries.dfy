/**
 * Data.Query and Data.Query.Builder: a builder whose setters fill fields,
 * and a query whose year alone is changed afterwards (setYear), so that one
 * configuration can be replayed year by year.
 */
module Queries {
  import opened Wrappers
  import opened Enums
  import opened QuerySpec

  /** What a fresh Builder holds: everything null or zero. */
  const DefaultParams: QueryParams := QueryParams(None, None, 0, 0, None, 0.0, 0.0, 0.0, None)

  class Query {
    const province: Option<Province>
    const season: Option<Season>
    var year: int
    var month: int
    const readingOf: Option<ReadingOf>
    const withinRangeKM: real
    const longitude: real
    const latitude: real
    const stationsOption: Option<StationsOption>

    /** The query's fields as a value. */
    function Params(): QueryParams
      reads this
    {
      QueryParams(province, season, year, month, readingOf, withinRangeKM, longitude, latitude, stationsOption)
    }

    /** Query(builder): copies every field of the builder. */
    constructor (builder: Builder)
      ensures Params() == builder.Params()
    {
      province := builder.province;
      season := builder.season;
      year := builder.year;
      month := builder.month;
      readingOf := builder.readingOf;
      withinRangeKM := builder.withinRangeKM;
      longitude := builder.longitude;
      latitude := builder.latitude;
      stationsOption := builder.stationsOption;
    }

    /** setYear: changes the year and nothing else. */
    method SetYear(y: int)
      modifies this
      ensures Params() == old(Params()).(year := y)
    {
      year := y;
    }
  }

  class Builder {
    var province: Option<Province>
    var season: Option<Season>
    var year: int
    var month: int
    var readingOf: Option<ReadingOf>
    var withinRangeKM: real
    var longitude: real
    var latitude: real
    var stationsOption: Option<StationsOption>

    /** The builder's fields as a value. */
    function Params(): QueryParams
      reads this
    {
      QueryParams(province, season, year, month, readingOf, withinRangeKM, longitude, latitude, stationsOption)
    }

    /** Builder(): no province, season, selector or mode; year, month and radius 0. */
    constructor ()
      ensures Params() == DefaultParams
    {
      province := None;
      season := None;
      year := 0;
      month := 0;
      readingOf := None;
      withinRangeKM := 0.0;
      longitude := 0.0;
      latitude := 0.0;
      stationsOption := None;
    }

    method SetProvince(p: Option<Province>) returns (self: Builder)
      modifies this
      ensures self == this && Params() == old(Params()).(province := p)
    {
      province := p;
      self := this;
    }

    method SetSeason(s: Option<Season>) returns (self: Builder)
      modifies this
      ensures self == this && Params() == old(Params()).(season := s)
    {
      season := s;
      self := this;
    }

    method SetYear(y: int) returns (self: Builder)
      modifies this
      ensures self == this && Params() == old(Params()).(year := y)
    {
      year := y;
      self := this;
    }

    method SetMonth(m: int) returns (self: Builder)
      modifies this
      ensures self == this && Params() == old(Params()).(month := m)
    {
      month := m;
      self := this;
    }

    method SetReadingOf(sel: Option<ReadingOf>) returns (self: Builder)
      modifies this
      ensures self == this && Params() == old(Params()).(readingOf := sel)
    {
      readingOf := sel;
      self := this;
    }

    /** withinRangeKM(km, latitude, longitude): sets the radius and the centre together. */
    method SetWithinRangeKM(km: real, lat: real, lon: real) returns (self: Builder)
      modifies this
      ensures self == this && Params() == old(Params()).(withinRangeKM := km, latitude := lat, longitude := lon)
    {
      latitude := lat;
      longitude := lon;
      withinRangeKM := km;
      self := this;
    }

    method SetStationsOption(opt: Option<StationsOption>) returns (self: Builder)
      modifies this
      ensures self == this && Params() == old(Params()).(stationsOption := opt)
    {
      stationsOption := opt;
      self := this;
    }

    /** build(): a new query holding the builder's fields. */
    method Build() returns (q: Query)
      ensures fresh(q) && q.Params() == Params()
    {
      q := new Query(this);
    }
  }
}
