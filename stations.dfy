/**
 * Station.java: the DOM lookups a station is parsed with, the Reading
 * record and its season, and the Station object whose reading list grows.
 */
module Stations {
  import opened Wrappers
  import opened Floats
  import opened Enums

  /** The child node names the parser asks for. */
  datatype NodeName =
    | NameNode | Identifier | ProvinceOrTerritory | Latitude | Longitude
    | MinTemperature | MeanTemperature | MaxTemperature | Snow | Precipitation

  /** A node name as it is spelled in the document. */
  function NodeNameText(n: NodeName): string
  {
    match n
    case NameNode => "name"
    case Identifier => "identifier"
    case ProvinceOrTerritory => "province_or_territory"
    case Latitude => "latitude"
    case Longitude => "longitude"
    case MinTemperature => "min_temperature"
    case MeanTemperature => "mean_temperature"
    case MaxTemperature => "max_temperature"
    case Snow => "snow"
    case Precipitation => "precipitation"
  }

  /** The attribute names the parser reads. */
  datatype AttrName = Code | Value | Total

  /** An attribute name as it is spelled in the document. */
  function AttrNameText(a: AttrName): string
  {
    match a
    case Code => "code"
    case Value => "value"
    case Total => "total"
  }

  /** One child node of a `station` element: its node name, text content and attributes, as spelled in the document. */
  datatype Element = Element(name: string, text: string, attrs: map<string, string>)

  /** The child's node name is the spelling of `tag` (getNodeName().equals). */
  predicate Named(e: Element, tag: NodeName)
  {
    e.name == NodeNameText(tag)
  }

  /** A `station` element, given by its child nodes in document order. */
  type StationNode = seq<Element>

  /** Float.parseFloat, left abstract: None where it throws NumberFormatException. */
  type FloatParser = string -> Option<real>

  /** The child at `i` is the first child, from `from` on, whose name is `tag`. */
  ghost predicate FirstNamed(node: StationNode, tag: NodeName, from: nat, i: int)
  {
    from <= i < |node| && Named(node[i], tag) && forall j :: from <= j < i ==> !Named(node[j], tag)
  }

  /** The search loop of getElementValue, from child `from` on. */
  function ElementValueFrom(node: StationNode, tag: NodeName, from: nat): (r: Option<string>)
    requires from <= |node|
    ensures r.None? <==> forall j :: from <= j < |node| ==> !Named(node[j], tag)
    ensures r.Some? ==> exists i :: FirstNamed(node, tag, from, i) && r.value == node[i].text
    decreases |node| - from
  {
    if from == |node| then None
    else if Named(node[from], tag) then
      assert FirstNamed(node, tag, from, from);
      Some(node[from].text)
    else
      FirstNamedShift(node, tag, from);
      ElementValueFrom(node, tag, from + 1)
  }

  /** Passing over a child of another name keeps the first child named `tag`. */
  lemma FirstNamedShift(node: StationNode, tag: NodeName, from: nat)
    requires from < |node| && !Named(node[from], tag)
    ensures forall i :: FirstNamed(node, tag, from + 1, i) ==> FirstNamed(node, tag, from, i)
  {
  }

  /**
   * getElementValue: the text of the first child named `tag`; None (null)
   * when no child has that name.
   */
  function GetElementValue(node: StationNode, tag: NodeName): (r: Option<string>)
    ensures r.None? <==> forall j :: 0 <= j < |node| ==> !Named(node[j], tag)
    ensures r.Some? ==> exists i :: FirstNamed(node, tag, 0, i) && r.value == node[i].text
  {
    ElementValueFrom(node, tag, 0)
  }

  /** The parser's node names are spelled differently from each other, so a child answers to at most one of them. */
  lemma NodeNameTextInjective(a: NodeName, b: NodeName)
    requires NodeNameText(a) == NodeNameText(b)
    ensures a == b
  {
  }

  /** A child is found by the exact spelling of its name: "name" answers to NameNode, "Name" does not. */
  lemma ElementLookupExample()
    ensures GetElementValue([Element("name", "Kamloops", map[])], NameNode) == Some("Kamloops")
    ensures GetElementValue([Element("Name", "Kamloops", map[])], NameNode) == None
  {
    var hit := [Element("name", "Kamloops", map[])];
    assert Named(hit[0], NameNode);
    var miss := [Element("Name", "Kamloops", map[])];
    assert miss[0].name[0] != NodeNameText(NameNode)[0];
  }

  /** The child is named `tag` and carries the attribute `attr`. */
  predicate Carries(e: Element, tag: NodeName, attr: AttrName)
  {
    Named(e, tag) && AttrNameText(attr) in e.attrs
  }

  /** The child at `i` is the first child, from `from` on, that is named `tag` and carries `attr`. */
  ghost predicate FirstCarrying(node: StationNode, tag: NodeName, attr: AttrName, from: nat, i: int)
  {
    from <= i < |node| && Carries(node[i], tag, attr) && forall j :: from <= j < i ==> !Carries(node[j], tag, attr)
  }

  /** The search loop of getAttributeValue, from child `from` on. */
  function AttributeValueFrom(node: StationNode, tag: NodeName, attr: AttrName, from: nat): (r: Option<string>)
    requires from <= |node|
    ensures r.None? <==> forall j :: from <= j < |node| ==> !Carries(node[j], tag, attr)
    ensures r.Some? ==> exists i :: FirstCarrying(node, tag, attr, from, i) && r.value == node[i].attrs[AttrNameText(attr)]
    decreases |node| - from
  {
    if from == |node| then None
    else if Carries(node[from], tag, attr) then
      assert FirstCarrying(node, tag, attr, from, from);
      Some(node[from].attrs[AttrNameText(attr)])
    else
      FirstCarryingShift(node, tag, attr, from);
      AttributeValueFrom(node, tag, attr, from + 1)
  }

  /** Passing over a child that does not qualify keeps the first one that does. */
  lemma FirstCarryingShift(node: StationNode, tag: NodeName, attr: AttrName, from: nat)
    requires from < |node| && !Carries(node[from], tag, attr)
    ensures forall i :: FirstCarrying(node, tag, attr, from + 1, i) ==> FirstCarrying(node, tag, attr, from, i)
  {
  }

  /**
   * getAttributeValue: the attribute `attr` of the first child that is named
   * `tag` AND carries that attribute (children of that name without it are
   * passed over); None (null) when there is no such child.
   */
  function GetAttributeValue(node: StationNode, tag: NodeName, attr: AttrName): (r: Option<string>)
    ensures r.None? <==> forall j :: 0 <= j < |node| ==> !Carries(node[j], tag, attr)
    ensures r.Some? ==> exists i :: FirstCarrying(node, tag, attr, 0, i) && r.value == node[i].attrs[AttrNameText(attr)]
  {
    AttributeValueFrom(node, tag, attr, 0)
  }

  /**
   * stringToFloat: the parsed value, or the sentinel when the text is
   * missing (parseFloat(null) throws) or does not parse. It never fails.
   */
  function StringToFloat(s: Option<string>, parse: FloatParser): (r: real)
    ensures s.Some? && parse(s.value).Some? ==> r == parse(s.value).value
    ensures s.None? || parse(s.value).None? ==> r == MIN_VALUE
  {
    match s
    case None => MIN_VALUE
    case Some(t) =>
      match parse(t)
      case None => MIN_VALUE
      case Some(x) => x
  }

  /**
   * getAttributeValueFloat: the attribute looked up as getAttributeValue does,
   * parsed; the sentinel when it is missing or unparsable. Its separate code
   * behaves exactly as stringToFloat applied to getAttributeValue.
   */
  function GetAttributeValueFloat(node: StationNode, tag: NodeName, attr: AttrName, parse: FloatParser): (r: real)
    ensures r == StringToFloat(GetAttributeValue(node, tag, attr), parse)
    ensures (forall j :: 0 <= j < |node| ==> !Carries(node[j], tag, attr)) ==> r == MIN_VALUE
  {
    var value := GetAttributeValue(node, tag, attr);
    if value.Some? then
      match parse(value.value)
      case Some(x) => x
      case None => MIN_VALUE
    else MIN_VALUE
  }

  /** Station.Reading: one month's observation. Absent measurements hold MIN_VALUE. */
  datatype Reading = Reading(year: int, month: int,
                             minTemp: real, meanTemp: real, maxTemp: real,
                             snow: real, precipitation: real)

  /** Reading(stationNode, year, month): the five measurements read from the station's children. */
  function NewReading(node: StationNode, year: int, month: int, parse: FloatParser): (r: Reading)
    ensures r.year == year && r.month == month
  {
    Reading(year, month,
            GetAttributeValueFloat(node, MinTemperature, Value, parse),
            GetAttributeValueFloat(node, MeanTemperature, Value, parse),
            GetAttributeValueFloat(node, MaxTemperature, Value, parse),
            GetAttributeValueFloat(node, Snow, Total, parse),
            GetAttributeValueFloat(node, Precipitation, Total, parse))
  }

  /** The seasons in calendar order from March on, three months each. */
  const SeasonsInOrder: seq<Season> := [SPRING, SUMMER, AUTUMN, WINTER]

  /**
   * Reading.getSeason: March-May spring, June-August summer, September-November
   * autumn, December-February winter; None (null) for any other month.
   */
  function GetSeason(month: int): (r: Option<Season>)
    ensures r.None? <==> !(1 <= month <= 12)
    ensures 1 <= month <= 12 ==> r == Some(SeasonsInOrder[((month + 9) % 12) / 3])
    ensures r != Some(ALL)
  {
    if month == 3 || month == 4 || month == 5 then Some(SPRING)
    else if month == 6 || month == 7 || month == 8 then Some(SUMMER)
    else if month == 9 || month == 10 || month == 11 then Some(AUTUMN)
    else if month == 12 || month == 1 || month == 2 then Some(WINTER)
    else None
  }

  /** Each season other than ALL is the season of exactly three months. */
  lemma SeasonMonths(s: Season)
    requires s != ALL
    ensures |set m | 1 <= m <= 12 && GetSeason(m) == Some(s)| == 3
  {
    var ms := set m | 1 <= m <= 12 && GetSeason(m) == Some(s);
    match s
    case SPRING => assert ms == {3, 4, 5};
    case SUMMER => assert ms == {6, 7, 8};
    case AUTUMN => assert ms == {9, 10, 11};
    case WINTER => assert ms == {12, 1, 2};
  }

  /**
   * The static selector -> field map that replaces the reflective
   * getDeclaredField(readingOf.toString()) lookup.
   */
  function Field(r: Reading, sel: ReadingOf): real
  {
    match sel
    case MIN_TEMP => r.minTemp
    case MEAN_TEMP => r.meanTemp
    case MAX_TEMP => r.maxTemp
    case SNOW => r.snow
    case PRECIPITATION => r.precipitation
  }

  /** The names of Reading's declared float fields. */
  const FloatFieldNames: seq<string> := ["minTemp", "meanTemp", "maxTemp", "snow", "precipitation"]

  /** Reflective lookup of a declared float field of a reading by its name. */
  function FieldByName(r: Reading, name: string): Option<real>
  {
    if name == "minTemp" then Some(r.minTemp)
    else if name == "meanTemp" then Some(r.meanTemp)
    else if name == "maxTemp" then Some(r.maxTemp)
    else if name == "snow" then Some(r.snow)
    else if name == "precipitation" then Some(r.precipitation)
    else None
  }

  /**
   * Every selector's text names a declared float field, and the static map
   * yields exactly what the reflective lookup by that text yields.
   */
  lemma FieldMatchesReflection(r: Reading, sel: ReadingOf)
    ensures ReadingOfText(sel) in FloatFieldNames
    ensures FieldByName(r, ReadingOfText(sel)) == Some(Field(r, sel))
  {
  }

  /** Distinct selectors pick distinct fields: some reading tells them apart. */
  lemma FieldsDistinct(a: ReadingOf, b: ReadingOf)
    requires a != b
    ensures exists r: Reading :: Field(r, a) != Field(r, b)
  {
    var r := Reading(0, 0, 1.0, 2.0, 3.0, 4.0, 5.0);
    assert Field(r, a) != Field(r, b);
  }

  /** The element a selector's field is read from. */
  function SourceTag(sel: ReadingOf): NodeName
  {
    match sel
    case MIN_TEMP => MinTemperature
    case MEAN_TEMP => MeanTemperature
    case MAX_TEMP => MaxTemperature
    case SNOW => Snow
    case PRECIPITATION => Precipitation
  }

  /**
   * The three temperatures come from attribute `value`, snow and
   * precipitation from attribute `total`.
   */
  lemma ReadingFieldSource(node: StationNode, year: int, month: int, parse: FloatParser, sel: ReadingOf)
    ensures Field(NewReading(node, year, month, parse), sel)
         == GetAttributeValueFloat(node, SourceTag(sel), if sel in {SNOW, PRECIPITATION} then Total else Value, parse)
  {
  }

  /** Province.valueOf of the province element's `code` attribute; None where Java throws. */
  function ProvinceOf(node: StationNode): Option<Province>
  {
    match GetAttributeValue(node, ProvinceOrTerritory, Code)
    case None => None
    case Some(code) => ProvinceValueOf(code)
  }

  /** A station as a value: what its object holds at one moment. */
  datatype StationValue = StationValue(name: Option<string>, identifier: Option<string>, province: Province,
                                       latitude: real, longitude: real, readings: seq<Reading>)

  /** Two station values agree on everything but their readings. */
  predicate SameIdentity(a: StationValue, b: StationValue)
  {
    a.name == b.name && a.identifier == b.identifier && a.province == b.province
      && a.latitude == b.latitude && a.longitude == b.longitude
  }

  /**
   * new Station(stationNode, year, month) as a value: None where the province
   * code is missing or unknown (Province.valueOf throws). A new station holds
   * exactly one reading, for the given year and month.
   */
  function ParseStation(node: StationNode, year: int, month: int, parse: FloatParser): (r: Option<StationValue>)
    ensures r.Some? <==> ProvinceOf(node).Some?
    ensures r.Some? ==> |r.value.readings| == 1 && r.value.readings[0].year == year && r.value.readings[0].month == month
    ensures r.Some? ==> r.value.identifier == GetElementValue(node, Identifier) && r.value.province == ProvinceOf(node).value
  {
    match ProvinceOf(node)
    case None => None
    case Some(p) =>
      Some(StationValue(GetElementValue(node, NameNode), GetElementValue(node, Identifier), p,
                        StringToFloat(GetElementValue(node, Latitude), parse),
                        StringToFloat(GetElementValue(node, Longitude), parse),
                        [NewReading(node, year, month, parse)]))
  }

  /** Station: fixed identity fields and a reading list that only grows. */
  class Station {
    const name: Option<string>
    const identifier: Option<string>
    const province: Province
    const latitude: real
    const longitude: real
    var readings: seq<Reading>

    /** The station's current state as a value. */
    function Value(): StationValue
      reads this
    {
      StationValue(name, identifier, province, latitude, longitude, readings)
    }

    /** new Station(stationNode, year, month); the caller has checked that the province parses. */
    constructor (node: StationNode, year: int, month: int, parse: FloatParser)
      requires ProvinceOf(node).Some?
      ensures Value() == ParseStation(node, year, month, parse).value
    {
      name := GetElementValue(node, NameNode);
      identifier := GetElementValue(node, Identifier);
      province := ProvinceOf(node).value;
      var la := GetElementValue(node, Latitude);
      var lo := GetElementValue(node, Longitude);
      latitude := StringToFloat(la, parse);
      longitude := StringToFloat(lo, parse);
      readings := [NewReading(node, year, month, parse)];
    }

    /** addReading: appends one reading; earlier readings and the identity fields stay. */
    method AddReading(node: StationNode, year: int, month: int, parse: FloatParser)
      modifies this
      ensures readings == old(readings) + [NewReading(node, year, month, parse)]
      ensures |readings| == |old(readings)| + 1 && readings[..|old(readings)|] == old(readings)
    {
      readings := readings + [NewReading(node, year, month, parse)];
    }
  }

  /** The values of a list of stations, in list order. */
  function Snapshot(ss: seq<Station>): (r: seq<StationValue>)
    reads set s | s in ss
    ensures |r| == |ss| && forall i {:trigger r[i]} :: 0 <= i < |ss| ==> r[i] == ss[i].Value()
  {
    if ss == [] then [] else Snapshot(ss[..|ss| - 1]) + [ss[|ss| - 1].Value()]
  }

  /** Stations whose objects did not change have the same values. */
  twostate lemma SnapshotFrame(ss: seq<Station>)
    requires forall s :: s in ss ==> unchanged(s)
    ensures Snapshot(ss) == old(Snapshot(ss))
  {
  }

  /** Snapshot distributes over appending one station. */
  lemma SnapshotAppend(ss: seq<Station>, s: Station)
    ensures Snapshot(ss + [s]) == Snapshot(ss) + [s.Value()]
  {
    assert |Snapshot(ss + [s])| == |Snapshot(ss) + [s.Value()]|;
    forall i | 0 <= i < |ss| + 1 ensures Snapshot(ss + [s])[i] == (Snapshot(ss) + [s.Value()])[i] {
      if i < |ss| {
        assert (ss + [s])[i] == ss[i];
      }
    }
  }
}
