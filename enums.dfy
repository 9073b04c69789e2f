/**
 * The enumerations the query engine depends on: Province and ReadingOf
 * (weather/enums), and Season and StationsOption, which the code base uses
 * but whose declarations are not part of this model; they are defined here
 * from their uses.
 */
module Enums {
  import opened Wrappers

  /** The administrative regions, in declaration order. CANADA is the aggregate pseudo-region. */
  datatype Province = NL | PE | NS | NB | QC | ON | MB | SK | AB | BC | YT | NT | NU | CANADA | XX

  /** Province.values(): every constant, in declaration order. */
  const Provinces: seq<Province> := [NL, PE, NS, NB, QC, ON, MB, SK, AB, BC, YT, NT, NU, CANADA, XX]

  /** The constant's Java name, which Province.valueOf matches against. */
  function ProvinceName(p: Province): string
  {
    match p
    case NL => "NL"
    case PE => "PE"
    case NS => "NS"
    case NB => "NB"
    case QC => "QC"
    case ON => "ON"
    case MB => "MB"
    case SK => "SK"
    case AB => "AB"
    case BC => "BC"
    case YT => "YT"
    case NT => "NT"
    case NU => "NU"
    case CANADA => "CANADA"
    case XX => "XX"
  }

  /** Province.toString: the display text each constant is declared with. */
  function ProvinceText(p: Province): string
  {
    match p
    case NL => "Newfoundland and Labrador"
    case PE => "Prince Edward Island"
    case NS => "Nova Scotia"
    case NB => "New Brunswick"
    case QC => "Quebec"
    case ON => "Ontario"
    case MB => "Manitoba"
    case SK => "Saskatchewan"
    case AB => "Alberta"
    case BC => "British Columbia"
    case YT => "Yukon"
    case NT => "Northwest Territories"
    case NU => "Nunavut"
    case CANADA => "Canada"
    case XX => "Other"
  }

  /** Province.ordinal(): the constant's position in declaration order. */
  function ProvinceOrdinal(p: Province): (k: nat)
    ensures k < |Provinces| && Provinces[k] == p
  {
    match p
    case NL => 0
    case PE => 1
    case NS => 2
    case NB => 3
    case QC => 4
    case ON => 5
    case MB => 6
    case SK => 7
    case AB => 8
    case BC => 9
    case YT => 10
    case NT => 11
    case NU => 12
    case CANADA => 13
    case XX => 14
  }

  /** There are exactly 15 constants, each listed once, NL first and XX last. */
  lemma ProvincesEnumerated()
    ensures |Provinces| == 15
    ensures forall p: Province :: p in Provinces
    ensures forall i, j :: 0 <= i < j < |Provinces| ==> Provinces[i] != Provinces[j]
    ensures Provinces[0] == NL && Provinces[12] == NU && Provinces[13] == CANADA && Provinces[14] == XX
  {
    forall p: Province ensures p in Provinces {
      assert Provinces[ProvinceOrdinal(p)] == p;
    }
  }

  /** toString is injective: two constants never share a display text. */
  lemma ProvinceTextInjective(p: Province, q: Province)
    requires ProvinceText(p) == ProvinceText(q)
    ensures p == q
  {
  }

  /** Search of `ps` for the constant named `s`. */
  function ValueOfIn(ps: seq<Province>, s: string): (r: Option<Province>)
    ensures r.Some? ==> r.value in ps && ProvinceName(r.value) == s
    ensures r.None? ==> forall i :: 0 <= i < |ps| ==> ProvinceName(ps[i]) != s
  {
    if ps == [] then None
    else if ProvinceName(ps[0]) == s then Some(ps[0])
    else ValueOfIn(ps[1..], s)
  }

  /**
   * Province.valueOf(s): the constant whose name is `s`; None where Java
   * throws IllegalArgumentException.
   */
  function ProvinceValueOf(s: string): (r: Option<Province>)
    ensures r.Some? ==> ProvinceName(r.value) == s
    ensures r.None? ==> forall p: Province :: ProvinceName(p) != s
  {
    var r := ValueOfIn(Provinces, s);
    if r.None? then NoneListed(s); r else r
  }

  /** A name that no listed constant carries is carried by no constant. */
  lemma NoneListed(s: string)
    requires forall i :: 0 <= i < |Provinces| ==> ProvinceName(Provinces[i]) != s
    ensures forall p: Province :: ProvinceName(p) != s
  {
    forall p: Province ensures ProvinceName(p) != s {
      assert Provinces[ProvinceOrdinal(p)] == p;
    }
  }

  /** valueOf inverts the constant's name. */
  lemma ValueOfName(p: Province)
    ensures ProvinceValueOf(ProvinceName(p)) == Some(p)
  {
    var r := ProvinceValueOf(ProvinceName(p));
    assert r.Some?;
    ProvinceNameInjective(r.value, p);
  }

  /** No two constants share a name. */
  lemma ProvinceNameInjective(p: Province, q: Province)
    requires ProvinceName(p) == ProvinceName(q)
    ensures p == q
  {
  }

  /** The measurement selectors, one per float field of a reading. */
  datatype ReadingOf = MIN_TEMP | MEAN_TEMP | MAX_TEMP | SNOW | PRECIPITATION

  /** ReadingOf.values(), in declaration order. */
  const ReadingOfs: seq<ReadingOf> := [MIN_TEMP, MEAN_TEMP, MAX_TEMP, SNOW, PRECIPITATION]

  /** ReadingOf.toString: the camel-case name of the reading field the selector picks. */
  function ReadingOfText(sel: ReadingOf): string
  {
    match sel
    case MIN_TEMP => "minTemp"
    case MEAN_TEMP => "meanTemp"
    case MAX_TEMP => "maxTemp"
    case SNOW => "snow"
    case PRECIPITATION => "precipitation"
  }

  /** There are exactly five selectors, each listed once. */
  lemma ReadingOfsEnumerated()
    ensures |ReadingOfs| == 5
    ensures forall sel: ReadingOf :: sel in ReadingOfs
    ensures forall i, j :: 0 <= i < j < |ReadingOfs| ==> ReadingOfs[i] != ReadingOfs[j]
  {
    forall sel: ReadingOf ensures sel in ReadingOfs {
      match sel
      case MIN_TEMP => assert ReadingOfs[0] == sel;
      case MEAN_TEMP => assert ReadingOfs[1] == sel;
      case MAX_TEMP => assert ReadingOfs[2] == sel;
      case SNOW => assert ReadingOfs[3] == sel;
      case PRECIPITATION => assert ReadingOfs[4] == sel;
    }
  }

  /** The selector texts are pairwise distinct. */
  lemma ReadingOfTextInjective(a: ReadingOf, b: ReadingOf)
    requires ReadingOfText(a) == ReadingOfText(b)
    ensures a == b
  {
  }

  /** Seasons as the code base uses them; ALL is the query wildcard. */
  datatype Season = ALL | SPRING | SUMMER | AUTUMN | WINTER

  /** The reductions a query can ask for. */
  datatype StationsOption = AVERAGE | EXTREME_MAX | EXTREME_MIN
}
