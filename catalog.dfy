/**
 * The static option catalog of the student signup form: the degree menu and,
 * per degree code, the ordered year and stream lists offered by the dependent
 * menus, with the lookups that fall back to the empty list.
 */
module Catalog {

  /** One entry of the degree menu: the submitted value and its shown caption (the `label` key). */
  datatype DegreeOption = DegreeOption(value: string, caption: string)

  /** The degree menu, in display order; the first entry is the empty choice. */
  const DEGREE_OPTIONS: seq<DegreeOption> := [
    DegreeOption("", "Select Degree"),
    DegreeOption("BA", "B.A"),
    DegreeOption("BSc", "B.Sc"),
    DegreeOption("BCom", "B.Com"),
    DegreeOption("BE", "B.E"),
    DegreeOption("BTech", "B.Tech"),
    DegreeOption("MBBS", "MBBS"),
    DegreeOption("BHMS", "BHMS"),
    DegreeOption("BAMS", "BAMS"),
    DegreeOption("MTech", "M.Tech"),
    DegreeOption("MBA", "MBA"),
    DegreeOption("MSc", "M.Sc"),
    DegreeOption("MCom", "M.Com")
  ]

  const THREE_YEARS: seq<string> := ["First Year", "Second Year", "Third Year"]
  const FOUR_YEARS: seq<string> := THREE_YEARS + ["Fourth Year"]
  const FIVE_YEARS: seq<string> := FOUR_YEARS + ["Fifth Year"]
  const TWO_YEARS: seq<string> := ["First Year", "Second Year"]

  /** The year lists, keyed by degree code. */
  const YEAR_OPTIONS_BY_DEGREE: map<string, seq<string>> := map[
    "BA" := THREE_YEARS,
    "BSc" := THREE_YEARS,
    "BCom" := THREE_YEARS,
    "BE" := FOUR_YEARS,
    "BTech" := FOUR_YEARS,
    "MBBS" := FIVE_YEARS,
    "BHMS" := FIVE_YEARS,
    "BAMS" := FIVE_YEARS,
    "MTech" := TWO_YEARS,
    "MBA" := TWO_YEARS,
    "MSc" := TWO_YEARS,
    "MCom" := TWO_YEARS
  ]

  /** The stream lists, keyed by degree code. */
  const STREAM_OPTIONS_BY_DEGREE: map<string, seq<string>> := map[
    "BA" := ["History", "Political Science", "Economics", "Sociology", "Psychology",
             "English Literature", "Philosophy"],
    "BSc" := ["Physics", "Chemistry", "Biology", "Mathematics", "Computer Science", "Zoology",
              "Botany", "Biotechnology", "Environmental Science", "Agriculture", "Nursing",
              "Microbiology"],
    "BCom" := ["Accountancy", "Banking", "Taxation", "Finance", "Marketing", "E-Commerce",
               "Computer Applications", "Business Administration", "Economics", "Statistics"],
    "BE" := ["Computer Engineering", "Mechanical Engineering", "Civil Engineering",
             "Electrical Engineering", "Electronics and Communication", "Chemical Engineering",
             "Information Technology"],
    "BTech" := ["Information Technology", "Electronics", "Biotechnology",
                "Computer Science and Engineering", "Artificial Intelligence", "Data Science",
                "Mechanical Engineering"],
    "MBBS" := ["General Medicine", "Surgery", "Pediatrics", "Gynecology", "Orthopedics"],
    "BHMS" := ["Homeopathy"],
    "BAMS" := ["Ayurveda"],
    "MTech" := ["Computer Science and Engineering", "VLSI Design", "Power Systems",
                "Thermal Engineering", "Structural Engineering"],
    "MBA" := ["Finance", "Marketing", "Human Resources", "Operations", "International Business",
              "Information Technology"],
    "MSc" := ["Mathematics", "Physics", "Biotechnology", "Chemistry", "Zoology", "Botany",
              "Environmental Science"],
    "MCom" := ["Finance", "Accounting", "Taxation", "Economics", "Business Analytics"]
  ]

  /**
   * The values the degree menu can submit, in menu order: the empty choice
   * first, then distinct non-empty degree codes.
   */
  function DegreeValues(): (r: seq<string>)
    ensures |r| == |DEGREE_OPTIONS| && r[0] == ""
    ensures forall i :: 0 < i < |r| ==> r[i] != ""
    ensures Distinct(r)
  {
    var r := seq(|DEGREE_OPTIONS|, i requires 0 <= i < |DEGREE_OPTIONS| => DEGREE_OPTIONS[i].value);
    assert r == ["", "BA", "BSc", "BCom", "BE", "BTech", "MBBS", "BHMS", "BAMS",
                 "MTech", "MBA", "MSc", "MCom"];
    r
  }

  /** No two entries of the list are equal (the menus use entries as element keys). */
  predicate Distinct(s: seq<string>) {
    forall i, j :: 0 <= i < j < |s| ==> s[i] != s[j]
  }

  /**
   * The year list for a degree: a non-empty degree of the menu yields its
   * own, non-empty, list; the empty choice and any code outside the menu
   * yield the empty list rather than failing.
   */
  function AvailableYears(degree: string): (r: seq<string>)
    ensures degree != "" && degree in DegreeValues() ==> r == YEAR_OPTIONS_BY_DEGREE[degree] && r != []
    ensures degree == "" || degree !in DegreeValues() ==> r == []
  {
    CatalogComplete();
    if degree in YEAR_OPTIONS_BY_DEGREE then YEAR_OPTIONS_BY_DEGREE[degree] else []
  }

  /** The stream list for a degree, with the same menu-keyed lookup and empty-list fallback. */
  function AvailableStreams(degree: string): (r: seq<string>)
    ensures degree != "" && degree in DegreeValues() ==> r == STREAM_OPTIONS_BY_DEGREE[degree] && r != []
    ensures degree == "" || degree !in DegreeValues() ==> r == []
  {
    CatalogComplete();
    StreamListsNonEmpty(degree);
    if degree in STREAM_OPTIONS_BY_DEGREE then STREAM_OPTIONS_BY_DEGREE[degree] else []
  }

  lemma StreamListsNonEmpty(degree: string)
    ensures degree in STREAM_OPTIONS_BY_DEGREE ==> |STREAM_OPTIONS_BY_DEGREE[degree]| > 0
  {
  }

  /**
   * Both tables are keyed by exactly the non-empty values of the degree menu,
   * so every selectable degree has a year list and a stream list.
   */
  lemma CatalogComplete()
    ensures forall d :: d in YEAR_OPTIONS_BY_DEGREE <==> d != "" && d in DegreeValues()
    ensures forall d :: d in STREAM_OPTIONS_BY_DEGREE <==> d != "" && d in DegreeValues()
  {
    var values := DegreeValues();
    assert values == ["", "BA", "BSc", "BCom", "BE", "BTech", "MBBS", "BHMS", "BAMS",
                      "MTech", "MBA", "MSc", "MCom"];
  }

  /** Each degree's stream list has distinct entries (they are the stream menu's element keys). */
  lemma StreamsDistinct(degree: string)
    ensures Distinct(AvailableStreams(degree))
  {
  }

  /** Each degree's year list has distinct entries. */
  lemma YearsDistinct(degree: string)
    ensures Distinct(AvailableYears(degree))
  {
  }

  /** The empty choice and any unknown code yield no options at all. */
  lemma UnknownDegreeHasNoOptions(degree: string)
    requires degree == "" || forall i :: 0 <= i < |DEGREE_OPTIONS| ==> DEGREE_OPTIONS[i].value != degree
    ensures AvailableYears(degree) == [] && AvailableStreams(degree) == []
  {
    CatalogComplete();
  }

  /** The empty string is never itself a year or a stream of a degree. */
  lemma EmptyIsNoOption(degree: string)
    ensures "" !in AvailableYears(degree) && "" !in AvailableStreams(degree)
  {
  }
}
