/** Lab reports: the table of normal ranges per test type and parameter,
    `checkNormalRange` with its gender-specific entries and its fallbacks,
    and lab report IDs from the shared sequence generator. */
module LabReports {
  import opened Common
  import opened Ids

  /** One table entry. `minText`/`maxText` are the bounds as JavaScript
      prints them inside the range string. */
  datatype Range = Range(min: real, max: real, minText: string, maxText: string, unit: string, optimal: Option<string>)

  function R(min: real, max: real, minText: string, maxText: string, unit: string): Range {
    Range(min, max, minText, maxText, unit, None)
  }

  /** `normalRanges[testType]`. */
  function TestRanges(testType: string): Option<map<string, Range>> {
    match testType
    case "Complete Blood Count" => Some(map[
      "Hemoglobin" := R(12.0, 15.5, "12", "15.5", "g/dL"),
      "Hemoglobin_male" := R(13.5, 17.5, "13.5", "17.5", "g/dL"),
      "White Blood Cells" := R(4500.0, 11000.0, "4500", "11000", "cells/μL"),
      "Platelets" := R(150000.0, 450000.0, "150000", "450000", "cells/μL"),
      "Hematocrit" := R(36.0, 44.0, "36", "44", "%"),
      "Hematocrit_male" := R(41.0, 50.0, "41", "50", "%")])
    case "Lipid Profile" => Some(map[
      "Total Cholesterol" := Range(0.0, 200.0, "0", "200", "mg/dL", Some("<200")),
      "LDL Cholesterol" := Range(0.0, 100.0, "0", "100", "mg/dL", Some("<100")),
      "HDL Cholesterol" := Range(40.0, 999.0, "40", "999", "mg/dL", Some(">40")),
      "Triglycerides" := Range(0.0, 150.0, "0", "150", "mg/dL", Some("<150"))])
    case "Liver Function Test" => Some(map[
      "ALT" := R(7.0, 56.0, "7", "56", "U/L"),
      "AST" := R(10.0, 40.0, "10", "40", "U/L"),
      "Bilirubin Total" := R(0.3, 1.2, "0.3", "1.2", "mg/dL"),
      "Alkaline Phosphatase" := R(44.0, 147.0, "44", "147", "U/L")])
    case "Kidney Function Test" => Some(map[
      "Creatinine" := R(0.6, 1.2, "0.6", "1.2", "mg/dL"),
      "BUN" := R(6.0, 20.0, "6", "20", "mg/dL"),
      "Uric Acid" := R(3.4, 7.0, "3.4", "7", "mg/dL")])
    case "Thyroid Function Test" => Some(map[
      "TSH" := R(0.27, 4.2, "0.27", "4.2", "μIU/mL"),
      "T3" := R(80.0, 200.0, "80", "200", "ng/dL"),
      "T4" := R(5.1, 14.1, "5.1", "14.1", "μg/dL")])
    case _ => None
  }

  datatype RangeCheck =
    | NotApplicable
    | Checked(isNormal: bool, range: string, optimal: string, unit: string)

  /** The default of `patientGender`. */
  const DefaultGender: string := "female"

  /** The entry used: the gender-specific one if present, else the plain
      one. */
  function RangeEntry(ranges: map<string, Range>, testName: string, gender: string): Option<Range> {
    var genderKey := testName + "_" + gender;
    if genderKey in ranges then Some(ranges[genderKey])
    else if testName in ranges then Some(ranges[testName])
    else None
  }

  function RangeText(r: Range): string {
    r.minText + "-" + r.maxText + " " + r.unit
  }

  /** `checkNormalRange(testType, testName, value, patientGender)`. `value`
      is what `parseFloat` makes of the result (`None` for `NaN`). */
  function CheckNormalRange(testType: string, testName: string, value: Option<real>, patientGender: Option<string>)
    : RangeCheck
  {
    var gender := patientGender.GetOr(DefaultGender);
    match TestRanges(testType)
    case None => NotApplicable
    case Some(ranges) =>
      match RangeEntry(ranges, testName, gender)
      case None => NotApplicable
      case Some(r) =>
        var isNormal := value.Some? && value.value >= r.min && value.value <= r.max;
        Checked(isNormal, RangeText(r), if Truthy(r.optimal) then r.optimal.value else RangeText(r), r.unit)
  }

  // ---------------------------------------------------------------------
  // Properties of the lookup

  /** An unknown test type, or a parameter with neither a gender-specific
      nor a plain entry, is reported normal with range `N/A`. */
  lemma NotApplicableCases(testType: string, testName: string, value: Option<real>, patientGender: Option<string>)
    ensures CheckNormalRange(testType, testName, value, patientGender).NotApplicable? <==>
            TestRanges(testType).None? ||
            RangeEntry(TestRanges(testType).value, testName, patientGender.GetOr(DefaultGender)).None?
  {
  }

  /** The gender-specific entry takes precedence over the plain one. */
  lemma GenderKeyFirst(ranges: map<string, Range>, testName: string, gender: string)
    ensures testName + "_" + gender in ranges ==> RangeEntry(ranges, testName, gender) == Some(ranges[testName + "_" + gender])
    ensures testName + "_" + gender !in ranges && testName in ranges ==> RangeEntry(ranges, testName, gender) == Some(ranges[testName])
    ensures RangeEntry(ranges, testName, gender).None? <==> testName + "_" + gender !in ranges && testName !in ranges
  {
  }

  /** Against a found entry: normal iff `min <= value <= max`, both bounds
      inclusive, and never for an unparsable value; `optimal` falls back to
      the range string. */
  lemma CheckedAgainstEntry(testType: string, testName: string, value: Option<real>, patientGender: Option<string>)
    requires TestRanges(testType).Some?
    requires RangeEntry(TestRanges(testType).value, testName, patientGender.GetOr(DefaultGender)).Some?
    ensures var r := RangeEntry(TestRanges(testType).value, testName, patientGender.GetOr(DefaultGender)).value;
      var c := CheckNormalRange(testType, testName, value, patientGender);
      && c.Checked?
      && (c.isNormal <==> value.Some? && r.min <= value.value <= r.max)
      && c.range == r.minText + "-" + r.maxText + " " + r.unit
      && c.optimal == (if r.optimal.Some? && r.optimal.value != "" then r.optimal.value else c.range)
      && c.unit == r.unit
  {
  }

  lemma HemoglobinKeys(male: string, female: string, plain: string)
    requires male == "Hemoglobin_male" && female == "Hemoglobin_female" && plain == "Hemoglobin"
    ensures TestRanges("Complete Blood Count").Some?
    ensures male in TestRanges("Complete Blood Count").value
    ensures female !in TestRanges("Complete Blood Count").value
    ensures plain in TestRanges("Complete Blood Count").value
  {
  }

  /** Male haemoglobin is checked against 13.5-17.5; a female patient, and
      a patient whose gender is not given, against the plain entry
      12.0-15.5. */
  lemma HemoglobinByGender(v: real)
    ensures CheckNormalRange("Complete Blood Count", "Hemoglobin", Some(v), Some("male")).Checked?
    ensures CheckNormalRange("Complete Blood Count", "Hemoglobin", Some(v), Some("male")).isNormal <==> 13.5 <= v <= 17.5
    ensures CheckNormalRange("Complete Blood Count", "Hemoglobin", Some(v), None) ==
            CheckNormalRange("Complete Blood Count", "Hemoglobin", Some(v), Some("female"))
    ensures CheckNormalRange("Complete Blood Count", "Hemoglobin", Some(v), None).Checked?
    ensures CheckNormalRange("Complete Blood Count", "Hemoglobin", Some(v), None).isNormal <==> 12.0 <= v <= 15.5
  {
    HemoglobinKeys("Hemoglobin" + "_" + "male", "Hemoglobin" + "_" + "female", "Hemoglobin");
  }

  /** Every entry of the table has a lower bound below its upper bound and
      no negative bound, so each range is a non-empty interval. */
  lemma TableRangesNonEmpty(testType: string, key: string)
    requires TestRanges(testType).Some? && key in TestRanges(testType).value
    ensures 0.0 <= TestRanges(testType).value[key].min < TestRanges(testType).value[key].max
  {
  }

  /** `generateLabReportId`: `LAB<yyyymmdd><nnnn>`. */
  function NextLabReportId(today: string, existing: seq<string>): string {
    NextId(LabReportIds, today, existing)
  }

  /** Each lab report ID continues the day's sequence, up to number 9999. */
  lemma NextLabReportIdContinues(today: string, existing: seq<string>, n: nat)
    requires n < 10000
    requires LastIssued(LabReportIds, today, existing) == Some(Format(LabReportIds, today, n))
    ensures NextLabReportId(today, existing) == Format(LabReportIds, today, n + 1)
  {
    DatedContinues("LAB", today, existing, n);
  }
}
