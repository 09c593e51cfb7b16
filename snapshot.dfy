/** Saving and restoring the whole report (`App.tsx`, lines 28-111 and
    503-549). The same snapshot shape is written to browser storage after
    every change, downloaded by "export", read back on start-up and
    uploaded by "import". A snapshot is accepted when five of its fields are
    present and JavaScript-truthy; nothing else about their contents is
    checked, so the fields are kept here as untyped JSON values. */
module Snapshot {
  import opened ReportTypes
  import Wizard

  // ---------------------------------------------------------------------
  // JSON values and JavaScript truthiness
  // ---------------------------------------------------------------------

  /** What `JSON.parse` can return. */
  datatype Json =
    | JNull
    | JBool(b: bool)
    | JNumber(n: real)
    | JString(s: string)
    | JArray(items: seq<Json>)
    | JObject(fields: map<string, Json>)

  /** `if (x)` on a parsed value: `null`, `false`, `0` and `""` are falsy;
      every array and object, even an empty one, is truthy. */
  predicate Truthy(v: Json)
  {
    match v
    case JNull => false
    case JBool(b) => b
    case JNumber(n) => n != 0.0
    case JString(s) => s != ""
    case JArray(_) => true
    case JObject(_) => true
  }

  /** `v.key` on a value that is not `null`: the field of an object, and
      `undefined` (None) for a missing key or a value of another kind. */
  function Get(v: Json, key: string): (r: Option<Json>)
    ensures r.Some? <==> v.JObject? && key in v.fields
    ensures r.Some? ==> r.value == v.fields[key]
  {
    if v.JObject? && key in v.fields then Some(v.fields[key]) else None
  }

  /** `v.key` used as a condition: present and truthy. */
  predicate HasTruthy(v: Json, key: string)
  {
    Get(v, key).Some? && Truthy(Get(v, key).value)
  }

  /** `a || d` where `a` may be `undefined`. */
  function OrElse(a: Option<Json>, d: Json): (r: Json)
    ensures a.Some? && Truthy(a.value) ==> r == a.value
    ensures !(a.Some? && Truthy(a.value)) ==> r == d
  {
    if a.Some? && Truthy(a.value) then a.value else d
  }

  // ---------------------------------------------------------------------
  // The snapshot
  // ---------------------------------------------------------------------

  /** The `AppState` interface: the six pieces of state that are saved. */
  datatype AppSnapshot = AppSnapshot(
    currentStep: Json,
    generalInfo: Json,
    configurations: Json,
    recommendations: Json,
    images: Json,
    pdfOptions: Json)

  const CURRENT_STEP := "currentStep"
  const GENERAL_INFO := "generalInfo"
  const CONFIGURATIONS := "configurations"
  const RECOMMENDATIONS := "recommendations"
  const IMAGES := "images"
  const PDF_OPTIONS := "pdfOptions"

  /** The validity check shared by start-up and import: the general information, the
      machines, the recommendations, the photo list and the current step
      must all be present and truthy. The PDF options are not checked. */
  predicate Accepts(v: Json)
  {
    && HasTruthy(v, GENERAL_INFO)
    && HasTruthy(v, CONFIGURATIONS)
    && HasTruthy(v, RECOMMENDATIONS)
    && HasTruthy(v, IMAGES)
    && HasTruthy(v, CURRENT_STEP)
  }

  /** A live state that passes the validity check once saved, and whose
      PDF options are set. */
  predicate Valid(s: AppSnapshot)
  {
    && Truthy(s.currentStep)
    && Truthy(s.generalInfo)
    && Truthy(s.configurations)
    && Truthy(s.recommendations)
    && Truthy(s.images)
    && Truthy(s.pdfOptions)
  }

  /** The PDF options as JSON. */
  function PdfOptionsJson(o: PdfOptions): (r: Json)
    ensures r.JObject? && Truthy(r)
    ensures Get(r, "includePageNumbers") == Some(JBool(o.includePageNumbers))
    ensures Get(r, "customFooterText") == Some(JString(o.customFooterText))
  {
    JObject(map["includePageNumbers" := JBool(o.includePageNumbers),
                "customFooterText" := JString(o.customFooterText)])
  }

  /** The options used when a snapshot carries none. */
  const DEFAULT_PDF_OPTIONS_JSON := PdfOptionsJson(DEFAULT_PDF_OPTIONS)

  /** `JSON.stringify(stateToSave)`, as a value: an object with exactly the
      six keys. */
  function Save(s: AppSnapshot): (r: Json)
    ensures r.JObject?
    ensures r.fields.Keys ==
      {CURRENT_STEP, GENERAL_INFO, CONFIGURATIONS, RECOMMENDATIONS, IMAGES, PDF_OPTIONS}
    ensures Get(r, CURRENT_STEP) == Some(s.currentStep)
    ensures Get(r, GENERAL_INFO) == Some(s.generalInfo)
    ensures Get(r, CONFIGURATIONS) == Some(s.configurations)
    ensures Get(r, RECOMMENDATIONS) == Some(s.recommendations)
    ensures Get(r, IMAGES) == Some(s.images)
    ensures Get(r, PDF_OPTIONS) == Some(s.pdfOptions)
  {
    JObject(map[
      CURRENT_STEP := s.currentStep,
      GENERAL_INFO := s.generalInfo,
      CONFIGURATIONS := s.configurations,
      RECOMMENDATIONS := s.recommendations,
      IMAGES := s.images,
      PDF_OPTIONS := s.pdfOptions])
  }

  // ---------------------------------------------------------------------
  // Start-up: loadState and the initial useState values
  // ---------------------------------------------------------------------

  /** The general information a fresh report starts with. */
  const DEFAULT_GENERAL_INFO := GeneralInfo(
    "THCS Bình Tây", "36A Đ.Bình Tây, Phường 1, Quận 6, Hồ Chí Minh, Việt Nam",
    "Cô Lan", "0901234567", "3", "", "", "", "", "")

  /** The general information as JSON. */
  function GeneralInfoJson(g: GeneralInfo): (r: Json)
    ensures r.JObject? && Truthy(r)
    ensures Get(r, "schoolName") == Some(JString(g.schoolName))
  {
    JObject(map[
      "schoolName" := JString(g.schoolName),
      "schoolAddress" := JString(g.schoolAddress),
      "contactPerson" := JString(g.contactPerson),
      "contactPhone" := JString(g.contactPhone),
      "labCount" := JString(g.labCount),
      "bandwidth" := JString(g.bandwidth),
      "roomLength" := JString(g.roomLength),
      "roomWidth" := JString(g.roomWidth),
      "cableDistance" := JString(g.cableDistance),
      "roomNotes" := JString(g.roomNotes)])
  }

  /** The state of a fresh report: step 1, the default general
      information, the seeded machines and recommendations (given as their
      JSON arrays), no photos and the default PDF options. */
  function StartDefaults(seedConfigs: seq<Json>, seedRecs: seq<Json>): AppSnapshot
  {
    AppSnapshot(JNumber(1.0), GeneralInfoJson(DEFAULT_GENERAL_INFO), JArray(seedConfigs),
      JArray(seedRecs), JArray([]), DEFAULT_PDF_OPTIONS_JSON)
  }

  /** The outcome of `JSON.parse` on a stored or uploaded text. */
  datatype ParseOutcome = SyntaxError | Parsed(value: Json)

  /** loadState: nothing stored, unparsable text, a `null` document (reading
      a field of it throws) and a snapshot failing the validity check all give
      `undefined`; otherwise the parsed value is returned as it is. */
  function LoadState(stored: Option<ParseOutcome>): (r: Option<Json>)
    ensures r.Some? <==> stored.Some? && stored.value.Parsed? && Accepts(stored.value.value)
    ensures r.Some? ==> r.value == stored.value.value
  {
    match stored
    case None => None
    case Some(SyntaxError) => None
    case Some(Parsed(v)) =>
      if v.JNull? then None
      else if Accepts(v) then Some(v)
      else None
  }

  /** The first render's state: each piece is the persisted one when that is
      truthy (`persistedState?.field || default`), else the built-in
      default. Without an accepted snapshot the report starts on step 1 with
      the default general information, the seed, no photos, page numbers on
      and no footer text. */
  function InitialState(stored: Option<ParseOutcome>, seedConfigs: seq<Json>, seedRecs: seq<Json>): (r: AppSnapshot)
    ensures LoadState(stored).None? ==>
      && r.currentStep == JNumber(1.0)
      && r.generalInfo == GeneralInfoJson(DEFAULT_GENERAL_INFO)
      && r.configurations == JArray(seedConfigs)
      && r.recommendations == JArray(seedRecs)
      && r.images == JArray([])
      && r.pdfOptions == PdfOptionsJson(PdfOptions(true, ""))
    ensures LoadState(stored).Some? ==>
      var v := LoadState(stored).value;
      && r.currentStep == Get(v, CURRENT_STEP).value
      && r.generalInfo == Get(v, GENERAL_INFO).value
      && r.configurations == Get(v, CONFIGURATIONS).value
      && r.recommendations == Get(v, RECOMMENDATIONS).value
      && r.images == Get(v, IMAGES).value
      && r.pdfOptions == OrElse(Get(v, PDF_OPTIONS), PdfOptionsJson(PdfOptions(true, "")))
  {
    var defaults := StartDefaults(seedConfigs, seedRecs);
    var persisted := LoadState(stored);
    if persisted.None? then defaults
    else
      var v := persisted.value;
      AppSnapshot(
        OrElse(Get(v, CURRENT_STEP), defaults.currentStep),
        OrElse(Get(v, GENERAL_INFO), defaults.generalInfo),
        OrElse(Get(v, CONFIGURATIONS), defaults.configurations),
        OrElse(Get(v, RECOMMENDATIONS), defaults.recommendations),
        OrElse(Get(v, IMAGES), defaults.images),
        OrElse(Get(v, PDF_OPTIONS), defaults.pdfOptions))
  }

  // ---------------------------------------------------------------------
  // Import
  // ---------------------------------------------------------------------

  /** The file picker's result: no file chosen, a reader result that is not
      text, or a text with its parse outcome. */
  datatype Upload = NoFile | NotText | Text(parse: ParseOutcome)

  /** The alert shown after an upload, if any. */
  datatype Notice = NoNotice | InvalidFormat | ReadError

  datatype ImportResult = ImportResult(state: AppSnapshot, notice: Notice)

  /** The state adopted from an accepted upload: the five checked fields as
      they are, and the PDF options or their defaults. */
  function Adopt(v: Json): (r: AppSnapshot)
    requires Accepts(v)
    ensures Valid(r)
    ensures r.pdfOptions == OrElse(Get(v, PDF_OPTIONS), DEFAULT_PDF_OPTIONS_JSON)
  {
    AppSnapshot(
      v.fields[CURRENT_STEP],
      v.fields[GENERAL_INFO],
      v.fields[CONFIGURATIONS],
      v.fields[RECOMMENDATIONS],
      v.fields[IMAGES],
      OrElse(Get(v, PDF_OPTIONS), DEFAULT_PDF_OPTIONS_JSON))
  }

  /** handleImport: `confirmed` is the user's answer to the overwrite
      question. Only an accepted, confirmed upload changes the state; a text
      that cannot be read or parsed, or that parses to `null`, is a read
      error, and any other rejected value is an invalid format. */
  function Import(current: AppSnapshot, upload: Upload, confirmed: bool): (r: ImportResult)
    ensures r.state != current ==>
      upload.Text? && upload.parse.Parsed? && Accepts(upload.parse.value) && confirmed
    ensures upload.Text? && upload.parse.Parsed? && Accepts(upload.parse.value) && confirmed ==>
      r.state == Adopt(upload.parse.value)
    ensures r.notice == ReadError <==>
      upload.NotText? || upload == Text(SyntaxError) || upload == Text(Parsed(JNull))
    ensures r.notice == InvalidFormat <==>
      upload.Text? && upload.parse.Parsed? && !upload.parse.value.JNull? && !Accepts(upload.parse.value)
  {
    match upload
    case NoFile => ImportResult(current, NoNotice)
    case NotText => ImportResult(current, ReadError)
    case Text(SyntaxError) => ImportResult(current, ReadError)
    case Text(Parsed(v)) =>
      if v.JNull? then ImportResult(current, ReadError)
      else if !Accepts(v) then ImportResult(current, InvalidFormat)
      else if confirmed then ImportResult(Adopt(v), NoNotice)
      else ImportResult(current, NoNotice)
  }

  // ---------------------------------------------------------------------
  // Properties
  // ---------------------------------------------------------------------

  /** A saved valid state is accepted again: storage, and an exported file
      uploaded back, give the very same state. */
  lemma SaveLoadRoundTrip(s: AppSnapshot, seedConfigs: seq<Json>, seedRecs: seq<Json>)
    requires Valid(s)
    ensures LoadState(Some(Parsed(Save(s)))) == Some(Save(s))
    ensures InitialState(Some(Parsed(Save(s))), seedConfigs, seedRecs) == s
  {
    assert Accepts(Save(s));
  }

  lemma ExportImportRoundTrip(current: AppSnapshot, s: AppSnapshot)
    requires Valid(s)
    ensures Import(current, Text(Parsed(Save(s))), true) == ImportResult(s, NoNotice)
  {
    assert Accepts(Save(s));
  }

  /** Start-up and a confirmed import read an accepted snapshot alike,
      missing PDF options included. */
  lemma LoadAgreesWithImport(v: Json, current: AppSnapshot, seedConfigs: seq<Json>, seedRecs: seq<Json>)
    requires Accepts(v)
    ensures InitialState(Some(Parsed(v)), seedConfigs, seedRecs) == Import(current, Text(Parsed(v)), true).state
  {
  }

  /** Start-up always yields a valid state, and no upload makes a valid
      state invalid. (Clicking Next can: see `NegativeStepLosesReport`.) */
  lemma InitialStateValid(stored: Option<ParseOutcome>, seedConfigs: seq<Json>, seedRecs: seq<Json>)
    ensures Valid(InitialState(stored, seedConfigs, seedRecs))
  {
  }

  lemma ImportKeepsValid(current: AppSnapshot, upload: Upload, confirmed: bool)
    requires Valid(current)
    ensures Valid(Import(current, upload, confirmed).state)
  {
  }

  /** A snapshot saved on step 0 (or with any other falsy required field)
      is turned away, so a missing photo list is reported and nothing is
      replaced. */
  lemma MissingImagesRejected(current: AppSnapshot, s: AppSnapshot, confirmed: bool)
    requires Valid(s)
    ensures var v := JObject(Save(s).fields - {IMAGES});
      Import(current, Text(Parsed(v)), confirmed) == ImportResult(current, InvalidFormat)
  {
    var v := JObject(Save(s).fields - {IMAGES});
    assert !HasTruthy(v, IMAGES);
  }

  lemma StepZeroRejected(current: AppSnapshot, s: AppSnapshot, confirmed: bool)
    ensures var v := Save(s.(currentStep := JNumber(0.0)));
      && LoadState(Some(Parsed(v))).None?
      && Import(current, Text(Parsed(v)), confirmed) == ImportResult(current, InvalidFormat)
  {
    var v := Save(s.(currentStep := JNumber(0.0)));
    assert !HasTruthy(v, CURRENT_STEP);
  }

  /** The step number is not range-checked: a confirmed upload saved on
      step 9 puts the wizard on step 9, past the review page. */
  lemma OutOfRangeStepAdopted(current: AppSnapshot, s: AppSnapshot)
    requires Valid(s)
    ensures var v := Save(s.(currentStep := JNumber(9.0)));
      Import(current, Text(Parsed(v)), true).state.currentStep == JNumber(9.0)
  {
    var v := Save(s.(currentStep := JNumber(9.0)));
    assert Accepts(v);
  }

  /** An upload without PDF options, or with falsy ones, falls back to page
      numbers on and no footer text. */
  lemma MissingPdfOptionsDefaulted(current: AppSnapshot, s: AppSnapshot)
    requires Valid(s)
    ensures var v := JObject(Save(s).fields - {PDF_OPTIONS});
      Import(current, Text(Parsed(v)), true).state
        == s.(pdfOptions := PdfOptionsJson(PdfOptions(true, "")))
  {
    var v := JObject(Save(s).fields - {PDF_OPTIONS});
    assert Accepts(v);
  }

  /** A stored snapshot without PDF options, or with falsy ones, starts
      with page numbers on and no footer text, as an import does. */
  lemma StartUpPdfOptionsDefaulted(s: AppSnapshot, seedConfigs: seq<Json>, seedRecs: seq<Json>)
    requires Valid(s)
    ensures var v := JObject(Save(s).fields - {PDF_OPTIONS});
      InitialState(Some(Parsed(v)), seedConfigs, seedRecs)
        == s.(pdfOptions := PdfOptionsJson(PdfOptions(true, "")))
  {
    var v := JObject(Save(s).fields - {PDF_OPTIONS});
    assert Accepts(v);
  }

  /** A negative step is truthy, so an upload saved on step -1 is adopted
      as it is. One click on Next then gives `Math.min(0, 5) = 0`; once that
      state is saved, the next start-up rejects it and the whole report is
      replaced by the defaults of a fresh one. */
  lemma NegativeStepLosesReport(current: AppSnapshot, s: AppSnapshot, seedConfigs: seq<Json>, seedRecs: seq<Json>)
    requires Valid(s)
    ensures var v := Save(s.(currentStep := JNumber(-1.0)));
      var adopted := Import(current, Text(Parsed(v)), true).state;
      var clicked := adopted.(currentStep := JNumber(Wizard.NextStep(-1) as real));
      && adopted == s.(currentStep := JNumber(-1.0))
      && clicked.currentStep == JNumber(0.0)
      && !Valid(clicked)
      && InitialState(Some(Parsed(Save(clicked))), seedConfigs, seedRecs) == StartDefaults(seedConfigs, seedRecs)
  {
    var v := Save(s.(currentStep := JNumber(-1.0)));
    assert Accepts(v);
    var adopted := Import(current, Text(Parsed(v)), true).state;
    var clicked := adopted.(currentStep := JNumber(Wizard.NextStep(-1) as real));
    assert !HasTruthy(Save(clicked), CURRENT_STEP);
  }
}
