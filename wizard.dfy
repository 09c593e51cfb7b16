/** The wizard's own state changes (`App.tsx`, lines 21-26, 131-154 and
    500-501): moving between steps, capping the photo list, and editing the
    general information and the PDF options. */
module Wizard {
  import opened ReportTypes

  // ---------------------------------------------------------------------
  // Steps
  // ---------------------------------------------------------------------

  /** STEPS.length: information, configuration, photos, recommendations. */
  const STEP_COUNT := 4
  /** The review page that follows the last form step. */
  const REVIEW_STEP := STEP_COUNT + 1

  /** nextStep: one step forward, never past the review page. */
  function NextStep(step: int): (r: int)
    ensures r <= REVIEW_STEP
    ensures step < REVIEW_STEP ==> r == step + 1
    ensures step >= REVIEW_STEP ==> r == REVIEW_STEP
  {
    if step + 1 < REVIEW_STEP then step + 1 else REVIEW_STEP
  }

  /** prevStep: one step back, never before the first step. */
  function PrevStep(step: int): (r: int)
    ensures r >= 1
    ensures step > 1 ==> r == step - 1
    ensures step <= 1 ==> r == 1
  {
    if step - 1 > 1 then step - 1 else 1
  }

  datatype Move = Next | Prev

  /** The step reached after clicking through `moves`. */
  function Apply(step: int, moves: seq<Move>): int
    decreases |moves|
  {
    if moves == [] then step
    else Apply(if moves[0] == Next then NextStep(step) else PrevStep(step), moves[1..])
  }

  /** Starting from a valid step, any sequence of Next/Prev clicks keeps the
      wizard on a valid step, from the first form step to the review page. */
  lemma {:induction false} StepsStayInRange(step: int, moves: seq<Move>)
    requires 1 <= step <= REVIEW_STEP
    ensures 1 <= Apply(step, moves) <= REVIEW_STEP
    decreases |moves|
  {
    if moves != [] {
      StepsStayInRange(if moves[0] == Next then NextStep(step) else PrevStep(step), moves[1..]);
    }
  }

  /** Clicking Next enough times from any valid step ends on the review page
      and stays there. */
  lemma {:induction false} NextReachesReview(step: int, n: nat)
    requires 1 <= step <= REVIEW_STEP && n >= REVIEW_STEP - step
    ensures Apply(step, seq(n, _ => Next)) == REVIEW_STEP
    decreases n
  {
    if n > 0 {
      assert seq(n, _ => Next)[1..] == seq(n - 1, _ => Next);
      NextReachesReview(NextStep(step), n - 1);
    }
  }

  /** Back undoes Next on every form step, and Next undoes Back on every
      step after the first. */
  lemma StepsUndo(step: int)
    ensures 1 <= step < REVIEW_STEP ==> PrevStep(NextStep(step)) == step
    ensures 1 < step <= REVIEW_STEP ==> NextStep(PrevStep(step)) == step
  {
  }

  // ---------------------------------------------------------------------
  // Photos
  // ---------------------------------------------------------------------

  /** The gallery's four frames. */
  const MAX_IMAGES := 4

  /** handleImageUpload: `newImages.slice(0, 4)`. */
  function CapImages(newImages: seq<string>): (r: seq<string>)
    ensures |r| <= MAX_IMAGES
    ensures |r| == if |newImages| < MAX_IMAGES then |newImages| else MAX_IMAGES
    ensures r == newImages[..|r|]
  {
    if |newImages| <= MAX_IMAGES then newImages else newImages[..MAX_IMAGES]
  }

  /** The gallery uploads the current photos followed by the new ones:
      the photos already shown are kept, new ones fill the free frames, and a
      full gallery does not change. */
  lemma UploadKeepsExisting(images: seq<string>, added: seq<string>)
    requires |images| <= MAX_IMAGES
    ensures var r := CapImages(images + added);
      && r[..|images|] == images
      && (|images| == MAX_IMAGES ==> r == images)
  {
    var r := CapImages(images + added);
    assert r == (images + added)[..|r|];
    assert (images + added)[..|images|] == images;
  }

  // ---------------------------------------------------------------------
  // General information
  // ---------------------------------------------------------------------

  datatype InfoField =
    | SchoolName | SchoolAddress | ContactPerson | ContactPhone | LabCount
    | Bandwidth | RoomLength | RoomWidth | CableDistance | RoomNotes

  function InfoValue(info: GeneralInfo, f: InfoField): string
  {
    match f
    case SchoolName => info.schoolName
    case SchoolAddress => info.schoolAddress
    case ContactPerson => info.contactPerson
    case ContactPhone => info.contactPhone
    case LabCount => info.labCount
    case Bandwidth => info.bandwidth
    case RoomLength => info.roomLength
    case RoomWidth => info.roomWidth
    case CableDistance => info.cableDistance
    case RoomNotes => info.roomNotes
  }

  /** `{ ...generalInfo, [field]: value }` */
  function WithInfo(info: GeneralInfo, f: InfoField, v: string): (r: GeneralInfo)
    ensures InfoValue(r, f) == v
    ensures forall g :: g != f ==> InfoValue(r, g) == InfoValue(info, g)
  {
    match f
    case SchoolName => info.(schoolName := v)
    case SchoolAddress => info.(schoolAddress := v)
    case ContactPerson => info.(contactPerson := v)
    case ContactPhone => info.(contactPhone := v)
    case LabCount => info.(labCount := v)
    case Bandwidth => info.(bandwidth := v)
    case RoomLength => info.(roomLength := v)
    case RoomWidth => info.(roomWidth := v)
    case CableDistance => info.(cableDistance := v)
    case RoomNotes => info.(roomNotes := v)
  }

  /** `schools.find(s => s.name === name)`: the first school with exactly
      that name, compared character by character. */
  function FindSchool(schools: seq<School>, name: string): (r: Option<School>)
    ensures r.Some? ==> r.value in schools && r.value.name == name
    ensures r.None? ==> forall s :: s in schools ==> s.name != name
    ensures r.Some? ==>
      exists k :: (0 <= k < |schools| && schools[k] == r.value
        && forall j :: 0 <= j < k ==> schools[j].name != name)
  {
    if schools == [] then None
    else if schools[0].name == name then
      assert schools[0] == schools[0];
      Some(schools[0])
    else
      var r := FindSchool(schools[1..], name);
      assert schools == [schools[0]] + schools[1..];
      if r.Some? then
        var k :| (0 <= k < |schools[1..]| && schools[1..][k] == r.value
          && forall j :: 0 <= j < k ==> schools[1..][j].name != name);
        assert schools[k + 1] == r.value;
        r
      else r
  }

  /** handleGeneralInfoChange: sets one field. Choosing the name of a known
      school also fills in that school's address and contact details; the
      other fields are kept. */
  function ChangeGeneralInfo(info: GeneralInfo, f: InfoField, v: string, schools: seq<School>): (r: GeneralInfo)
    ensures InfoValue(r, f) == v
    ensures f != SchoolName || FindSchool(schools, v).None? ==>
      forall g :: g != f ==> InfoValue(r, g) == InfoValue(info, g)
    ensures f == SchoolName && FindSchool(schools, v).Some? ==>
      var school := FindSchool(schools, v).value;
      && r.schoolAddress == school.address
      && r.contactPerson == school.contactPerson
      && r.contactPhone == school.contactPhone
      && forall g :: g !in {SchoolName, SchoolAddress, ContactPerson, ContactPhone} ==>
           InfoValue(r, g) == InfoValue(info, g)
  {
    var updated := WithInfo(info, f, v);
    if f == SchoolName then
      match FindSchool(schools, v)
      case Some(school) =>
        info.(schoolName := school.name, schoolAddress := school.address,
              contactPerson := school.contactPerson, contactPhone := school.contactPhone)
      case None => updated
    else updated
  }

  // ---------------------------------------------------------------------
  // PDF options
  // ---------------------------------------------------------------------

  datatype PdfOptionChange = SetIncludePageNumbers(on: bool) | SetCustomFooterText(text: string)

  /** handlePdfOptionsChange: sets one option and keeps the other. */
  function ChangePdfOptions(opts: PdfOptions, change: PdfOptionChange): (r: PdfOptions)
    ensures change.SetIncludePageNumbers? ==>
      r.includePageNumbers == change.on && r.customFooterText == opts.customFooterText
    ensures change.SetCustomFooterText? ==>
      r.customFooterText == change.text && r.includePageNumbers == opts.includePageNumbers
  {
    match change
    case SetIncludePageNumbers(b) => opts.(includePageNumbers := b)
    case SetCustomFooterText(t) => opts.(customFooterText := t)
  }
}
