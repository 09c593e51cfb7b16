/** The report's entities, as declared in `types.ts`, plus the PDF export
    options of `App.tsx`. All are plain values: the app replaces them
    wholesale through React state setters and never updates them in place. */
module ReportTypes {

  /** A value that may be absent (`undefined` in the app). */
  datatype Option<T> = None | Some(value: T)

  datatype GeneralInfo = GeneralInfo(
    schoolName: string,
    schoolAddress: string,
    contactPerson: string,
    contactPhone: string,
    labCount: string,
    bandwidth: string,
    roomLength: string,
    roomWidth: string,
    cableDistance: string,
    roomNotes: string)

  /** One surveyed machine. An empty `notes` list means the machine works;
      each note names a fault. */
  datatype ComputerConfiguration = ComputerConfiguration(
    id: int,
    cpu: string,
    ram: string,
    storage: string,
    os: string,
    monitor: string,
    office: string,
    notes: seq<string>)

  datatype RecommendationCategory = Maintenance | Replacement | Upgrade | NewPurchase

  datatype Recommendation = Recommendation(id: int, category: RecommendationCategory, text: string)

  datatype School = School(
    id: string,
    name: string,
    address: string,
    contactPerson: string,
    contactPhone: string)

  /** What the PDF footer shows. */
  datatype PdfOptions = PdfOptions(includePageNumbers: bool, customFooterText: string)

  /** The options a fresh report (or a snapshot without them) starts with. */
  const DEFAULT_PDF_OPTIONS := PdfOptions(true, "")

  predicate HasId(configs: seq<ComputerConfiguration>, id: int)
  {
    exists i :: 0 <= i < |configs| && configs[i].id == id
  }

  /** Machine ids are unique (the app mints them from the clock). */
  predicate UniqueIds(configs: seq<ComputerConfiguration>)
  {
    forall i, j :: 0 <= i < j < |configs| ==> configs[i].id != configs[j].id
  }
}
