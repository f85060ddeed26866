/**
 * The request and response shapes exchanged with the processing backend,
 * the document-type enumeration, the browser `File` attributes the
 * components read, the backend requests a component issues and the tagged
 * results it hands to its parent.
 */
module ApiTypes {

  datatype Option<+T> = None | Some(value: T)

  /** How one backend call settles: the response body, or a rejected promise. */
  datatype Outcome<+T> = Success(value: T) | Failure

  datatype HealthResponse = HealthResponse(status: string)

  datatype DetectionRequest = DetectionRequest(text: string)

  /** `confidence?: number`; only whether it is present matters to the model. */
  datatype DetectionResponse = DetectionResponse(documentType: string, confidence: Option<real>)

  /** `document_type?: string`: `None` is a request body without the key. */
  datatype EnhancementRequest = EnhancementRequest(text: string, documentType: Option<string>)

  datatype EnhancementResponse = EnhancementResponse(enhancedText: string, documentType: Option<string>)

  datatype OcrResponse = OcrResponse(text: string, confidence: Option<real>)

  datatype ProcessResponse = ProcessResponse(text: string, documentType: string, enhancedText: string, confidence: Option<real>)

  datatype DocumentType = Prescription | LabReport | ClinicalNote | DischargeSummary | Other | AutoDetect

  /** The string literal each `DocumentType` value is. */
  function DocumentTypeName(t: DocumentType): string
  {
    match t
    case Prescription => "prescription"
    case LabReport => "lab_report"
    case ClinicalNote => "clinical_note"
    case DischargeSummary => "discharge_summary"
    case Other => "other"
    case AutoDetect => "auto_detect"
  }

  /** The string union read back: `None` for a string outside the union. */
  function ParseDocumentType(s: string): (r: Option<DocumentType>)
    ensures r.Some? ==> DocumentTypeName(r.value) == s
  {
    if s == "prescription" then Some(Prescription)
    else if s == "lab_report" then Some(LabReport)
    else if s == "clinical_note" then Some(ClinicalNote)
    else if s == "discharge_summary" then Some(DischargeSummary)
    else if s == "other" then Some(Other)
    else if s == "auto_detect" then Some(AutoDetect)
    else None
  }

  /** Every value of the union is read back from its own literal, so the literals are distinct. */
  lemma DocumentTypeNameRoundTrip(t: DocumentType)
    ensures ParseDocumentType(DocumentTypeName(t)) == Some(t)
  {
  }

  /** The attributes of a browser `File` that the components read. */
  datatype FileInfo = FileInfo(name: string, mimeType: string, size: nat)

  /** One call to the backend, with what it sends. */
  datatype Request =
    | HealthRequest
    | DetectRequest(detect: DetectionRequest)
    | EnhanceRequest(enhance: EnhancementRequest)
    | OcrRequest(image: FileInfo)
    | ProcessRequest(upload: FileInfo)

  /** A `type` other than the four the result view knows; those always reach their own case. */
  type UnknownTag = s: string | s != "text" && s != "enhancement" && s != "ocr" && s != "process"
    witness ""

  /**
   * The `{ type, data }` object passed to `onResultChange`. The four known
   * tags carry the matching response; `UnknownResult` stands for any other
   * tag, which the result view must still cope with.
   */
  datatype TaggedResult =
    | TextResult(detection: DetectionResponse)
    | EnhancementResult(enhancement: EnhancementResponse)
    | OcrResult(ocr: OcrResponse)
    | ProcessResult(process: ProcessResponse)
    | UnknownResult(tag: UnknownTag)
}
