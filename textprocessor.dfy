/**
 * The text-processing form (src/components/TextProcessor.tsx): free text and
 * a document-type choice, two buttons (detect the type, enhance the text),
 * each running one backend call guarded by its own pending flag.
 */
module TextProcessor {
  import opened ApiTypes
  import opened JsString

  /** The selector's options, in display order, with their labels. */
  const DocumentTypeOptions: seq<(DocumentType, string)> := [
    (AutoDetect, "Auto-detect"),
    (Prescription, "Prescription"),
    (LabReport, "Lab Report"),
    (ClinicalNote, "Clinical Note"),
    (DischargeSummary, "Discharge Summary"),
    (Other, "Other")
  ]

  /** The selector offers every document type exactly once, `auto_detect` first. */
  lemma OptionsCoverEveryDocumentType(t: DocumentType)
    ensures |DocumentTypeOptions| == 6 && DocumentTypeOptions[0].0 == AutoDetect
    ensures exists i :: 0 <= i < |DocumentTypeOptions| && DocumentTypeOptions[i].0 == t
    ensures forall i, j :: 0 <= i < j < |DocumentTypeOptions| ==> DocumentTypeOptions[i].0 != DocumentTypeOptions[j].0
  {
    match t
    case AutoDetect => assert DocumentTypeOptions[0].0 == t;
    case Prescription => assert DocumentTypeOptions[1].0 == t;
    case LabReport => assert DocumentTypeOptions[2].0 == t;
    case ClinicalNote => assert DocumentTypeOptions[3].0 == t;
    case DischargeSummary => assert DocumentTypeOptions[4].0 == t;
    case Other => assert DocumentTypeOptions[5].0 == t;
  }

  /** The body sent to `/detect-document-type`: the raw input, untrimmed. */
  function DetectRequestFor(inputText: string): (req: DetectionRequest)
    ensures req.text == inputText
  {
    DetectionRequest(inputText)
  }

  /** The body sent to `/enhance-text`: `auto_detect` leaves the hint out. */
  function EnhanceRequestFor(inputText: string, documentType: DocumentType): (req: EnhancementRequest)
  {
    EnhancementRequest(inputText, if documentType == AutoDetect then None else Some(DocumentTypeName(documentType)))
  }

  /**
   * The enhancement body carries the raw text; its hint is absent exactly for
   * `auto_detect`, is otherwise the chosen type's own literal, and so is never
   * the literal `"auto_detect"`.
   */
  lemma EnhanceRequestHint(inputText: string, documentType: DocumentType)
    ensures EnhanceRequestFor(inputText, documentType).text == inputText
    ensures EnhanceRequestFor(inputText, documentType).documentType.None? <==> documentType == AutoDetect
    ensures EnhanceRequestFor(inputText, documentType).documentType.Some? ==>
      ParseDocumentType(EnhanceRequestFor(inputText, documentType).documentType.value) == Some(documentType)
    ensures EnhanceRequestFor(inputText, documentType).documentType != Some("auto_detect")
  {
    DocumentTypeNameRoundTrip(documentType);
  }

  /** The shared `disabled` expression of both buttons. */
  predicate ButtonsDisabled(isDetecting: bool, isEnhancing: bool, inputText: string)
  {
    isDetecting || isEnhancing || IsBlank(inputText)
  }

  /** Both buttons are enabled exactly when neither call is pending and the input has a non-whitespace character. */
  lemma ButtonsEnabledIff(isDetecting: bool, isEnhancing: bool, inputText: string)
    ensures !ButtonsDisabled(isDetecting, isEnhancing, inputText)
      <==> !isDetecting && !isEnhancing && exists i :: 0 <= i < |inputText| && !IsWhitespace(inputText[i])
  {
    BlankIffAllWhitespace(inputText);
  }

  /**
   * The form's state. `requests` lists the backend calls it has made and
   * `results` the values it has passed to `onResultChange`, oldest first.
   */
  class TextForm {
    var inputText: string
    var documentType: DocumentType
    var isDetecting: bool
    var isEnhancing: bool
    var requests: seq<Request>
    var results: seq<TaggedResult>

    constructor ()
      ensures inputText == "" && documentType == AutoDetect
      ensures !isDetecting && !isEnhancing
      ensures requests == [] && results == []
    {
      inputText := "";
      documentType := AutoDetect;
      isDetecting := false;
      isEnhancing := false;
      requests := [];
      results := [];
    }

    /** The textarea's `onChange`. */
    method SetInputText(text: string)
      modifies this`inputText
      ensures inputText == text
    {
      inputText := text;
    }

    /** The selector's `onChange`; it can only deliver one of its option values. */
    method SetDocumentType(t: DocumentType)
      modifies this`documentType
      ensures documentType == t
    {
      documentType := t;
    }

    /** `handleDetectType` up to its `await`: a blank input sends nothing. */
    method StartDetect() returns (started: bool)
      modifies this`isDetecting, this`requests
      ensures started <==> !IsBlank(inputText)
      ensures started ==> isDetecting && requests == old(requests) + [DetectRequest(DetectRequestFor(inputText))]
      ensures !started ==> isDetecting == old(isDetecting) && requests == old(requests)
    {
      if Trim(inputText) == "" {
        return false;
      }
      isDetecting := true;
      requests := requests + [DetectRequest(DetectionRequest(inputText))];
      started := true;
    }

    /** `handleDetectType` after its `await`: a success is passed on tagged `text`; the flag always drops. */
    method FinishDetect(outcome: Outcome<DetectionResponse>)
      modifies this`isDetecting, this`results
      ensures !isDetecting
      ensures results == old(results) + (if outcome.Success? then [TextResult(outcome.value)] else [])
    {
      if outcome.Success? {
        results := results + [TextResult(outcome.value)];
      }
      isDetecting := false;
    }

    /** `handleDetectType` as one step against the backend's `outcome`. */
    method HandleDetectType(outcome: Outcome<DetectionResponse>)
      modifies this`isDetecting, this`requests, this`results
      ensures IsBlank(inputText) ==>
        requests == old(requests) && results == old(results) && isDetecting == old(isDetecting)
      ensures !IsBlank(inputText) ==>
        && requests == old(requests) + [DetectRequest(DetectRequestFor(inputText))]
        && results == old(results) + (if outcome.Success? then [TextResult(outcome.value)] else [])
        && !isDetecting
    {
      var started := StartDetect();
      if started {
        FinishDetect(outcome);
      }
    }

    /** `handleEnhanceText` up to its `await`: a blank input sends nothing. */
    method StartEnhance() returns (started: bool)
      modifies this`isEnhancing, this`requests
      ensures started <==> !IsBlank(inputText)
      ensures started ==> isEnhancing && requests == old(requests) + [EnhanceRequest(EnhanceRequestFor(inputText, documentType))]
      ensures !started ==> isEnhancing == old(isEnhancing) && requests == old(requests)
    {
      if Trim(inputText) == "" {
        return false;
      }
      isEnhancing := true;
      var hint := if documentType == AutoDetect then None else Some(DocumentTypeName(documentType));
      requests := requests + [EnhanceRequest(EnhancementRequest(inputText, hint))];
      started := true;
    }

    /** `handleEnhanceText` after its `await`: a success is passed on tagged `enhancement`; the flag always drops. */
    method FinishEnhance(outcome: Outcome<EnhancementResponse>)
      modifies this`isEnhancing, this`results
      ensures !isEnhancing
      ensures results == old(results) + (if outcome.Success? then [EnhancementResult(outcome.value)] else [])
    {
      if outcome.Success? {
        results := results + [EnhancementResult(outcome.value)];
      }
      isEnhancing := false;
    }

    /** `handleEnhanceText` as one step against the backend's `outcome`. */
    method HandleEnhanceText(outcome: Outcome<EnhancementResponse>)
      modifies this`isEnhancing, this`requests, this`results
      ensures IsBlank(inputText) ==>
        requests == old(requests) && results == old(results) && isEnhancing == old(isEnhancing)
      ensures !IsBlank(inputText) ==>
        && requests == old(requests) + [EnhanceRequest(EnhanceRequestFor(inputText, documentType))]
        && results == old(results) + (if outcome.Success? then [EnhancementResult(outcome.value)] else [])
        && !isEnhancing
    {
      var started := StartEnhance();
      if started {
        FinishEnhance(outcome);
      }
    }
  }

  /** A client of the form: text made only of whitespace sends nothing, whatever the backend would answer. */
  method BlankTextSendsNothing(blank: string)
    requires forall i :: 0 <= i < |blank| ==> IsWhitespace(blank[i])
  {
    var form := new TextForm();
    form.SetInputText(blank);
    BlankIffAllWhitespace(blank);
    form.HandleEnhanceText(Success(EnhancementResponse(blank, None)));
    form.HandleDetectType(Success(DetectionResponse(blank, None)));
    assert form.requests == [] && form.results == [];
  }

  /**
   * A client of the form: once a detection is pending both buttons are
   * disabled, so an enhancement cannot start from this form before the
   * detection settles; a failed detection passes nothing on and clears both
   * flags.
   */
  method PendingDetectionDisablesBothButtons(text: string, k: nat)
    requires k < |text| && !IsWhitespace(text[k])
  {
    var form := new TextForm();
    form.SetInputText(text);
    NonWhitespaceIsNotBlank(text, k);
    var started := form.StartDetect();
    assert started && form.requests == [DetectRequest(DetectionRequest(text))];
    assert ButtonsDisabled(form.isDetecting, form.isEnhancing, form.inputText);
    form.FinishDetect(Failure);
    assert form.results == [];
    assert !form.isDetecting && !form.isEnhancing;
  }
}
