/**
 * The result panel (src/components/ResultDisplay.tsx): it receives the
 * tagged result a processing component passed on, or nothing, and lays it
 * out under the panel's "Results" heading as a column of blocks chosen by
 * the result's tag.
 */
module ResultDisplay {
  import opened ApiTypes

  /** One block of the panel's content, top to bottom. */
  datatype Block =
    | Placeholder                  // "No results to display", with its hint
    | Heading(title: string)
    | Badge(text: string)          // a document-type pill
    | ConfidenceNote(percent: int) // "Confidence: <percent>%"
    | Preformatted(text: string)   // text shown verbatim
    | Markdown(text: string)       // text rendered as Markdown
    | UnknownTypeNotice(tag: UnknownTag) // "Unknown result type: <tag>"

  const DetectionTitle: string := "Document Type Detection"
  const EnhancedTitle: string := "Enhanced Text"
  const OcrTitle: string := "OCR Result"
  const DocumentTypeTitle: string := "Document Type"
  const ExtractedTitle: string := "Extracted Text"

  /** `Math.round(confidence * 100)`: the nearest integer, halves rounded up. */
  function Percent(confidence: real): (p: int)
    ensures p as real - 0.5 <= confidence * 100.0 < p as real + 0.5
  {
    (confidence * 100.0 + 0.5).Floor
  }

  /** The confidence line, present exactly when the response carries a confidence. */
  function ConfidenceBlocks(confidence: Option<real>): (bs: seq<Block>)
    ensures |bs| <= 1
    ensures bs == [] <==> confidence.None?
    ensures bs != [] ==> bs[0] == ConfidenceNote(Percent(confidence.value))
  {
    if confidence.Some? then [ConfidenceNote(Percent(confidence.value))] else []
  }

  /** The enhancement's document-type pill: only for a present, non-empty type. */
  function HintBlocks(documentType: Option<string>): (bs: seq<Block>)
    ensures |bs| <= 1
    ensures bs == [] <==> documentType.None? || documentType.value == ""
    ensures bs != [] ==> bs[0] == Badge(documentType.value)
  {
    if documentType.Some? && documentType.value != "" then [Badge(documentType.value)] else []
  }

  /** What the panel shows for one result, dispatched on its tag. */
  function Render(result: Option<TaggedResult>): (blocks: seq<Block>)
    ensures blocks == [Placeholder] <==> result.None?
    ensures result.Some? ==> Placeholder !in blocks
    ensures result.Some? && result.value.UnknownResult? ==> blocks == [UnknownTypeNotice(result.value.tag)]
  {
    match result
    case None => [Placeholder]
    case Some(TextResult(d)) =>
      [Heading(DetectionTitle), Badge(d.documentType)] + ConfidenceBlocks(d.confidence)
    case Some(EnhancementResult(e)) =>
      [Heading(EnhancedTitle)] + HintBlocks(e.documentType) + [Markdown(e.enhancedText)]
    case Some(OcrResult(o)) =>
      [Heading(OcrTitle)] + ConfidenceBlocks(o.confidence) + [Preformatted(o.text)]
    case Some(ProcessResult(p)) =>
      [Heading(DocumentTypeTitle), Badge(p.documentType)] + ConfidenceBlocks(p.confidence)
      + [Heading(ExtractedTitle), Preformatted(p.text), Heading(EnhancedTitle), Markdown(p.enhancedText)]
    case Some(UnknownResult(tag)) => [UnknownTypeNotice(tag)]
  }

  /**
   * The unknown-type notice appears exactly for a tag outside the four
   * known ones, and then names that tag; a known tag always reaches its own
   * view.
   */
  lemma UnknownNoticeOnlyForUnknownTags(r: TaggedResult)
    ensures (exists i :: 0 <= i < |Render(Some(r))| && Render(Some(r))[i].UnknownTypeNotice?) <==> r.UnknownResult?
    ensures forall i :: 0 <= i < |Render(Some(r))| && Render(Some(r))[i].UnknownTypeNotice? ==>
      Render(Some(r))[i].tag == r.tag && r.tag !in {"text", "enhancement", "ocr", "process"}
  {
    if r.UnknownResult? {
      assert Render(Some(r))[0].UnknownTypeNotice?;
    }
  }

  /** The confidence a response carries, if its kind has one. */
  function ConfidenceOf(r: TaggedResult): Option<real>
  {
    match r
    case TextResult(d) => d.confidence
    case OcrResult(o) => o.confidence
    case ProcessResult(p) => p.confidence
    case _ => None
  }

  /** A confidence line appears exactly when the response carries a confidence, and shows it rounded. */
  lemma ConfidenceShownIffPresent(r: TaggedResult)
    ensures (exists i :: 0 <= i < |Render(Some(r))| && Render(Some(r))[i].ConfidenceNote?) <==> ConfidenceOf(r).Some?
    ensures forall i :: 0 <= i < |Render(Some(r))| && Render(Some(r))[i].ConfidenceNote? ==>
      Render(Some(r))[i] == ConfidenceNote(Percent(ConfidenceOf(r).value))
  {
    var bs := Render(Some(r));
    match r
    case TextResult(d) =>
      if d.confidence.Some? { assert bs[2].ConfidenceNote?; }
    case EnhancementResult(e) =>
    case OcrResult(o) =>
      if o.confidence.Some? { assert bs[1].ConfidenceNote?; }
    case ProcessResult(p) =>
      if p.confidence.Some? { assert bs[2].ConfidenceNote?; }
    case UnknownResult(_) =>
  }

  /** The response as the panel lets a reader see it: each confidence rounded to whole percent. */
  function AsDisplayed(r: TaggedResult): (d: TaggedResult)
    ensures ConfidenceOf(d).Some? <==> ConfidenceOf(r).Some?
    ensures ConfidenceOf(r).None? ==> d == r
  {
    match r
    case TextResult(t) => TextResult(t.(confidence := Round(t.confidence)))
    case OcrResult(o) => OcrResult(o.(confidence := Round(o.confidence)))
    case ProcessResult(p) => ProcessResult(p.(confidence := Round(p.confidence)))
    case _ => r
  }

  function Round(confidence: Option<real>): Option<real>
  {
    if confidence.Some? then Some(Percent(confidence.value) as real / 100.0) else None
  }

  /** The confidence a single-block confidence line states. */
  function ReadConfidence(bs: seq<Block>): Option<real>
  {
    if |bs| == 1 && bs[0].ConfidenceNote? then Some(bs[0].percent as real / 100.0) else None
  }

  /**
   * Reads a rendered panel back into the result it shows: the partner of
   * `Render`. The placeholder, and any column `Render` cannot produce, read
   * as nothing.
   */
  function ReadBack(blocks: seq<Block>): Option<TaggedResult>
  {
    if |blocks| == 1 && blocks[0].UnknownTypeNotice? then Some(UnknownResult(blocks[0].tag))
    else if |blocks| < 2 || !blocks[0].Heading? then None
    else if blocks[0].title == DetectionTitle && blocks[1].Badge? then
      Some(TextResult(DetectionResponse(blocks[1].text, ReadConfidence(blocks[2..]))))
    else if blocks[0].title == EnhancedTitle && blocks[|blocks| - 1].Markdown? then
      var hint := if |blocks| == 3 && blocks[1].Badge? then Some(blocks[1].text) else None;
      Some(EnhancementResult(EnhancementResponse(blocks[|blocks| - 1].text, hint)))
    else if blocks[0].title == OcrTitle && blocks[|blocks| - 1].Preformatted? then
      Some(OcrResult(OcrResponse(blocks[|blocks| - 1].text, ReadConfidence(blocks[1..|blocks| - 1]))))
    else if blocks[0].title == DocumentTypeTitle && |blocks| >= 6 && blocks[1].Badge?
      && blocks[|blocks| - 3].Preformatted? && blocks[|blocks| - 1].Markdown? then
      Some(ProcessResult(ProcessResponse(blocks[|blocks| - 3].text, blocks[1].text, blocks[|blocks| - 1].text,
                                         ReadConfidence(blocks[2..|blocks| - 4]))))
    else None
  }

  /**
   * Nothing but rounding is lost on the way to the screen: every result
   * reads back as itself with its confidence rounded, except an enhancement
   * whose document type is the empty string, which shows no pill.
   */
  lemma RenderReadBack(r: TaggedResult)
    requires !(r.EnhancementResult? && r.enhancement.documentType == Some(""))
    ensures ReadBack(Render(Some(r))) == Some(AsDisplayed(r))
  {
    var bs := Render(Some(r));
    match r
    case TextResult(d) =>
      assert bs[2..] == ConfidenceBlocks(d.confidence);
    case EnhancementResult(e) =>
    case OcrResult(o) =>
      assert bs[1..|bs| - 1] == ConfidenceBlocks(o.confidence);
    case ProcessResult(p) =>
      assert bs[2..|bs| - 4] == ConfidenceBlocks(p.confidence);
    case UnknownResult(_) =>
  }

  /** The placeholder reads as no result. */
  lemma PlaceholderReadsAsNothing()
    ensures ReadBack(Render(None)) == None
  {
  }

  /**
   * The one collision: an enhancement whose document type is the empty
   * string looks exactly like one without a document type.
   */
  lemma EmptyHintLooksAbsent(e: EnhancementResponse)
    requires e.documentType == Some("")
    ensures Render(Some(EnhancementResult(e))) == Render(Some(EnhancementResult(e.(documentType := None))))
    ensures Render(Some(EnhancementResult(e))) == [Heading(EnhancedTitle), Markdown(e.enhancedText)]
  {
  }

  /**
   * The process view shows every field of its response, each text once and
   * unaltered: the type as a pill, the extracted text verbatim and the
   * enhanced text as Markdown.
   */
  lemma ProcessShowsEveryField(p: ProcessResponse)
    ensures Badge(p.documentType) in Render(Some(ProcessResult(p)))
    ensures Preformatted(p.text) in Render(Some(ProcessResult(p)))
    ensures Markdown(p.enhancedText) in Render(Some(ProcessResult(p)))
    ensures |Render(Some(ProcessResult(p)))| == 6 + |ConfidenceBlocks(p.confidence)|
  {
    var bs := Render(Some(ProcessResult(p)));
    var k := |ConfidenceBlocks(p.confidence)|;
    assert bs[1] == Badge(p.documentType);
    assert bs[3 + k] == Preformatted(p.text);
    assert bs[5 + k] == Markdown(p.enhancedText);
  }
}
