/**
 * The file-processing panel (src/components/FileProcessor.tsx): it keeps the
 * file the upload widget hands it, classifies the file's MIME type, gates
 * the OCR and full-processing buttons, and runs each operation as one
 * backend call guarded by a pending flag.
 */
module FileProcessor {
  import opened ApiTypes
  import opened JsString
  import FileUpload

  /**
   * The two document MIME types the panel recognises. The DOCX type is
   * written as two literals joined so that the verifier can read its
   * characters one by one; it is the single string `application/vnd.…document`.
   */
  const PdfMimeType: string := "application/pdf"
  const DocxMimeType: string := "application/" + "vnd.openxmlformats-officedocument.wordprocessingml.document"

  /** The props the panel passes to its upload widget. */
  const PanelAcceptedFileTypes: string := "image/*,application/pdf,.docx"
  const PanelMaxSizeMB: nat := 10

  /** `fileType?.startsWith('image/')`: false when there is no type. */
  predicate IsImage(fileType: Option<string>)
  {
    fileType.Some? && StartsWith(fileType.value, "image/")
  }

  predicate IsPdf(fileType: Option<string>)
  {
    fileType == Some(PdfMimeType)
  }

  predicate IsDocx(fileType: Option<string>)
  {
    fileType == Some(DocxMimeType)
  }

  predicate IsProcessableFile(fileType: Option<string>)
  {
    IsImage(fileType) || IsPdf(fileType) || IsDocx(fileType)
  }

  /** The OCR button's `disabled` expression. */
  predicate OcrDisabled(isProcessingOCR: bool, isProcessingFile: bool, fileType: Option<string>)
  {
    isProcessingOCR || isProcessingFile || !IsImage(fileType)
  }

  /** The Process button's `disabled` expression. */
  predicate ProcessDisabled(isProcessingOCR: bool, isProcessingFile: bool, fileType: Option<string>)
  {
    isProcessingOCR || isProcessingFile || !IsProcessableFile(fileType)
  }

  /** The hint shown under a selected file. */
  datatype FileNotice = ImageNotice | PdfNotice | DocxNotice | UnsupportedNotice

  function Notice(fileType: Option<string>): (n: FileNotice)
    ensures n == UnsupportedNotice <==> !IsProcessableFile(fileType)
  {
    if IsImage(fileType) then ImageNotice
    else if IsPdf(fileType) then PdfNotice
    else if IsDocx(fileType) then DocxNotice
    else UnsupportedNotice
  }

  /** The three kinds are exclusive, and an image is always processable. */
  lemma ClassificationIsExclusive(fileType: Option<string>)
    ensures IsImage(fileType) ==> IsProcessableFile(fileType) && !IsPdf(fileType) && !IsDocx(fileType)
    ensures !(IsPdf(fileType) && IsDocx(fileType))
    ensures IsProcessableFile(fileType) ==> fileType.Some?
  {
    if IsImage(fileType) {
      assert fileType.value[0] == 'i';
      assert PdfMimeType[0] == 'a';
      assert DocxMimeType[0] == 'a';
    }
  }

  /** Whenever the OCR button is enabled, so is the Process button. */
  lemma OcrEnabledImpliesProcessEnabled(isProcessingOCR: bool, isProcessingFile: bool, fileType: Option<string>)
    ensures !OcrDisabled(isProcessingOCR, isProcessingFile, fileType)
      ==> !ProcessDisabled(isProcessingOCR, isProcessingFile, fileType)
  {
  }

  /**
   * The upload widget in this panel accepts a `.docx` file by its name
   * alone, so a DOCX whose browser-reported MIME type is empty (or anything
   * else outside the three kinds) is handed on, shown as unsupported, and
   * cannot be processed.
   */
  lemma DocxByNameOnlyIsUnsupported(f: FileInfo)
    requires f.size <= PanelMaxSizeMB * FileUpload.BytesPerMB
    requires FileUpload.FileExtension(f.name) == "docx"
    requires !IsProcessableFile(Some(f.mimeType))
    ensures FileUpload.Validate(Some(f), PanelAcceptedFileTypes, PanelMaxSizeMB) == FileUpload.Accepted(f)
    ensures Notice(Some(f.mimeType)) == UnsupportedNotice
    ensures ProcessDisabled(false, false, Some(f.mimeType)) && OcrDisabled(false, false, Some(f.mimeType))
  {
    assert PanelAcceptedFileTypes == FileUpload.DefaultAcceptedFileTypes;
    FileUpload.DefaultPolicyAcceptsDocxByName(f);
  }

  /**
   * The panel's state. `requests` lists the backend calls it has made and
   * `results` the values it has passed to `onResultChange`, oldest first.
   */
  class Processor {
    var selectedFile: Option<FileInfo>
    var fileType: Option<string>
    var isProcessingOCR: bool
    var isProcessingFile: bool
    var requests: seq<Request>
    var results: seq<TaggedResult>

    constructor ()
      ensures selectedFile == None && fileType == None
      ensures !isProcessingOCR && !isProcessingFile
      ensures requests == [] && results == []
    {
      selectedFile := None;
      fileType := None;
      isProcessingOCR := false;
      isProcessingFile := false;
      requests := [];
      results := [];
    }

    /** `handleFileSelected`: the selection and its MIME type are kept together. */
    method HandleFileSelected(file: Option<FileInfo>)
      modifies this`selectedFile, this`fileType
      ensures selectedFile == file
      ensures fileType == (if file.Some? then Some(file.value.mimeType) else None)
    {
      selectedFile := file;
      if file.Some? {
        var t := file.value.mimeType;
        fileType := Some(t);
      } else {
        fileType := None;
      }
    }

    /**
     * `handleOCRImage` up to its `await`: nothing happens without a selected
     * image; otherwise the flag is raised and the selected file is sent.
     */
    method StartOcr() returns (started: bool)
      modifies this`isProcessingOCR, this`requests
      ensures started <==> selectedFile.Some? && StartsWith(selectedFile.value.mimeType, "image/")
      ensures started ==> isProcessingOCR && requests == old(requests) + [OcrRequest(selectedFile.value)]
      ensures !started ==> isProcessingOCR == old(isProcessingOCR) && requests == old(requests)
    {
      if selectedFile.None? {
        return false;
      }
      var isImage := StartsWith(selectedFile.value.mimeType, "image/");
      if !isImage {
        return false;
      }
      isProcessingOCR := true;
      requests := requests + [OcrRequest(selectedFile.value)];
      started := true;
    }

    /** `handleOCRImage` after its `await`: a success is passed on tagged `ocr`; the flag always drops. */
    method FinishOcr(outcome: Outcome<OcrResponse>)
      modifies this`isProcessingOCR, this`results
      ensures !isProcessingOCR
      ensures results == old(results) + (if outcome.Success? then [OcrResult(outcome.value)] else [])
    {
      if outcome.Success? {
        results := results + [OcrResult(outcome.value)];
      }
      isProcessingOCR := false;
    }

    /** `handleOCRImage` as one step against the backend's `outcome`. */
    method HandleOCRImage(outcome: Outcome<OcrResponse>)
      modifies this`isProcessingOCR, this`requests, this`results
      ensures var image := selectedFile.Some? && StartsWith(selectedFile.value.mimeType, "image/");
        && (image ==> requests == old(requests) + [OcrRequest(selectedFile.value)] && !isProcessingOCR
                      && results == old(results) + (if outcome.Success? then [OcrResult(outcome.value)] else []))
        && (!image ==> requests == old(requests) && results == old(results) && isProcessingOCR == old(isProcessingOCR))
    {
      var started := StartOcr();
      if started {
        FinishOcr(outcome);
      }
    }

    /**
     * `handleProcessFile` up to its `await`: nothing happens without a
     * selected file; the handler itself makes no type check.
     */
    method StartProcess() returns (started: bool)
      modifies this`isProcessingFile, this`requests
      ensures started <==> selectedFile.Some?
      ensures started ==> isProcessingFile && requests == old(requests) + [ProcessRequest(selectedFile.value)]
      ensures !started ==> isProcessingFile == old(isProcessingFile) && requests == old(requests)
    {
      if selectedFile.None? {
        return false;
      }
      isProcessingFile := true;
      requests := requests + [ProcessRequest(selectedFile.value)];
      started := true;
    }

    /** `handleProcessFile` after its `await`: a success is passed on tagged `process`; the flag always drops. */
    method FinishProcess(outcome: Outcome<ProcessResponse>)
      modifies this`isProcessingFile, this`results
      ensures !isProcessingFile
      ensures results == old(results) + (if outcome.Success? then [ProcessResult(outcome.value)] else [])
    {
      if outcome.Success? {
        results := results + [ProcessResult(outcome.value)];
      }
      isProcessingFile := false;
    }

    /** `handleProcessFile` as one step against the backend's `outcome`. */
    method HandleProcessFile(outcome: Outcome<ProcessResponse>)
      modifies this`isProcessingFile, this`requests, this`results
      ensures selectedFile.Some? ==>
        && requests == old(requests) + [ProcessRequest(selectedFile.value)] && !isProcessingFile
        && results == old(results) + (if outcome.Success? then [ProcessResult(outcome.value)] else [])
      ensures selectedFile.None? ==>
        requests == old(requests) && results == old(results) && isProcessingFile == old(isProcessingFile)
    {
      var started := StartProcess();
      if started {
        FinishProcess(outcome);
      }
    }
  }

  /**
   * A client of the panel: while an OCR call is pending both buttons are
   * disabled, and a failed call leaves no result and the buttons enabled.
   */
  method PendingOcrDisablesBothButtons(image: FileInfo)
    requires StartsWith(image.mimeType, "image/")
  {
    var p := new Processor();
    p.HandleFileSelected(Some(image));
    var started := p.StartOcr();
    assert started && p.requests == [OcrRequest(image)];
    assert OcrDisabled(p.isProcessingOCR, p.isProcessingFile, p.fileType);
    assert ProcessDisabled(p.isProcessingOCR, p.isProcessingFile, p.fileType);
    p.FinishOcr(Failure);
    assert p.results == [];
    assert !OcrDisabled(p.isProcessingOCR, p.isProcessingFile, p.fileType);
  }
}
