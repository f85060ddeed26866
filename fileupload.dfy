/**
 * The upload widget's intake validation (src/components/FileUpload.tsx).
 * A chosen or dropped file is checked against a size limit and then against
 * a comma-separated list of accepted type patterns; the widget then records
 * the shown file name and the error text and hands the file, or null, to
 * its `onFileSelected` callback.
 */
module FileUpload {
  import opened ApiTypes
  import opened JsString

  /** The widget's default props. */
  const DefaultAcceptedFileTypes: string := "image/*,application/pdf,.docx"
  const DefaultMaxSizeMB: nat := 10

  /** `1024 * 1024`: dividing a byte count by it is exact, so the size test is an integer test. */
  const BytesPerMB: nat := 1048576

  /** `file.name.split('.').pop()?.toLowerCase()`: a name without a dot is its own extension. */
  function FileExtension(name: string): (ext: string)
    ensures |ext| <= |name| && '.' !in ext
    ensures forall i :: 0 <= i < |ext| ==> !('A' <= ext[i] <= 'Z')
  {
    LastSegmentIsSuffix(name, '.');
    var seg := LastSegment(name, '.');
    var ext := ToLower(seg);
    assert forall i :: 0 <= i < |ext| ==> ext[i] == LowerChar(seg[i]) && seg[i] != '.';
    ext
  }

  /** An extension typed in capitals lower-cases: a file named `REPORT.DOCX` has the extension `docx`. */
  lemma UpperCaseExtensionLowers(name: string)
    requires LastSegment(name, '.') == "DOCX"
    ensures FileExtension(name) == "docx"
  {
    var ext := FileExtension(name);
    assert |ext| == 4;
    assert ext[0] == 'd' && ext[1] == 'o' && ext[2] == 'c' && ext[3] == 'x';
  }

  /**
   * The test `fileTypes.some(...)` applies to one accepted-type pattern, in
   * the source's order: a pattern holding `*` is a MIME prefix once its first
   * `*` is removed; otherwise a pattern starting with `.` is compared with the
   * dotted, lower-cased extension; otherwise it must equal the MIME type.
   * Patterns are neither trimmed nor lower-cased.
   */
  predicate PatternMatches(pattern: string, file: FileInfo)
  {
    if '*' in pattern then StartsWith(file.mimeType, RemoveFirst(pattern, '*'))
    else if StartsWith(pattern, ".") then "." + FileExtension(file.name) == pattern
    else file.mimeType == pattern
  }

  /** `patterns.some(...)`: true exactly when some pattern matches. */
  function AnyPatternMatches(patterns: seq<string>, file: FileInfo): (r: bool)
    ensures r <==> exists i :: 0 <= i < |patterns| && PatternMatches(patterns[i], file)
    decreases |patterns|
  {
    if |patterns| == 0 then false
    else if PatternMatches(patterns[0], file) then true
    else
      var r := AnyPatternMatches(patterns[1..], file);
      assert forall i :: 1 <= i < |patterns| ==> patterns[i] == patterns[1..][i - 1];
      r
  }

  /** `acceptedFileTypes.split(',')`: the patterns, untrimmed. */
  function AcceptedPatterns(acceptedFileTypes: string): (patterns: seq<string>)
    ensures |patterns| >= 1
    ensures forall i :: 0 <= i < |patterns| ==> ',' !in patterns[i]
  {
    Split(acceptedFileTypes, ',')
  }

  /** The type test on the whole accepted-types string. */
  predicate TypeAccepted(acceptedFileTypes: string, file: FileInfo)
  {
    AnyPatternMatches(AcceptedPatterns(acceptedFileTypes), file)
  }

  /** `file.size / (1024 * 1024) > maxSizeMB`. */
  predicate ExceedsSizeLimit(size: nat, maxSizeMB: nat)
    ensures ExceedsSizeLimit(size, maxSizeMB) <==> (size as real) / (BytesPerMB as real) > maxSizeMB as real
  {
    var mb := (size as real) / (BytesPerMB as real);
    assert mb * (BytesPerMB as real) == size as real;
    assert mb > maxSizeMB as real <==> mb * (BytesPerMB as real) > (maxSizeMB as real) * (BytesPerMB as real);
    size > maxSizeMB * BytesPerMB
  }

  function SizeErrorMessage(maxSizeMB: nat): string
  {
    "File size exceeds " + NatToString(maxSizeMB) + "MB limit."
  }

  function TypeErrorMessage(acceptedFileTypes: string): string
  {
    "File type not supported. Please upload " + ReplaceAll(acceptedFileTypes, ',', ", ") + "."
  }

  /** What one validation decides. */
  datatype Verdict = NoFile | TooLarge | UnsupportedType | Accepted(file: FileInfo)

  /** The decision `validateAndSetFile` takes, with its early returns in order. */
  function Validate(file: Option<FileInfo>, acceptedFileTypes: string, maxSizeMB: nat): (v: Verdict)
    ensures v == NoFile <==> file.None?
    ensures v == TooLarge <==> file.Some? && ExceedsSizeLimit(file.value.size, maxSizeMB)
    ensures v.Accepted? ==> file == Some(v.file) && TypeAccepted(acceptedFileTypes, v.file)
  {
    match file
    case None => NoFile
    case Some(f) =>
      if ExceedsSizeLimit(f.size, maxSizeMB) then TooLarge
      else if !TypeAccepted(acceptedFileTypes, f) then UnsupportedType
      else Accepted(f)
  }

  /** The error text a verdict leaves on display. */
  function ErrorText(v: Verdict, acceptedFileTypes: string, maxSizeMB: nat): (e: Option<string>)
    ensures e.None? <==> v.NoFile? || v.Accepted?
  {
    match v
    case TooLarge => Some(SizeErrorMessage(maxSizeMB))
    case UnsupportedType => Some(TypeErrorMessage(acceptedFileTypes))
    case _ => None
  }

  /** `e.target.files?.[0] || null` and `e.dataTransfer.files?.[0] || null`. */
  function FirstFile(files: seq<FileInfo>): (r: Option<FileInfo>)
    ensures r.None? <==> files == []
    ensures r.Some? ==> r.value == files[0]
  {
    if |files| == 0 then None else Some(files[0])
  }

  /** An oversized file is rejected whatever its name and type: the size test comes first. */
  lemma SizeCheckComesFirst(f: FileInfo, acceptedFileTypes: string, maxSizeMB: nat)
    requires f.size > maxSizeMB * BytesPerMB
    ensures Validate(Some(f), acceptedFileTypes, maxSizeMB) == TooLarge
    ensures ErrorText(TooLarge, acceptedFileTypes, maxSizeMB) == Some(SizeErrorMessage(maxSizeMB))
  {
  }

  /** A file of exactly the limit passes the size test. */
  lemma ExactLimitPasses(f: FileInfo, acceptedFileTypes: string, maxSizeMB: nat)
    requires f.size == maxSizeMB * BytesPerMB
    ensures Validate(Some(f), acceptedFileTypes, maxSizeMB) != TooLarge
  {
  }

  /** A file within the limit is accepted exactly when one of the accepted-type patterns matches it. */
  lemma AcceptedIffSomePatternMatches(f: FileInfo, acceptedFileTypes: string, maxSizeMB: nat)
    requires f.size <= maxSizeMB * BytesPerMB
    ensures Validate(Some(f), acceptedFileTypes, maxSizeMB) == Accepted(f)
      <==> exists i :: 0 <= i < |AcceptedPatterns(acceptedFileTypes)| && PatternMatches(AcceptedPatterns(acceptedFileTypes)[i], f)
    ensures Validate(Some(f), acceptedFileTypes, maxSizeMB) != Accepted(f)
      ==> Validate(Some(f), acceptedFileTypes, maxSizeMB) == UnsupportedType
  {
    assert !ExceedsSizeLimit(f.size, maxSizeMB);
  }

  /** One matching pattern suffices for a file within the limit. */
  lemma MatchingPatternAccepts(f: FileInfo, acceptedFileTypes: string, maxSizeMB: nat, i: nat)
    requires f.size <= maxSizeMB * BytesPerMB
    requires i < |AcceptedPatterns(acceptedFileTypes)| && PatternMatches(AcceptedPatterns(acceptedFileTypes)[i], f)
    ensures Validate(Some(f), acceptedFileTypes, maxSizeMB) == Accepted(f)
  {
    AcceptedIffSomePatternMatches(f, acceptedFileTypes, maxSizeMB);
  }

  /** A pattern holding `*` is a MIME prefix test, whatever else it holds, even a leading `.`. */
  lemma WildcardPatternIsPrefixTest(pattern: string, f: FileInfo, i: nat)
    requires i < |pattern| && pattern[i] == '*' && '*' !in pattern[..i]
    ensures PatternMatches(pattern, f) <==> StartsWith(f.mimeType, pattern[..i] + pattern[i + 1..])
  {
    RemoveFirstSplits(pattern, '*', i);
  }

  /** The wildcard pattern for images admits exactly the MIME types that start with `image/`. */
  lemma ImageWildcard(f: FileInfo)
    ensures PatternMatches("image/*", f) <==> StartsWith(f.mimeType, "image/")
  {
    WildcardPatternIsPrefixTest("image/*", f, 6);
    assert "image/*"[..6] + "image/*"[7..] == "image/";
  }

  /**
   * A `.` pattern without `*` compares against the part of the name after
   * its last dot, lower-cased; the pattern itself is not lower-cased, so a
   * pattern with an upper-case letter never matches.
   */
  lemma ExtensionPatternTest(pattern: string, f: FileInfo)
    requires '*' !in pattern && StartsWith(pattern, ".")
    ensures var seg := LastSegment(f.name, '.');
      && (PatternMatches(pattern, f) <==> pattern == "." + ToLower(seg))
      && '.' !in seg
      && |seg| <= |f.name| && f.name[|f.name| - |seg|..] == seg
    ensures (exists k :: 1 <= k < |pattern| && 'A' <= pattern[k] <= 'Z') ==> !PatternMatches(pattern, f)
  {
    LastSegmentIsSuffix(f.name, '.');
    var ext := ToLower(LastSegment(f.name, '.'));
    assert forall k :: 0 <= k < |ext| ==> ext[k] == LowerChar(LastSegment(f.name, '.')[k]);
  }

  /** A name without a dot is compared as a whole, so `.docx` matches a file named `DOCX`. */
  lemma DotlessNameIsItsOwnExtension(f: FileInfo)
    requires '.' !in f.name
    ensures FileExtension(f.name) == ToLower(f.name)
  {
    LastSegmentIsSuffix(f.name, '.');
  }

  /** Any other pattern is an exact, untrimmed comparison with the MIME type. */
  lemma ExactPatternTest(pattern: string, f: FileInfo)
    requires '*' !in pattern && !StartsWith(pattern, ".")
    ensures PatternMatches(pattern, f) <==> f.mimeType == pattern
  {
  }

  /** The default policy, split: three patterns, taken literally. */
  lemma DefaultPatterns()
    ensures AcceptedPatterns(DefaultAcceptedFileTypes) == ["image/*", "application/pdf", ".docx"]
  {
    var parts := ["image/*", "application/pdf", ".docx"];
    assert Join(parts, ',') == DefaultAcceptedFileTypes;
    SplitJoin(parts, ',');
  }

  /** The type message for three comma-free patterns separates them by a comma and a space. */
  lemma TypeErrorMessageOfThree(a: string, b: string, c: string)
    requires ',' !in a && ',' !in b && ',' !in c
    ensures TypeErrorMessage(a + [','] + b + [','] + c)
      == "File type not supported. Please upload " + (a + ", " + b + ", " + c) + "."
  {
    assert a + [','] + b + [','] + c == a + [','] + (b + [','] + c);
    ReplaceAllSplices(a, b + [','] + c, ',', ", ");
    ReplaceAllSplices(b, c, ',', ", ");
  }

  /** Under the default policy the type message lists the three patterns, each comma followed by a space. */
  lemma DefaultTypeErrorMessage()
    ensures TypeErrorMessage(DefaultAcceptedFileTypes)
      == "File type not supported. Please upload " + ("image/*" + ", " + "application/pdf" + ", " + ".docx") + "."
  {
    assert DefaultAcceptedFileTypes == "image/*" + [','] + "application/pdf" + [','] + ".docx";
    TypeErrorMessageOfThree("image/*", "application/pdf", ".docx");
  }

  /** Under the default policy a file within the limit whose name ends in `.docx`, in any case, is accepted whatever its MIME type. */
  lemma DefaultPolicyAcceptsDocxByName(f: FileInfo)
    requires f.size <= DefaultMaxSizeMB * BytesPerMB
    requires FileExtension(f.name) == "docx"
    ensures Validate(Some(f), DefaultAcceptedFileTypes, DefaultMaxSizeMB) == Accepted(f)
  {
    assert '*' !in ".docx" && StartsWith(".docx", ".");
    assert PatternMatches(".docx", f);
    DefaultPatterns();
    MatchingPatternAccepts(f, DefaultAcceptedFileTypes, DefaultMaxSizeMB, 2);
  }

  /**
   * The upload widget. The two props are fixed for its lifetime; `fileName`
   * and `error` are its state; `selections` lists, oldest first, every value
   * it has passed to `onFileSelected`.
   */
  class Uploader {
    const acceptedFileTypes: string
    const maxSizeMB: nat
    var fileName: Option<string>
    var error: Option<string>
    var selections: seq<Option<FileInfo>>

    constructor (acceptedFileTypes: string, maxSizeMB: nat)
      ensures this.acceptedFileTypes == acceptedFileTypes && this.maxSizeMB == maxSizeMB
      ensures fileName == None && error == None && selections == []
    {
      this.acceptedFileTypes := acceptedFileTypes;
      this.maxSizeMB := maxSizeMB;
      fileName := None;
      error := None;
      selections := [];
    }

    /**
     * `validateAndSetFile`: clears the error, then either accepts the file
     * (its name shown, the file handed on) or rejects it (no name, null
     * handed on, and the reason shown unless there was no file at all).
     */
    method ValidateAndSetFile(file: Option<FileInfo>)
      modifies this
      ensures var v := Validate(file, acceptedFileTypes, maxSizeMB);
        && fileName == (if v.Accepted? then Some(v.file.name) else None)
        && error == ErrorText(v, acceptedFileTypes, maxSizeMB)
        && selections == old(selections) + [if v.Accepted? then Some(v.file) else None]
      ensures fileName.Some? ==> error.None?
    {
      error := None;

      if file.None? {
        fileName := None;
        selections := selections + [None];
        return;
      }
      var f := file.value;

      if ExceedsSizeLimit(f.size, maxSizeMB) {
        error := Some(SizeErrorMessage(maxSizeMB));
        fileName := None;
        selections := selections + [None];
        return;
      }

      var fileTypes := AcceptedPatterns(acceptedFileTypes);
      var mimeTypeMatch := AnyPatternMatches(fileTypes, f);
      if !mimeTypeMatch {
        error := Some(TypeErrorMessage(acceptedFileTypes));
        fileName := None;
        selections := selections + [None];
        return;
      }

      fileName := Some(f.name);
      selections := selections + [Some(f)];
    }

    /** `handleFileChange`: the first chosen file, or null, is validated. */
    method HandleFileChange(files: seq<FileInfo>)
      modifies this
      ensures var v := Validate(FirstFile(files), acceptedFileTypes, maxSizeMB);
        && fileName == (if v.Accepted? then Some(v.file.name) else None)
        && error == ErrorText(v, acceptedFileTypes, maxSizeMB)
        && selections == old(selections) + [if v.Accepted? then Some(v.file) else None]
    {
      ValidateAndSetFile(FirstFile(files));
    }

    /** `handleDrop`: the first dropped file, or null, takes the very same path as browsing. */
    method HandleDrop(files: seq<FileInfo>)
      modifies this
      ensures var v := Validate(FirstFile(files), acceptedFileTypes, maxSizeMB);
        && fileName == (if v.Accepted? then Some(v.file.name) else None)
        && error == ErrorText(v, acceptedFileTypes, maxSizeMB)
        && selections == old(selections) + [if v.Accepted? then Some(v.file) else None]
    {
      ValidateAndSetFile(FirstFile(files));
    }

    /** `handleClearFile`: no name, no error, and null handed on. */
    method HandleClearFile()
      modifies this
      ensures fileName == None && error == None
      ensures selections == old(selections) + [None]
    {
      fileName := None;
      error := None;
      selections := selections + [None];
    }
  }

  /** A client of the widget: a 15 MB JPEG under the default 10 MB limit is refused and null is handed on. */
  method OversizedJpegIsRefused()
  {
    var u := new Uploader(DefaultAcceptedFileTypes, DefaultMaxSizeMB);
    u.HandleDrop([FileInfo("scan.jpg", "image/jpeg", 15 * BytesPerMB)]);
    assert u.error == Some(SizeErrorMessage(10)) && u.fileName == None;
    assert u.selections == [None];
  }
}
