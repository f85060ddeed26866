# docu-magic-enhancer front end — a verified model of its decision logic

docu-magic-enhancer is a React front end for a medical-document backend.
Users upload a file or paste text. The backend classifies, extracts or
enhances it, and the front end shows the result. This project models the
decision logic that runs inside the browser.

- **Upload widget intake validation** (`FileUpload`). This covers the size limit, the comma-separated accepted-type patterns and the three kinds of pattern, each with its quirks. It also covers the state the widget keeps (`fileName`, `error`) and the values it hands to `onFileSelected`.
- **File-processing panel** (`FileProcessor`). This covers the MIME-type classification, the enabled state of the OCR and Process buttons, and the two handlers. Each handler runs one backend call behind a pending flag.
- **Text form** (`TextProcessor`). This covers the blank-input guard, both request bodies including the `auto_detect` mapping, the shared button predicate and the two handlers.
- **Status card** (`HealthCheck`). This covers the handler's state steps, the badge's colour and label, and the toast each outcome pops.
- **Result panel** (`ResultDisplay`). This is the map from a tagged result, or none, to the column of blocks shown. It is paired with a reader that recovers the result from the screen.

`ApiTypes` holds the shapes the backend exchanges and the `DocumentType` union.
`JsString` models the JavaScript string built-ins the components rely on: `split`, `pop`, `startsWith`, `includes`, `replace`, `toLowerCase`, `trim` and number-to-string.

Each component whose handlers change state is a class. Its fields are the component's state. Logs record, oldest first:

- the backend requests it made;
- the values it passed to its parent's callback;
- for the status card, the toasts it popped.

Each asynchronous handler is split at its `await`:

- `StartX` runs the guard. If the guard passes, it raises the pending flag and logs the request.
- `FinishX(outcome)` takes the backend's answer, `Success(response)` or `Failure`. It emits the tagged result on success and always drops the flag.
- `HandleX` runs the two steps back to back.

Between the two steps, the pending state is observable. Each module's client methods use that to show which buttons are disabled while a call is pending.

Two consequences of the source are worth stating:

- A `.docx` file is accepted by the upload widget by its name alone. If its browser-reported MIME type is none of the image, PDF and DOCX types, the panel then shows it as unsupported and both buttons stay disabled (`FileProcessor.DocxByNameOnlyIsUnsupported`).
- A backend that answers the status `error` shows the same red `Error` badge as a backend that cannot be reached. Only the toast differs.

## Model

| member | source | states |
|---|---|---|
| ApiTypes.ParseDocumentType | src/api/types.ts:52 | a string read back as a document type is that type's own literal |
| ApiTypes.DocumentTypeName | src/api/types.ts:52 | each document type is one of the six string literals of the union (a definition; `DocumentTypeNameRoundTrip` states they are distinct and read back) |
| ApiTypes.DocumentTypeNameRoundTrip | src/api/types.ts:52 | every document type is read back from its literal, so the six literals are distinct |
| JsString.Split | src/components/FileUpload.tsx:39 | `split` on one character yields at least one piece, and no piece holds the separator |
| JsString.JoinSplit | src/components/FileUpload.tsx:39 | joining the pieces of a split with the separator gives back the original string |
| JsString.SplitJoin | src/components/FileUpload.tsx:39 | splitting a join of separator-free pieces gives back exactly those pieces |
| JsString.LastSegment | src/components/FileUpload.tsx:40 | `split(sep).pop()`: the last piece of the split (a definition; `LastSegmentIsSuffix` states what it is) |
| JsString.LastSegmentIsSuffix | src/components/FileUpload.tsx:40 | `split(sep).pop()` is a separator-free suffix, preceded by the separator or equal to the whole string, and is the whole string when there is no separator |
| JsString.StartsWith | src/components/FileUpload.tsx:44 | `s.startsWith(p)`: `p` is no longer than `s` and is its prefix (a definition; the wildcard and image lemmas state what it decides) |
| JsString.RemoveFirst | src/components/FileUpload.tsx:44 | `replace(c, '')` on a one-character pattern leaves a string without `c` unchanged and otherwise removes exactly one character |
| JsString.RemoveFirstSplits | src/components/FileUpload.tsx:44 | the character removed is the first occurrence: the result is the text before it followed by the text after it |
| JsString.ReplaceAll | src/components/FileUpload.tsx:53 | a global replace of `c` by a text free of `c` leaves no `c`, and leaves a string without `c` unchanged |
| JsString.ReplaceAllAppend | src/components/FileUpload.tsx:53 | replacing in a concatenation replaces in each part and keeps them in order |
| JsString.ReplaceAllSplices | src/components/FileUpload.tsx:53 | each occurrence of `c` becomes `t` in place, between the replaced text before it and the replaced text after it; with the unchanged-without-`c` clause this determines the result |
| JsString.LowerChar | src/components/FileUpload.tsx:40 | an upper-case ASCII letter becomes the same letter in lower case (`D` to `d`), the result is never upper-case ASCII, and any other character is unchanged |
| JsString.ToLower | src/components/FileUpload.tsx:40 | `toLowerCase` keeps the length and lower-cases character by character, each A–Z letter to its a–z counterpart |
| JsString.ToLowerIdempotent | src/components/FileUpload.tsx:40 | lower-casing twice is lower-casing once |
| JsString.IsWhitespace | src/components/TextProcessor.tsx:28 | the whitespace and line-terminator characters `trim` removes (a definition; `BlankIffAllWhitespace` states what `trim` does with them) |
| JsString.TrimStart | src/components/TextProcessor.tsx:28 | trimming the start leaves a suffix of the input that is empty or starts with a non-whitespace character |
| JsString.TrimEnd | src/components/TextProcessor.tsx:28 | trimming the end leaves a prefix of the input that is empty or ends with a non-whitespace character |
| JsString.TrimStartDropsWhitespace | src/components/TextProcessor.tsx:28 | every character trimmed from the start is whitespace |
| JsString.TrimEndDropsWhitespace | src/components/TextProcessor.tsx:28 | every character trimmed from the end is whitespace |
| JsString.Trim | src/components/TextProcessor.tsx:28 | `trim` is `trimEnd` after `trimStart` (a definition; `TrimIsSlice` and the two drop lemmas state what it keeps) |
| JsString.IsBlank | src/components/TextProcessor.tsx:28 | `!text.trim()`: the trimmed text is empty (a definition; `BlankIffAllWhitespace` characterises it) |
| JsString.TrimIsSlice | src/components/TextProcessor.tsx:28 | `trim` yields a contiguous slice of its input that neither starts nor ends with whitespace |
| JsString.BlankIffAllWhitespace | src/components/TextProcessor.tsx:28 | `!text.trim()` holds exactly when every character of the text is whitespace |
| JsString.NonWhitespaceIsNotBlank | src/components/TextProcessor.tsx:28 | one non-whitespace character makes the text non-blank |
| JsString.NatToString | src/components/FileUpload.tsx:32 | a whole number below 10^21 in a template literal is a non-empty string of decimal digits without a leading zero (larger numbers: see "Left out") |
| JsString.NatToStringRoundTrip | src/components/FileUpload.tsx:32 | reading those digits back as a decimal gives the number |
| FileUpload.FileExtension | src/components/FileUpload.tsx:40 | the extension is no longer than the name, holds no dot and no upper-case ASCII letter |
| FileUpload.UpperCaseExtensionLowers | src/components/FileUpload.tsx:40 | a name whose last dot-segment is `DOCX` (such as `REPORT.DOCX`) has the extension `docx` |
| FileUpload.PatternMatches | src/components/FileUpload.tsx:42-50 | the per-pattern test in the source's branch order (a definition; the three branch lemmas below state what each branch decides) |
| FileUpload.AnyPatternMatches | src/components/FileUpload.tsx:42-50 | `some` over the patterns holds exactly when one of them matches |
| FileUpload.AcceptedPatterns | src/components/FileUpload.tsx:39 | the accepted-types string yields at least one pattern and no pattern holds a comma (patterns are not trimmed) |
| FileUpload.TypeAccepted | src/components/FileUpload.tsx:39-50 | `mimeTypeMatch`: some comma-separated pattern matches the file (a definition; `AcceptedIffSomePatternMatches` states its role in validation) |
| FileUpload.ExceedsSizeLimit | src/components/FileUpload.tsx:30-31 | the integer test `size > maxSizeMB * 1048576` holds exactly when the exact quotient `size / (1024 * 1024)` exceeds `maxSizeMB` |
| FileUpload.SizeErrorMessage | src/components/FileUpload.tsx:32 | the size message with the limit written in decimal (a definition; `JsString.NatToStringRoundTrip` states the number is written faithfully) |
| FileUpload.TypeErrorMessage | src/components/FileUpload.tsx:53 | the type message with every comma of the accepted types followed by a space (a definition; the two lemmas below state it) |
| FileUpload.TypeErrorMessageOfThree | src/components/FileUpload.tsx:53 | for three comma-free patterns, the message lists them separated by a comma and a space, unchanged and in order |
| FileUpload.DefaultTypeErrorMessage | src/components/FileUpload.tsx:53 | under the default props the message lists `image/*, application/pdf, .docx` |
| FileUpload.Validate | src/components/FileUpload.tsx:20-61 | the verdict is no-file exactly for null, too-large exactly for a file over the limit, and an accepted verdict carries the given file whose type some pattern accepts |
| FileUpload.ErrorText | src/components/FileUpload.tsx:21-57 | an error is left exactly after a size or type rejection; no file and an accepted file leave none |
| FileUpload.FirstFile | src/components/FileUpload.tsx:16 | the first file of the list, or null exactly when the list is empty |
| FileUpload.SizeCheckComesFirst | src/components/FileUpload.tsx:30-36 | a file over `maxSizeMB * 1048576` bytes is refused with the size message whatever its name and type |
| FileUpload.ExactLimitPasses | src/components/FileUpload.tsx:30-31 | a file of exactly the limit passes the size test |
| FileUpload.AcceptedIffSomePatternMatches | src/components/FileUpload.tsx:39-61 | a file within the limit is accepted exactly when some pattern matches it, and is otherwise refused as an unsupported type |
| FileUpload.MatchingPatternAccepts | src/components/FileUpload.tsx:42-61 | one matching pattern is enough to accept a file within the limit |
| FileUpload.WildcardPatternIsPrefixTest | src/components/FileUpload.tsx:43-45 | a pattern with a `*` is a MIME prefix test on the pattern without its first `*`, taking priority over the other two branches |
| FileUpload.ImageWildcard | src/components/FileUpload.tsx:43-45 | the image wildcard pattern matches exactly the MIME types starting with `image/` |
| FileUpload.ExtensionPatternTest | src/components/FileUpload.tsx:46-48 | a `.` pattern matches exactly when it equals `.` plus the lower-cased last dot-segment of the name; the pattern itself is not lower-cased, so one with an upper-case letter never matches |
| FileUpload.DotlessNameIsItsOwnExtension | src/components/FileUpload.tsx:40 | a name without a dot is its own extension |
| FileUpload.ExactPatternTest | src/components/FileUpload.tsx:49 | any other pattern matches exactly when it equals the MIME type, untrimmed |
| FileUpload.DefaultPatterns | src/components/FileUpload.tsx:7 | the default accepted-types string is the three patterns for images, PDF and `.docx` |
| FileUpload.DefaultPolicyAcceptsDocxByName | src/components/FileUpload.tsx:46-48 | under the default props, a file within the limit whose extension is `docx` in any case is accepted whatever its MIME type |
| FileUpload.Uploader.constructor | src/components/FileUpload.tsx:5-13 | the widget starts with its props, no name, no error and nothing handed on |
| FileUpload.Uploader.ValidateAndSetFile | src/components/FileUpload.tsx:20-62 | no file, a file over the limit and an unmatched file all leave no name and hand on null; the last two also set their error message. An accepted file shows its name, leaves no error and is handed on |
| FileUpload.Uploader.HandleFileChange | src/components/FileUpload.tsx:15-18 | browsing validates the first chosen file, or null |
| FileUpload.Uploader.HandleDrop | src/components/FileUpload.tsx:81-88 | dropping validates the first dropped file, or null, with the same effect as browsing |
| FileUpload.Uploader.HandleClearFile | src/components/FileUpload.tsx:94-102 | clearing resets the name and the error and hands on null |
| FileProcessor.IsImage | src/components/FileProcessor.tsx:72 | `fileType?.startsWith('image/')`, false for no type (a definition; `ClassificationIsExclusive` states its relations) |
| FileProcessor.IsPdf | src/components/FileProcessor.tsx:73 | the type is exactly `application/pdf` (a definition) |
| FileProcessor.IsDocx | src/components/FileProcessor.tsx:74 | the type is exactly the DOCX MIME type (a definition) |
| FileProcessor.IsProcessableFile | src/components/FileProcessor.tsx:75 | image, PDF or DOCX (a definition; `Notice` and `ClassificationIsExclusive` state what follows) |
| FileProcessor.OcrDisabled | src/components/FileProcessor.tsx:109 | the OCR button is disabled while either call is pending or the type is not an image (a definition) |
| FileProcessor.ProcessDisabled | src/components/FileProcessor.tsx:129 | the Process button is disabled while either call is pending or the type is not processable (a definition; `OcrEnabledImpliesProcessEnabled` relates the two) |
| FileProcessor.Notice | src/components/FileProcessor.tsx:94-102 | the unsupported-type hint is shown exactly when the type is neither an image, a PDF nor a DOCX |
| FileProcessor.ClassificationIsExclusive | src/components/FileProcessor.tsx:72-75 | image, PDF and DOCX are mutually exclusive; an image is always processable; a processable file has a type |
| FileProcessor.OcrEnabledImpliesProcessEnabled | src/components/FileProcessor.tsx:109-129 | whenever the OCR button is enabled the Process button is too |
| FileProcessor.DocxByNameOnlyIsUnsupported | src/components/FileProcessor.tsx:82-102 | a `.docx` file without a processable MIME type is accepted by the panel's upload widget under the props the panel passes it, yet shown as unsupported with both buttons disabled |
| FileProcessor.Processor.constructor | src/components/FileProcessor.tsx:13-16 | the panel starts with no file, no type, no pending call and no history |
| FileProcessor.Processor.HandleFileSelected | src/components/FileProcessor.tsx:18-26 | the selection is kept, and its type is the file's MIME type, or null for no file |
| FileProcessor.Processor.StartOcr | src/components/FileProcessor.tsx:28-42 | OCR starts exactly when a file is selected and its MIME type starts with `image/`; it then raises the flag and sends that file, and otherwise changes nothing |
| FileProcessor.Processor.FinishOcr | src/components/FileProcessor.tsx:42-50 | a success passes the response on, tagged `ocr` and unchanged; a failure passes nothing; the flag drops either way |
| FileProcessor.Processor.HandleOCRImage | src/components/FileProcessor.tsx:28-51 | the whole OCR handler: no image, no call; otherwise one call, its result only on success, and the flag clear afterwards |
| FileProcessor.Processor.StartProcess | src/components/FileProcessor.tsx:53-61 | processing starts exactly when a file is selected, whatever its type |
| FileProcessor.Processor.FinishProcess | src/components/FileProcessor.tsx:61-69 | a success passes the response on, tagged `process` and unchanged; a failure passes nothing; the flag drops either way |
| FileProcessor.Processor.HandleProcessFile | src/components/FileProcessor.tsx:53-70 | the whole process handler: no file, no call; otherwise one call, its result only on success, and the flag clear afterwards |
| TextProcessor.OptionsCoverEveryDocumentType | src/components/TextProcessor.tsx:18-25 | the selector offers each of the six document types exactly once, `auto_detect` first |
| TextProcessor.DetectRequestFor | src/components/TextProcessor.tsx:35 | the detection body carries the raw, untrimmed input |
| TextProcessor.EnhanceRequestFor | src/components/TextProcessor.tsx:54-57 | the enhancement body (a definition; `EnhanceRequestHint` states its meaning) |
| TextProcessor.EnhanceRequestHint | src/components/TextProcessor.tsx:54-57 | the enhancement body carries the raw input; its type is absent exactly for `auto_detect`, is otherwise the chosen type's own literal, and is never `auto_detect` |
| TextProcessor.ButtonsDisabled | src/components/TextProcessor.tsx:114 | the `disabled` expression both buttons share (a definition; `ButtonsEnabledIff` characterises it) |
| TextProcessor.ButtonsEnabledIff | src/components/TextProcessor.tsx:134 | both buttons are enabled exactly when neither call is pending and the input has a non-whitespace character |
| TextProcessor.TextForm.constructor | src/components/TextProcessor.tsx:13-16 | the form starts empty, on `auto_detect`, with no pending call |
| TextProcessor.TextForm.SetInputText | src/components/TextProcessor.tsx:83 | typing replaces the input |
| TextProcessor.TextForm.SetDocumentType | src/components/TextProcessor.tsx:95 | choosing replaces the document type |
| TextProcessor.TextForm.StartDetect | src/components/TextProcessor.tsx:27-35 | detection starts exactly when the input is not blank; it then raises the flag and sends the raw input, and otherwise changes nothing |
| TextProcessor.TextForm.FinishDetect | src/components/TextProcessor.tsx:36-43 | a success passes the response on, tagged `text` and unchanged; a failure passes nothing; the flag drops either way |
| TextProcessor.TextForm.HandleDetectType | src/components/TextProcessor.tsx:27-44 | the whole detect handler: blank input, no call; otherwise one call, its result only on success, and the flag clear afterwards |
| TextProcessor.TextForm.StartEnhance | src/components/TextProcessor.tsx:46-57 | enhancement starts exactly when the input is not blank; it then raises the flag and sends the raw input with the type hint |
| TextProcessor.TextForm.FinishEnhance | src/components/TextProcessor.tsx:58-65 | a success passes the response on, tagged `enhancement` and unchanged; a failure passes nothing; the flag drops either way |
| TextProcessor.TextForm.HandleEnhanceText | src/components/TextProcessor.tsx:46-66 | the whole enhance handler: blank input, no call; otherwise one call, its result only on success, and the flag clear afterwards |
| HealthCheck.Colour | src/components/HealthCheck.tsx:39-46 | green exactly for `ok`, red exactly for `error`, gray exactly for no status or the empty status, and yellow otherwise |
| HealthCheck.Label | src/components/HealthCheck.tsx:48-54 | the label follows the colour's split: `Online`, `Error`, the status itself, `Unknown` |
| HealthCheck.LabelNeedsColour | src/components/HealthCheck.tsx:48-54 | a backend status `Online`, `Error` or `Unknown` shows the same label as `ok`, `error` or no status, in yellow |
| HealthCheck.BadgeIdentifiesStatus | src/components/HealthCheck.tsx:39-54 | colour and label together determine the status, except that no status and the empty status look alike |
| HealthCheck.SettledStatus | src/components/HealthCheck.tsx:16-25 | a settled check always has a status: the backend's own, verbatim, or `error` on failure |
| HealthCheck.ToastFor | src/components/HealthCheck.tsx:18-26 | the failure toast pops exactly on failure, and the operational toast exactly for the status `ok` |
| HealthCheck.BackendErrorLooksLikeFailure | src/components/HealthCheck.tsx:16-26 | a backend `error` and a failed call leave the same red `Error` badge, and only their toasts differ |
| HealthCheck.SettledBadge | src/components/HealthCheck.tsx:16-46 | once settled the badge is gray only for an empty backend status, red on failure, and green exactly when the operational toast popped |
| HealthCheck.Monitor.constructor | src/components/HealthCheck.tsx:8-9 | the card starts with no status and not loading |
| HealthCheck.Monitor.ButtonDisabled | src/components/HealthCheck.tsx:65 | the button is disabled exactly while loading (a definition; the handler has no guard of its own) |
| HealthCheck.Monitor.StartCheck | src/components/HealthCheck.tsx:13-15 | a check raises loading, clears the status and makes the call; the handler itself has no guard |
| HealthCheck.Monitor.FinishCheck | src/components/HealthCheck.tsx:16-29 | the status settles to the backend's or `error`, the matching toast pops and loading ends |
| HealthCheck.Monitor.HandleHealthCheck | src/components/HealthCheck.tsx:11-30 | the whole handler: one call, the settled status and toast, loading off |
| ResultDisplay.Percent | src/components/ResultDisplay.tsx:60 | the shown percentage is the nearest whole number to `confidence * 100`, halves rounded up |
| ResultDisplay.ConfidenceBlocks | src/components/ResultDisplay.tsx:58-62 | the confidence line appears exactly when the confidence is defined, showing its rounded percentage |
| ResultDisplay.HintBlocks | src/components/ResultDisplay.tsx:73-79 | the enhancement's type pill appears exactly for a present, non-empty type and shows it unchanged |
| ResultDisplay.Render | src/components/ResultDisplay.tsx:12-151 | the placeholder is shown exactly when there is no result and never beside one; an unknown tag shows a single notice carrying the tag |
| ResultDisplay.UnknownNoticeOnlyForUnknownTags | src/components/ResultDisplay.tsx:145-150 | the unknown-type notice appears exactly for a tag outside `text`, `enhancement`, `ocr` and `process`, and names that tag |
| ResultDisplay.ConfidenceShownIffPresent | src/components/ResultDisplay.tsx:47-143 | for every tag, a confidence line appears exactly when the response carries a confidence, and it shows that confidence |
| ResultDisplay.AsDisplayed | src/components/ResultDisplay.tsx:60 | rounding keeps a confidence present exactly when it was, and a result without a confidence is unchanged |
| ResultDisplay.ReadBack | src/components/ResultDisplay.tsx:45-151 | reads a rendered column back into the result it shows, and reads the placeholder or any other column as nothing (the partner of `Render`; `RenderReadBack` states the round trip) |
| ResultDisplay.RenderReadBack | src/components/ResultDisplay.tsx:45-151 | every result reads back from its rendering as itself with confidences rounded, so every field is shown unchanged; the only exception is an enhancement with an empty type |
| ResultDisplay.PlaceholderReadsAsNothing | src/components/ResultDisplay.tsx:13-43 | the placeholder reads back as no result |
| ResultDisplay.EmptyHintLooksAbsent | src/components/ResultDisplay.tsx:73-85 | an enhancement with an empty type looks exactly like one without a type: heading and Markdown text only |
| ResultDisplay.ProcessShowsEveryField | src/components/ResultDisplay.tsx:106-143 | the process view shows the type as a pill, the extracted text verbatim and the enhanced text as Markdown, in six blocks plus the confidence line |

## Left out

- HTTP: `src/api/apiService.ts` and `src/api/apiClient.ts` (axios, multipart form data, the error interceptor's logged message) are not part of this model. Each backend call is an `Outcome` parameter: the response body, or a rejected promise.
- Interleaving: React batches state updates and re-renders between them. The model applies each handler's updates in source order, split only at the `await`.
- Toasts and `console.error` in the file panel and the text form. They change no state and are left out. The status card's toasts are kept, because they are the only thing that tells a backend `error` from a failed call.
- Markup: Markdown rendering, CSS classes, SVGs, the drag highlight (`isDragging`, the drag-enter, leave and over handlers), the click-to-browse handler, and the reset of the hidden input's value on clear.
- Routing: `src/pages/Index.tsx`, `src/pages/Results.tsx`, `src/pages/NotFound.tsx` and `src/components/Navbar.tsx`, including passing the last result to the result page.
- `src/components/LoadingSpinner.tsx` is imported by three components but is not part of this model; it is only a visual.
- JsString.ToLower: lower-cases the ASCII letters A–Z only; Unicode case mapping beyond ASCII is not modelled.
- JsString.IsWhitespace: the ECMAScript whitespace and line-terminator set with the space separators of Unicode 15; later Unicode additions are not tracked.
- JsString.NatToString: a limit of 10^21 or more is written out in full digits, whereas JavaScript writes such a number in exponent form (`1e+21`); the source passes no such limit.
- FileUpload.Uploader.ValidateAndSetFile: `maxSizeMB` is a natural number. Fractional or negative limits, which make the JavaScript size test a fractional comparison, are not modelled.
- ResultDisplay.Percent: computed on exact reals. The floating-point error of `confidence * 100` before `Math.round` is not modelled, so a product that floats just below a half may round differently in a browser.
- ResultDisplay.Render: the panel's outer "Results" heading, shown in both branches, is not a block. A `confidence` of `null`, as opposed to an absent one, is not modelled: the model's confidence is present or absent.
- Responses that do not match their declared shapes at run time, such as missing fields, are not modelled.
