# ai-tool text analysis: a Dafny model of its core

ai-tool is a Next.js application that analyses text with a language model.
The text can come from four places: pasted raw text, a YouTube video's transcript, an uploaded document (PDF, DOC, DOCX, TXT), or an image read by a vision model.
This project models the deterministic core of that application as pure Dafny functions and proves properties of it.
The model covers:

- **The `POST /api/analyze` route**: choosing the input source, the URL pattern for YouTube, validating the text, and the transcript, document and image paths. It also models how the model's JSON answer becomes an `AnalysisResult` and how every failure becomes an HTTP error response.
- **The error layer**: the `AppError` classes (including the effect of the prototype reset in the base constructor), `extractErrorMessage`, `normalizeError`, `createErrorResponse`, `requireEnvVar`, and the message catalogue.
- **Text helpers**: counting words, reading time, truncation, relative time (both the library version and the one in the history list), and the reading-level parser and its grade category.
- **Client-side state**: the file-upload hooks (the main one and the one under `presentation/`), the history list kept in local storage, the analysis settings, the language and theme contexts, and the home page's checks, counter colour and button state.
- **Small display components**: the expandable text, the extracted-text preview, and the repeated-word list.

Services the code calls become function-typed parameters: OpenAI, SearchAPI, the document parsers, `FileReader`, the clock, random ids and local storage.
JavaScript values the code inspects are modelled explicitly:

- `Types.Json` stands for a parsed JSON value.
- `Errors.Thrown` stands for a thrown value.
- `Types.Truthy` gives JavaScript's truthiness for an optional string.
- Strings are `seq<char>`. `Strings` defines the JavaScript string operations the core uses, each with its own contract: `trim`, `split(/\s+/)`, `split(sep)`, `join`, `toLowerCase`, `includes` and integer formatting.

## Model

| member | source | states |
|---|---|---|
| Utils.CountWords | ai-tool/lib/utils.ts:8-11 | The count is 0 exactly when the text is empty or all whitespace. Otherwise it is the number of maximal runs of non-whitespace characters. |
| Utils.CountWordsOfTrim | ai-tool/lib/utils.ts:8-11 | Trimming a text first does not change its word count. |
| Utils.ReadingMinutes | ai-tool/lib/utils.ts:1-6 | At least one minute. It is the least whole number of minutes whose 200 words per minute cover the count. |
| Utils.ReadingTime | ai-tool/lib/utils.ts:1-6 | The same bound, stated for the word count of a text. |
| Utils.ReadingMinutesMonotone | ai-tool/lib/utils.ts:1-6 | More words never give a shorter reading time. |
| Utils.ReadingMinutesBoundary | ai-tool/lib/utils.ts:1-6 | Up to 200 words read in 1 minute; 201 words read in 2. |
| Utils.TruncateText | ai-tool/lib/utils.ts:13-16 | A text no longer than the limit comes back unchanged. A longer one becomes its first maxLength characters, trimmed, followed by "...", so it is never longer than the limit plus three. |
| Errors.StatusOr500 | ai-tool/lib/errors.ts:47-59 | `statusCode \|\| 500` is never 0. It keeps a present non-zero status and is 500 otherwise. |
| Errors.NewAppError | ai-tool/lib/errors.ts:25-37 | The error keeps the message, category, severity and status it is given. It is named AppError and is an instance of AppError and of Error. |
| Errors.NewValidationError | ai-tool/lib/errors.ts:40-45 | VALIDATION, LOW, status 400, named ValidationError. It is an instance of AppError but not of ValidationError. |
| Errors.NewNetworkError | ai-tool/lib/errors.ts:47-52 | NETWORK, HIGH, with the given status when present and non-zero and 500 otherwise, named NetworkError. It is an instance of AppError but not of NetworkError. |
| Errors.NewApiError | ai-tool/lib/errors.ts:54-59 | API, HIGH, with the given status when present and non-zero and 500 otherwise, named ApiError. It is an instance of AppError but not of ApiError. |
| Errors.NewFileError | ai-tool/lib/errors.ts:61-66 | FILE, MEDIUM, status 400, named FileError. It is an instance of AppError but not of FileError. |
| Errors.NewAuthError | ai-tool/lib/errors.ts:68-73 | AUTH, HIGH, status 401, named AuthError. It is an instance of AppError but not of AuthError. |
| Errors.SubclassAttributes | ai-tool/lib/errors.ts:40-73 | ValidationError is VALIDATION/LOW/400. FileError is FILE/MEDIUM/400. AuthError is AUTH/HIGH/401. NetworkError and ApiError are HIGH with the given non-zero status, or 500. |
| Errors.SubclassPrototypes | ai-tool/lib/errors.ts:25-37 | Every subclass instance keeps its message and is an instance of AppError and of Error. Because the base constructor resets the prototype, no instance is `instanceof` its own subclass. |
| Errors.ExtractErrorMessage | ai-tool/lib/errors.ts:85-103 | An Error gives its message. A thrown string is returned unchanged. An object with a string `message` gives that message. Anything else gives the fallback. |
| Errors.AppErrorIsError | ai-tool/lib/errors.ts:85-92 | Every AppError passes `instanceof Error`, so the extraction takes its message. |
| Errors.ClassifyError | ai-tool/lib/errors.ts:113-134 | The category is chosen by the first keyword group the lower-cased message mentions, in order: validation, network, API, file. With none it is UNKNOWN, with no status. The message is kept. Validation errors are LOW and 400, file errors MEDIUM and 400, network and API errors HIGH and 500. |
| Errors.NormalizeError | ai-tool/lib/errors.ts:108-141 | An AppError comes back as it is. An Error is classified by its message. A string becomes an UNKNOWN AppError with that message. Anything else gets the non-empty default message or the generic one. |
| Errors.NormalizeIdempotent | ai-tool/lib/errors.ts:108-111 | Normalising an already normalised error changes nothing, whatever default message is given. |
| Errors.NormalizedMessageAgreesWithExtract | ai-tool/lib/errors.ts:85-141 | Except for objects with a `message` property, the normalised error's message equals the extracted message with the generic fallback. |
| Errors.ValidationWinsOverNetwork | ai-tool/lib/errors.ts:115-123 | "Invalid network" is classified as validation, because that test comes first. |
| ErrorHandler.CreateErrorResponse | ai-tool/lib/errorHandler.ts:13-34 | The response is unsuccessful and carries the normalised error's message. Its status is the normalised status when present and non-zero, and the default status otherwise. It is logged as an error exactly when the status is 500 or more. |
| ErrorHandler.ResponseOfAppError | ai-tool/lib/errorHandler.ts:13-34 | An AppError with a status responds with exactly that status and message. A thrown string falls back to the default status. |
| ErrorHandler.RequireEnvVar | ai-tool/lib/errorHandler.ts:60-71 | A variable is returned exactly when it is set and not blank. Otherwise an API AppError with status 500 names the variable. |
| ErrorMessages.TextTooLong | ai-tool/lib/errorMessages.ts:11 | The message embeds the formatted limit between its fixed prefix and suffix. |
| ErrorMessages.InvalidType | ai-tool/lib/errorMessages.ts:19-20 | The message names the file kind, then lists the allowed extensions in parentheses. |
| ErrorMessages.TooLarge | ai-tool/lib/errorMessages.ts:21-22 | The message starts with the file kind, first letter upper-cased, and ends with the size limit. |
| ErrorMessages.TooLargeImageExample | ai-tool/lib/errorMessages.ts:21-22 | For images the message reads "Image size must be less than 5MB". |
| ErrorMessages.SearchApiError | ai-tool/lib/errorMessages.ts:43 | The message is the fixed prefix followed by the API's error text. |
| FileConstants.LimitsFor | ai-tool/hooks/useFileUpload.ts:43-45 | Images allow 5 MiB and documents 10 MiB, and each size is its megabyte count times 1 MiB. Both kinds have types and extensions. |
| FileConstants.LimitsWellFormed | ai-tool/lib/fileConstants.ts:1-25 | Five image types and four document types, each with one extension, and no duplicates. No MIME type is accepted for both kinds. A document may be twice the size of an image. |
| FileUpload.AllowedExtensionsString | ai-tool/hooks/useFileUpload.ts:47-49 | The list is the extensions joined by ", ". It is the same text up to case and holds no lower-case letter. |
| FileUpload.ImageExtensionsString | ai-tool/hooks/useFileUpload.ts:47-49 | For images the extension list reads "JPG, JPEG, PNG, GIF, WEBP". |
| FileUpload.DocumentExtensionsString | ai-tool/hooks/useFileUpload.ts:47-49 | For documents the list keeps the configured order and reads "PDF, DOC, DOCX, TXT". |
| FileUpload.MaxSizeString | ai-tool/hooks/useFileUpload.ts:51-53 | The limit is shown as its megabyte count in decimal digits followed by "MB". |
| FileUpload.ValidateFileType | ai-tool/hooks/useFileUpload.ts:55-69 | A file is accepted exactly when its MIME type is in the allowed list. A rejection carries the invalid-type message for its kind. |
| FileUpload.ValidateFileSize | ai-tool/hooks/useFileUpload.ts:71-85 | A file is accepted exactly when its size is at most the limit. A rejection carries the too-large message. |
| FileUpload.ValidateFile | ai-tool/hooks/useFileUpload.ts:112-124 | A file is valid exactly when both checks pass. The type error is reported first. |
| FileUpload.InvalidFileHasMessage | ai-tool/hooks/useFileUpload.ts:112-124 | A rejected file always carries a non-empty message. |
| FileUpload.FirstFile | ai-tool/hooks/useFileUpload.ts:87-92 | A non-empty list gives its first file; a missing or empty list gives none. |
| FileUpload.HandleValidFile | ai-tool/hooks/useFileUpload.ts:126-144 | The file is selected and exactly one callback fires. A document succeeds without a preview. An image succeeds with its data URL as the preview when the read loads. Otherwise it reports the corrupted-file error and keeps the old preview. |
| FileUpload.ProcessFile | ai-tool/hooks/useFileUpload.ts:146-160 | An invalid file reports its error and changes nothing. A valid file is selected. The success callback fires exactly for a valid document or a valid image that was read. |
| FileUpload.HandleFileFromList | ai-tool/hooks/useFileUpload.ts:162-170 | An empty or missing list does nothing. Otherwise only the first file is processed. |
| FileUpload.HandleFileSelect | ai-tool/hooks/useFileUpload.ts:172-177 | A missing or empty selection changes nothing. Otherwise the first selected file is processed. The dragging flag is kept. |
| FileUpload.HandleDragEvent | ai-tool/hooks/useFileUpload.ts:179-200 | Only the dragging flag changes. |
| FileUpload.HandleDragOver | ai-tool/hooks/useFileUpload.ts:188-193 | Dragging starts; file and preview are kept. |
| FileUpload.HandleDragLeave | ai-tool/hooks/useFileUpload.ts:195-200 | Dragging ends; file and preview are kept. |
| FileUpload.HandleDrop | ai-tool/hooks/useFileUpload.ts:202-210 | Dragging ends, then the dropped list is handled. |
| FileUpload.ClearFile | ai-tool/hooks/useFileUpload.ts:212-215 | File and preview are cleared; the dragging flag is kept. |
| FileUpload.UploadThenClear | ai-tool/hooks/useFileUpload.ts:146-215 | After a drag and drop of anything, clearing gives back the initial state. A preview is only ever present with a selected file. |
| PresentationFileUpload.ValidateFile | ai-tool/presentation/hooks/useFileUpload.ts:31-56 | A file is valid exactly when its type is allowed and its size within the limit. |
| PresentationFileUpload.ValidateFileAgrees | ai-tool/presentation/hooks/useFileUpload.ts:31-56 | The two hooks' validations agree on every file, messages included. |
| PresentationFileUpload.ProcessFileAsWritten | ai-tool/presentation/hooks/useFileUpload.ts:58-86 | An invalid file reports its error. For a valid image whose read fails, the corrupted-file error and a success with no preview are both reported, and the preview is wiped. |
| PresentationFileUpload.FailedReadAlsoSucceeds | ai-tool/presentation/hooks/useFileUpload.ts:71-80 | A PNG whose read fails gets both callbacks and loses its old preview. The corrected hook reports only the error. |
| PresentationFileUpload.ProcessFile | ai-tool/presentation/hooks/useFileUpload.ts:58-86 | Corrected version: exactly one callback. Success exactly for a valid document or a valid image that was read. A failed read keeps the old preview. |
| PresentationFileUpload.ProcessFileAgrees | ai-tool/presentation/hooks/useFileUpload.ts:58-86 | The corrected version equals the main hook's processing. It differs from the as-written version exactly for a valid image whose read fails. |
| PresentationFileUpload.HandleFiles | ai-tool/presentation/hooks/useFileUpload.ts:88-94 | A missing or empty selection does nothing. Otherwise the first file goes to `processFile`, as written or corrected. |
| PresentationFileUpload.HandleDrop | ai-tool/presentation/hooks/useFileUpload.ts:108-118 | Dragging has ended after a drop. An empty or missing list changes nothing else. Otherwise the first file is processed, as written or corrected. |
| PresentationFileUpload.HandlersAgree | ai-tool/presentation/hooks/useFileUpload.ts:88-118 | With the corrected processing, selecting and dropping equal the main hook's handlers. As written, they differ from them exactly when the first file is a valid image whose read fails. |
| AnalyzeInputs.SelectSource | ai-tool/app/api/analyze/route.ts:314-329 | The source is chosen by the first truthy input, in order: YouTube URL, document with name, image. Otherwise it is the raw text, or "" when none is given. |
| AnalyzeInputs.YouTubeOverridesOtherInputs | ai-tool/app/api/analyze/route.ts:317-320 | With a truthy YouTube URL, the text, image and document fields do not affect the choice. |
| AnalyzeInputs.ValidateText | ai-tool/app/api/analyze/route.ts:331-341 | Blank text fails with the invalid-input error. Text over 50000 characters fails as too long. Text whose trimmed length is under 10 fails as too short. Otherwise the text is accepted unchanged. |
| AnalyzeInputs.ParseYouTubeUrl | ai-tool/app/api/analyze/route.ts:27-28 | A found id is eleven `[A-Za-z0-9_-]` characters. The URL starts with an optional scheme, an optional "www.", one of the two hosts and then that id. |
| AnalyzeInputs.ParseYouTubeUrlComplete | ai-tool/app/api/analyze/route.ts:27-28 | Whenever the URL has that shape, the id is found. |
| AnalyzeInputs.IdStartMatches | ai-tool/app/api/analyze/route.ts:27-28 | The position the prefix scan stops at, followed by eleven id characters, is a match of the pattern. |
| AnalyzeInputs.ShortLinkExample | ai-tool/app/api/analyze/route.ts:27-28 | A short link with a trailing query yields its id. |
| AnalyzeInputs.BareIdRejected | ai-tool/app/api/analyze/route.ts:35-38 | A bare id without a host is rejected. |
| AnalyzeInputs.DataUrlPayload | ai-tool/app/api/analyze/route.ts:107-109 | Data without a comma is taken whole. Otherwise the payload is the text between the first and second comma. |
| AnalyzeInputs.Extension | ai-tool/app/api/analyze/route.ts:112-116 | The extension is the lower-cased text after the last dot, or the whole name when it has no dot. |
| AnalyzeInputs.ExtensionOfDottedName | ai-tool/app/api/analyze/route.ts:112-116 | `base.ext` with a dot-free `ext` has the extension `ext` lower-cased. |
| AnalyzeRoute.NonEmptyTexts | ai-tool/app/api/analyze/route.ts:62-65 | Only non-empty texts are kept. Each comes from some segment, and every truthy segment text is kept. |
| AnalyzeRoute.JoinTranscript | ai-tool/app/api/analyze/route.ts:62-65 | The transcript is empty exactly when no segment has a truthy text. |
| AnalyzeRoute.JoinTranscriptBlank | ai-tool/app/api/analyze/route.ts:62-69 | The joined transcript is blank exactly when every truthy segment text is blank. |
| AnalyzeRoute.JoinTranscriptSplits | ai-tool/app/api/analyze/route.ts:62-65 | When no segment text contains a space, splitting the joined transcript on spaces gives back the non-empty texts. |
| AnalyzeRoute.TranscriptTry | ai-tool/app/api/analyze/route.ts:57-71 | A missing or empty transcript list throws the no-transcript error. A blank join throws the empty-transcript error. Otherwise the join is returned. A request failure is passed on. |
| AnalyzeRoute.SearchFailure | ai-tool/app/api/analyze/route.ts:78-99 | A timeout becomes the timeout NetworkError. A 401, a 403 or an API error text becomes an ApiError with status 500 and its message. Everything else becomes the fetch-failed NetworkError. |
| AnalyzeRoute.CatchTranscriptErrorAsWritten | ai-tool/app/api/analyze/route.ts:72-100 | Every AppError built by the route carries AppError's prototype, so it fails the `instanceof ValidationError` test and is re-classified as a search failure. |
| AnalyzeRoute.CatchTranscriptError | ai-tool/app/api/analyze/route.ts:72-100 | Corrected version: a ValidationError passes through; anything else is classified as a search failure. |
| AnalyzeRoute.FetchTranscriptWith | ai-tool/app/api/analyze/route.ts:34-101 | A URL the pattern rejects fails with the invalid-URL error. A missing key fails with the key's error. A failed search is passed through the selected catch block. A success is the transcript for the parsed id and is never blank. Every failure is an AppError the route maps to 400 or 500. |
| AnalyzeRoute.FetchTranscriptAsWritten | ai-tool/app/api/analyze/route.ts:34-101 | As written, a rejected URL fails with the invalid-URL error. A thrown search becomes its search-failure mapping. A response without a usable transcript becomes the fetch-failed NetworkError. Every failure maps to 400 or 500. |
| AnalyzeRoute.FetchTranscript | ai-tool/app/api/analyze/route.ts:34-101 | Corrected version: a response without transcripts fails with the no-transcript ValidationError. |
| AnalyzeRoute.TranscriptErrorRewrapped | ai-tool/app/api/analyze/route.ts:72-76 | For an empty transcript list the as-written fetch fails with the fetch-failed NetworkError and status 500. The corrected one fails with the no-transcript error and status 400. |
| AnalyzeRoute.TranscriptVersionsAgreeOtherwise | ai-tool/app/api/analyze/route.ts:72-100 | The two versions agree whenever the corrected one succeeds or fails with something other than a ValidationError. |
| AnalyzeRoute.ExtractByExtension | ai-tool/app/api/analyze/route.ts:118-147 | An unsupported extension fails. `txt` is decoded as UTF-8. `docx` and `doc` give mammoth's text; a `doc` it cannot read gets its own message, while a `docx` failure is passed on. A parsed `pdf` gives the non-empty item texts joined by spaces; a parser failure is passed on. |
| AnalyzeRoute.ExtractDocumentText | ai-tool/app/api/analyze/route.ts:103-154 | A name without an extension fails as unknown type. An unsupported extension fails as unsupported. Extracted blank text fails as no text. A success is non-blank text from a supported extension. |
| AnalyzeRoute.ImageTry | ai-tool/app/api/analyze/route.ts:178-185 | The trimmed answer is returned. An empty answer or "NO_TEXT_FOUND" throws the no-text FileError. A failed call is passed on. |
| AnalyzeRoute.CatchImageErrorAsWritten | ai-tool/app/api/analyze/route.ts:186-192 | Every AppError fails the `instanceof FileError` test, so every failure becomes the vision-failed ApiError. |
| AnalyzeRoute.CatchImageError | ai-tool/app/api/analyze/route.ts:186-192 | Corrected version: a FileError passes through; anything else becomes the vision-failed ApiError. |
| AnalyzeRoute.ExtractImageTextWith | ai-tool/app/api/analyze/route.ts:156-193 | It succeeds exactly when the vision answer holds text. The result is then that answer, never blank and never the sentinel. Every failure is an AppError the route maps to 400 or 500. |
| AnalyzeRoute.ExtractImageTextAsWritten | ai-tool/app/api/analyze/route.ts:156-193 | As written, every failure is the vision-failed ApiError. |
| AnalyzeRoute.ExtractImageText | ai-tool/app/api/analyze/route.ts:156-193 | Corrected version: a failed call gives the vision-failed ApiError. An answer without text gives the no-text FileError. |
| AnalyzeRoute.ImageErrorRewrapped | ai-tool/app/api/analyze/route.ts:186-191 | For a "NO_TEXT_FOUND" answer the as-written route responds 500 with the vision error. The corrected one responds 400 with the no-text error. |
| AnalyzeRoute.BuildAnalysisResult | ai-tool/app/api/analyze/route.ts:270-299 | A `null` answer throws. Otherwise the word count comes from the text. Each model field is used unless missing or null, in which case its fallback is used. The reading time falls back to the computed one, and key points to an empty list. Statistics come from the text. |
| AnalyzeRoute.NonObjectAnswerUsesFallbacks | ai-tool/app/api/analyze/route.ts:274-290 | An answer that is not an object gets every fallback. |
| AnalyzeRoute.AnswerRoundTrip | ai-tool/app/api/analyze/route.ts:270-290 | An answer of the shape the prompt asks for comes through unchanged: summary, key points, explanation, reading time and level. |
| AnalyzeRoute.RequestSettings | ai-tool/app/api/analyze/route.ts:310-311 | A missing length defaults to medium and a missing style to casual. Given values are kept. |
| AnalyzeRoute.SourceText | ai-tool/app/api/analyze/route.ts:317-329 | Raw text is used as it is. A URL gives the transcript fetch, a named document its extracted text, an image its extracted text. Any failure maps to 400 or 500. |
| AnalyzeRoute.CheckedText | ai-tool/app/api/analyze/route.ts:331-343 | A source failure is passed on. Then a validation failure, then a missing OpenAI key. It succeeds exactly when both checks pass, with the source's text unchanged: non-blank, at most 50000 characters, at least 10 after trimming. |
| AnalyzeRoute.AnalyzeSource | ai-tool/app/api/analyze/route.ts:314-387 | A failure of the checks or of the analysis is passed on. A success is the analysis of the checked text, with at least one word, and it returns that text exactly when the source is not raw text. |
| AnalyzeRoute.AnalyzeText | ai-tool/app/api/analyze/route.ts:345-378 | A thrown request is passed on. A missing or empty answer fails with the no-response ApiError, an unparsable one with the invalid-JSON ValidationError. Otherwise the result is built from the parsed answer, with at least one word. Failures map to 400 or 500. |
| AnalyzeRoute.Post | ai-tool/app/api/analyze/route.ts:301-396 | Corrected version: success is exactly status 200 with data of at least one word. A failure is 400 or 500 with a message and no data. |
| AnalyzeRoute.PostWith | ai-tool/app/api/analyze/route.ts:301-396 | A body that is not JSON fails with its normalised message. Otherwise the response succeeds exactly when the analysis does, with its result and extracted text. A failure responds with the error response's status and message. Success is exactly status 200; failures are 400 or 500 with no data. |
| AnalyzeRoute.PostAsWritten | ai-tool/app/api/analyze/route.ts:301-396 | As written: success is exactly status 200 with data of at least one word. A failure is 400 or 500 with a message and no data. |
| AnalyzeRoute.RawTextAnswered | ai-tool/app/api/analyze/route.ts:314-387 | Valid raw text with the key and a parsable non-null answer responds 200 with the result built from that answer and no extracted text. |
| AnalyzeRoute.EmptyTranscriptResponses | ai-tool/app/api/analyze/route.ts:57-76 | A video whose search returns no transcripts gets 400 from the corrected route and 500 from the route as written. |
| AnalyzeRoute.RouteErrorStatus | ai-tool/app/api/analyze/route.ts:388-395 | Every failure the route produces responds with 400 or 500. |
| AnalyzeRoute.MissingOpenAiKey | ai-tool/app/api/analyze/route.ts:343 | Valid raw text without the OpenAI key responds 500, naming the missing variable. |
| AnalyzeRoute.InvalidRawText | ai-tool/app/api/analyze/route.ts:331-341 | Invalid raw text responds 400 with the validation message, whatever the services do. |
| AnalyzeRoute.PostIgnoresOtherInputsForYouTube | ai-tool/app/api/analyze/route.ts:317-329 | With a YouTube URL, the text, image and document fields do not change the response. |
| ReadingComplexity.DigitRunEnd | ai-tool/components/shared/ReadingComplexityChart.tsx:14 | Finds the end of the maximal run of digits at a position, which `\d+` consumes. |
| ReadingComplexity.OrdinalGradeMatchUnique | ai-tool/components/shared/ReadingComplexityChart.tsx:14 | Every way the first alternative matches takes the whole digit run, the suffix when one follows, and all the whitespace. |
| ReadingComplexity.OrdinalGradeAtIsRegexMatch | ai-tool/components/shared/ReadingComplexityChart.tsx:14 | The first alternative finds digits exactly when digits, an optional ordinal suffix, optional whitespace and "grade", ignoring case, match there. Every such match captures the same digits. |
| ReadingComplexity.GradeNumberAtIsRegexMatch | ai-tool/components/shared/ReadingComplexityChart.tsx:14 | The second alternative finds digits exactly when "grade", optional whitespace and digits match there. Every match starts its digits at the same place, and the capture is the longest one. |
| ReadingComplexity.GradePatternFrom | ai-tool/components/shared/ReadingComplexityChart.tsx:14-16 | The result is the match at the leftmost position where the pattern matches. With no such position there is none. |
| ReadingComplexity.NoDigitsNoGradePattern | ai-tool/components/shared/ReadingComplexityChart.tsx:14 | A text without digits never matches the grade pattern. |
| ReadingComplexity.FirstKeyword | ai-tool/components/shared/ReadingComplexityChart.tsx:24-39 | Finds the first keyword in table order that the text contains. None exactly when it contains no keyword. |
| ReadingComplexity.FirstNumber | ai-tool/components/shared/ReadingComplexityChart.tsx:42-51 | Finds a number exactly when the text has a digit. It is the whole digit run that starts at the first digit. |
| ReadingComplexity.ParseReadingLevel | ai-tool/components/shared/ReadingComplexityChart.tsx:12-52 | The grade pattern wins, then the first keyword. Then the first number if it is at most 20, otherwise 10. A grade above 20 comes only from the grade pattern. |
| ReadingComplexity.GraduateWithoutNumber | ai-tool/components/shared/ReadingComplexityChart.tsx:24-39 | A digit-free level mentioning "graduate" is grade 18. |
| ReadingComplexity.TwentyFifthGrade | ai-tool/components/shared/ReadingComplexityChart.tsx:14-20 | "25th grade" gives 25, above the cap for bare numbers. |
| ReadingComplexity.LetterlessLevel | ai-tool/components/shared/ReadingComplexityChart.tsx:42-51 | A level without letters matches neither the pattern nor a keyword. Its grade is its first number if that is at most 20, otherwise 10. |
| ReadingComplexity.BareSeven | ai-tool/components/shared/ReadingComplexityChart.tsx:42-51 | "7" is grade 7. |
| ReadingComplexity.BareEightHundredFifty | ai-tool/components/shared/ReadingComplexityChart.tsx:42-51 | "850" is above 20 and falls back to grade 10. |
| ReadingComplexity.GradeCategory | ai-tool/components/shared/ReadingComplexityChart.tsx:55-61 | The five categories split the grades at 5, 8, 12 and 16. |
| ReadingComplexity.GradeCategoryMonotone | ai-tool/components/shared/ReadingComplexityChart.tsx:55-61 | A higher grade never falls into a lower category. |
| ReadingComplexity.Percentage | ai-tool/components/shared/ReadingComplexityChart.tsx:133-134 | The bar is 5% per grade, capped at 100%. |
| DateUtils.BucketOf | ai-tool/lib/dateUtils.ts:12-26 | Each bucket is exactly an interval of the elapsed time: under a minute, hour, day or week, or older. The count is the elapsed time in the bucket's unit. |
| DateUtils.FloorSteps | ai-tool/lib/dateUtils.ts:14-18 | Flooring seconds, minutes and hours in steps equals flooring once by the whole unit. |
| DateUtils.Translate | ai-tool/lib/dateUtils.ts:20-26 | A present, non-empty translation is used. Otherwise the English text is used. |
| DateUtils.FormatRelativeTime | ai-tool/lib/dateUtils.ts:12-30 | Within each interval, a count of one shows the singular phrase alone. Larger counts show the number and the plural phrase. A week or more shows the date. |
| DateUtils.EnglishDefaults | ai-tool/lib/dateUtils.ts:20-26 | Without translations, 90 seconds reads "minute ago" and three hours reads "3 hours ago". |
| AnalysisHistoryView.CountAgo | ai-tool/components/AnalysisHistory.tsx:17-19 | The count, the unit, an "s" when the count exceeds one, and "ago". |
| AnalysisHistoryView.FormatRelativeTime | ai-tool/components/AnalysisHistory.tsx:8-23 | The history list's own formatter uses the same intervals as the library one, with its own wording. |
| AnalysisHistoryView.FormattersAgreeOnPlurals | ai-tool/components/AnalysisHistory.tsx:8-23 | The two formatters give the same text exactly when the count is not one. |
| AnalysisHistoryView.InputPreview | ai-tool/components/AnalysisHistory.tsx:64-78 | Text shows at most 100 characters plus "...". Otherwise the document name, URL, "Image" or a placeholder is shown, and the preview is never empty. |
| AnalysisHistory.AddToHistory | ai-tool/hooks/useAnalysisHistory.ts:66-96 | The new entry comes first. Then come the older entries in order, cut so the list holds at most 50. |
| AnalysisHistory.RemoveFromHistory | ai-tool/hooks/useAnalysisHistory.ts:98-100 | No entry with the id is left, and the list never grows. |
| AnalysisHistory.RemoveKeepsOthers | ai-tool/hooks/useAnalysisHistory.ts:98-100 | An entry survives exactly when it was present and has another id. |
| AnalysisHistory.RemoveAbsentId | ai-tool/hooks/useAnalysisHistory.ts:98-100 | Removing an id that is not present changes nothing. |
| AnalysisHistory.RemoveDistributes | ai-tool/hooks/useAnalysisHistory.ts:98-100 | Removal distributes over concatenation, so order is kept. |
| AnalysisHistory.ClearIsRemovingEveryEntry | ai-tool/hooks/useAnalysisHistory.ts:98-104 | Clearing the history gives the same list as removing each of its entries' ids in turn. |
| AnalysisHistory.AddAfterClear | ai-tool/hooks/useAnalysisHistory.ts:66-104 | After clearing, an addition leaves exactly the new entry. |
| AnalysisHistory.AddThenRemove | ai-tool/hooks/useAnalysisHistory.ts:66-100 | Adding an entry with a fresh id to a list below the cap and then removing it gives back the list. |
| AnalysisHistory.LoadFromHistory | ai-tool/hooks/useAnalysisHistory.ts:106-117 | Loading an entry restores its mode, input, settings, result and extracted text. |
| AnalysisHistory.LoadAfterAdd | ai-tool/hooks/useAnalysisHistory.ts:66-117 | Loading the newest entry restores exactly what was added. |
| AnalysisHistory.LoadStored | ai-tool/hooks/useAnalysisHistory.ts:43-55 | Stored data is used exactly when it is present and parses to an array. |
| TopWords.Repeated | ai-tool/components/shared/TopWordsModal.tsx:18 | Only words counted more than once are kept. |
| TopWords.RepeatedKeeps | ai-tool/components/shared/TopWordsModal.tsx:18 | A word is kept exactly when it is present with a count above one. |
| TopWords.RepeatedDistributes | ai-tool/components/shared/TopWordsModal.tsx:18 | Filtering distributes over concatenation, so order is kept. |
| TopWords.Show | ai-tool/components/shared/TopWordsModal.tsx:18-109 | The empty state shows exactly when no word repeats. Otherwise the first repeated words, at most 15, are shown ranked. |
| TopWords.ShownRowsAreRepeated | ai-tool/components/shared/TopWordsModal.tsx:86-109 | Every row shows its rank and a repeated word from the list. |
| ExtractedTextPreview.Preview | ai-tool/components/shared/ExtractedTextPreview.tsx:29-30 | Text within the limit is shown whole. Longer text shows its first maxLength characters followed by "...". |
| ExtractedTextPreview.PreviewAgreesWithTruncateIff | ai-tool/components/shared/ExtractedTextPreview.tsx:29-30 | For long text the preview equals `truncateText` exactly when the cut needs no trimming. |
| ExpandableText.Render | ai-tool/components/shared/ExpandableText.tsx:18-34 | Text within the limit is shown plainly. Longer text is whole when expanded; when collapsed it is its first limit characters followed by "...". |
| ExpandableText.Click | ai-tool/components/shared/ExpandableText.tsx:32 | A click flips the expanded flag. |
| ExpandableText.ClickTwiceRestores | ai-tool/components/shared/ExpandableText.tsx:32-34 | Two clicks give back the same rendering. |
| ExpandableText.CollapsedIsPreview | ai-tool/components/shared/ExpandableText.tsx:34 | The collapsed rendering is the extracted-text preview. |
| HomePage.ClientCheck | ai-tool/app/page.tsx:22-35 | Blank text gets the prompt. Text over 5000 characters is too long. Under 10 characters after trimming is too short. Otherwise it passes. |
| HomePage.StartAnalyze | ai-tool/app/page.tsx:16-37 | A request is sent exactly when the check passes: loading starts and the error is cleared. Otherwise only the error is set. The result is cleared either way. |
| HomePage.FinishAnalyze | ai-tool/app/page.tsx:39-59 | Loading ends. A success stores the data. A failure shows the server's message or "Analysis failed". A thrown error shows its message or the generic one. |
| HomePage.ClientStricterThanServer | ai-tool/app/page.tsx:22-35 | Every text the page accepts is accepted unchanged by the route's validation. |
| HomePage.ShortTextSameMessage | ai-tool/app/page.tsx:32-35 | A text the page rejects as too short is rejected by the route with the same message. |
| HomePage.TriggersAnalyze | ai-tool/app/page.tsx:62-67 | Analysis starts exactly on Enter with Ctrl or Meta held. |
| HomePage.CounterColourOf | ai-tool/app/page.tsx:71-76 | Red above 5000 characters, orange above 4500, neutral otherwise. |
| HomePage.CounterColourMonotone | ai-tool/app/page.tsx:71-76 | A longer text never shows a milder colour. |
| HomePage.ButtonDisabled | ai-tool/app/page.tsx:132 | The button is enabled exactly when not loading and the text is not blank. |
| HomePage.EnabledButtonPassesBlankCheck | ai-tool/app/page.tsx:132 | Pressing an enabled button never yields the empty-text prompt. |
| LanguageContext.BrowserLanguage | ai-tool/contexts/LanguageContext.tsx:30-37 | The part of the browser language before the first "-" is used when supported, otherwise English. The result is always supported. |
| LanguageContext.StoredLanguage | ai-tool/contexts/LanguageContext.tsx:39-44 | Outside a browser nothing is stored. |
| LanguageContext.InitialLanguage | ai-tool/contexts/LanguageContext.tsx:21-27 | A truthy stored language wins, then the browser's. On the server it is English. |
| LanguageContext.SetLanguage | ai-tool/contexts/LanguageContext.tsx:46-59 | The language is set, and in a browser it is stored. |
| LanguageContext.SetLanguageSurvivesReload | ai-tool/contexts/LanguageContext.tsx:21-59 | A language set in a browser is the initial language after a reload. |
| LanguageContext.RegionIsDropped | ai-tool/contexts/LanguageContext.tsx:30-37 | "de-AT" gives "de". |
| LanguageContext.CaseMatters | ai-tool/contexts/LanguageContext.tsx:30-37 | "DE" is not recognised and gives "en". |
| ThemeContext.BeforeMount | ai-tool/contexts/ThemeContext.tsx:15 | Before mounting the theme is light. |
| ThemeContext.Mount | ai-tool/contexts/ThemeContext.tsx:18-30 | Mounting adopts a truthy stored theme, otherwise the system preference. The dark class and storage are untouched. |
| ThemeContext.Toggle | ai-tool/contexts/ThemeContext.tsx:32-45 | Light becomes dark and anything else light. In a browser the new theme is stored and the dark class follows it. |
| ThemeContext.ToggleTwiceRestores | ai-tool/contexts/ThemeContext.tsx:32-45 | Toggling twice restores a light or dark theme. |
| ThemeContext.ToggledThemeSurvivesReload | ai-tool/contexts/ThemeContext.tsx:18-45 | A toggled theme is the mounted theme after a reload. |
| AnalysisSettings.FindLabel | ai-tool/components/AnalysisSettings.tsx:87-88 | A label is found exactly when some option has the value. It is the label of the first such option, as `find` returns. |
| AnalysisSettings.TablesCoverEveryValue | ai-tool/components/AnalysisSettings.tsx:20-30 | Every typed length and style has a label, and no value is listed twice. |
| AnalysisSettings.ChangeSummaryLength | ai-tool/components/AnalysisSettings.tsx:56-58 | The length changes, the style is kept, and the new settings are stored. |
| AnalysisSettings.ChangeAnalysisStyle | ai-tool/components/AnalysisSettings.tsx:60-62 | The style changes, the length is kept, and the new settings are stored. |
| AnalysisSettings.ChangesCommute | ai-tool/components/AnalysisSettings.tsx:56-62 | Changing the length and the style in either order gives the same panel. |
| AnalysisSettings.LoadSaved | ai-tool/components/AnalysisSettings.tsx:39-49 | Saved settings are used exactly when present and parseable. |

## Left out

- The services are parameters and not modelled: OpenAI chat and vision, SearchAPI over axios, mammoth, pdfreader, Buffer's base64 and UTF-8 decoding, and FileReader. Only the values they return or throw are modelled.
- The statistics helpers beside the route (ai-tool/app/api/analyze/route.ts:6-13) are not modelled. They count speaking time and similar figures from the text and are not part of the route's control flow here.
- `buildPrompt` and `translateDescription` are not modelled: they assemble free text for the model, and no property of theirs is observable here.
- Number and date formatting by locale is left out. `formatCount` and the `toLocaleString` calls are fixed to the English grouping ("50,000", "5,000"). `toLocaleDateString`, `formatDate` and `formatDateTime` (ai-tool/lib/dateUtils.ts:38-50) are represented by the `LocaleDate` marker.
- ReadingComplexity.Percentage: computed over exact reals rather than IEEE doubles. The page's `charPercentage` (ai-tool/app/page.tsx:70) is a display width only and is left out.
- Strings are sequences of Unicode scalar values, not UTF-16 code units. `length` and `substring` therefore differ from JavaScript for characters outside the Basic Multilingual Plane.
- Strings.ToLower: only ASCII letters change case; JavaScript's `toLowerCase` and `toUpperCase` also map other letters.
- ReadingComplexity.ParseReadingLevel: reads the exact value of a digit run, whereas JavaScript's `parseInt` loses precision beyond about 15 digits.
- `Types.Json` numbers are whole numbers; fractional numbers in the model's answer are not modelled.
- `logError`, `handleError`, `withErrorHandler` and the `originalError` field are not modelled. They only log or wrap.
- Local storage (ai-tool/lib/storage.ts) is modelled as already-decoded values: writes as the stored value, reads as an optional value. The storage exceptions it swallows are not modelled.
- The order of FileReader events beyond error-then-loadend is not modelled.
- A transcript segment is an optional text, so a `null` segment cannot be represented. In the source, reading `.text` of a `null` segment throws a TypeError inside the `try`, which the catch block turns into the fetch-failed NetworkError.
- The clock (`Date.now`) and the random ids of history entries are parameters.
- `getInputModeIcon` and the rendering of the components are not modelled: they produce markup only.
- The presentation hook's drag-over, drag-leave and `clearFile` (ai-tool/presentation/hooks/useFileUpload.ts:96-106 and 120-123) make the same state changes as the main hook's. They are covered by FileUpload.HandleDragEvent and FileUpload.ClearFile rather than modelled twice.
- `preventDefault` and `stopPropagation` on drag events are not modelled; only the state changes are.
- ThemeContext.Mount: like the source, mounting adopts a stored theme without adding the dark class to the document; only toggling sets it.
- Stored theme and language values are used as read, without checking that they name a known theme or a supported language, as in the source.
- Stored settings and history entries are not carried into the typed state. The source passes any parsed settings JSON up unchecked (ai-tool/components/AnalysisSettings.tsx:41-48) and adopts any parsed array as the history (ai-tool/hooks/useAnalysisHistory.ts:46-50). AnalysisSettings.LoadSaved and AnalysisHistory.LoadStored return that JSON, but Panel and the history list hold only well-formed Settings and HistoryEntry values. So the model does not cover what happens after a malformed value is adopted. For example, a saved `{"summaryLength":"huge"}` has no label in the panel header, and after a saved `5` a length change leaves no style.
- Request fields of the wrong JSON type are not representable: every field of AnalyzeInputs.AnalyzeRequest is an optional string. In the source, a body such as `{"text": 5}` or `{"youtubeUrl": true}` makes `trim` or `match` throw a TypeError inside the `try`, and `createErrorResponse` answers it with status 500 (ai-tool/app/api/analyze/route.ts:314-337 and 388-395).
- The OpenAI client is built when the module loads, from `process.env.OPENAI_API_KEY` (ai-tool/app/api/analyze/route.ts:30-32), outside `POST`. The model only has the `requireEnvVar` check inside the handler (route.ts:343, AnalyzeRoute.MissingOpenAiKey). Whether the client's constructor itself rejects a missing key depends on the OpenAI library, which is not part of this model.

## Findings

| source | as written | input that shows it | evidently intended | confidence | as-written member | corrected member |
|---|---|---|---|---|---|---|
| ai-tool/app/api/analyze/route.ts:72-76 | The catch rethrows an error only when it is `instanceof ValidationError`. The base constructor resets every instance's prototype to `AppError.prototype` (ai-tool/lib/errors.ts:35), so the test never holds. The no-transcript and empty-transcript errors thrown inside the try therefore become the fetch-failed NetworkError with status 500. | SearchAPI answers with `transcripts: []` | The no-transcript ValidationError reaches the client with status 400. | not executed | AnalyzeRoute.TranscriptErrorRewrapped | AnalyzeRoute.FetchTranscript |
| ai-tool/app/api/analyze/route.ts:186-191 | The catch rethrows only errors that are `instanceof FileError`, which for the same reason never holds. The no-text FileError thrown inside the try becomes the vision-failed ApiError with status 500. | The vision model answers "NO_TEXT_FOUND" | The no-text FileError reaches the client with status 400. | not executed | AnalyzeRoute.ImageErrorRewrapped | AnalyzeRoute.ExtractImageText |
| ai-tool/presentation/hooks/useFileUpload.ts:71-80 | `onerror` reports the corrupted file. A failed read also fires `loadend`, whose handler reports a success with a null result and wipes the preview. | A valid PNG whose read fails | Only the corrupted-file error is reported, and the preview is kept. | not executed | PresentationFileUpload.FailedReadAlsoSucceeds | PresentationFileUpload.ProcessFile |
