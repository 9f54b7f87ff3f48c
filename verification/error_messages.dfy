/** The user-facing message catalogue of ai-tool/lib/errorMessages.ts: fixed
    strings and the three message builders. */
module ErrorMessages {
  import opened Strings

  // VALIDATION
  const RequiredInput := "Please enter some text, upload an image, upload a document, or provide a YouTube URL to analyze"
  const TextTooShort := "Text is too short. Please provide at least 10 characters."
  const InvalidYouTubeUrlHint := "Please enter a valid YouTube URL (e.g., https://www.youtube.com/watch?v=...)"
  const InvalidJson := "Invalid JSON in request body"
  const InvalidInput := "Invalid input: text or a valid media source is required"

  // FILE
  const Corrupted := "The file appears to be corrupted or cannot be read. Please try a different file."
  const NoTextExtracted := "No text could be extracted from the document. The document may be empty or corrupted."
  const UnsupportedFormat := "Unsupported document format. Please use PDF, DOCX, or TXT."
  const LegacyDocUnsupported := "Legacy .doc format is not fully supported. Please convert to .docx or use PDF."
  const NoTextInImage := "No text was found in the uploaded image. Please upload an image containing text."

  // NETWORK
  const NetworkTimeout := "Request timeout. The operation is taking too long."
  const ConnectionFailed := "Connection failed. Please check your internet connection and try again."
  const NetworkFetchFailed := "Failed to fetch data. Please try again."

  // API
  const OpenAiNotConfigured := "OpenAI API key is not configured"
  const SearchApiNotConfigured := "SearchAPI key is not configured. Please add SEARCHAPI_API_KEY to your .env file."
  const SearchApiInvalidKey := "Invalid SearchAPI key. Please check your API key configuration."
  const SearchApiAccessDenied := "SearchAPI access denied. Please check your API key or account status."
  const NoResponse := "No response from the server. Please try again."
  const AnalysisFailed := "Analysis failed. Please try again."
  const VisionApiFailed := "Failed to process the image. Please try again or enter text manually."

  // YOUTUBE
  const YouTubeInvalidUrl := "Invalid YouTube URL. Please provide a valid YouTube video URL."
  const NoTranscript := "No transcript found for this video. The video may not have captions available."
  const EmptyTranscript := "Transcript is empty. The video may not have valid captions."
  const YouTubeFetchFailed := "Failed to fetch YouTube transcript. Please ensure the video has captions available."
  const YouTubeTimeout := "Request timeout. The video transcript is taking too long to fetch."

  // DOCUMENT
  const UnknownDocumentType := "Unable to determine document type. Please provide a valid file."
  const ExtractionFailed := "Failed to extract text from document. Please ensure the document is not corrupted."

  // GENERIC
  const Unexpected := "An unexpected error occurred. Please try again."
  const UnknownError := "An unknown error occurred."

  /** `TEXT_TOO_LONG(maxChars)`, given the locale rendering of `maxChars`
      (`toLocaleString` is left to the caller). */
  function TextTooLong(formattedMax: string): (m: string)
    ensures |m| == 42 + |formattedMax|
    ensures m[..31] == "Text exceeds maximum length of " && m[|m| - 11..] == " characters"
    ensures m[31..|m| - 11] == formattedMax
  {
    "Text exceeds maximum length of " + formattedMax + " characters"
  }

  /** `INVALID_TYPE(fileType, allowedTypes)`: both arguments appear verbatim,
      the file type after "Please upload a valid " and the list inside the
      parentheses that close the message. */
  function InvalidType(fileType: string, allowedTypes: string): (m: string)
    ensures |m| == 30 + |fileType| + |allowedTypes|
    ensures m[..22] == "Please upload a valid " && m[22..22 + |fileType|] == fileType
    ensures m[22 + |fileType|..29 + |fileType|] == " file ("
    ensures m[29 + |fileType|..|m| - 1] == allowedTypes && m[|m| - 1] == ')'
  {
    "Please upload a valid " + fileType + " file (" + allowedTypes + ")"
  }

  /** `fileType.charAt(0).toUpperCase() + fileType.slice(1)` */
  function Capitalize(s: string): (r: string)
    ensures |r| == |s|
    ensures s != [] ==> r[0] == UpperChar(s[0]) && r[1..] == s[1..]
  {
    if s == [] then [] else [UpperChar(s[0])] + s[1..]
  }

  /** `TOO_LARGE(fileType, maxSize)`: only the first character of the file
      type is upper-cased; the rest of it and the size are kept verbatim. */
  function TooLarge(fileType: string, maxSize: string): (m: string)
    ensures |m| == |fileType| + 24 + |maxSize|
    ensures fileType != [] ==> m[0] == UpperChar(fileType[0]) && m[1..|fileType|] == fileType[1..]
    ensures m[|fileType|..|fileType| + 24] == " size must be less than "
    ensures m[|fileType| + 24..] == maxSize
  {
    Capitalize(fileType) + " size must be less than " + maxSize
  }

  /** `SEARCHAPI_ERROR(error)` */
  function SearchApiError(error: string): (m: string)
    ensures |m| == 17 + |error|
    ensures m[..17] == "SearchAPI error: " && m[17..] == error
  {
    "SearchAPI error: " + error
  }

  lemma CapitalizeImage()
    ensures Capitalize("image") == "Image"
  {
    assert UpperChar('i') == 'I';
    assert "image"[1..] == "mage";
  }

  lemma TooLargeImageExample()
    ensures TooLarge("image", "5MB") == "Image size must be less than 5MB"
  {
    CapitalizeImage();
  }
}
