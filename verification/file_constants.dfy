/** The upload limits of ai-tool/lib/fileConstants.ts. */
module FileConstants {

  /** The two kinds of upload the hooks accept; `'image' | 'document'`. */
  datatype FileKind = Image | Document

  /** The name a kind has in messages: `fileType` itself. */
  function KindName(k: FileKind): (n: string)
    ensures n == "image" <==> k == Image
    ensures n == "document" <==> k == Document
  {
    match k
    case Image => "image"
    case Document => "document"
  }

  datatype FileLimits = FileLimits(
    maxSize: nat,
    maxSizeMb: nat,
    allowedTypes: seq<string>,
    allowedExtensions: seq<string>)

  const Mebibyte: nat := 1024 * 1024

  const ImageLimits := FileLimits(
    5 * Mebibyte,
    5,
    ["image/jpeg", "image/jpg", "image/png", "image/gif", "image/webp"],
    ["jpg", "jpeg", "png", "gif", "webp"])

  const DocumentLimits := FileLimits(
    10 * Mebibyte,
    10,
    ["application/pdf",
     "application/msword",
     "application/vnd.openxmlformats-officedocument.wordprocessingml.document",
     "text/plain"],
    ["pdf", "doc", "docx", "txt"])

  /** `getFileLimits`: images get the image limits, everything else the
      document limits. */
  function LimitsFor(k: FileKind): (l: FileLimits)
    ensures l.maxSize == l.maxSizeMb * Mebibyte
    ensures k == Image ==> l.maxSize == 5_242_880 && "image/png" in l.allowedTypes
    ensures k == Document ==> l.maxSize == 10_485_760 && "application/pdf" in l.allowedTypes
    ensures |l.allowedTypes| > 0 && |l.allowedExtensions| > 0
  {
    if k == Image then ImageLimits else DocumentLimits
  }

  /** No entry is listed twice. */
  predicate Distinct(xs: seq<string>) {
    forall i, j :: 0 <= i < j < |xs| ==> xs[i] != xs[j]
  }

  /** Each table lists distinct MIME types, one extension per MIME type; no
      MIME type is accepted for both kinds, and a document may be twice the
      size of an image. */
  lemma LimitsWellFormed()
    ensures |ImageLimits.allowedTypes| == |ImageLimits.allowedExtensions| == 5
    ensures |DocumentLimits.allowedTypes| == |DocumentLimits.allowedExtensions| == 4
    ensures Distinct(ImageLimits.allowedTypes) && Distinct(DocumentLimits.allowedTypes)
    ensures Distinct(ImageLimits.allowedExtensions) && Distinct(DocumentLimits.allowedExtensions)
    ensures forall t :: t in ImageLimits.allowedTypes ==> t !in DocumentLimits.allowedTypes
    ensures ImageLimits.maxSize < DocumentLimits.maxSize == 2 * ImageLimits.maxSize
  {
  }
}
