/** The shared records of ai-tool/types/index.ts and the settings and history
    types the hooks exchange. A value parsed from JSON is kept as `Json`,
    because the route copies whatever the language model returned. */
module Types {
  import opened Wrappers

  /** A parsed JSON value. Numbers are whole. */
  datatype Json =
    | JNull
    | JBool(b: bool)
    | JNumber(n: int)
    | JString(s: string)
    | JArray(items: seq<Json>)
    | JObject(fields: map<string, Json>)

  datatype WordCount = WordCount(word: string, count: int)

  /** The figures the route takes from the statistics helpers, whose bodies
      are not part of this model. */
  datatype TextStats = TextStats(
    speakingTime: int,
    uniqueWords: int,
    averageSentenceLength: int,
    topWords: seq<WordCount>)

  /** `AnalysisResult`. The fields copied from the model's answer keep the
      JSON value it gave; the rest are computed locally. */
  datatype AnalysisResult = AnalysisResult(
    summary: Json,
    keyPoints: seq<Json>,
    explanation: Json,
    readingTime: Json,
    wordCount: nat,
    readingLevel: Json,
    speakingTime: int,
    uniqueWords: int,
    averageSentenceLength: int,
    topWords: seq<WordCount>)

  datatype SummaryLength = Short | Medium | Long

  datatype AnalysisStyle = Academic | Casual | Technical

  datatype Settings = Settings(summaryLength: SummaryLength, analysisStyle: AnalysisStyle)

  /** `'text' | 'image' | 'document' | 'youtube'` */
  datatype InputMode = TextMode | ImageMode | DocumentMode | YouTubeMode

  /** The input an analysis was run on; absent fields are `undefined`. */
  datatype HistoryInput = HistoryInput(
    text: Option<string>,
    imagePreview: Option<string>,
    documentName: Option<string>,
    youtubeUrl: Option<string>)

  datatype HistoryEntry = HistoryEntry(
    id: string,
    timestamp: int,
    inputMode: InputMode,
    input: HistoryInput,
    settings: Settings,
    result: AnalysisResult,
    extractedText: Option<string>)

  /** A string is truthy in JavaScript exactly when it is present and
      non-empty. */
  predicate Truthy(s: Option<string>) {
    s.Some? && s.value != ""
  }
}
