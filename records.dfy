/** The one entity of the application: a mock analysis result. */
module Records {
  /** One entry of the mock list; it is also the JSON body posted to the relay. */
  datatype AnalysisRecord = AnalysisRecord(
    username: string,
    content: string,
    summary: string,
    sentiment: string,
    timestamp: string)
}
