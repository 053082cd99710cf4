/** The analysis record exchanged by the engine, the record store and the API. */
module Schemas {

  /**
   * One analysis result. The fields carry the JSON keys' names; the confidence
   * score is kept as a whole number of hundredths (0.70 is 70).
   */
  datatype AnalysisResult = AnalysisResult(
    imageId: string,
    skinType: string,
    issues: seq<string>,
    confidenceHundredths: int)
}
