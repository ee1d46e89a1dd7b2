/**
 The text-classification pipeline, seen only through its interface: a call on
 one clause either raises or returns a list of result lists, each ranked by
 descending score. The pipeline uses element 0 of element 0.
 */
module Classifier {
  import opened Results

  /** One ranked entry of the classifier's answer, `{"label": name, "score": score}`. */
  datatype Prediction = Prediction(name: string, score: real)

  /** What one classifier call does: raise, or return `batches`. */
  datatype Response = Raised | Returned(batches: seq<seq<Prediction>>)

  /** Why the top prediction of a clause could not be read; the whole
      document's processing fails with it. */
  datatype ClassificationError =
    | ClassifierRaised(clause: string)  // the call itself raised
    | NoResultList(clause: string)      // `classifier(clause)[0]` is out of range
    | NoPrediction(clause: string)      // `...[0][0]` is out of range

  /** `classifier(clause)[0][0]`, with every way that indexing can fail. */
  function Top(clause: string, response: Response): (r: Result<Prediction, ClassificationError>)
    ensures r.Ok? <==> response.Returned? && |response.batches| > 0 && |response.batches[0]| > 0
    ensures r.Ok? ==> r.value == response.batches[0][0]
    ensures r.Err? ==> r.error.clause == clause
  {
    match response
    case Raised => Err(ClassifierRaised(clause))
    case Returned(batches) =>
      if |batches| == 0 then Err(NoResultList(clause))
      else if |batches[0]| == 0 then Err(NoPrediction(clause))
      else Ok(batches[0][0])
  }

  /** The top prediction for `clause` under the classifier `classify`. */
  function TopOf(classify: string -> Response, clause: string): Result<Prediction, ClassificationError> {
    Top(clause, classify(clause))
  }
}
