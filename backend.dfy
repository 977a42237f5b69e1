/** The `/predict` endpoint of the prediction API. The trained classifier and
    the label encoder are opaque artifacts; they enter as parameters: the
    classifier as its two query functions on one feature row, the encoder as
    its list of class names indexed by encoded class. */
module Backend {
  import opened Features
  import opened Confidence

  /** The exceptions the endpoint's library calls raise. */
  datatype Error =
    | UnknownClassIndex(index: int)   // the encoder has no class with this index
    | EmptyProbabilities              // `np.max` of an empty probability vector

  datatype Result<T> = Success(value: T) | Failure(error: Error)

  const StatusSuccess := "Success"

  /** The JSON body of a successful reply. The confidence is kept as a
      fraction; its rendering as a percentage string is not modelled. */
  datatype Response = Response(prediction: string, confidence: real, status: string)

  /** `m` is the largest entry of `probs`. */
  predicate IsMaxOf(m: real, probs: seq<real>)
  {
    m in probs && forall i :: 0 <= i < |probs| ==> probs[i] <= m
  }

  /** `predict_rarity`: build the feature row, ask the classifier for the class
      index and decode it, ask for the class probabilities and report their
      maximum as the confidence. The decoding happens before the probability
      query, so an unknown index is reported even when the vector is empty. */
  function PredictRarity(
    data: MeteoriteData,
    predict: seq<real> -> int,
    predictProba: seq<real> -> seq<real>,
    classes: seq<string>
  ): (r: Result<Response>)
    ensures var index := predict(FeatureVector(data));
      var probs := predictProba(FeatureVector(data));
      && (r.Success? <==> 0 <= index < |classes| && |probs| > 0)
      && (r.Success? ==>
            && r.value.status == StatusSuccess
            && r.value.prediction == classes[index]
            && IsMaxOf(r.value.confidence, probs))
      && (r.Failure? ==>
            r.error == if 0 <= index < |classes| then EmptyProbabilities else UnknownClassIndex(index))
  {
    var features := FeatureVector(data);
    var predictionId := predict(features);
    if !(0 <= predictionId < |classes|) then
      Failure(UnknownClassIndex(predictionId))
    else
      var predictionName := classes[predictionId];
      var probs := predictProba(features);
      if |probs| == 0 then
        Failure(EmptyProbabilities)
      else
        Success(Response(predictionName, Max(probs), StatusSuccess))
  }

  /** When the classifier returns probabilities in [0, 1], the reported
      confidence is a fraction in [0, 1]; when they also add up to 1, it is at
      least 1/n for n classes. */
  lemma ConfidenceIsProbability(
    data: MeteoriteData,
    predict: seq<real> -> int,
    predictProba: seq<real> -> seq<real>,
    classes: seq<string>
  )
    requires InUnitInterval(predictProba(FeatureVector(data)))
    requires PredictRarity(data, predict, predictProba, classes).Success?
    ensures var c := PredictRarity(data, predict, predictProba, classes).value.confidence;
      0.0 <= c <= 1.0
    ensures var c := PredictRarity(data, predict, predictProba, classes).value.confidence;
      var probs := predictProba(FeatureVector(data));
      Sum(probs) == 1.0 ==> c >= 1.0 / (|probs| as real)
  {
    var probs := predictProba(FeatureVector(data));
    ConfidenceBounds(probs);
    MaxUnique(probs, PredictRarity(data, predict, predictProba, classes).value.confidence);
  }

  /** The classifier sees the latitude only through the feature row: a classifier
      that ignores the sign of the latitude column answers the same for a find
      and its mirror image across the equator. */
  lemma MirroredFindSameAnswer(
    data: MeteoriteData,
    predict: seq<real> -> int,
    predictProba: seq<real> -> seq<real>,
    classes: seq<string>
  )
    requires forall v: seq<real> :: |v| == 5 ==>
      predict(v[2 := -v[2]]) == predict(v) && predictProba(v[2 := -v[2]]) == predictProba(v)
    ensures PredictRarity(data.(lat := -data.lat), predict, predictProba, classes)
      == PredictRarity(data, predict, predictProba, classes)
  {
    HemisphereSymmetry(data);
    var v := FeatureVector(data);
    assert FeatureVector(data.(lat := -data.lat)) == v[2 := -v[2]];
  }
}
