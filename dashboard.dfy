/** The result panel of the dashboard: after the backend has answered, the
    dashboard decides from the prediction and the mass it sent whether to raise
    the rare-specimen alert, and which text to show. */
module Dashboard {
  import opened Substring
  import opened Rarity
  import Backend
  import Features
  import Confidence

  /** Shown in the alert when only the mass made the specimen rare. */
  const SizeOverrideText := "Rare Metallic Specimen (Size Override)"

  /** What the result area shows: the rare alert with its result text, or the
      plain prediction with its confidence. */
  datatype Panel = RareAlert(text: string) | PlainInfo(prediction: string, confidence: real)

  /** The result text of the rare alert: the prediction when the label trigger
      fired, the size-override text otherwise. The override text is shown
      exactly when the prediction lacks "Iron". */
  function DisplayText(prediction: string): (text: string)
    ensures Contains(prediction, Iron) ==> text == prediction
    ensures text == SizeOverrideText <==> !Contains(prediction, Iron)
  {
    OverrideTextLacksIron();
    if IsRarePrediction(prediction) then prediction else SizeOverrideText
  }

  /** The panel for a backend reply and the mass the user entered: an "Iron"
      prediction is shown in the alert as it is; otherwise a massive find raises
      the alert with the override text; otherwise the prediction and its
      confidence are shown plainly. */
  function ResultPanel(res: Backend.Response, mass: real): (panel: Panel)
    ensures Contains(res.prediction, Iron) ==> panel == RareAlert(res.prediction)
    ensures !Contains(res.prediction, Iron) && mass >= MassThreshold ==>
      panel == RareAlert(SizeOverrideText)
    ensures !Contains(res.prediction, Iron) && mass < MassThreshold ==>
      panel == PlainInfo(res.prediction, res.confidence)
  {
    if IsRare(res.prediction, mass) then RareAlert(DisplayText(res.prediction))
    else PlainInfo(res.prediction, res.confidence)
  }

  /** The override text itself contains no "Iron" (it has no capital I). */
  lemma OverrideTextLacksIron()
    ensures !Contains(SizeOverrideText, Iron)
  {
    assert Iron[0] == 'I';
    AbsentHeadNotContained(SizeOverrideText, Iron);
  }

  /** The alert is raised exactly when the prediction contains "Iron" or the
      mass is at least 100 kg. */
  lemma AlertIff(res: Backend.Response, mass: real)
    ensures ResultPanel(res, mass).RareAlert? <==> Contains(res.prediction, Iron) || mass >= MassThreshold
  {
  }

  /** The override text appears exactly when the mass trigger fired and the
      label trigger did not. */
  lemma OverrideIff(res: Backend.Response, mass: real)
    ensures ResultPanel(res, mass) == RareAlert(SizeOverrideText)
      <==> mass >= MassThreshold && !Contains(res.prediction, Iron)
  {
    if Contains(res.prediction, Iron) {
      OverrideTextLacksIron();
    }
  }

  /** From the inputs to the panel: when the backend answers, the dashboard
      raises the alert exactly when the decoded class contains "Iron" or the
      mass is at least 100 kg, and otherwise shows the decoded class with the
      maximum class probability. */
  lemma EndToEnd(
    data: Features.MeteoriteData,
    predict: seq<real> -> int,
    predictProba: seq<real> -> seq<real>,
    classes: seq<string>
  )
    requires Backend.PredictRarity(data, predict, predictProba, classes).Success?
    ensures var res := Backend.PredictRarity(data, predict, predictProba, classes).value;
      var name := classes[predict(Features.FeatureVector(data))];
      var panel := ResultPanel(res, data.mass);
      && (panel.RareAlert? <==> Contains(name, Iron) || data.mass >= MassThreshold)
      && (panel.PlainInfo? ==>
            panel.prediction == name
            && panel.confidence == Confidence.Max(predictProba(Features.FeatureVector(data))))
  {
    var res := Backend.PredictRarity(data, predict, predictProba, classes).value;
    var probs := predictProba(Features.FeatureVector(data));
    AlertIff(res, data.mass);
    Confidence.MaxUnique(probs, res.confidence);
  }
}
