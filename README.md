# Meteorite Oracle: prediction decision layer

Meteorite Oracle classifies a meteorite find from four numbers: mass in grams,
year, latitude and longitude. A pre-trained classifier and a label encoder do
the classification. This project models the decision logic around that
classifier:

- the `/predict` endpoint (`predict_rarity`) builds the five-column feature row
  `[mass, year, lat, long, abs(lat)]`;
- it decodes the predicted class index to a class name;
- it reports the largest class probability as the confidence, with status
  `"Success"`;
- the dashboard then calls a specimen rare when the predicted name contains
  `"Iron"` or `"Stony-Iron"`, or when the mass is at least 100 000 g;
- it picks the text of the rare alert: the predicted name, or
  `"Rare Metallic Specimen (Size Override)"` when only the mass triggered.

The classifier and the encoder are opaque artifacts. They enter the model as
parameters:

- `predict` and `predictProba` are functions from a feature row to a class
  index and to a probability vector;
- `classes` is the encoder's list of class names, indexed by encoded class.

Floats are modelled as `real`. The model only compares, negates, takes a
maximum and lists values, so no rounding is involved.

Modules, one per part of `app.py`:

- `Features`: the input record and the feature row.
- `Confidence`: `np.max` as a recursive `Max`, and bounds on it.
- `Substring`: Python's `sub in s` on strings.
- `Rarity`: the two rarity triggers and the verdict.
- `Backend`: `predict_rarity` as one function returning a `Result`.
- `Dashboard`: the choice of the result panel and its text.

Two behaviours of `app.py` are worth stating plainly:

- The code never checks the decoded index itself. The encoder raises on an
  index it does not know, and `np.max` raises on an empty vector. Both
  exceptions are modelled as `Failure` values of `Backend.PredictRarity`. The
  decoding error comes first, in the order of the calls.
- The code does not check that the confidence lies in [0, 1]. The model
  proves it whenever the classifier returns probabilities in [0, 1]
  (`InUnitInterval`); when they also add up to 1, the confidence is at least
  1/n for n classes.

## Model

| member | source | states |
|---|---|---|
| `Features.Abs` | app.py:26 | Python's `abs` is non-negative and equals `x` or `-x` |
| `Features.AbsLat` | app.py:26 | the abs_lat feature is non-negative and equals `lat` or `-lat` |
| `Features.FeatureVector` | app.py:25-27 | the feature row has one entry per model column named in the column list (five), and entry i holds the value of the column the i-th name describes |
| `Features.FeatureOrder` | app.py:25-27 | the row lists mass, year, lat, long and abs(lat), in that order |
| `Features.HemisphereSymmetry` | app.py:26-27 | negating the latitude changes only the lat entry; the abs_lat entry is unchanged |
| `Features.RecordOf` | app.py:27 | a consequence of the layout: the record can be read back from any well-formed row |
| `Features.FeatureVectorRoundTrip` | app.py:27 | a consequence of the layout: every built row has its fifth entry equal to the abs of its third, and reads back to the original record |
| `Features.FeatureVectorImage` | app.py:26-27 | a consequence of the layout: a row is well formed if and only if some record builds it |
| `Confidence.Max` | app.py:35 | the maximum of a non-empty probability vector is one of its entries and is no smaller than any entry |
| `Confidence.MaxUnique` | app.py:35 | any entry that bounds all others is the maximum, so the confidence is determined by the vector |
| `Confidence.SumAtMostCountTimesMax` | app.py:34-35 | the sum of the probabilities is at most n times the confidence |
| `Confidence.MaxAtLeastAverage` | app.py:34-35 | when the n probabilities add up to 1, the confidence is at least 1/n |
| `Confidence.ConfidenceBounds` | app.py:34-35 | for probabilities in [0, 1], the confidence lies in [0, 1]; when they add up to 1, it is at least 1/n |
| `Substring.Contains` | app.py:139 | Python's `in` test on strings holds exactly when the substring occurs at some position |
| `Substring.ShiftOccurrence` | app.py:139 | one step of the scan: when the substring is not a prefix, its occurrences are those in the rest of the string |
| `Substring.ContainsTransitive` | app.py:139 | a string that contains `t` contains everything `t` contains |
| `Rarity.StonyIronContainsIron` | app.py:139 | "Stony-Iron" contains "Iron" |
| `Rarity.StonyIronImpliesIron` | app.py:139 | a prediction that contains "Stony-Iron" contains "Iron", so the second test is subsumed |
| `Rarity.IsRarePrediction` | app.py:139 | the label trigger ("Iron" or "Stony-Iron" in the prediction) fires exactly when the prediction contains "Iron" |
| `Rarity.IsMassiveFind` | app.py:140 | the mass trigger fires exactly for finds of 100 kg or more (mass in grams) |
| `Rarity.IsRare` | app.py:139-142 | rare exactly when the prediction contains "Iron" or the mass is at least 100000.0 |
| `Rarity.ThresholdIsRare` | app.py:140-142 | a mass of exactly 100000.0 is rare for every prediction (the threshold is inclusive) |
| `Rarity.BelowThresholdWithoutIronNotRare` | app.py:139-142 | a mass below 100000.0 with a prediction lacking "Iron" is not rare |
| `Rarity.TriggersIndependent` | app.py:142 | an "Iron" prediction is rare at any mass, zero included, and a mass of at least 100000.0 is rare with any prediction |
| `Backend.PredictRarity` | app.py:23-41 | succeeds exactly when the class index is known to the encoder and the probability vector is non-empty; on success, status is "Success", the prediction is the decoded class unchanged, and the confidence is the largest probability; otherwise it reports the first failing call |
| `Backend.ConfidenceIsProbability` | app.py:34-39 | when the classifier returns probabilities in [0, 1], the reported confidence lies in [0, 1]; when they add up to 1, it is at least 1/n |
| `Backend.MirroredFindSameAnswer` | app.py:26-34 | a classifier that ignores the sign of the lat column gives the same reply for a find and its mirror image across the equator |
| `Dashboard.OverrideTextLacksIron` | app.py:146 | the size-override text does not contain "Iron" |
| `Dashboard.DisplayText` | app.py:146 | an "Iron" prediction is shown as it is, and the override text is shown exactly when the prediction lacks "Iron" |
| `Dashboard.ResultPanel` | app.py:142-150 | an "Iron" prediction raises the alert with the prediction itself; otherwise a mass of at least 100000.0 raises it with the override text; otherwise the prediction and confidence are shown plainly, unchanged |
| `Dashboard.AlertIff` | app.py:139-143 | the rare alert is raised exactly when the prediction contains "Iron" or the mass is at least 100000.0 |
| `Dashboard.OverrideIff` | app.py:146 | the override text is shown exactly when the mass trigger fired and the prediction lacks "Iron" |
| `Dashboard.EndToEnd` | app.py:139-150 | when the backend answers, the alert is raised exactly when the decoded class contains "Iron" or the mass is at least 100000.0; otherwise the panel shows the decoded class and the maximum probability |

## Left out

- Loading the model and the encoder with `joblib.load` (app.py:12-13). This is file I/O and deserialisation of opaque artifacts. The model takes the loaded pair as parameters.
- The internals of `model.predict`, `model.predict_proba` and `encoder.inverse_transform` (app.py:30-31, 34). These are library calls. Their results are parameters, and decoding is a lookup in `classes`.
- The model does not assume that `predict` returns the class with the largest probability. The source does not rely on it.
- The percentage formatting `f"{confidence:.2%}"` (app.py:39). This is float-to-string rounding. The confidence is kept as a real fraction.
- Floating-point behaviour: NaN probabilities and rounding are not modelled, because inputs are reals.
- The year arrives as an integer from the dashboard and as a float at the endpoint. It is modelled as a real.
- The FastAPI app, the request model, the route and `uvicorn.run` (app.py:2-8, 16-23, 43-45). This is HTTP transport.
- The Streamlit page: configuration, layout, inputs, map, the comet animation and the `st.warning`/`st.info`/`st.subheader` rendering (app.py:49-127, 143-150). Only the choice of panel and text is modelled.
- `requests.post` to the backend (app.py:131-134). This is network I/O. The model starts from the backend's reply.
- The catch-all `except` and its connection-error message (app.py:152-153). It catches more than network failures: a failed reply carries no `prediction` field, so `response.json()` or `res['prediction']` raises. A `Failure` of `Backend.PredictRarity` (unknown class index, empty probability vector) therefore reaches the user as the same connection-error message. The dashboard's handling of a failed reply is not modelled; `Dashboard.EndToEnd` covers successful replies only.
