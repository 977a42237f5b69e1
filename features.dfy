/** The input record of the prediction endpoint and the feature vector the
    classifier is fed with. Floating-point inputs are modelled as reals: the
    construction only takes an absolute value and lists the fields. */
module Features {

  /** One specimen observation as the endpoint receives it; every field is a
      float on the wire, the year included. */
  datatype MeteoriteData = MeteoriteData(mass: real, year: real, lat: real, long: real)

  /** Names of the model's input columns, in the order the model expects them. */
  const FeatureNames: seq<string> := ["mass (g)", "year", "reclat", "reclong", "abs_lat"]

  /** Python's `abs` on a float. */
  function Abs(x: real): (r: real)
    ensures r >= 0.0
    ensures r == x || r == -x
  {
    if x < 0.0 then -x else x
  }

  /** The derived fifth feature, the distance of the find from the equator in degrees. */
  function AbsLat(d: MeteoriteData): (r: real)
    ensures r >= 0.0 && (r == d.lat || r == -d.lat)
  {
    Abs(d.lat)
  }

  /** The value of the named model column for a record: the raw fields for
      the four recorded columns, the derived distance from the equator for abs_lat. */
  function Column(d: MeteoriteData, name: string): real
    requires name in FeatureNames
  {
    if name == "mass (g)" then d.mass
    else if name == "year" then d.year
    else if name == "reclat" then d.lat
    else if name == "reclong" then d.long
    else AbsLat(d)
  }

  /** The single row of the feature matrix passed to the classifier: entry i
      holds the value of the column FeatureNames[i] names. */
  function FeatureVector(d: MeteoriteData): (v: seq<real>)
    ensures |v| == |FeatureNames|
    ensures forall i :: 0 <= i < |v| ==> v[i] == Column(d, FeatureNames[i])
  {
    [d.mass, d.year, d.lat, d.long, AbsLat(d)]
  }

  /** What a feature vector built by FeatureVector looks like: five entries
      whose last one is the absolute value of the third. */
  predicate IsFeatureVector(v: seq<real>)
  {
    |v| == |FeatureNames| && v[4] == Abs(v[2])
  }

  /** The raw record read back from a feature vector. */
  function RecordOf(v: seq<real>): (d: MeteoriteData)
    requires IsFeatureVector(v)
    ensures FeatureVector(d) == v
  {
    MeteoriteData(v[0], v[1], v[2], v[3])
  }

  /** The vector lists mass, year, latitude, longitude and |latitude|, in that order. */
  lemma FeatureOrder(d: MeteoriteData)
    ensures var v := FeatureVector(d);
      v[0] == d.mass && v[1] == d.year && v[2] == d.lat && v[3] == d.long && v[4] == Abs(d.lat)
  {
  }

  /** Building the vector loses nothing: the record is recovered from it, and
      the vectors that can be built are exactly the well-formed ones. */
  lemma FeatureVectorRoundTrip(d: MeteoriteData)
    ensures IsFeatureVector(FeatureVector(d))
    ensures RecordOf(FeatureVector(d)) == d
  {
  }

  /** Every well-formed vector is built from some record, so IsFeatureVector
      characterises the image of FeatureVector. */
  lemma FeatureVectorImage(v: seq<real>)
    ensures IsFeatureVector(v) <==> exists d :: FeatureVector(d) == v
  {
    if IsFeatureVector(v) {
      assert FeatureVector(RecordOf(v)) == v;
    }
  }

  /** Mirroring the find across the equator changes the latitude entry only;
      the abs_lat feature is the same for both hemispheres. */
  lemma HemisphereSymmetry(d: MeteoriteData)
    ensures var m := d.(lat := -d.lat);
      FeatureVector(m) == FeatureVector(d)[2 := -d.lat]
      && FeatureVector(m)[4] == FeatureVector(d)[4]
  {
  }
}
