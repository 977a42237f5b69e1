/** The dashboard's rarity verdict: a specimen is rare when the predicted
    label names an iron class or when the find is massive (100 kg or more). */
module Rarity {
  import opened Substring

  const Iron := "Iron"
  const StonyIron := "Stony-Iron"

  /** Mass threshold of the size override, in grams (100 kg), inclusive. */
  const MassThreshold: real := 100000.0

  /** The label trigger: the classifier itself predicted an iron-bearing class.
      The "Stony-Iron" test adds nothing: the trigger fires exactly when the
      prediction contains "Iron". */
  predicate IsRarePrediction(prediction: string)
    ensures IsRarePrediction(prediction) <==> Contains(prediction, Iron)
  {
    StonyIronImpliesIron(prediction);
    Contains(prediction, Iron) || Contains(prediction, StonyIron)
  }

  /** The mass trigger: a find of 100 kg or more (the mass is in grams). */
  predicate IsMassiveFind(mass: real)
    ensures IsMassiveFind(mass) <==> mass / 1000.0 >= 100.0
  {
    mass >= MassThreshold
  }

  /** The verdict: either trigger makes the specimen rare; in all, rare exactly
      when the prediction contains "Iron" or the mass is at least the threshold. */
  predicate IsRare(prediction: string, mass: real)
    ensures IsRare(prediction, mass) <==> Contains(prediction, Iron) || mass >= MassThreshold
  {
    IsRarePrediction(prediction) || IsMassiveFind(mass)
  }

  /** "Stony-Iron" contains "Iron" (at position 6). */
  lemma StonyIronContainsIron()
    ensures Contains(StonyIron, Iron)
  {
    assert StonyIron[6..10] == Iron;
    assert OccursAt(StonyIron, Iron, 6);
  }

  /** Every label that contains "Stony-Iron" contains "Iron". */
  lemma StonyIronImpliesIron(prediction: string)
    ensures Contains(prediction, StonyIron) ==> Contains(prediction, Iron)
  {
    if Contains(prediction, StonyIron) {
      StonyIronContainsIron();
      ContainsTransitive(prediction, StonyIron, Iron);
    }
  }

  /** The mass trigger is inclusive: exactly 100 kg is rare, whatever the label. */
  lemma ThresholdIsRare(prediction: string)
    ensures IsRare(prediction, 100000.0)
  {
  }

  /** Below 100 kg, a label without "Iron" is not rare, not even with "Stony-Iron" in mind. */
  lemma BelowThresholdWithoutIronNotRare(prediction: string, mass: real)
    requires mass < MassThreshold && !Contains(prediction, Iron)
    ensures !IsRare(prediction, mass)
  {
  }

  /** The triggers are independent: an iron label is rare at any mass, zero included,
      and a massive find is rare with any label. */
  lemma TriggersIndependent(prediction: string, mass: real)
    ensures Contains(prediction, Iron) ==> IsRare(prediction, mass) && IsRare(prediction, 0.0)
    ensures mass >= MassThreshold ==> IsRare(prediction, mass)
  {
  }
}
