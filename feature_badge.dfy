/** How a spot feature is labelled and coloured on its badge. */
module FeatureBadge {
  import opened Text
  import opened Seqs

  /** `feature.split('_').map(capitalise).join(' ')`. */
  function FormatFeatureName(feature: string): string {
    CapitalizeWords(feature, '_')
  }

  /**
   * Formatting keeps the length, replaces every underscore by a space (so none is left),
   * upper-cases the first character of each segment and leaves every other character.
   */
  lemma FormatFeatureNameAt(feature: string)
    ensures |FormatFeatureName(feature)| == |feature|
    ensures forall i :: 0 <= i < |feature| ==>
      FormatFeatureName(feature)[i] == CapitalizedChar(feature, '_', i)
    ensures '_' !in FormatFeatureName(feature)
  {
    var r := FormatFeatureName(feature);
    CapitalizeWordsAt(feature, '_');
    forall i | 0 <= i < |r| ensures r[i] != '_' {
      assert r[i] == CapitalizedChar(feature, '_', i);
    }
  }

  /** Without spaces in the feature name, the label has exactly one word per segment. */
  lemma FormatFeatureNameWords(feature: string)
    requires ' ' !in feature
    ensures Split(FormatFeatureName(feature), ' ') == Map(Split(feature, '_'), UpperFirst)
    ensures |Split(FormatFeatureName(feature), ' ')| == |Split(feature, '_')|
  {
    CapitalizeWordsWords(feature, '_');
  }

  lemma FormatEvCharging()
    ensures FormatFeatureName("ev_charging") == "Ev Charging"
  {
    assert UpperChar('e') == 'E' && UpperChar('c') == 'C';
    FormatTwoWords("ev", "charging", "Ev", "Charging");
    EvChargingSpelling();
  }

  /** Proof helper with no counterpart in the code: the literal concatenations behind the example above. */
  lemma EvChargingSpelling()
    ensures "ev" + "_" + "charging" == "ev_charging"
    ensures "Ev" + " " + "Charging" == "Ev Charging"
  {
  }

  lemma FormatTwoWords(a: string, b: string, capA: string, capB: string)
    requires '_' !in a && '_' !in b && UpperFirst(a) == capA && UpperFirst(b) == capB
    ensures FormatFeatureName(a + "_" + b) == capA + " " + capB
  {
    var ws := [a, b];
    assert Join(ws, '_') == a + "_" + b;
    CapitalizeKnownWords(ws, '_');
    assert Map(ws, UpperFirst) == [capA, capB];
  }

  lemma FormatHandicap()
    ensures FormatFeatureName("handicap") == "Handicap"
  {
    assert UpperChar('h') == 'H';
    FormatOneWord("handicap", "Handicap");
  }

  lemma FormatOneWord(w: string, text: string)
    requires '_' !in w && UpperFirst(w) == text
    ensures FormatFeatureName(w) == text
  {
    CapitalizeKnownWords([w], '_');
    assert Map([w], UpperFirst) == [text];
  }

  const EvChargingClass := "bg-teal-100 text-teal-800 border border-teal-300"
  const HandicapClass := "bg-blue-100 text-blue-800 border border-blue-300"
  const PremiumClass := "bg-amber-100 text-amber-800 border border-amber-300"
  const CoveredClass := "bg-purple-100 text-purple-800 border border-purple-300"
  const DefaultClass := "bg-neutral-100 text-neutral-800 border border-neutral-300"

  /** The badge's colour classes: one per known feature, the neutral ones for anything else. */
  function FeatureClass(feature: string): (r: string)
    ensures r == DefaultClass <==> feature !in {"ev_charging", "handicap", "premium", "covered"}
    ensures feature == "ev_charging" ==> r == EvChargingClass
    ensures feature == "handicap" ==> r == HandicapClass
    ensures feature == "premium" ==> r == PremiumClass
    ensures feature == "covered" ==> r == CoveredClass
  {
    if feature == "ev_charging" then EvChargingClass
    else if feature == "handicap" then HandicapClass
    else if feature == "premium" then PremiumClass
    else if feature == "covered" then CoveredClass
    else DefaultClass
  }
}
