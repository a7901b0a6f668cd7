/** The policy catalogue `policies_v3`: fifteen two-step policies, each
    step an operation name, a probability and a magnitude. */
module Catalogue {

  /** One `POLICY_TUPLE(name, probability, magnitude)`. */
  datatype Step = Step(name: string, probability: real, magnitude: int)

  /** Steps are applied left to right. */
  type Policy = seq<Step>

  /** The fourteen operation names the catalogue uses. */
  const OperationNames: set<string> := {
    "AutoContrast", "BBox_Cutout", "Brightness", "Color", "Contrast",
    "Cutout", "Equalize", "Posterize", "Rotate_BBox", "Sharpness",
    "ShearY_BBox", "SolarizeAdd", "TranslateX_BBox", "TranslateY_BBox"
  }

  /** A step as the catalogue writes them: a known operation, a
      probability in [0, 1] and a magnitude in 0..10. */
  predicate WellFormedStep(s: Step) {
    s.name in OperationNames && 0.0 <= s.probability <= 1.0 && 0 <= s.magnitude <= 10
  }

  /** Version 3 of the augmentation policies. */
  function PoliciesV3(): (c: seq<Policy>)
    ensures |c| == 15
    ensures forall i :: 0 <= i < |c| ==> |c[i]| == 2
    ensures forall i, j :: 0 <= i < |c| && 0 <= j < |c[i]| ==> WellFormedStep(c[i][j])
  {
    [
      [Step("Posterize", 0.8, 2), Step("TranslateX_BBox", 1.0, 8)],
      [Step("BBox_Cutout", 0.2, 10), Step("Sharpness", 1.0, 8)],
      [Step("Rotate_BBox", 0.6, 8), Step("Rotate_BBox", 0.8, 10)],
      [Step("Equalize", 0.8, 10), Step("AutoContrast", 0.2, 10)],
      [Step("SolarizeAdd", 0.2, 2), Step("TranslateY_BBox", 0.2, 8)],
      [Step("Sharpness", 0.0, 2), Step("Color", 0.4, 8)],
      [Step("Equalize", 1.0, 8), Step("TranslateY_BBox", 1.0, 8)],
      [Step("Posterize", 0.6, 2), Step("Rotate_BBox", 0.0, 10)],
      [Step("AutoContrast", 0.6, 0), Step("Rotate_BBox", 1.0, 6)],
      [Step("Equalize", 0.0, 4), Step("Cutout", 0.8, 10)],
      [Step("Brightness", 1.0, 2), Step("TranslateY_BBox", 1.0, 6)],
      [Step("Contrast", 0.0, 2), Step("ShearY_BBox", 0.8, 0)],
      [Step("AutoContrast", 0.8, 10), Step("Contrast", 0.2, 10)],
      [Step("Rotate_BBox", 1.0, 10), Step("Cutout", 1.0, 10)],
      [Step("SolarizeAdd", 0.8, 6), Step("Equalize", 0.8, 8)]
    ]
  }

  /** The names occurring in a catalogue. */
  function NamesUsed(c: seq<Policy>): set<string> {
    set i, j | 0 <= i < |c| && 0 <= j < |c[i]| :: c[i][j].name
  }

  /** Every one of the fourteen names occurs in the catalogue, and no other. */
  lemma PoliciesV3Names()
    ensures NamesUsed(PoliciesV3()) == OperationNames
  {
    var c: seq<Policy> := PoliciesV3();
    assert c[0][0].name == "Posterize" && c[0][1].name == "TranslateX_BBox";
    assert c[1][0].name == "BBox_Cutout" && c[1][1].name == "Sharpness";
    assert c[2][0].name == "Rotate_BBox" && c[3][0].name == "Equalize";
    assert c[3][1].name == "AutoContrast" && c[4][0].name == "SolarizeAdd";
    assert c[4][1].name == "TranslateY_BBox" && c[5][1].name == "Color";
    assert c[9][1].name == "Cutout" && c[10][0].name == "Brightness";
    assert c[11][0].name == "Contrast" && c[11][1].name == "ShearY_BBox";
  }
}
