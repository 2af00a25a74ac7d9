/**
 * The confidence codec shared by every classifier: a (label, probability)
 * pair becomes one score in [0, 1], where 1 is certainty of "research",
 * 0 certainty of "other" and 0.5 the neutral value every failure path uses.
 * Floats are modelled as reals.
 */
module Confidence {

  /** The first (label, probability) pair a fastText model predicts for a line of text. */
  datatype Prediction = Prediction(labelName: string, probability: real)

  const Research: string := "research"
  const Other: string := "other"

  /** The two spellings of the positive label: the BERT/image one and fastText's. */
  predicate IsResearchLabel(labelName: string) {
    labelName == "__label__research" || labelName == Research
  }

  /** The probability after the two clamping assignments of `encode_confidence`. */
  function Clamp(confidence: real): (c: real)
    ensures 0.0 <= c <= 1.0
    ensures 0.0 <= confidence <= 1.0 ==> c == confidence
    ensures confidence > 1.0 ==> c == 1.0
    ensures confidence < 0.0 ==> c == 0.0
  {
    if confidence > 1.0 then 1.0 else if confidence < 0.0 then 0.0 else confidence
  }

  /**
   * `encode_confidence(label, confidence)`. A confidence below 0.5 is only
   * logged by the source, not rejected, so there is no precondition.
   */
  function Encode(labelName: string, confidence: real): (e: real)
    ensures 0.0 <= e <= 1.0
    ensures IsResearchLabel(labelName) ==> e >= 0.5
    ensures !IsResearchLabel(labelName) ==> e <= 0.5
    ensures e == 0.5 <==> Clamp(confidence) == 0.0
  {
    var c := Clamp(confidence);
    if IsResearchLabel(labelName) then c / 2.0 + 0.5 else 0.5 - c / 2.0
  }

  /** `decode_confidence(e)`. */
  function Decode(e: real): (r: (string, real))
    ensures r.0 == Other <==> e < 0.5
    ensures r.0 == Research <==> e >= 0.5
    ensures 0.0 <= e <= 1.0 ==> 0.0 <= r.1 <= 1.0
  {
    if e < 0.5 then (Other, 1.0 - 2.0 * e) else (Research, 2.0 * e - 1.0)
  }

  /** A larger confidence moves the score further from 0.5, towards the label's end. */
  lemma EncodeMonotonic(labelName: string, c1: real, c2: real)
    requires c1 <= c2
    ensures IsResearchLabel(labelName) ==> Encode(labelName, c1) <= Encode(labelName, c2)
    ensures !IsResearchLabel(labelName) ==> Encode(labelName, c1) >= Encode(labelName, c2)
  {
  }

  /** Decoding recovers the normalised label and the probability, for every probability in (0, 1]. */
  lemma DecodeEncode(labelName: string, confidence: real)
    requires 0.0 < confidence <= 1.0
    ensures Decode(Encode(labelName, confidence))
         == (if IsResearchLabel(labelName) then Research else Other, confidence)
  {
  }

  /** Encoding what was decoded gives back every score in [0, 1]. */
  lemma EncodeDecode(e: real)
    requires 0.0 <= e <= 1.0
    ensures Encode(Decode(e).0, Decode(e).1) == e
  {
  }
}
