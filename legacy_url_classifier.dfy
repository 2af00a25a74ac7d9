/**
 * The module-level URL classifier of the first version. Its URL functions
 * are the same text as the packaged ones (module UrlClassifier); what
 * differs is that `classify_url` applies `" ".join` to the token line, a
 * string, so the model receives the line's characters separated by spaces.
 */
module LegacyUrlClassifier {
  import opened PyStr
  import Confidence
  import UrlClassifier

  /** A string as the list of its one-character strings, as iterating over it gives. */
  function Chars(s: string): (cs: seq<string>)
    ensures |cs| == |s|
    ensures forall i :: 0 <= i < |s| ==> cs[i] == [s[i]]
  {
    seq(|s|, i requires 0 <= i < |s| => [s[i]])
  }

  /** `" ".join(s)` applied to a string. */
  function SpaceOut(s: string): string
  {
    Join(" ", Chars(s))
  }

  /**
   * The characters of `s` sit at the even positions and single spaces at
   * the odd ones, so k characters become 2k - 1.
   */
  lemma {:induction false} SpaceOutShape(s: string)
    ensures s == [] ==> SpaceOut(s) == []
    ensures s != [] ==> |SpaceOut(s)| == 2 * |s| - 1
    ensures forall i :: 0 <= i < |s| ==> SpaceOut(s)[2 * i] == s[i]
    ensures forall i :: 0 <= i < |s| - 1 ==> SpaceOut(s)[2 * i + 1] == ' '
    decreases |s|
  {
    if |s| >= 2 {
      var rest := SpaceOut(s[1..]);
      assert Chars(s) == [[s[0]]] + Chars(s[1..]);
      JoinCons(" ", [s[0]], Chars(s[1..]));
      assert SpaceOut(s) == [s[0], ' '] + rest;
      SpaceOutShape(s[1..]);
      forall i | 1 <= i < |s| ensures SpaceOut(s)[2 * i] == s[i] {
        assert SpaceOut(s)[2 * i] == rest[2 * (i - 1)];
      }
      forall i | 1 <= i < |s| - 1 ensures SpaceOut(s)[2 * i + 1] == ' ' {
        assert SpaceOut(s)[2 * i + 1] == rest[2 * (i - 1) + 1];
      }
    } else if |s| == 1 {
      assert Chars(s) == [[s[0]]];
    }
  }

  /** The string the legacy `classify_url` hands to the model. */
  function LegacyUrlLine(url: string): string
  {
    SpaceOut(UrlClassifier.UrlLine(url))
  }

  /**
   * `classify_url` of the first version: the encoded confidence of the
   * model's first prediction on the spaced-out token line.
   */
  function ClassifyUrl(predict: string -> Confidence.Prediction, url: string): (e: real)
    ensures 0.0 <= e <= 1.0
  {
    var p := predict(LegacyUrlLine(url));
    Confidence.Encode(p.labelName, p.probability)
  }

  /** Every token line has at least two tokens, hence at least three characters. */
  lemma UrlLineLength(url: string)
    ensures |UrlClassifier.UrlLine(url)| >= 3
  {
    var tokens := UrlClassifier.ExtractUrlTokens(UrlClassifier.RemoveWaybackPrefix(url));
    assert |tokens| >= 2;
  }

  /**
   * For every URL the legacy classifier queries the model with a string
   * other than the token line the packaged classifier and the training
   * rows use: it is 2k - 1 characters long instead of k.
   */
  lemma LegacyLineDiffers(url: string)
    ensures var line := UrlClassifier.UrlLine(url);
      |LegacyUrlLine(url)| == 2 * |line| - 1 && LegacyUrlLine(url) != line
  {
    UrlLineLength(url);
    SpaceOutShape(UrlClassifier.UrlLine(url));
  }

  /** The score the legacy classifier reports says "research" exactly when the model's label does. */
  lemma ClassifyUrlDecodes(predict: string -> Confidence.Prediction, url: string)
    requires 0.0 < predict(LegacyUrlLine(url)).probability <= 1.0
    ensures Confidence.Decode(ClassifyUrl(predict, url)).0 == Confidence.Research
        <==> Confidence.IsResearchLabel(predict(LegacyUrlLine(url)).labelName)
  {
    var p := predict(LegacyUrlLine(url));
    Confidence.DecodeEncode(p.labelName, p.probability);
  }
}
