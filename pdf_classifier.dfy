/**
 * The ensemble PDF classifier of the service. A request names the
 * classifiers to run ("image", "linear", "bert", "auto", "all"); the PDF is
 * saved to the temporary area, its text is extracted when a text classifier
 * may run, and each classifier that runs records its encoded score under its
 * name and appends it to a list whose mean becomes "is_research".
 *
 * The fastText model, the two TensorFlow-serving endpoints and the
 * vocabulary are the fields of a Backends value; the extracted text and the
 * size of the rendered first page are parameters.
 */
module PdfClassifier {
  import opened Wrappers
  import opened PyStr
  import Confidence
  import TextPrep
  import PdfUtil

  /** Extracted text shorter than this is not tokenized. */
  const MinTextLength: nat := 300
  /** The number of token slots of the BERT model. */
  const BertSlots: nat := 512
  /** In auto mode BERT is consulted when the linear score lies in this band. */
  const BandLow: real := 0.15
  const BandHigh: real := 0.85

  /** The model versions reported with every answer. */
  const VersionMap: map<string, string> :=
    map["image" := "20190708", "linear" := "20190720", "bert" := "20190923T2215", "urlmeta" := "20190722"]

  /** What a TensorFlow-serving call yields: no usable answer, or the [other, research] pair. */
  datatype Reply = Failed | Probs(other: real, research: real)

  /** The four columns of a BERT request. */
  datatype BertInput = BertInput(inputIds: seq<int>, inputMask: seq<int>, labelIds: seq<int>, segmentIds: seq<int>)

  /** The external models: fastText, the BERT and image endpoints, and the BERT vocabulary. */
  datatype Backends = Backends(
    linearModel: string -> Confidence.Prediction,
    bertServer: BertInput -> Reply,
    imageServer: string -> Reply,
    vocab: map<string, int>)

  /** A value of the answer map: the version table or a score. */
  datatype Value = Versions(versions: map<string, string>) | Score(score: real)

  /** `cv2.imread("")` yields None and the following `.astype` raises. */
  datatype Error = UnreadableImage

  /** The answer map and the list of scores, as the request builds them up. */
  datatype Tally = Tally(results: map<string, Value>, scores: seq<real>)

  /**
   * Turns a TensorFlow-serving reply into an encoded score: the larger of
   * the two probabilities wins, a tie goes to "other", and a failed call
   * leaves the neutral 0.5.
   */
  function PickLarger(reply: Reply): (e: real)
    ensures 0.0 <= e <= 1.0
    ensures reply.Failed? ==> e == 0.5
    ensures reply.Probs? && reply.research > reply.other ==> e >= 0.5
    ensures reply.Probs? && reply.research <= reply.other ==> e <= 0.5
  {
    match reply
    case Failed => 0.5
    case Probs(other, research) =>
      if research > other then Confidence.Encode(Confidence.Research, research)
      else Confidence.Encode(Confidence.Other, other)
  }

  /** Decoding the score gives back the winning label and its probability. */
  lemma PickLargerDecodes(other: real, research: real)
    requires 0.0 < other <= 1.0 && 0.0 < research <= 1.0
    ensures Confidence.Decode(PickLarger(Probs(other, research)))
         == if research > other then (Confidence.Research, research) else (Confidence.Other, other)
  {
    if research > other {
      Confidence.DecodeEncode(Confidence.Research, research);
    } else {
      Confidence.DecodeEncode(Confidence.Other, other);
    }
  }

  /** `classify_pdf_linear`: fastText on the tokens joined by spaces. */
  function ClassifyLinear(linearModel: string -> Confidence.Prediction, tokens: seq<string>): (e: real)
    ensures 0.0 <= e <= 1.0
  {
    var p := linearModel(Join(" ", tokens));
    Confidence.Encode(p.labelName, p.probability)
  }

  function Zeros(n: nat): (z: seq<int>)
    ensures |z| == n && forall i :: 0 <= i < n ==> z[i] == 0
  {
    seq(n, _ => 0)
  }

  function Ones(n: nat): (o: seq<int>)
    ensures |o| == n && forall i :: 0 <= i < n ==> o[i] == 1
  {
    seq(n, _ => 1)
  }

  /**
   * The request `classify_pdf_bert` builds from the vocabulary ids: the ids
   * padded with zeros to 512 slots, a mask that is 1 exactly on the real
   * ids, the dummy label and all-zero segment ids.
   */
  function PackBertInput(ids: seq<int>): (input: BertInput)
    ensures |input.inputMask| == BertSlots && |input.segmentIds| == BertSlots
    ensures |ids| <= BertSlots ==> |input.inputIds| == BertSlots
    ensures |ids| > BertSlots ==> input.inputIds == ids
    ensures input.inputIds[..|ids|] == ids
    ensures forall i :: |ids| <= i < |input.inputIds| ==> input.inputIds[i] == 0
    ensures forall i :: 0 <= i < BertSlots ==> input.inputMask[i] == if i < |ids| then 1 else 0
    ensures forall i :: 0 <= i < BertSlots ==> input.segmentIds[i] == 0
    ensures input.labelIds == [0]
  {
    var tcount := |ids|;
    var padded := if tcount < BertSlots then ids + Zeros(BertSlots - tcount) else ids;
    var mask := if tcount < BertSlots then Ones(tcount) + Zeros(BertSlots - tcount) else Ones(BertSlots);
    BertInput(padded, mask, [0], Zeros(BertSlots))
  }

  /** The BERT score of a (trimmed) token list. */
  function ClassifyBert(b: Backends, tokens: seq<string>): (e: real)
    ensures 0.0 <= e <= 1.0
  {
    PickLarger(b.bertServer(PackBertInput(TextPrep.KnownIds(b.vocab, tokens))))
  }

  /** Tokens missing from the vocabulary do not change the BERT request, wherever they stand. */
  lemma BertIgnoresUnknownTokens(b: Backends, before: seq<string>, token: string, after: seq<string>)
    requires token !in b.vocab
    ensures ClassifyBert(b, before + [token] + after) == ClassifyBert(b, before + after)
  {
    TextPrep.KnownIdsSkipUnknown(b.vocab, before, token, after);
  }

  /** The padding loop of `classify_pdf_bert`. */
  method PadTokenIds(ids: seq<int>) returns (padded: seq<int>)
    ensures padded == PackBertInput(ids).inputIds
  {
    padded := ids;
    var tcount := |ids|;
    if tcount < BertSlots {
      for j := tcount to BertSlots
        invariant padded == ids + Zeros(j - tcount)
      {
        padded := padded + [0];
      }
    }
  }

  /** `classify_pdf_bert`: vocabulary lookup, padding, the request and the reply. */
  method ClassifyPdfBert(b: Backends, tokens: seq<string>) returns (e: real)
    ensures e == ClassifyBert(b, tokens)
  {
    var tokenIds := TextPrep.ConvertToBertVocab(b.vocab, tokens);
    var tcount := |tokenIds|;
    var inputIds := PadTokenIds(tokenIds);
    var inputMask := if tcount < BertSlots then Ones(tcount) + Zeros(BertSlots - tcount) else Ones(BertSlots);
    var input := BertInput(inputIds, inputMask, [0], Zeros(BertSlots));
    e := PickLarger(b.bertServer(input));
  }

  /**
   * `classify_pdf_image`: an empty image name cannot be read and raises;
   * any other name is scored by the image endpoint.
   */
  function ClassifyImage(b: Backends, jpg: string): (r: Result<real, Error>)
    ensures r.Success? <==> jpg != ""
    ensures r.Success? ==> 0.0 <= r.value <= 1.0
  {
    if jpg == "" then Failure(UnreadableImage) else Success(PickLarger(b.imageServer(jpg)))
  }

  /** The mode list after the request string is split on ',' and "all" is expanded. */
  function ModeList(modes: string): seq<string>
  {
    var names := Split(modes, ',');
    if "all" in names then ["image", "linear", "bert"] else names
  }

  /** The text is extracted when some text classifier may run. */
  predicate NeedsText(modeList: seq<string>) {
    "linear" in modeList || "bert" in modeList || "auto" in modeList
  }

  /** The token list of the request: empty unless text is needed and long enough. */
  function TextTokens(modeList: seq<string>, text: string): seq<string>
  {
    if NeedsText(modeList) && |text| >= MinTextLength then TextPrep.ExtractTokens(text) else []
  }

  /** The tally before any classifier runs. */
  function Start(): Tally {
    Tally(map["version" := Versions(VersionMap)], [])
  }

  /** One classifier's score stored under its name and appended to the list. */
  function Record(t: Tally, name: string, score: real): Tally {
    Tally(t.results[name := Score(score)], t.scores + [score])
  }

  /** One entry of the named-classifier loop; skipped entries leave the tally alone. */
  function NamedStep(b: Backends, t: Tally, name: string, tokens: seq<string>, jpg: string): Tally
  {
    if name == "image" then
      if jpg == "" then t else Record(t, name, PickLarger(b.imageServer(jpg)))
    else if name == "linear" then
      if tokens == [] then t else Record(t, name, ClassifyLinear(b.linearModel, tokens))
    else if name == "bert" then
      if tokens == [] then t else Record(t, name, ClassifyBert(b, TextPrep.TrimTokens(tokens, BertSlots)))
    else t
  }

  /** The named-classifier loop over the first entries of the mode list. */
  function RunNamed(b: Backends, names: seq<string>, tokens: seq<string>, jpg: string): Tally
    decreases |names|
  {
    if names == [] then Start()
    else NamedStep(b, RunNamed(b, names[..|names| - 1], tokens, jpg), names[|names| - 1], tokens, jpg)
  }

  /**
   * The auto branch: fastText when there are tokens, BERT as well when the
   * linear score is in the band, and the page image when there are none.
   */
  function RunAuto(b: Backends, tokens: seq<string>, jpg: string): Result<Tally, Error>
  {
    if tokens != [] then
      var linear := ClassifyLinear(b.linearModel, tokens);
      var t := Record(Start(), "linear", linear);
      if BandLow <= linear <= BandHigh then
        Success(Record(t, "bert", ClassifyBert(b, TextPrep.TrimTokens(tokens, BertSlots))))
      else Success(t)
    else
      match ClassifyImage(b, jpg)
      case Failure(e) => Failure(e)
      case Success(image) => Success(Record(Start(), "image", image))
  }

  function Sum(xs: seq<real>): real
  {
    if xs == [] then 0.0 else xs[0] + Sum(xs[1..])
  }

  /** `sum(xs) / len(xs)`. */
  function Mean(xs: seq<real>): real
    requires xs != []
  {
    Sum(xs) / (|xs| as real)
  }

  /** The answer map: "is_research" is added when some score was recorded. */
  function Conclude(t: Tally): map<string, Value>
  {
    if |t.scores| != 0 then t.results["is_research" := Score(Mean(t.scores))]
    else t.results
  }

  /** `classify_pdf_multi` given the extracted text and the image name the renderer yields. */
  function ClassifyPdf(b: Backends, modes: string, text: string, jpg: string): Result<map<string, Value>, Error>
  {
    var modeList := ModeList(modes);
    var tokens := TextTokens(modeList, text);
    if "auto" in modeList then
      match RunAuto(b, tokens, jpg)
      case Failure(e) => Failure(e)
      case Success(t) => Success(Conclude(t))
    else Success(Conclude(RunNamed(b, modeList, tokens, jpg)))
  }

  /** The names under which a classifier records its score. */
  predicate ScoreKey(k: string) {
    k == "image" || k == "linear" || k == "bert"
  }

  /** The entries of a named mode list that actually run, in order. */
  function Executed(names: seq<string>, tokens: seq<string>, jpg: string): (ex: seq<string>)
    ensures forall i :: 0 <= i < |ex| ==> ScoreKey(ex[i])
    ensures |ex| <= |names|
    decreases |names|
  {
    if names == [] then []
    else
      var name := names[|names| - 1];
      var runs := (name == "image" && jpg != "") || ((name == "linear" || name == "bert") && tokens != []);
      Executed(names[..|names| - 1], tokens, jpg) + (if runs then [name] else [])
  }

  /** The score a classifier that runs records. */
  function ScoreOf(b: Backends, name: string, tokens: seq<string>, jpg: string): (e: real)
    ensures 0.0 <= e <= 1.0
  {
    if name == "image" then PickLarger(b.imageServer(jpg))
    else if name == "linear" then ClassifyLinear(b.linearModel, tokens)
    else ClassifyBert(b, TextPrep.TrimTokens(tokens, BertSlots))
  }

  /**
   * Every entry of the named mode list that runs appends one score, in
   * mode-list order, so a repeated name counts as often as it is listed;
   * the answer holds "version" and exactly the names that ran, each with
   * its score.
   */
  lemma {:induction false} NamedScoresInOrder(b: Backends, names: seq<string>, tokens: seq<string>, jpg: string)
    ensures var t, ex := RunNamed(b, names, tokens, jpg), Executed(names, tokens, jpg);
      && |t.scores| == |ex|
      && (forall i :: 0 <= i < |ex| ==> t.scores[i] == ScoreOf(b, ex[i], tokens, jpg))
      && (forall k :: k in t.results <==> k == "version" || k in ex)
      && t.results["version"] == Versions(VersionMap)
      && (forall k :: k in ex ==> t.results[k] == Score(ScoreOf(b, k, tokens, jpg)))
    decreases |names|
  {
    if names != [] {
      var init, name := names[..|names| - 1], names[|names| - 1];
      NamedScoresInOrder(b, init, tokens, jpg);
      StepKeepsOrder(b, RunNamed(b, init, tokens, jpg), Executed(init, tokens, jpg), name, tokens, jpg);
    }
  }

  /** The tally holds "version" and one score per executed name, in order. */
  ghost predicate InOrder(b: Backends, t: Tally, ex: seq<string>, tokens: seq<string>, jpg: string)
  {
    && |t.scores| == |ex|
    && (forall i :: 0 <= i < |ex| ==> t.scores[i] == ScoreOf(b, ex[i], tokens, jpg))
    && (forall k :: k in t.results <==> k == "version" || k in ex)
    && t.results["version"] == Versions(VersionMap)
    && (forall k :: k in ex ==> t.results[k] == Score(ScoreOf(b, k, tokens, jpg)))
  }

  /** One step of the named loop keeps the tally in order with the executed names. */
  lemma StepKeepsOrder(b: Backends, t: Tally, ex: seq<string>, name: string, tokens: seq<string>, jpg: string)
    requires InOrder(b, t, ex, tokens, jpg)
    ensures var runs := (name == "image" && jpg != "") || ((name == "linear" || name == "bert") && tokens != []);
      InOrder(b, NamedStep(b, t, name, tokens, jpg), ex + (if runs then [name] else []), tokens, jpg)
  {
    var runs := (name == "image" && jpg != "") || ((name == "linear" || name == "bert") && tokens != []);
    if runs {
      assert NamedStep(b, t, name, tokens, jpg) == Record(t, name, ScoreOf(b, name, tokens, jpg));
      RecordKeepsOrder(b, t, ex, name, tokens, jpg);
    } else {
      assert NamedStep(b, t, name, tokens, jpg) == t;
      assert ex + [] == ex;
    }
  }

  lemma RecordKeepsOrder(b: Backends, t: Tally, ex: seq<string>, name: string, tokens: seq<string>, jpg: string)
    requires InOrder(b, t, ex, tokens, jpg) && ScoreKey(name)
    ensures InOrder(b, Record(t, name, ScoreOf(b, name, tokens, jpg)), ex + [name], tokens, jpg)
  {
    var score := ScoreOf(b, name, tokens, jpg);
    var t', ex' := Record(t, name, score), ex + [name];
    assert t'.scores == t.scores + [score];
    forall i | 0 <= i < |ex'| ensures t'.scores[i] == ScoreOf(b, ex'[i], tokens, jpg) {
      if i < |ex| {
        assert t'.scores[i] == t.scores[i] && ex'[i] == ex[i];
      }
    }
    forall k ensures k in t'.results <==> k == "version" || k in ex' {
      assert k in ex' <==> k in ex || k == name;
    }
  }

  /** A repeated name is run and counted again: "linear,bert,linear" yields three scores. */
  lemma RepeatedNameCountsTwice(b: Backends, tokens: seq<string>, jpg: string)
    requires tokens != []
    ensures var x, y := ClassifyLinear(b.linearModel, tokens), ClassifyBert(b, TextPrep.TrimTokens(tokens, BertSlots));
      RunNamed(b, ["linear", "bert", "linear"], tokens, jpg).scores == [x, y, x]
  {
    var names := ["linear", "bert", "linear"];
    var x, y := ClassifyLinear(b.linearModel, tokens), ClassifyBert(b, TextPrep.TrimTokens(tokens, BertSlots));
    var two: seq<string> := ["linear", "bert"];
    var one: seq<string> := ["linear"];
    assert names[..2] == two && two[..1] == one && one[..0] == [];
    var t1 := RunNamed(b, one, tokens, jpg);
    assert t1 == Record(Start(), "linear", x);
    var t2 := RunNamed(b, two, tokens, jpg);
    assert t2 == Record(t1, "bert", y);
    assert RunNamed(b, names, tokens, jpg) == Record(t2, "linear", x);
  }

  lemma {:induction false} SumBounds(xs: seq<real>)
    requires forall i :: 0 <= i < |xs| ==> 0.0 <= xs[i] <= 1.0
    ensures 0.0 <= Sum(xs) <= |xs| as real
    decreases |xs|
  {
    if xs != [] {
      SumBounds(xs[1..]);
    }
  }

  /** The mean of scores in [0, 1] is in [0, 1]. */
  lemma MeanBounds(xs: seq<real>)
    requires xs != []
    requires forall i :: 0 <= i < |xs| ==> 0.0 <= xs[i] <= 1.0
    ensures 0.0 <= Mean(xs) <= 1.0
  {
    SumBounds(xs);
    var n := |xs| as real;
    assert Sum(xs) / n <= n / n;
  }

  /** The shape of every tally: the version entry, score entries in [0, 1], and a score list that is empty iff no score entry exists. */
  predicate Consistent(t: Tally, versions: map<string, string>) {
    && "version" in t.results && t.results["version"] == Versions(versions)
    && (forall k :: k in t.results ==> k == "version" || ScoreKey(k))
    && (forall k :: k in t.results && ScoreKey(k) ==> t.results[k].Score? && 0.0 <= t.results[k].score <= 1.0)
    && (forall i :: 0 <= i < |t.scores| ==> 0.0 <= t.scores[i] <= 1.0)
    && (t.scores == [] <==> forall k :: k in t.results ==> !ScoreKey(k))
  }

  lemma NamedConsistent(b: Backends, names: seq<string>, tokens: seq<string>, jpg: string)
    ensures Consistent(RunNamed(b, names, tokens, jpg), VersionMap)
  {
    NamedScoresInOrder(b, names, tokens, jpg);
    var t, ex := RunNamed(b, names, tokens, jpg), Executed(names, tokens, jpg);
    if ex != [] {
      assert ex[0] in t.results;
    }
  }

  /** Recording a score in [0, 1] under a classifier's name keeps a tally consistent. */
  lemma RecordConsistent(t: Tally, versions: map<string, string>, name: string, score: real)
    requires Consistent(t, versions) && ScoreKey(name) && 0.0 <= score <= 1.0
    ensures Consistent(Record(t, name, score), versions)
  {
    var r := Record(t, name, score);
    assert name in r.results;
    forall i | 0 <= i < |r.scores| ensures 0.0 <= r.scores[i] <= 1.0 {
      if i < |t.scores| { assert r.scores[i] == t.scores[i]; }
    }
  }

  lemma AutoConsistent(b: Backends, tokens: seq<string>, jpg: string)
    requires RunAuto(b, tokens, jpg).Success?
    ensures Consistent(RunAuto(b, tokens, jpg).value, VersionMap)
  {
    assert Consistent(Start(), VersionMap);
    if tokens != [] {
      var linear := ClassifyLinear(b.linearModel, tokens);
      RecordConsistent(Start(), VersionMap, "linear", linear);
      if BandLow <= linear <= BandHigh {
        var bert := ClassifyBert(b, TextPrep.TrimTokens(tokens, BertSlots));
        RecordConsistent(Record(Start(), "linear", linear), VersionMap, "bert", bert);
      }
    } else {
      RecordConsistent(Start(), VersionMap, "image", ClassifyImage(b, jpg).value);
    }
  }

  /** The keys an answer may carry. */
  predicate ResponseKey(k: string) {
    k == "version" || ScoreKey(k) || k == "is_research"
  }

  /**
   * Every answer carries the version table, only the keys above, scores in
   * [0, 1], and "is_research" exactly when some classifier ran, as the mean
   * of the recorded scores, which is again in [0, 1].
   */
  lemma ResponseShape(b: Backends, modes: string, text: string, jpg: string)
    requires ClassifyPdf(b, modes, text, jpg).Success?
    ensures var m := ClassifyPdf(b, modes, text, jpg).value;
      && "version" in m && m["version"] == Versions(VersionMap)
      && (forall k :: k in m ==> ResponseKey(k))
      && ("is_research" in m <==> "image" in m || "linear" in m || "bert" in m)
      && (forall k :: k in m && k != "version" ==> m[k].Score? && 0.0 <= m[k].score <= 1.0)
  {
    var modeList := ModeList(modes);
    var tokens := TextTokens(modeList, text);
    var t: Tally;
    if "auto" in modeList {
      AutoConsistent(b, tokens, jpg);
      t := RunAuto(b, tokens, jpg).value;
    } else {
      NamedConsistent(b, modeList, tokens, jpg);
      t := RunNamed(b, modeList, tokens, jpg);
    }
    assert ClassifyPdf(b, modes, text, jpg).value == Conclude(t);
    if t.scores != [] {
      MeanBounds(t.scores);
    }
  }

  /** The scores the executed names record, in order. */
  function Scores(b: Backends, ex: seq<string>, tokens: seq<string>, jpg: string): (s: seq<real>)
    ensures |s| == |ex|
  {
    seq(|ex|, i requires 0 <= i < |ex| => ScoreOf(b, ex[i], tokens, jpg))
  }

  /** With named classifiers, "is_research" is there iff some entry ran, as the mean of their scores. */
  predicate NamedMean(m: map<string, Value>, ex: seq<string>, scores: seq<real>)
    requires |scores| == |ex|
  {
    && ("is_research" in m <==> ex != [])
    && (ex != [] ==> m["is_research"] == Score(Mean(scores)))
  }

  /** With "auto", "is_research" is the image score, the linear score, or the mean of linear and BERT. */
  predicate AutoMean(m: map<string, Value>, tokens: seq<string>)
  {
    && "is_research" in m
    && (tokens == [] ==> "image" in m && m["is_research"] == m["image"])
    && (tokens != [] && "bert" !in m ==> "linear" in m && m["is_research"] == m["linear"])
    && (tokens != [] && "bert" in m ==>
          "linear" in m && m["linear"].Score? && m["bert"].Score?
          && m["is_research"] == Score((m["linear"].score + m["bert"].score) / 2.0))
  }

  /**
   * "is_research" is the mean of the scores the request recorded: with named
   * classifiers, of one score per entry that ran (a repeated name counting
   * each time); with "auto", the linear score alone, the mean of the linear
   * and BERT scores, or the image score.
   */
  lemma IsResearchIsMean(b: Backends, modes: string, text: string, jpg: string)
    requires ClassifyPdf(b, modes, text, jpg).Success?
    ensures var modeList := ModeList(modes); var tokens := TextTokens(modeList, text);
      var ex, m := Executed(modeList, tokens, jpg), ClassifyPdf(b, modes, text, jpg).value;
      && ("auto" !in modeList ==> NamedMean(m, ex, Scores(b, ex, tokens, jpg)))
      && ("auto" in modeList ==> AutoMean(m, tokens))
  {
    var modeList := ModeList(modes);
    var tokens := TextTokens(modeList, text);
    var m := ClassifyPdf(b, modes, text, jpg).value;
    if "auto" in modeList {
      assert m == Conclude(RunAuto(b, tokens, jpg).value);
      AutoIsResearch(b, tokens, jpg);
    } else {
      assert m == Conclude(RunNamed(b, modeList, tokens, jpg));
      NamedIsResearch(b, modeList, tokens, jpg);
    }
  }

  /** The named branch's "is_research": the mean of the executed names' scores. */
  lemma NamedIsResearch(b: Backends, names: seq<string>, tokens: seq<string>, jpg: string)
    ensures var ex := Executed(names, tokens, jpg);
      NamedMean(Conclude(RunNamed(b, names, tokens, jpg)), ex, Scores(b, ex, tokens, jpg))
  {
    var t, ex := RunNamed(b, names, tokens, jpg), Executed(names, tokens, jpg);
    NamedScoresInOrder(b, names, tokens, jpg);
    assert t.scores == Scores(b, ex, tokens, jpg);
    ConcludeKeeps(t, "version");
    assert "is_research" !in t.results by { assert !("is_research" == "version" || "is_research" in ex); }
  }

  /** The auto branch's "is_research": its one score, or the mean of linear and BERT. */
  lemma AutoIsResearch(b: Backends, tokens: seq<string>, jpg: string)
    requires RunAuto(b, tokens, jpg).Success?
    ensures AutoMean(Conclude(RunAuto(b, tokens, jpg).value), tokens)
  {
    var t := RunAuto(b, tokens, jpg).value;
    var m := Conclude(t);
    assert t.scores != [];
    assert m["is_research"] == Score(Mean(t.scores));
    ConcludeKeeps(t, "linear");
    ConcludeKeeps(t, "bert");
    ConcludeKeeps(t, "image");
    if tokens != [] {
      var linear := ClassifyLinear(b.linearModel, tokens);
      var t1 := Record(Start(), "linear", linear);
      if BandLow <= linear <= BandHigh {
        var bert := ClassifyBert(b, TextPrep.TrimTokens(tokens, BertSlots));
        assert t == Record(t1, "bert", bert);
        assert t.scores == [linear, bert];
        MeanTwo(linear, bert);
      } else {
        assert t == t1 && t.scores == [linear];
        MeanOne(linear);
      }
    } else {
      var image := ClassifyImage(b, jpg).value;
      assert t == Record(Start(), "image", image) && t.scores == [image];
      MeanOne(image);
    }
  }

  lemma MeanOne(x: real)
    ensures Mean([x]) == x
  {
    assert [x][1..] == [];
    assert Sum([x]) == x;
  }

  lemma MeanTwo(x: real, y: real)
    ensures Mean([x, y]) == (x + y) / 2.0
  {
    assert [x, y][1..] == [y];
    assert [y][1..] == [];
    assert Sum([y]) == y;
    assert Sum([x, y]) == x + y;
  }

  /**
   * A request in which no classifier can run (here: only "linear", on text
   * too short to tokenize) is answered with the version table alone.
   */
  lemma NothingRunAnswersVersionOnly(b: Backends, text: string, jpg: string)
    requires |text| < MinTextLength
    ensures ClassifyPdf(b, "linear", text, jpg) == Success(map["version" := Versions(VersionMap)])
  {
    SplitNoSep("linear", ',');
    assert "linear" != "all" && "linear" != "auto" by { assert "linear"[1] != "all"[1] && "linear"[1] != "auto"[1]; }
    assert ["linear"][..0] == [];
  }

  /** A mode list naming "all" runs image, linear and bert, never auto, exactly as "all" alone does. */
  lemma AllSelectsThreeClassifiers(b: Backends, modes: string, text: string, jpg: string)
    requires "all" in Split(modes, ',')
    ensures ModeList(modes) == ["image", "linear", "bert"] && "auto" !in ModeList(modes)
    ensures ClassifyPdf(b, modes, text, jpg) == ClassifyPdf(b, "all", text, jpg)
  {
    SplitNoSep("all", ',');
  }

  /** With "auto" present (and no "all"), the other names of the request make no difference. */
  lemma AutoIgnoresOtherNames(b: Backends, modes1: string, modes2: string, text: string, jpg: string)
    requires "auto" in Split(modes1, ',') && "all" !in Split(modes1, ',')
    requires "auto" in Split(modes2, ',') && "all" !in Split(modes2, ',')
    ensures ClassifyPdf(b, modes1, text, jpg) == ClassifyPdf(b, modes2, text, jpg)
  {
  }

  /**
   * The auto plan: linear runs iff there are tokens, bert iff the linear
   * score is in [0.15, 0.85], the image iff there are no tokens, and the
   * request raises iff there are no tokens and no usable page image.
   */
  lemma AutoPlan(b: Backends, modes: string, text: string, jpg: string)
    requires "auto" in ModeList(modes)
    ensures var tokens := TextTokens(ModeList(modes), text);
      ClassifyPdf(b, modes, text, jpg).Failure? <==> tokens == [] && jpg == ""
    ensures var tokens, r := TextTokens(ModeList(modes), text), ClassifyPdf(b, modes, text, jpg);
      r.Success? ==>
        && ("linear" in r.value <==> tokens != [])
        && ("image" in r.value <==> tokens == [])
        && ("bert" in r.value <==> "linear" in r.value && BandLow <= r.value["linear"].score <= BandHigh)
  {
    var tokens := TextTokens(ModeList(modes), text);
    AutoRunPlan(b, tokens, jpg);
    var a := RunAuto(b, tokens, jpg);
    if a.Success? {
      assert ClassifyPdf(b, modes, text, jpg) == Success(Conclude(a.value));
      ConcludeKeeps(a.value, "linear");
      ConcludeKeeps(a.value, "image");
      ConcludeKeeps(a.value, "bert");
    }
  }

  /** The auto branch fails exactly without tokens and page image; otherwise it records its plan. */
  lemma AutoRunPlan(b: Backends, tokens: seq<string>, jpg: string)
    ensures RunAuto(b, tokens, jpg).Failure? <==> tokens == [] && jpg == ""
    ensures var r := RunAuto(b, tokens, jpg);
      r.Success? ==>
        var m := r.value.results;
        && ("linear" in m <==> tokens != [])
        && ("image" in m <==> tokens == [])
        && ("bert" in m <==> "linear" in m && BandLow <= m["linear"].score <= BandHigh)
  {
  }

  /** Concluding adds only "is_research"; every other entry is kept as it was. */
  lemma ConcludeKeeps(t: Tally, k: string)
    requires k != "is_research"
    ensures k in Conclude(t) <==> k in t.results
    ensures k in t.results ==> Conclude(t)[k] == t.results[k]
  {
  }


  /**
   * Text shorter than 300 characters yields no tokens, so neither text
   * classifier records a score, whatever the mode list.
   */
  lemma ShortTextSkipsTextClassifiers(b: Backends, modes: string, text: string, jpg: string)
    requires |text| < MinTextLength
    requires ClassifyPdf(b, modes, text, jpg).Success?
    ensures var m := ClassifyPdf(b, modes, text, jpg).value;
      "linear" !in m && "bert" !in m
  {
    var modeList := ModeList(modes);
    assert TextTokens(modeList, text) == [];
    if "auto" !in modeList {
      NamedScoresInOrder(b, modeList, [], jpg);
      var ex := Executed(modeList, [], jpg);
      forall i | 0 <= i < |ex| ensures ex[i] == "image" {
        ExecutedHasInput(modeList, [], jpg, i);
      }
    }
  }

  /** A classifier runs only on its input: the image on a rendered page, the text ones on tokens. */
  predicate HasInput(name: string, tokens: seq<string>, jpg: string) {
    (name == "image" && jpg != "") || (name != "image" && tokens != [])
  }

  lemma {:induction false} ExecutedHasInput(names: seq<string>, tokens: seq<string>, jpg: string, i: nat)
    requires i < |Executed(names, tokens, jpg)|
    ensures HasInput(Executed(names, tokens, jpg)[i], tokens, jpg)
    decreases |names|
  {
    var init := names[..|names| - 1];
    if i < |Executed(init, tokens, jpg)| {
      ExecutedHasInput(init, tokens, jpg, i);
    } else {
      assert "linear" != "image" && "bert" != "image" by {
        assert "linear"[0] != "image"[0] && "bert"[0] != "image"[0];
      }
    }
  }

  /**
   * Without the auto branch the request never raises; a named image entry
   * is skipped when no usable page image was rendered.
   */
  lemma NamedImageNeedsRenderedPage(b: Backends, modes: string, text: string)
    requires "auto" !in ModeList(modes)
    ensures ClassifyPdf(b, modes, text, "").Success?
    ensures "image" !in ClassifyPdf(b, modes, text, "").value
  {
    var modeList := ModeList(modes);
    var tokens := TextTokens(modeList, text);
    NamedScoresInOrder(b, modeList, tokens, "");
    var ex := Executed(modeList, tokens, "");
    forall i | 0 <= i < |ex| ensures ex[i] != "image" {
      ExecutedHasInput(modeList, tokens, "", i);
    }
  }

  /** Whether the page image is rendered during the request. */
  predicate ImageTouched(modeList: seq<string>, tokens: seq<string>) {
    if "auto" in modeList then tokens == [] else "image" in modeList
  }

  /** The temporary files after the image renderings of a request. */
  function FilesAfterImages(files: set<string>, touched: bool, tmpPdf: string, renderedSize: nat, debug: bool): set<string>
  {
    var jpg := PdfUtil.JpgName(tmpPdf);
    if !touched then files
    else if renderedSize > PdfUtil.ImageMinBytes && debug then files + {jpg}
    else files - {jpg}
  }

  /**
   * The temporary files after a request: the PDF is saved; a rendered page
   * stays only under debug retention; the PDF is removed unless debug
   * retention is on or the request raised first.
   */
  function FilesAfter(files: set<string>, modeList: seq<string>, tokens: seq<string>,
                      tmpPdf: string, renderedSize: nat, debug: bool): set<string>
  {
    var images := FilesAfterImages(files + {tmpPdf}, ImageTouched(modeList, tokens), tmpPdf, renderedSize, debug);
    var raised := "auto" in modeList && tokens == [] && renderedSize <= PdfUtil.ImageMinBytes;
    if raised || debug then images else images - {tmpPdf}
  }

  /** The auto branch fails only without tokens and without a rendered page, keeping the saved PDF. */
  lemma AutoFailureFiles(b: Backends, files: set<string>, modeList: seq<string>, tokens: seq<string>,
                         tmpPdf: string, renderedSize: nat, debug: bool)
    requires "auto" in modeList
    requires RunAuto(b, tokens, PdfUtil.ImageResult(tmpPdf, renderedSize)).Failure?
    ensures FilesAfter(files, modeList, tokens, tmpPdf, renderedSize, debug) == files + {tmpPdf} - {PdfUtil.JpgName(tmpPdf)}
  {
  }

  /**
   * Without debug retention a request that completes leaves no file of its
   * own behind; with it, or when the request raises, the saved PDF stays.
   */
  lemma TempFilesAfterRequest(files: set<string>, modeList: seq<string>, tokens: seq<string>,
                              tmpPdf: string, renderedSize: nat, debug: bool)
    ensures var after := FilesAfter(files, modeList, tokens, tmpPdf, renderedSize, debug);
      var raised := "auto" in modeList && tokens == [] && renderedSize <= PdfUtil.ImageMinBytes;
      && (!debug && !raised ==> after <= files && tmpPdf !in after)
      && (!debug && ImageTouched(modeList, tokens) ==> PdfUtil.JpgName(tmpPdf) !in after)
      && (debug || raised ==> tmpPdf in after)
      && after <= files + {tmpPdf, PdfUtil.JpgName(tmpPdf)}
  {
    var jpg := PdfUtil.JpgName(tmpPdf);
    assert jpg != tmpPdf;
  }

  /** The auto branch of `classify_pdf_multi`, on the tally it starts from. */
  method AutoBranch(b: Backends, tokens: seq<string>, area: PdfUtil.TempArea,
                    tmpPdf: string, renderedSize: nat, debug: bool)
    returns (r: Result<Tally, Error>)
    modifies area
    ensures r == RunAuto(b, tokens, PdfUtil.ImageResult(tmpPdf, renderedSize))
    ensures r.Failure? ==> area.files == old(area.files) - {PdfUtil.JpgName(tmpPdf)}
    ensures r.Success? ==> area.files == FilesAfterImages(old(area.files), tokens == [], tmpPdf, renderedSize, debug)
  {
    var results: map<string, Value> := map["version" := Versions(VersionMap)];
    var confidenceValues: seq<real> := [];
    if |tokens| != 0 {
      var linear := ClassifyLinear(b.linearModel, tokens);
      results := results["linear" := Score(linear)];
      confidenceValues := confidenceValues + [linear];
      if BandHigh >= linear >= BandLow {
        var trimmed := TextPrep.TrimTokens(tokens, BertSlots);
        var bert := ClassifyPdfBert(b, trimmed);
        results := results["bert" := Score(bert)];
        confidenceValues := confidenceValues + [bert];
      }
    } else {
      var jpg := area.ExtractPdfImage(tmpPdf, renderedSize);
      var image := ClassifyImage(b, jpg);
      if image.Failure? {
        return Failure(image.error);
      }
      results := results["image" := Score(image.value)];
      confidenceValues := confidenceValues + [image.value];
      if !debug {
        area.Remove(jpg);
      }
    }
    r := Success(Tally(results, confidenceValues));
  }

  /** The named-classifier loop of `classify_pdf_multi`. */
  method NamedLoop(b: Backends, modeList: seq<string>, tokens: seq<string>, area: PdfUtil.TempArea,
                   tmpPdf: string, renderedSize: nat, debug: bool)
    returns (t: Tally)
    modifies area
    ensures t == RunNamed(b, modeList, tokens, PdfUtil.ImageResult(tmpPdf, renderedSize))
    ensures area.files == FilesAfterImages(old(area.files), "image" in modeList, tmpPdf, renderedSize, debug)
  {
    ghost var jpgName := PdfUtil.ImageResult(tmpPdf, renderedSize);
    var results: map<string, Value> := map["version" := Versions(VersionMap)];
    var confidenceValues: seq<real> := [];
    for i := 0 to |modeList|
      invariant Tally(results, confidenceValues) == RunNamed(b, modeList[..i], tokens, jpgName)
      invariant area.files == FilesAfterImages(old(area.files), "image" in modeList[..i], tmpPdf, renderedSize, debug)
    {
      var name := modeList[i];
      assert modeList[..i + 1] == modeList[..i] + [name];
      assert modeList[..i + 1][..i] == modeList[..i];
      assert RunNamed(b, modeList[..i + 1], tokens, jpgName)
          == NamedStep(b, Tally(results, confidenceValues), name, tokens, jpgName);
      if name == "image" {
        var jpg := area.ExtractPdfImage(tmpPdf, renderedSize);
        if |jpg| == 0 {
          continue;
        }
        var image := ClassifyImage(b, jpg);
        results := results[name := Score(image.value)];
        confidenceValues := confidenceValues + [image.value];
        if !debug {
          area.Remove(jpg);
        }
      } else if name == "linear" {
        if |tokens| == 0 {
          continue;
        }
        var linear := ClassifyLinear(b.linearModel, tokens);
        results := results[name := Score(linear)];
        confidenceValues := confidenceValues + [linear];
      } else if name == "bert" {
        if |tokens| == 0 {
          continue;
        }
        var trimmed := TextPrep.TrimTokens(tokens, BertSlots);
        var bert := ClassifyPdfBert(b, trimmed);
        results := results[name := Score(bert)];
        confidenceValues := confidenceValues + [bert];
      }
    }
    assert modeList[..|modeList|] == modeList;
    t := Tally(results, confidenceValues);
  }

  /**
   * `classify_pdf_multi`: fills the answer map and the score list while
   * running the chosen classifiers, and keeps the temporary area as the
   * logging level says.
   */
  method ClassifyPdfMulti(b: Backends, modes: string, text: string, area: PdfUtil.TempArea,
                          tmpPdf: string, renderedSize: nat, debug: bool)
    returns (r: Result<map<string, Value>, Error>)
    modifies area
    ensures r == ClassifyPdf(b, modes, text, PdfUtil.ImageResult(tmpPdf, renderedSize))
    ensures area.files == FilesAfter(old(area.files), ModeList(modes),
      TextTokens(ModeList(modes), text), tmpPdf, renderedSize, debug)
  {
    var modeList := Split(modes, ',');
    var tokens: seq<string> := [];
    if "all" in modeList {
      modeList := ["image", "linear", "bert"];
    }
    assert modeList == ModeList(modes);
    area.Save(tmpPdf);
    if "linear" in modeList || "bert" in modeList || "auto" in modeList {
      if |text| < MinTextLength {
        tokens := [];
      } else {
        tokens := TextPrep.ExtractTokens(text);
      }
    }
    assert tokens == TextTokens(modeList, text);
    ghost var jpg := PdfUtil.ImageResult(tmpPdf, renderedSize);
    var t: Tally;
    if "auto" in modeList {
      var auto := AutoBranch(b, tokens, area, tmpPdf, renderedSize, debug);
      if auto.Failure? {
        AutoFailureFiles(b, old(area.files), modeList, tokens, tmpPdf, renderedSize, debug);
        return Failure(auto.error);
      }
      t := auto.value;
      assert ClassifyPdf(b, modes, text, jpg) == Success(Conclude(t));
    } else {
      t := NamedLoop(b, modeList, tokens, area, tmpPdf, renderedSize, debug);
      assert ClassifyPdf(b, modes, text, jpg) == Success(Conclude(t));
    }
    if !debug {
      area.Remove(tmpPdf);
    }
    var results, confidenceValues := t.results, t.scores;
    if |confidenceValues| != 0 {
      var overall := Sum(confidenceValues) / (|confidenceValues| as real);
      results := results["is_research" := Score(overall)];
    }
    r := Success(results);
  }
}
