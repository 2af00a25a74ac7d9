/**
 * The ensemble PDF classifier of the first version. It shares the mode
 * list, the tally and the fastText scoring with the packaged one (module
 * PdfClassifier), but differs in four ways: text shorter than 500
 * characters is not tokenized, BERT and the image model are stubs that
 * answer 0.599, a named "image" entry is scored even when no page image
 * was rendered, and the mean of the scores is computed and then dropped,
 * so the answer never carries "is_research" and a request in which no
 * classifier ran divides by zero.
 */
module LegacyPdfClassifier {
  import opened Wrappers
  import opened PyStr
  import Confidence
  import TextPrep
  import PdfUtil
  import PC = PdfClassifier

  /** Extracted text shorter than this is not tokenized. */
  const MinTextLength: nat := 500
  /** The fixed answer of the BERT and image stubs. */
  const StubScore: real := 0.599

  /** The model versions reported with every answer. */
  const VersionMap: map<string, string> :=
    map["image" := "20190708", "linear" := "20190720", "bert" := "20190807", "urlmeta" := "20190722"]

  /** `sum([]) / len([])` raises. */
  datatype Error = ZeroDivision

  /** The token list of the request: empty unless text is needed and long enough. */
  function TextTokens(modeList: seq<string>, text: string): (tokens: seq<string>)
    ensures |text| < MinTextLength || !PC.NeedsText(modeList) ==> tokens == []
  {
    if PC.NeedsText(modeList) && |text| >= MinTextLength then TextPrep.ExtractTokens(text) else []
  }

  /** The tally before any classifier runs. */
  function Start(): (t: PC.Tally)
    ensures PC.Consistent(t, VersionMap)
  {
    PC.Tally(map["version" := PC.Versions(VersionMap)], [])
  }

  /** The BERT stub: the tokens are not looked at. */
  function ClassifyBert(tokens: seq<string>): (e: real)
    ensures 0.0 <= e <= 1.0 && Confidence.Decode(e).0 == Confidence.Research
  {
    StubScore
  }

  /** The image stub: the image name is not looked at, and may be "". */
  function ClassifyImage(jpg: string): (e: real)
    ensures 0.0 <= e <= 1.0 && Confidence.Decode(e).0 == Confidence.Research
  {
    StubScore
  }

  /** One entry of the named-classifier loop: "image" is always scored, the text ones need tokens. */
  function NamedStep(linearModel: string -> Confidence.Prediction, t: PC.Tally, name: string,
                     tokens: seq<string>, jpg: string): PC.Tally
  {
    if name == "image" then PC.Record(t, name, ClassifyImage(jpg))
    else if name == "linear" then
      if tokens == [] then t else PC.Record(t, name, PC.ClassifyLinear(linearModel, tokens))
    else if name == "bert" then
      if tokens == [] then t else PC.Record(t, name, ClassifyBert(TextPrep.TrimTokens(tokens, PC.BertSlots)))
    else t
  }

  /** The named-classifier loop over the entries of the mode list. */
  function RunNamed(linearModel: string -> Confidence.Prediction, names: seq<string>,
                    tokens: seq<string>, jpg: string): PC.Tally
    decreases |names|
  {
    if names == [] then Start()
    else NamedStep(linearModel, RunNamed(linearModel, names[..|names| - 1], tokens, jpg), names[|names| - 1], tokens, jpg)
  }

  /** The auto branch: fastText (and BERT in the band) with tokens, the image stub without. */
  function RunAuto(linearModel: string -> Confidence.Prediction, tokens: seq<string>, jpg: string): PC.Tally
  {
    if tokens != [] then
      var linear := PC.ClassifyLinear(linearModel, tokens);
      var t := PC.Record(Start(), "linear", linear);
      if PC.BandLow <= linear <= PC.BandHigh then
        PC.Record(t, "bert", ClassifyBert(TextPrep.TrimTokens(tokens, PC.BertSlots)))
      else t
    else PC.Record(Start(), "image", ClassifyImage(jpg))
  }

  /** The tally of a request, before the mean is taken. */
  function RunRequest(linearModel: string -> Confidence.Prediction, modes: string, text: string, jpg: string): PC.Tally
  {
    var modeList := PC.ModeList(modes);
    var tokens := TextTokens(modeList, text);
    if "auto" in modeList then RunAuto(linearModel, tokens, jpg) else RunNamed(linearModel, modeList, tokens, jpg)
  }

  /**
   * `classify_pdf_multi` of the first version: the mean of the scores is
   * computed, which raises when there are none, and then not stored.
   */
  function ClassifyPdf(linearModel: string -> Confidence.Prediction, modes: string, text: string, jpg: string)
    : Result<map<string, PC.Value>, Error>
  {
    var t := RunRequest(linearModel, modes, text, jpg);
    if |t.scores| == 0 then Failure(ZeroDivision) else Success(t.results)
  }

  /**
   * What the named loop records: "image" whenever it is named, at the stub
   * score; the text classifiers exactly when named and there are tokens,
   * BERT at the stub score. The tally is consistent.
   */
  lemma {:induction false} NamedResults(linearModel: string -> Confidence.Prediction, names: seq<string>,
                                        tokens: seq<string>, jpg: string)
    ensures var t := RunNamed(linearModel, names, tokens, jpg);
      && PC.Consistent(t, VersionMap)
      && ("image" in t.results <==> "image" in names)
      && ("linear" in t.results <==> "linear" in names && tokens != [])
      && ("bert" in t.results <==> "bert" in names && tokens != [])
      && ("image" in t.results ==> t.results["image"] == PC.Score(StubScore))
      && ("bert" in t.results ==> t.results["bert"] == PC.Score(StubScore))
    decreases |names|
  {
    if names != [] {
      var init, name := names[..|names| - 1], names[|names| - 1];
      assert names == init + [name];
      var t0 := RunNamed(linearModel, init, tokens, jpg);
      NamedResults(linearModel, init, tokens, jpg);
      if name == "image" {
        PC.RecordConsistent(t0, VersionMap, name, StubScore);
      } else if name == "linear" && tokens != [] {
        PC.RecordConsistent(t0, VersionMap, name, PC.ClassifyLinear(linearModel, tokens));
      } else if name == "bert" && tokens != [] {
        PC.RecordConsistent(t0, VersionMap, name, StubScore);
      }
    }
  }

  /** The auto branch records linear iff there are tokens, the image iff there are none, and BERT in the band. */
  lemma AutoResults(linearModel: string -> Confidence.Prediction, tokens: seq<string>, jpg: string)
    ensures var t := RunAuto(linearModel, tokens, jpg);
      && PC.Consistent(t, VersionMap)
      && t.scores != []
      && ("linear" in t.results <==> tokens != [])
      && ("image" in t.results <==> tokens == [])
      && ("bert" in t.results <==> "linear" in t.results && PC.BandLow <= t.results["linear"].score <= PC.BandHigh)
      && ("image" in t.results ==> t.results["image"] == PC.Score(StubScore))
      && ("bert" in t.results ==> t.results["bert"] == PC.Score(StubScore))
  {
    if tokens != [] {
      var linear := PC.ClassifyLinear(linearModel, tokens);
      PC.RecordConsistent(Start(), VersionMap, "linear", linear);
      if PC.BandLow <= linear <= PC.BandHigh {
        PC.RecordConsistent(PC.Record(Start(), "linear", linear), VersionMap, "bert", StubScore);
      }
    } else {
      PC.RecordConsistent(Start(), VersionMap, "image", StubScore);
    }
  }

  /**
   * The request raises exactly when no classifier ran: no auto, no image,
   * and either no tokens or no text classifier named.
   */
  lemma RaisesIffNothingRan(linearModel: string -> Confidence.Prediction, modes: string, text: string, jpg: string)
    ensures var modeList, tokens := PC.ModeList(modes), TextTokens(PC.ModeList(modes), text);
      ClassifyPdf(linearModel, modes, text, jpg).Failure? <==>
        ("auto" !in modeList && "image" !in modeList && (tokens == [] || ("linear" !in modeList && "bert" !in modeList)))
  {
    var modeList := PC.ModeList(modes);
    var tokens := TextTokens(modeList, text);
    if "auto" in modeList {
      AutoResults(linearModel, tokens, jpg);
    } else {
      NamedResults(linearModel, modeList, tokens, jpg);
    }
  }

  /** The answer never holds "is_research": it has the version table and the recorded scores only. */
  lemma NeverReportsIsResearch(linearModel: string -> Confidence.Prediction, modes: string, text: string, jpg: string)
    requires ClassifyPdf(linearModel, modes, text, jpg).Success?
    ensures var m := ClassifyPdf(linearModel, modes, text, jpg).value;
      && "is_research" !in m
      && "version" in m && m["version"] == PC.Versions(VersionMap)
      && (forall k :: k in m ==> k == "version" || PC.ScoreKey(k))
      && (exists k :: k in m && PC.ScoreKey(k))
  {
    var modeList := PC.ModeList(modes);
    var tokens := TextTokens(modeList, text);
    if "auto" in modeList {
      AutoResults(linearModel, tokens, jpg);
    } else {
      NamedResults(linearModel, modeList, tokens, jpg);
    }
    assert !PC.ScoreKey("is_research");
  }

  /** A request for "linear" alone on text shorter than 500 characters raises. */
  lemma NothingRunRaises(linearModel: string -> Confidence.Prediction, text: string, jpg: string)
    requires |text| < MinTextLength
    ensures ClassifyPdf(linearModel, "linear", text, jpg) == Failure(ZeroDivision)
  {
    SplitNoSep("linear", ',');
    assert "linear" != "all" && "linear" != "auto" by { assert "linear"[1] != "all"[1] && "linear"[1] != "auto"[1]; }
    assert ["linear"][..0] == [];
  }

  /** A named "image" entry is always scored at the stub value, rendered page or not, and the request succeeds. */
  lemma NamedImageAlwaysScored(linearModel: string -> Confidence.Prediction, modes: string, text: string, jpg: string)
    requires "auto" !in PC.ModeList(modes) && "image" in PC.ModeList(modes)
    ensures ClassifyPdf(linearModel, modes, text, jpg).Success?
    ensures var m := ClassifyPdf(linearModel, modes, text, jpg).value;
      "image" in m && m["image"] == PC.Score(StubScore)
  {
    var modeList := PC.ModeList(modes);
    NamedResults(linearModel, modeList, TextTokens(modeList, text), jpg);
  }

  /** With "auto" the request never raises; the stubs answer 0.599 wherever they ran. */
  lemma AutoPlan(linearModel: string -> Confidence.Prediction, modes: string, text: string, jpg: string)
    requires "auto" in PC.ModeList(modes)
    ensures ClassifyPdf(linearModel, modes, text, jpg).Success?
    ensures var m, tokens := ClassifyPdf(linearModel, modes, text, jpg).value, TextTokens(PC.ModeList(modes), text);
      && ("linear" in m <==> tokens != [])
      && ("image" in m <==> tokens == [])
      && ("image" in m ==> m["image"] == PC.Score(StubScore))
      && ("bert" in m ==> m["bert"] == PC.Score(StubScore))
  {
    AutoResults(linearModel, TextTokens(PC.ModeList(modes), text), jpg);
  }

  /** Text shorter than 500 characters leaves both text classifiers out, whatever the mode list. */
  lemma ShortTextSkipsTextClassifiers(linearModel: string -> Confidence.Prediction, modes: string, text: string, jpg: string)
    requires |text| < MinTextLength
    requires ClassifyPdf(linearModel, modes, text, jpg).Success?
    ensures var m := ClassifyPdf(linearModel, modes, text, jpg).value;
      "linear" !in m && "bert" !in m
  {
    var modeList := PC.ModeList(modes);
    if "auto" in modeList {
      AutoResults(linearModel, [], jpg);
    } else {
      NamedResults(linearModel, modeList, [], jpg);
    }
  }

  /** Whether the page image is rendered during the request. */
  predicate ImageTouched(modeList: seq<string>, tokens: seq<string>) {
    if "auto" in modeList then tokens == [] else "image" in modeList
  }

  /**
   * The temporary files after a request: the PDF is saved, every rendered
   * page is removed after scoring, and the PDF is removed before the mean
   * is taken, so also when the request raises.
   */
  function FilesAfter(files: set<string>, modeList: seq<string>, tokens: seq<string>, tmpPdf: string): set<string>
  {
    var saved := files + {tmpPdf};
    var images := if ImageTouched(modeList, tokens) then saved - {PdfUtil.JpgName(tmpPdf)} else saved;
    images - {tmpPdf}
  }

  /** A request leaves no file of its own behind, raising or not. */
  lemma TempFilesAfterRequest(files: set<string>, modeList: seq<string>, tokens: seq<string>, tmpPdf: string)
    ensures var after := FilesAfter(files, modeList, tokens, tmpPdf);
      && after <= files && tmpPdf !in after
      && (ImageTouched(modeList, tokens) ==> PdfUtil.JpgName(tmpPdf) !in after)
      && (forall f :: f in files && f != tmpPdf && (f == PdfUtil.JpgName(tmpPdf) ==> !ImageTouched(modeList, tokens)) ==> f in after)
  {
  }

  /** The named-classifier loop of the first version. */
  method NamedLoop(linearModel: string -> Confidence.Prediction, modeList: seq<string>, tokens: seq<string>,
                   area: PdfUtil.TempArea, tmpPdf: string, renderedSize: nat)
    returns (t: PC.Tally)
    requires "" !in area.files
    modifies area
    ensures t == RunNamed(linearModel, modeList, tokens, PdfUtil.ImageResult(tmpPdf, renderedSize))
    ensures area.files == if "image" in modeList then old(area.files) - {PdfUtil.JpgName(tmpPdf)} else old(area.files)
  {
    ghost var jpgName := PdfUtil.ImageResult(tmpPdf, renderedSize);
    var results: map<string, PC.Value> := map["version" := PC.Versions(VersionMap)];
    var confidenceValues: seq<real> := [];
    for i := 0 to |modeList|
      invariant PC.Tally(results, confidenceValues) == RunNamed(linearModel, modeList[..i], tokens, jpgName)
      invariant area.files == if "image" in modeList[..i] then old(area.files) - {PdfUtil.JpgName(tmpPdf)} else old(area.files)
    {
      var name := modeList[i];
      assert modeList[..i + 1] == modeList[..i] + [name];
      assert modeList[..i + 1][..i] == modeList[..i];
      if name == "image" {
        var jpg := area.ExtractPdfImage(tmpPdf, renderedSize);
        var image := ClassifyImage(jpg);
        results := results[name := PC.Score(image)];
        confidenceValues := confidenceValues + [image];
        area.Remove(jpg);
      } else if name == "linear" {
        if |tokens| == 0 {
          continue;
        }
        var linear := PC.ClassifyLinear(linearModel, tokens);
        results := results[name := PC.Score(linear)];
        confidenceValues := confidenceValues + [linear];
      } else if name == "bert" {
        if |tokens| == 0 {
          continue;
        }
        var trimmed := TextPrep.TrimTokens(tokens, PC.BertSlots);
        var bert := ClassifyBert(trimmed);
        results := results[name := PC.Score(bert)];
        confidenceValues := confidenceValues + [bert];
      }
    }
    assert modeList[..|modeList|] == modeList;
    t := PC.Tally(results, confidenceValues);
  }

  /** The auto branch of the first version. */
  method AutoBranch(linearModel: string -> Confidence.Prediction, tokens: seq<string>,
                    area: PdfUtil.TempArea, tmpPdf: string, renderedSize: nat)
    returns (t: PC.Tally)
    requires "" !in area.files
    modifies area
    ensures t == RunAuto(linearModel, tokens, PdfUtil.ImageResult(tmpPdf, renderedSize))
    ensures area.files == if tokens == [] then old(area.files) - {PdfUtil.JpgName(tmpPdf)} else old(area.files)
  {
    var results: map<string, PC.Value> := map["version" := PC.Versions(VersionMap)];
    var confidenceValues: seq<real> := [];
    if |tokens| != 0 {
      var linear := PC.ClassifyLinear(linearModel, tokens);
      results := results["linear" := PC.Score(linear)];
      confidenceValues := confidenceValues + [linear];
      if PC.BandHigh >= linear >= PC.BandLow {
        var trimmed := TextPrep.TrimTokens(tokens, PC.BertSlots);
        var bert := ClassifyBert(trimmed);
        results := results["bert" := PC.Score(bert)];
        confidenceValues := confidenceValues + [bert];
      }
    } else {
      var jpg := area.ExtractPdfImage(tmpPdf, renderedSize);
      var image := ClassifyImage(jpg);
      results := results["image" := PC.Score(image)];
      confidenceValues := confidenceValues + [image];
      area.Remove(jpg);
    }
    t := PC.Tally(results, confidenceValues);
  }

  /**
   * `classify_pdf_multi` of the first version. The temporary file name is
   * never empty and no file in the area has the empty name, so removing the
   * "" that a blank page yields changes nothing.
   */
  method ClassifyPdfMulti(linearModel: string -> Confidence.Prediction, modes: string, text: string,
                          area: PdfUtil.TempArea, tmpPdf: string, renderedSize: nat)
    returns (r: Result<map<string, PC.Value>, Error>)
    requires tmpPdf != "" && "" !in area.files
    modifies area
    ensures r == ClassifyPdf(linearModel, modes, text, PdfUtil.ImageResult(tmpPdf, renderedSize))
    ensures area.files == FilesAfter(old(area.files), PC.ModeList(modes),
      TextTokens(PC.ModeList(modes), text), tmpPdf)
  {
    var modeList := Split(modes, ',');
    var tokens: seq<string> := [];
    if "all" in modeList {
      modeList := ["image", "linear", "bert"];
    }
    area.Save(tmpPdf);
    if "linear" in modeList || "bert" in modeList || "auto" in modeList {
      if |text| < MinTextLength {
        tokens := [];
      } else {
        tokens := TextPrep.ExtractTokens(text);
      }
    }
    assert tokens == TextTokens(modeList, text);
    var t: PC.Tally;
    if "auto" in modeList {
      t := AutoBranch(linearModel, tokens, area, tmpPdf, renderedSize);
    } else {
      t := NamedLoop(linearModel, modeList, tokens, area, tmpPdf, renderedSize);
    }
    area.Remove(tmpPdf);
    if |t.scores| == 0 {
      return Failure(ZeroDivision);
    }
    var overall := PC.Sum(t.scores) / (|t.scores| as real);
    r := Success(t.results);
  }
}
