/**
 * The fastText training-data script for URLs. Every row of the input
 * table contributes one line `__label__<category> <token line>` to the
 * category's `.ft` file, where the token line is built by the same URL
 * functions the service uses (module UrlClassifier); optionally the set
 * of domains is written out as well.
 */
module PreprocessTsv {
  import opened PyStr
  import Confidence
  import UrlClassifier
  import LegacyUrlClassifier
  import BatchLimit

  /** fastText's label prefix. */
  const LabelPrefix: string := "__label__"

  /** One training example `__label__<category> <line>`, without its end of line. */
  function Labelled(category: string, line: string): (row: string)
    ensures var n := |LabelPrefix| + |category|;
      && |row| == n + 1 + |line|
      && row[..n] == LabelPrefix + category && row[n] == ' ' && row[n + 1..] == line
  {
    LabelPrefix + category + " " + line
  }

  /** The text written for the given token lines, one labelled row per line. */
  function RowsText(category: string, lines: seq<string>): string
  {
    if lines == [] then "" else Labelled(category, lines[0]) + "\n" + RowsText(category, lines[1..])
  }

  /** `[f(x) for x in xs]`. */
  function Each(xs: seq<string>, f: string -> string): (ys: seq<string>)
    ensures |ys| == |xs|
    ensures forall i :: 0 <= i < |xs| ==> ys[i] == f(xs[i])
  {
    seq(|xs|, i requires 0 <= i < |xs| => f(xs[i]))
  }

  lemma EachAppend(xs: seq<string>, f: string -> string, i: nat)
    requires i < |xs|
    ensures Each(xs[..i + 1], f) == Each(xs[..i], f) + [f(xs[i])]
  {
    var a, b := Each(xs[..i + 1], f), Each(xs[..i], f) + [f(xs[i])];
    forall j | 0 <= j <= i ensures a[j] == b[j] {
      assert xs[..i + 1][j] == xs[j];
    }
  }

  /** The token line of every input URL. */
  function TokenLines(urls: seq<string>): seq<string>
  {
    Each(urls, UrlClassifier.UrlLine)
  }

  /** The text the script writes for the given input rows. */
  function TrainingText(category: string, urls: seq<string>): string
  {
    RowsText(category, TokenLines(urls))
  }

  /**
   * The text after the label is exactly the line the service's URL
   * classifier hands to the model for the same URL, and not the line the
   * first version hands to it.
   */
  lemma ClassifierSeesTrainingText(category: string, url: string)
    ensures var line := UrlClassifier.UrlLine(url);
      && Labelled(category, line)[|LabelPrefix| + |category| + 1..] == line
      && LegacyUrlClassifier.LegacyUrlLine(url) != line
  {
    LegacyUrlClassifier.LegacyLineDiffers(url);
  }

  /** A row of category "research" carries the label the service decodes as research. */
  lemma ResearchRowLabel(line: string)
    ensures Confidence.IsResearchLabel(Labelled(Confidence.Research, line)[..|LabelPrefix| + |Confidence.Research|])
  {
    assert LabelPrefix + Confidence.Research == "__label__research";
  }

  /** A labelled row ends with whatever its line ends with. */
  lemma LabelledEndsWith(category: string, line: string, d: string)
    requires |d| <= |line| && line[|line| - |d|..] == d
    ensures var row := Labelled(category, line); |d| <= |row| && row[|row| - |d|..] == d
  {
    var row := Labelled(category, line);
    var n := |LabelPrefix| + |category| + 1;
    assert row[|row| - |d|..] == row[n..][|line| - |d|..];
  }

  /** A training row ends with the URL's domain, the last token of its line. */
  lemma TrainingRowEndsWithDomain(category: string, url: string)
    ensures var row, d := Labelled(category, UrlClassifier.UrlLine(url)), UrlClassifier.UrlDomain(url);
      |d| <= |row| && row[|row| - |d|..] == d
  {
    UrlClassifier.UrlLineEndsWithDomain(url);
    LabelledEndsWith(category, UrlClassifier.UrlLine(url), UrlClassifier.UrlDomain(url));
  }

  /** Appending one line appends its row to the text. */
  lemma {:induction false} RowsTextAppend(category: string, lines: seq<string>, line: string)
    ensures RowsText(category, lines + [line]) == RowsText(category, lines) + Labelled(category, line) + "\n"
    decreases |lines|
  {
    if lines != [] {
      assert (lines + [line])[1..] == lines[1..] + [line];
      RowsTextAppend(category, lines[1..], line);
    } else {
      assert [line][1..] == [];
    }
  }

  /**
   * When neither the category nor any token line holds an end of line,
   * the text splits into exactly one labelled row per line.
   */
  lemma {:induction false} RowsTextSplit(category: string, lines: seq<string>)
    requires '\n' !in category
    requires forall i :: 0 <= i < |lines| ==> '\n' !in lines[i]
    ensures Split(RowsText(category, lines), '\n') == seq(|lines|, i requires 0 <= i < |lines| => Labelled(category, lines[i])) + [""]
    decreases |lines|
  {
    if lines != [] {
      var row, rest := Labelled(category, lines[0]), RowsText(category, lines[1..]);
      LabelledNoNewline(category, lines[0]);
      SplitAtSep(row, rest, '\n');
      RowsTextSplit(category, lines[1..]);
    }
  }

  lemma LabelledNoNewline(category: string, line: string)
    requires '\n' !in category && '\n' !in line
    ensures '\n' !in Labelled(category, line)
  {
    assert '\n' !in LabelPrefix;
  }

  /** The training file holds one row per processed URL, labelled with the category. */
  lemma TrainingTextRows(category: string, urls: seq<string>)
    requires '\n' !in category
    requires forall i :: 0 <= i < |urls| ==> '\n' !in UrlClassifier.UrlLine(urls[i])
    ensures var rows := Split(TrainingText(category, urls), '\n');
      && |rows| == |urls| + 1 && rows[|urls|] == ""
      && forall i :: 0 <= i < |urls| ==> rows[i] == Labelled(category, UrlClassifier.UrlLine(urls[i]))
  {
    RowsTextSplit(category, TokenLines(urls));
  }

  /**
   * The main loop, with the token line of a row computed by `tokenLine`:
   * every processed row appends its labelled line; under `--testing` the
   * loop stops after five rows.
   */
  method WriteRows(category: string, urls: seq<string>, testing: bool, tokenLine: string -> string)
    returns (content: string)
    ensures content == RowsText(category, Each(BatchLimit.Processed(urls, testing), tokenLine))
  {
    content := "";
    var kount := 0;
    var i := 0;
    ghost var lines: seq<string> := [];
    while i < |urls|
      invariant 0 <= i <= |urls| && kount == i
      invariant testing ==> i <= BatchLimit.TestingRowLimit
      invariant lines == Each(urls[..i], tokenLine)
      invariant content == RowsText(category, lines)
    {
      kount := kount + 1;
      if testing && kount > BatchLimit.TestingRowLimit {
        break;
      }
      var tokensString := tokenLine(urls[i]);
      RowsTextAppend(category, lines, tokensString);
      EachAppend(urls, tokenLine, i);
      content := content + Labelled(category, tokensString) + "\n";
      lines := lines + [tokensString];
      i := i + 1;
    }
    assert urls[..|urls|] == urls;
  }

  /** The script's normal processing: one row per processed URL, with the service's token line. */
  method WriteTrainingFile(category: string, urls: seq<string>, testing: bool) returns (content: string)
    ensures content == TrainingText(category, BatchLimit.Processed(urls, testing))
  {
    content := WriteRows(category, urls, testing, UrlClassifier.UrlLine);
  }

  /** `set([f(x) for x in xs])`. */
  function Image(xs: seq<string>, f: string -> string): (ys: set<string>)
    ensures forall i :: 0 <= i < |xs| ==> f(xs[i]) in ys
    ensures forall y :: y in ys ==> exists i :: 0 <= i < |xs| && f(xs[i]) == y
  {
    set i | 0 <= i < |xs| :: f(xs[i])
  }

  /** The distinct domains of the input URLs (Wayback prefix removed), written one per line in the set's order. */
  function Domains(urls: seq<string>): set<string>
  {
    Image(urls, UrlClassifier.UrlDomain)
  }

  /** A set built from one value per list element has at most as many members as the list. */
  lemma {:induction false} ImageCount(xs: seq<string>, f: string -> string)
    ensures |Image(xs, f)| <= |xs|
    decreases |xs|
  {
    if xs != [] {
      var init, last := xs[..|xs| - 1], f(xs[|xs| - 1]);
      ImageCount(init, f);
      assert Image(xs, f) <= Image(init, f) + {last} by {
        forall d | d in Image(xs, f) ensures d in Image(init, f) + {last} {
          var i :| 0 <= i < |xs| && f(xs[i]) == d;
          if i < |xs| - 1 { assert init[i] == xs[i]; }
        }
      }
      SubsetCard(Image(xs, f), Image(init, f) + {last});
    }
  }

  lemma {:induction false} SubsetCard(a: set<string>, b: set<string>)
    requires a <= b
    ensures |a| <= |b|
    decreases |b|
  {
    if b != {} {
      var x :| x in b;
      SubsetCard(a - {x}, b - {x});
    }
  }

  /** There are never more domains than URLs, and never a '/' in one. */
  lemma DomainsCount(urls: seq<string>)
    ensures |Domains(urls)| <= |urls|
    ensures forall i :: 0 <= i < |urls| ==> UrlClassifier.UrlDomain(urls[i]) in Domains(urls)
    ensures forall d :: d in Domains(urls) ==> '/' !in d && exists i :: 0 <= i < |urls| && UrlClassifier.UrlDomain(urls[i]) == d
  {
    ImageCount(urls, UrlClassifier.UrlDomain);
  }
}
