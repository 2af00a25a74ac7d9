/**
 * The BERT training-data script. Every `.txt` file of the input directory
 * becomes one row `id TAB category TAB a TAB text` of a TSV file, where the
 * text is cleaned (control runs, twelve punctuation characters and
 * whitespace runs become single spaces) and trimmed to the token budget.
 * The directory listing is a parameter: a sequence of (file name, content)
 * pairs in the order the listing yields them.
 */
module GenBertData {
  import opened PyStr
  import TextPrep
  import BatchLimit

  /** The characters the script replaces by a space, one `replace` call each. */
  const PunctChars: string := ",.!;-\"'()[]/"

  /** The twelve `replace(c, ' ')` calls: each listed character becomes a space. */
  function ReplacePunct(s: string): (r: string)
    ensures |r| == |s|
    ensures forall i :: 0 <= i < |r| ==> r[i] !in PunctChars
    ensures forall i :: 0 <= i < |s| ==> r[i] == s[i] || (s[i] in PunctChars && r[i] == ' ')
  {
    seq(|s|, i requires 0 <= i < |s| => if s[i] in PunctChars then ' ' else s[i])
  }

  /** Length of the leading run of whitespace. */
  function SpaceRunLength(s: string): (n: nat)
    ensures n <= |s|
    ensures forall i :: 0 <= i < n ==> IsSpace(s[i])
    ensures n < |s| ==> !IsSpace(s[n])
  {
    if s == [] || !IsSpace(s[0]) then 0 else 1 + SpaceRunLength(s[1..])
  }

  /** No two neighbouring characters are both whitespace. */
  predicate NoSpaceRuns(s: string)
  {
    forall i :: 0 <= i < |s| - 1 ==> !IsSpace(s[i]) || !IsSpace(s[i + 1])
  }

  /** Gluing two strings without runs makes none when the seam is not two spaces. */
  lemma GlueNoSpaceRuns(a: string, b: string)
    requires NoSpaceRuns(a) && NoSpaceRuns(b)
    requires a == [] || b == [] || !IsSpace(a[|a| - 1]) || !IsSpace(b[0])
    ensures NoSpaceRuns(a + b)
  {
    var ab := a + b;
    forall i | 0 <= i < |ab| - 1 ensures !IsSpace(ab[i]) || !IsSpace(ab[i + 1]) {
      if i + 1 < |a| {
        assert ab[i] == a[i] && ab[i + 1] == a[i + 1];
      } else if i >= |a| {
        assert ab[i] == b[i - |a|] && ab[i + 1] == b[i + 1 - |a|];
      }
    }
  }

  /** Characters of a suffix other than spaces come from the whole string. */
  lemma SuffixChars(s: string, k: nat, rest: string)
    requires k <= |s|
    requires forall i :: 0 <= i < |rest| ==> rest[i] in s[k..] || rest[i] == ' '
    ensures forall i :: 0 <= i < |rest| ==> rest[i] in s || rest[i] == ' '
  {
    forall i | 0 <= i < |rest| && rest[i] != ' ' ensures rest[i] in s {
      var j :| 0 <= j < |s[k..]| && s[k..][j] == rest[i];
      assert s[k + j] == rest[i];
    }
  }

  /**
   * `re.sub('\s+', ' ', s)`: every maximal run of whitespace becomes one
   * space; the words between the runs are copied.
   */
  function CollapseSpaces(s: string): (r: string)
    ensures forall i :: 0 <= i < |r| ==> r[i] in s || r[i] == ' '
    ensures NoSpaceRuns(r)
    ensures s == [] <==> r == []
    ensures s != [] && IsSpace(s[0]) ==> r[0] == ' '
    ensures s != [] && !IsSpace(s[0]) ==> r[0] == s[0]
    decreases |s|
  {
    if s == [] then []
    else if IsSpace(s[0]) then
      var k := SpaceRunLength(s);
      var rest := CollapseSpaces(s[k..]);
      SuffixChars(s, k, rest);
      GlueNoSpaceRuns([' '], rest);
      [' '] + rest
    else
      var n := WordLength(s);
      var rest := CollapseSpaces(s[n..]);
      SuffixChars(s, n, rest);
      assert NoSpaceRuns(s[..n]);
      GlueNoSpaceRuns(s[..n], rest);
      s[..n] + rest
  }

  /** Leading whitespace makes no difference to the words. */
  lemma {:induction false} WordsSkipSpaces(s: string, k: nat)
    requires k <= |s| && forall i :: 0 <= i < k ==> IsSpace(s[i])
    ensures Words(s) == Words(s[k..])
    decreases k
  {
    if k > 0 {
      WordsSkipSpaces(s[1..], k - 1);
      assert s[1..][k - 1..] == s[k..];
    }
  }

  /** Collapsing whitespace runs does not change the words `split()` finds. */
  lemma {:induction false} CollapseKeepsWords(s: string)
    ensures Words(CollapseSpaces(s)) == Words(s)
    decreases |s|
  {
    if s != [] {
      if IsSpace(s[0]) {
        var k := SpaceRunLength(s);
        var rest := CollapseSpaces(s[k..]);
        CollapseKeepsWords(s[k..]);
        WordsSkipSpaces(s, k);
        assert ([' '] + rest)[1..] == rest;
      } else {
        var n := WordLength(s);
        var w, rest := s[..n], CollapseSpaces(s[n..]);
        CollapseKeepsWords(s[n..]);
        WordPrefix(w, rest);
        assert (w + rest)[..n] == w && (w + rest)[n..] == rest;
      }
    }
  }

  /** The whole cleaning of a file's text. */
  function CleanText(text: string): (r: string)
    ensures forall i :: 0 <= i < |r| ==> !IsControl(r[i]) && r[i] !in PunctChars
    ensures NoSpaceRuns(r)
  {
    var a := ControlRunsToSpace(text);
    var b := ReplacePunct(a);
    assert forall c :: c in b ==> !IsControl(c) by {
      forall c | c in b ensures !IsControl(c) {
        var i :| 0 <= i < |b| && b[i] == c;
      }
    }
    CollapseSpaces(b)
  }

  /** `basename(filename[:-4])`: the file name without its directory and its four-character extension. */
  function DocId(filename: string): (id: string)
    ensures '/' !in id
  {
    TextPrep.Basename(Slice(filename, 0, -4))
  }

  /** The id of `dir/name.txt` is `name`. */
  lemma DocIdOfTxt(dir: string, name: string)
    requires '/' !in name
    ensures DocId(dir + "/" + name + ".txt") == name
  {
    var path := dir + "/" + name + ".txt";
    var stem := dir + "/" + name;
    assert Slice(path, 0, -4) == stem;
    assert stem[|stem| - 1 - |name|] == '/' && stem[|stem| - |name|..] == name;
    RFindCharAt(stem, '/', |stem| - 1 - |name|);
  }

  /** The text column: the words of the cleaned text, trimmed, joined by single spaces. */
  function TextColumn(text: string, maxTokens: int): string
  {
    Join(" ", TextPrep.TrimTokens(Words(CleanText(text)), maxTokens))
  }

  /** Trimming only ever keeps items of the list. */
  lemma TrimTokensKeeps(tokens: seq<string>, maxTokens: int)
    ensures forall k :: 0 <= k < |TextPrep.TrimTokens(tokens, maxTokens)| ==>
      TextPrep.TrimTokens(tokens, maxTokens)[k] in tokens
  {
    var n := |tokens|;
    if n > maxTokens {
      var frontEnd := TextPrep.HalfTowardZero(maxTokens);
      var backBegin := frontEnd + (n - maxTokens);
      var a, b := Slice(tokens, 0, frontEnd), Slice(tokens, backBegin, n);
      assert forall x :: x in a ==> x in tokens;
      assert forall x :: x in b ==> x in tokens;
    }
  }

  /** Splitting the text column gives back the trimmed words of the cleaned text. */
  lemma TextColumnWords(text: string, maxTokens: int)
    ensures Words(TextColumn(text, maxTokens)) == TextPrep.TrimTokens(Words(CleanText(text)), maxTokens)
  {
    var words := Words(CleanText(text));
    var ws := TextPrep.TrimTokens(words, maxTokens);
    TrimTokensKeeps(words, maxTokens);
    assert forall k :: 0 <= k < |ws| ==> IsWord(ws[k]);
    WordsJoin(ws);
  }

  /**
   * The text column contains no tab, no end of line, no control character
   * and none of the twelve punctuation characters.
   */
  lemma TextColumnChars(text: string, maxTokens: int, c: char)
    requires c in TextColumn(text, maxTokens)
    ensures c != '\t' && c != '\n' && !IsControl(c) && c !in PunctChars
  {
    var clean := CleanText(text);
    var words := Words(clean);
    var ws := TextPrep.TrimTokens(words, maxTokens);
    TrimTokensKeeps(words, maxTokens);
    JoinChars(" ", ws, c);
    if c != ' ' {
      var k :| 0 <= k < |ws| && c in ws[k];
      var j :| 0 <= j < |words| && words[j] == ws[k];
      var i :| 0 <= i < |words[j]| && words[j][i] == c;
      WordsChars(clean, j, i);
    }
  }

  /** One output row, with its end of line. */
  function Row(fid: string, category: string, text: string, maxTokens: int): string
  {
    TsvLine(fid, category, TextColumn(text, maxTokens))
  }

  /** The line `fid TAB category TAB a TAB column` with its end of line. */
  function TsvLine(fid: string, category: string, column: string): string
  {
    fid + "\t" + category + "\ta\t" + column + "\n"
  }

  /** Four tab-free fields joined by tabs split back into the four fields. */
  lemma SplitFourFields(a: string, b: string, c: string, d: string)
    requires '\t' !in a && '\t' !in b && '\t' !in c && '\t' !in d
    ensures Split(a + ['\t'] + (b + ['\t'] + (c + ['\t'] + d)), '\t') == [a, b, c, d]
  {
    SplitNoSep(d, '\t');
    SplitAtSep(c, d, '\t');
    SplitAtSep(b, c + ['\t'] + d, '\t');
    SplitAtSep(a, b + ['\t'] + (c + ['\t'] + d), '\t');
  }

  /** A line of tab-free fields ends with '\n' and splits back into them. */
  lemma TsvLineColumns(fid: string, category: string, column: string)
    requires '\t' !in fid && '\t' !in category && '\t' !in column
    ensures var line := TsvLine(fid, category, column);
      line[|line| - 1] == '\n'
      && Split(line[..|line| - 1], '\t') == [fid, category, "a", column]
  {
    var line := TsvLine(fid, category, column);
    assert line[..|line| - 1] == fid + ['\t'] + (category + ['\t'] + ("a" + ['\t'] + column));
    SplitFourFields(fid, category, "a", column);
  }

  /** A row is four tab-separated columns: the id, the category, "a" and the text. */
  lemma RowColumns(fid: string, category: string, text: string, maxTokens: int)
    requires '\t' !in fid && '\t' !in category
    ensures var row := Row(fid, category, text, maxTokens);
      row[|row| - 1] == '\n'
      && Split(row[..|row| - 1], '\t') == [fid, category, "a", TextColumn(text, maxTokens)]
  {
    var col := TextColumn(text, maxTokens);
    if '\t' in col {
      TextColumnChars(text, maxTokens, '\t');
    }
    TsvLineColumns(fid, category, col);
  }

  /** The row of one listed file, given as (file name, content). */
  function FileRow(category: string, maxTokens: int): ((string, string)) -> string
  {
    (file: (string, string)) => Row(DocId(file.0), category, file.1, maxTokens)
  }

  /** The concatenated rows of the given files, in listing order. */
  function Rows(files: seq<(string, string)>, rowOf: ((string, string)) -> string): string
  {
    if files == [] then "" else rowOf(files[0]) + Rows(files[1..], rowOf)
  }

  lemma {:induction false} RowsAppend(files: seq<(string, string)>, rowOf: ((string, string)) -> string, file: (string, string))
    ensures Rows(files + [file], rowOf) == Rows(files, rowOf) + rowOf(file)
    decreases |files|
  {
    if files != [] {
      assert (files + [file])[1..] == files[1..] + [file];
      RowsAppend(files[1..], rowOf, file);
    } else {
      assert [file][1..] == [];
    }
  }

  /** The processing of one file: its id, its cleaned and trimmed text, and the row. */
  method ProcessFile(filename: string, fileText: string, category: string, maxTokens: int) returns (row: string)
    ensures row == Row(DocId(filename), category, fileText, maxTokens)
  {
    var fid := DocId(filename);
    var cleaned := CleanText(fileText);
    var fileTokens := TextPrep.TrimTokens(Words(cleaned), maxTokens);
    row := fid + "\t" + category + "\ta\t" + Join(" ", fileTokens) + "\n";
  }

  /**
   * The main loop, with the row of a file computed by `rowOf`: one row per
   * processed file; under `--testing` it stops after five files.
   */
  method WriteRows(files: seq<(string, string)>, testing: bool, rowOf: ((string, string)) -> string)
    returns (content: string)
    ensures content == Rows(BatchLimit.Processed(files, testing), rowOf)
  {
    content := "";
    var kount := 0;
    var i := 0;
    while i < |files|
      invariant 0 <= i <= |files| && kount == i
      invariant testing ==> i <= BatchLimit.TestingRowLimit
      invariant content == Rows(files[..i], rowOf)
    {
      kount := kount + 1;
      if testing && kount > BatchLimit.TestingRowLimit {
        break;
      }
      RowsAppend(files[..i], rowOf, files[i]);
      assert files[..i + 1] == files[..i] + [files[i]];
      content := content + rowOf(files[i]);
      i := i + 1;
    }
    assert files[..|files|] == files;
  }

  /** The script's output: the row of every processed file, in listing order. */
  method WriteBertFile(files: seq<(string, string)>, category: string, maxTokens: int, testing: bool)
    returns (content: string)
    ensures content == Rows(BatchLimit.Processed(files, testing), FileRow(category, maxTokens))
  {
    content := WriteRows(files, testing, FileRow(category, maxTokens));
  }
}
