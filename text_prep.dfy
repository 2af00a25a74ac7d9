/**
 * Text tokenization helpers of the classifier: the extended punctuation set,
 * whitespace tokenization with punctuation stripping, path helpers, head+tail
 * trimming of token lists and the BERT vocabulary table.
 */
module TextPrep {
  import opened PyStr

  /** Python's `string.punctuation`. */
  const AsciiPunctuation: string := "!\"#$%&'()*+,-./:;<=>?@[\\]^_`{|}~"

  /** The nine single code points appended after `string.punctuation`, in source order. */
  const ExtraPunctuation: string :=
    [191 as char, 1567 as char, 161 as char, 162 as char,
     163 as char, 165 as char, 169 as char, 174 as char, 167 as char]

  /** The four ASCII ranges that `string.punctuation` covers. */
  predicate IsAsciiPunct(c: char) {
    var n := c as int;
    (33 <= n <= 47) || (58 <= n <= 64) || (91 <= n <= 96) || (123 <= n <= 126)
  }

  predicate IsExtraPunct(c: char) {
    var n := c as int;
    n == 191 || n == 1567 || n == 161 || n == 162 || n == 163 || n == 165 || n == 169 || n == 174 || n == 167
  }

  /** The General Punctuation code points 8192..8302 that the loop appends (8293 is skipped). */
  predicate IsGeneralPunct(c: char) {
    8192 <= c as int < 8303 && c as int != 8293
  }

  /** Membership in `expanded_punct`. */
  predicate IsExpandedPunct(c: char) {
    IsAsciiPunct(c) || IsExtraPunct(c) || IsGeneralPunct(c)
  }

  lemma AsciiPunctuationRanges(c: char)
    ensures c in AsciiPunctuation <==> IsAsciiPunct(c)
  {
    if IsAsciiPunct(c) {
      var n := c as int;
      var i := if n <= 47 then n - 33 else if n <= 64 then n - 58 + 15 else if n <= 96 then n - 91 + 22 else n - 123 + 28;
      assert AsciiPunctuation[i] == c;
    }
  }

  lemma ExtraPunctuationCodes(c: char)
    ensures c in ExtraPunctuation <==> IsExtraPunct(c)
  {
    if IsExtraPunct(c) {
      var n := c as int;
      var i := if n == 191 then 0 else if n == 1567 then 1 else if n == 161 then 2
        else if n == 162 then 3 else if n == 163 then 4 else if n == 165 then 5
        else if n == 169 then 6 else if n == 174 then 7 else 8;
      assert ExtraPunctuation[i] == c;
    }
  }

  /** Builds `expanded_punct` the way the module initialisation does. */
  method BuildExpandedPunct() returns (punct: string)
    ensures forall c :: c in punct <==> IsExpandedPunct(c)
    ensures |punct| == |AsciiPunctuation| + |ExtraPunctuation| + 110
  {
    punct := AsciiPunctuation + [191 as char, 1567 as char, 161 as char, 162 as char];
    punct := punct + [163 as char, 165 as char, 169 as char, 174 as char, 167 as char];
    assert punct == AsciiPunctuation + ExtraPunctuation;
    forall c ensures c in punct <==> IsAsciiPunct(c) || IsExtraPunct(c) {
      AsciiPunctuationRanges(c);
      ExtraPunctuationCodes(c);
    }
    for i := 8192 to 8303
      invariant forall c :: c in punct <==>
        (IsAsciiPunct(c) || IsExtraPunct(c) || (8192 <= c as int < i && c as int != 8293))
      invariant |punct| == |AsciiPunctuation| + |ExtraPunctuation| + (i - 8192) - (if i > 8293 then 1 else 0)
    {
      if i == 8293 {
        continue;
      }
      punct := punct + [i as char];
    }
  }

  /** `w.translate(ttable)`: delete every character of `expanded_punct`. */
  function StripPunct(w: string): (r: string)
    ensures |r| <= |w|
    ensures forall i :: 0 <= i < |r| ==> !IsExpandedPunct(r[i]) && r[i] in w
  {
    if w == [] then []
    else (if IsExpandedPunct(w[0]) then [] else [w[0]]) + StripPunct(w[1..])
  }

  /** A word without punctuation is left as it is. */
  lemma {:induction false} StripPunctClean(w: string)
    requires forall i :: 0 <= i < |w| ==> !IsExpandedPunct(w[i])
    ensures StripPunct(w) == w
    decreases |w|
  {
    if w != [] {
      StripPunctClean(w[1..]);
      assert [w[0]] + w[1..] == w;
    }
  }

  lemma StripPunctCons(c: char, w: string)
    ensures StripPunct([c] + w) == (if IsExpandedPunct(c) then [] else [c]) + StripPunct(w)
  {
    assert ([c] + w)[1..] == w;
  }

  /**
   * `extract_tokens`: control runs become a space, the text is split on
   * whitespace and punctuation is deleted from each word (a word made only
   * of punctuation becomes "" and is kept).
   */
  function ExtractTokens(content: string): (tokens: seq<string>)
    ensures var words := Words(ControlRunsToSpace(content));
      |tokens| == |words| && forall k :: 0 <= k < |tokens| ==> tokens[k] == StripPunct(words[k])
  {
    var words := Words(ControlRunsToSpace(content));
    seq(|words|, k requires 0 <= k < |words| => StripPunct(words[k]))
  }

  predicate IsTokenChar(c: char) {
    !IsControl(c) && !IsSpace(c) && !IsExpandedPunct(c)
  }

  /** No token holds a control character, whitespace or punctuation. */
  lemma TokensAreClean(content: string, k: nat, i: nat)
    requires k < |ExtractTokens(content)| && i < |ExtractTokens(content)[k]|
    ensures IsTokenChar(ExtractTokens(content)[k][i])
  {
    var cleaned := ControlRunsToSpace(content);
    var words := Words(cleaned);
    var c := ExtractTokens(content)[k][i];
    assert c in words[k];
    var j :| 0 <= j < |words[k]| && words[k][j] == c;
    WordsChars(cleaned, k, j);
  }

  /** Already clean words joined by single spaces tokenize back to themselves. */
  lemma ExtractTokensOfCleanWords(ws: seq<string>)
    requires forall k :: 0 <= k < |ws| ==> ws[k] != []
    requires forall k, i :: 0 <= k < |ws| && 0 <= i < |ws[k]| ==> IsTokenChar(ws[k][i])
    ensures ExtractTokens(Join(" ", ws)) == ws
  {
    var s := Join(" ", ws);
    forall i | 0 <= i < |s| ensures !IsControl(s[i]) {
      JoinChars(" ", ws, s[i]);
    }
    assert ControlRunsToSpace(s) == s;
    WordsJoin(ws);
    forall k | 0 <= k < |ws| ensures StripPunct(ws[k]) == ws[k] {
      StripPunctClean(ws[k]);
    }
  }

  /**
   * Punctuation inside a word is deleted, not split on: two clean pieces
   * around an apostrophe make one token, the pieces glued together.
   */
  lemma QuoteInsideWord(x: string, y: string)
    requires x != [] && forall i :: 0 <= i < |x| ==> IsTokenChar(x[i])
    requires forall i :: 0 <= i < |y| ==> IsTokenChar(y[i])
    ensures ExtractTokens(x + "'" + y) == [x + y]
  {
    var w := x + "'" + y;
    forall i | 0 <= i < |w| ensures !IsControl(w[i]) && !IsSpace(w[i]) {
      if i >= |x| + 1 { assert w[i] == y[i - |x| - 1]; }
      else if i < |x| { assert w[i] == x[i]; }
    }
    assert ControlRunsToSpace(w) == w;
    WordOnly(w);
    StripPunctDropsQuote(x, y);
  }

  /** The example of the module's own comment: "don't" becomes the token "dont". */
  lemma ApostropheIsDeleted()
    ensures ExtractTokens("don't") == ["dont"]
  {
    var x, y := "don", "t";
    assert forall i :: 0 <= i < |x| ==> IsTokenChar(x[i]);
    assert IsTokenChar(y[0]);
    QuoteInsideWord(x, y);
    assert x + "'" + y == "don't";
    assert x + y == "dont";
  }

  /** Punctuation-free words are left alone; `'` is deleted where it stands. */
  lemma {:induction false} StripPunctConcat(a: string, b: string)
    ensures StripPunct(a + b) == StripPunct(a) + StripPunct(b)
    decreases |a|
  {
    if a != [] {
      assert (a + b)[1..] == a[1..] + b;
      assert a + b == [a[0]] + (a[1..] + b);
      assert a == [a[0]] + a[1..];
      StripPunctConcat(a[1..], b);
      StripPunctCons(a[0], a[1..] + b);
      StripPunctCons(a[0], a[1..]);
    } else {
      assert a + b == b;
    }
  }

  /** An apostrophe between punctuation-free pieces is deleted. */
  lemma StripPunctDropsQuote(x: string, y: string)
    requires forall i :: 0 <= i < |x| ==> !IsExpandedPunct(x[i])
    requires forall i :: 0 <= i < |y| ==> !IsExpandedPunct(y[i])
    ensures StripPunct(x + "'" + y) == x + y
  {
    var qy := ['\''] + y;
    assert x + "'" + y == x + qy;
    QuoteDropped(y);
    StripPunctClean(x);
    StripPunctConcat(x, qy);
  }

  lemma QuoteDropped(y: string)
    requires forall i :: 0 <= i < |y| ==> !IsExpandedPunct(y[i])
    ensures StripPunct(['\''] + y) == y
  {
    assert IsExpandedPunct('\'');
    StripPunctCons('\'', y);
    StripPunctClean(y);
  }

  /** `basename`: what follows the last '/'. */
  function Basename(path: string): (r: string)
    ensures '/' !in r
    ensures |r| <= |path| && r == path[|path| - |r|..]
    ensures '/' !in path ==> r == path
    ensures '/' in path ==> |r| < |path| && path[|path| - |r| - 1] == '/'
  {
    RFindChar(path, '/');
    var slash := RFind(path, "/");
    if slash >= 0 then Slice(path, slash + 1, |path|) else path
  }

  /** `dirname`: "." when the last '/' is at index 0 or absent, else what precedes it. */
  function Dirname(path: string): (r: string)
    ensures RFind(path, "/") <= 0 ==> r == "."
    ensures RFind(path, "/") > 0 ==> |r| < |path| && r == path[..|r|] && path[|r|] == '/'
  {
    RFindChar(path, '/');
    var slash := RFind(path, "/");
    if slash <= 0 then "." else Slice(path, 0, slash)
  }

  /** Dirname and Basename split a path at its last '/'. */
  lemma DirnameBasename(path: string)
    requires RFind(path, "/") > 0
    ensures Dirname(path) + "/" + Basename(path) == path
  {
    RFindChar(path, '/');
    var slash := RFind(path, "/");
    assert Dirname(path) == path[..slash];
    assert Basename(path) == path[slash + 1..];
    SplitAround(path, slash);
  }

  /** A sequence is what precedes an index, the element there, and what follows. */
  lemma SplitAround<T>(s: seq<T>, k: nat)
    requires k < |s|
    ensures s == s[..k] + [s[k]] + s[k + 1..]
  {
  }

  /** `int(m / 2)`: division truncated toward zero. */
  function HalfTowardZero(m: int): (h: int)
    ensures m >= 0 ==> h == m / 2
  {
    if m >= 0 then m / 2 else -((-m) / 2)
  }

  /** `trim_tokens`: keep the head and the tail, drop a middle slice. */
  function TrimTokens<T>(tokens: seq<T>, maxTokens: int): (r: seq<T>)
    ensures |tokens| <= maxTokens ==> r == tokens
    ensures 0 <= maxTokens < |tokens| ==> |r| == maxTokens
  {
    var n := |tokens|;
    if n > maxTokens then
      var cutOut := n - maxTokens;
      var frontEnd := HalfTowardZero(maxTokens);
      var backBegin := frontEnd + cutOut;
      Slice(tokens, 0, frontEnd) + Slice(tokens, backBegin, n)
    else tokens
  }

  /**
   * When trimming happens the result is the first half of the budget followed
   * by the last tokens, and the input is that result with exactly
   * `|tokens| - maxTokens` contiguous tokens put back in the middle.
   */
  lemma TrimKeepsHeadAndTail<T>(tokens: seq<T>, maxTokens: int)
    requires 0 <= maxTokens < |tokens|
    ensures var h, n := maxTokens / 2, |tokens|;
      var r := TrimTokens(tokens, maxTokens);
      && r == tokens[..h] + tokens[n - (maxTokens - h)..]
      && tokens == r[..h] + tokens[h..h + (n - maxTokens)] + r[h..]
  {
    var h, n := maxTokens / 2, |tokens|;
    var b := h + (n - maxTokens);
    assert HalfTowardZero(maxTokens) == h;
    assert TrimTokens(tokens, maxTokens) == tokens[..h] + tokens[b..];
    CutMiddle(tokens, h, b);
  }

  /** Cutting `s[h..b]` out of `s` and putting it back gives `s`. */
  lemma CutMiddle<T>(s: seq<T>, h: nat, b: nat)
    requires h <= b <= |s|
    ensures var r := s[..h] + s[b..];
      r[..h] == s[..h] && r[h..] == s[b..] && s == r[..h] + s[h..b] + r[h..]
  {
    var r := s[..h] + s[b..];
    assert r[..h] == s[..h];
    assert r[h..] == s[b..];
    assert s == s[..h] + s[h..b] + s[b..];
  }

  /** Each key mapped to the index of its last occurrence. */
  function LastIndex(keys: seq<string>): map<string, int>
    decreases |keys|
  {
    if keys == [] then map[]
    else LastIndex(keys[..|keys| - 1])[keys[|keys| - 1] := |keys| - 1]
  }

  lemma {:induction false} LastIndexKeys(keys: seq<string>, token: string)
    ensures token in LastIndex(keys) <==> token in keys
    ensures token in LastIndex(keys) ==>
      var v := LastIndex(keys)[token];
      0 <= v < |keys| && keys[v] == token && token !in keys[v + 1..]
    decreases |keys|
  {
    if keys != [] {
      var n := |keys|;
      var init := keys[..n - 1];
      assert keys == init + [keys[n - 1]];
      LastIndexKeys(init, token);
      if keys[n - 1] != token && token in init {
        var v := LastIndex(init)[token];
        assert keys[v + 1..] == init[v + 1..] + [keys[n - 1]];
      }
    }
  }

  /** The stripped lines, in file order. */
  function StripAll(lines: seq<string>): (keys: seq<string>)
    ensures |keys| == |lines|
    ensures forall i :: 0 <= i < |lines| ==> keys[i] == Strip(lines[i])
  {
    seq(|lines|, i requires 0 <= i < |lines| => Strip(lines[i]))
  }

  /** The table `load_bert_vocab` builds from the lines `readline` returns. */
  function VocabOf(lines: seq<string>): map<string, int>
  {
    LastIndex(StripAll(lines))
  }

  /**
   * A token is a key iff it is some stripped line, and its id is the index of
   * the last line that strips to it (a repeated token keeps the later index).
   */
  lemma VocabLastIndex(lines: seq<string>, token: string)
    ensures token in VocabOf(lines) <==> exists i :: 0 <= i < |lines| && Strip(lines[i]) == token
    ensures token in VocabOf(lines) ==>
      var v := VocabOf(lines)[token];
      0 <= v < |lines| && Strip(lines[v]) == token
      && forall j :: v < j < |lines| ==> Strip(lines[j]) != token
  {
    var keys := StripAll(lines);
    LastIndexKeys(keys, token);
    if token in VocabOf(lines) {
      var v := VocabOf(lines)[token];
      assert keys[v] == token;
      forall j | v < j < |lines| ensures Strip(lines[j]) != token {
        assert keys[j] == keys[v + 1..][j - v - 1];
      }
    }
    if i :| 0 <= i < |lines| && Strip(lines[i]) == token {
      assert keys[i] == token;
    }
  }

  /** `load_bert_vocab`, reading one line per iteration. */
  method LoadBertVocab(lines: seq<string>) returns (vocab: map<string, int>)
    ensures vocab == VocabOf(lines)
  {
    vocab := map[];
    var index := 0;
    while index < |lines|
      invariant 0 <= index <= |lines|
      invariant vocab == LastIndex(StripAll(lines)[..index])
    {
      var token := Strip(lines[index]);
      assert StripAll(lines)[..index + 1][..index] == StripAll(lines)[..index];
      vocab := vocab[token := index];
      index := index + 1;
    }
    assert StripAll(lines)[..|lines|] == StripAll(lines);
  }

  /** The ids `convert_to_bert_vocab` produces: known tokens looked up, unknown ones skipped. */
  function KnownIds(vocab: map<string, int>, items: seq<string>): (ids: seq<int>)
    ensures |ids| <= |items|
    ensures forall i :: 0 <= i < |ids| ==> ids[i] in vocab.Values
    decreases |items|
  {
    if items == [] then []
    else
      var last := items[|items| - 1];
      KnownIds(vocab, items[..|items| - 1]) + (if last in vocab then [vocab[last]] else [])
  }

  /** Conversion is item by item, so it distributes over concatenation (order is kept). */
  lemma {:induction false} KnownIdsConcat(vocab: map<string, int>, a: seq<string>, b: seq<string>)
    ensures KnownIds(vocab, a + b) == KnownIds(vocab, a) + KnownIds(vocab, b)
    decreases |b|
  {
    if b != [] {
      var b' := b[..|b| - 1];
      assert (a + b)[..|a + b| - 1] == a + b';
      KnownIdsConcat(vocab, a, b');
    } else {
      assert a + b == a;
    }
  }

  /** With every token known, the ids are exactly the looked-up values in input order. */
  lemma {:induction false} KnownIdsAllKnown(vocab: map<string, int>, items: seq<string>)
    requires forall k :: 0 <= k < |items| ==> items[k] in vocab
    ensures KnownIds(vocab, items) == seq(|items|, k requires 0 <= k < |items| => vocab[items[k]])
    decreases |items|
  {
    if items != [] {
      KnownIdsAllKnown(vocab, items[..|items| - 1]);
    }
  }

  /** Unknown tokens contribute nothing. */
  lemma {:induction false} KnownIdsNoneKnown(vocab: map<string, int>, items: seq<string>)
    requires forall k :: 0 <= k < |items| ==> items[k] !in vocab
    ensures KnownIds(vocab, items) == []
    decreases |items|
  {
    if items != [] {
      KnownIdsNoneKnown(vocab, items[..|items| - 1]);
    }
  }

  /** `convert_to_bert_vocab`: the append loop with the KeyError skip. */
  method ConvertToBertVocab(vocab: map<string, int>, items: seq<string>) returns (output: seq<int>)
    ensures output == KnownIds(vocab, items)
  {
    output := [];
    for i := 0 to |items|
      invariant output == KnownIds(vocab, items[..i])
    {
      assert items[..i + 1][..i] == items[..i];
      if items[i] in vocab {
        output := output + [vocab[items[i]]];
      }
    }
    assert items[..|items|] == items;
  }

  /** An unknown token is dropped wherever it stands. */
  lemma KnownIdsSkipUnknown(vocab: map<string, int>, before: seq<string>, token: string, after: seq<string>)
    requires token !in vocab
    ensures KnownIds(vocab, before + [token] + after) == KnownIds(vocab, before + after)
  {
    KnownIdsConcat(vocab, before + [token], after);
    KnownIdsConcat(vocab, before, [token]);
    KnownIdsConcat(vocab, before, after);
    KnownIdsNoneKnown(vocab, [token]);
  }
}
