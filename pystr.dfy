/**
 * The Python string and list primitives the classifier code is built from,
 * with their Python semantics: `find`/`rfind` return -1 when nothing is found,
 * slices accept negative and out-of-range bounds, `split(sep)` keeps empty
 * pieces, `split()` splits on runs of whitespace and drops empty words.
 */
module PyStr {

  /** The characters `str.isspace()` accepts; `str.split()`, `str.strip()` and `\s` use the same set. */
  predicate IsSpace(c: char) {
    var n := c as int;
    (9 <= n <= 13) || (28 <= n <= 32) || n == 0x85 || n == 0xA0 || n == 0x1680
    || (0x2000 <= n <= 0x200A) || n == 0x2028 || n == 0x2029 || n == 0x202F
    || n == 0x205F || n == 0x3000
  }

  /** The class `[\x00-\x1F]` of the regular expressions in the source. */
  predicate IsControl(c: char) {
    c as int < 0x20
  }

  predicate StartsWith(s: string, prefix: string) {
    |prefix| <= |s| && s[..|prefix|] == prefix
  }

  predicate OccursAt(s: string, sub: string, k: int) {
    0 <= k && k + |sub| <= |s| && s[k..k + |sub|] == sub
  }

  lemma OccursAtChar(s: string, c: char, k: int)
    ensures OccursAt(s, [c], k) <==> 0 <= k < |s| && s[k] == c
  {
    if 0 <= k < |s| && s[k] == c {
      assert s[k..k + 1] == [c];
    }
  }

  /** `s.find(sub)`: the lowest index at which `sub` occurs, or -1. */
  function Find(s: string, sub: string): (k: int)
    ensures k == -1 || OccursAt(s, sub, k)
    ensures forall j :: 0 <= j && (k == -1 || j < k) ==> !OccursAt(s, sub, j)
  {
    FindFrom(s, sub, 0)
  }

  function FindFrom(s: string, sub: string, i: nat): (k: int)
    ensures k == -1 || (i <= k && OccursAt(s, sub, k))
    ensures forall j :: i <= j && (k == -1 || j < k) ==> !OccursAt(s, sub, j)
    decreases |s| + 1 - i
  {
    if i + |sub| > |s| then -1
    else if s[i..i + |sub|] == sub then i
    else FindFrom(s, sub, i + 1)
  }

  /** `s.rfind(sub)`: the highest index at which `sub` occurs, or -1. */
  function RFind(s: string, sub: string): (k: int)
    ensures k == -1 || OccursAt(s, sub, k)
    ensures forall j :: k < j ==> !OccursAt(s, sub, j)
  {
    RFindFrom(s, sub, |s| - |sub|)
  }

  function RFindFrom(s: string, sub: string, i: int): (k: int)
    requires i + |sub| <= |s|
    ensures k == -1 || (k <= i && OccursAt(s, sub, k))
    ensures forall j :: k < j <= i ==> !OccursAt(s, sub, j)
    decreases i + 1
  {
    if i < 0 then -1
    else if s[i..i + |sub|] == sub then i
    else RFindFrom(s, sub, i - 1)
  }

  /** Single-character views of Find and RFind. */
  lemma FindChar(s: string, c: char)
    ensures var k := Find(s, [c]);
      (k == -1 <==> c !in s) && (k != -1 ==> 0 <= k < |s| && s[k] == c && c !in s[..k])
  {
    var k := Find(s, [c]);
    if k == -1 {
      forall j | 0 <= j < |s| ensures s[j] != c { OccursAtChar(s, c, j); }
    } else {
      OccursAtChar(s, c, k);
      forall j | 0 <= j < k ensures s[j] != c { OccursAtChar(s, c, j); }
    }
  }

  lemma RFindChar(s: string, c: char)
    ensures var k := RFind(s, [c]);
      (k == -1 <==> c !in s) && (k != -1 ==> 0 <= k < |s| && s[k] == c && c !in s[k + 1..])
  {
    var k := RFind(s, [c]);
    if k == -1 {
      forall j | 0 <= j < |s| ensures s[j] != c { OccursAtChar(s, c, j); }
    } else {
      OccursAtChar(s, c, k);
      forall j | k < j < |s| ensures s[j] != c { OccursAtChar(s, c, j); }
    }
  }

  /** The first occurrence of a character, named by its index. */
  lemma FindCharAt(s: string, c: char, k: int)
    requires 0 <= k < |s| && s[k] == c && c !in s[..k]
    ensures Find(s, [c]) == k
  {
    FindChar(s, c);
  }

  /** The last occurrence of a character, named by its index. */
  lemma RFindCharAt(s: string, c: char, k: int)
    requires 0 <= k < |s| && s[k] == c && c !in s[k + 1..]
    ensures RFind(s, [c]) == k
  {
    RFindChar(s, c);
  }

  /** Python's normalisation of one slice bound against a length. */
  function Clip(i: int, n: nat): (r: nat)
    ensures r <= n
    ensures 0 <= i <= n ==> r == i
    ensures i < 0 && i + n >= 0 ==> r == i + n
  {
    if i < 0 then (if i + n < 0 then 0 else i + n) else if i > n then n else i
  }

  /** `s[i:j]` with Python's treatment of negative and out-of-range bounds. */
  function Slice<T>(s: seq<T>, i: int, j: int): (r: seq<T>)
    ensures |r| <= |s|
    ensures 0 <= i <= j <= |s| ==> r == s[i..j]
  {
    var a, b := Clip(i, |s|), Clip(j, |s|);
    if a < b then s[a..b] else []
  }

  function Count(s: string, c: char): (n: nat)
    ensures n <= |s|
    ensures n == 0 <==> c !in s
  {
    if s == [] then 0 else (if s[0] == c then 1 else 0) + Count(s[1..], c)
  }

  /** `sep.join(xs)`. */
  function Join(sep: string, xs: seq<string>): string
  {
    if |xs| == 0 then ""
    else if |xs| == 1 then xs[0]
    else xs[0] + sep + Join(sep, xs[1..])
  }

  function SumLengths(xs: seq<string>): nat
  {
    if xs == [] then 0 else |xs[0]| + SumLengths(xs[1..])
  }

  lemma {:induction false} JoinLength(sep: string, xs: seq<string>)
    requires |xs| >= 1
    ensures |Join(sep, xs)| == SumLengths(xs) + |sep| * (|xs| - 1)
  {
    if |xs| > 1 {
      JoinLength(sep, xs[1..]);
    }
  }

  lemma {:induction false} JoinChars(sep: string, xs: seq<string>, c: char)
    requires c in Join(sep, xs)
    ensures c in sep || exists k :: 0 <= k < |xs| && c in xs[k]
  {
    if |xs| > 1 {
      var rest := Join(sep, xs[1..]);
      assert Join(sep, xs) == xs[0] + sep + rest;
      if c !in xs[0] && c !in sep {
        JoinChars(sep, xs[1..], c);
        var k :| 0 <= k < |xs[1..]| && c in xs[1..][k];
        assert c in xs[k + 1];
      }
    }
  }

  /** The last item of a joined list is the tail of the joined string. */
  lemma {:induction false} JoinEndsWithLast(sep: string, xs: seq<string>)
    requires |xs| >= 1
    ensures var j := Join(sep, xs); |xs[|xs| - 1]| <= |j| && j[|j| - |xs[|xs| - 1]|..] == xs[|xs| - 1]
  {
    if |xs| > 1 {
      JoinEndsWithLast(sep, xs[1..]);
      assert xs[1..][|xs[1..]| - 1] == xs[|xs| - 1];
    }
  }

  /** `s.split(sep)` for a one-character separator: never empty, keeps empty pieces. */
  function Split(s: string, sep: char): (r: seq<string>)
    ensures |r| == Count(s, sep) + 1
    ensures forall k :: 0 <= k < |r| ==> sep !in r[k]
    decreases |s|
  {
    if s == [] then [""]
    else
      var rest := Split(s[1..], sep);
      if s[0] == sep then [""] + rest
      else [[s[0]] + rest[0]] + rest[1..]
  }

  lemma JoinCons(sep: string, x: string, xs: seq<string>)
    requires |xs| >= 1
    ensures Join(sep, [x] + xs) == x + sep + Join(sep, xs)
  {
    assert ([x] + xs)[1..] == xs;
  }

  lemma ConcatAssoc(a: string, b: string, c: string, d: string)
    ensures a + b + c + d == a + (b + c + d)
  {
  }

  /** Splitting and joining with the same separator are inverse. */
  lemma {:induction false} JoinSplit(s: string, sep: char)
    ensures Join([sep], Split(s, sep)) == s
    decreases |s|
  {
    if s != [] {
      JoinSplit(s[1..], sep);
      if s[0] == sep {
        SplitFirstEmpty(s, sep);
      } else {
        SplitFirstPiece(s, sep);
      }
    }
  }

  lemma SplitFirstEmpty(s: string, sep: char)
    requires s != [] && s[0] == sep
    requires Join([sep], Split(s[1..], sep)) == s[1..]
    ensures Join([sep], Split(s, sep)) == s
  {
    assert [sep] + s[1..] == s;
    SplitUnfold(sep, s[1..], sep);
    JoinEmptyFirst([sep], Split(s[1..], sep));
  }

  /** An empty first piece leaves just the separator in front. */
  lemma JoinEmptyFirst(sep: string, xs: seq<string>)
    requires |xs| >= 1
    ensures Join(sep, [""] + xs) == sep + Join(sep, xs)
  {
    assert ([""] + xs)[1..] == xs;
  }

  lemma SplitFirstPiece(s: string, sep: char)
    requires s != [] && s[0] != sep
    requires Join([sep], Split(s[1..], sep)) == s[1..]
    ensures Join([sep], Split(s, sep)) == s
  {
    var rest := Split(s[1..], sep);
    assert Split(s, sep) == [[s[0]] + rest[0]] + rest[1..];
    JoinGrowFirst([sep], [s[0]], rest);
    assert s == [s[0]] + s[1..];
  }

  /** Growing the first piece grows the joined string at its front. */
  lemma JoinGrowFirst(sep: string, c: string, xs: seq<string>)
    requires |xs| >= 1
    ensures Join(sep, [c + xs[0]] + xs[1..]) == c + Join(sep, xs)
  {
    var ys := [c + xs[0]] + xs[1..];
    assert ys[0] == c + xs[0] && ys[1..] == xs[1..];
    if |xs| > 1 {
      var tail := Join(sep, xs[1..]);
      assert Join(sep, ys) == c + xs[0] + sep + tail;
      assert Join(sep, xs) == xs[0] + sep + tail;
      ConcatAssoc(c, xs[0], sep, tail);
    }
  }

  /** A separator-free string is its own single piece. */
  lemma {:induction false} SplitNoSep(s: string, sep: char)
    requires sep !in s
    ensures Split(s, sep) == [s]
    decreases |s|
  {
    if s != [] {
      SplitNoSep(s[1..], sep);
      assert [s[0]] + s[1..] == s;
    }
  }

  /** Splitting at a separator concatenates the pieces of both sides. */
  lemma {:induction false} SplitAtSep(a: string, b: string, sep: char)
    requires sep !in a
    ensures Split(a + [sep] + b, sep) == [a] + Split(b, sep)
    decreases |a|
  {
    if a == [] {
      SplitUnfold(sep, b, sep);
      assert a + [sep] + b == [sep] + b;
    } else {
      var c, t := a[0], a[1..];
      assert c != sep by { assert c in a; }
      var u := t + [sep] + b;
      assert a + [sep] + b == [c] + u;
      SplitAtSep(t, b, sep);
      var rest := Split(u, sep);
      assert rest[0] == t && rest[1..] == Split(b, sep);
      SplitUnfold(c, u, sep);
      assert [c] + t == a;
    }
  }

  /** One step of Split on a string with a known first character. */
  lemma SplitUnfold(c: char, t: string, sep: char)
    ensures c == sep ==> Split([c] + t, sep) == [""] + Split(t, sep)
    ensures c != sep ==> var rest := Split(t, sep); Split([c] + t, sep) == [[c] + rest[0]] + rest[1..]
  {
    assert ([c] + t)[1..] == t;
  }

  /** Length of the leading run of non-whitespace characters. */
  function WordLength(s: string): (n: nat)
    ensures n <= |s|
    ensures forall i :: 0 <= i < n ==> !IsSpace(s[i])
    ensures n < |s| ==> IsSpace(s[n])
  {
    if s == [] || IsSpace(s[0]) then 0 else 1 + WordLength(s[1..])
  }

  /** `s.split()`: the maximal runs of non-whitespace characters, in order. */
  function Words(s: string): (ws: seq<string>)
    ensures forall k :: 0 <= k < |ws| ==> ws[k] != ""
    ensures forall k, i :: 0 <= k < |ws| && 0 <= i < |ws[k]| ==> !IsSpace(ws[k][i])
    decreases |s|
  {
    if s == [] then []
    else if IsSpace(s[0]) then Words(s[1..])
    else
      var n := WordLength(s);
      [s[..n]] + Words(s[n..])
  }

  /** Every character of a word is a character of the input. */
  lemma {:induction false} WordsChars(s: string, k: nat, i: nat)
    requires k < |Words(s)| && i < |Words(s)[k]|
    ensures Words(s)[k][i] in s
    decreases |s|
  {
    if s != [] {
      if IsSpace(s[0]) {
        WordsChars(s[1..], k, i);
      } else if k > 0 {
        var n := WordLength(s);
        WordsChars(s[n..], k - 1, i);
      }
    }
  }

  predicate IsWord(w: string) {
    w != "" && forall i :: 0 <= i < |w| ==> !IsSpace(w[i])
  }

  /** Splitting words joined by single spaces gives the words back. */
  lemma {:induction false} WordsJoin(ws: seq<string>)
    requires forall k :: 0 <= k < |ws| ==> IsWord(ws[k])
    ensures Words(Join(" ", ws)) == ws
  {
    if |ws| == 1 {
      WordOnly(ws[0]);
    } else if |ws| > 1 {
      var w, rest := ws[0], Join(" ", ws[1..]);
      var s := w + " " + rest;
      assert Join(" ", ws) == s;
      WordPrefix(w, " " + rest);
      assert s[..|w|] == w;
      assert s[|w|..] == " " + rest;
      assert (" " + rest)[1..] == rest;
      assert Words(" " + rest) == Words(rest);
      WordsJoin(ws[1..]);
      assert Words(s) == [w] + Words(rest);
      assert ws == [w] + ws[1..];
    }
  }

  lemma {:induction false} WordPrefix(w: string, t: string)
    requires IsWord(w)
    requires t == [] || IsSpace(t[0])
    ensures WordLength(w + t) == |w|
    decreases |w|
  {
    if |w| > 1 {
      assert (w + t)[1..] == w[1..] + t;
      WordPrefix(w[1..], t);
    } else {
      assert (w + t)[1..] == t;
    }
  }

  lemma WordOnly(w: string)
    requires IsWord(w)
    ensures Words(w) == [w]
  {
    WordPrefix(w, []);
    assert w + [] == w;
  }

  /** `s.strip()`: drop leading and trailing whitespace. */
  function Strip(s: string): (r: string)
    ensures r == [] || (!IsSpace(r[0]) && !IsSpace(r[|r| - 1]))
  {
    StripEnd(StripStart(s))
  }

  function StripStart(s: string): (r: string)
    ensures r == [] || !IsSpace(r[0])
    ensures |r| <= |s| && r == s[|s| - |r|..]
  {
    if s != [] && IsSpace(s[0]) then StripStart(s[1..]) else s
  }

  function StripEnd(s: string): (r: string)
    ensures r == [] || !IsSpace(r[|r| - 1])
    ensures |r| <= |s| && r == s[..|r|]
    ensures s != [] && !IsSpace(s[0]) ==> r != [] && r[0] == s[0]
  {
    if s != [] && IsSpace(s[|s| - 1]) then StripEnd(s[..|s| - 1]) else s
  }

  /**
   * `re.sub(r'[\x00-\x1F]+', ' ', s)`: every maximal run of control characters
   * becomes one space.
   */
  function ControlRunsToSpace(s: string): (r: string)
    ensures forall i :: 0 <= i < |r| ==> !IsControl(r[i])
    ensures forall i :: 0 <= i < |r| ==> r[i] in s || r[i] == ' '
    ensures (forall i :: 0 <= i < |s| ==> !IsControl(s[i])) ==> r == s
    decreases |s|
  {
    if s == [] then []
    else if IsControl(s[0]) then [' '] + ControlRunsToSpace(s[ControlRunLength(s)..])
    else [s[0]] + ControlRunsToSpace(s[1..])
  }

  function ControlRunLength(s: string): (n: nat)
    ensures n <= |s|
    ensures s != [] && IsControl(s[0]) ==> n > 0
  {
    if s == [] || !IsControl(s[0]) then 0 else 1 + ControlRunLength(s[1..])
  }
}
