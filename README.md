# pdf_trio classifier core in Dafny

pdf_trio decides whether a PDF is a research publication. It combines three
classifiers into an ensemble:

- a fastText ("linear") model that reads the extracted text;
- a BERT model served by TensorFlow-serving that also reads the text;
- an image model that looks at a rendering of the first page.

A request names the classifiers to run ("image", "linear", "bert", "auto"
or "all"). Each classifier that runs records its encoded score under its
own name. The mean of the recorded scores becomes "is_research". A
companion URL classifier tokenizes a URL and scores it with a second
fastText model. Two data-preparation scripts produce the training data for
the models: a fastText file of labelled URL token lines, and a BERT TSV
file of cleaned, trimmed document texts.

This project models both generations of the code.

- The packaged service (`pdf_trio/`) is modelled in `PdfClassifier` and
  `UrlClassifier`.
- The first, module-level version is modelled in `LegacyPdfClassifier`
  and `LegacyUrlClassifier`.
- The shared pieces each have their own module:
  - `Confidence` is the score codec.
  - `TextPrep` covers tokenization, trimming and the BERT vocabulary.
  - `PdfUtil` is the temporary-file area.
  - `PyStr` holds the Python string primitives, with Python's
    semantics.
  - `BatchLimit` is the `--testing` row limit.
- The two scripts are `PreprocessTsv` and `GenBertData`.

The external models (fastText, the two TensorFlow-serving endpoints), the
text extractor and the page renderer are oracles. Each is given as a
function parameter or as its outcome: the extracted text, or the size of
the rendered page image. Scores are reals.

The set of files in the temporary area is the field of a class, `PdfUtil.TempArea`.
The request methods update that field in place:

- `PdfClassifier.ClassifyPdfMulti`, `NamedLoop` and `AutoBranch`;
- their legacy counterparts.

Each of these methods is proved equal to a functional specification
(`ClassifyPdf`, `RunNamed`, `RunAuto`, `FilesAfter`). The lemmas state the
properties of those specifications. The loops of the scripts and of the
vocabulary helpers are methods too, proved against `TrainingText`, `Rows`,
`VocabOf` and `KnownIds`.

## Model

| member | source | states |
|---|---|---|
| Confidence.Clamp | pdf_trio/pdf_classifier.py:199-202 | the clamped probability lies in [0, 1], equals the input inside [0, 1], and is 1 above and 0 below |
| Confidence.Encode | pdf_trio/pdf_classifier.py:189-206 | the score is in [0, 1]; it is at least 0.5 for a research label ("research" or "__label__research") and at most 0.5 otherwise; it is exactly 0.5 iff the clamped probability is 0 |
| Confidence.Decode | pdf_trio/pdf_classifier.py:210-218 | the label is "other" iff the score is below 0.5 and "research" iff it is at least 0.5; a score in [0, 1] decodes to a probability in [0, 1] |
| Confidence.EncodeMonotonic | pdf_trio/pdf_classifier.py:189-206 | a larger probability moves the score towards the label's end: up for research, down for other |
| Confidence.DecodeEncode | pdf_trio/pdf_classifier.py:189-218 | decoding an encoded (label, p), with p in (0, 1], gives back the normalised label and p |
| Confidence.EncodeDecode | pdf_trio/pdf_classifier.py:189-218 | encoding the decoded pair gives back every score in [0, 1] |
| PdfUtil.JpgName | pdf_util.py:99 | the image name is the PDF name plus four characters, so it is never the PDF name and never empty |
| PdfUtil.ImageResult | pdf_util.py:120-132 | `extract_pdf_image` returns the image name iff the rendered file is larger than 3000 bytes, and "" otherwise |
| PdfUtil.TempArea.constructor | pdf_util.py:30-34 | a fresh temporary area holds no files |
| PdfUtil.TempArea.Save | pdf_util.py:48-56 | after saving, the area holds the old files plus the PDF |
| PdfUtil.TempArea.Remove | pdf_util.py:59-61 | the named file is gone and every other file stays, whether or not it existed |
| PdfUtil.TempArea.ExtractPdfImage | pdf_util.py:90-132 | the result is `ImageResult`; a kept image is added to the area; a blank or missing rendering leaves no image behind |
| PyStr.Find | pdf_trio/url_classifier.py:68-69 | `find` returns -1 or the lowest index at which the substring occurs |
| PyStr.FindFrom | pdf_trio/url_classifier.py:68-69 | the search from index i returns -1 or the lowest occurrence at or after i |
| PyStr.RFind | pdf_trio/url_classifier.py:85 | `rfind` returns -1 or the highest index at which the substring occurs |
| PyStr.RFindFrom | pdf_trio/url_classifier.py:85 | the backward search from i returns -1 or the highest occurrence at or before i |
| PyStr.FindChar | pdf_trio/url_classifier.py:68 | for one character, `find` is -1 iff the character is absent, else the index of its first occurrence |
| PyStr.RFindChar | pdf_trio/url_classifier.py:85 | for one character, `rfind` is -1 iff the character is absent, else the index of its last occurrence |
| PyStr.FindCharAt | pdf_trio/url_classifier.py:69 | an index holding the character, with no earlier occurrence, is what `find` returns |
| PyStr.RFindCharAt | pdf_trio/url_classifier.py:85 | an index holding the character, with no later occurrence, is what `rfind` returns |
| PyStr.Clip | pdf_trio/url_classifier.py:53 | a slice bound is normalised into [0, n]; an in-range bound is kept and a negative one counts from the end |
| PyStr.Slice | pdf_trio/url_classifier.py:68 | `s[i:j]` never grows the sequence and equals the plain slice for in-range bounds |
| PyStr.Count | pdf_trio/url_classifier.py:100 | the count is at most the length, and it is 0 iff the character is absent |
| PyStr.JoinLength | pdf_trio/url_classifier.py:109 | a join has the summed item lengths plus one separator between each pair of items |
| PyStr.JoinChars | pdf_trio/pdf_classifier.py:229 | every character of a join comes from the separator or from some item |
| PyStr.JoinEndsWithLast | pdf_trio/url_classifier.py:109 | a joined string ends with the last item |
| PyStr.Split | pdf_trio/url_classifier.py:100 | `split(sep)` yields one more piece than there are separators, and no piece holds the separator |
| PyStr.JoinSplit | pdf_trio/url_classifier.py:100 | joining the pieces of `split(sep)` with sep gives back the string |
| PyStr.SplitNoSep | pdf_trio/pdf_classifier.py:104 | a string without the separator splits into itself alone |
| PyStr.SplitAtSep | pdf_trio/pdf_classifier.py:104 | splitting `a sep b`, with no separator in a, gives a followed by the pieces of b |
| PyStr.WordLength | text_prep.py:50 | the leading run of non-whitespace ends at the first whitespace character or at the end |
| PyStr.Words | text_prep.py:50 | `split()` yields only non-empty words that contain no whitespace |
| PyStr.WordsChars | text_prep.py:50 | every character of a word is a character of the input |
| PyStr.WordsJoin | data_prep/bert_data_prep/gen_bert_data.py:127-128 | non-empty, whitespace-free words joined by single spaces split back into the same words |
| PyStr.Strip | text_prep.py:102 | `strip()` leaves a string that neither starts nor ends with whitespace |
| PyStr.StripStart | text_prep.py:102 | removing leading whitespace leaves a suffix that does not start with whitespace |
| PyStr.StripEnd | text_prep.py:102 | removing trailing whitespace leaves a prefix that does not end with whitespace |
| PyStr.ControlRunsToSpace | text_prep.py:48 | after the control-run substitution no control character is left; every character is from the input or a space; text without control characters is unchanged |
| PyStr.ControlRunLength | text_prep.py:48 | the leading run of control characters is non-empty exactly when the text starts with one |
| BatchLimit.Processed | data_prep/ft_data_prep/preprocess_tsv.py:121-128 | the rows processed are a prefix of the input: all of it without `--testing`, and exactly five rows with it when there are more |
| TextPrep.AsciiPunctuationRanges | text_prep.py:30 | a character is in `string.punctuation` iff it lies in one of its four ASCII ranges |
| TextPrep.ExtraPunctuationCodes | text_prep.py:30-32 | the nine extra characters are exactly the code points 191, 1567, 161, 162, 163, 165, 169, 174, 167 |
| TextPrep.BuildExpandedPunct | text_prep.py:30-38 | the built string holds exactly the expanded punctuation set: the ASCII and extra characters plus 8192..8302 without 8293, which is 110 general-punctuation characters |
| TextPrep.StripPunct | text_prep.py:52-53 | `translate` deletes punctuation: the result is no longer than the word, and each remaining character is non-punctuation from the word |
| TextPrep.StripPunctClean | text_prep.py:52-53 | a word without punctuation is left unchanged |
| TextPrep.StripPunctCons | text_prep.py:52-53 | deletion works one character at a time: a leading punctuation character is dropped and any other is kept |
| TextPrep.StripPunctConcat | text_prep.py:52-53 | deleting punctuation distributes over concatenation |
| TextPrep.StripPunctDropsQuote | text_prep.py:52-53 | an apostrophe between punctuation-free pieces is deleted and the pieces are glued together |
| TextPrep.ExtractTokens | text_prep.py:40-54 | one token per whitespace-separated word of the control-cleaned text, in order, each being that word with its punctuation deleted |
| TextPrep.TokensAreClean | text_prep.py:47-53 | no token holds a control character, whitespace or punctuation |
| TextPrep.ExtractTokensOfCleanWords | text_prep.py:40-54 | clean, non-empty words joined by spaces tokenize back to the same words (tokenization is idempotent on its own output) |
| TextPrep.QuoteInsideWord | text_prep.py:50-53 | punctuation inside a word is deleted rather than split on: `x'y` is the single token `xy` |
| TextPrep.ApostropheIsDeleted | text_prep.py:40-54 | "don't" tokenizes to the single token "dont" |
| TextPrep.Basename | text_prep.py:57-61 | the base name is the '/'-free tail of the path that follows its last '/', or the whole path when it has no '/' |
| TextPrep.Dirname | text_prep.py:64-69 | the directory is "." when the last '/' is absent or at index 0; otherwise it is the prefix before the last '/' |
| TextPrep.DirnameBasename | text_prep.py:57-69 | when the last '/' is past index 0, directory + "/" + base name is the path |
| TextPrep.HalfTowardZero | text_prep.py:83 | `int(m/2)` equals m / 2 for every non-negative m |
| TextPrep.TrimTokens | text_prep.py:72-86 | a list within the budget is unchanged; a longer one is cut to exactly the budget |
| TextPrep.TrimKeepsHeadAndTail | text_prep.py:80-86 | the trimmed list is the first budget/2 tokens followed by the last tokens; the input is that list with one contiguous middle block of `len - budget` tokens put back |
| TextPrep.LastIndexKeys | text_prep.py:98-104 | a token is a key iff it occurs, and its value is the index of its last occurrence |
| TextPrep.StripAll | text_prep.py:102 | every vocabulary line is stripped, in order |
| TextPrep.VocabLastIndex | text_prep.py:89-105 | a token is in the vocabulary iff some line strips to it; its id is the index of the last line that strips to it |
| TextPrep.LoadBertVocab | text_prep.py:89-105 | the read loop builds exactly `VocabOf(lines)` |
| TextPrep.KnownIds | text_prep.py:108-122 | there are at most as many ids as items, and every id is a vocabulary value |
| TextPrep.KnownIdsConcat | text_prep.py:116-121 | conversion goes item by item, so it distributes over concatenation and keeps order |
| TextPrep.KnownIdsAllKnown | text_prep.py:117-119 | when every item is known, the ids are the looked-up values in input order |
| TextPrep.KnownIdsNoneKnown | text_prep.py:117-121 | when no item is known, there are no ids |
| TextPrep.ConvertToBertVocab | text_prep.py:108-122 | the append loop with the KeyError skip computes `KnownIds` |
| TextPrep.KnownIdsSkipUnknown | text_prep.py:118-121 | an unknown token is dropped wherever it stands |
| UrlClassifier.RemoveWaybackPrefix | pdf_trio/url_classifier.py:47-54 | without the prefix the URL is unchanged; with it, the prefix and everything up to and including the next '/' are removed |
| UrlClassifier.WaybackRoundTrip | pdf_trio/url_classifier.py:47-54 | wrapping a target in the prefix and a '/'-free timestamp and then removing the prefix gives back the target |
| UrlClassifier.WaybackWithoutSlash | pdf_trio/url_classifier.py:51-53 | after the prefix with no further '/', `find` gives -1 and the whole remainder is returned |
| UrlClassifier.RemovePrefix | pdf_trio/url_classifier.py:57-61 | with the prefix, prefix + result is the URL; without it, the URL is unchanged |
| UrlClassifier.RemovePrefixAdded | pdf_trio/url_classifier.py:57-61 | removing a prefix that was just added gives back the rest |
| UrlClassifier.StripSchemes | pdf_trio/url_classifier.py:65-67 | the three scheme removals leave a suffix of the URL |
| UrlClassifier.StripSchemesAfter | pdf_trio/url_classifier.py:65-67 | one http, https or ftp scheme in front of text that does not itself begin with a scheme is removed, and nothing else |
| UrlClassifier.StripStackedSchemes | pdf_trio/url_classifier.py:65-67 | the removals run once each, in order: "http://https://x" loses both schemes (and a following "ftp://") |
| UrlClassifier.StripReversedSchemes | pdf_trio/url_classifier.py:65-67 | "https://http://x" loses only "https://" and keeps "http://x", because "http://" was tried first |
| UrlClassifier.NotSchemePrefixPort | pdf_trio/url_classifier.py:65-67 | a host with no ':' or '/' followed by ":port" never starts with another `name://` |
| UrlClassifier.HostPart | pdf_trio/url_classifier.py:68 | the host part is the text before the first '/'; with no '/', `find` gives -1 and the last character is dropped |
| UrlClassifier.DropPort | pdf_trio/url_classifier.py:69-72 | a ':' at index 2 or later cuts off the port; a ':' at index 0 or 1 is kept |
| UrlClassifier.ExtractDomain | pdf_trio/url_classifier.py:64-72 | a domain never contains '/' |
| UrlClassifier.DomainOf | pdf_trio/url_classifier.py:68-72 | the domain is a prefix of the scheme-stripped URL: its host part, or the host cut at a ':' found at index 2 or later |
| UrlClassifier.NotSchemePrefix | pdf_trio/url_classifier.py:65-67 | a host with no ':' or '/' followed by a path never starts with another `name://` |
| UrlClassifier.StripSchemesOfUrl | pdf_trio/url_classifier.py:65-67 | the scheme of an ordinary http, https or ftp URL is removed, and nothing after it |
| UrlClassifier.DomainOfUrl | pdf_trio/url_classifier.py:64-72 | the domain of `scheme host /path` is the host |
| UrlClassifier.DomainWithoutSlash | pdf_trio/url_classifier.py:68 | a URL with no '/' after its host loses the host's last character |
| UrlClassifier.AfterDomain | pdf_trio/url_classifier.py:79-84 | the text after the first occurrence of the domain, with a leading ":port/" skipped, is no longer than the URL; its content is stated by AfterDomainOfUrl and AfterDomainWithPort |
| UrlClassifier.DirectoryEnd | pdf_trio/url_classifier.py:85 | the cut is at the last '/', or before the last character when there is no '/' |
| UrlClassifier.DirectoryPart | pdf_trio/url_classifier.py:85-89 | the directory part has no '?': it runs up to the cut, or stops earlier at the first '?' |
| UrlClassifier.ExtractUri | pdf_trio/url_classifier.py:75-89 | the uri has no '?' and is the directory part of what follows the domain |
| UrlClassifier.ExtractUrlTokens | pdf_trio/url_classifier.py:93-102 | the tokens are the '/'-pieces of the uri followed by the domain; joining all but the last with '/' gives back the uri |
| UrlClassifier.FindHostAfterScheme | pdf_trio/url_classifier.py:80 | a host with no ':' or '/' is first found right after the scheme when its first character is not in the scheme, when it holds a '.', or when it is at least as long as the scheme less 2 (an earlier occurrence would have to cover the scheme's ':' or put the '.' inside the scheme) |
| UrlClassifier.AfterDomainOfUrl | pdf_trio/url_classifier.py:79-84 | after the host of an ordinary URL comes its path, '/' included |
| UrlClassifier.AfterDomainAt | pdf_trio/url_classifier.py:80-84 | when the domain is first found just before a '/', what follows is the text from that '/' |
| UrlClassifier.DirectoryOfPath | pdf_trio/url_classifier.py:85 | in `dirs/file` the cut is at the '/' before the file |
| UrlClassifier.DirectoryPartOfPath | pdf_trio/url_classifier.py:85-89 | the directory part of `dirs/file` without '?' is dirs |
| UrlClassifier.UriOfPath | pdf_trio/url_classifier.py:75-89 | the uri of a URL whose remainder is `dirs/file` (no '?') is dirs |
| UrlClassifier.TokensOfUrl | pdf_trio/url_classifier.py:93-102 | for `scheme host dirs/file`, the domain is the host, the uri is dirs, and the tokens are the pieces of dirs followed by the host |
| UrlClassifier.AfterDomainWithPort | pdf_trio/url_classifier.py:79-84 | for `scheme host:port/path`, the domain is the host and what follows it is path: the ":port/" is skipped together with the '/' that begins the path |
| UrlClassifier.DomainWithPort | pdf_trio/url_classifier.py:64-72 | the domain of `scheme host:port/...` is the host, for a host of two or more characters |
| UrlClassifier.HostWithPort | pdf_trio/url_classifier.py:68-72 | the host part of `host:port/...` is `host:port`, and the port is cut off |
| UrlClassifier.PathAfterPort | pdf_trio/url_classifier.py:81-84 | ":port/path" after the domain leaves path |
| UrlClassifier.AfterDomainAtPort | pdf_trio/url_classifier.py:80-84 | when the domain is first found just before ":port/", what follows is the rest of the path |
| UrlClassifier.TokensOfPortUrl | pdf_trio/url_classifier.py:93-102 | for `scheme host:port/dirs/file`, the domain is the host, the uri is dirs and the tokens are the pieces of dirs followed by the host |
| UrlClassifier.SchemeLetterHostExample | pdf_trio/url_classifier.py:64-102 | "https://pubs.acs.org/doi/x.pdf", whose host begins with a letter of its scheme, has domain "pubs.acs.org" and uri "/doi" |
| UrlClassifier.PortExample | pdf_trio/url_classifier.py:64-102 | "http://h.org:8080/a/b.pdf" has domain "h.org" and uri "a": with a port, the uri loses its leading '/' |
| UrlClassifier.WaybackExample | tests/test_url_classifier.py:8-9 | the Wayback address of the unit test loses its prefix and timestamp |
| UrlClassifier.DomainExample | tests/test_url_classifier.py:10-11 | the domain of the unit test's URL is "fatcat.wiki" and its uri is empty |
| UrlClassifier.GenTokens | pdf_trio/url_classifier.py:105-110 | no tokens give ""; one token gives itself; otherwise the length is the summed lengths plus 3 per separator |
| UrlClassifier.GenTokensPair | pdf_trio/url_classifier.py:109 | two tokens are separated by exactly " U_" |
| UrlClassifier.GenTokensEndsWithLast | pdf_trio/url_classifier.py:109 | the token line ends with the last token |
| UrlClassifier.UrlDomain | data_prep/ft_data_prep/preprocess_tsv.py:111 | the domain of a Wayback-stripped URL contains no '/' |
| UrlClassifier.UrlLineEndsWithDomain | pdf_trio/url_classifier.py:98-118 | the line handed to the model ends with the URL's domain |
| UrlClassifier.ClassifyUrl | pdf_trio/url_classifier.py:112-126 | the URL score is in [0, 1] |
| UrlClassifier.ClassifyUrlDecodes | pdf_trio/url_classifier.py:122-126 | the score decodes to "research" exactly when the model's label is a research label |
| LegacyUrlClassifier.Chars | url_classifier.py:88 | iterating over a string yields its characters as one-character strings, in order |
| LegacyUrlClassifier.SpaceOutShape | url_classifier.py:88 | `" ".join` over a string of k characters gives 2k - 1 characters: the input's at even positions and spaces at odd ones |
| LegacyUrlClassifier.ClassifyUrl | url_classifier.py:81-92 | the legacy URL score is in [0, 1] |
| LegacyUrlClassifier.UrlLineLength | url_classifier.py:68-79 | every token line has at least two tokens, so at least three characters |
| LegacyUrlClassifier.LegacyLineDiffers | url_classifier.py:86-88 | the legacy classifier hands the model a line of 2k - 1 characters instead of the k-character token line |
| LegacyUrlClassifier.ClassifyUrlDecodes | url_classifier.py:86-92 | the legacy score decodes to "research" exactly when the model's label on the spaced-out line is a research label |
| PreprocessTsv.Labelled | data_prep/ft_data_prep/preprocess_tsv.py:133 | a row is `__label__<category>`, one space, then the token line |
| PreprocessTsv.Each | data_prep/ft_data_prep/preprocess_tsv.py:111 | the list comprehension applies the function to every element, in order |
| PreprocessTsv.ClassifierSeesTrainingText | data_prep/ft_data_prep/preprocess_tsv.py:130-133 | the text after a training row's label is exactly the line the packaged URL classifier queries, and not the legacy one |
| PreprocessTsv.ResearchRowLabel | data_prep/ft_data_prep/preprocess_tsv.py:133 | a "research" row carries a label that the score codec reads as research |
| PreprocessTsv.LabelledEndsWith | data_prep/ft_data_prep/preprocess_tsv.py:133 | a row ends with whatever its token line ends with |
| PreprocessTsv.TrainingRowEndsWithDomain | data_prep/ft_data_prep/preprocess_tsv.py:130-133 | every training row ends with its URL's domain |
| PreprocessTsv.RowsTextAppend | data_prep/ft_data_prep/preprocess_tsv.py:133 | each written row adds its labelled line and an end of line at the end of the file |
| PreprocessTsv.RowsTextSplit | data_prep/ft_data_prep/preprocess_tsv.py:123-133 | with no end-of-line in the category or the lines, the file splits into one labelled row per line, then "" |
| PreprocessTsv.TrainingTextRows | data_prep/ft_data_prep/preprocess_tsv.py:121-133 | the training file has one row per URL, labelled with the category and carrying that URL's token line |
| PreprocessTsv.WriteRows | data_prep/ft_data_prep/preprocess_tsv.py:121-133 | the counting loop with its `--testing` break writes exactly the rows of the processed prefix |
| PreprocessTsv.WriteTrainingFile | data_prep/ft_data_prep/preprocess_tsv.py:121-133 | the written file is `TrainingText` of the processed rows |
| PreprocessTsv.Image | data_prep/ft_data_prep/preprocess_tsv.py:111-112 | the set holds exactly the images of the list elements |
| PreprocessTsv.ImageCount | data_prep/ft_data_prep/preprocess_tsv.py:111-112 | de-duplicating a list of images never yields more members than list elements |
| PreprocessTsv.DomainsCount | data_prep/ft_data_prep/preprocess_tsv.py:109-115 | the domain set holds every URL's domain and nothing else, has at most one entry per URL, and holds no '/' |
| GenBertData.ReplacePunct | data_prep/bert_data_prep/gen_bert_data.py:113-124 | the twelve replacements keep the length, leave none of the twelve characters, and change only those characters, to spaces |
| GenBertData.SpaceRunLength | data_prep/bert_data_prep/gen_bert_data.py:126 | the leading whitespace run ends at the first non-whitespace character or at the end |
| GenBertData.CollapseSpaces | data_prep/bert_data_prep/gen_bert_data.py:126 | after the substitution no two neighbours are both whitespace; characters come from the input or are spaces; emptiness and the kind of the first character are kept |
| GenBertData.WordsSkipSpaces | data_prep/bert_data_prep/gen_bert_data.py:126-127 | leading whitespace does not change the words of `split()` |
| GenBertData.CollapseKeepsWords | data_prep/bert_data_prep/gen_bert_data.py:126-127 | collapsing whitespace runs does not change the words of `split()` |
| GenBertData.CleanText | data_prep/bert_data_prep/gen_bert_data.py:111-126 | the cleaned text holds no control character, none of the twelve characters, and no whitespace run |
| GenBertData.DocId | data_prep/bert_data_prep/gen_bert_data.py:108 | the document id contains no '/' |
| GenBertData.DocIdOfTxt | data_prep/bert_data_prep/gen_bert_data.py:103-108 | the id of `dir/name.txt` is name |
| GenBertData.TrimTokensKeeps | data_prep/bert_data_prep/gen_bert_data.py:90-97 | trimming only keeps items of the list |
| GenBertData.TextColumnWords | data_prep/bert_data_prep/gen_bert_data.py:126-128 | splitting the text column gives the trimmed words of the cleaned text |
| GenBertData.TextColumnChars | data_prep/bert_data_prep/gen_bert_data.py:58-65 | the text column holds no tab, end of line, control character or any of the twelve characters |
| GenBertData.SplitFourFields | data_prep/bert_data_prep/gen_bert_data.py:128 | four tab-free fields joined by tabs split back into the four fields |
| GenBertData.TsvLineColumns | data_prep/bert_data_prep/gen_bert_data.py:128 | a line of tab-free fields ends with an end of line and splits on tabs back into its four fields |
| GenBertData.RowColumns | data_prep/bert_data_prep/gen_bert_data.py:128 | every row is exactly the four columns: id, category, "a" and a text column free of tabs and ends of line |
| GenBertData.RowsAppend | data_prep/bert_data_prep/gen_bert_data.py:102-128 | each processed file appends its row at the end of the output |
| GenBertData.ProcessFile | data_prep/bert_data_prep/gen_bert_data.py:108-128 | one file's processing writes the row of its id and its cleaned, trimmed text |
| GenBertData.WriteRows | data_prep/bert_data_prep/gen_bert_data.py:100-128 | the counting loop with its `--testing` break writes exactly the rows of the processed prefix of the listing, in listing order |
| GenBertData.WriteBertFile | data_prep/bert_data_prep/gen_bert_data.py:100-128 | the output is the row of every processed file, in listing order |
| PdfClassifier.PickLarger | pdf_trio/pdf_classifier.py:269-285 | a failed call leaves 0.5; otherwise the larger probability wins, with a tie going to "other"; the score is at least 0.5 iff research won |
| PdfClassifier.PickLargerDecodes | pdf_trio/pdf_classifier.py:277-280 | decoding the reply's score gives the winning label and its probability |
| PdfClassifier.ClassifyLinear | pdf_trio/pdf_classifier.py:221-233 | the fastText score of the space-joined tokens is in [0, 1] |
| PdfClassifier.Zeros | pdf_trio/pdf_classifier.py:257 | n zeros |
| PdfClassifier.Ones | pdf_trio/pdf_classifier.py:253-255 | n ones |
| PdfClassifier.PackBertInput | pdf_trio/pdf_classifier.py:245-257 | the ids are zero-padded to 512 slots (a longer list is kept whole); the mask is 1 exactly on the real ids; label ids are [0]; the 512 segment ids are 0 |
| PdfClassifier.ClassifyBert | pdf_trio/pdf_classifier.py:236-285 | the BERT score is in [0, 1] |
| PdfClassifier.BertIgnoresUnknownTokens | pdf_trio/pdf_classifier.py:244 | a token missing from the vocabulary does not change the BERT score, wherever it stands |
| PdfClassifier.PadTokenIds | pdf_trio/pdf_classifier.py:245-248 | the padding loop yields the packed input ids |
| PdfClassifier.ClassifyPdfBert | pdf_trio/pdf_classifier.py:236-285 | conversion, padding, request and reply compute `ClassifyBert` |
| PdfClassifier.ClassifyImage | pdf_trio/pdf_classifier.py:342-369 | reading the empty image name raises; any other name gets a score in [0, 1] |
| PdfClassifier.Executed | pdf_trio/pdf_classifier.py:146-177 | only score keys run, and no more entries than the mode list has |
| PdfClassifier.ScoreOf | pdf_trio/pdf_classifier.py:146-175 | a classifier's score is in [0, 1] |
| PdfClassifier.NamedScoresInOrder | pdf_trio/pdf_classifier.py:146-177 | each mode-list entry that runs appends one score, in mode-list order; the answer holds "version" and exactly the names that ran, each with its score |
| PdfClassifier.StepKeepsOrder | pdf_trio/pdf_classifier.py:147-177 | one loop entry keeps the scores in order with the names that ran |
| PdfClassifier.RepeatedNameCountsTwice | pdf_trio/pdf_classifier.py:146-175 | "linear,bert,linear" records three scores: x, y, x |
| PdfClassifier.SumBounds | pdf_trio/pdf_classifier.py:182 | the sum of n scores in [0, 1] lies in [0, n] |
| PdfClassifier.MeanBounds | pdf_trio/pdf_classifier.py:181-184 | the mean of scores in [0, 1] is in [0, 1] |
| PdfClassifier.MeanOne | pdf_trio/pdf_classifier.py:182 | the mean of one score is that score |
| PdfClassifier.MeanTwo | pdf_trio/pdf_classifier.py:182 | the mean of two scores is half their sum |
| PdfClassifier.NamedConsistent | pdf_trio/pdf_classifier.py:146-177 | the named loop leaves a consistent tally: the version entry, scores in [0, 1], and a score list that is empty iff no score entry exists |
| PdfClassifier.RecordConsistent | pdf_trio/pdf_classifier.py:154-155 | recording a score in [0, 1] under a classifier name keeps the tally consistent |
| PdfClassifier.AutoConsistent | pdf_trio/pdf_classifier.py:121-143 | a successful auto branch leaves a consistent tally |
| PdfClassifier.ResponseShape | pdf_trio/pdf_classifier.py:102-185 | every answer has the version table and only the known keys; "is_research" is present iff some classifier ran; all scores, the mean included, are in [0, 1] |
| PdfClassifier.IsResearchIsMean | pdf_trio/pdf_classifier.py:102-185 | "is_research" is the mean of the recorded scores: with named classifiers, present iff some entry ran, as the mean of one score per entry that ran (a repeated name counting each time); with "auto", always present, as the image score, the linear score, or the mean of the linear and BERT scores |
| PdfClassifier.NamedIsResearch | pdf_trio/pdf_classifier.py:146-184 | the named loop's "is_research" is there iff some entry ran, as the mean of their scores in mode-list order |
| PdfClassifier.AutoIsResearch | pdf_trio/pdf_classifier.py:121-143 | the auto branch's "is_research" is its one score, or the mean of the linear and BERT scores |
| PdfClassifier.NothingRunAnswersVersionOnly | pdf_trio/pdf_classifier.py:114-185 | "linear" on text shorter than 300 characters answers with the version table alone |
| PdfClassifier.AllSelectsThreeClassifiers | pdf_trio/pdf_classifier.py:104-108 | a mode list naming "all" runs image, linear and bert, never auto, exactly as "all" alone does |
| PdfClassifier.AutoIgnoresOtherNames | pdf_trio/pdf_classifier.py:121-143 | once "auto" is present (and "all" is not), the other names make no difference |
| PdfClassifier.AutoPlan | pdf_trio/pdf_classifier.py:121-143 | auto raises iff there are no tokens and no page image; otherwise linear runs iff there are tokens, the image iff there are none, and bert iff the linear score is in [0.15, 0.85] |
| PdfClassifier.AutoRunPlan | pdf_trio/pdf_classifier.py:121-143 | the auto branch itself fails and records scores according to the same plan |
| PdfClassifier.ConcludeKeeps | pdf_trio/pdf_classifier.py:181-184 | concluding adds only "is_research" and keeps every other entry |
| PdfClassifier.ShortTextSkipsTextClassifiers | pdf_trio/pdf_classifier.py:114-118 | with text shorter than 300 characters, neither text classifier records a score, whatever the mode list |
| PdfClassifier.ExecutedHasInput | pdf_trio/pdf_classifier.py:147-175 | a named classifier runs only on its input: the image on a rendered page, the text classifiers on tokens |
| PdfClassifier.NamedImageNeedsRenderedPage | pdf_trio/pdf_classifier.py:147-151 | without auto the request never raises, and "image" is skipped when no usable page image was rendered |
| PdfClassifier.AutoFailureFiles | pdf_trio/pdf_classifier.py:136-138 | when the auto branch raises, the saved PDF stays and no page image remains |
| PdfClassifier.TempFilesAfterRequest | pdf_trio/pdf_classifier.py:110-179 | without debug retention, a completed request leaves no file of its own; with retention, or when the request raises, the PDF stays; nothing but the PDF and its image is ever added |
| PdfClassifier.AutoBranch | pdf_trio/pdf_classifier.py:121-143 | the auto branch computes `RunAuto` and adds or removes the page image as the retention setting says |
| PdfClassifier.NamedLoop | pdf_trio/pdf_classifier.py:146-177 | the named loop computes `RunNamed`, and its image handling leaves the area as `FilesAfterImages` says |
| PdfClassifier.ClassifyPdfMulti | pdf_trio/pdf_classifier.py:83-185 | the request answers `ClassifyPdf` of the mode string, the extracted text and the rendering, and leaves the area as `FilesAfter` |
| LegacyPdfClassifier.TextTokens | pdf_classifier.py:59-65 | with text shorter than 500 characters, or no text classifier named, there are no tokens |
| LegacyPdfClassifier.Start | pdf_classifier.py:49-50 | the initial tally, holding the legacy version table, is consistent |
| LegacyPdfClassifier.ClassifyBert | pdf_classifier.py:170-178 | the BERT stub answers a research score in [0, 1] |
| LegacyPdfClassifier.ClassifyImage | pdf_classifier.py:181-189 | the image stub answers a research score in [0, 1], whatever the name |
| LegacyPdfClassifier.NamedResults | pdf_classifier.py:88-115 | "image" is scored whenever it is named; linear and bert are scored iff named and there are tokens; the stubs' entries hold 0.599 |
| LegacyPdfClassifier.AutoResults | pdf_classifier.py:66-87 | auto records linear iff there are tokens, the image iff there are none, and bert in the band |
| LegacyPdfClassifier.RaisesIffNothingRan | pdf_classifier.py:59-118 | the request raises exactly when no classifier ran |
| LegacyPdfClassifier.NeverReportsIsResearch | pdf_classifier.py:118-119 | a successful answer has the version table and score entries only, never "is_research" |
| LegacyPdfClassifier.NothingRunRaises | pdf_classifier.py:59-118 | "linear" on text shorter than 500 characters raises ZeroDivisionError |
| LegacyPdfClassifier.NamedImageAlwaysScored | pdf_classifier.py:91-98 | a named "image" is scored at the stub value whether or not a page was rendered, and the request succeeds |
| LegacyPdfClassifier.AutoPlan | pdf_classifier.py:66-87 | with auto the request never raises; the image runs iff there are no tokens; the stubs answer 0.599 |
| LegacyPdfClassifier.ShortTextSkipsTextClassifiers | pdf_classifier.py:62-63 | text shorter than 500 characters leaves out both text classifiers |
| LegacyPdfClassifier.TempFilesAfterRequest | pdf_classifier.py:57-116 | a request leaves no file of its own behind, whether or not it then raises |
| LegacyPdfClassifier.NamedLoop | pdf_classifier.py:88-115 | the legacy named loop computes `RunNamed` and removes the page image when "image" was named |
| LegacyPdfClassifier.AutoBranch | pdf_classifier.py:66-87 | the legacy auto branch computes `RunAuto` and removes the page image when it rendered one |
| LegacyPdfClassifier.ClassifyPdfMulti | pdf_classifier.py:30-119 | the legacy request answers `ClassifyPdf` and leaves the area as `FilesAfter` |

## Left out

- The HTTP layer (Flask routes, `app.py`), argument parsing, logging and
  model loading from environment variables are not modelled. The models
  and endpoints enter as function parameters of a `Backends` value or a
  `predict` function.
- The fastText, BERT and image models are oracles. A TensorFlow-serving
  call is a `Reply` that is either `Failed` (any exception or non-200
  status) or the two probabilities. Image decoding and resizing are not
  modelled. An empty image name is the one input that `cv2.imread` is
  known to reject.
- `pdftotext` and ImageMagick are oracles. The extracted text and the byte
  size of the rendered page are parameters, and the timeout and
  termination of the subprocesses are not modelled. The `.txt` file that
  `extract_pdf_text` creates and removes again is not in the modelled
  area.
- The random temporary file name (`tmp_file_name`) is a parameter. The
  atexit removal of the whole area is not modelled.
- `classify_pdf_image_via_exec` (a subprocess variant that nothing calls)
  and the `main()` of `pdf_trio/pdf_classifier.py` are not part of this
  model.
- Floats are reals: no rounding, no NaN.
- Dictionary order of the answer map is not modelled.
- Set iteration order in the domain file of the fastText script is not
  modelled: the domains are a set.
- The BERT script's directory listing (`glob`) is a parameter: a sequence
  of (file name, content) pairs in listing order. The fastText script's
  pandas table is the sequence of its URL column.
- The dead `extract_tokens` at data_prep/bert_data_prep/gen_bert_data.py:70-75
  refers to functions that do not exist in that script and is never
  called. It is not modelled.
- Several functions are copied from one file to another. Each copy is
  modelled once:
  - the URL functions of url_classifier.py:26-79 and of
    data_prep/ft_data_prep/preprocess_tsv.py:58-106 are modelled by
    `UrlClassifier`;
  - the codec of pdf_classifier.py:122-152 is modelled by `Confidence`;
  - `basename`, `dirname` and `trim_tokens` of
    data_prep/bert_data_prep/gen_bert_data.py:77-97 are modelled by
    `TextPrep`, with the budget passed in.
- The comment at data_prep/ft_data_prep/preprocess_tsv.py:119 says rows are
  appended to an existing file. The code opens the file for writing
  (line 123). The model follows the code: the file holds only this run's
  rows.
- LegacyPdfClassifier.ClassifyPdfMulti requires a non-empty PDF name and
  an area without a file named "". The first version removes the ""
  returned for a blank page, and Python's `os.path.exists("")` is false.
  The precondition states that fact about the file system.
- LegacyPdfClassifier.NamedLoop and LegacyPdfClassifier.AutoBranch carry
  the same precondition, for the same reason.
- UrlClassifier.ExtractDomain states only that the domain has no '/'. The
  full description of the domain is the contract of
  UrlClassifier.DomainOf, which ExtractDomain applies to the
  scheme-stripped URL.
- UrlClassifier.AfterDomainOfUrl does not cover a host without a '.' that
  `find` may locate inside the scheme's name, such as "tp" under "http://".
  For such a host the uri is taken from inside the scheme.
- UrlClassifier.TokensOfUrl leaves out the same hosts, for the same reason.
- UrlClassifier.TokensOfPortUrl leaves out the same hosts too. It also
  needs a host of two or more characters: a ':' at index 0 or 1 is not
  taken for a port, so the domain of a one-character host keeps its port.
- UrlClassifier.AfterDomainWithPort leaves out the same hosts and needs the
  same host length, for the same reasons.
- UrlClassifier.FindHostAfterScheme leaves out the same hosts: `find` may
  indeed locate them inside the scheme.
- UrlClassifier.UrlLine has no contract of its own. Its property is
  UrlClassifier.UrlLineEndsWithDomain.
- The two script loops (`PreprocessTsv.WriteRows`, `GenBertData.WriteRows`)
  take the per-row function as a parameter. `WriteTrainingFile` and
  `WriteBertFile` instantiate it with the scripts' own row functions.
- The debug switch of the packaged service (`getEffectiveLevel() ==
  DEBUG`) is a boolean parameter.

## Findings

| source | as written | input that shows it | evidently intended | confidence | as-written member | corrected member |
|---|---|---|---|---|---|---|
| pdf_classifier.py:118-119 | the mean of the scores is computed into a local and never stored, so the answer never carries "is_research" | modes "linear" with 600 characters of extracted text | the answer carries "is_research" as the mean of the recorded scores | not executed | LegacyPdfClassifier.NeverReportsIsResearch | PdfClassifier.IsResearchIsMean |
| pdf_classifier.py:118 | `sum(confidence_values) / len(confidence_values)` divides by zero when no classifier ran | modes "linear" with extracted text shorter than 500 characters | a request in which nothing ran is answered with the version table alone | not executed | LegacyPdfClassifier.NothingRunRaises | PdfClassifier.NothingRunAnswersVersionOnly |
| url_classifier.py:86-88 | `" ".join(tokens)` is applied to the token line, a string, so the model receives its characters separated by spaces | any URL, e.g. "http://fatcat.wiki/one.pdf", whose line " U_fatcat.wiki" is sent with a space between every two characters | the model receives the token line exactly as the training rows carry it | not executed | LegacyUrlClassifier.LegacyLineDiffers | PreprocessTsv.ClassifierSeesTrainingText |
