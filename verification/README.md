# Re-ranking and chunking core, modelled in Dafny

The repository is a small retrieval helper. It normalizes text, cuts long
documents into overlapping windows and fetches the fragments nearest a query. It
also defines a BM25 re-ranker that keeps the three best fragments; the only call
to it, in `main.go`, is commented out, so the program as written does not
re-rank. This project models the
two files that hold its logic:

- `utils.go`
  - `CleanText` trims a line, collapses every run of whitespace into one space
    and lowers every other rune.
  - `ChunkText` cuts a text, counted in runes, into windows of at most
    `maxLength` runes. Each window starts `maxLength - overlap` runes after the
    one before.
  - `TopThreeIndices` keeps the indices of the three largest scores in one pass
    over three slots. It shifts slots down on a strict win. `top3` is the
    three-slot result type.
- `bm25.go`
  - `tokenize` splits text on whitespace.
  - `termFreq` counts tokens.
  - `NewBM25` builds the corpus statistics: document frequencies with one count
    per document, document lengths, the average length and the document count.
  - `IDF` and `Score` compute the BM25 score of one document for a query.
  - `rankDocuments` scores every document and returns the top three.

Modules, one per file:

- `Runes` (`runes.dfy`) holds `unicode.IsSpace` and `unicode.ToLower`.
- `Strings` (`strings.dfy`) holds the parts of Go's `strings` package the core
  calls: `TrimSpace` and `Fields`. It also holds `Join` and lowering, which
  state what `CleanText` produces.
- `Clean` (`clean.dfy`), `Chunk` (`chunk.dfy`) and `TopThree` (`topthree.dfy`)
  model the three functions of `utils.go`.
- `Bm25` (`bm25.dfy`) models `bm25.go`.

The loops of the source are methods with loops: `CleanText`, `ChunkText`,
`TopThreeIndices`, `TermFreq`, `NewBM25`, `Score` and `RankDocuments`.

- `TopThreeIndices` keeps its two three-slot arrays.
- `NewBM25` builds the `docFreq` map and `seen` set step by step, and fills a
  `docLens` array.

Each method is proved against a specification function, or, for
`TopThreeIndices`, against a predicate:

- `CleanText` against `Normalized`: the lowered fields of the line, joined by
  single spaces.
- `ChunkText` against `Chunks`.
- `TopThreeIndices` against `IsTopThree`.
- `TermFreq` against multiset counts.
- `NewBM25` against `Index`.
- `Score` against `QueryScore`.
- `RankDocuments` against `Ranking` and `IsTopThree`.

Lemmas then state what those specifications promise.

`math.Log` is a parameter `ln: real -> real` of every function that needs it.
Float64 arithmetic is modelled as exact real arithmetic. Go's NaN average
length for an empty corpus is `None`. The `-Inf` start value of the score slots
is the `NegInf` bound. A missing map key reads as 0, as in Go.

Three facts about the code that the model keeps:

- IDF is never negative here. bm25.go:55 adds 1 inside the logarithm, so the
  argument is `(N + 1) / (df + 0.5)`, which is above 1 for every term because
  `df <= N`. This differs from the textbook BM25 IDF, which goes negative for a
  very common term. `Bm25.IdfArgumentBounds` and `Bm25.IdfArgumentClosed` state
  this, and `Bm25.Idf` is positive whenever `ln` is positive above 1.
- ChunkText has no guard on `maxLength - overlap`. On an empty text its loop
  never runs, so it returns no chunks for any parameters. On a non-empty text
  it loops forever when `overlap == maxLength`. When `overlap > maxLength` it
  writes the first window and then panics, because the next slice starts below
  0. A negative `maxLength` makes the first slice panic. `ValidParameters`
  excludes exactly these cases.
- NewBM25 divides 0 by 0 on an empty corpus and stores NaN as the average
  length. Nothing reads it unless a document is scored. The model keeps that
  average as `None`.

## Model

| member | source | states |
|---|---|---|
| Runes.IsSpace | utils.go:15 | definition: Go's `unicode.IsSpace`, the Latin-1 spaces (tab, newline, vertical tab, form feed, carriage return, space, U+0085, U+00A0) and the Unicode White_Space runes above Latin-1 |
| Runes.ToLower | utils.go:21 | lowering never turns a whitespace rune into a non-whitespace rune or back |
| Runes.ToLowerIdempotent | utils.go:21 | lowering a rune twice is lowering it once |
| Strings.TrimSpace | utils.go:14 | definition: Go's `strings.TrimSpace`, the line without its leading and trailing whitespace |
| Strings.Fields | bm25.go:87 | Go's `strings.Fields`, the maximal runs of non-whitespace runes in order; a text that starts with a non-whitespace rune has at least one field |
| Strings.TrimLeftSplits | utils.go:14 | trimming on the left drops a whitespace-only prefix; what remains is empty or starts with a non-whitespace rune |
| Strings.TrimRightSplits | utils.go:14 | trimming on the right drops a whitespace-only suffix; what remains is empty or ends with a non-whitespace rune |
| Strings.TrimSpaceEnds | utils.go:14 | the trimmed line neither starts nor ends with whitespace |
| Strings.FieldsAreWords | bm25.go:87 | every field is non-empty and free of whitespace |
| Strings.FieldsEmpty | bm25.go:87 | there are no fields exactly when the text is whitespace only |
| Strings.FieldsConcat | bm25.go:87 | the fields laid end to end are the text's non-whitespace runes in order |
| Strings.FieldsLeadingSpace | bm25.go:87 | any whitespace-only prefix leaves the fields unchanged |
| Strings.FieldsTrimLeft | bm25.go:87 | trimming on the left leaves the fields unchanged; derived from `FieldsLeadingSpace` and `TrimLeftSplits` |
| Strings.FieldsTrailingSpace | bm25.go:87 | any whitespace-only suffix leaves the fields unchanged |
| Strings.FieldsTrimRight | bm25.go:87 | trimming on the right leaves the fields unchanged |
| Strings.FieldsWordThen | bm25.go:87 | a word followed by nothing or by whitespace is the first field |
| Strings.FieldsOfJoin | bm25.go:87 | splitting space-joined words gives the words back |
| Strings.JoinEmpty | utils.go:14-24 | joining words gives the empty string only for no words |
| Strings.JoinCollapsed | utils.go:14-24 | words joined by single spaces have no whitespace at either end, none but ' ', and never two in a row |
| Strings.LowerWordsAreWords | utils.go:21 | lowering keeps every word non-empty and free of whitespace |
| Strings.LowerWordsIdempotent | utils.go:21 | lowering words twice is lowering them once |
| Clean.CleanText | utils.go:10-26 | the builder's contents are the lowered fields of the line joined by single spaces |
| Clean.EmitStep | utils.go:14-24 | one turn of the loop appends what the rune writes under the current `inSpace` flag |
| Clean.EmitFields | utils.go:14-24 | on text with no trailing whitespace, and no leading whitespace unless the flag is set, the loop writes the joined lowered fields |
| Clean.EmitTrimmed | utils.go:14-24 | the loop over the trimmed line writes the normalized line |
| Clean.NormalizedShape | utils.go:14-24 | the result has no whitespace at either end and no two whitespace runes side by side; it is empty exactly when the line is whitespace only |
| Clean.NormalizedWords | utils.go:15-22 | the result's words are the line's words lowered, in order, and its non-whitespace runes are the line's non-whitespace runes lowered |
| Clean.NormalizedIdempotent | utils.go:10-26 | cleaning a cleaned line changes nothing |
| Clean.CleanTextPaddedLetter | utils_test.go:9 | " A " cleans to "a" |
| Clean.CleanTextWhitespaceOnly | utils_test.go:10-13 | "", five spaces and "\n\t" clean to "" |
| Clean.CleanTextCyrillic | utils_test.go:12 | "   Я\t\n " cleans to "я" |
| Clean.CleanTextGerman | utils_test.go:14 | the German line with \f, \r and the capital sharp s cleans to its lowered words joined by single spaces |
| Clean.CleanTextSpaces | utils_test.go:16 | "   Lots   of   spaces   " cleans to "lots of spaces" |
| Clean.CleanTextTabs | utils_test.go:17 | "Tabs\tand\nnewlines\n" cleans to "tabs and newlines" |
| Clean.CleanTextMixedCase | utils_test.go:18 | "MIXED Case Input" cleans to "mixed case input" |
| Clean.CleanTextLeadingTrailing | utils_test.go:19 | "\n\n\t  Leading and trailing\t \n" cleans to "leading and trailing" |
| Clean.CleanTextMixedWhitespace | utils_test.go:21 | "   Hello    \n   World\t!" cleans to "hello world !" |
| Clean.NormalizedThree | utils_test.go:16-21 | a line of three words with whitespace around and between them cleans to the three lowered words joined by single spaces |
| Chunk.ChunkText | utils.go:30-43 | the chunks are exactly the windows `Chunks` describes: window `i` is the runes from `i * step` to `min(i * step + maxLength, n)`, one for every start inside the text |
| Chunk.CountIsCeiling | utils.go:36-41 | the loop stops after exactly ceil(n / step) windows |
| Chunk.StartInside | utils.go:36 | every window starts inside the text |
| Chunk.ChunksEmpty | utils.go:36-42 | there are no chunks exactly for the empty text, whatever `maxLength` and `overlap` are |
| Chunk.ChunkAt | utils.go:37-39 | window `i` is the runes of the text from `i * step` to `min(i * step + maxLength, n)`, and its start lies inside the text |
| Chunk.WindowLength | utils.go:37-39 | window `i` holds min(maxLength, n - i * step) runes: at most `maxLength`, and at least one when `maxLength` is positive |
| Chunk.RuneInWindow | utils.go:36-41 | with a non-negative overlap, rune `p` sits in window `p / step` at offset `p % step`, so the windows cover the text without a gap |
| Chunk.LastWindowReachesEnd | utils.go:36-42 | with a non-negative overlap, the last window ends with the last rune |
| Chunk.WindowsOverlap | utils.go:37-40 | with a non-negative overlap, window `i` from offset `step` on is the start of window `i + 1` |
| Chunk.ChunksOfSeven | utils.go:30-43 | "abcdefg" in windows of 3 overlapping by 1 gives "abc", "cde", "efg", "g" |
| TopThree.TopThreeIndices | utils.go:50-68 | the result keeps the promise `IsTopThree`: the first min(3, n) slots hold valid indices in rank order, the rest hold -1, and every index left out ranks after the last slot |
| TopThree.Insert | utils.go:56-64 | a score that beats slot `p` and none before it moves into slot `p`, shifts the later slots down, and keeps the promise for one more score |
| TopThree.Skip | utils.go:54-65 | a score that beats no slot ranks after the last slot and changes nothing |
| TopThree.AheadTransitive | utils.go:55-64 | the rank order (larger score first, the earlier index on ties) is transitive |
| TopThree.AheadStrictTotal | utils.go:55-64 | the rank order is strict and orders any two different indices |
| TopThree.SlotBeatsRest | utils.go:50-68 | each filled slot ranks before every index in a later slot or left out |
| TopThree.TopThreeProperties | utils.go:50-68 | filled slots hold distinct valid indices with non-increasing scores, padded with -1; every unselected score is at most the last slot's, and on a tie the selected index is the earlier |
| TopThree.HigherRanksFirst | utils.go:55-64 | a score strictly above slot `s` belongs to an index in an earlier slot |
| TopThree.SlotsDistinct | utils.go:50-68 | no index fills two slots |
| TopThree.SameSlot | utils.go:50-68 | two results that keep the promise agree slot by slot |
| TopThree.TopThreeUnique | utils.go:50-68 | the result is determined by the scores: only one three-slot list keeps the promise |
| TopThree.TopThreeOfSix | utils_test.go:46 | [3.2, 5.5, 1.1, 7.8, 4.6, 6.3] gives {3, 5, 1} |
| TopThree.TopThreeAscending | utils_test.go:47 | [1, 2, 3] gives {2, 1, 0} |
| TopThree.TopThreeOfTwo | utils_test.go:48 | [9, 1] gives {0, 1, -1} |
| TopThree.TopThreeOfOne | utils_test.go:49 | [2.2] gives {0, -1, -1} |
| TopThree.TopThreeOfNone | utils_test.go:50 | no scores give {-1, -1, -1} |
| TopThree.TopThreeNegative | utils_test.go:51 | [-5, -1, -3, -2] gives {1, 3, 2} |
| TopThree.TopThreeDuplicates | utils_test.go:52 | [5, 5, 5, 1] gives {0, 1, 2}: equal scores keep the earliest indices |
| Bm25.Tokenize | bm25.go:86-88 | definition: `tokenize` is `strings.Fields` |
| Bm25.TokenizeSplits | bm25.go:86-88 | tokens are non-empty and free of whitespace; there are none exactly for a blank text; they hold every non-whitespace rune in order; words joined by spaces tokenize back to themselves |
| Bm25.TermFreq | bm25.go:77-83 | the keys are exactly the tokens that occur, and each count is the token's number of occurrences |
| Bm25.NewBM25 | bm25.go:19-51 | the index holds the documents, their average length (None for no documents), each document's length, every word's document frequency and the document count |
| Bm25.StartDocument | bm25.go:26 | before a document is counted, the counts are those of the documents before it |
| Bm25.CountWord | bm25.go:28-31 | counting a word not yet seen in the document adds one to its count and marks it seen |
| Bm25.NextDocument | bm25.go:23-33 | counting each distinct word of the next document once gives the counts of the longer prefix, and the total length grows by its length |
| Bm25.VocabularyHasCount | bm25.go:23-33 | a word is a key of `docFreq` exactly when some document contains it |
| Bm25.DocFreqCountsDocuments | bm25.go:26-32 | a word's count is the number of documents that contain it |
| Bm25.DocFreqBounds | bm25.go:23-33 | a key of `docFreq` occurs in some document, and its count is between 1 and the document count; a missing word reads as 0 |
| Bm25.DocFreqAtMost | bm25.go:23-33 | no word is counted in more documents than there are |
| Bm25.DocFreqIgnoresRepeats | bm25.go:26-32 | only which words a document holds matters for the counts, not how often or in what order |
| Bm25.TotalLengthBound | bm25.go:24 | no document is longer than all documents together |
| Bm25.AverageTimesCount | bm25.go:35 | the average length is None exactly for no documents, and otherwise times the document count is the total length |
| Bm25.Idf | bm25.go:53-56 | the logarithm of the argument for the term's document frequency, a missing term reading 0; positive, when `ln` is positive above 1, for every term held by no more documents than the index counts |
| Bm25.IdfArgumentBounds | bm25.go:53-56 | the logarithm's argument exceeds 1 exactly when `df <= N`, and falls as `df` grows |
| Bm25.IdfPositive | bm25.go:53-56 | with `ln` positive above 1, every word that occurs in some document has a positive IDF |
| Bm25.WeightPositive | bm25.go:69-72 | a positive IDF and delta >= 0 make the weight of a term that occurs positive |
| Bm25.IdfArgumentClosed | bm25.go:55 | the logarithm's argument is (N + 1) / (df + 0.5) |
| Bm25.Denominator | bm25.go:71 | with k1 >= 0 and 0 <= b <= 1 the denominator is at least 1, and at least the term's frequency, for a term that occurs |
| Bm25.Weight | bm25.go:69-72 | a term that occurs adds IDF times its saturated frequency plus delta; with a non-negative IDF that lies between `idf * delta` and `idf * (k1 + 1 + delta)`, however often the term occurs |
| Bm25.Saturation | bm25.go:70-72 | the saturated frequency `f * (k1 + 1) / denominator` lies between 0 and `k1 + 1` |
| Bm25.TermScore | bm25.go:65-72 | a term that does not occur adds 0; one that occurs adds an amount between `idf * delta` and `idf * (k1 + 1 + delta)` when its IDF is non-negative |
| Bm25.WeightIs | bm25.go:69-72 | the loop's idf, numerator and denominator compute the term's weight |
| Bm25.MatchedDocument | bm25.go:62-71 | a document that contains a query term has positive length, and so has the average |
| Bm25.Score | bm25.go:58-75 | the score is the sum, over the query's tokens in order, of each token's term score in the document |
| Bm25.ScoreStep | bm25.go:64-73 | a term that does not occur in the document adds nothing, and one that does adds its weight |
| Bm25.QueryScoreAppend | bm25.go:64-73 | the score of a query split in two is the sum of the scores of its halves |
| Bm25.QueryScoreRemove | bm25.go:64-73 | taking one term out of the query takes its contribution out of the score |
| Bm25.QueryScorePermutation | bm25.go:64-73 | the order of the query terms does not matter, only how often each occurs |
| Bm25.QueryScoreNoMatch | bm25.go:64-68 | an empty query, or one none of whose terms occurs in the document, scores 0 |
| Bm25.AbsentTerm | bm25.go:65-68 | a term the document does not contain adds nothing |
| Bm25.QueryScoreRepeated | bm25.go:64-73 | a term repeated k times in the query adds its contribution k times |
| Bm25.TermSign | bm25.go:64-73 | with `ln` positive above 1 and delta >= 0, a term adds a positive amount to a document that contains it and nothing to one that does not |
| Bm25.QueryScoreSign | bm25.go:58-75 | with `ln` positive above 1 and delta >= 0, the score is never negative and is positive exactly when the document contains a query term |
| Bm25.RankDocuments | bm25.go:90-103 | the result is the top three, as `TopThreeIndices` promises, of one score per document in document order, over the index built from the tokenized documents with k1 = 1.9, b = 0.3, delta = 1.9 |
| Bm25.MatchesRankFirst | bm25.go:90-103 | with `ln` positive above 1, a document that contains a query term ranks before every selected document that contains none |

## Left out

- `wiki.go`, `llm-reader.go` and `main.go` are not part of this model. They hold
  HTTP requests, JSON decoding, flag parsing, printing and calls into the
  external vector-search library.
- The commented-out `main` at the end of `bm25.go` is dead code.
- Float64 rounding is not modelled. Scores, IDF and the average length are exact
  reals. So `QueryScorePermutation` and `QueryScoreAppend` hold exactly here,
  while float addition in Go is only approximately associative.
- `math.Log` is the parameter `ln`. Its only assumed property, positive above
  1, is a requires of the lemmas that need it (`TermSign`, `QueryScoreSign`,
  `MatchesRankFirst`).
- Bm25.Score: requires k1 >= 0 and 0 <= b <= 1 (`Tuned`). That is a
  sufficient condition for a denominator of at least 1, not a necessary one.
  Some other settings, including some with k1 < 0, keep the denominator
  positive, and a negative non-zero denominator gives a finite negative term in
  Go. Only a zero denominator gives Inf or NaN. The model covers only the tuned
  settings. Both parameter sets in the source satisfy `Tuned`: (1.9, 0.3, 1.9)
  at bm25.go:95 and (1.5, 0.75, 1.0) in the commented-out code at bm25.go:115.
- TopThree.TopThreeIndices: NaN and infinite scores are not modelled. Scores
  are reals. In Go a NaN or -Inf score is never selected.
- Runes.ToLower: the full Unicode case tables are not modelled. It lowers the
  capitals of Basic Latin, Latin-1, basic Greek and basic Cyrillic, and
  U+1E9E. Every other rune is returned unchanged.
- Invalid UTF-8 is not modelled. Strings are sequences of runes, so Go's
  conversion of a bad byte to U+FFFD is absent.
- Chunk.ChunkText: on a non-empty text it requires `overlap < maxLength` and
  `maxLength >= 0`. The excluded cases do not return in Go. With
  `overlap == maxLength` the loop never ends. With `overlap > maxLength` the
  second slice starts below 0 and panics. With a negative `maxLength` the first
  slice panics. An empty text is accepted with any parameters.
- Go's `int` is 64 bits wide, while Dafny's `int` is unbounded. Wrap-around of
  `start + maxLength` (utils.go:37) and of `start += maxLength - overlap`
  (utils.go:40) for parameters near the 64-bit limits is not modelled.
- Bm25.RankDocuments: takes each document's text. The other fields of the
  search library's result type are never read by `rankDocuments`.
- The test vectors "Hello World" (utils_test.go:15) and "Multiple types of
  whitespace" (utils_test.go:20) are not stated as separate lemmas. They have
  two and four words; `Clean.NormalizedWords` covers them in general.
