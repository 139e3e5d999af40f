/** The BM25 ranking of bm25.go: an index built once over tokenized documents
    (document lengths, their average, and how many documents hold each word), the
    score of one document for a query, and the ranking that keeps the best three. */
module Bm25 {
  import opened Strings
  import TopThree

  datatype Option<T> = None | Some(value: T)

  /** The BM25 struct (bm25.go:10-17). The counts are never negative. `avgdl` is
      None where Go's division 0/0 yields NaN, that is for an empty corpus. */
  datatype BM25 = BM25(
    docs: seq<seq<string>>,
    avgdl: Option<real>,
    docLens: seq<nat>,
    docFreq: map<string, nat>,
    k1: real, b: real, delta: real,
    docCount: nat)

  /** Go's `m[k]` on a map of counts: zero for a missing key. */
  function Lookup(m: map<string, nat>, k: string): nat {
    if k in m then m[k] else 0
  }

  // ---------------------------------------------------------------------------
  // tokenize and termFreq

  /** tokenize (bm25.go:86-88): the whitespace-separated fields of the text. */
  function Tokenize(text: string): seq<string> {
    Fields(text)
  }

  /** The tokens are non-empty and free of whitespace, there are none exactly for
      a blank text, they hold every non-whitespace rune in order, and words joined
      by spaces tokenize back to themselves. */
  lemma TokenizeSplits(text: string, ws: seq<string>)
    ensures AllWords(Tokenize(text))
    ensures Tokenize(text) == [] <==> AllSpace(text)
    ensures Concat(Tokenize(text)) == NonSpace(text)
    ensures AllWords(ws) ==> Tokenize(Join(ws)) == ws
  {
    FieldsAreWords(text);
    FieldsEmpty(text);
    FieldsConcat(text);
    if AllWords(ws) {
      FieldsOfJoin(ws);
    }
  }

  /** termFreq (bm25.go:77-83): how often each token occurs; the keys are exactly
      the tokens that occur. */
  method TermFreq(tokens: seq<string>) returns (tf: map<string, nat>)
    ensures tf.Keys == WordSet(tokens)
    ensures forall t :: Lookup(tf, t) == multiset(tokens)[t]
  {
    tf := map[];
    for i := 0 to |tokens|
      invariant tf.Keys == WordSet(tokens[..i])
      invariant forall t :: Lookup(tf, t) == multiset(tokens[..i])[t]
    {
      var t := tokens[i];
      tf := tf[t := Lookup(tf, t) + 1];
      assert tokens[..i + 1] == tokens[..i] + [t];
    }
    assert tokens[..|tokens|] == tokens;
  }

  // ---------------------------------------------------------------------------
  // The index

  /** The number of documents that contain `w`. */
  function DocFreq(docs: seq<seq<string>>, w: string): nat {
    if docs == [] then 0
    else DocFreq(docs[..|docs| - 1], w) + (if w in docs[|docs| - 1] then 1 else 0)
  }

  /** The distinct words of a document. */
  function WordSet(words: seq<string>): set<string> {
    set t | t in words
  }

  /** Every word of every document. */
  function Vocabulary(docs: seq<seq<string>>): set<string> {
    if docs == [] then {}
    else Vocabulary(docs[..|docs| - 1]) + WordSet(docs[|docs| - 1])
  }

  /** The number of tokens in all documents. */
  function TotalLength(docs: seq<seq<string>>): nat {
    if docs == [] then 0 else TotalLength(docs[..|docs| - 1]) + |docs[|docs| - 1]|
  }

  /** The average document length; None (Go's NaN) for no documents. */
  function AverageLength(docs: seq<seq<string>>): Option<real> {
    if |docs| == 0 then None else Some(TotalLength(docs) as real / |docs| as real)
  }

  /** The document frequency of every word of the vocabulary. */
  function Counts(docs: seq<seq<string>>): map<string, nat> {
    map w | w in Vocabulary(docs) :: DocFreq(docs, w)
  }

  /** The counts over `prefix`, plus one for each word already seen in the
      document being counted. */
  function PartialCounts(prefix: seq<seq<string>>, seen: set<string>): map<string, nat> {
    map w | w in Vocabulary(prefix) + seen :: DocFreq(prefix, w) + (if w in seen then 1 else 0)
  }

  /** The index NewBM25 builds over `docs`. */
  function Index(docs: seq<seq<string>>, k1: real, b: real, delta: real): BM25 {
    BM25(
      docs,
      AverageLength(docs),
      seq(|docs|, j requires 0 <= j < |docs| => |docs[j]|),
      Counts(docs),
      k1, b, delta,
      |docs|)
  }

  /** `bm` is an index NewBM25 can return. */
  predicate Built(bm: BM25) {
    bm == Index(bm.docs, bm.k1, bm.b, bm.delta)
  }

  /** NewBM25 (bm25.go:19-51). */
  method NewBM25(tokenized: seq<seq<string>>, k1: real, b: real, delta: real) returns (bm: BM25)
    ensures bm == Index(tokenized, k1, b, delta)
  {
    var docFreq: map<string, nat> := map[];
    var totalLen := 0;
    for i := 0 to |tokenized|
      invariant totalLen == TotalLength(tokenized[..i])
      invariant docFreq == Counts(tokenized[..i])
    {
      var words := tokenized[i];
      totalLen := totalLen + |words|;
      var seen: set<string> := {};
      StartDocument(tokenized[..i]);
      for j := 0 to |words|
        invariant seen == WordSet(words[..j])
        invariant docFreq == PartialCounts(tokenized[..i], seen)
      {
        var w := words[j];
        if w !in seen {
          CountWord(tokenized[..i], seen, w);
          docFreq := docFreq[w := Lookup(docFreq, w) + 1];
          seen := seen + {w};
        }
        assert words[..j + 1] == words[..j] + [w];
      }
      assert words[..|words|] == words;
      NextDocument(tokenized, i);
    }
    assert tokenized[..|tokenized|] == tokenized;

    var avgdl := if |tokenized| == 0 then None else Some(totalLen as real / |tokenized| as real);
    var docLens := new nat[|tokenized|];
    for i := 0 to |tokenized|
      invariant forall j :: 0 <= j < i ==> docLens[j] == |tokenized[j]|
    {
      docLens[i] := |tokenized[i]|;
    }
    bm := BM25(tokenized, avgdl, docLens[..], docFreq, k1, b, delta, |tokenized|);
  }

  /** Before a document is counted, nothing of it has been seen. */
  lemma StartDocument(prefix: seq<seq<string>>)
    ensures PartialCounts(prefix, {}) == Counts(prefix)
  {
  }

  /** Counting a word not seen before in the current document. */
  lemma CountWord(prefix: seq<seq<string>>, seen: set<string>, w: string)
    requires w !in seen
    ensures var d := PartialCounts(prefix, seen);
      d[w := Lookup(d, w) + 1] == PartialCounts(prefix, seen + {w})
  {
    VocabularyHasCount(prefix, w);
  }

  /** Counting the words of one more document, once each, gives the counts of the
      longer prefix. */
  lemma NextDocument(docs: seq<seq<string>>, i: int)
    requires 0 <= i < |docs|
    ensures PartialCounts(docs[..i], WordSet(docs[i])) == Counts(docs[..i + 1])
    ensures TotalLength(docs[..i + 1]) == TotalLength(docs[..i]) + |docs[i]|
  {
    assert docs[..i + 1][..i] == docs[..i];
  }

  /** A word is in the vocabulary exactly when some document contains it. */
  lemma {:induction false} VocabularyHasCount(docs: seq<seq<string>>, w: string)
    ensures w in Vocabulary(docs) <==> DocFreq(docs, w) > 0
    decreases |docs|
  {
    if docs != [] {
      VocabularyHasCount(docs[..|docs| - 1], w);
    }
  }

  /** The documents that contain `w`. */
  function DocsWith(docs: seq<seq<string>>, w: string): set<int> {
    set j | 0 <= j < |docs| && w in docs[j]
  }

  /** DocFreq counts the documents that contain the word. */
  lemma {:induction false} DocFreqCountsDocuments(docs: seq<seq<string>>, w: string)
    ensures DocFreq(docs, w) == |DocsWith(docs, w)|
    decreases |docs|
  {
    if docs != [] {
      var n := |docs| - 1;
      var prefix := docs[..n];
      DocFreqCountsDocuments(prefix, w);
      assert DocsWith(prefix, w) == DocsWith(docs, w) - {n};
      if w in docs[n] {
        assert DocsWith(docs, w) == DocsWith(prefix, w) + {n};
      } else {
        assert DocsWith(docs, w) == DocsWith(prefix, w);
      }
    }
  }

  /** Every word of the index occurs in at least one and at most all documents;
      a word outside it has count zero. */
  lemma DocFreqBounds(docs: seq<seq<string>>, k1: real, b: real, delta: real, w: string)
    ensures var bm := Index(docs, k1, b, delta);
      && (w in bm.docFreq <==> exists j :: 0 <= j < |docs| && w in docs[j])
      && (w in bm.docFreq ==> 1 <= bm.docFreq[w] <= bm.docCount)
      && Lookup(bm.docFreq, w) == |DocsWith(docs, w)|
  {
    VocabularyHasCount(docs, w);
    DocFreqCountsDocuments(docs, w);
    DocFreqAtMost(docs, w);
    var d := DocsWith(docs, w);
    if w in Vocabulary(docs) {
      var j :| j in d;
    } else {
      forall j | 0 <= j < |docs|
        ensures w !in docs[j]
      {
        assert j !in d;
      }
    }
  }

  /** No word is in more documents than there are. */
  lemma {:induction false} DocFreqAtMost(docs: seq<seq<string>>, w: string)
    ensures DocFreq(docs, w) <= |docs|
    decreases |docs|
  {
    if docs != [] {
      DocFreqAtMost(docs[..|docs| - 1], w);
    }
  }

  /** Only which words a document contains matters for the counts, not how often
      or in which order. */
  lemma {:induction false} DocFreqIgnoresRepeats(docs: seq<seq<string>>, other: seq<seq<string>>, w: string)
    requires |docs| == |other|
    requires forall j :: 0 <= j < |docs| ==> WordSet(docs[j]) == WordSet(other[j])
    ensures DocFreq(docs, w) == DocFreq(other, w)
    ensures Vocabulary(docs) == Vocabulary(other)
    decreases |docs|
  {
    if docs != [] {
      var n := |docs| - 1;
      var words, others := WordSet(docs[n]), WordSet(other[n]);
      assert words == others;
      assert w in docs[n] <==> w in words;
      assert w in other[n] <==> w in others;
      DocFreqIgnoresRepeats(docs[..n], other[..n], w);
      assert Vocabulary(docs) == Vocabulary(docs[..n]) + words;
      assert Vocabulary(other) == Vocabulary(other[..n]) + others;
    }
  }

  /** No document is longer than all documents together. */
  lemma {:induction false} TotalLengthBound(docs: seq<seq<string>>, j: int)
    requires 0 <= j < |docs|
    ensures |docs[j]| <= TotalLength(docs)
    decreases |docs|
  {
    if j < |docs| - 1 {
      TotalLengthBound(docs[..|docs| - 1], j);
    }
  }

  /** The average length times the number of documents is the total length. */
  lemma AverageTimesCount(docs: seq<seq<string>>)
    ensures AverageLength(docs) == None <==> |docs| == 0
    ensures AverageLength(docs).Some? ==>
      AverageLength(docs).value * |docs| as real == TotalLength(docs) as real
  {
    if |docs| > 0 {
      var n, t := |docs| as real, TotalLength(docs) as real;
      assert AverageLength(docs).value == t / n;
      assert t / n * n == t;
    }
  }

  // ---------------------------------------------------------------------------
  // IDF and Score

  /** The argument of the logarithm in IDF for `n` documents of which `df` hold
      the term. */
  function IdfArgument(n: nat, df: nat): real {
    (n as real - df as real + 0.5) / (df as real + 0.5) + 1.0
  }

  /** IDF (bm25.go:53-56), with `ln` standing for Go's `math.Log`. It is positive
      for every term held by no more documents than the index counts, whenever the
      logarithm is positive above 1. */
  function Idf(bm: BM25, term: string, ln: real -> real): (r: real)
    ensures LogPositive(ln) && Lookup(bm.docFreq, term) <= bm.docCount ==> r > 0.0
  {
    var df := Lookup(bm.docFreq, term);
    IdfArgumentBounds(bm.docCount, df, df);
    ln(IdfArgument(bm.docCount, df))
  }

  /** The logarithm's argument exceeds 1, so that IDF is positive, exactly for a
      term held by no more documents than there are; and it falls as more
      documents hold the term. */
  lemma IdfArgumentBounds(n: nat, df: nat, df': nat)
    ensures IdfArgument(n, df) > 1.0 <==> df <= n
    ensures df < df' ==> IdfArgument(n, df) > IdfArgument(n, df')
  {
    IdfArgumentClosed(n, df);
    IdfArgumentClosed(n, df');
    var d, d', m := df as real + 0.5, df' as real + 0.5, n as real + 1.0;
    if df <= n {
      assert m > d;
      assert m / d > 1.0;
    } else {
      assert m < d;
      assert m / d < 1.0;
    }
    if df < df' {
      assert d < d';
      assert m / d > m / d';
    }
  }

  /** The argument is (n + 1) / (df + 0.5). */
  lemma IdfArgumentClosed(n: nat, df: nat)
    ensures IdfArgument(n, df) == (n as real + 1.0) / (df as real + 0.5)
  {
    var d := df as real + 0.5;
    assert (n as real - df as real + 0.5) / d + d / d == (n as real + 1.0) / d;
  }

  /** The parameter ranges for which the score's denominator stays positive. */
  predicate Tuned(bm: BM25) {
    0.0 <= bm.k1 && 0.0 <= bm.b <= 1.0
  }

  /** The contribution of one query term that occurs `f` times in a document of
      `docLen` tokens (bm25.go:65-72): nothing when it does not occur, and otherwise,
      for a non-negative IDF, between `idf * delta` and `idf * (k1 + 1 + delta)`. */
  function TermScore(bm: BM25, term: string, f: nat, docLen: nat, ln: real -> real): (r: real)
    requires Tuned(bm)
    requires f > 0 ==> bm.avgdl.Some? && bm.avgdl.value > 0.0
    ensures f == 0 ==> r == 0.0
    ensures var idf := Idf(bm, term, ln);
      f > 0 && 0.0 <= idf ==> idf * bm.delta <= r <= idf * (bm.k1 + 1.0 + bm.delta)
  {
    if f == 0 then 0.0 else Weight(bm, term, f as real, docLen as real, ln)
  }

  /** The BM25 weight of a term that occurs `f >= 1` times: IDF times the
      saturated frequency plus `delta` (bm25.go:69-72). The saturated frequency
      never exceeds `k1 + 1`, however often the term occurs, so for a non-negative
      IDF the weight lies between `idf * delta` and `idf * (k1 + 1 + delta)`. */
  function Weight(bm: BM25, term: string, f: real, docLen: real, ln: real -> real): (r: real)
    requires Tuned(bm) && bm.avgdl.Some? && bm.avgdl.value > 0.0
    requires 1.0 <= f && 0.0 <= docLen
    ensures var idf := Idf(bm, term, ln);
      0.0 <= idf ==> idf * bm.delta <= r <= idf * (bm.k1 + 1.0 + bm.delta)
  {
    var idf := Idf(bm, term, ln);
    var saturated := f * (bm.k1 + 1.0) / Denominator(bm, f, docLen);
    Saturation(bm, f, docLen);
    ScaleBetween(idf, bm.delta, saturated + bm.delta, bm.k1 + 1.0 + bm.delta);
    idf * (saturated + bm.delta)
  }

  /** The saturated frequency lies in `[0, k1 + 1]`. */
  lemma Saturation(bm: BM25, f: real, docLen: real)
    requires Tuned(bm) && bm.avgdl.Some? && bm.avgdl.value > 0.0
    requires 1.0 <= f && 0.0 <= docLen
    ensures 0.0 <= f * (bm.k1 + 1.0) / Denominator(bm, f, docLen) <= bm.k1 + 1.0
  {
    var den, k := Denominator(bm, f, docLen), bm.k1 + 1.0;
    var share := f / den;
    assert 0.0 <= share <= 1.0;
    assert f * k / den == k * share;
    ScaleBetween(k, 0.0, share, 1.0);
    assert k * share <= k;
    assert f * (bm.k1 + 1.0) / Denominator(bm, f, docLen) == f * k / den;
  }

  /** Multiplying by a non-negative factor keeps the order. */
  lemma ScaleBetween(c: real, lo: real, x: real, hi: real)
    requires lo <= x <= hi
    ensures 0.0 <= c ==> c * lo <= c * x <= c * hi
  {
    if 0.0 <= c {
      assert c * (x - lo) >= 0.0 && c * (hi - x) >= 0.0;
    }
  }

  /** The denominator of the saturated frequency (bm25.go:71); with tuned
      parameters it is at least 1 for a term that occurs. */
  function Denominator(bm: BM25, f: real, docLen: real): (r: real)
    requires Tuned(bm) && bm.avgdl.Some? && bm.avgdl.value > 0.0
    requires 1.0 <= f && 0.0 <= docLen
    ensures r >= f && r >= 1.0
  {
    var ratio := bm.b * docLen / bm.avgdl.value;
    assert 0.0 <= bm.b * docLen;
    assert 0.0 <= ratio;
    assert 0.0 <= bm.k1 * (1.0 - bm.b + ratio);
    f + bm.k1 * (1.0 - bm.b + ratio)
  }

  /** The loop's arithmetic computes the weight. */
  lemma WeightIs(bm: BM25, term: string, f: real, docLen: real, ln: real -> real,
                 idf: real, numerator: real, denominator: real)
    requires Tuned(bm) && bm.avgdl.Some? && bm.avgdl.value > 0.0
    requires 1.0 <= f && 0.0 <= docLen
    requires idf == Idf(bm, term, ln) && numerator == f * (bm.k1 + 1.0)
    requires denominator == f + bm.k1 * (1.0 - bm.b + bm.b * docLen / bm.avgdl.value)
    ensures denominator >= 1.0
    ensures idf * (numerator / denominator + bm.delta) == Weight(bm, term, f, docLen, ln)
  {
    assert denominator == Denominator(bm, f, docLen);
  }

  /** A document that contains some word has a positive length, and so has the
      index's average. */
  lemma MatchedDocument(bm: BM25, docIdx: int, t: string)
    requires Built(bm) && 0 <= docIdx < |bm.docs|
    ensures multiset(bm.docs[docIdx])[t] > 0 ==>
      && bm.docLens[docIdx] > 0
      && bm.avgdl.Some? && bm.avgdl.value > 0.0
  {
    if multiset(bm.docs[docIdx])[t] > 0 {
      assert t in bm.docs[docIdx];
      TotalLengthBound(bm.docs, docIdx);
      var n, total := |bm.docs| as real, TotalLength(bm.docs) as real;
      assert total > 0.0 && n > 0.0;
      assert total / n > 0.0;
    }
  }

  /** What term `t` adds to the score of document `docIdx`. */
  function DocTermScore(bm: BM25, t: string, docIdx: int, ln: real -> real): real
    requires Built(bm) && Tuned(bm) && 0 <= docIdx < |bm.docs|
  {
    MatchedDocument(bm, docIdx, t);
    TermScore(bm, t, multiset(bm.docs[docIdx])[t], bm.docLens[docIdx], ln)
  }

  /** The score of document `docIdx` for the query terms `terms`: the terms'
      contributions added up from the first to the last. */
  function QueryScore(bm: BM25, terms: seq<string>, docIdx: int, ln: real -> real): real
    requires Built(bm) && Tuned(bm) && 0 <= docIdx < |bm.docs|
  {
    if terms == [] then 0.0
    else QueryScore(bm, terms[..|terms| - 1], docIdx, ln) + DocTermScore(bm, terms[|terms| - 1], docIdx, ln)
  }

  /** Score (bm25.go:58-75). */
  method Score(bm: BM25, query: string, docIdx: int, ln: real -> real) returns (score: real)
    requires Built(bm) && Tuned(bm) && 0 <= docIdx < |bm.docs|
    ensures score == QueryScore(bm, Tokenize(query), docIdx, ln)
  {
    score := 0.0;
    var qTerms := Tokenize(query);
    var tf := TermFreq(bm.docs[docIdx]);
    var docLen := bm.docLens[docIdx] as real;

    for i := 0 to |qTerms|
      invariant score == QueryScore(bm, qTerms[..i], docIdx, ln)
    {
      var term := qTerms[i];
      var f := Lookup(tf, term) as real;
      ScoreStep(bm, qTerms, i, docIdx, ln, tf);
      if f == 0.0 {
        continue;
      }
      var idf := Idf(bm, term, ln);
      var numerator := f * (bm.k1 + 1.0);
      var denominator := f + bm.k1 * (1.0 - bm.b + bm.b * docLen / bm.avgdl.value);
      WeightIs(bm, term, f, docLen, ln, idf, numerator, denominator);
      score := score + idf * (numerator / denominator + bm.delta);
    }
    assert qTerms[..|qTerms|] == qTerms;
  }

  /** One turn of Score's loop: the term adds nothing when the document's counts
      miss it, and otherwise its weight. */
  lemma ScoreStep(bm: BM25, terms: seq<string>, i: int, docIdx: int, ln: real -> real, tf: map<string, nat>)
    requires Built(bm) && Tuned(bm) && 0 <= docIdx < |bm.docs| && 0 <= i < |terms|
    requires forall t :: Lookup(tf, t) == multiset(bm.docs[docIdx])[t]
    ensures var t, f, docLen := terms[i], Lookup(tf, terms[i]) as real, bm.docLens[docIdx] as real;
      && QueryScore(bm, terms[..i + 1], docIdx, ln)
         == QueryScore(bm, terms[..i], docIdx, ln) + DocTermScore(bm, t, docIdx, ln)
      && (f == 0.0 ==> DocTermScore(bm, t, docIdx, ln) == 0.0)
      && (f != 0.0 ==>
            && bm.avgdl.Some? && bm.avgdl.value > 0.0 && 1.0 <= f
            && DocTermScore(bm, t, docIdx, ln) == Weight(bm, t, f, docLen, ln))
  {
    assert terms[..i + 1][..i] == terms[..i];
    MatchedDocument(bm, docIdx, terms[i]);
  }

  // ---------------------------------------------------------------------------
  // What the score means

  /** The score adds up over a query split in two. */
  lemma {:induction false} QueryScoreAppend(bm: BM25, a: seq<string>, c: seq<string>, docIdx: int, ln: real -> real)
    requires Built(bm) && Tuned(bm) && 0 <= docIdx < |bm.docs|
    ensures QueryScore(bm, a + c, docIdx, ln) == QueryScore(bm, a, docIdx, ln) + QueryScore(bm, c, docIdx, ln)
    decreases |c|
  {
    if c == [] {
      assert a + c == a;
    } else {
      var c' := c[..|c| - 1];
      QueryScoreAppend(bm, a, c', docIdx, ln);
      assert (a + c)[..|a + c| - 1] == a + c';
    }
  }

  /** Taking one term out of the query takes its own contribution out of the score. */
  lemma QueryScoreRemove(bm: BM25, c: seq<string>, k: int, docIdx: int, ln: real -> real)
    requires Built(bm) && Tuned(bm) && 0 <= docIdx < |bm.docs|
    requires 0 <= k < |c|
    ensures QueryScore(bm, c, docIdx, ln)
         == QueryScore(bm, c[..k] + c[k + 1..], docIdx, ln) + DocTermScore(bm, c[k], docIdx, ln)
  {
    var left, x, right := c[..k], c[k], c[k + 1..];
    assert c == (left + [x]) + right;
    QueryScoreAppend(bm, left + [x], right, docIdx, ln);
    QueryScoreAppend(bm, left, right, docIdx, ln);
    assert (left + [x])[..|left + [x]| - 1] == left;
  }

  /** The order of the query terms does not matter, only how often each occurs. */
  lemma {:induction false} QueryScorePermutation(bm: BM25, a: seq<string>, c: seq<string>, docIdx: int, ln: real -> real)
    requires Built(bm) && Tuned(bm) && 0 <= docIdx < |bm.docs|
    requires multiset(a) == multiset(c)
    ensures QueryScore(bm, a, docIdx, ln) == QueryScore(bm, c, docIdx, ln)
    decreases |a|
  {
    if a != [] {
      var k := MatchLast(a, c);
      var rest := c[..k] + c[k + 1..];
      QueryScorePermutation(bm, a[..|a| - 1], rest, docIdx, ln);
      QueryScoreRemove(bm, c, k, docIdx, ln);
    }
  }

  /** The last term of `a` sits somewhere in a permutation `c` of it; taking it out
      of both leaves permutations of each other. */
  lemma MatchLast(a: seq<string>, c: seq<string>) returns (k: int)
    requires multiset(a) == multiset(c) && a != []
    ensures 0 <= k < |c| && c[k] == a[|a| - 1]
    ensures multiset(a[..|a| - 1]) == multiset(c[..k] + c[k + 1..])
  {
    var a', x := a[..|a| - 1], a[|a| - 1];
    MultisetSplit(a', x, []);
    assert a' + [x] + [] == a && a' + [] == a';
    assert x in multiset(c);
    k :| 0 <= k < |c| && c[k] == x;
    var left, right := c[..k], c[k + 1..];
    assert c == left + [x] + right;
    MultisetSplit(left, x, right);
    MultisetCancel(multiset(a'), multiset(left + right), x);
  }

  /** Taking an element out of the middle of a sequence takes it out of the
      multiset. */
  lemma MultisetSplit(left: seq<string>, x: string, right: seq<string>)
    ensures multiset(left + [x] + right) == multiset(left + right) + multiset{x}
  {
    assert left + [x] + right == left + ([x] + right);
  }

  /** Multisets that agree after the same element is added to both agree before. */
  lemma MultisetCancel(m: multiset<string>, n: multiset<string>, x: string)
    requires m + multiset{x} == n + multiset{x}
    ensures m == n
  {
    forall y
      ensures m[y] == n[y]
    {
      assert (m + multiset{x})[y] == (n + multiset{x})[y];
    }
  }

  /** A query none of whose terms occurs in the document scores zero; so does the
      empty query. */
  lemma {:induction false} QueryScoreNoMatch(bm: BM25, terms: seq<string>, docIdx: int, ln: real -> real)
    requires Built(bm) && Tuned(bm) && 0 <= docIdx < |bm.docs|
    requires forall t :: t in terms ==> t !in bm.docs[docIdx]
    ensures QueryScore(bm, terms, docIdx, ln) == 0.0
    decreases |terms|
  {
    if terms != [] {
      var prefix := terms[..|terms| - 1];
      assert forall t :: t in prefix ==> t in terms;
      QueryScoreNoMatch(bm, prefix, docIdx, ln);
      AbsentTerm(bm, terms[|terms| - 1], docIdx, ln);
    }
  }

  /** A term the document does not contain adds nothing. */
  lemma AbsentTerm(bm: BM25, t: string, docIdx: int, ln: real -> real)
    requires Built(bm) && Tuned(bm) && 0 <= docIdx < |bm.docs|
    requires t !in bm.docs[docIdx]
    ensures DocTermScore(bm, t, docIdx, ln) == 0.0
  {
    assert multiset(bm.docs[docIdx])[t] == 0;
  }

  /** A term repeated `k` times in the query adds its own score `k` times. */
  lemma {:induction false} QueryScoreRepeated(bm: BM25, t: string, k: nat, docIdx: int, ln: real -> real)
    requires Built(bm) && Tuned(bm) && 0 <= docIdx < |bm.docs|
    ensures QueryScore(bm, seq(k, _ => t), docIdx, ln) == k as real * DocTermScore(bm, t, docIdx, ln)
    decreases k
  {
    if k > 0 {
      QueryScoreRepeated(bm, t, k - 1, docIdx, ln);
      assert seq(k, _ => t)[..k - 1] == seq(k - 1, _ => t);
    }
  }

  /** The query terms that occur in document `docIdx`. */
  predicate Matches(bm: BM25, terms: seq<string>, docIdx: int)
    requires 0 <= docIdx < |bm.docs|
  {
    exists t :: t in terms && t in bm.docs[docIdx]
  }

  /** `ln` is positive above 1, as the natural logarithm is. */
  ghost predicate LogPositive(ln: real -> real) {
    forall x :: x > 1.0 ==> ln(x) > 0.0
  }

  /** With a logarithm that is positive above 1 and a non-negative `delta`, a
      term adds a positive amount to a document that contains it and nothing to
      one that does not. */
  lemma TermSign(bm: BM25, t: string, docIdx: int, ln: real -> real)
    requires Built(bm) && Tuned(bm) && 0 <= docIdx < |bm.docs|
    requires LogPositive(ln) && 0.0 <= bm.delta
    ensures t in bm.docs[docIdx] ==> DocTermScore(bm, t, docIdx, ln) > 0.0
    ensures t !in bm.docs[docIdx] ==> DocTermScore(bm, t, docIdx, ln) == 0.0
  {
    var doc := bm.docs[docIdx];
    if t in doc {
      MatchedDocument(bm, docIdx, t);
      var f := multiset(doc)[t];
      assert f > 0;
      IdfPositive(bm, t, docIdx, ln);
      WeightPositive(bm, t, f as real, bm.docLens[docIdx] as real, ln);
    } else {
      AbsentTerm(bm, t, docIdx, ln);
    }
  }

  /** With a logarithm that is positive above 1, every word of the documents has
      a positive IDF. */
  lemma IdfPositive(bm: BM25, t: string, docIdx: int, ln: real -> real)
    requires Built(bm) && 0 <= docIdx < |bm.docs| && t in bm.docs[docIdx]
    requires LogPositive(ln)
    ensures Idf(bm, t, ln) > 0.0
  {
    DocFreqBounds(bm.docs, bm.k1, bm.b, bm.delta, t);
    IdfArgumentBounds(bm.docCount, Lookup(bm.docFreq, t), 0);
  }

  /** A positive IDF and a non-negative `delta` make the weight positive. */
  lemma WeightPositive(bm: BM25, t: string, f: real, docLen: real, ln: real -> real)
    requires Tuned(bm) && bm.avgdl.Some? && bm.avgdl.value > 0.0
    requires 1.0 <= f && 0.0 <= docLen
    requires Idf(bm, t, ln) > 0.0 && 0.0 <= bm.delta
    ensures Weight(bm, t, f, docLen, ln) > 0.0
  {
    var den := Denominator(bm, f, docLen);
    var num := f * (bm.k1 + 1.0);
    assert num > 0.0;
    assert num / den > 0.0;
    var idf, rest := Idf(bm, t, ln), num / den + bm.delta;
    assert idf * rest > 0.0;
  }

  /** With a logarithm that is positive above 1 and a non-negative `delta`, a
      document scores above zero exactly when it contains a query term, and zero
      otherwise. */
  lemma {:induction false} QueryScoreSign(bm: BM25, terms: seq<string>, docIdx: int, ln: real -> real)
    requires Built(bm) && Tuned(bm) && 0 <= docIdx < |bm.docs|
    requires LogPositive(ln) && 0.0 <= bm.delta
    ensures QueryScore(bm, terms, docIdx, ln) >= 0.0
    ensures QueryScore(bm, terms, docIdx, ln) > 0.0 <==> Matches(bm, terms, docIdx)
    decreases |terms|
  {
    if terms != [] {
      var prefix, t := terms[..|terms| - 1], terms[|terms| - 1];
      QueryScoreSign(bm, prefix, docIdx, ln);
      TermSign(bm, t, docIdx, ln);
      assert terms == prefix + [t];
      if Matches(bm, terms, docIdx) && !Matches(bm, prefix, docIdx) {
        var u :| u in terms && u in bm.docs[docIdx];
        assert u == t;
      }
      if Matches(bm, prefix, docIdx) {
        var u :| u in prefix && u in bm.docs[docIdx];
        assert u in terms;
      }
    }
  }

  // ---------------------------------------------------------------------------
  // rankDocuments

  /** Every document's text tokenized. */
  function TokenizeAll(documents: seq<string>): (r: seq<seq<string>>)
    ensures |r| == |documents|
  {
    seq(|documents|, i requires 0 <= i < |documents| => Tokenize(documents[i]))
  }

  /** The index rankDocuments builds, with its fixed parameters. */
  function RankingIndex(documents: seq<string>): (bm: BM25)
    ensures Built(bm) && Tuned(bm) && |bm.docs| == |documents|
  {
    Index(TokenizeAll(documents), 1.9, 0.3, 1.9)
  }

  /** The score of every document for the query. */
  function Ranking(query: string, documents: seq<string>, ln: real -> real): (r: seq<real>)
    ensures |r| == |documents|
  {
    var bm := RankingIndex(documents);
    seq(|documents|, i requires 0 <= i < |documents| => QueryScore(bm, Tokenize(query), i, ln))
  }

  /** rankDocuments (bm25.go:90-103), on the documents' text. */
  method RankDocuments(query: string, documents: seq<string>, ln: real -> real) returns (top: TopThree.Top3)
    ensures TopThree.IsTopThree(Ranking(query, documents, ln), top)
  {
    var tokenizedDocs := new seq<string>[|documents|];
    for i := 0 to |documents|
      invariant forall j :: 0 <= j < i ==> tokenizedDocs[j] == Tokenize(documents[j])
    {
      tokenizedDocs[i] := Tokenize(documents[i]);
    }
    assert tokenizedDocs[..] == TokenizeAll(documents);
    var bm := NewBM25(tokenizedDocs[..], 1.9, 0.3, 1.9);
    assert bm == RankingIndex(documents);
    ghost var ranking := Ranking(query, documents, ln);

    var results: seq<real> := [];
    for i := 0 to tokenizedDocs.Length
      invariant results == ranking[..i]
    {
      var s := Score(bm, query, i, ln);
      assert ranking[..i + 1] == ranking[..i] + [s];
      results := results + [s];
    }
    assert ranking[..|documents|] == ranking;
    top := TopThree.TopThreeIndices(results);
  }

  /** With a logarithm that is positive above 1, a document that contains a
      query term ranks before every selected document that contains none. */
  lemma MatchesRankFirst(query: string, documents: seq<string>, ln: real -> real, top: seq<int>, s: nat, k: int)
    requires LogPositive(ln) && TopThree.IsTopThree(Ranking(query, documents, ln), top)
    requires s < 3 && 0 <= top[s] && 0 <= k < |documents|
    requires Matches(RankingIndex(documents), Tokenize(query), k)
    requires !Matches(RankingIndex(documents), Tokenize(query), top[s])
    ensures k in top[..s]
  {
    var nums, bm, terms := Ranking(query, documents, ln), RankingIndex(documents), Tokenize(query);
    var last := top[s];
    assert 0 <= last < |documents|;
    QueryScoreSign(bm, terms, k, ln);
    QueryScoreSign(bm, terms, last, ln);
    assert nums[k] == QueryScore(bm, terms, k, ln) > 0.0;
    assert nums[last] == QueryScore(bm, terms, last, ln) == 0.0;
    TopThree.HigherRanksFirst(nums, top, s, k);
  }
}
