/** ChunkText from utils.go: cuts a text, counted in runes, into windows of at most
    `maxLength` runes, each starting `maxLength - overlap` runes after the one before. */
module Chunk {

  function Min(a: int, b: int): int {
    if a < b then a else b
  }

  /** The parameters ChunkText can run on. On an empty text the loop never runs,
      so every pair is accepted. Otherwise the start must advance (with
      `overlap == maxLength` the loop never ends, with `overlap > maxLength` the
      second slice starts below 0 and panics), and the window must not be
      negative (otherwise the first slice panics). */
  predicate ValidParameters(n: nat, maxLength: int, overlap: int) {
    n > 0 ==> overlap < maxLength && 0 <= maxLength
  }

  /** The number of windows: ceil(n / step). */
  function ChunkCount(n: nat, step: int): nat
    requires step > 0
  {
    (n + step - 1) / step
  }

  /** The runes of `text` from `start` on, at most `maxLength` of them. */
  function Window(text: string, start: nat, maxLength: nat): string
    requires start <= |text|
  {
    text[start..Min(start + maxLength, |text|)]
  }

  /** What ChunkText promises: window `i` starts at `i * (maxLength - overlap)`, and
      there is one window for every start inside the text. */
  function Chunks(text: string, maxLength: int, overlap: int): seq<string>
    requires ValidParameters(|text|, maxLength, overlap)
  {
    if |text| == 0 then []
    else
      var step := maxLength - overlap;
      var count := ChunkCount(|text|, step);
      seq(count, i requires 0 <= i < count =>
        StartInside(|text|, step, i);
        Window(text, i * step, maxLength))
  }

  /** ChunkText (utils.go:30-43). */
  method ChunkText(text: string, maxLength: int, overlap: int) returns (chunks: seq<string>)
    requires ValidParameters(|text|, maxLength, overlap)
    ensures chunks == Chunks(text, maxLength, overlap)
  {
    chunks := [];
    var start := 0;
    var runes := text;
    ghost var step := maxLength - overlap;
    while start < |runes|
      invariant start == |chunks| * step
      invariant |chunks| == 0 || (|chunks| - 1) * step < |runes|
      invariant forall j :: 0 <= j < |chunks| ==>
                  j * step < |runes| && chunks[j] == Window(runes, j * step, maxLength)
      decreases |runes| - start
    {
      var end := Min(start + maxLength, |runes|);
      chunks := chunks + [runes[start..end]];
      start := start + maxLength - overlap;
      assert start == (|chunks| - 1) * step + step;
    }
    if |runes| > 0 {
      CountIsCeiling(|runes|, step, |chunks|);
    }
  }

  // ---------------------------------------------------------------------------
  // Arithmetic on window starts

  lemma MulNonneg(a: int, b: int)
    requires 0 <= a && 0 <= b
    ensures 0 <= a * b
  {
  }

  lemma MulLe(a: int, b: int, c: int)
    requires a <= b && 0 <= c
    ensures a * c <= b * c
  {
    MulNonneg(b - a, c);
    assert (b - a) * c == b * c - a * c;
  }

  /** `k` is the quotient when `k * step <= m < (k + 1) * step`. */
  lemma DivBetween(m: int, step: int, k: int)
    requires step > 0 && k * step <= m < k * step + step
    ensures m / step == k
  {
    var q := m / step;
    DivMod(m, step);
    MulPred(k + 1, step);
    MulLtCancel(q, k + 1, step);
    MulPred(q + 1, step);
    MulLtCancel(k, q + 1, step);
  }

  /** The windows reach the end of the text: `count * step >= n`. */
  lemma CountCovers(n: nat, step: int)
    requires step > 0
    ensures ChunkCount(n, step) * step >= n
  {
    DivMod(n + step - 1, step);
  }

  /** Every window index below the count starts inside the text. */
  lemma StartInside(n: nat, step: int, i: nat)
    requires step > 0 && i < ChunkCount(n, step)
    ensures 0 <= i * step < n
  {
    var m := n + step - 1;
    var q := m / step;
    DivMod(m, step);
    MulLe(i, q - 1, step);
    MulPred(q, step);
    MulNonneg(i, step);
  }

  /** Euclidean division by a positive divisor. */
  lemma DivMod(m: int, step: int)
    requires step > 0
    ensures m == (m / step) * step + m % step && 0 <= m % step < step
  {
  }

  lemma MulPred(q: int, step: int)
    ensures (q - 1) * step == q * step - step
  {
  }

  /** A product with a positive factor is positive only if the other factor is. */
  lemma MulPosCancel(x: int, c: int)
    requires c > 0 && x * c > 0
    ensures x > 0
  {
  }

  /** Products with the same positive factor compare as the other factors do. */
  lemma MulLtCancel(a: int, b: int, c: int)
    requires c > 0 && a * c < b * c
    ensures a < b
  {
    assert (b - a) * c == b * c - a * c;
    MulPosCancel(b - a, c);
  }

  /** The loop stops after exactly ceil(n / step) windows. */
  lemma CountIsCeiling(n: nat, step: int, k: nat)
    requires step > 0 && n <= k * step
    requires k == 0 || (k - 1) * step < n
    ensures k == ChunkCount(n, step)
  {
    if k == 0 {
      DivBetween(n + step - 1, step, 0);
    } else {
      assert (k - 1) * step == k * step - step;
      DivBetween(n + step - 1, step, k);
    }
  }

  // ---------------------------------------------------------------------------
  // Properties of the windows

  /** No windows exactly for the empty text. */
  lemma ChunksEmpty(text: string, maxLength: int, overlap: int)
    requires ValidParameters(|text|, maxLength, overlap)
    ensures Chunks(text, maxLength, overlap) == [] <==> |text| == 0
  {
    if |text| > 0 {
      DivMod(|text| + maxLength - overlap - 1, maxLength - overlap);
    }
  }

  /** Window `i` starts `i * step` runes into the text. */
  lemma ChunkAt(text: string, maxLength: int, overlap: int, i: int)
    requires ValidParameters(|text|, maxLength, overlap)
    requires 0 <= i < |Chunks(text, maxLength, overlap)|
    ensures var step := maxLength - overlap;
      && |text| > 0 && step > 0 && 0 <= i * step < |text|
      && Chunks(text, maxLength, overlap)[i] == Window(text, i * step, maxLength)
  {
    StartInside(|text|, maxLength - overlap, i);
  }

  /** Window `i` holds `min(maxLength, n - i * step)` runes: never more than
      `maxLength`, and at least one when `maxLength` is positive. */
  lemma WindowLength(text: string, maxLength: int, overlap: int, i: int)
    requires ValidParameters(|text|, maxLength, overlap)
    requires 0 <= i < |Chunks(text, maxLength, overlap)|
    ensures var r, step := Chunks(text, maxLength, overlap), maxLength - overlap;
      && 0 <= i * step < |text|
      && |r[i]| == Min(maxLength, |text| - i * step)
      && |r[i]| <= maxLength
      && (maxLength > 0 ==> |r[i]| > 0)
  {
    StartInside(|text|, maxLength - overlap, i);
  }

  /** With a non-negative overlap the windows cover the text without a gap: rune `p`
      sits in window `p / step` at offset `p % step`. */
  lemma RuneInWindow(text: string, maxLength: int, overlap: int, p: int)
    requires ValidParameters(|text|, maxLength, overlap) && 0 <= overlap
    requires 0 <= p < |text|
    ensures var r, step := Chunks(text, maxLength, overlap), maxLength - overlap;
      p / step < |r| && p % step < |r[p / step]| && r[p / step][p % step] == text[p]
  {
    var r, step := Chunks(text, maxLength, overlap), maxLength - overlap;
    var n := |text|;
    var i, o := p / step, p % step;
    DivMod(p, step);
    MulNonneg(i, step);
    CountCovers(n, step);
    MulLtCancel(i, |r|, step);
    StartInside(n, step, i);
    assert r[i] == text[i * step..Min(i * step + maxLength, n)];
  }

  /** With a non-negative overlap the last window ends with the last rune. */
  lemma LastWindowReachesEnd(text: string, maxLength: int, overlap: int)
    requires ValidParameters(|text|, maxLength, overlap) && 0 <= overlap
    requires |text| > 0
    ensures var r, step := Chunks(text, maxLength, overlap), maxLength - overlap;
      |r| > 0 && r[|r| - 1] == text[(|r| - 1) * step..]
  {
    var r, step := Chunks(text, maxLength, overlap), maxLength - overlap;
    ChunksEmpty(text, maxLength, overlap);
    var k := |r| - 1;
    CountCovers(|text|, step);
    StartInside(|text|, step, k);
    assert k * step + step == |r| * step;
  }

  /** With a non-negative overlap, consecutive windows share their runes: window
      `i` from `step` on is where window `i + 1` begins. */
  lemma WindowsOverlap(text: string, maxLength: int, overlap: int, i: int)
    requires ValidParameters(|text|, maxLength, overlap) && 0 <= overlap
    requires 0 <= i < |Chunks(text, maxLength, overlap)| - 1
    ensures var r, step := Chunks(text, maxLength, overlap), maxLength - overlap;
      && step <= |r[i]| <= |r[i + 1]| + step
      && r[i][step..] == r[i + 1][..|r[i]| - step]
  {
    var r, step := Chunks(text, maxLength, overlap), maxLength - overlap;
    ChunkAt(text, maxLength, overlap, i);
    ChunkAt(text, maxLength, overlap, i + 1);
    var a := i * step;
    assert (i + 1) * step == a + step;
    var e := Min(a + maxLength, |text|);
    assert r[i] == text[a..e];
    assert r[i + 1] == text[a + step..Min(a + step + maxLength, |text|)];
    assert r[i][step..] == text[a + step..e];
  }

  /** Seven runes in windows of three that overlap by one. */
  lemma ChunksOfSeven(text: string)
    requires text == "abcdefg"
    ensures Chunks(text, 3, 1) == ["abc", "cde", "efg", "g"]
  {
    var r := Chunks(text, 3, 1);
    assert |r| == 4;
    assert r[0] == Window(text, 0, 3) == "abc";
    assert r[1] == Window(text, 2, 3) == "cde";
    assert r[2] == Window(text, 4, 3) == "efg";
    assert r[3] == Window(text, 6, 3) == "g";
  }
}
