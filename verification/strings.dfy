/** The functions of Go's `strings` package that the core calls (`TrimSpace`,
    `Fields`, and lowering rune by rune), plus `Join` on single spaces, which is the
    shape CleanText produces. Whitespace is `Runes.IsSpace` throughout. */
module Strings {
  import opened Runes

  /** Every rune of `s` is whitespace (true of the empty string). */
  predicate AllSpace(s: string) {
    forall i :: 0 <= i < |s| ==> IsSpace(s[i])
  }

  /** No rune of `s` is whitespace. */
  predicate NoSpace(s: string) {
    forall i :: 0 <= i < |s| ==> !IsSpace(s[i])
  }

  /** A field: a non-empty run of non-whitespace runes. */
  predicate IsWord(w: string) {
    |w| > 0 && NoSpace(w)
  }

  predicate AllWords(ws: seq<string>) {
    forall i :: 0 <= i < |ws| ==> IsWord(ws[i])
  }

  /** `s` with its leading whitespace removed. */
  function TrimLeft(s: string): string {
    if s != [] && IsSpace(s[0]) then TrimLeft(s[1..]) else s
  }

  /** `s` with its trailing whitespace removed. */
  function TrimRight(s: string): string {
    if s != [] && IsSpace(s[|s| - 1]) then TrimRight(s[..|s| - 1]) else s
  }

  /** Go's `strings.TrimSpace`: leading and trailing whitespace removed. */
  function TrimSpace(s: string): string {
    TrimRight(TrimLeft(s))
  }

  /** Go's `strings.Fields`: the maximal runs of non-whitespace runes of `s`, in
      order. A rune extends the field that starts right after it when there is one. */
  function Fields(s: string): (r: seq<string>)
    ensures |s| > 0 && !IsSpace(s[0]) ==> |r| > 0
    decreases |s|
  {
    if s == [] then []
    else if IsSpace(s[0]) then Fields(s[1..])
    else
      var rest := Fields(s[1..]);
      if |s| > 1 && !IsSpace(s[1]) then [[s[0]] + rest[0]] + rest[1..]
      else [[s[0]]] + rest
  }

  /** The words of `ws` separated by single ASCII spaces. */
  function Join(ws: seq<string>): string {
    if |ws| == 0 then []
    else if |ws| == 1 then ws[0]
    else ws[0] + " " + Join(ws[1..])
  }

  /** The concatenation of the strings of `ws`. */
  function Concat(ws: seq<string>): string {
    if ws == [] then [] else ws[0] + Concat(ws[1..])
  }

  /** The non-whitespace runes of `s`, in order. */
  function NonSpace(s: string): string {
    if s == [] then []
    else (if IsSpace(s[0]) then [] else [s[0]]) + NonSpace(s[1..])
  }

  /** Every rune of `s` lowered (Go's `strings.ToLower`). */
  function LowerString(s: string): (r: string)
    ensures |r| == |s|
    ensures forall i :: 0 <= i < |s| ==> r[i] == ToLower(s[i])
  {
    seq(|s|, i requires 0 <= i < |s| => ToLower(s[i]))
  }

  /** Every word of `ws` lowered. */
  function LowerWords(ws: seq<string>): (r: seq<string>)
    ensures |r| == |ws|
    ensures forall i :: 0 <= i < |ws| ==> r[i] == LowerString(ws[i])
  {
    seq(|ws|, i requires 0 <= i < |ws| => LowerString(ws[i]))
  }

  /** A string in the shape CleanText produces: no whitespace at either end, no
      whitespace rune other than ' ', and never two whitespace runes side by side. */
  predicate Collapsed(r: string) {
    && (r == [] || (!IsSpace(r[0]) && !IsSpace(r[|r| - 1])))
    && (forall i :: 0 <= i < |r| ==> r[i] == ' ' || !IsSpace(r[i]))
    && (forall i :: 0 <= i < |r| - 1 ==> !IsSpace(r[i]) || !IsSpace(r[i + 1]))
  }

  // ---------------------------------------------------------------------------
  // Trimming

  /** TrimLeft drops a whitespace-only prefix and keeps the rest, which starts with
      a non-whitespace rune if it is not empty. */
  lemma {:induction false} TrimLeftSplits(s: string)
    ensures var r := TrimLeft(s);
      && |r| <= |s| && r == s[|s| - |r|..]
      && AllSpace(s[..|s| - |r|])
      && (r == [] || !IsSpace(r[0]))
    decreases |s|
  {
    if s != [] && IsSpace(s[0]) {
      TrimLeftSplits(s[1..]);
      var r := TrimLeft(s);
      assert s[..|s| - |r|] == [s[0]] + s[1..][..|s| - 1 - |r|];
    }
  }

  /** TrimRight drops a whitespace-only suffix and keeps the rest, which ends with
      a non-whitespace rune if it is not empty. */
  lemma {:induction false} TrimRightSplits(s: string)
    ensures var r := TrimRight(s);
      && |r| <= |s| && r == s[..|r|]
      && AllSpace(s[|r|..])
      && (r == [] || !IsSpace(r[|r| - 1]))
    decreases |s|
  {
    if s != [] && IsSpace(s[|s| - 1]) {
      var p := s[..|s| - 1];
      TrimRightSplits(p);
      var r := TrimRight(s);
      assert s[|r|..] == p[|r|..] + [s[|s| - 1]];
    }
  }

  /** TrimSpace neither starts nor ends with whitespace. */
  lemma TrimSpaceEnds(s: string)
    ensures var r := TrimSpace(s);
      r == [] || (!IsSpace(r[0]) && !IsSpace(r[|r| - 1]))
  {
    TrimLeftSplits(s);
    TrimRightSplits(TrimLeft(s));
  }

  // ---------------------------------------------------------------------------
  // Fields

  /** Every field is a non-empty run of non-whitespace runes. */
  lemma {:induction false} FieldsAreWords(s: string)
    ensures AllWords(Fields(s))
    decreases |s|
  {
    if s != [] {
      FieldsAreWords(s[1..]);
      var rest := Fields(s[1..]);
      if !IsSpace(s[0]) && |s| > 1 && !IsSpace(s[1]) {
        var w := [s[0]] + rest[0];
        assert IsWord(rest[0]);
        assert forall i :: 0 < i < |w| ==> w[i] == rest[0][i - 1];
        assert IsWord(w);
      }
    }
  }

  /** There are no fields exactly when the string is whitespace only. */
  lemma {:induction false} FieldsEmpty(s: string)
    ensures Fields(s) == [] <==> AllSpace(s)
    decreases |s|
  {
    if s != [] {
      FieldsEmpty(s[1..]);
      if IsSpace(s[0]) {
        assert AllSpace(s) <==> AllSpace(s[1..]) by {
          assert forall i :: 0 < i < |s| ==> s[i] == s[1..][i - 1];
        }
      }
    }
  }

  /** The fields, laid end to end, are exactly the non-whitespace runes of `s`. */
  lemma {:induction false} FieldsConcat(s: string)
    ensures Concat(Fields(s)) == NonSpace(s)
    decreases |s|
  {
    if s != [] {
      FieldsConcat(s[1..]);
      var rest := Fields(s[1..]);
      if !IsSpace(s[0]) && |s| > 1 && !IsSpace(s[1]) {
        calc {
          Concat(Fields(s));
          ([s[0]] + rest[0]) + Concat(rest[1..]);
          [s[0]] + (rest[0] + Concat(rest[1..]));
          [s[0]] + Concat(rest);
        }
      }
    }
  }

  /** A whitespace-only prefix does not change the fields. */
  lemma {:induction false} FieldsLeadingSpace(sp: string, s: string)
    requires AllSpace(sp)
    ensures Fields(sp + s) == Fields(s)
    decreases |sp|
  {
    if sp != [] {
      assert (sp + s)[1..] == sp[1..] + s;
      FieldsLeadingSpace(sp[1..], s);
    } else {
      assert sp + s == s;
    }
  }

  /** Trimming on the left does not change the fields. */
  lemma FieldsTrimLeft(s: string)
    ensures Fields(TrimLeft(s)) == Fields(s)
  {
    TrimLeftSplits(s);
    var t := TrimLeft(s);
    assert s == s[..|s| - |t|] + t;
    FieldsLeadingSpace(s[..|s| - |t|], t);
  }

  /** A whitespace-only suffix does not change the fields. */
  lemma {:induction false} FieldsTrailingSpace(s: string, sp: string)
    requires AllSpace(sp)
    ensures Fields(s + sp) == Fields(s)
    decreases |s|
  {
    if s == [] {
      assert s + sp == sp;
      FieldsEmpty(sp);
    } else {
      assert (s + sp)[1..] == s[1..] + sp;
      FieldsTrailingSpace(s[1..], sp);
    }
  }

  /** Trimming on the right does not change the fields. */
  lemma FieldsTrimRight(s: string)
    ensures Fields(TrimRight(s)) == Fields(s)
  {
    TrimRightSplits(s);
    var t := TrimRight(s);
    assert s == t + s[|t|..];
    FieldsTrailingSpace(t, s[|t|..]);
  }

  /** A word followed by nothing or by whitespace is the first field. */
  lemma {:induction false} FieldsWordThen(w: string, rest: string)
    requires IsWord(w)
    requires rest == [] || IsSpace(rest[0])
    ensures Fields(w + rest) == [w] + Fields(rest)
    decreases |w|
  {
    var s := w + rest;
    if |w| == 1 {
      assert s[1..] == rest;
      assert [s[0]] == w;
    } else {
      assert s[1..] == w[1..] + rest;
      assert IsWord(w[1..]) by {
        assert forall i :: 0 <= i < |w| - 1 ==> w[1..][i] == w[i + 1];
      }
      FieldsWordThen(w[1..], rest);
      assert [s[0]] + w[1..] == w;
    }
  }

  /** Splitting a space-joined list of words gives the words back. */
  lemma {:induction false} FieldsOfJoin(ws: seq<string>)
    requires AllWords(ws)
    ensures Fields(Join(ws)) == ws
    decreases |ws|
  {
    if |ws| == 1 {
      FieldsWordThen(ws[0], []);
      assert ws[0] + [] == ws[0];
    } else if |ws| > 1 {
      var tail := Join(ws[1..]);
      FieldsWordThen(ws[0], " " + tail);
      assert ws[0] + (" " + tail) == ws[0] + " " + tail;
      assert (" " + tail)[1..] == tail;
      FieldsOfJoin(ws[1..]);
      assert ws == [ws[0]] + ws[1..];
    }
  }

  // ---------------------------------------------------------------------------
  // Join

  /** Joining words gives the empty string only for no words. */
  lemma {:induction false} JoinEmpty(ws: seq<string>)
    requires AllWords(ws)
    ensures Join(ws) == [] <==> ws == []
    decreases |ws|
  {
    if |ws| > 1 {
      JoinEmpty(ws[1..]);
    }
  }

  /** Joining words on single spaces yields a collapsed string. */
  lemma {:induction false} JoinCollapsed(ws: seq<string>)
    requires AllWords(ws)
    ensures Collapsed(Join(ws))
    decreases |ws|
  {
    if |ws| > 1 {
      var w, tail := ws[0], Join(ws[1..]);
      JoinCollapsed(ws[1..]);
      JoinEmpty(ws[1..]);
      var r := w + " " + tail;
      assert IsWord(w);
      assert forall i :: 0 <= i < |w| ==> r[i] == w[i];
      assert r[|w|] == ' ';
      assert forall i :: |w| < i < |r| ==> r[i] == tail[i - |w| - 1];
      assert r[|r| - 1] == tail[|tail| - 1];
    }
  }

  // ---------------------------------------------------------------------------
  // Lowering

  /** Lowering keeps words words. */
  lemma LowerWordsAreWords(ws: seq<string>)
    requires AllWords(ws)
    ensures AllWords(LowerWords(ws))
  {
  }

  /** Lowering words twice is lowering them once. */
  lemma LowerWordsIdempotent(ws: seq<string>)
    ensures LowerWords(LowerWords(ws)) == LowerWords(ws)
  {
    forall i | 0 <= i < |ws|
      ensures LowerString(LowerString(ws[i])) == LowerString(ws[i])
    {
      forall j | 0 <= j < |ws[i]| {
        ToLowerIdempotent(ws[i][j]);
      }
    }
  }
}
