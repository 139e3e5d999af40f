/** CleanText from utils.go: trims the line, turns every run of whitespace into one
    ASCII space and lowers every other rune, in a single pass with an `inSpace` flag. */
module Clean {
  import opened Runes
  import opened Strings

  /** What CleanText promises: the lowered fields of the line, joined by single
      spaces. */
  function Normalized(line: string): string {
    Join(LowerWords(Fields(line)))
  }

  /** What the CleanText loop writes for the rune `c` when the previous rune left
      the flag `inSpace`: one space for the first rune of a whitespace run, nothing
      for the others, the lowered rune for a non-whitespace rune. */
  function Written(c: char, inSpace: bool): string {
    if IsSpace(c) then (if inSpace then [] else " ") else [ToLower(c)]
  }

  /** What the CleanText loop writes while it walks `t`, starting with the flag
      `inSpace`. */
  function Emit(t: string, inSpace: bool): string {
    if t == [] then [] else Written(t[0], inSpace) + Emit(t[1..], IsSpace(t[0]))
  }

  /** CleanText (utils.go:10-26). The builder `b` is a string that only grows. */
  method CleanText(line: string) returns (r: string)
    ensures r == Normalized(line)
  {
    var b: string := [];
    var inSpace := false;
    var t := TrimSpace(line);
    ghost var goal := Emit(t, false);
    var i := 0;
    while i < |t|
      invariant 0 <= i <= |t|
      invariant b + Emit(t[i..], inSpace) == goal
    {
      var c := t[i];
      ghost var b0, wasInSpace := b, inSpace;
      if IsSpace(c) {
        if !inSpace {
          b := b + [' '];
          inSpace := true;
        }
      } else {
        b := b + [ToLower(c)];
        inSpace := false;
      }
      i := i + 1;
      EmitStep(t, i - 1, b0, wasInSpace);
    }
    assert t[i..] == [];
    r := b;
    EmitTrimmed(line);
  }

  // ---------------------------------------------------------------------------
  // The loop computes the specification

  /** One turn of the loop: the rune at `i` is written after what came before. */
  lemma EmitStep(t: string, i: nat, b: string, inSpace: bool)
    requires i < |t|
    ensures b + Emit(t[i..], inSpace)
         == (b + Written(t[i], inSpace)) + Emit(t[i + 1..], IsSpace(t[i]))
  {
    assert t[i..][1..] == t[i + 1..];
  }

  /** Joining lowered words where the first word starts with `c`. */
  lemma JoinLowerCons(c: char, ws: seq<string>)
    requires |ws| > 0
    ensures Join(LowerWords([[c] + ws[0]] + ws[1..])) == [ToLower(c)] + Join(LowerWords(ws))
  {
    var y, z := LowerWords([[c] + ws[0]] + ws[1..]), LowerWords(ws);
    assert y[0] == [ToLower(c)] + z[0];
    assert y[1..] == z[1..];
    if |ws| > 1 {
      assert Join(y) == y[0] + " " + Join(y[1..]);
      assert Join(z) == z[0] + " " + Join(z[1..]);
    }
  }

  /** Joining lowered words where the first word is the single rune `c`. */
  lemma JoinLowerSingle(c: char, ws: seq<string>)
    requires |ws| > 0
    ensures Join(LowerWords([[c]] + ws)) == [ToLower(c)] + " " + Join(LowerWords(ws))
  {
    var y := LowerWords([[c]] + ws);
    assert y[0] == [ToLower(c)];
    assert y[1..] == LowerWords(ws);
  }

  /** A single non-whitespace rune is written lowered. */
  lemma EmitSingle(t: string, inSpace: bool)
    requires |t| == 1 && !IsSpace(t[0])
    ensures Emit(t, inSpace) == Normalized(t)
  {
    assert Fields(t) == [[t[0]]];
    assert LowerString([t[0]]) == [ToLower(t[0])];
    assert LowerWords([[t[0]]]) == [[ToLower(t[0])]];
  }

  /** A non-whitespace rune followed by another one extends the first word. */
  lemma EmitWordGoesOn(t: string, inSpace: bool)
    requires |t| > 1 && !IsSpace(t[0]) && !IsSpace(t[1])
    requires Emit(t[1..], false) == Normalized(t[1..])
    ensures Emit(t, inSpace) == Normalized(t)
  {
    FieldsEmpty(t[1..]);
    JoinLowerCons(t[0], Fields(t[1..]));
  }

  /** A non-whitespace rune followed by whitespace is a one-rune word; the runs of
      whitespace up to the next word are written as one space. */
  lemma EmitWordEnds(t: string, inSpace: bool)
    requires |t| > 2 && !IsSpace(t[0]) && IsSpace(t[1]) && !IsSpace(t[|t| - 1])
    requires Emit(t[2..], true) == Normalized(t[2..])
    ensures Emit(t, inSpace) == Normalized(t)
  {
    EmitWordThenSpace(t, inSpace);
    FieldsWordThenSpace(t);
    JoinLowerSingle(t[0], Fields(t[2..]));
  }

  /** The loop writes the lowered rune, then one space for the whitespace rune. */
  lemma EmitWordThenSpace(t: string, inSpace: bool)
    requires |t| > 2 && !IsSpace(t[0]) && IsSpace(t[1])
    ensures Emit(t, inSpace) == [ToLower(t[0])] + " " + Emit(t[2..], true)
  {
    assert t[1..][1..] == t[2..];
    assert Emit(t[1..], false) == " " + Emit(t[2..], true);
  }

  /** A rune followed by whitespace is a field of its own, and a word follows. */
  lemma FieldsWordThenSpace(t: string)
    requires |t| > 2 && !IsSpace(t[0]) && IsSpace(t[1]) && !IsSpace(t[|t| - 1])
    ensures Fields(t) == [[t[0]]] + Fields(t[2..]) && |Fields(t[2..])| > 0
  {
    assert Fields(t[1..]) == Fields(t[2..]) by {
      assert t[1..][1..] == t[2..];
    }
    FieldsEmpty(t[2..]);
    assert !AllSpace(t[2..]) by {
      assert t[2..][|t| - 3] == t[|t| - 1];
    }
  }

  /** On a string with no trailing whitespace, and no leading whitespace unless the
      flag is set, the loop writes exactly the joined lowered fields. */
  lemma {:induction false} EmitFields(t: string, inSpace: bool)
    requires t == [] || !IsSpace(t[|t| - 1])
    requires inSpace || t == [] || !IsSpace(t[0])
    ensures Emit(t, inSpace) == Normalized(t)
    decreases |t|
  {
    if t == [] {
    } else if IsSpace(t[0]) {
      EmitFields(t[1..], true);
    } else if |t| == 1 {
      EmitSingle(t, inSpace);
    } else if !IsSpace(t[1]) {
      EmitFields(t[1..], false);
      EmitWordGoesOn(t, inSpace);
    } else {
      EmitFields(t[2..], true);
      EmitWordEnds(t, inSpace);
    }
  }

  /** The loop over the trimmed line writes the normalized line. */
  lemma EmitTrimmed(line: string)
    ensures Emit(TrimSpace(line), false) == Normalized(line)
  {
    TrimSpaceEnds(line);
    EmitFields(TrimSpace(line), false);
    FieldsTrimRight(TrimLeft(line));
    FieldsTrimLeft(line);
  }

  // ---------------------------------------------------------------------------
  // Properties of the normalized line

  /** The normalized line has no whitespace at either end, no whitespace rune but
      ' ', and no two whitespace runes side by side; it is empty exactly when the
      line is whitespace only. */
  lemma NormalizedShape(line: string)
    ensures Collapsed(Normalized(line))
    ensures Normalized(line) == [] <==> AllSpace(line)
  {
    FieldsAreWords(line);
    LowerWordsAreWords(Fields(line));
    JoinCollapsed(LowerWords(Fields(line)));
    JoinEmpty(LowerWords(Fields(line)));
    FieldsEmpty(line);
  }

  /** The words of the normalized line are the lowered words of the line, in order:
      every non-whitespace rune is kept, lowered, and every whitespace run between two
      words becomes exactly one space. */
  lemma NormalizedWords(line: string)
    ensures Fields(Normalized(line)) == LowerWords(Fields(line))
    ensures NonSpace(Normalized(line)) == LowerString(NonSpace(line))
  {
    var ws := Fields(line);
    FieldsAreWords(line);
    LowerWordsAreWords(ws);
    FieldsOfJoin(LowerWords(ws));
    FieldsConcat(Normalized(line));
    FieldsConcat(line);
    ConcatLower(ws);
  }

  /** Lowering commutes with concatenation. */
  lemma {:induction false} ConcatLower(ws: seq<string>)
    ensures Concat(LowerWords(ws)) == LowerString(Concat(ws))
    decreases |ws|
  {
    if ws != [] {
      ConcatLower(ws[1..]);
      assert LowerWords(ws)[1..] == LowerWords(ws[1..]);
    }
  }

  /** Cleaning a cleaned line changes nothing. */
  lemma NormalizedIdempotent(line: string)
    ensures Normalized(Normalized(line)) == Normalized(line)
  {
    NormalizedWords(line);
    LowerWordsIdempotent(Fields(line));
  }

  /** A whitespace run, then a word, then the rest starting with whitespace. */
  lemma FieldsSpacedWord(sp: string, w: string, rest: string)
    requires AllSpace(sp) && IsWord(w) && (rest == [] || IsSpace(rest[0]))
    ensures Fields(sp + (w + rest)) == [w] + Fields(rest)
  {
    FieldsLeadingSpace(sp, w + rest);
    FieldsWordThen(w, rest);
  }

  /** Three words with whitespace around and between them. */
  lemma ThreeFields(s: string, sp0: string, w1: string, sp1: string, w2: string, sp2: string,
                    w3: string, sp3: string)
    requires AllSpace(sp0) && AllSpace(sp1) && AllSpace(sp2) && AllSpace(sp3)
    requires sp1 != [] && sp2 != []
    requires IsWord(w1) && IsWord(w2) && IsWord(w3)
    requires s == sp0 + w1 + sp1 + w2 + sp2 + w3 + sp3
    ensures Fields(s) == [w1, w2, w3]
  {
    assert s == sp0 + (w1 + (sp1 + (w2 + (sp2 + (w3 + sp3)))));
    FieldsSpacedWord(sp0, w1, sp1 + (w2 + (sp2 + (w3 + sp3))));
    FieldsSpacedWord(sp1, w2, sp2 + (w3 + sp3));
    if sp3 == [] {
      FieldsSpacedWord(sp2, w3, []);
      assert w3 + sp3 == w3 + [];
    } else {
      FieldsSpacedWord(sp2, w3, sp3);
      FieldsEmpty(sp3);
    }
  }

  /** A line holding three words normalizes to the three lowered words. */
  lemma NormalizedThree(s: string, sp0: string, w1: string, sp1: string, w2: string, sp2: string,
                        w3: string, sp3: string)
    requires AllSpace(sp0) && AllSpace(sp1) && AllSpace(sp2) && AllSpace(sp3)
    requires sp1 != [] && sp2 != []
    requires IsWord(w1) && IsWord(w2) && IsWord(w3)
    requires s == sp0 + w1 + sp1 + w2 + sp2 + w3 + sp3
    ensures Normalized(s) == LowerString(w1) + " " + LowerString(w2) + " " + LowerString(w3)
  {
    ThreeFields(s, sp0, w1, sp1, w2, sp2, w3, sp3);
    var a, b, c := LowerString(w1), LowerString(w2), LowerString(w3);
    assert LowerWords([w1, w2, w3]) == [a, b, c];
    JoinThree(a, b, c);
  }

  /** Three words joined. */
  lemma JoinThree(a: string, b: string, c: string)
    ensures Join([a, b, c]) == a + " " + b + " " + c
  {
    assert [a, b, c][1..] == [b, c];
    assert [b, c][1..] == [c];
    assert Join([b, c]) == b + " " + c;
    assert Join([a, b, c]) == a + " " + (b + " " + c);
  }

  // The test vectors of utils_test.go:9-21. Each takes its line as a parameter
  // fixed by the requires clause, written as the concatenation of its whitespace
  // runs and words (the same string), which keeps the verifier from unfolding the
  // definitions on a long literal; the lowering of each word is a lemma of its own.

  lemma CleanTextPaddedLetter(line: string)
    requires line == " " + "A" + " "
    ensures Normalized(line) == "a"
  {
    assert line == " " + ("A" + " ");
    FieldsSpacedWord(" ", "A", " ");
    FieldsEmpty(" ");
    assert LowerString("A") == "a";
  }

  lemma CleanTextWhitespaceOnly(line: string)
    requires line == "" || line == "     " || line == "\n\t"
    ensures Normalized(line) == ""
  {
    FieldsEmpty(line);
  }

  lemma CleanTextCyrillic(line: string)
    requires line == "   " + "\U{042F}" + "\t\n "
    ensures Normalized(line) == "\U{044F}"
  {
    assert line == "   " + ("\U{042F}" + "\t\n ");
    FieldsSpacedWord("   ", "\U{042F}", "\t\n ");
    FieldsEmpty("\t\n ");
    assert LowerString("\U{042F}") == "\U{044F}";
  }

  lemma LowerTabsWords()
    ensures LowerString("Tabs") == "tabs"
    ensures LowerString("and") == "and"
    ensures LowerString("newlines") == "newlines"
  {
  }

  lemma CleanTextTabs(line: string)
    requires line == "Tabs" + "\t" + "and" + "\n" + "newlines" + "\n"
    ensures Normalized(line) == "tabs" + " " + "and" + " " + "newlines"
  {
    NormalizedThree(line, "", "Tabs", "\t", "and", "\n", "newlines", "\n");
    LowerTabsWords();
  }

  lemma LowerHelloWords()
    ensures LowerString("Hello") == "hello"
    ensures LowerString("World") == "world"
    ensures LowerString("!") == "!"
  {
  }

  lemma CleanTextMixedWhitespace(line: string)
    requires line == "   " + "Hello" + "    \n   " + "World" + "\t" + "!"
    ensures Normalized(line) == "hello" + " " + "world" + " " + "!"
  {
    NormalizedThree(line, "   ", "Hello", "    \n   ", "World", "\t", "!", "");
    LowerHelloWords();
  }

  lemma LowerSpacesWords()
    ensures LowerString("Lots") == "lots"
    ensures LowerString("of") == "of"
    ensures LowerString("spaces") == "spaces"
  {
  }

  lemma CleanTextSpaces(line: string)
    requires line == "   " + "Lots" + "   " + "of" + "   " + "spaces" + "   "
    ensures Normalized(line) == "lots" + " " + "of" + " " + "spaces"
  {
    NormalizedThree(line, "   ", "Lots", "   ", "of", "   ", "spaces", "   ");
    LowerSpacesWords();
  }

  lemma LowerLeadingWords()
    ensures LowerString("Leading") == "leading"
    ensures LowerString("and") == "and"
    ensures LowerString("trailing") == "trailing"
  {
  }

  lemma CleanTextLeadingTrailing(line: string)
    requires line == "\n\n\t  " + "Leading" + " " + "and" + " " + "trailing" + "\t \n"
    ensures Normalized(line) == "leading" + " " + "and" + " " + "trailing"
  {
    NormalizedThree(line, "\n\n\t  ", "Leading", " ", "and", " ", "trailing", "\t \n");
    LowerLeadingWords();
  }

  lemma LowerMixedCaseWords()
    ensures LowerString("MIXED") == "mixed"
    ensures LowerString("Case") == "case"
    ensures LowerString("Input") == "input"
  {
  }

  lemma CleanTextMixedCase(line: string)
    requires line == "MIXED" + " " + "Case" + " " + "Input"
    ensures Normalized(line) == "mixed" + " " + "case" + " " + "input"
  {
    NormalizedThree(line, "", "MIXED", " ", "Case", " ", "Input", "");
    LowerMixedCaseWords();
  }

  /** Latin-1 capitals and the capital sharp s (U+1E9E) lower as Go lowers them. */
  lemma LowerGermanWords()
    ensures LowerString("Ein") == "ein"
    ensures LowerString("\U{00FC}bergro\U{00DF}er") == "\U{00FC}bergro\U{00DF}er"
    ensures LowerString("FU\U{1E9E}G\U{00C4}NGER\U{00DC}BERGANG") == "fu\U{00DF}g\U{00E4}nger\U{00FC}bergang"
  {
  }

  /** Form feed and carriage return are whitespace too. */
  lemma CleanTextGerman(line: string)
    requires line == "\U{000C} " + "Ein" + " " + "\U{00FC}bergro\U{00DF}er" + "   "
                   + "FU\U{1E9E}G\U{00C4}NGER\U{00DC}BERGANG" + " \r\t \n"
    ensures Normalized(line)
         == "ein" + " " + "\U{00FC}bergro\U{00DF}er" + " " + "fu\U{00DF}g\U{00E4}nger\U{00FC}bergang"
  {
    NormalizedThree(line, "\U{000C} ", "Ein", " ", "\U{00FC}bergro\U{00DF}er", "   ",
                    "FU\U{1E9E}G\U{00C4}NGER\U{00DC}BERGANG", " \r\t \n");
    LowerGermanWords();
  }
}
