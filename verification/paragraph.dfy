/**
 * The paragraph widget's greedy word wrap: words (maximal non-whitespace
 * runs) are packed into lines joined by single spaces; a word too long for
 * any line is cut into width-sized chunks. Lengths compared against the
 * width are UTF-8 byte lengths; chunks are cut by characters.
 */
module Wrapping {
  import opened Seqs
  import opened Text

  /** Consecutive `m`-character chunks of `w`, the last possibly shorter. */
  function Chunks(w: string, m: nat): (cs: seq<string>)
    requires m > 0
    ensures Concat(cs) == w
    ensures forall i | 0 <= i < |cs| :: 0 < |cs[i]| <= m
    ensures forall i | 0 <= i < |cs| - 1 :: |cs[i]| == m
    ensures |w| > 0 ==> |cs| > 0
    decreases |w|
  {
    if |w| == 0 then []
    else if |w| <= m then
      assert [w][1..] == [];
      [w]
    else
      var rest := Chunks(w[m..], m);
      assert ([w[..m]] + rest)[1..] == rest;
      assert w[..m] + w[m..] == w;
      [w[..m]] + rest
  }

  /** The lines finished so far and the line being filled. */
  datatype WrapState = WrapState(lines: seq<string>, current: string)

  const START := WrapState([], "")

  /** Every line is non-empty and at most `m` characters. */
  predicate AllFit(lines: seq<string>, m: nat)
  {
    forall i | 0 <= i < |lines| :: 0 < |lines[i]| <= m
  }

  lemma AllFitAppend(a: seq<string>, b: seq<string>, m: nat)
    requires AllFit(a, m) && AllFit(b, m)
    ensures AllFit(a + b, m)
  {
    forall i | 0 <= i < |a + b| ensures 0 < |(a + b)[i]| <= m {
      if i >= |a| { assert (a + b)[i] == b[i - |a|]; }
    }
  }

  /** Finished lines fit; the open line fits in `m` bytes. */
  predicate Fits(st: WrapState, m: nat)
  {
    AllFit(st.lines, m) && Utf8Len(st.current) <= m
  }

  /** The non-whitespace text placed so far. */
  function Placed(st: WrapState): string
  {
    NonWhitespace(Concat(st.lines) + st.current)
  }

  /**
   * One iteration of `wrap_text`'s loop. A word longer than `m` bytes closes
   * the open line (if any) and is emitted as chunks. Otherwise the open line
   * is closed first when the word would not fit after a space, and the word
   * is appended to the open line (after a space when the line is not empty).
   */
  function WrapWord(st: WrapState, word: string, m: nat): (r: WrapState)
    requires m > 0
    ensures |st.lines| <= |r.lines| && r.lines[..|st.lines|] == st.lines
    ensures Utf8Len(word) <= m && |st.current| > 0 ==>
      (|r.lines| > |st.lines| <==> Utf8Len(st.current) + 1 + Utf8Len(word) > m)
    ensures Utf8Len(word) <= m && |st.current| > 0 && Utf8Len(st.current) + 1 + Utf8Len(word) <= m ==>
      r == WrapState(st.lines, st.current + " " + word)
  {
    if Utf8Len(word) > m then
      WrapState(st.lines + (if |st.current| > 0 then [st.current] else []) + Chunks(word, m), "")
    else
      var exceed :=
        if |st.current| == 0 then Utf8Len(word) > m
        else Utf8Len(st.current) + 1 + Utf8Len(word) > m;
      var flushed := if exceed && |st.current| > 0 then WrapState(st.lines + [st.current], "") else st;
      WrapState(flushed.lines, (if |flushed.current| > 0 then flushed.current + " " else "") + word)
  }

  lemma SpaceFacts()
    ensures Utf8Len(" ") == 1 && NonWhitespace(" ") == ""
  {
    assert " "[1..] == "";
  }

  lemma ConcatSingle(s: string)
    ensures Concat([s]) == s
  {
    assert [s][1..] == [];
  }

  /** A word step keeps the shape invariant and places exactly the word's characters. */
  lemma WrapWordStep(st: WrapState, word: string, m: nat)
    requires m > 0 && Fits(st, m)
    requires |word| > 0 && NoWhitespace(word)
    ensures Fits(WrapWord(st, word, m), m)
    ensures Placed(WrapWord(st, word, m)) == Placed(st) + word
  {
    NonWhitespaceOfWord(word);
    if Utf8Len(word) > m {
      LongWordStep(st, word, m);
    } else if |st.current| > 0 && Utf8Len(st.current) + 1 + Utf8Len(word) > m {
      NewLineStep(st, word, m);
    } else {
      SameLineStep(st, word, m);
    }
  }

  lemma LongWordStep(st: WrapState, word: string, m: nat)
    requires m > 0 && Fits(st, m)
    requires NonWhitespace(word) == word
    requires Utf8Len(word) > m
    ensures Fits(WrapWord(st, word, m), m)
    ensures Placed(WrapWord(st, word, m)) == Placed(st) + word
    ensures WrapWord(st, word, m).current == ""
    ensures WrapWord(st, word, m).lines
      == st.lines + (if |st.current| > 0 then [st.current] else []) + Chunks(word, m)
  {
    var r := WrapWord(st, word, m);
    var cur := st.current;
    var cl := Concat(st.lines);
    var closed := if |cur| > 0 then [cur] else [];
    var cs := Chunks(word, m);
    assert r.lines == st.lines + closed + cs && r.current == "";
    ConcatAppend(st.lines + closed, cs);
    ConcatAppend(st.lines, closed);
    if |cur| > 0 { ConcatSingle(cur); } else { assert Concat(closed) == ""; }
    AppendEmpty(Concat(r.lines));
    NonWhitespaceAppend(cl + cur, word);
    assert AllFit(closed, m) && AllFit(cs, m);
    AllFitAppend(st.lines, closed, m);
    AllFitAppend(st.lines + closed, cs, m);
  }

  lemma NewLineStep(st: WrapState, word: string, m: nat)
    requires m > 0 && Fits(st, m)
    requires NonWhitespace(word) == word
    requires Utf8Len(word) <= m && |st.current| > 0 && Utf8Len(st.current) + 1 + Utf8Len(word) > m
    ensures Fits(WrapWord(st, word, m), m)
    ensures Placed(WrapWord(st, word, m)) == Placed(st) + word
    ensures WrapWord(st, word, m) == WrapState(st.lines + [st.current], word)
  {
    var r := WrapWord(st, word, m);
    var cur := st.current;
    var cl := Concat(st.lines);
    assert r == WrapState(st.lines + [cur], word);
    ConcatAppend(st.lines, [cur]);
    ConcatSingle(cur);
    AppendEmpty(Concat(r.lines));
    NonWhitespaceAppend(cl + cur, word);
    assert AllFit([cur], m);
    AllFitAppend(st.lines, [cur], m);
  }

  /** Joining with a space adds no placed character. */
  lemma PlacedJoin(x: string, word: string)
    ensures NonWhitespace(x + " " + word) == NonWhitespace(x) + NonWhitespace(word)
  {
    SpaceFacts();
    NonWhitespaceAppend(x + " ", word);
    NonWhitespaceAppend(x, " ");
  }

  lemma SameLineStep(st: WrapState, word: string, m: nat)
    requires m > 0 && Fits(st, m)
    requires NonWhitespace(word) == word
    requires Utf8Len(word) <= m
    requires |st.current| == 0 || Utf8Len(st.current) + 1 + Utf8Len(word) <= m
    ensures Fits(WrapWord(st, word, m), m)
    ensures Placed(WrapWord(st, word, m)) == Placed(st) + word
    ensures WrapWord(st, word, m).lines == st.lines
    ensures WrapWord(st, word, m).current
      == (if |st.current| > 0 then st.current + " " + word else word)
  {
    if |st.current| > 0 {
      JoinStep(st, word, m);
    } else {
      var r := WrapWord(st, word, m);
      assert r == WrapState(st.lines, word);
      AppendEmpty(Concat(st.lines));
      NonWhitespaceAppend(Concat(st.lines) + st.current, word);
    }
  }

  lemma JoinStep(st: WrapState, word: string, m: nat)
    requires m > 0 && Fits(st, m)
    requires NonWhitespace(word) == word
    requires Utf8Len(word) <= m
    requires |st.current| > 0 && Utf8Len(st.current) + 1 + Utf8Len(word) <= m
    ensures Fits(WrapWord(st, word, m), m)
    ensures Placed(WrapWord(st, word, m)) == Placed(st) + word
  {
    var cur := st.current;
    var cl := Concat(st.lines);
    var joined := cur + " " + word;
    assert WrapWord(st, word, m) == WrapState(st.lines, joined);
    SpaceFacts();
    Utf8LenAppend(cur, " ");
    Utf8LenAppend(cur + " ", word);
    AppendAssociative(cl, cur + " ", word);
    AppendAssociative(cl, cur, " ");
    PlacedJoin(cl + cur, word);
  }

  /** The loop of `wrap_text` over the words, in order. */
  function WrapWords(st: WrapState, words: seq<string>, m: nat): WrapState
    requires m > 0
    decreases |words|
  {
    if |words| == 0 then st else WrapWords(WrapWord(st, words[0], m), words[1..], m)
  }

  lemma {:induction false} WrapWordsStep(st: WrapState, words: seq<string>, m: nat)
    requires m > 0 && Fits(st, m)
    requires forall i | 0 <= i < |words| :: |words[i]| > 0 && NoWhitespace(words[i])
    ensures Fits(WrapWords(st, words, m), m)
    ensures Placed(WrapWords(st, words, m)) == Placed(st) + Concat(words)
    decreases |words|
  {
    if |words| == 0 {
      AppendEmpty(Placed(st));
    } else {
      var w, rest := words[0], words[1..];
      WrapWordStep(st, w, m);
      assert forall i | 0 <= i < |rest| :: rest[i] == words[i + 1];
      WrapWordsStep(WrapWord(st, w, m), rest, m);
      assert Concat(words) == w + Concat(rest);
      AppendAssociative(Placed(st), w, Concat(rest));
    }
  }

  /** The open line is emitted at the end when it is not empty. */
  function Finish(st: WrapState): seq<string>
  {
    if |st.current| > 0 then st.lines + [st.current] else st.lines
  }

  /** Emitting the open line keeps every line fitting and adds no character. */
  lemma FinishLines(st: WrapState, m: nat)
    requires Fits(st, m) && m > 0
    ensures AllFit(Finish(st), m)
    ensures NonWhitespace(Concat(Finish(st))) == Placed(st)
  {
    if |st.current| > 0 {
      ConcatAppend(st.lines, [st.current]);
      ConcatSingle(st.current);
      assert AllFit([st.current], m);
      AllFitAppend(st.lines, [st.current], m);
    } else {
      AppendEmpty(Concat(st.lines));
    }
  }

  /**
   * `wrap_text`: no lines for width 0; otherwise every line is non-empty and
   * at most `maxWidth` characters, and the lines' non-whitespace characters,
   * in order, are exactly the text's: no word is dropped or reordered.
   */
  function WrapText(text: string, maxWidth: nat): (lines: seq<string>)
    ensures maxWidth == 0 ==> lines == []
    ensures forall i | 0 <= i < |lines| :: 0 < |lines[i]| <= maxWidth
    ensures maxWidth > 0 ==> NonWhitespace(Concat(lines)) == NonWhitespace(text)
  {
    if maxWidth == 0 then []
    else
      var words := SplitWhitespace(text);
      var st := WrapWords(START, words, maxWidth);
      WrapWordsStep(START, words, maxWidth);
      SplitWhitespaceKeepsText(text);
      assert Placed(START) == "";
      FinishLines(st, maxWidth);
      Finish(st)
  }

  /** The first word of an empty line opens it. */
  lemma OpenLine(st: WrapState, word: string, m: nat)
    requires m > 0 && |st.current| == 0 && Utf8Len(word) <= m
    ensures WrapWord(st, word, m) == WrapState(st.lines, word)
  {
    assert "" + word == word;
  }

  /** A word that does not fit after a space closes the open line and starts the next. */
  lemma BreakLine(st: WrapState, word: string, m: nat)
    requires m > 0 && Utf8Len(word) <= m
    requires |st.current| > 0 && Utf8Len(st.current) + 1 + Utf8Len(word) > m
    ensures WrapWord(st, word, m) == WrapState(st.lines + [st.current], word)
  {
    assert "" + word == word;
  }

  lemma ExampleLengths(the: string, quick: string, brown: string, fox: string)
    requires the == "The" && quick == "quick" && brown == "brown" && fox == "fox"
    ensures Utf8Len(the) == 3 && Utf8Len(quick) == 5 && Utf8Len(brown) == 5 && Utf8Len(fox) == 3
  {
    assert Utf8Len(the) == 3 by { AsciiUtf8Len(the); }
    assert Utf8Len(quick) == 5 by { AsciiUtf8Len(quick); }
    assert Utf8Len(brown) == 5 by { AsciiUtf8Len(brown); }
    assert Utf8Len(fox) == 3 by { AsciiUtf8Len(fox); }
  }

  /**
   * Greedy packing of "The quick brown fox" at width 10: "The quick" fits,
   * "brown" does not fit after it and starts the open line, "fox" joins it.
   */
  lemma GreedyExample(the: string, quick: string, brown: string, fox: string)
    requires the == "The" && quick == "quick" && brown == "brown" && fox == "fox"
    ensures WrapWord(WrapWord(WrapWord(WrapWord(START, the, 10), quick, 10), brown, 10), fox, 10)
      == WrapState([the + " " + quick], brown + " " + fox)
  {
    ExampleLengths(the, quick, brown, fox);
    var s2 := WrapState([], the + " " + quick);
    assert WrapWord(WrapWord(START, the, 10), quick, 10) == s2 by {
      OpenLine(START, the, 10);
    }
    assert Utf8Len(the + " " + quick) == 9 by {
      SpaceFacts();
      Utf8LenAppend(the, " ");
      Utf8LenAppend(the + " ", quick);
    }
    BreakLine(s2, brown, 10);
  }

  /** A word longer than the width becomes width-sized chunks. */
  lemma ChunkExample()
    ensures Chunks("abcdefghij", 4) == ["abcd", "efgh", "ij"]
  {
    var w := "abcdefghij";
    assert w[..4] == "abcd" && w[4..] == "efghij";
    assert "efghij"[..4] == "efgh" && "efghij"[4..] == "ij";
    assert Chunks("ij", 4) == ["ij"];
    assert Chunks("efghij", 4) == ["efgh"] + ["ij"];
  }
}
