/**
 * The pieces of Rust's `str` behaviour the layout engine relies on: byte
 * length (`len`, the UTF-8 encoded size), `split_whitespace` and `lines`.
 * Strings are sequences of Unicode scalar values.
 */
module Text {
  import opened Seqs

  import opened Base

  /** Number of bytes in the UTF-8 encoding of `c`. */
  function Utf8Width(c: char): nat
  {
    if c as int < 0x80 then 1
    else if c as int < 0x800 then 2
    else if c as int < 0x1_0000 then 3
    else 4
  }

  /** `str::len`: the UTF-8 byte length of `s`. */
  function Utf8Len(s: string): (n: nat)
    ensures |s| <= n
    ensures n <= 4 * |s|
  {
    if |s| == 0 then 0 else Utf8Width(s[0]) + Utf8Len(s[1..])
  }

  predicate IsAscii(s: string)
  {
    forall i | 0 <= i < |s| :: s[i] as int < 0x80
  }

  lemma {:induction false} Utf8LenAppend(a: string, b: string)
    ensures Utf8Len(a + b) == Utf8Len(a) + Utf8Len(b)
    decreases |a|
  {
    if |a| == 0 {
      AppendEmpty(b);
      assert a == [];
    } else {
      TailOfAppend(a, b);
      Utf8LenAppend(a[1..], b);
    }
  }

  /** On ASCII text the byte length is the character count. */
  lemma {:induction false} AsciiUtf8Len(s: string)
    requires IsAscii(s)
    ensures Utf8Len(s) == |s|
    decreases |s|
  {
    if |s| > 0 {
      AsciiUtf8Len(s[1..]);
    }
  }

  /** Unicode's White_Space property, which `char::is_whitespace` tests. */
  predicate IsWhitespace(c: char)
  {
    var n := c as int;
    (0x09 <= n <= 0x0D) || n == 0x20 || n == 0x85 || n == 0xA0 || n == 0x1680
    || (0x2000 <= n <= 0x200A) || n == 0x2028 || n == 0x2029 || n == 0x202F
    || n == 0x205F || n == 0x3000
  }

  predicate NoWhitespace(s: string)
  {
    forall i | 0 <= i < |s| :: !IsWhitespace(s[i])
  }

  /** Length of the leading run of whitespace of `s`. */
  function LeadingSpace(s: string): (n: nat)
    ensures n <= |s|
    ensures forall i | 0 <= i < n :: IsWhitespace(s[i])
    ensures n < |s| ==> !IsWhitespace(s[n])
  {
    if |s| == 0 || !IsWhitespace(s[0]) then 0 else 1 + LeadingSpace(s[1..])
  }

  /** Length of the leading run of non-whitespace of `s`. */
  function LeadingWord(s: string): (n: nat)
    ensures n <= |s|
    ensures forall i | 0 <= i < n :: !IsWhitespace(s[i])
    ensures n < |s| ==> IsWhitespace(s[n])
  {
    if |s| == 0 || IsWhitespace(s[0]) then 0 else 1 + LeadingWord(s[1..])
  }

  /** The characters of `s` that are not whitespace, in order. */
  function NonWhitespace(s: string): string
  {
    if |s| == 0 then []
    else (if IsWhitespace(s[0]) then [] else [s[0]]) + NonWhitespace(s[1..])
  }

  function Concat(ss: seq<string>): string
  {
    if |ss| == 0 then [] else ss[0] + Concat(ss[1..])
  }

  lemma {:induction false} ConcatAppend(a: seq<string>, b: seq<string>)
    ensures Concat(a + b) == Concat(a) + Concat(b)
    decreases |a|
  {
    if |a| == 0 {
      AppendEmpty(b);
      assert a == [];
    } else {
      TailOfAppend(a, b);
      ConcatAppend(a[1..], b);
    }
  }

  lemma {:induction false} NonWhitespaceAppend(a: string, b: string)
    ensures NonWhitespace(a + b) == NonWhitespace(a) + NonWhitespace(b)
    decreases |a|
  {
    if |a| == 0 {
      AppendEmpty(b);
      assert a == [];
    } else {
      TailOfAppend(a, b);
      NonWhitespaceAppend(a[1..], b);
    }
  }

  lemma {:induction false} NonWhitespaceOfSpaces(s: string, n: nat)
    requires n <= |s|
    requires forall i | 0 <= i < n :: IsWhitespace(s[i])
    ensures NonWhitespace(s) == NonWhitespace(s[n..])
    decreases n
  {
    if n > 0 {
      NonWhitespaceOfSpaces(s[1..], n - 1);
      assert s[1..][n - 1..] == s[n..];
    }
  }

  lemma {:induction false} NonWhitespaceOfWord(s: string)
    requires NoWhitespace(s)
    ensures NonWhitespace(s) == s
    decreases |s|
  {
    if |s| > 0 {
      NonWhitespaceOfWord(s[1..]);
      HeadTail(s);
    }
  }

  /**
   * `str::split_whitespace`: the maximal runs of non-whitespace characters,
   * in order. Every word is non-empty and holds no whitespace.
   */
  function SplitWhitespace(s: string): (ws: seq<string>)
    ensures forall i | 0 <= i < |ws| :: |ws[i]| > 0 && NoWhitespace(ws[i])
    decreases |s|
  {
    var k := LeadingSpace(s);
    if k == |s| then []
    else
      var n := LeadingWord(s[k..]);
      [s[k..][..n]] + SplitWhitespace(s[k..][n..])
  }

  /** Splitting loses no character except whitespace, and reorders nothing. */
  lemma {:induction false} SplitWhitespaceKeepsText(s: string)
    ensures Concat(SplitWhitespace(s)) == NonWhitespace(s)
    decreases |s|
  {
    var k := LeadingSpace(s);
    NonWhitespaceOfSpaces(s, k);
    if k < |s| {
      var t := s[k..];
      var n := LeadingWord(t);
      var w, rest := t[..n], t[n..];
      var tail := SplitWhitespace(rest);
      assert SplitWhitespace(s) == [w] + tail;
      TailOfAppend([w], tail);
      assert Concat(SplitWhitespace(s)) == w + Concat(tail);
      SplitWhitespaceKeepsText(rest);
      SplitAt(t, n);
      NonWhitespaceAppend(w, rest);
      NonWhitespaceOfWord(w);
    }
  }

  /** Drops one trailing carriage return, as `lines` does before a `\n`. */
  function StripCr(line: string): (r: string)
    ensures r == line || r + "\r" == line
    ensures |line| > 0 && line[|line| - 1] == '\r' ==> r + "\r" == line
    ensures !(|line| > 0 && line[|line| - 1] == '\r') ==> r == line
  {
    if |line| > 0 && line[|line| - 1] == '\r' then line[..|line| - 1] else line
  }

  /** Index of the first `\n` in `s`, if any. */
  function FindNewline(s: string): (r: Option<nat>)
    ensures r.Some? ==> r.value < |s| && s[r.value] == '\n'
    ensures r.Some? ==> forall i | 0 <= i < r.value :: s[i] != '\n'
    ensures r.None? ==> forall i | 0 <= i < |s| :: s[i] != '\n'
  {
    if |s| == 0 then None
    else if s[0] == '\n' then Some(0)
    else match FindNewline(s[1..])
      case None => None
      case Some(i) => Some(i + 1)
  }

  /**
   * `str::lines`: split at each `\n` (a `\r` just before it is dropped); the
   * final line ending is optional, so a trailing `\n` adds no empty line.
   */
  function Lines(s: string): (ls: seq<string>)
    ensures |s| == 0 <==> |ls| == 0
    decreases |s|
  {
    if |s| == 0 then []
    else match FindNewline(s)
      case None => [s]
      case Some(i) => [StripCr(s[..i])] + Lines(s[i + 1..])
  }

  /** `lines` peels off the text before the first `\n`. */
  lemma LinesStep(a: string, b: string)
    requires forall i | 0 <= i < |a| :: a[i] != '\n'
    ensures Lines(a + "\n" + b) == [StripCr(a)] + Lines(b)
  {
    var s := a + "\n" + b;
    assert s[|a|] == '\n';
    assert forall i | 0 <= i < |a| :: s[i] == a[i];
    assert FindNewline(s) == Some(|a|);
    assert s[..|a|] == a && s[|a| + 1..] == b;
  }

  /** A text with no `\n` is one line, kept whole (a lone `\r` included). */
  lemma LinesSingle(a: string)
    requires |a| > 0
    requires forall i | 0 <= i < |a| :: a[i] != '\n'
    ensures Lines(a) == [a]
  {
  }

  /** Two `\n`-separated lines come back as two lines. */
  lemma LinesOfTwo(b: string, c: string)
    requires forall i | 0 <= i < |b| :: b[i] != '\n'
    requires forall i | 0 <= i < |c| :: c[i] != '\n'
    requires |c| > 0
    ensures Lines(b + "\n" + c) == [StripCr(b), c]
  {
    LinesSingle(c);
    LinesStep(b, c);
  }

  /** Three `\n`-separated lines come back as three lines. */
  lemma LinesOfThree(a: string, b: string, c: string)
    requires forall i | 0 <= i < |a| :: a[i] != '\n'
    requires forall i | 0 <= i < |b| :: b[i] != '\n'
    requires forall i | 0 <= i < |c| :: c[i] != '\n'
    requires |c| > 0
    ensures Lines(a + "\n" + (b + "\n" + c)) == [StripCr(a), StripCr(b), c]
  {
    LinesOfTwo(b, c);
    LinesStep(a, b + "\n" + c);
  }
}
