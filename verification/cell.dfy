/**
 * One character position of the page grid: a printable ASCII byte and a
 * two-flag style set (bold, underline).
 */
module Cells {
  import opened Base

  /**
   * The bits a `StyleFlags` can hold. Its field is private and only ever
   * built from NONE, BOLD and UNDERLINE by OR, so only the low two bits occur.
   */
  type StyleBits = b: bv8 | b < 4

  datatype StyleFlags = StyleFlags(bits: StyleBits)
  {
    predicate Bold()
    {
      bits & BOLD.bits != 0
    }

    predicate Underline()
    {
      bits & UNDERLINE.bits != 0
    }

    /** Bold on, underline kept. */
    function WithBold(): (r: StyleFlags)
      ensures r.Bold()
      ensures r.Underline() == Underline()
    {
      StyleFlags(bits | BOLD.bits)
    }

    /** Underline on, bold kept. */
    function WithUnderline(): (r: StyleFlags)
      ensures r.Underline()
      ensures r.Bold() == Bold()
    {
      StyleFlags(bits | UNDERLINE.bits)
    }
  }

  const NONE := StyleFlags(0)
  const BOLD := StyleFlags(1)
  const UNDERLINE := StyleFlags(2)

  /** The style with exactly the given flags set. */
  function StyleOf(bold: bool, underline: bool): (s: StyleFlags)
    ensures s.Bold() == bold && s.Underline() == underline
  {
    StyleFlags((if bold then 1 else 0) | (if underline then 2 else 0))
  }

  /** A style is determined by its two flags (it holds no other bits). */
  lemma StyleDeterminedByFlags(s: StyleFlags)
    ensures StyleOf(s.Bold(), s.Underline()) == s
  {
  }

  lemma StyleConstants()
    ensures !NONE.Bold() && !NONE.Underline()
    ensures BOLD.Bold() && !BOLD.Underline()
    ensures !UNDERLINE.Bold() && UNDERLINE.Underline()
  {
  }

  /** `with_bold`/`with_underline` are idempotent and commute (bitwise OR). */
  lemma StyleBuildersCommute(s: StyleFlags)
    ensures s.WithBold().WithBold() == s.WithBold()
    ensures s.WithUnderline().WithUnderline() == s.WithUnderline()
    ensures s.WithBold().WithUnderline() == s.WithUnderline().WithBold()
  {
  }

  /** A byte `Cell::new` can store: printable ASCII, 32..=126. */
  type Printable = b: U8 | 32 <= b <= 126 witness 32

  const SPACE: Printable := 32
  const QUESTION_MARK: Printable := 63

  datatype Cell = Cell(character: Printable, style: StyleFlags)

  /** `Cell::EMPTY`: a space with no style. */
  const EMPTY := Cell(SPACE, NONE)

  predicate IsPrintableAscii(ch: char)
  {
    32 <= ch as int <= 126
  }

  /**
   * `Cell::new`: printable ASCII is stored as its byte; every other character
   * (controls, DEL, non-ASCII) becomes `'?'`. The style is stored unchanged.
   */
  function NewCell(ch: char, style: StyleFlags): (c: Cell)
    ensures IsPrintableAscii(ch) ==> c.character as int == ch as int
    ensures !IsPrintableAscii(ch) ==> c.character == QUESTION_MARK
    ensures c.style == style
  {
    if IsPrintableAscii(ch) then Cell(ch as int, style) else Cell(QUESTION_MARK, style)
  }

  /** Two cells built by `Cell::new` are equal iff their stored bytes and styles are. */
  lemma NewCellEquality(a: char, sa: StyleFlags, b: char, sb: StyleFlags)
    requires IsPrintableAscii(a) && IsPrintableAscii(b)
    ensures NewCell(a, sa) == NewCell(b, sb) <==> a == b && sa == sb
  {
    if NewCell(a, sa) == NewCell(b, sb) {
      assert a as int == NewCell(a, sa).character as int == b as int;
    }
  }
}
