/**
 * The ESC/P2 driver's command encoders (text style, pitch, font, graphics,
 * positioning and page layout), a parser for the same byte language, and
 * the proof that every command is read back from its encoding.
 */
module Commands {
  import opened Seqs
  import opened Base
  import opened Cells
  import opened Printers
  import opened Words
  import Escp

  /** `Font`: the five typefaces and their ESC k parameter 0..4. */
  datatype Font = Roman | SansSerif | Courier | Script | Prestige

  function FontByte(f: Font): (n: U8)
    ensures n <= 4
  {
    match f
    case Roman => 0
    case SansSerif => 1
    case Courier => 2
    case Script => 3
    case Prestige => 4
  }

  function FontOf(n: U8): (f: Option<Font>)
    ensures f.Some? <==> n <= 4
    ensures f.Some? ==> FontByte(f.value) == n
  {
    if n == 0 then Some(Roman)
    else if n == 1 then Some(SansSerif)
    else if n == 2 then Some(Courier)
    else if n == 3 then Some(Script)
    else if n == 4 then Some(Prestige)
    else None
  }

  /** `GraphicsMode`: the bit-image densities and their command letters K, L and Y. */
  datatype GraphicsMode = SingleDensity | DoubleDensity | HighDensity

  function ModeByte(m: GraphicsMode): U8
  {
    match m
    case SingleDensity => 0x4B
    case DoubleDensity => 0x4C
    case HighDensity => 0x59
  }

  function ModeOf(b: U8): (m: Option<GraphicsMode>)
    ensures m.Some? <==> b in {0x4B, 0x4C, 0x59}
    ensures m.Some? ==> ModeByte(m.value) == b
  {
    if b == 0x4B then Some(SingleDensity)
    else if b == 0x4C then Some(DoubleDensity)
    else if b == 0x59 then Some(HighDensity)
    else None
  }

  /** `Pitch`: 10, 12 and 15 characters per inch. */
  datatype Pitch = Pica | Elite | Condensed

  /** `Pitch::as_command`. */
  function PitchBytes(p: Pitch): seq<U8>
  {
    match p
    case Pica => [0x1B, 0x50]
    case Elite => [0x1B, 0x4D]
    case Condensed => [0x1B, 0x67]
  }

  /** `LineSpacing`: the default 1/6 inch, or n/180 inch. */
  datatype LineSpacingSetting = DefaultSpacing | CustomSpacing(dots: U8)

  /** `LineSpacing::as_command`. */
  function SpacingBytes(s: LineSpacingSetting): seq<U8>
  {
    match s
    case DefaultSpacing => [0x1B, 0x32]
    case CustomSpacing(n) => [0x1B, 0x33, n]
  }

  // ---------------------------------------------------------------------
  // Commands

  /** Every command the driver sends, except free text. */
  datatype DriverCommand =
    | ResetPrinter
    | StatusQuery
    | BoldOn | BoldOff
    | UnderlineOn | UnderlineOff
    | DoubleStrikeOn | DoubleStrikeOff
    | Pitch10 | Pitch12 | Pitch15
    | SelectFont(font: Font)
    | Graphics(mode: GraphicsMode, data: seq<U8>)
    | MicroForward(units: U8)
    | MicroReverse(units: U8)
    | MoveAbsoluteX(position: U16)
    | MoveRelativeX(offset: I16)
    | PageLengthLines(lines: U8)
    | PageLengthDots(dots: U16)
    | FormFeed | LineFeed | CarriageReturn
    | LineSpacing(spacing: U8)
    | DefaultLineSpacing
    | LeftMargin(margin: U8)
    | RightMargin(margin: U8)

  /** The commands the driver can send: the validated parameters are in range. */
  predicate Sendable(c: DriverCommand)
  {
    match c
    case Graphics(_, data) => |data| <= U16_MAX
    case MicroForward(n) => n != 0
    case MicroReverse(n) => n != 0
    case PageLengthLines(n) => n >= 1
    case PageLengthDots(d) => d >= 1
    case _ => true
  }

  /** The bytes of a command. */
  function Encode(c: DriverCommand): (bs: seq<U8>)
    requires Sendable(c)
    ensures |bs| >= 1
  {
    match c
    case ResetPrinter => [0x1B, 0x40]
    case StatusQuery => STATUS_QUERY
    case BoldOn => [0x1B, 0x45]
    case BoldOff => [0x1B, 0x46]
    case UnderlineOn => [0x1B, 0x2D, 0x01]
    case UnderlineOff => [0x1B, 0x2D, 0x00]
    case DoubleStrikeOn => [0x1B, 0x47]
    case DoubleStrikeOff => [0x1B, 0x48]
    case Pitch10 => [0x1B, 0x50]
    case Pitch12 => [0x1B, 0x4D]
    case Pitch15 => [0x1B, 0x67]
    case SelectFont(f) => [0x1B, 0x6B, FontByte(f)]
    case Graphics(m, data) => [0x1B, ModeByte(m), Lo(|data|), Hi(|data|)] + data
    case MicroForward(n) => [0x1B, 0x4A, n]
    case MicroReverse(n) => [0x1B, 0x6A, n]
    case MoveAbsoluteX(p) => [0x1B, 0x24, Lo(p), Hi(p)]
    case MoveRelativeX(o) => [0x1B, 0x5C, Lo(TwosComplement(o)), Hi(TwosComplement(o))]
    case PageLengthLines(n) => [0x1B, 0x43, n]
    case PageLengthDots(d) => [0x1B, 0x28, 0x43, 0x02, 0x00, Lo(d), Hi(d)]
    case FormFeed => [0x0C]
    case LineFeed => [0x0A]
    case CarriageReturn => [0x0D]
    case LineSpacing(n) => [0x1B, 0x33, n]
    case DefaultLineSpacing => [0x1B, 0x32]
    case LeftMargin(n) => [0x1B, 0x6C, n]
    case RightMargin(n) => [0x1B, 0x51, n]
  }

  /** ESC followed by a command letter and its parameters. */
  function ParseEscape(bs: seq<U8>): (r: Option<(DriverCommand, nat)>)
    requires |bs| >= 2 && bs[0] == 0x1B
    ensures r.Some? ==> 2 <= r.value.1 <= |bs|
  {
    var letter := bs[1];
    if letter == 0x40 then Some((ResetPrinter, 2))
    else if letter == 0x45 then Some((BoldOn, 2))
    else if letter == 0x46 then Some((BoldOff, 2))
    else if letter == 0x47 then Some((DoubleStrikeOn, 2))
    else if letter == 0x48 then Some((DoubleStrikeOff, 2))
    else if letter == 0x50 then Some((Pitch10, 2))
    else if letter == 0x4D then Some((Pitch12, 2))
    else if letter == 0x67 then Some((Pitch15, 2))
    else if letter == 0x32 then Some((DefaultLineSpacing, 2))
    else if |bs| < 3 then None
    else if letter == 0x2D then
      (if bs[2] == 0x01 then Some((UnderlineOn, 3)) else if bs[2] == 0x00 then Some((UnderlineOff, 3)) else None)
    else if letter == 0x6B then
      (if FontOf(bs[2]).Some? then Some((SelectFont(FontOf(bs[2]).value), 3)) else None)
    else if letter == 0x4A then (if bs[2] != 0 then Some((MicroForward(bs[2]), 3)) else None)
    else if letter == 0x6A then (if bs[2] != 0 then Some((MicroReverse(bs[2]), 3)) else None)
    else if letter == 0x43 then (if bs[2] >= 1 then Some((PageLengthLines(bs[2]), 3)) else None)
    else if letter == 0x33 then Some((LineSpacing(bs[2]), 3))
    else if letter == 0x6C then Some((LeftMargin(bs[2]), 3))
    else if letter == 0x51 then Some((RightMargin(bs[2]), 3))
    else if |bs| < 4 then None
    else if letter == 0x24 then Some((MoveAbsoluteX(LittleEndian(bs[2], bs[3])), 4))
    else if letter == 0x5C then Some((MoveRelativeX(Signed(LittleEndian(bs[2], bs[3]))), 4))
    else if ModeOf(letter).Some? then
      var width := LittleEndian(bs[2], bs[3]);
      if |bs| < 4 + width then None
      else Some((Graphics(ModeOf(letter).value, bs[4..4 + width]), 4 + width))
    else if letter == 0x28 then
      if |bs| < 7 || bs[2..5] != [0x43, 0x02, 0x00] then None
      else
        var dots := LittleEndian(bs[5], bs[6]);
        if dots >= 1 then Some((PageLengthDots(dots), 7)) else None
    else None
  }

  /** The command at the head of a byte stream and the number of bytes it takes. */
  function ParseOne(bs: seq<U8>): (r: Option<(DriverCommand, nat)>)
    ensures r.Some? ==> 1 <= r.value.1 <= |bs|
  {
    if |bs| == 0 then None
    else if bs[0] == 0x0C then Some((FormFeed, 1))
    else if bs[0] == 0x0A then Some((LineFeed, 1))
    else if bs[0] == 0x0D then Some((CarriageReturn, 1))
    else if bs[0] == 0x10 then
      (if |bs| >= 3 && bs[1] == 0x04 && bs[2] == 0x01 then Some((StatusQuery, 3)) else None)
    else if bs[0] == 0x1B && |bs| >= 2 then ParseEscape(bs)
    else None
  }

  /** Every command is read back from its bytes, whatever follows them. */
  lemma ParseEncode(c: DriverCommand, rest: seq<U8>)
    requires Sendable(c)
    ensures ParseOne(Encode(c) + rest) == Some((c, |Encode(c)|))
  {
    match c
    case Graphics(m, data) => ParseGraphics(m, data, rest);
    case MoveAbsoluteX(p) => ParseMoveAbsolute(p, rest);
    case MoveRelativeX(o) => ParseMoveRelative(o, rest);
    case PageLengthDots(d) => ParsePageLengthDots(d, rest);
    case SelectFont(_) => ParseByteParameter(c, rest);
    case MicroForward(_) => ParseByteParameter(c, rest);
    case MicroReverse(_) => ParseByteParameter(c, rest);
    case PageLengthLines(_) => ParseByteParameter(c, rest);
    case LineSpacing(_) => ParseByteParameter(c, rest);
    case LeftMargin(_) => ParseByteParameter(c, rest);
    case RightMargin(_) => ParseByteParameter(c, rest);
    case UnderlineOn => ParseByteParameter(c, rest);
    case UnderlineOff => ParseByteParameter(c, rest);
    case _ => ParseBare(c, rest);
  }

  /** The commands without a parameter byte. */
  predicate Bare(c: DriverCommand)
  {
    c.ResetPrinter? || c.StatusQuery? || c.BoldOn? || c.BoldOff? || c.DoubleStrikeOn? || c.DoubleStrikeOff?
    || c.Pitch10? || c.Pitch12? || c.Pitch15? || c.FormFeed? || c.LineFeed? || c.CarriageReturn?
    || c.DefaultLineSpacing?
  }

  lemma ParseBare(c: DriverCommand, rest: seq<U8>)
    requires Bare(c)
    ensures ParseOne(Encode(c) + rest) == Some((c, |Encode(c)|))
  {
  }

  /** The commands made of ESC, a letter and one parameter byte. */
  lemma ParseByteParameter(c: DriverCommand, rest: seq<U8>)
    requires Sendable(c)
    requires c.SelectFont? || c.MicroForward? || c.MicroReverse? || c.PageLengthLines? || c.LineSpacing?
      || c.LeftMargin? || c.RightMargin? || c.UnderlineOn? || c.UnderlineOff?
    ensures ParseOne(Encode(c) + rest) == Some((c, 3))
  {
    var bs := Encode(c) + rest;
    assert |bs| >= 3 && bs[0] == 0x1B && bs[2] == Encode(c)[2];
    if c.SelectFont? {
      assert FontOf(bs[2]) == Some(c.font) by {
        assert FontOf(FontByte(c.font)).Some?;
      }
    }
  }

  lemma ParseGraphics(m: GraphicsMode, data: seq<U8>, rest: seq<U8>)
    requires |data| <= U16_MAX
    ensures ParseOne(Encode(Graphics(m, data)) + rest) == Some((Graphics(m, data), 4 + |data|))
  {
    var bs := Encode(Graphics(m, data)) + rest;
    assert bs[0] == 0x1B && bs[1] == ModeByte(m) && |bs| >= 4 + |data|;
    assert LittleEndian(bs[2], bs[3]) == |data| by {
      SplitReadBack(|data|);
    }
    assert bs[4..4 + |data|] == data;
    GraphicsEscape(bs);
  }

  /** ESC with a density letter reads a width and that many data bytes. */
  lemma GraphicsEscape(bs: seq<U8>)
    requires |bs| >= 4 && bs[0] == 0x1B && ModeOf(bs[1]).Some?
    ensures var width := LittleEndian(bs[2], bs[3]);
      ParseOne(bs) == if |bs| < 4 + width then None
        else Some((Graphics(ModeOf(bs[1]).value, bs[4..4 + width]), 4 + width))
  {
  }

  lemma ParseMoveAbsolute(p: U16, rest: seq<U8>)
    ensures ParseOne(Encode(MoveAbsoluteX(p)) + rest) == Some((MoveAbsoluteX(p), 4))
  {
    var bs := Encode(MoveAbsoluteX(p)) + rest;
    LittleEndianRoundTrip(p, 0, 0);
    assert bs[0] == 0x1B && bs[1] == 0x24;
    assert LittleEndian(bs[2], bs[3]) == p;
  }

  lemma ParseMoveRelative(o: I16, rest: seq<U8>)
    ensures ParseOne(Encode(MoveRelativeX(o)) + rest) == Some((MoveRelativeX(o), 4))
  {
    var bs := Encode(MoveRelativeX(o)) + rest;
    LittleEndianRoundTrip(TwosComplement(o), 0, 0);
    TwosComplementRoundTrip(o, 0);
    assert bs[0] == 0x1B && bs[1] == 0x5C;
    assert Signed(LittleEndian(bs[2], bs[3])) == o;
  }

  lemma ParsePageLengthDots(d: U16, rest: seq<U8>)
    requires d >= 1
    ensures ParseOne(Encode(PageLengthDots(d)) + rest) == Some((PageLengthDots(d), 7))
  {
    var bs := Encode(PageLengthDots(d)) + rest;
    LittleEndianRoundTrip(d, 0, 0);
    assert bs[0] == 0x1B && bs[1] == 0x28;
    assert bs[2..5] == [0x43, 0x02, 0x00];
    assert LittleEndian(bs[5], bs[6]) == d;
  }

  /** A command list sent one after another. */
  function EncodeAll(cs: seq<DriverCommand>): (bs: seq<U8>)
    requires forall i | 0 <= i < |cs| :: Sendable(cs[i])
  {
    if |cs| == 0 then [] else Encode(cs[0]) + EncodeAll(cs[1..])
  }

  /** Commands read one after another until the stream is used up. */
  function ParseAll(bs: seq<U8>): Option<seq<DriverCommand>>
    decreases |bs|
  {
    if |bs| == 0 then Some([])
    else match ParseOne(bs)
      case None => None
      case Some((c, n)) =>
        match ParseAll(bs[n..])
        case None => None
        case Some(cs) => Some([c] + cs)
  }

  /** The byte stream of any command list parses back to that list. */
  lemma {:induction false} ParseEncodeAll(cs: seq<DriverCommand>)
    requires forall i | 0 <= i < |cs| :: Sendable(cs[i])
    ensures ParseAll(EncodeAll(cs)) == Some(cs)
    decreases |cs|
  {
    if |cs| > 0 {
      var head := Encode(cs[0]);
      var tail := EncodeAll(cs[1..]);
      ParseEncode(cs[0], tail);
      assert (head + tail)[|head|..] == tail;
      ParseEncodeAll(cs[1..]);
      assert [cs[0]] + cs[1..] == cs;
    }
  }

  /** The bytes of distinct command lists differ. */
  lemma EncodeAllInjective(cs: seq<DriverCommand>, ds: seq<DriverCommand>)
    requires forall i | 0 <= i < |cs| :: Sendable(cs[i])
    requires forall i | 0 <= i < |ds| :: Sendable(ds[i])
    requires EncodeAll(cs) == EncodeAll(ds)
    ensures cs == ds
  {
    ParseEncodeAll(cs);
    ParseEncodeAll(ds);
  }

  /** The driver's style codes are the serializer's, byte for byte. */
  lemma DriverMatchesSerializer()
    ensures Encode(ResetPrinter) == Escp.ESC_RESET
    ensures Encode(BoldOn) == Escp.ESC_BOLD_ON && Encode(BoldOff) == Escp.ESC_BOLD_OFF
    ensures Encode(UnderlineOn) == Escp.ESC_UNDERLINE_ON && Encode(UnderlineOff) == Escp.ESC_UNDERLINE_OFF
  {
  }

  /** The driver's form feed, line feed and carriage return are the serializer's. */
  lemma DriverControlsMatchSerializer()
    ensures Encode(FormFeed) == [Escp.FF] && Encode(LineFeed) == [Escp.LF] && Encode(CarriageReturn) == [Escp.CR]
  {
  }

  /**
   * The typed pitch and line-spacing settings produce the same bytes as the
   * driver's methods, and distinct settings are distinct bytes.
   */
  lemma PitchesAreCommands(p: Pitch, q: Pitch)
    ensures PitchBytes(p) == Encode(match p case Pica => Pitch10 case Elite => Pitch12 case Condensed => Pitch15)
    ensures PitchBytes(p) == PitchBytes(q) ==> p == q
  {
  }

  lemma SpacingsAreCommands(s: LineSpacingSetting, t: LineSpacingSetting)
    ensures SpacingBytes(s) == Encode(match s case DefaultSpacing => DefaultLineSpacing case CustomSpacing(n) => LineSpacing(n))
    ensures SpacingBytes(s) == SpacingBytes(t) ==> s == t
  {
    if SpacingBytes(s) == SpacingBytes(t) && s.CustomSpacing? && t.CustomSpacing? {
      assert SpacingBytes(s)[2] == SpacingBytes(t)[2];
    }
  }

  // ---------------------------------------------------------------------
  // The driver's methods, as operations on the byte log

  /** Sends one command; the log grows by exactly its bytes. */
  function Issue(p: Printer, c: DriverCommand): (r: Printer)
    requires Sendable(c)
    ensures |r.log| == |p.log| + |Encode(c)|
    ensures r.log[..|p.log|] == p.log
    ensures ParseOne(r.log[|p.log|..]) == Some((c, |Encode(c)|))
    ensures r.maxGraphicsWidth == p.maxGraphicsWidth
  {
    var r := Send(p, Encode(c));
    ParseEncode(c, []);
    assert r.log[|p.log|..] == Encode(c) + [];
    r
  }

  /** A session of commands from a fresh printer leaves a log that parses back to them. */
  function Session(p: Printer, cs: seq<DriverCommand>): (r: Printer)
    requires forall i | 0 <= i < |cs| :: Sendable(cs[i])
    ensures r.maxGraphicsWidth == p.maxGraphicsWidth
    ensures r.log == p.log + EncodeAll(cs)
    decreases |cs|
  {
    if |cs| == 0 then p
    else
      var tail := cs[1..];
      EncodeAllCons(cs);
      var r := Session(Send(p, Encode(cs[0])), tail);
      AppendAssociative(p.log, Encode(cs[0]), EncodeAll(tail));
      r
  }

  lemma EncodeAllCons(cs: seq<DriverCommand>)
    requires |cs| > 0 && forall i | 0 <= i < |cs| :: Sendable(cs[i])
    ensures forall i | 0 <= i < |cs| - 1 :: Sendable(cs[1..][i])
    ensures EncodeAll(cs) == Encode(cs[0]) + EncodeAll(cs[1..])
  {
    assert forall i | 0 <= i < |cs| - 1 :: cs[1..][i] == cs[i + 1];
  }

  lemma SessionParses(maxWidth: U16, cs: seq<DriverCommand>)
    requires forall i | 0 <= i < |cs| :: Sendable(cs[i])
    ensures ParseAll(Session(NewPrinter(maxWidth), cs).log) == Some(cs)
  {
    ParseEncodeAll(cs);
    assert [] + EncodeAll(cs) == EncodeAll(cs);
  }

  /** `print_graphics` rejects. */
  datatype ValidationError =
    | MicroFeedZero
    | GraphicsWidthExceeded(width: U16, maxWidth: U16)
    | GraphicsWidthMismatch(width: U16, dataLen: nat)
    | InvalidPageLength(value: U8)

  /**
   * `print_graphics`: a width above the printer's maximum is rejected first,
   * then a width other than the data length; otherwise ESC, the mode letter,
   * nL nH of the width, and the data go out. A rejected call sends nothing.
   */
  function PrintGraphics(p: Printer, mode: GraphicsMode, width: U16, data: seq<U8>): (r: Result<Printer, ValidationError>)
    ensures r.Err? <==> width > p.maxGraphicsWidth || width != |data|
    ensures width > p.maxGraphicsWidth ==> r == Err(GraphicsWidthExceeded(width, p.maxGraphicsWidth))
    ensures width <= p.maxGraphicsWidth && width != |data| ==> r == Err(GraphicsWidthMismatch(width, |data|))
    ensures r.Ok? ==> |r.value.log| == |p.log| + 4 + width
    ensures r.Ok? ==> r.value == Issue(p, Graphics(mode, data))
  {
    if width > p.maxGraphicsWidth then Err(GraphicsWidthExceeded(width, p.maxGraphicsWidth))
    else if width != |data| then Err(GraphicsWidthMismatch(width, |data|))
    else Ok(Send(p, [0x1B, ModeByte(mode), Lo(width), Hi(width)] + data))
  }

  /** `micro_forward`: zero is rejected and nothing is sent; otherwise ESC J n. */
  function MicroForwardCmd(p: Printer, units: U8): (r: Result<Printer, ValidationError>)
    ensures r.Err? <==> units == 0
    ensures r.Err? ==> r.error == MicroFeedZero
    ensures r.Ok? ==> r.value == Issue(p, MicroForward(units))
  {
    if units == 0 then Err(MicroFeedZero) else Ok(Send(p, [0x1B, 0x4A, units]))
  }

  /** `micro_reverse`: zero is rejected and nothing is sent; otherwise ESC j n. */
  function MicroReverseCmd(p: Printer, units: U8): (r: Result<Printer, ValidationError>)
    ensures r.Err? <==> units == 0
    ensures r.Err? ==> r.error == MicroFeedZero
    ensures r.Ok? ==> r.value == Issue(p, MicroReverse(units))
  {
    if units == 0 then Err(MicroFeedZero) else Ok(Send(p, [0x1B, 0x6A, units]))
  }

  /** `move_absolute_x`: ESC $ nL nH, which a printer reads back as the position. */
  function MoveAbsoluteXCmd(p: Printer, position: U16): (r: Printer)
    ensures r == Issue(p, MoveAbsoluteX(position))
    ensures LittleEndian(r.log[|p.log| + 2], r.log[|p.log| + 3]) == position
  {
    var bytes := [0x1B, 0x24, Lo(position), Hi(position)];
    assert LittleEndian(bytes[2], bytes[3]) == position by {
      SplitReadBack(position);
    }
    Send(p, bytes)
  }

  /** `move_relative_x`: ESC \ nL nH of the offset's two's complement, read back signed as the offset. */
  function MoveRelativeXCmd(p: Printer, offset: I16): (r: Printer)
    ensures r == Issue(p, MoveRelativeX(offset))
    ensures Signed(LittleEndian(r.log[|p.log| + 2], r.log[|p.log| + 3])) == offset
  {
    var unsigned := TwosComplement(offset);
    var bytes := [0x1B, 0x5C, Lo(unsigned), Hi(unsigned)];
    assert Signed(LittleEndian(bytes[2], bytes[3])) == offset by {
      SplitReadBack(unsigned);
      TwosComplementRoundTrip(offset, 0);
    }
    Send(p, bytes)
  }

  /** `set_page_length_lines`: zero is rejected with its value; otherwise ESC C n. */
  function PageLengthLinesCmd(p: Printer, lines: U8): (r: Result<Printer, ValidationError>)
    ensures r.Err? <==> lines == 0
    ensures r.Err? ==> r.error == InvalidPageLength(0)
    ensures r.Ok? ==> r.value == Issue(p, PageLengthLines(lines))
  {
    if lines < 1 then Err(InvalidPageLength(lines)) else Ok(Send(p, [0x1B, 0x43, lines]))
  }

  /** `set_page_length_dots`: zero is rejected; otherwise ESC ( C 02 00 nL nH. */
  function PageLengthDotsCmd(p: Printer, dots: U16): (r: Result<Printer, ValidationError>)
    ensures r.Err? <==> dots == 0
    ensures r.Err? ==> r.error == InvalidPageLength(0)
    ensures r.Ok? ==> r.value == Issue(p, PageLengthDots(dots))
  {
    if dots < 1 then Err(InvalidPageLength(0))
    else Ok(Send(p, [0x1B, 0x28, 0x43, 0x02, 0x00, Lo(dots), Hi(dots)]))
  }

  /** `select_font`: ESC k and the font number. */
  function SelectFontCmd(p: Printer, font: Font): (r: Printer)
    ensures r == Issue(p, SelectFont(font))
    ensures r.log[|p.log| + 2] <= 4
  {
    Send(p, [0x1B, 0x6B, FontByte(font)])
  }

  // ---------------------------------------------------------------------
  // Free text

  /** `write_text`'s byte for one character: ASCII (controls included) as is, anything else `'?'`. */
  function TextByte(c: char): (b: U8)
    ensures c as int < 0x80 ==> b == c as int
    ensures c as int >= 0x80 ==> b == '?' as int
  {
    if c as int < 0x80 then c as int else '?' as int
  }

  function TextBytes(text: string): (bs: seq<U8>)
    ensures |bs| == |text|
    ensures forall i | 0 <= i < |text| :: bs[i] == TextByte(text[i])
  {
    seq(|text|, i requires 0 <= i < |text| => TextByte(text[i]))
  }

  /** `write_text`: one byte per character. */
  function WriteText(p: Printer, text: string): (r: Printer)
    ensures r == Send(p, TextBytes(text))
    ensures |r.log| == |p.log| + |text|
  {
    Send(p, TextBytes(text))
  }

  /**
   * `write_text` and the page grid agree on printable ASCII, but not on
   * control characters: the driver passes them to the printer, where a cell
   * stores `'?'`.
   */
  lemma TextBytesVersusCells(c: char)
    ensures IsPrintableAscii(c) ==> TextByte(c) == NewCell(c, NONE).character
    ensures c as int < 0x20 ==> TextByte(c) == c as int && NewCell(c, NONE).character == QUESTION_MARK
  {
  }

  lemma TextExample()
    ensures TextBytes("Aé\n") == [0x41, 0x3F, 0x0A]
  {
  }
}
